/** Go strings and byte slices, the byte-wise order that both `sort.Strings` and the
    LevelDB comparator use, and the sorted enumeration of a finite set of names. */
module ByteStrings {
  type byte = c: char | c < '\U{0100}' witness 'a'
  type Bytes = seq<byte>

  const SLASH: byte := '/'

  predicate HasPrefix(s: Bytes, p: Bytes) {
    |p| <= |s| && s[..|p|] == p
  }

  predicate OccursAt(s: Bytes, sub: Bytes, i: nat) {
    i + |sub| <= |s| && s[i..i + |sub|] == sub
  }

  predicate Contains(s: Bytes, sub: Bytes) {
    exists i | 0 <= i <= |s| :: OccursAt(s, sub, i)
  }

  /** Free of '/'. */
  predicate NoSlash(s: Bytes) {
    forall i | 0 <= i < |s| :: s[i] != SLASH
  }

  /** The text before the first '/' and the text after it are determined by the whole. */
  lemma SplitAtSlash(a: Bytes, x: Bytes, b: Bytes, y: Bytes)
    requires NoSlash(a) && NoSlash(b)
    requires a + [SLASH] + x == b + [SLASH] + y
    ensures a == b && x == y
  {
    var s := a + [SLASH] + x;
    assert s[|a|] == SLASH && s[|b|] == SLASH;
    assert forall i | 0 <= i < |b| :: s[i] == b[i];
    assert forall i | 0 <= i < |a| :: s[i] == a[i];
    assert a == s[..|a|] && b == s[..|b|];
    assert x == s[|a| + 1..] && y == s[|b| + 1..];
  }

  /** Byte-wise lexicographic order. */
  predicate Leq(a: Bytes, b: Bytes) {
    a == [] || (b != [] && (a[0] < b[0] || (a[0] == b[0] && Leq(a[1..], b[1..]))))
  }

  lemma {:induction false} LeqTotal(a: Bytes, b: Bytes)
    ensures Leq(a, b) || Leq(b, a)
  {
    if a != [] && b != [] && a[0] == b[0] {
      LeqTotal(a[1..], b[1..]);
    }
  }

  /** The order of Go's strings: a is at most b if it is a beginning of b, or has the smaller byte
      where they first differ. */
  lemma {:induction false} LeqIsLexicographic(a: Bytes, b: Bytes, i: nat)
    requires i <= |a| && i <= |b| && a[..i] == b[..i]
    ensures i == |a| ==> Leq(a, b)
    ensures i == |b| && i < |a| ==> !Leq(a, b)
    ensures i < |a| && i < |b| && a[i] != b[i] ==> (Leq(a, b) <==> a[i] < b[i])
  {
    if i > 0 {
      assert a[..i][0] == a[0] && b[..i][0] == b[0];
      assert a[1..][..i - 1] == a[..i][1..] && b[1..][..i - 1] == b[..i][1..];
      LeqIsLexicographic(a[1..], b[1..], i - 1);
    }
  }

  lemma {:induction false} LeqAntisymmetric(a: Bytes, b: Bytes)
    requires Leq(a, b) && Leq(b, a)
    ensures a == b
  {
    if a != [] {
      LeqAntisymmetric(a[1..], b[1..]);
      assert a == [a[0]] + a[1..] && b == [b[0]] + b[1..];
    }
  }

  lemma {:induction false} LeqTransitive(a: Bytes, b: Bytes, c: Bytes)
    requires Leq(a, b) && Leq(b, c)
    ensures Leq(a, c)
  {
    if a != [] && a[0] == b[0] && b[0] == c[0] {
      LeqTransitive(a[1..], b[1..], c[1..]);
    }
  }

  ghost predicate IsLeast(m: Bytes, s: set<Bytes>) {
    m in s && forall x | x in s :: Leq(m, x)
  }

  lemma {:induction false} LeastExists(s: set<Bytes>)
    requires s != {}
    ensures exists m :: IsLeast(m, s)
    decreases |s|
  {
    var x :| x in s;
    LeqTotal(x, x);
    var rest := s - {x};
    if rest == {} {
      assert s == rest + {x};
      assert IsLeast(x, s);
    } else {
      LeastExists(rest);
      var y :| IsLeast(y, rest);
      LeqTotal(x, y);
      if Leq(x, y) {
        forall z | z in s ensures Leq(x, z) {
          if z != x { LeqTransitive(x, y, z); }
        }
        assert IsLeast(x, s);
      } else {
        assert IsLeast(y, s);
      }
    }
  }

  lemma LeastUnique(s: set<Bytes>, a: Bytes, b: Bytes)
    requires IsLeast(a, s) && IsLeast(b, s)
    ensures a == b
  {
    LeqAntisymmetric(a, b);
  }

  ghost function Least(s: set<Bytes>): (m: Bytes)
    requires s != {}
    ensures IsLeast(m, s)
  {
    LeastExists(s);
    var m :| IsLeast(m, s);
    m
  }

  /** The elements of `s` in increasing order, as an iterator over the store visits them. */
  ghost function Ascending(s: set<Bytes>): seq<Bytes>
    decreases |s|
  {
    if s == {} then [] else
    var m := Least(s);
    [m] + Ascending(s - {m})
  }

  lemma {:induction false} AscendingElements(s: set<Bytes>)
    ensures forall x :: x in Ascending(s) <==> x in s
    ensures |Ascending(s)| == |s|
    decreases |s|
  {
    if s != {} {
      AscendingElements(s - {Least(s)});
    }
  }

  /** Visits the elements in increasing order. */
  method InOrder(s: set<Bytes>) returns (names: seq<Bytes>)
    ensures names == Ascending(s)
  {
    var left := s;
    names := [];
    while left != {}
      invariant names + Ascending(left) == Ascending(s)
      decreases |left|
    {
      LeastExists(left);
      var m: Bytes :| m in left && forall x | x in left :: Leq(m, x);
      LeastUnique(left, m, Least(left));
      names, left := names + [m], left - {m};
    }
  }

  ghost predicate Sorted(s: seq<Bytes>) {
    forall i, j | 0 <= i < j < |s| :: Leq(s[i], s[j])
  }

  lemma {:induction false} AscendingSorted(s: set<Bytes>)
    ensures Sorted(Ascending(s))
    ensures forall i, j | 0 <= i < j < |Ascending(s)| :: Ascending(s)[i] != Ascending(s)[j]
    decreases |s|
  {
    if s != {} {
      var m := Least(s);
      var rest := Ascending(s - {m});
      AscendingSorted(s - {m});
      AscendingElements(s - {m});
      forall j | 0 <= j < |rest| ensures Leq(m, rest[j]) && rest[j] != m {
        assert rest[j] in rest;
      }
      PrependLeast(m, rest);
      assert Ascending(s) == [m] + rest;
    }
  }

  lemma PrependLeast(m: Bytes, rest: seq<Bytes>)
    requires Sorted(rest) && forall j | 0 <= j < |rest| :: Leq(m, rest[j]) && rest[j] != m
    requires forall i, j | 0 <= i < j < |rest| :: rest[i] != rest[j]
    ensures Sorted([m] + rest)
    ensures forall i, j | 0 <= i < j < |[m] + rest| :: ([m] + rest)[i] != ([m] + rest)[j]
  {
    var r := [m] + rest;
    forall i, j | 0 <= i < j < |r| ensures Leq(r[i], r[j]) && r[i] != r[j] {
      assert r[j] == rest[j - 1];
      if i > 0 { assert r[i] == rest[i - 1]; }
    }
  }

  /** There is only one sorted arrangement of a collection of strings. */
  lemma {:induction false} SortedUnique(a: seq<Bytes>, b: seq<Bytes>)
    requires Sorted(a) && Sorted(b) && multiset(a) == multiset(b)
    ensures a == b
  {
    if a == [] {
      assert |multiset(b)| == 0;
    } else {
      assert a[0] in multiset(b) && b != [];
      HeadIsLeast(a, b);
      HeadIsLeast(b, a);
      LeqAntisymmetric(a[0], b[0]);
      TailMultiset(a);
      TailMultiset(b);
      SortedUnique(a[1..], b[1..]);
      assert a == [a[0]] + a[1..] && b == [b[0]] + b[1..];
    }
  }

  lemma TailMultiset(a: seq<Bytes>)
    requires a != []
    ensures multiset(a[1..]) == multiset(a) - multiset{a[0]}
    ensures Sorted(a) ==> Sorted(a[1..])
  {
    assert a == [a[0]] + a[1..];
  }

  lemma HeadIsLeast(a: seq<Bytes>, b: seq<Bytes>)
    requires Sorted(a) && a != [] && b != [] && multiset(a) == multiset(b)
    ensures Leq(a[0], b[0])
  {
    assert b[0] in multiset(a);
    var j :| 0 <= j < |a| && a[j] == b[0];
    LeqTotal(a[0], a[0]);
  }

  /** Any sorted list of the distinct elements of `s` is `Ascending(s)`. */
  lemma SortedDistinctIsAscending(a: seq<Bytes>, s: set<Bytes>)
    requires Sorted(a) && multiset(a) == multiset(s)
    ensures a == Ascending(s)
  {
    AscendingSorted(s);
    AscendingElements(s);
    DistinctMultiset(Ascending(s), s);
    SortedUnique(a, Ascending(s));
  }

  lemma {:induction false} DistinctMultiset(a: seq<Bytes>, s: set<Bytes>)
    requires forall x :: x in a <==> x in s
    requires forall i, j | 0 <= i < j < |a| :: a[i] != a[j]
    ensures multiset(a) == multiset(s)
  {
    if a == [] {
      assert s == {};
    } else {
      assert a == [a[0]] + a[1..];
      assert forall x :: x in a[1..] <==> x in s - {a[0]};
      DistinctMultiset(a[1..], s - {a[0]});
    }
  }
}
