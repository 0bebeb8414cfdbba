/** The cryptographic libraries as parameters with the laws the service relies on, and the
    additional data that AES encryption derives from an encryption context. */
module Crypto {
  import opened Wrappers
  import opened ByteStrings

  datatype EncryptionAlgorithm = SymmetricAlgorithm | OaepSha1 | OaepSha256 | OtherAlgorithm
  datatype MacAlgorithm = HmacSha224 | HmacSha256 | HmacSha384 | HmacSha512 | OtherMac
  datatype WrappingAlgorithm = Pkcs1V15 | WrapOaepSha1 | WrapOaepSha256 | NoWrapping

  const NONCE_SIZE: nat := 12
  const TAG_SIZE: nat := 16

  type Nonce = b: Bytes | |b| == NONCE_SIZE witness ['n', 'n', 'n', 'n', 'n', 'n', 'n', 'n', 'n', 'n', 'n', 'n']

  /** seal and open take (key, nonce, text, additional data), as in sections 2.1 and 2.2 of
      RFC 5116; rsaEncrypt and rsaDecrypt take (private key, algorithm, text), rsaEncrypt also
      its random seed; hmac takes (algorithm, key, message); unwrap takes (wrapping key,
      algorithm, wrapped material). */
  datatype Suite = Suite(
    seal: (Bytes, Nonce, Bytes, Bytes) -> Bytes,
    open: (Bytes, Nonce, Bytes, Bytes) -> Option<Bytes>,
    rsaEncrypt: (Bytes, EncryptionAlgorithm, Bytes, Bytes) -> Option<Bytes>,
    rsaDecrypt: (Bytes, EncryptionAlgorithm, Bytes) -> Option<Bytes>,
    hmac: (MacAlgorithm, Bytes, Bytes) -> Bytes,
    unwrap: (Bytes, WrappingAlgorithm, Bytes) -> Option<Bytes>)

  /** The only laws used: opening what was sealed gives the text back, and AES-GCM adds a
      16-byte tag. Nothing is assumed of the RSA, HMAC and unwrapping functions. */
  ghost predicate Lawful(c: Suite) {
    && (forall k, n, p, a :: c.open(k, n, c.seal(k, n, p, a), a) == Some(p))
    && (forall k, n, p, a :: |c.seal(k, n, p, a)| == |p| + TAG_SIZE)
  }

  /** A suite without any secrecy that meets the laws; wrapped material is the material itself. */
  function PlainSuite(): Suite {
    Suite(
      (k, n, p, a) => p + seq(TAG_SIZE, _ => '0'),
      (k, n, s: Bytes, a) => if |s| < TAG_SIZE then None else Some(s[..|s| - TAG_SIZE]),
      (k, g, p, s) => Some(p),
      (k, g, s) => Some(s),
      (g, k, m) => m,
      (k, g, w) => Some(w))
  }

  /** The laws can be met. */
  lemma LawfulSuiteExists()
    ensures Lawful(PlainSuite())
  {
    var c, tag := PlainSuite(), seq(TAG_SIZE, _ => '0');
    forall k: Bytes, n: Nonce, p: Bytes, a: Bytes
      ensures c.open(k, n, c.seal(k, n, p, a), a) == Some(p)
    {
      assert (p + tag)[..|p|] == p;
    }
  }

  //----------------------------------------------------------------------------------------
  // prepareAesEncryptionContext

  function AppendPairs(keys: seq<Bytes>, context: map<Bytes, Bytes>): Bytes
    requires forall k | k in keys :: k in context
  {
    if keys == [] then [] else keys[0] + context[keys[0]] + AppendPairs(keys[1..], context)
  }

  /** The additional data: every name followed by its value, names in increasing order. */
  ghost function ContextBytes(context: map<Bytes, Bytes>): Bytes {
    AscendingElements(context.Keys);
    AppendPairs(Ascending(context.Keys), context)
  }

  lemma {:induction false} PairsIgnoreOthers(keys: seq<Bytes>, context: map<Bytes, Bytes>, smaller: map<Bytes, Bytes>)
    requires forall k | k in keys :: k in context && k in smaller && smaller[k] == context[k]
    ensures AppendPairs(keys, context) == AppendPairs(keys, smaller)
  {
    if keys != [] {
      PairsIgnoreOthers(keys[1..], context, smaller);
    }
  }

  /** What the additional data holds: the least name, its value, then the same for the rest; nothing
      for the empty context. */
  lemma ContextBytesHold(context: map<Bytes, Bytes>, m: Bytes)
    ensures ContextBytes(map[]) == []
    ensures IsLeast(m, context.Keys) ==>
              ContextBytes(context) == m + context[m] + ContextBytes(context - {m})
  {
    AscendingElements({});
    if IsLeast(m, context.Keys) {
      LeastUnique(context.Keys, m, Least(context.Keys));
      var rest := context - {m};
      assert rest.Keys == context.Keys - {m};
      AscendingElements(rest.Keys);
      assert Ascending(context.Keys) == [m] + Ascending(rest.Keys);
      PairsIgnoreOthers(Ascending(rest.Keys), context, rest);
    }
  }

  /** No name and no value is lost. */
  lemma {:induction false} ContextBytesLength(context: map<Bytes, Bytes>)
    ensures |ContextBytes(context)| == TotalLength(context)
    decreases |context|
  {
    ContextBytesHold(context, []);
    if context != map[] {
      assert context.Keys != {};
      var m := Least(context.Keys);
      ContextBytesHold(context, m);
      ContextBytesLength(context - {m});
    }
  }

  ghost function TotalLength(context: map<Bytes, Bytes>): nat
    decreases |context|
  {
    if context == map[] then 0
    else
      assert context.Keys != {};
      var m := Least(context.Keys);
      |m| + |context[m]| + TotalLength(context - {m})
  }

  /** sort.Strings. */
  method SortStrings(names: seq<Bytes>) returns (sorted: seq<Bytes>)
    ensures Sorted(sorted) && multiset(sorted) == multiset(names)
  {
    sorted := [];
    for i := 0 to |names|
      invariant Sorted(sorted) && multiset(sorted) == multiset(names[..i])
    {
      sorted := Insert(sorted, names[i]);
      assert names[..i + 1] == names[..i] + [names[i]];
    }
    assert names[..|names|] == names;
  }

  method Insert(sorted: seq<Bytes>, name: Bytes) returns (r: seq<Bytes>)
    requires Sorted(sorted)
    ensures Sorted(r) && multiset(r) == multiset(sorted) + multiset{name}
  {
    var i := 0;
    while i < |sorted| && Leq(sorted[i], name)
      invariant i <= |sorted|
      invariant forall j | 0 <= j < i :: Leq(sorted[j], name)
    {
      i := i + 1;
    }
    forall j | i <= j < |sorted| ensures Leq(name, sorted[j]) {
      LeqTotal(sorted[i], name);
      if i < j { LeqTransitive(name, sorted[i], sorted[j]); }
    }
    assert sorted == sorted[..i] + sorted[i..];
    r := sorted[..i] + [name] + sorted[i..];
  }

  /** Lists the names of a map, each once, in whatever order the map yields them. */
  method CollectNames(context: map<Bytes, Bytes>) returns (keys: seq<Bytes>)
    ensures multiset(keys) == multiset(context.Keys)
  {
    keys := [];
    var left := context.Keys;
    while left != {}
      invariant left <= context.Keys
      invariant multiset(keys) == multiset(context.Keys - left)
      decreases |left|
    {
      var name :| name in left;
      assert context.Keys - (left - {name}) == (context.Keys - left) + {name};
      keys, left := keys + [name], left - {name};
    }
    assert context.Keys - left == context.Keys;
  }

  method AppendContext(keys: seq<Bytes>, context: map<Bytes, Bytes>) returns (result: Bytes)
    requires forall k | k in keys :: k in context
    ensures result == AppendPairs(keys, context)
  {
    result := [];
    var i := 0;
    while i < |keys|
      invariant i <= |keys|
      invariant result + AppendPairs(keys[i..], context) == AppendPairs(keys, context)
    {
      result := result + keys[i];
      result := result + context[keys[i]];
      assert keys[i..][1..] == keys[i + 1..];
      i := i + 1;
    }
  }

  /** Collects, sorts and appends name and value. The result is a function of the map alone:
      the order in which the names were collected does not matter. */
  method PrepareAesEncryptionContext(context: map<Bytes, Bytes>) returns (result: Bytes)
    ensures result == ContextBytes(context)
    ensures context == map[] ==> result == []
    ensures forall m | IsLeast(m, context.Keys) :: result == m + context[m] + ContextBytes(context - {m})
  {
    forall m | IsLeast(m, context.Keys)
      ensures ContextBytes(context) == m + context[m] + ContextBytes(context - {m})
    {
      ContextBytesHold(context, m);
    }
    if |context| == 0 {
      assert context.Keys == {};
      return [];
    }
    var keys := CollectNames(context);
    keys := SortStrings(keys);
    SortedDistinctIsAscending(keys, context.Keys);
    AscendingElements(context.Keys);
    result := AppendContext(keys, context);
  }

  /** Two enumerations of the same names, sorted however, give the same additional data. */
  lemma ContextOrderIrrelevant(context: map<Bytes, Bytes>, a: seq<Bytes>, b: seq<Bytes>)
    requires multiset(a) == multiset(context.Keys) == multiset(b)
    requires Sorted(a) && Sorted(b)
    ensures a == b && forall k | k in a :: k in context
    ensures AppendPairs(a, context) == ContextBytes(context) == AppendPairs(b, context)
  {
    SortedDistinctIsAscending(a, context.Keys);
    SortedDistinctIsAscending(b, context.Keys);
    AscendingElements(context.Keys);
  }
}
