/** Cursor pagination: the scan loop that the four list operations of the store share, the cut
    of one extra result that their handlers share, and the proof that following NextMarker
    enumerates the filtered sorted list. */
module Pages {
  import opened Wrappers
  import opened ByteStrings

  function Filter(names: seq<Bytes>, kept: set<Bytes>): seq<Bytes> {
    if names == [] then []
    else if names[0] in kept then [names[0]] + Filter(names[1..], kept)
    else Filter(names[1..], kept)
  }

  lemma {:induction false} FilterMember(names: seq<Bytes>, kept: set<Bytes>, n: Bytes)
    ensures n in Filter(names, kept) <==> n in names && n in kept
  {
    if names != [] {
      assert names == [names[0]] + names[1..];
      FilterMember(names[1..], kept, n);
    }
  }

  ghost predicate Distinct(names: seq<Bytes>) {
    forall i, j | 0 <= i < j < |names| :: names[i] != names[j]
  }

  /** The list from the entry the marker names; the whole list for the empty marker. */
  function From(names: seq<Bytes>, marker: Bytes): Option<seq<Bytes>> {
    if marker == [] then Some(names)
    else if names == [] then None
    else if names[0] == marker then Some(names)
    else From(names[1..], marker)
  }

  function Take<T>(s: seq<T>, n: nat): seq<T> {
    if |s| <= n then s else s[..n]
  }

  /** What a scan loop returns: None for an invalid marker. */
  function Scan(names: seq<Bytes>, limit: nat, marker: Bytes, kept: set<Bytes>): Option<seq<Bytes>> {
    match From(names, marker)
    case None => None
    case Some(rest) => Some(Take(Filter(rest, kept), limit))
  }

  /** A response: `next` is the marker the caller is told to continue from. */
  datatype Page = BadMarker | Page(items: seq<Bytes>, next: Option<Bytes>)

  /** The handlers scan for one result more than asked and cut it off again. */
  function PageOf(scan: Option<seq<Bytes>>, limit: nat): Page {
    match scan
    case None => BadMarker
    case Some(items) =>
      if |items| > limit then Page(items[..limit], Some(items[|items| - 1])) else Page(items, None)
  }

  /** The reference: a list, from position k, cut into consecutive pages of `limit` entries. */
  function Cut(list: seq<Bytes>, k: nat, limit: nat): seq<seq<Bytes>>
    requires limit >= 1 && k <= |list|
    decreases |list| - k
  {
    if |list| - k <= limit then [list[k..]] else [list[k..k + limit]] + Cut(list, k + limit, limit)
  }

  function Concat(pages: seq<seq<Bytes>>): seq<Bytes> {
    if pages == [] then [] else pages[0] + Concat(pages[1..])
  }

  lemma {:induction false} CutConcatenates(list: seq<Bytes>, k: nat, limit: nat)
    requires limit >= 1 && k <= |list|
    ensures Concat(Cut(list, k, limit)) == list[k..]
    ensures |Cut(list, k, limit)| <= |list| - k + 1
    ensures forall i | 0 <= i < |Cut(list, k, limit)| - 1 :: |Cut(list, k, limit)[i]| == limit
    ensures Cut(list, k, limit) != [] && |Cut(list, k, limit)[|Cut(list, k, limit)| - 1]| <= limit
    decreases |list| - k
  {
    if |list| - k > limit {
      CutConcatenates(list, k + limit, limit);
      assert list[k..] == list[k..k + limit] + list[k + limit..];
    } else {
      assert Concat([list[k..]]) == list[k..] + Concat([]);
    }
  }

  lemma {:induction false} FilterDistinct(names: seq<Bytes>, kept: set<Bytes>)
    requires Distinct(names)
    ensures Distinct(Filter(names, kept))
  {
    if names != [] {
      FilterDistinct(names[1..], kept);
      FilterMember(names[1..], kept, names[0]);
    }
  }

  /** A marker is rejected exactly when it is not empty and names no entry of the range. */
  lemma {:induction false} MarkerRejected(names: seq<Bytes>, limit: nat, marker: Bytes, kept: set<Bytes>)
    ensures Scan(names, limit, marker, kept).None? <==> marker != [] && marker !in names
  {
    if marker != [] && names != [] && names[0] != marker {
      MarkerRejected(names[1..], limit, marker, kept);
    }
  }

  /** Scanning from a kept entry yields what the filtered list holds from that entry on. */
  lemma {:induction false} FromFiltered(names: seq<Bytes>, marker: Bytes, kept: set<Bytes>)
    requires marker in names && marker in kept && marker != []
    ensures From(names, marker).Some? && From(Filter(names, kept), marker).Some?
    ensures Filter(From(names, marker).value, kept) == From(Filter(names, kept), marker).value
  {
    var tail := Filter(names[1..], kept);
    if names[0] == marker {
      assert Filter(names, kept) == [marker] + tail;
    } else {
      FromFiltered(names[1..], marker, kept);
      if names[0] in kept {
        assert ([names[0]] + tail)[1..] == tail;
      }
    }
  }

  lemma {:induction false} FromIndex(list: seq<Bytes>, k: nat)
    requires Distinct(list) && k < |list| && list[k] != []
    ensures From(list, list[k]) == Some(list[k..])
  {
    if k > 0 {
      assert list[0] != list[k];
      FromIndex(list[1..], k - 1);
      assert list[1..][k - 1..] == list[k..];
    }
  }

  /** The scan from position k of the filtered list. */
  lemma ScanFromPosition(names: seq<Bytes>, kept: set<Bytes>, limit: nat, marker: Bytes, k: nat)
    requires Distinct(names)
    requires var list := Filter(names, kept);
             if marker == [] then k == 0 else k < |list| && list[k] == marker
    ensures k <= |Filter(names, kept)|
    ensures Scan(names, limit, marker, kept) == Some(Take(Filter(names, kept)[k..], limit))
  {
    var list := Filter(names, kept);
    if marker == [] {
      assert list[0..] == list;
    } else {
      FilterDistinct(names, kept);
      assert list[k] in list;
      FilterMember(names, kept, marker);
      FromFiltered(names, marker, kept);
      FromIndex(list, k);
    }
  }

  lemma PageOfRest(rest: seq<Bytes>, limit: nat)
    ensures PageOf(Some(Take(rest, limit + 1)), limit) ==
            if |rest| > limit then Page(rest[..limit], Some(rest[limit])) else Page(rest, None)
  {
    if |rest| > limit {
      assert Take(rest, limit + 1)[..limit] == rest[..limit];
    }
  }

  /** The page that starts at position k of the list. */
  function PageAt(list: seq<Bytes>, k: nat, limit: nat): Page
    requires k <= |list|
  {
    if |list| - k > limit then Page(list[k..k + limit], Some(list[k + limit])) else Page(list[k..], None)
  }

  /** The page a handler answers with when the marker stands for an entry of the filtered list,
      or is empty: the cut of that list at that entry. */
  lemma PageAtPosition(names: seq<Bytes>, kept: set<Bytes>, limit: nat, marker: Bytes, k: nat)
    requires Distinct(names)
    requires var list := Filter(names, kept);
             if marker == [] then k == 0 else k < |list| && list[k] == marker
    ensures k <= |Filter(names, kept)|
    ensures PageOf(Scan(names, limit + 1, marker, kept), limit) == PageAt(Filter(names, kept), k, limit)
  {
    var list := Filter(names, kept);
    ScanFromPosition(names, kept, limit + 1, marker, k);
    PageOfRest(list[k..], limit);
    assert |list[k..]| > limit ==> list[k..][..limit] == list[k..k + limit];
  }

  /** A page holds no more than was asked for, and only entries of the range that the filter keeps. */
  lemma PageMembers(names: seq<Bytes>, kept: set<Bytes>, limit: nat, marker: Bytes)
    ensures var p := PageOf(Scan(names, limit + 1, marker, kept), limit);
            p.Page? ==> |p.items| <= limit && forall n | n in p.items :: n in names && n in kept
  {
    var p, rest := PageOf(Scan(names, limit + 1, marker, kept), limit), From(names, marker);
    if rest.Some? {
      forall n | n in p.items ensures n in names && n in kept {
        FilterMember(rest.value, kept, n);
        FromMember(names, marker, n);
      }
    }
  }

  lemma {:induction false} FromMember(names: seq<Bytes>, marker: Bytes, n: Bytes)
    requires From(names, marker).Some? && n in From(names, marker).value
    ensures n in names
  {
    if marker != [] && names != [] && names[0] != marker {
      FromMember(names[1..], marker, n);
    }
  }

  /** What a list operation does and answers, for every store value and marker. */
  type Calls<!S(==)> = imap<(S, Bytes), (S, Page)>

  /** Calls the operation again with the marker it handed out, from `marker` on, at most n times. */
  ghost function Follow<S>(calls: Calls<S>, s: S, marker: Bytes, n: nat): seq<seq<Bytes>>
    decreases n
  {
    if n == 0 || (s, marker) !in calls then []
    else
      var (s', p) := calls[(s, marker)];
      if p.BadMarker? then []
      else [p.items] + if p.next.None? then [] else Follow(calls, s', p.next.value, n - 1)
  }

  /** Marker `m`, which stands for the name nameOf[m], is at position k of the list. */
  ghost predicate At(list: seq<Bytes>, nameOf: imap<Bytes, Bytes>, m: Bytes, k: nat) {
    if m == [] then k == 0 else k < |list| && m in nameOf && nameOf[m] == list[k]
  }

  /** The page holds the list from position k on, and a marker for the position after it if
      there is more. */
  ghost predicate Serves(list: seq<Bytes>, nameOf: imap<Bytes, Bytes>, limit: nat, k: nat, p: Page) {
    && k <= |list| && p.Page? && p.items == PageAt(list, k, limit).items
    && (p.next.Some? <==> |list| - k > limit)
    && (p.next.Some? ==> p.next.value != [] && At(list, nameOf, p.next.value, k + limit))
  }

  /** The call in store `s` serves the list and leaves a store of `stores`. */
  ghost predicate ServesIn<S>(calls: Calls<S>, stores: iset<S>, list: seq<Bytes>, nameOf: imap<Bytes, Bytes>,
                              limit: nat, s: S, m: Bytes, k: nat)
  {
    (s, m) in calls && Serves(list, nameOf, limit, k, calls[(s, m)].1) && calls[(s, m)].0 in stores
  }

  ghost predicate ServesAll<S(!new)>(calls: Calls<S>, stores: iset<S>, list: seq<Bytes>, nameOf: imap<Bytes, Bytes>,
                                     limit: nat) {
    forall s, m, k: nat {:trigger ServesIn(calls, stores, list, nameOf, limit, s, m, k)} |
      s in stores && At(list, nameOf, m, k) :: ServesIn(calls, stores, list, nameOf, limit, s, m, k)
  }

  lemma {:induction false} FollowFromPosition<S(!new)>(calls: Calls<S>, stores: iset<S>, list: seq<Bytes>,
                                                       nameOf: imap<Bytes, Bytes>, limit: nat, s: S, m: Bytes, k: nat,
                                                       n: nat)
    requires limit >= 1 && s in stores && ServesAll(calls, stores, list, nameOf, limit)
    requires At(list, nameOf, m, k) && n > |list| - k
    ensures k <= |list| && Follow(calls, s, m, n) == Cut(list, k, limit)
    decreases n
  {
    assert ServesIn(calls, stores, list, nameOf, limit, s, m, k);
    var (s', p) := calls[(s, m)];
    FollowTurn(calls, s, m, n);
    if |list| - k > limit {
      FollowFromPosition(calls, stores, list, nameOf, limit, s', p.next.value, k + limit, n - 1);
    }
  }

  lemma FollowTurn<S>(calls: Calls<S>, s: S, m: Bytes, n: nat)
    requires n > 0 && (s, m) in calls && calls[(s, m)].1.Page?
    ensures var (s', p) := calls[(s, m)];
            Follow(calls, s, m, n) == if p.next.None? then [p.items]
              else [p.items] + Follow(calls, s', p.next.value, n - 1)
  {
  }

  /** Calls that serve a list from wherever the marker points, followed from the start, end
      within one call per entry and one more, and yield exactly the list, cut every `limit`. */
  lemma FollowingListsAll<S(!new)>(calls: Calls<S>, stores: iset<S>, list: seq<Bytes>, nameOf: imap<Bytes, Bytes>,
                             limit: nat, s: S, n: nat)
    requires limit >= 1 && s in stores && ServesAll(calls, stores, list, nameOf, limit) && n > |list|
    ensures Follow(calls, s, [], n) == Cut(list, 0, limit)
    ensures Concat(Follow(calls, s, [], n)) == list
  {
    FollowFromPosition(calls, stores, list, nameOf, limit, s, [], 0, n);
    CutConcatenates(list, 0, limit);
    assert list[0..] == list;
  }

  //----------------------------------------------------------------------------------------
  // The scan loop, from entry i and a state of its pastMarker flag

  function ScanLoop(names: seq<Bytes>, i: nat, limit: nat, marker: Bytes, kept: set<Bytes>, past: bool)
    : (seq<Bytes>, bool)
    requires i <= |names|
    decreases |names| - i
  {
    if limit == 0 || i == |names| then ([], past)
    else if marker != [] && !past && marker != names[i] then ScanLoop(names, i + 1, limit, marker, kept, false)
    else if names[i] !in kept then ScanLoop(names, i + 1, limit, marker, kept, true)
    else
      var rest := ScanLoop(names, i + 1, limit - 1, marker, kept, true);
      ([names[i]] + rest.0, rest.1)
  }

  lemma {:induction false} ScanLoopPastMarker(names: seq<Bytes>, i: nat, limit: nat, marker: Bytes, kept: set<Bytes>)
    requires i <= |names|
    ensures ScanLoop(names, i, limit, marker, kept, true) == (Take(Filter(names[i..], kept), limit), true)
    decreases |names| - i
  {
    if limit > 0 && i < |names| {
      assert names[i..][0] == names[i] && names[i..][1..] == names[i + 1..];
      var tail := Filter(names[i + 1..], kept);
      if names[i] in kept {
        ScanLoopPastMarker(names, i + 1, limit - 1, marker, kept);
        assert Take([names[i]] + tail, limit) == [names[i]] + Take(tail, limit - 1);
      } else {
        ScanLoopPastMarker(names, i + 1, limit, marker, kept);
      }
    }
  }

  lemma {:induction false} ScanLoopFrom(names: seq<Bytes>, i: nat, limit: nat, marker: Bytes, kept: set<Bytes>)
    requires limit >= 1 && i <= |names|
    ensures var loop := ScanLoop(names, i, limit, marker, kept, false);
            Scan(names[i..], limit, marker, kept) == if marker != [] && !loop.1 then None else Some(loop.0)
    decreases |names| - i
  {
    if i < |names| {
      assert names[i..][0] == names[i] && names[i..][1..] == names[i + 1..];
      if marker != [] && marker != names[i] {
        ScanLoopFrom(names, i + 1, limit, marker, kept);
      } else {
        ScanLoopPastMarker(names, i, limit, marker, kept);
        assert ScanLoop(names, i, limit, marker, kept, false) == ScanLoop(names, i, limit, marker, kept, true);
      }
    }
  }

  /** The loop with its counter and flag computes the marker's suffix, filtered, cut at the
      limit, and fails exactly on an invalid marker. */
  lemma ScanLoopIsScan(names: seq<Bytes>, limit: nat, marker: Bytes, kept: set<Bytes>)
    requires limit >= 1
    ensures var loop := ScanLoop(names, 0, limit, marker, kept, false);
            Scan(names, limit, marker, kept) == if marker != [] && !loop.1 then None else Some(loop.0)
  {
    ScanLoopFrom(names, 0, limit, marker, kept);
    assert names[0..] == names;
  }
}
