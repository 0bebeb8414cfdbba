/** ListKeys, page by page. Each call may delete keys past their deletion date from the store it
    lists, so the pages of one listing are read from different stores. */
module KeyListing {
  import opened Wrappers
  import opened ByteStrings
  import opened Names
  import opened Keys
  import opened Lifecycle
  import opened Pages
  import opened Store
  import opened Requests
  import opened StoreHistory
  import opened Loading
  import opened Listing

  //----------------------------------------------------------------------------------------
  // Purging

  /** Nothing changed but that some keys past their deletion date are gone. */
  ghost predicate OnlyPurged(r: map<Bytes, Record>, r': map<Bytes, Record>, now: Time) {
    && (forall n | n in r' :: n in r && r'[n] == r[n])
    && (forall n | n in r && n !in r' :: r[n].KeyRec? && IsPendingDeletion(r[n].key.meta, now))
  }

  /** Deleting a key past its deletion date, whether or not the write succeeds. */
  lemma PurgeIsPurge(db: Db, n: Bytes, now: Time)
    requires n in db.records ==> db.records[n].KeyRec? && IsPendingDeletion(db.records[n].key.meta, now)
    ensures OnlyPurged(db.records, Deleted(db, n).0.records, now)
  {
  }

  /** ListKeys deletes keys past their deletion date and touches no other record. */
  lemma {:induction false} ListingOnlyPurges(cfg: Config, db: Db, names: seq<Bytes>, i: nat,
                                             snapshot: map<Bytes, Record>,
                                             limit: nat, marker: Bytes, past: bool, now: Time)
    requires AllNamed(cfg, snapshot) && i <= |names|
    requires forall n | n in db.records :: n in snapshot && snapshot[n] == db.records[n]
    ensures OnlyPurged(db.records, ListedKeys(db, names, i, snapshot, limit, marker, past, now).0.records, now)
    decreases |names| - i
  {
    if limit > 0 && i < |names| {
      if IsTagName(names[i]) || (marker != [] && !past && marker != names[i]) {
        ListingOnlyPurges(cfg, db, names, i + 1, snapshot, limit, marker, past, now);
      } else {
        var k := AsKey(Lookup(snapshot, names[i]));
        if IsPendingDeletion(k.meta, now) {
          var s := SubjectOf(cfg, snapshot, names[i]);
          PurgeIsPurge(db, k.meta.arn, now);
          ListingOnlyPurges(cfg, Deleted(db, k.meta.arn).0, names, i + 1, snapshot, limit, marker, true, now);
        } else {
          ListingOnlyPurges(cfg, db, names, i + 1, snapshot, limit - 1, marker, true, now);
        }
      }
    }
  }

  lemma PurgingKeepsLiveKeys(cfg: Config, r: map<Bytes, Record>, r': map<Bytes, Record>, now: Time)
    requires OnlyPurged(r, r', now) && AllNamed(cfg, r)
    ensures LiveKeys(r', now) == LiveKeys(r, now) && AllNamed(cfg, r')
  {
    forall n | n in r' ensures Named(cfg, n, r'[n]) {
      assert r'[n] == r[n] && Named(cfg, n, r[n]);
    }
  }

  //----------------------------------------------------------------------------------------
  // The loop is the scan

  function Arns(keys: seq<KeyRecord>): seq<Bytes> {
    seq(|keys|, i requires 0 <= i < |keys| => keys[i].meta.arn)
  }

  /** The names the loop does not skip as tags are those of the keys, under their own ARN. */
  ghost predicate KeysBesideTags(names: seq<Bytes>, snapshot: map<Bytes, Record>) {
    && (forall n | n in names :: n in KeysIn(snapshot) <==> !IsTagName(n))
    && (forall n | n in names && n in KeysIn(snapshot) :: snapshot[n].key.meta.arn == n)
  }

  /** From entry i, once the marker has been passed. */
  lemma {:induction false} LoopPastMarker(db: Db, names: seq<Bytes>, i: nat, snapshot: map<Bytes, Record>, limit: nat,
                                          marker: Bytes, past: bool, now: Time)
    requires KeysBesideTags(names, snapshot) && i <= |names| && (past || marker == [])
    ensures Arns(ListedKeys(db, names, i, snapshot, limit, marker, past, now).1) ==
            Take(Filter(Filter(names[i..], KeysIn(snapshot)), LiveKeys(snapshot, now)), limit)
    ensures past ==> ListedKeys(db, names, i, snapshot, limit, marker, past, now).2
    decreases |names| - i
  {
    if limit > 0 && i < |names| {
      var n := names[i];
      assert n in names && names[i..][0] == n && names[i..][1..] == names[i + 1..];
      var tail := Filter(names[i + 1..], KeysIn(snapshot));
      if IsTagName(n) {
        LoopPastMarker(db, names, i + 1, snapshot, limit, marker, past, now);
      } else {
        assert Filter(names[i..], KeysIn(snapshot)) == [n] + tail;
        var k := snapshot[n].key;
        if IsPendingDeletion(k.meta, now) {
          LoopPastMarker(Deleted(db, n).0, names, i + 1, snapshot, limit, marker, true, now);
          assert Filter([n] + tail, LiveKeys(snapshot, now)) == Filter(tail, LiveKeys(snapshot, now));
        } else {
          LoopPastMarker(db, names, i + 1, snapshot, limit - 1, marker, true, now);
          var rest := Filter(tail, LiveKeys(snapshot, now));
          assert Filter([n] + tail, LiveKeys(snapshot, now)) == [n] + rest;
          assert Take([n] + rest, limit) == [n] + Take(rest, limit - 1);
        }
      }
    }
  }

  /** From entry i, with the marker still ahead. */
  lemma {:induction false} LoopBeforeMarker(db: Db, names: seq<Bytes>, i: nat, snapshot: map<Bytes, Record>, limit: nat,
                                            marker: Bytes, now: Time)
    requires KeysBesideTags(names, snapshot) && i <= |names| && limit >= 1 && marker != []
    ensures var listed := ListedKeys(db, names, i, snapshot, limit, marker, false, now);
            Scan(Filter(names[i..], KeysIn(snapshot)), limit, marker, LiveKeys(snapshot, now)) ==
            if listed.2 then Some(Arns(listed.1)) else None
    decreases |names| - i
  {
    if i < |names| {
      var n := names[i];
      assert n in names && names[i..][0] == n && names[i..][1..] == names[i + 1..];
      var tail := Filter(names[i + 1..], KeysIn(snapshot));
      if IsTagName(n) {
        LoopBeforeMarker(db, names, i + 1, snapshot, limit, marker, now);
      } else {
        assert Filter(names[i..], KeysIn(snapshot)) == [n] + tail;
        if n != marker {
          LoopBeforeMarker(db, names, i + 1, snapshot, limit, marker, now);
          assert ([n] + tail)[1..] == tail;
        } else {
          LoopPastMarker(db, names, i, snapshot, limit, marker, true, now);
          assert ListedKeys(db, names, i, snapshot, limit, marker, false, now)
              == ListedKeys(db, names, i, snapshot, limit, marker, true, now);
        }
      }
    }
  }

  ghost function KeyNames(cfg: Config, records: map<Bytes, Record>): seq<Bytes> {
    NamesWithPrefix(records, ArnPrefix(cfg) + KEY)
  }

  lemma RangeOfKeys(cfg: Config, records: map<Bytes, Record>)
    requires ValidConfig(cfg) && AllNamed(cfg, records)
    ensures KeysBesideTags(KeyNames(cfg, records), records)
    ensures Filter(KeyNames(cfg, records), KeysIn(records)) == Ascending(KeysIn(records))
  {
    var range := set n | n in records && HasPrefix(n, ArnPrefix(cfg) + KEY);
    AscendingElements(range);
    forall n | n in records
      ensures n in KeysIn(records) <==> n in range && !IsTagName(n)
      ensures n in KeysIn(records) ==> records[n].key.meta.arn == n
    {
      KeyRange(cfg, records, n);
    }
    RangeIsPlainList(range, KeysIn(records), KeysIn(records));
  }

  /** The loop over the whole range is the scan of the sorted list of keys. */
  lemma LoopIsScan(cfg: Config, db: Db, limit: nat, marker: Bytes, now: Time)
    requires ValidConfig(cfg) && AllNamed(cfg, db.records) && limit >= 1
    ensures var listed := ListedKeys(db, KeyNames(cfg, db.records), 0, db.records, limit, marker, false, now);
            Scan(Ascending(KeysIn(db.records)), limit, marker, LiveKeys(db.records, now)) ==
            if marker != [] && !listed.2 then None else Some(Arns(listed.1))
  {
    var names := KeyNames(cfg, db.records);
    RangeOfKeys(cfg, db.records);
    assert names[0..] == names;
    if marker == [] {
      LoopPastMarker(db, names, 0, db.records, limit, marker, false, now);
    } else {
      LoopBeforeMarker(db, names, 0, db.records, limit, marker, now);
    }
  }

  //----------------------------------------------------------------------------------------
  // Following the markers

  /** The answer as a page of ARNs. */
  function KeysShown(r: Response): Page {
    match r
    case KeysListed(keys, next) => Page(seq(|keys|, i requires 0 <= i < |keys| => keys[i].keyArn), next)
    case _ => BadMarker
  }

  lemma AnswerOfLoop(found: seq<KeyRecord>, rejected: bool, limit: nat)
    ensures KeysShown(if rejected then Failed(InvalidMarker) else KeysAnswer(found, limit)) ==
            PageOf(if rejected then None else Some(Arns(found)), limit)
  {
    if !rejected {
      assert KeysShown(KeysAnswer(found, limit)).items == PageOf(Some(Arns(found)), limit).items;
    }
  }

  /** One call: the store it leaves, and its answer. */
  ghost function KeysCalled(cfg: Config, db: Db, limit: int, marker: Bytes, now: Time): (Db, Page) {
    var r := ListKeysResult(cfg, db, limit, marker, now);
    (r.0, KeysShown(r.1))
  }

  lemma KeysCalledIsPage(cfg: Config, db: Db, limit: int, marker: Bytes, now: Time)
    requires ValidConfig(cfg) && AllNamed(cfg, db.records) && LimitValid(limit, 1000)
    ensures KeysCalled(cfg, db, limit, marker, now).1 ==
            PageOf(Scan(Ascending(KeysIn(db.records)), limit + 1, marker, LiveKeys(db.records, now)), limit)
  {
    var listed := ListedKeys(db, KeyNames(cfg, db.records), 0, db.records, limit + 1, marker, false, now);
    LoopIsScan(cfg, db, limit + 1, marker, now);
    AnswerOfLoop(listed.1, marker != [] && !listed.2, limit);
  }

  lemma KeysCalledPurges(cfg: Config, db: Db, limit: int, marker: Bytes, now: Time)
    requires AllNamed(cfg, db.records) && LimitValid(limit, 1000)
    ensures OnlyPurged(db.records, KeysCalled(cfg, db, limit, marker, now).0.records, now)
  {
    ListingOnlyPurges(cfg, db, KeyNames(cfg, db.records), 0, db.records, limit + 1, marker, false, now);
  }

  ghost function KeyCalls(cfg: Config, limit: int, now: Time): Calls<Db> {
    imap s: (Db, Bytes) :: KeysCalled(cfg, s.0, limit, s.1, now)
  }

  /** The stores a listing may come across: what purging may leave of the live keys. */
  ghost function StoresWith(cfg: Config, live: set<Bytes>, now: Time): iset<Db> {
    iset db: Db | AllNamed(cfg, db.records) && LiveKeys(db.records, now) == live
  }

  /** An ARN as a marker stands for itself. */
  function Own(m: Bytes): Bytes {
    m
  }

  ghost function OwnNames(): imap<Bytes, Bytes> {
    imap m: Bytes :: Own(m)
  }

  lemma LiveNamesNotEmpty(cfg: Config, records: map<Bytes, Record>, now: Time)
    requires ValidConfig(cfg) && AllNamed(cfg, records)
    ensures forall n | n in Ascending(LiveKeys(records, now)) :: n != []
  {
    AscendingElements(LiveKeys(records, now));
    forall n | n in LiveKeys(records, now) ensures n != [] {
      KeyRange(cfg, records, n);
    }
  }

  /** One call, with a marker that is at position k of the live keys. */
  lemma KeysAtPosition(cfg: Config, db: Db, limit: int, marker: Bytes, now: Time, k: nat)
    requires ValidConfig(cfg) && AllNamed(cfg, db.records) && LimitValid(limit, 1000)
    requires var list := Ascending(LiveKeys(db.records, now));
             if marker == [] then k == 0 else k < |list| && list[k] == marker
    ensures k <= |Ascending(LiveKeys(db.records, now))|
    ensures KeysCalled(cfg, db, limit, marker, now).1 == PageAt(Ascending(LiveKeys(db.records, now)), k, limit)
  {
    RangeIsPlainList(KeysIn(db.records), LiveKeys(db.records, now), LiveKeys(db.records, now));
    KeysCalledIsPage(cfg, db, limit, marker, now);
    PageAtPosition(Ascending(KeysIn(db.records)), LiveKeys(db.records, now), limit, marker, k);
  }

  lemma PageServes(list: seq<Bytes>, limit: nat, k: nat)
    requires k <= |list| && forall n | n in list :: n != []
    ensures Serves(list, OwnNames(), limit, k, PageAt(list, k, limit))
  {
    if |list| - k > limit {
      assert list[k + limit] in list && Own(list[k + limit]) in OwnNames();
    }
  }

  lemma KeyCallServes(cfg: Config, live: set<Bytes>, limit: int, now: Time, db: Db, marker: Bytes, k: nat)
    requires ValidConfig(cfg) && LimitValid(limit, 1000) && db in StoresWith(cfg, live, now)
    requires At(Ascending(live), OwnNames(), marker, k)
    ensures ServesIn(KeyCalls(cfg, limit, now), StoresWith(cfg, live, now), Ascending(live), OwnNames(), limit, db,
                     marker, k)
  {
    KeysAtPosition(cfg, db, limit, marker, now, k);
    KeysCalledPurges(cfg, db, limit, marker, now);
    PurgingKeepsLiveKeys(cfg, db.records, KeysCalled(cfg, db, limit, marker, now).0.records, now);
    LiveNamesNotEmpty(cfg, db.records, now);
    PageServes(Ascending(live), limit, k);
  }

  /** Following the next markers at one instant, while every call purges what it passes and any
      of those writes may fail, lists exactly the keys that have not reached their deletion
      date, in order, each once, cut every `limit`. */
  lemma FollowingKeysListsLiveKeys(cfg: Config, db: Db, limit: int, now: Time, n: nat)
    requires ValidConfig(cfg) && AllNamed(cfg, db.records) && LimitValid(limit, 1000)
    requires n > |LiveKeys(db.records, now)|
    ensures var pages := Follow(KeyCalls(cfg, limit, now), db, [], n);
            && pages == Cut(Ascending(LiveKeys(db.records, now)), 0, limit)
            && Concat(pages) == Ascending(LiveKeys(db.records, now))
  {
    var live := LiveKeys(db.records, now);
    AscendingElements(live);
    var calls, stores := KeyCalls(cfg, limit, now), StoresWith(cfg, live, now);
    var list, nameOf := Ascending(live), OwnNames();
    forall s, m, k: nat | s in stores && At(list, nameOf, m, k)
      ensures ServesIn(calls, stores, list, nameOf, limit, s, m, k)
    {
      KeyCallServes(cfg, live, limit, now, s, m, k);
    }
    FollowingListsAll(calls, stores, list, nameOf, limit, db, n);
  }

  /** A marker is rejected exactly when it is not empty and names no key in the store; a key past
      its deletion date is still a valid marker while it is there. */
  lemma KeyMarkerRejected(cfg: Config, db: Db, limit: int, marker: Bytes, now: Time)
    requires ValidConfig(cfg) && AllNamed(cfg, db.records) && LimitValid(limit, 1000)
    ensures KeysCalled(cfg, db, limit, marker, now).1.BadMarker? <==> marker != [] && marker !in KeysIn(db.records)
    ensures KeysCalled(cfg, db, limit, marker, now).1.BadMarker? <==>
            ListKeysResult(cfg, db, limit, marker, now).1 == Failed(InvalidMarker)
  {
    KeysCalledIsPage(cfg, db, limit, marker, now);
    MarkerRejected(Ascending(KeysIn(db.records)), limit + 1, marker, LiveKeys(db.records, now));
    AscendingElements(KeysIn(db.records));
  }

  //----------------------------------------------------------------------------------------
  // The entries

  lemma {:induction false} FoundAreStored(db: Db, names: seq<Bytes>, i: nat, snapshot: map<Bytes, Record>, limit: nat,
                                          marker: Bytes, past: bool, now: Time)
    requires KeysBesideTags(names, snapshot) && i <= |names|
    ensures var found := ListedKeys(db, names, i, snapshot, limit, marker, past, now).1;
            |found| <= limit && forall j | 0 <= j < |found| :: KeyAsStored(snapshot, found[j], now)
    decreases |names| - i
  {
    if limit > 0 && i < |names| {
      var n := names[i];
      assert n in names;
      if IsTagName(n) || (marker != [] && !past && marker != n) {
        FoundAreStored(db, names, i + 1, snapshot, limit, marker, past, now);
      } else if IsPendingDeletion(snapshot[n].key.meta, now) {
        FoundAreStored(Deleted(db, n).0, names, i + 1, snapshot, limit, marker, true, now);
      } else {
        assert KeyAsStored(snapshot, snapshot[n].key, now);
        FoundAreStored(db, names, i + 1, snapshot, limit - 1, marker, true, now);
      }
    }
  }

  predicate KeyAsStored(records: map<Bytes, Record>, k: KeyRecord, now: Time) {
    k.meta.arn in records && records[k.meta.arn] == KeyRec(k) && !PurgeDue(k, now)
  }

  /** The entry is the ARN and the id of a stored key that has not reached its deletion date. */
  predicate EntryAsStored(records: map<Bytes, Record>, e: KeyEntry, now: Time) {
    && HoldsKey(records, e.keyArn) && records[e.keyArn].key.meta.keyId == e.keyId
    && !PurgeDue(records[e.keyArn].key, now)
  }

  lemma KeyLimits(cfg: Config, db: Db, limit: int, marker: Bytes, now: Time)
    requires limit < 1 || limit > 1000
    ensures ListKeysResult(cfg, db, limit, marker, now) == (db, Failed(Validation))
  {
  }

  /** Whatever the marker, a page of ListKeys has at most `limit` entries, each for a live key. */
  lemma EntriesAreStored(cfg: Config, db: Db, limit: int, marker: Bytes, now: Time)
    requires ValidConfig(cfg) && AllNamed(cfg, db.records)
    ensures var answer := ListKeysResult(cfg, db, limit, marker, now).1;
            && (answer.KeysListed? || answer.Failed?)
            && (answer.KeysListed? ==>
                  && |answer.keys| <= limit
                  && forall j | 0 <= j < |answer.keys| :: EntryAsStored(db.records, answer.keys[j], now))
  {
    var answer := ListKeysResult(cfg, db, limit, marker, now).1;
    if answer.KeysListed? {
      var names := KeyNames(cfg, db.records);
      var found := ListedKeys(db, names, 0, db.records, limit + 1, marker, false, now).1;
      RangeOfKeys(cfg, db.records);
      FoundAreStored(db, names, 0, db.records, limit + 1, marker, false, now);
      forall j | 0 <= j < |answer.keys| ensures EntryAsStored(db.records, answer.keys[j], now) {
        assert KeyAsStored(db.records, found[j], now);
        assert answer.keys[j] == KeyEntry(found[j].meta.arn, found[j].meta.keyId);
      }
    }
  }
}
