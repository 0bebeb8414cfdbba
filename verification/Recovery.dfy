/** The recovery scan (data_recovery.go and the removal loop of cmd/recovery): the store holds
    raw values, and whether a value decodes is an arbitrary predicate for each kind of record. */
module Recovery {
  import opened ByteStrings
  import opened Names
  import opened Pages
  import opened Listing

  datatype Kind = KeyEntry | AliasEntry | TagEntry

  /** The kind the scan takes a record for, by its name alone. */
  function KindOf(name: Bytes): Kind {
    if Contains(name, "/tag/") then TagEntry
    else if Contains(name, ":alias/") then AliasEntry
    else KeyEntry
  }

  /** Which values the three decoders accept. */
  datatype Decoders = Decoders(key: Bytes -> bool, alias: Bytes -> bool, tag: Bytes -> bool)

  predicate Decodes(d: Decoders, kind: Kind, value: Bytes) {
    match kind
    case KeyEntry => d.key(value)
    case AliasEntry => d.alias(value)
    case TagEntry => d.tag(value)
  }

  /** The records whose decoder fails. */
  function Corrupted(d: Decoders, values: map<Bytes, Bytes>): set<Bytes> {
    set n | n in values && !Decodes(d, KindOf(n), values[n])
  }

  /** The decoder that is tried on a record is chosen by its name. */
  predicate Undecodable(d: Decoders, name: Bytes, value: Bytes) {
    if Contains(name, "/tag/") then !d.tag(value)
    else if Contains(name, ":alias/") then !d.alias(value)
    else !d.key(value)
  }

  function OfKind(names: set<Bytes>, kind: Kind): set<Bytes> {
    set n | n in names && KindOf(n) == kind
  }

  datatype Report = Report(corruptedKeys: nat, corruptedAliases: nat, corruptedTags: nat, entries: seq<Bytes>)

  /** What deleting the entries from i on leaves, how many it deletes, and the writes to come. */
  datatype Cleanup = Cleanup(values: map<Bytes, Bytes>, removed: nat, disk: seq<bool>)

  function CleanedUp(values: map<Bytes, Bytes>, disk: seq<bool>, entries: seq<Bytes>, i: nat): Cleanup
    requires i <= |entries|
    decreases |entries| - i
  {
    if i == |entries| then Cleanup(values, 0, disk)
    else
      var ok := disk != [] && disk[0];
      var left := if ok then values - {entries[i]} else values;
      var rest := CleanedUp(left, if disk == [] then [] else disk[1..], entries, i + 1);
      rest.(removed := rest.removed + if ok then 1 else 0)
  }

  class RawDatabase {
    const decoders: Decoders
    var values: map<Bytes, Bytes>
    var disk: seq<bool>

    constructor (decoders: Decoders, values: map<Bytes, Bytes>, disk: seq<bool>)
      ensures this.decoders == decoders && this.values == values && this.disk == disk
    {
      this.decoders, this.values, this.disk := decoders, values, disk;
    }

    /** Reports exactly the records whose decoder fails, in order; each counter is the number of
        entries of its kind. */
    method ScanForCorruption() returns (report: Report)
      ensures report.entries == Ascending(Corrupted(decoders, values))
      ensures report.corruptedKeys == |OfKind(Corrupted(decoders, values), KeyEntry)|
      ensures report.corruptedAliases == |OfKind(Corrupted(decoders, values), AliasEntry)|
      ensures report.corruptedTags == |OfKind(Corrupted(decoders, values), TagEntry)|
    {
      var names := InOrder(values.Keys);
      ghost var bad := Corrupted(decoders, values);
      ghost var keys, aliases, tags := OfKind(bad, KeyEntry), OfKind(bad, AliasEntry), OfKind(bad, TagEntry);
      AscendingElements(values.Keys);
      report := ScanNames(names, bad, keys, aliases, tags);
      ListOf(values.Keys, bad);
      ListOf(values.Keys, keys);
      ListOf(values.Keys, aliases);
      ListOf(values.Keys, tags);
    }

    /** The scan's loop over the names its iterator visits. */
    method ScanNames(names: seq<Bytes>, ghost bad: set<Bytes>, ghost keys: set<Bytes>, ghost aliases: set<Bytes>,
                     ghost tags: set<Bytes>) returns (report: Report)
      requires forall n | n in names :: n in values
      requires forall n | n in names :: n in bad <==> !Decodes(decoders, KindOf(n), values[n])
      requires forall n | n in names :: n in keys <==> n in bad && KindOf(n) == KeyEntry
      requires forall n | n in names :: n in aliases <==> n in bad && KindOf(n) == AliasEntry
      requires forall n | n in names :: n in tags <==> n in bad && KindOf(n) == TagEntry
      ensures report == Report(|Filter(names, keys)|, |Filter(names, aliases)|, |Filter(names, tags)|,
                               Filter(names, bad))
    {
      var corruptedKeys, corruptedAliases, corruptedTags := 0, 0, 0;
      var entries: seq<Bytes> := [];
      for i := 0 to |names|
        invariant Filter(names, bad) == entries + Filter(names[i..], bad)
        invariant corruptedKeys + |Filter(names[i..], keys)| == |Filter(names, keys)|
        invariant corruptedAliases + |Filter(names[i..], aliases)| == |Filter(names, aliases)|
        invariant corruptedTags + |Filter(names[i..], tags)| == |Filter(names, tags)|
      {
        var key := names[i];
        var value := values[key];
        FilterTurn(names, i, bad);
        FilterTurn(names, i, keys);
        FilterTurn(names, i, aliases);
        FilterTurn(names, i, tags);
        if Contains(key, "/tag/") {
          if !decoders.tag(value) {
            corruptedTags := corruptedTags + 1;
            entries := entries + [key];
          }
        } else if Contains(key, ":alias/") {
          if !decoders.alias(value) {
            corruptedAliases := corruptedAliases + 1;
            entries := entries + [key];
          }
        } else {
          if !decoders.key(value) {
            corruptedKeys := corruptedKeys + 1;
            entries := entries + [key];
          }
        }
      }
      return Report(corruptedKeys, corruptedAliases, corruptedTags, entries);
    }

    method RemoveCorruptedEntry(name: Bytes) returns (ok: bool)
      modifies this
      ensures ok == (old(disk) != [] && old(disk)[0])
      ensures values == if ok then old(values) - {name} else old(values)
      ensures disk == if old(disk) == [] then [] else old(disk)[1..]
    {
      ok := |disk| > 0 && disk[0];
      if |disk| > 0 {
        disk := disk[1..];
      }
      if ok {
        values := values - {name};
      }
    }

    /** The removal loop of the recovery command: it goes on after a failed deletion. */
    method RemoveCorrupted(entries: seq<Bytes>) returns (removedCount: nat)
      modifies this
      ensures Cleanup(values, removedCount, disk) == CleanedUp(old(values), old(disk), entries, 0)
    {
      ghost var all := CleanedUp(values, disk, entries, 0);
      removedCount := 0;
      for i := 0 to |entries|
        invariant all.values == CleanedUp(values, disk, entries, i).values
        invariant all.disk == CleanedUp(values, disk, entries, i).disk
        invariant all.removed == removedCount + CleanedUp(values, disk, entries, i).removed
      {
        var ok := RemoveCorruptedEntry(entries[i]);
        if ok {
          removedCount := removedCount + 1;
        }
      }
    }
  }

  lemma FilterTurn(names: seq<Bytes>, i: nat, some: set<Bytes>)
    requires i < |names|
    ensures Filter(names[i..], some) == (if names[i] in some then [names[i]] else []) + Filter(names[i + 1..], some)
  {
    assert names[i..][0] == names[i] && names[i..][1..] == names[i + 1..];
  }

  lemma ListOf(all: set<Bytes>, some: set<Bytes>)
    requires some <= all
    ensures Filter(Ascending(all), some) == Ascending(some) && |Ascending(some)| == |some|
  {
    RangeIsPlainList(all, some, some);
    AscendingElements(some);
  }

  //----------------------------------------------------------------------------------------
  // The report and the cleanup

  /** The report lists a record if and only if the decoder that its name calls for rejects it. */
  lemma ReportedExactly(d: Decoders, values: map<Bytes, Bytes>, n: Bytes)
    ensures n in Ascending(Corrupted(d, values)) <==> n in values && Undecodable(d, n, values[n])
  {
    AscendingElements(Corrupted(d, values));
  }

  /** The three counters sum to the number of entries, of which none repeats. */
  lemma CountersSum(bad: set<Bytes>)
    ensures |OfKind(bad, KeyEntry)| + |OfKind(bad, AliasEntry)| + |OfKind(bad, TagEntry)| == |Ascending(bad)|
    ensures Distinct(Ascending(bad))
  {
    AscendingElements(bad);
    AscendingSorted(bad);
    KindsPartition(bad);
    ThreeParts(bad, OfKind(bad, KeyEntry), OfKind(bad, AliasEntry), OfKind(bad, TagEntry));
  }

  lemma KindsPartition(bad: set<Bytes>)
    ensures var k, a, t := OfKind(bad, KeyEntry), OfKind(bad, AliasEntry), OfKind(bad, TagEntry);
            bad == k + a + t && k * a == {} && k * t == {} && a * t == {}
  {
    forall n | n in bad ensures n in OfKind(bad, KindOf(n)) {
    }
  }

  lemma ThreeParts(s: set<Bytes>, a: set<Bytes>, b: set<Bytes>, c: set<Bytes>)
    requires s == a + b + c && a * b == {} && a * c == {} && b * c == {}
    ensures |a| + |b| + |c| == |s|
  {
    assert (a + b) * c == {};
    assert |a + b| == |a| + |b|;
  }

  /** Whichever deletions fail, records outside the list stay as they are, and what is deleted
      and what is left of the list add up to the list. */
  lemma {:induction false} CleanupTouchesEntriesOnly(values: map<Bytes, Bytes>, disk: seq<bool>, entries: seq<Bytes>,
                                                     i: nat)
    requires i <= |entries| && Distinct(entries)
    requires forall j | i <= j < |entries| :: entries[j] in values
    ensures var c := CleanedUp(values, disk, entries, i);
            && (forall n | n in c.values :: n in values && c.values[n] == values[n])
            && (forall n | n in values && n !in c.values :: n in entries[i..])
            && |c.values| + c.removed == |values|
    decreases |entries| - i
  {
    if i < |entries| {
      var ok := disk != [] && disk[0];
      var values' := if ok then values - {entries[i]} else values;
      assert entries[i..] == [entries[i]] + entries[i + 1..];
      assert ok ==> values'.Keys == values.Keys - {entries[i]};
      assert |values'| == |values'.Keys| && |values| == |values.Keys|;
      CleanupTouchesEntriesOnly(values', if disk == [] then [] else disk[1..], entries, i + 1);
    }
  }

  /** An entry is gone if and only if its own deletion succeeds: the loop goes on after a failure. */
  lemma {:induction false} CleanupDeletesEach(values: map<Bytes, Bytes>, disk: seq<bool>, entries: seq<Bytes>, i: nat,
                                              j: nat)
    requires i <= j < |entries| && Distinct(entries) && entries[j] in values
    ensures entries[j] in CleanedUp(values, disk, entries, i).values <==> j - i >= |disk| || !disk[j - i]
    decreases |entries| - i
  {
    var ok := disk != [] && disk[0];
    var values' := if ok then values - {entries[i]} else values;
    var disk' := if disk == [] then [] else disk[1..];
    if j > i {
      CleanupDeletesEach(values', disk', entries, i + 1, j);
    } else if ok {
      RemovedStaysRemoved(values', disk', entries, i + 1, entries[i]);
    } else {
      OtherEntriesStay(values', disk', entries, i + 1, entries[i]);
    }
  }

  lemma {:induction false} OtherEntriesStay(values: map<Bytes, Bytes>, disk: seq<bool>, entries: seq<Bytes>, i: nat,
                                            n: Bytes)
    requires i <= |entries| && n in values && forall j | i <= j < |entries| :: entries[j] != n
    ensures n in CleanedUp(values, disk, entries, i).values
    decreases |entries| - i
  {
    if i < |entries| {
      var values' := if disk != [] && disk[0] then values - {entries[i]} else values;
      OtherEntriesStay(values', if disk == [] then [] else disk[1..], entries, i + 1, n);
    }
  }

  lemma {:induction false} CleanupWithoutFailures(values: map<Bytes, Bytes>, disk: seq<bool>, entries: seq<Bytes>,
                                                  i: nat)
    requires i <= |entries| && |entries| - i <= |disk| && forall j | 0 <= j < |disk| :: disk[j]
    ensures forall n | n in CleanedUp(values, disk, entries, i).values :: n !in entries[i..]
    decreases |entries| - i
  {
    if i < |entries| {
      assert entries[i..] == [entries[i]] + entries[i + 1..];
      CleanupWithoutFailures(values - {entries[i]}, disk[1..], entries, i + 1);
      RemovedStaysRemoved(values - {entries[i]}, disk[1..], entries, i + 1, entries[i]);
    }
  }

  lemma {:induction false} RemovedStaysRemoved(values: map<Bytes, Bytes>, disk: seq<bool>, entries: seq<Bytes>, i: nat,
                                               n: Bytes)
    requires i <= |entries| && n !in values
    ensures n !in CleanedUp(values, disk, entries, i).values
    decreases |entries| - i
  {
    if i < |entries| {
      var values' := if disk != [] && disk[0] then values - {entries[i]} else values;
      RemovedStaysRemoved(values', if disk == [] then [] else disk[1..], entries, i + 1, n);
    }
  }

  /** Deleting every reported entry leaves every sound record as it was, whichever deletions
      fail; a rescan then reports the entries that were not deleted and nothing else. */
  lemma RescanReportsTheRest(d: Decoders, values: map<Bytes, Bytes>, disk: seq<bool>)
    ensures var bad := Corrupted(d, values);
            var c := CleanedUp(values, disk, Ascending(bad), 0);
            && (forall n | n in values && n !in bad :: n in c.values && c.values[n] == values[n])
            && Corrupted(d, c.values) == c.values.Keys * bad
            && |Corrupted(d, c.values)| + c.removed == |bad|
  {
    var bad := Corrupted(d, values);
    var entries := Ascending(bad);
    var c := CleanedUp(values, disk, entries, 0);
    AscendingElements(bad);
    AscendingSorted(bad);
    assert entries[0..] == entries;
    forall j | 0 <= j < |entries| ensures entries[j] in values {
      assert entries[j] in entries;
    }
    CleanupTouchesEntriesOnly(values, disk, entries, 0);
    assert |c.values.Keys| == |c.values| && |values.Keys| == |values|;
    RestCounts(values.Keys, bad, c.values.Keys, Corrupted(d, c.values), c.removed);
  }

  lemma RestCounts(all: set<Bytes>, bad: set<Bytes>, left: set<Bytes>, rescan: set<Bytes>, removed: nat)
    requires bad <= all && left <= all && all - left <= bad && rescan == left * bad && |left| + removed == |all|
    ensures |rescan| + removed == |bad|
  {
    assert left == (all - bad) + rescan && all == (all - bad) + bad;
    assert (all - bad) * rescan == {} && (all - bad) * bad == {};
    assert |left| == |all - bad| + |rescan|;
  }

  /** If no deletion fails, the rescan is empty. */
  lemma RescanIsEmpty(d: Decoders, values: map<Bytes, Bytes>, disk: seq<bool>)
    requires |disk| >= |Corrupted(d, values)| && forall j | 0 <= j < |disk| :: disk[j]
    ensures Corrupted(d, CleanedUp(values, disk, Ascending(Corrupted(d, values)), 0).values) == {}
  {
    var bad := Corrupted(d, values);
    AscendingElements(bad);
    RescanReportsTheRest(d, values, disk);
    CleanupWithoutFailures(values, disk, Ascending(bad), 0);
    assert Ascending(bad)[0..] == Ascending(bad);
  }

  //----------------------------------------------------------------------------------------
  // Is a record taken for what it is?

  /** The scan takes keys, tags and grants with ids that have no '/' for keys, tags and keys, and
      an alias for an alias unless "/tag/" occurs in its name: then for a tag, so that an alias
      value which only the alias decoder rejects goes unnoticed. */
  lemma TakenFor(cfg: Config, s: Subject)
    requires ValidConfig(cfg) && ValidSubject(s) && (s.GrantSubject? ==> NoSlash(s.grantId))
    ensures var n := StorageName(cfg, s);
            KindOf(n) == match s
                         case KeySubject(_) => KeyEntry
                         case GrantSubject(_) => KeyEntry
                         case TagSubject(_, _) => TagEntry
                         case AliasSubject(_) => if Contains(n, "/tag/") then TagEntry else AliasEntry
  {
    var n := StorageName(cfg, s);
    match s
    case KeySubject(id) =>
      KeyNameHasOneSlash(cfg, id);
      KeyIsNoAlias(cfg, id);
    case GrantSubject(id) =>
      GrantIsNeither(id);
    case TagSubject(owner, tagKey) =>
      assert OccursAt(n, "/tag/", |OwnerArn(cfg, owner)|);
    case AliasSubject(name) =>
      AliasHasColon(cfg, name);
  }

  lemma AliasHasColon(cfg: Config, name: Bytes)
    requires HasPrefix(name, ALIAS)
    ensures Contains(ArnPrefix(cfg) + name, ":alias/")
  {
    var n, at := ArnPrefix(cfg) + name, |ArnPrefix(cfg)| - 1;
    assert n[at] == ':' && n[at + 1..at + 7] == name[..6];
    assert n[at..at + 7] == [n[at]] + n[at + 1..at + 7];
    assert OccursAt(n, ":alias/", at);
  }

  lemma KeyIsNoAlias(cfg: Config, id: Bytes)
    requires ValidConfig(cfg) && NoSlash(id)
    ensures !Contains(KeyArn(cfg, id), ":alias/")
  {
    var arn, p := KeyArn(cfg, id), ArnPrefix(cfg);
    assert forall j | 0 <= j < |arn| && arn[j] == SLASH :: j == |p| + 3;
    assert arn[|p| + 2] == 'y';
    forall i: nat | i <= |arn| ensures !OccursAt(arn, ":alias/", i) {
      if i + 7 <= |arn| {
        var part := arn[i..i + 7];
        assert part[6] == arn[i + 6] && part[5] == arn[i + 5];
        assert ":alias/"[6] == SLASH && ":alias/"[5] == 's';
      }
    }
  }

  lemma GrantIsNeither(id: Bytes)
    requires NoSlash(id)
    ensures !Contains(GrantName(id), "/tag/") && !Contains(GrantName(id), ":alias/")
  {
    var n := GrantName(id);
    assert forall j | 0 <= j < |n| && n[j] == SLASH :: j == 5;
    forall i: nat | i <= |n| ensures !OccursAt(n, "/tag/", i) && !OccursAt(n, ":alias/", i) {
      if i + 5 <= |n| {
        assert n[i..i + 5][0] == n[i] && n[i..i + 5][4] == n[i + 4];
      }
      if i + 7 <= |n| {
        assert n[i..i + 7][0] == n[i] && n[i..i + 7][6] == n[i + 6];
        assert n[..6] == GRANT;
      }
    }
  }
}
