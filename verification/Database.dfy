/** The store as an object: a Go map-like database whose writes may fail, with the loops of the
    list operations (database.go, database_key.go, _alias.go, _tag.go, _grant.go). */
module Databases {
  import opened Wrappers
  import opened ByteStrings
  import opened Keys
  import opened Names
  import opened Pages
  import opened Store

  // The loops of ListAlias, ListTags and scanGrants over the entries of their iterator

  method ScanAliases(iter: seq<Bytes>, records: map<Bytes, Record>, limit: nat, marker: Bytes, key: Bytes)
    returns (aliases: seq<Alias>, ghost names: seq<Bytes>, past: bool)
    requires forall n | n in iter :: n in records
    ensures names == ScanLoop(iter, 0, limit, marker, AliasesOf(records, key), false).0
    ensures past == ScanLoop(iter, 0, limit, marker, AliasesOf(records, key), false).1
    ensures aliases == AliasesNamed(records, names)
  {
    var count := 0;
    aliases, names, past := [], [], false;
    var i := 0;
    ghost var mark, kept := marker, AliasesOf(records, key);
    ghost var all := ScanLoop(iter, 0, limit, mark, kept, false);
    while count < limit && i < |iter|
      invariant i <= |iter| && count == |names| == |aliases| <= limit
      invariant forall j | 0 <= j < count :: aliases[j] == AsAlias(Lookup(records, names[j]))
      invariant all.0 == names + ScanLoop(iter, i, limit - count, mark, kept, past).0
      invariant all.1 == ScanLoop(iter, i, limit - count, mark, kept, past).1
      decreases |iter| - i
    {
      var n := iter[i];
      i := i + 1;
      if marker != [] && !past && marker != n {
        continue;
      }
      past := true;
      var a := AsAlias(Lookup(records, n));
      if !FieldMatches(key, a.targetKeyId) {
        continue;
      }
      aliases, names := aliases + [a], names + [n];
      count := count + 1;
    }
    assert names + [] == names;
  }

  method ScanTags(iter: seq<Bytes>, records: map<Bytes, Record>, limit: nat, keyArn: Bytes, marker: Bytes)
    returns (tags: seq<Tag>, ghost names: seq<Bytes>, past: bool)
    requires forall n | n in iter :: n in records
    ensures names == ScanLoop(iter, 0, limit, TagMarkerName(keyArn, marker), records.Keys, false).0
    ensures past == ScanLoop(iter, 0, limit, TagMarkerName(keyArn, marker), records.Keys, false).1
    ensures tags == TagsNamed(records, names)
  {
    var count := 0;
    tags, names, past := [], [], false;
    var i := 0;
    ghost var mark, kept := TagMarkerName(keyArn, marker), records.Keys;
    ghost var all := ScanLoop(iter, 0, limit, mark, kept, false);
    while count < limit && i < |iter|
      invariant i <= |iter| && count == |names| == |tags| <= limit
      invariant forall j | 0 <= j < count :: tags[j] == AsTag(Lookup(records, names[j]))
      invariant all.0 == names + ScanLoop(iter, i, limit - count, mark, kept, past).0
      invariant all.1 == ScanLoop(iter, i, limit - count, mark, kept, past).1
      decreases |iter| - i
    {
      var n := iter[i];
      i := i + 1;
      if marker != [] && !past && TagName(keyArn, marker) != n {
        continue;
      }
      past := true;
      tags, names := tags + [AsTag(Lookup(records, n))], names + [n];
      count := count + 1;
    }
    assert names + [] == names;
  }

  /** `included` holds the names of the grants for which the include function is true. */
  method ScanGrantRange(iter: seq<Bytes>, records: map<Bytes, Record>, limit: nat, marker: Bytes, included: set<Bytes>)
    returns (grants: seq<Grant>, ghost names: seq<Bytes>, past: bool)
    requires forall n | n in iter :: n in records
    ensures names == ScanLoop(iter, 0, limit, GrantMarkerName(marker), included, false).0
    ensures past == ScanLoop(iter, 0, limit, GrantMarkerName(marker), included, false).1
    ensures grants == GrantsNamed(records, names)
  {
    var count := 0;
    grants, names, past := [], [], false;
    var i := 0;
    var markerKey := GrantMarkerName(marker);
    ghost var all := ScanLoop(iter, 0, limit, markerKey, included, false);
    while count < limit && i < |iter|
      invariant i <= |iter| && count == |names| == |grants| <= limit
      invariant forall j | 0 <= j < count :: grants[j] == AsGrant(Lookup(records, names[j]))
      invariant all.0 == names + ScanLoop(iter, i, limit - count, markerKey, included, past).0
      invariant all.1 == ScanLoop(iter, i, limit - count, markerKey, included, past).1
      decreases |iter| - i
    {
      var n := iter[i];
      i := i + 1;
      if markerKey != [] && !past && markerKey != n {
        continue;
      }
      past := true;
      var g := AsGrant(Lookup(records, n));
      if n !in included {
        continue;
      }
      grants, names := grants + [g], names + [n];
      count := count + 1;
    }
    assert names + [] == names;
  }

  lemma AfterBoth(a: seq<KeyRecord>, b: seq<KeyRecord>, rest: (Db, seq<KeyRecord>, bool))
    ensures After(a, After(b, rest)) == After(a + b, rest)
    ensures After([], rest) == rest
  {
    assert a + (b + rest.1) == a + b + rest.1 && [] + rest.1 == rest.1;
  }

  class Database {
    var records: map<Bytes, Record>
    var disk: seq<bool>

    function State(): Db
      reads this
    {
      Db(records, disk)
    }

    method CheckDiskSpace() returns (ok: bool)
      modifies this`disk
      ensures ok == WriteSucceeds(old(State())) && State() == AfterWrite(old(State()))
    {
      ok := |disk| > 0 && disk[0];
      if |disk| > 0 {
        disk := disk[1..];
      }
    }

    method Put(name: Bytes, r: Record) returns (ok: bool)
      modifies this
      ensures (State(), ok) == Written(old(State()), name, r)
    {
      ok := CheckDiskSpace();
      if ok {
        records := records[name := r];
      }
    }

    method DeleteObject(name: Bytes) returns (ok: bool)
      modifies this
      ensures (State(), ok) == Deleted(old(State()), name)
    {
      ok := CheckDiskSpace();
      if ok {
        records := records - {name};
      }
    }

    method SaveKey(key: Key) returns (ok: bool)
      modifies this
      ensures (State(), ok) == SavedKey(old(State()), old(key.Record()))
    {
      if key.keyType == Aes && key.meta.origin != External && |key.backingKeys| == 0 {
        return false;
      }
      ok := Put(key.meta.arn, KeyRec(key.Record()));
    }

    method LoadKey(arn: Bytes, now: Time, year: nat, drawn: Bytes) returns (key: Key?)
      modifies this
      ensures State() == LoadedKey(old(State()), arn, now, year, drawn).0
      ensures key == null <==> LoadedKey(old(State()), arn, now, year, drawn).1.None?
      ensures key != null ==> fresh(key) &&
                              Some(key.Record()) == LoadedKey(old(State()), arn, now, year, drawn).1
    {
      if arn !in records {
        return null;
      }
      var loaded := new Key.Decode(AsKey(records[arn]));
      var rotated := loaded.RotateIfNeeded(now, year, drawn);
      if rotated {
        var ok := SaveKey(loaded);
        if !ok {
          return null;
        }
      }
      if loaded.meta.keySpec == NoSpec {
        loaded.meta := loaded.meta.(keySpec := loaded.meta.customerMasterKeySpec);
      }
      if IsPendingDeletion(loaded.meta, now) {
        var _ := DeleteObject(arn);
        return null;
      }
      if loaded.meta.validTo != 0 && loaded.meta.validTo < Unix(now) {
        loaded.meta := loaded.meta.(enabled := false, keyState := PendingImport);
        loaded.meta := loaded.meta.(expirationModel := NoExpiration, validTo := 0);
        var ok := SaveKey(loaded);
        if !ok {
          return null;
        }
      }
      return loaded;
    }

    /** A LevelDB iterator over a prefix range, run to its end. */
    method Iterate(prefix: Bytes) returns (names: seq<Bytes>)
      ensures names == NamesWithPrefix(records, prefix)
      ensures forall n | n in names :: n in records
    {
      var range := set n | n in records && HasPrefix(n, prefix);
      names := InOrder(range);
      AscendingElements(range);
    }

    /** The keys in a prefix range from the marker on, at most `limit`, as GetArn and KeyId
        are read from them. Keys past their deletion date are deleted on the way. */
    method ListKeys(prefix: Bytes, limit: nat, marker: Bytes, now: Time) returns (keys: seq<KeyRecord>, ok: bool)
      modifies this
      ensures var (db, found, past) :=
                ListedKeys(old(State()), NamesWithPrefix(old(records), prefix), 0, old(records), limit, marker, false,
                           now);
              State() == db && keys == found && ok == (marker == [] || past)
    {
      var iter := Iterate(prefix);
      var snapshot := records;
      var i, count, pastMarker := 0, 0, false;
      keys := [];
      ghost var db := State();
      ghost var all := ListedKeys(db, iter, 0, snapshot, limit, marker, false, now);
      AfterBoth([], [], all);
      while count < limit && i < |iter|
        invariant count == |keys| <= limit && i <= |iter| && db == State()
        invariant all == After(keys, ListedKeys(db, iter, i, snapshot, limit - count, marker, pastMarker, now))
        decreases |iter| - i
      {
        var n := iter[i];
        i := i + 1;
        if IsTagName(n) {
          continue;
        }
        if marker != [] && !pastMarker && marker != n {
          continue;
        }
        pastMarker := true;
        var key := AsKey(Lookup(snapshot, n));
        if IsPendingDeletion(key.meta, now) {
          var _ := DeleteObject(key.meta.arn);
          db := Deleted(db, key.meta.arn).0;
          continue;
        }
        AfterBoth(keys, [key], ListedKeys(db, iter, i, snapshot, limit - count - 1, marker, true, now));
        keys := keys + [key];
        count := count + 1;
      }
      assert keys + [] == keys;
      ok := marker == [] || pastMarker;
    }

    method SaveAlias(a: Alias) returns (ok: bool)
      modifies this
      ensures (State(), ok) == Written(old(State()), a.aliasArn, AliasRec(a))
    {
      ok := Put(a.aliasArn, AliasRec(a));
    }

    method LoadAlias(arn: Bytes) returns (a: Option<Alias>)
      ensures a == if arn in records then Some(AsAlias(records[arn])) else None
    {
      return if arn in records then Some(AsAlias(records[arn])) else None;
    }

    method ListAlias(prefix: Bytes, limit: nat, marker: Bytes, key: Bytes)
      returns (aliases: seq<Alias>, ghost names: seq<Bytes>, ok: bool)
      requires limit >= 1
      ensures ok == ListedAliases(records, prefix, limit, marker, key).Some?
      ensures ok ==> Some(names) == ListedAliases(records, prefix, limit, marker, key)
      ensures aliases == AliasesNamed(records, names)
    {
      var iter := Iterate(prefix);
      var past;
      aliases, names, past := ScanAliases(iter, records, limit, marker, key);
      ScanLoopIsScan(iter, limit, marker, AliasesOf(records, key));
      ok := marker == [] || past;
    }

    method SaveTag(keyArn: Bytes, t: Tag) returns (ok: bool)
      modifies this
      ensures (State(), ok) == Written(old(State()), TagName(keyArn, t.tagKey), TagRec(t))
    {
      ok := Put(TagName(keyArn, t.tagKey), TagRec(t));
    }

    method CountTags(keyArn: Bytes) returns (count: nat)
      ensures count == |NamesWithPrefix(records, keyArn + TAG)|
    {
      var iter := Iterate(keyArn + TAG);
      count := 0;
      while count < |iter|
        invariant count <= |iter|
      {
        count := count + 1;
      }
    }

    method ListTags(keyArn: Bytes, limit: nat, marker: Bytes)
      returns (tags: seq<Tag>, ghost names: seq<Bytes>, ok: bool)
      requires limit >= 1
      ensures ok == ListedTags(records, keyArn, limit, marker).Some?
      ensures ok ==> Some(names) == ListedTags(records, keyArn, limit, marker)
      ensures tags == TagsNamed(records, names)
    {
      var iter := Iterate(keyArn + TAG);
      var past;
      tags, names, past := ScanTags(iter, records, limit, keyArn, marker);
      ScanLoopIsScan(iter, limit, TagMarkerName(keyArn, marker), records.Keys);
      ok := marker == [] || past;
    }

    method SaveGrant(g: Grant) returns (ok: bool)
      modifies this
      ensures (State(), ok) == Written(old(State()), GrantName(g.grantId), GrantRec(g))
    {
      ok := Put(GrantName(g.grantId), GrantRec(g));
    }

    method LoadGrant(grantId: Bytes) returns (g: Option<Grant>)
      ensures g == if GrantName(grantId) in records then Some(AsGrant(records[GrantName(grantId)])) else None
    {
      return if GrantName(grantId) in records then Some(AsGrant(records[GrantName(grantId)])) else None;
    }

    method DeleteGrant(grantId: Bytes) returns (ok: bool)
      modifies this
      ensures (State(), ok) == Deleted(old(State()), GrantName(grantId))
    {
      ok := DeleteObject(GrantName(grantId));
    }

    /** The first grant, in storage order, that carries the token. */
    method FindGrantByToken(token: Bytes) returns (g: Option<Grant>)
      ensures g == GrantByToken(NamesWithPrefix(records, GRANT), 0, records, token)
    {
      var iter := Iterate(GRANT);
      for i := 0 to |iter|
        invariant GrantByToken(iter, 0, records, token) == GrantByToken(iter, i, records, token)
      {
        var grant := AsGrant(Lookup(records, iter[i]));
        if grant.grantToken == token {
          return Some(grant);
        }
      }
      return None;
    }

    method ScanGrants(limit: nat, marker: Bytes, filter: GrantFilter)
      returns (grants: seq<Grant>, ghost names: seq<Bytes>, ok: bool)
      requires limit >= 1
      ensures ok == ListedGrants(records, filter, limit, marker).Some?
      ensures ok ==> Some(names) == ListedGrants(records, filter, limit, marker)
      ensures grants == GrantsNamed(records, names)
    {
      var iter := Iterate(GRANT);
      var past;
      grants, names, past := ScanGrantRange(iter, records, limit, marker, MatchingGrants(records, filter));
      ScanLoopIsScan(iter, limit, GrantMarkerName(marker), MatchingGrants(records, filter));
      ok := marker == [] || past;
    }
  }
}
