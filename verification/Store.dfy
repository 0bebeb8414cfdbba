/** The key/value store and the key operations on it (database.go, database_key.go,
    data_validation.go) and the scans of database_grant.go, _alias.go and _tag.go, as functions
    of the store's value. The object itself is in Database.dfy. */
module Store {
  import opened Wrappers
  import opened ByteStrings
  import opened Keys
  import opened Names
  import opened Pages

  datatype Alias = Alias(
    aliasArn: Bytes, aliasName: Bytes, targetKeyId: Bytes, creationDate: nat, lastUpdatedDate: nat)
  datatype Tag = Tag(tagKey: Bytes, tagValue: Bytes)
  datatype Grant = Grant(
    grantId: Bytes, grantToken: Bytes, keyArn: Bytes,
    granteePrincipal: Bytes, granteeServicePrincipal: Bytes,
    retiringPrincipal: Bytes, retiringServicePrincipal: Bytes)

  datatype Record = KeyRec(key: KeyRecord) | AliasRec(alias: Alias) | TagRec(tag: Tag) | GrantRec(grant: Grant)

  const ZERO_ALIAS := Alias([], [], [], 0, 0)
  const ZERO_TAG := Tag([], [])
  const ZERO_GRANT := Grant([], [], [], [], [], [], [])

  // Reading a record as another kind matches no JSON field and gives the zero value.

  function AsKey(r: Record): KeyRecord {
    if r.KeyRec? then r.key else ZERO_KEY
  }

  function AsAlias(r: Record): Alias {
    if r.AliasRec? then r.alias else ZERO_ALIAS
  }

  function AsTag(r: Record): Tag {
    if r.TagRec? then r.tag else ZERO_TAG
  }

  function AsGrant(r: Record): Grant {
    if r.GrantRec? then r.grant else ZERO_GRANT
  }

  /** `disk` holds the outcomes of the coming writes; a write beyond its end fails. */
  datatype Db = Db(records: map<Bytes, Record>, disk: seq<bool>)

  predicate WriteSucceeds(db: Db) {
    db.disk != [] && db.disk[0]
  }

  function AfterWrite(db: Db): Db {
    if db.disk == [] then db else db.(disk := db.disk[1..])
  }

  function Written(db: Db, name: Bytes, r: Record): (Db, bool) {
    if WriteSucceeds(db) then (AfterWrite(db).(records := db.records[name := r]), true)
    else (AfterWrite(db), false)
  }

  function Deleted(db: Db, name: Bytes): (Db, bool) {
    if WriteSucceeds(db) then (AfterWrite(db).(records := db.records - {name}), true)
    else (AfterWrite(db), false)
  }

  /** ValidateKeyData. */
  predicate SaveAllowed(k: KeyRecord) {
    !(k.keyType == Aes && k.meta.origin != External && k.backingKeys == [])
  }

  function SavedKey(db: Db, k: KeyRecord): (Db, bool) {
    if SaveAllowed(k) then Written(db, k.meta.arn, KeyRec(k)) else (db, false)
  }

  /** LoadKey: rotates, migrates, purges or expires what it reads. The result is None for
      every error, as all callers treat them. */
  function LoadedKey(db: Db, arn: Bytes, now: Time, year: nat, drawn: Bytes): (Db, Option<KeyRecord>) {
    if arn !in db.records then (db, None)
    else
      var k := AsKey(db.records[arn]);
      if NeedsRotation(k, now) then
        var rotated := Rotated(k, now, year, drawn);
        var saved := SavedKey(db, rotated);
        if saved.1 then LoadRest(saved.0, arn, rotated, now) else (saved.0, None)
      else LoadRest(db, arn, k, now)
  }

  function LoadRest(db: Db, arn: Bytes, stored: KeyRecord, now: Time): (Db, Option<KeyRecord>) {
    var k := Migrated(stored);
    if IsPendingDeletion(k.meta, now) then (Deleted(db, arn).0, None)
    else if MaterialExpired(k.meta, now) then
      var saved := SavedKey(db, WithoutMaterial(k));
      (saved.0, if saved.1 then Some(WithoutMaterial(k)) else None)
    else (db, Some(k))
  }

  /** The names in a prefix range, in the order an iterator visits them. */
  ghost function NamesWithPrefix(records: map<Bytes, Record>, prefix: Bytes): seq<Bytes> {
    Ascending(set n | n in records && HasPrefix(n, prefix))
  }

  //----------------------------------------------------------------------------------------
  // The scans behind the list operations

  function Lookup(records: map<Bytes, Record>, n: Bytes): Record {
    if n in records then records[n] else TagRec(ZERO_TAG)
  }

  function AliasesNamed(records: map<Bytes, Record>, names: seq<Bytes>): seq<Alias> {
    seq(|names|, i requires 0 <= i < |names| => AsAlias(Lookup(records, names[i])))
  }

  function TagsNamed(records: map<Bytes, Record>, names: seq<Bytes>): seq<Tag> {
    seq(|names|, i requires 0 <= i < |names| => AsTag(Lookup(records, names[i])))
  }

  function GrantsNamed(records: map<Bytes, Record>, names: seq<Bytes>): seq<Grant> {
    seq(|names|, i requires 0 <= i < |names| => AsGrant(Lookup(records, names[i])))
  }

  /** Empty fields are not filtered on. */
  datatype GrantFilter = GrantFilter(
    keyArn: Bytes, grantId: Bytes, granteePrincipal: Bytes, granteeServicePrincipal: Bytes,
    retiringPrincipal: Bytes, retiringServicePrincipal: Bytes)

  predicate FieldMatches(wanted: Bytes, actual: Bytes) {
    wanted == [] || wanted == actual
  }

  predicate Matches(f: GrantFilter, g: Grant) {
    && FieldMatches(f.keyArn, g.keyArn) && FieldMatches(f.grantId, g.grantId)
    && FieldMatches(f.granteePrincipal, g.granteePrincipal)
    && FieldMatches(f.granteeServicePrincipal, g.granteeServicePrincipal)
    && FieldMatches(f.retiringPrincipal, g.retiringPrincipal)
    && FieldMatches(f.retiringServicePrincipal, g.retiringServicePrincipal)
  }

  function MatchingGrants(records: map<Bytes, Record>, f: GrantFilter): set<Bytes> {
    set n | n in records && Matches(f, AsGrant(records[n]))
  }

  function AliasesOf(records: map<Bytes, Record>, targetKeyId: Bytes): set<Bytes> {
    set n | n in records && FieldMatches(targetKeyId, AsAlias(records[n]).targetKeyId)
  }

  function GrantMarkerName(marker: Bytes): Bytes {
    if marker == [] then [] else GrantName(marker)
  }

  function TagMarkerName(keyArn: Bytes, marker: Bytes): Bytes {
    if marker == [] then [] else TagName(keyArn, marker)
  }

  ghost function ListedGrants(records: map<Bytes, Record>, f: GrantFilter, limit: nat, marker: Bytes)
    : Option<seq<Bytes>>
  {
    Scan(NamesWithPrefix(records, GRANT), limit, GrantMarkerName(marker), MatchingGrants(records, f))
  }

  ghost function ListedAliases(records: map<Bytes, Record>, prefix: Bytes, limit: nat, marker: Bytes, key: Bytes)
    : Option<seq<Bytes>>
  {
    Scan(NamesWithPrefix(records, prefix), limit, marker, AliasesOf(records, key))
  }

  ghost function ListedTags(records: map<Bytes, Record>, keyArn: Bytes, limit: nat, marker: Bytes): Option<seq<Bytes>> {
    Scan(NamesWithPrefix(records, keyArn + TAG), limit, TagMarkerName(keyArn, marker), records.Keys)
  }

  /** The first grant from entry i on that carries the token. */
  function GrantByToken(names: seq<Bytes>, i: nat, records: map<Bytes, Record>, token: Bytes): Option<Grant>
    requires i <= |names|
    decreases |names| - i
  {
    if i == |names| then None
    else
      var g := AsGrant(Lookup(records, names[i]));
      if g.grantToken == token then Some(g) else GrantByToken(names, i + 1, records, token)
  }

  function IsTagName(n: Bytes): bool {
    Contains(n, "/tag/")
  }

  /** ListKeys from entry i of its range: tags are skipped, keys past their deletion date are
      deleted from the store, if that write succeeds, and skipped. Returns the store, the keys
      found and whether the marker has been passed. */
  function ListedKeys(db: Db, names: seq<Bytes>, i: nat, snapshot: map<Bytes, Record>, limit: nat, marker: Bytes,
                      past: bool, now: Time): (Db, seq<KeyRecord>, bool)
    requires i <= |names|
    decreases |names| - i
  {
    if limit == 0 || i == |names| then (db, [], past)
    else if IsTagName(names[i]) || (marker != [] && !past && marker != names[i]) then
      ListedKeys(db, names, i + 1, snapshot, limit, marker, past, now)
    else
      var k := AsKey(Lookup(snapshot, names[i]));
      if IsPendingDeletion(k.meta, now) then
        ListedKeys(Deleted(db, k.meta.arn).0, names, i + 1, snapshot, limit, marker, true, now)
      else
        After([k], ListedKeys(db, names, i + 1, snapshot, limit - 1, marker, true, now))
  }

  /** The rest of a listing after the keys found so far. */
  function After(found: seq<KeyRecord>, rest: (Db, seq<KeyRecord>, bool)): (Db, seq<KeyRecord>, bool) {
    (rest.0, found + rest.1, rest.2)
  }

  //----------------------------------------------------------------------------------------
  // LoadKey is a normaliser

  /** The next n writes succeed. */
  predicate Healthy(db: Db, n: nat) {
    n <= |db.disk| && forall i | 0 <= i < n :: db.disk[i]
  }

  /** An HMAC key without KeySpec, overdue for rotation, whose material has expired: the
      first load skips the rotation for lack of a key size but saves the migrated KeySpec. */
  predicate OverdueLegacyHmac(k: KeyRecord, now: Time) {
    && k.keyType == Hmac && k.meta.keySpec == NoSpec && HmacKeySize(k.meta.customerMasterKeySpec).Some?
    && k.nextKeyRotation.Some? && k.nextKeyRotation.value < now
    && MaterialExpired(k.meta, now) && !IsPendingDeletion(k.meta, now)
  }

  lemma LoadRestOfNormal(db: Db, arn: Bytes, k: KeyRecord, now: Time, year: nat, drawn: Bytes)
    requires arn in db.records && db.records[arn] == KeyRec(k) && k.meta.arn == arn
    requires !NeedsRotation(k, now) && Healthy(db, 2)
    ensures var (db1, k1) := LoadRest(db, arn, k, now);
            var (db2, k2) := LoadedKey(db1, arn, now, year, drawn);
            db2.records == db1.records && k2 == k1 <==> !OverdueLegacyHmac(k, now)
  {
    var m := Migrated(k);
    var (db1, k1) := LoadRest(db, arn, k, now);
    if IsPendingDeletion(k.meta, now) {
      assert arn !in db1.records;
    } else if MaterialExpired(k.meta, now) {
      if SaveAllowed(m) {
        assert db1.records[arn] == KeyRec(WithoutMaterial(m)) && db1.disk[0];
        assert NeedsRotation(WithoutMaterial(m), now) <==> OverdueLegacyHmac(k, now);
        if OverdueLegacyHmac(k, now) {
          var r := Rotated(WithoutMaterial(m), now, year, drawn);
          assert |r.backingKeys| == |k.backingKeys| + 1;
          assert LoadedKey(db1, arn, now, year, drawn).0.records[arn] == KeyRec(r);
        }
      }
    }
  }

  /** At a fixed clock with writes succeeding, loading a key again returns the same key and
      changes nothing, so an overdue rotation, expiry or purge happens once. The single
      exception is an overdue legacy HMAC key. */
  lemma LoadKeyNormalises(db: Db, arn: Bytes, now: Time, year: nat, drawn: Bytes, year': nat, drawn': Bytes)
    requires arn in db.records && db.records[arn].KeyRec? ==> db.records[arn].key.meta.arn == arn
    requires Healthy(db, 3)
    ensures var (db1, k1) := LoadedKey(db, arn, now, year, drawn);
            var (db2, k2) := LoadedKey(db1, arn, now, year', drawn');
            db2.records == db1.records && k2 == k1 <==>
            !(arn in db.records && OverdueLegacyHmac(AsKey(db.records[arn]), now))
  {
    if arn in db.records && db.records[arn].KeyRec? {
      var k := db.records[arn].key;
      if NeedsRotation(k, now) {
        var saved := SavedKey(db, Rotated(k, now, year, drawn));
        assert saved.0.disk == db.disk[1..];
        LoadRestOfNormal(saved.0, arn, Rotated(k, now, year, drawn), now, year', drawn');
      } else {
        LoadRestOfNormal(db, arn, k, now, year', drawn');
      }
    }
  }

  /** The exception at a concrete record, which no request of the service writes: an expired HMAC_256
      key without KeySpec that rotates on the second load only. */
  lemma LegacyHmacRotatesLate() returns (db: Db, arn: Bytes, now: Time)
    ensures Healthy(db, 3)
    ensures forall y, d, y', d' ::
              var first := LoadedKey(db, arn, now, y, d);
              LoadedKey(first.0, arn, now, y', d').0.records != first.0.records
  {
    arn, now := "a", 5 * SECOND;
    var meta := ZERO_KEY.meta.(arn := arn, customerMasterKeySpec := Hmac256, validTo := 1);
    var k := ZERO_KEY.(keyType := Hmac, meta := meta, nextKeyRotation := Some(1));
    db := Db(map[arn := KeyRec(k)], [true, true, true]);
    assert Unix(now) == 5;
    assert db.records[arn] == KeyRec(k) && OverdueLegacyHmac(k, now);
    forall y, d, y', d'
      ensures var first := LoadedKey(db, arn, now, y, d);
              LoadedKey(first.0, arn, now, y', d').0.records != first.0.records
    {
      LoadKeyNormalises(db, arn, now, y, d, y', d');
      var e := WithoutMaterial(Migrated(k));
      assert LoadedKey(db, arn, now, y, d).1 == Some(e);
      assert NeedsRotation(e, now) && SaveAllowed(Rotated(e, now, y', d'));
      assert LoadedKey(LoadedKey(db, arn, now, y, d).0, arn, now, y', d').1.Some?;
    }
  }
}
