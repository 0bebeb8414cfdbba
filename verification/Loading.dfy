/** What LoadKey does to a stored key, case by case, in terms of the record's fields and the clock
    alone. The three conditions below are stated here a second time, on purpose independently of
    the functions that LoadKey itself is built from. */
module Loading {
  import opened Wrappers
  import opened ByteStrings
  import opened Names
  import opened Keys
  import opened Store
  import opened StoreHistory

  /** The rotation date has passed, and the key is of a type that rotates. */
  predicate RotationDue(k: KeyRecord, now: Time) {
    && (k.keyType == Aes || (k.keyType == Hmac && k.meta.keySpec in {Hmac224, Hmac256, Hmac384, Hmac512}))
    && k.nextKeyRotation.Some? && k.nextKeyRotation.value < now
  }

  /** The deletion date has passed, to the second. */
  predicate PurgeDue(k: KeyRecord, now: Time) {
    0 < k.meta.deletionDate < now / 1_000_000_000 * 1_000_000_000
  }

  /** The imported material has expired. */
  predicate ExpiryDue(k: KeyRecord, now: Time) {
    0 < k.meta.validTo < now / 1_000_000_000
  }

  /** The record that rotation leaves: one more backing key, at the end, and a new date. */
  function AfterRotation(k: KeyRecord, now: Time, year: nat, drawn: Bytes): KeyRecord {
    if RotationDue(k, now) then k.(backingKeys := k.backingKeys + [drawn], nextKeyRotation := Some(now + year)) else k
  }

  function WithSpec(k: KeyRecord): KeyRecord {
    k.(meta := k.meta.(keySpec := if k.meta.keySpec == NoSpec then k.meta.customerMasterKeySpec else k.meta.keySpec))
  }

  /** The record that expiry leaves: disabled, pending import, without expiration; the material
      stays. */
  function AfterExpiry(k: KeyRecord): KeyRecord {
    var m := WithSpec(k).meta;
    k.(meta := m.(enabled := false, keyState := PendingImport, expirationModel := NoExpiration, validTo := 0))
  }

  /** No save refuses it: it has material, or needs none. */
  predicate Complete(k: KeyRecord) {
    k.backingKeys != [] || k.keyType != Aes || k.meta.origin == External
  }

  /** Exactly one case of LoadKey: neither rotation, purge nor expiry is due. */
  lemma QuietLoad(db: Db, arn: Bytes, now: Time, year: nat, drawn: Bytes)
    requires HoldsKey(db.records, arn)
    requires var k := db.records[arn].key; !RotationDue(k, now) && !PurgeDue(k, now) && !ExpiryDue(k, now)
    ensures LoadedKey(db, arn, now, year, drawn) == (db, Some(WithSpec(db.records[arn].key)))
  {
  }

  /** Rotation is due: the rotated record is stored before the key is handed out, or the key is not
      handed out and the record stays. */
  lemma OverdueKeyIsRotated(cfg: Config, db: Db, arn: Bytes, now: Time, year: nat, drawn: Bytes)
    requires AllNamed(cfg, db.records) && HoldsKey(db.records, arn)
    requires var k := db.records[arn].key; RotationDue(k, now) && !PurgeDue(k, now) && !ExpiryDue(k, now)
    ensures var k' := AfterRotation(db.records[arn].key, now, year, drawn);
            var (db', got) := LoadedKey(db, arn, now, year, drawn);
            if WriteSucceeds(db) then db'.records == db.records[arn := KeyRec(k')] && got == Some(WithSpec(k'))
            else db'.records == db.records && got == None
  {
    var s := SubjectOf(cfg, db.records, arn);
  }

  /** A load adds backing keys, one and at the end, if and only if rotation was due and the disk
      took the write. (A key that is purged on the same load has no record left to compare.) */
  lemma RotatesExactlyWhenDue(cfg: Config, db: Db, arn: Bytes, now: Time, year: nat, drawn: Bytes)
    requires AllNamed(cfg, db.records) && HoldsKey(db.records, arn)
    requires HoldsKey(LoadedKey(db, arn, now, year, drawn).0.records, arn)
    ensures var k, k' := db.records[arn].key, LoadedKey(db, arn, now, year, drawn).0.records[arn].key;
            && (k'.backingKeys != k.backingKeys <==> RotationDue(k, now) && WriteSucceeds(db))
            && (k'.backingKeys != k.backingKeys ==>
                  k'.backingKeys == k.backingKeys + [drawn] && k'.nextKeyRotation == Some(now + year))
            && (k'.backingKeys == k.backingKeys ==> k'.nextKeyRotation == k.nextKeyRotation)
  {
    var s := SubjectOf(cfg, db.records, arn);
    var k := db.records[arn].key;
    if RotationDue(k, now) {
      assert |k.backingKeys + [drawn]| == |k.backingKeys| + 1;
      if WriteSucceeds(db) {
        RestKeepsMaterial(SavedKey(db, Rotated(k, now, year, drawn)).0, arn, Rotated(k, now, year, drawn), now);
      }
    } else {
      RestKeepsMaterial(db, arn, k, now);
    }
  }

  lemma RestKeepsMaterial(db: Db, arn: Bytes, k: KeyRecord, now: Time)
    requires k.meta.arn == arn && HoldsKey(db.records, arn) && HoldsKey(LoadRest(db, arn, k, now).0.records, arn)
    ensures var k' := LoadRest(db, arn, k, now).0.records[arn].key;
            || k' == db.records[arn].key
            || (k'.backingKeys == k.backingKeys && k'.nextKeyRotation == k.nextKeyRotation)
  {
  }

  /** Purge is due: the key is not handed out, and its record is gone if and only if the write for
      that succeeds, which comes after the one for a due rotation. */
  lemma OverdueKeyIsPurged(cfg: Config, db: Db, arn: Bytes, now: Time, year: nat, drawn: Bytes)
    requires AllNamed(cfg, db.records) && HoldsKey(db.records, arn) && PurgeDue(db.records[arn].key, now)
    ensures var k := db.records[arn].key;
            var (db', got) := LoadedKey(db, arn, now, year, drawn);
            && got == None
            && (arn !in db'.records <==>
                  if RotationDue(k, now) then |db.disk| >= 2 && db.disk[0] && db.disk[1]
                  else |db.disk| >= 1 && db.disk[0])
  {
    var s := SubjectOf(cfg, db.records, arn);
  }

  /** A load never deletes a key whose deletion date has not passed. */
  lemma PurgesOnlyWhenDue(cfg: Config, db: Db, arn: Bytes, now: Time, year: nat, drawn: Bytes)
    requires AllNamed(cfg, db.records) && HoldsKey(db.records, arn) && !PurgeDue(db.records[arn].key, now)
    ensures HoldsKey(LoadedKey(db, arn, now, year, drawn).0.records, arn)
  {
    var s := SubjectOf(cfg, db.records, arn);
  }

  /** Expiry is due, rotation and purge are not: the key is stored and handed out without its
      expiration, pending import, or not handed out at all. */
  lemma ExpiredKeyIsPendingImport(cfg: Config, db: Db, arn: Bytes, now: Time, year: nat, drawn: Bytes)
    requires AllNamed(cfg, db.records) && HoldsKey(db.records, arn)
    requires var k := db.records[arn].key; !RotationDue(k, now) && !PurgeDue(k, now) && ExpiryDue(k, now)
    ensures var k' := AfterExpiry(db.records[arn].key);
            var (db', got) := LoadedKey(db, arn, now, year, drawn);
            if WriteSucceeds(db) && Complete(k') then db'.records == db.records[arn := KeyRec(k')] && got == Some(k')
            else db'.records == db.records && got == None
  {
    var s := SubjectOf(cfg, db.records, arn);
  }

  /** Both are due: rotation first, then expiry of the rotated record, each with a write of its own. */
  lemma RotatedThenExpired(cfg: Config, db: Db, arn: Bytes, now: Time, year: nat, drawn: Bytes)
    requires AllNamed(cfg, db.records) && HoldsKey(db.records, arn)
    requires var k := db.records[arn].key; RotationDue(k, now) && !PurgeDue(k, now) && ExpiryDue(k, now)
    ensures var k' := AfterRotation(db.records[arn].key, now, year, drawn);
            var (db', got) := LoadedKey(db, arn, now, year, drawn);
            if !WriteSucceeds(db) then db'.records == db.records && got == None
            else if |db.disk| < 2 || !db.disk[1] then db'.records == db.records[arn := KeyRec(k')] && got == None
            else db'.records == db.records[arn := KeyRec(AfterExpiry(k'))] && got == Some(AfterExpiry(k'))
  {
    var s := SubjectOf(cfg, db.records, arn);
    var k := db.records[arn].key;
    var k' := AfterRotation(k, now, year, drawn);
    var saved := SavedKey(db, k').0;
    assert k' == Rotated(k, now, year, drawn) && AfterExpiry(k') == WithoutMaterial(Migrated(k'));
    assert |k'.backingKeys| == |k.backingKeys| + 1;
    assert SaveAllowed(k') && SaveAllowed(AfterExpiry(k'));
    assert |db.disk| >= 2 && db.disk[0] ==> saved.disk[0] == db.disk[1];
  }

  /** There is no key to load: nothing happens. */
  lemma MissingKey(db: Db, arn: Bytes, now: Time, year: nat, drawn: Bytes)
    requires arn !in db.records
    ensures LoadedKey(db, arn, now, year, drawn) == (db, None)
  {
  }
}
