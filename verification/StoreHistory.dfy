/** What one request keeps in the store as a whole: every record under the name computed from
    its own fields, every key evolving or purged, no key appearing from nowhere. */
module StoreHistory {
  import opened Wrappers
  import opened ByteStrings
  import opened Names
  import opened Crypto
  import opened Keys
  import opened Lifecycle
  import opened Store
  import opened Requests
  import opened KeyHistory

  /** The record's fields say that it is about the subject. */
  predicate Describes(cfg: Config, r: Record, s: Subject) {
    match r
    case KeyRec(k) => s == KeySubject(k.meta.keyId) && k.meta.arn == StorageName(cfg, s)
    case AliasRec(a) => s == AliasSubject(a.aliasName) && a.aliasArn == StorageName(cfg, s)
    case TagRec(t) => s.TagSubject? && s.tagKey == t.tagKey && t.tagKey != []
    case GrantRec(g) => s == GrantSubject(g.grantId) && g.grantId != []
  }

  predicate NamedAs(cfg: Config, n: Bytes, r: Record, s: Subject) {
    ValidSubject(s) && n == StorageName(cfg, s) && Describes(cfg, r, s)
  }

  /** Every record sits under the name computed from its own fields. */
  ghost predicate AllNamed(cfg: Config, records: map<Bytes, Record>) {
    forall n {:trigger Named(cfg, n, records[n])} | n in records :: Named(cfg, n, records[n])
  }

  ghost predicate Named(cfg: Config, n: Bytes, r: Record) {
    exists s :: NamedAs(cfg, n, r, s)
  }

  lemma SubjectOf(cfg: Config, records: map<Bytes, Record>, n: Bytes) returns (s: Subject)
    requires AllNamed(cfg, records) && n in records
    ensures NamedAs(cfg, n, records[n], s)
  {
    assert Named(cfg, n, records[n]);
    s :| NamedAs(cfg, n, records[n], s);
  }

  predicate HoldsKey(records: map<Bytes, Record>, n: Bytes) {
    n in records && records[n].KeyRec?
  }

  /** Every key record evolves or, past its deletion date, is purged; none appears. */
  ghost predicate KeysStep(r: map<Bytes, Record>, r': map<Bytes, Record>, at: Moment) {
    && (forall n | HoldsKey(r, n) :: if HoldsKey(r', n) then Evolves(r[n].key, r'[n].key, at)
                                     else IsPendingDeletion(r[n].key.meta, at.now))
    && (forall n | HoldsKey(r', n) :: HoldsKey(r, n))
  }

  /** Aliases, tags and grants stay exactly as they are. */
  predicate OthersSame(r: map<Bytes, Record>, r': map<Bytes, Record>) {
    && (forall n | n in r && !r[n].KeyRec? :: n in r' && r'[n] == r[n])
    && (forall n | n in r' && !r'[n].KeyRec? :: n in r && !r[n].KeyRec?)
  }

  lemma KeysStepTransitive(r: map<Bytes, Record>, r': map<Bytes, Record>, r'': map<Bytes, Record>, at: Moment)
    requires KeysStep(r, r', at) && KeysStep(r', r'', at)
    ensures KeysStep(r, r'', at)
  {
    forall n | HoldsKey(r, n)
      ensures if HoldsKey(r'', n) then Evolves(r[n].key, r''[n].key, at) else IsPendingDeletion(r[n].key.meta, at.now)
    {
      if HoldsKey(r', n) {
        assert Evolves(r[n].key, r'[n].key, at);
        if HoldsKey(r'', n) {
          EvolvesTransitive(r[n].key, r'[n].key, r''[n].key, at);
        }
      }
    }
  }

  lemma NothingEvolves(r: map<Bytes, Record>, at: Moment)
    ensures KeysStep(r, r, at)
  {
    forall n | HoldsKey(r, n) ensures Evolves(r[n].key, r[n].key, at) {
      EvolvesReflexive(r[n].key, at);
    }
  }

  lemma OneKeyEvolves(r: map<Bytes, Record>, arn: Bytes, k: KeyRecord, at: Moment)
    requires HoldsKey(r, arn) && Evolves(r[arn].key, k, at)
    ensures KeysStep(r, r[arn := KeyRec(k)], at)
  {
    var r' := r[arn := KeyRec(k)];
    forall n | HoldsKey(r, n) ensures HoldsKey(r', n) && Evolves(r[n].key, r'[n].key, at) {
      if n != arn {
        EvolvesReflexive(r[n].key, at);
      }
    }
  }

  lemma OneKeyPurged(r: map<Bytes, Record>, arn: Bytes, at: Moment)
    requires HoldsKey(r, arn) ==> IsPendingDeletion(r[arn].key.meta, at.now)
    ensures KeysStep(r, r - {arn}, at)
  {
    forall n | HoldsKey(r, n) && n != arn ensures Evolves(r[n].key, (r - {arn})[n].key, at) {
      EvolvesReflexive(r[n].key, at);
    }
  }

  /** Under a name computed from a subject there is a record about that subject or none. */
  lemma RecordUnderName(cfg: Config, records: map<Bytes, Record>, s: Subject)
    requires ValidConfig(cfg) && AllNamed(cfg, records) && ValidSubject(s)
    ensures var n := StorageName(cfg, s); n in records ==> Describes(cfg, records[n], s)
  {
    var n := StorageName(cfg, s);
    if n in records {
      var t := SubjectOf(cfg, records, n);
      StorageNameInjective(cfg, s, t);
    }
  }

  /** Storing a record under the name of its subject keeps the names right. */
  lemma WritesKeepNames(cfg: Config, db: Db, r: Record, s: Subject)
    requires AllNamed(cfg, db.records) && ValidSubject(s) && Describes(cfg, r, s)
    ensures AllNamed(cfg, Written(db, StorageName(cfg, s), r).0.records)
  {
    var n := StorageName(cfg, s);
    var w := Written(db, n, r).0.records;
    forall m | m in w ensures Named(cfg, m, w[m]) {
      if m == n && w[m] == r {
        assert NamedAs(cfg, m, w[m], s);
      } else {
        assert w[m] == db.records[m] && Named(cfg, m, db.records[m]);
      }
    }
  }

  lemma DeleteKeepsNames(cfg: Config, db: Db, n: Bytes)
    requires AllNamed(cfg, db.records)
    ensures AllNamed(cfg, Deleted(db, n).0.records)
  {
    var w := Deleted(db, n).0.records;
    forall m | m in w ensures Named(cfg, m, w[m]) {
      assert w[m] == db.records[m] && Named(cfg, m, db.records[m]);
    }
  }

  /** Writing or deleting an alias, tag or grant touches no key. */
  lemma OtherWritesKeepKeys(cfg: Config, db: Db, r: Record, s: Subject, at: Moment)
    requires ValidConfig(cfg) && AllNamed(cfg, db.records) && ValidSubject(s) && !s.KeySubject? && !r.KeyRec?
    ensures KeysStep(db.records, Written(db, StorageName(cfg, s), r).0.records, at)
    ensures KeysStep(db.records, Deleted(db, StorageName(cfg, s)).0.records, at)
  {
    var n := StorageName(cfg, s);
    RecordUnderName(cfg, db.records, s);
    assert !HoldsKey(db.records, n);
    SameKeys(db.records, db.records[n := r], at);
    SameKeys(db.records, db.records - {n}, at);
    NothingEvolves(db.records, at);
  }

  lemma SameKeys(r: map<Bytes, Record>, r': map<Bytes, Record>, at: Moment)
    requires forall n | HoldsKey(r, n) :: HoldsKey(r', n) && r'[n] == r[n]
    requires forall n | HoldsKey(r', n) :: HoldsKey(r, n)
    ensures KeysStep(r, r', at)
  {
    forall n | HoldsKey(r, n) ensures Evolves(r[n].key, r'[n].key, at) {
      EvolvesReflexive(r[n].key, at);
    }
  }

  //----------------------------------------------------------------------------------------
  // LoadKey and SaveKey

  lemma SaveKeepsNames(cfg: Config, db: Db, arn: Bytes, k: KeyRecord)
    requires AllNamed(cfg, db.records) && HoldsKey(db.records, arn)
    requires k.meta.arn == db.records[arn].key.meta.arn && k.meta.keyId == db.records[arn].key.meta.keyId
    ensures AllNamed(cfg, SavedKey(db, k).0.records)
    ensures SavedKey(db, k).0.records == if SavedKey(db, k).1 then db.records[arn := KeyRec(k)] else db.records
  {
    var s := SubjectOf(cfg, db.records, arn);
    WritesKeepNames(cfg, db, KeyRec(k), s);
  }

  lemma SaveStep(cfg: Config, db: Db, arn: Bytes, k: KeyRecord, at: Moment)
    requires AllNamed(cfg, db.records)
    requires HoldsKey(db.records, arn) && Evolves(db.records[arn].key, k, at)
    ensures var r := SavedKey(db, k).0.records;
            && AllNamed(cfg, r) && KeysStep(db.records, r, at) && OthersSame(db.records, r)
            && r == if SavedKey(db, k).1 then db.records[arn := KeyRec(k)] else db.records
  {
    SaveKeepsNames(cfg, db, arn, k);
    OneKeyEvolves(db.records, arn, k, at);
    NothingEvolves(db.records, at);
  }

  lemma PurgeStep(cfg: Config, db: Db, arn: Bytes, at: Moment)
    requires AllNamed(cfg, db.records)
    requires HoldsKey(db.records, arn) ==> IsPendingDeletion(db.records[arn].key.meta, at.now)
    requires arn in db.records ==> db.records[arn].KeyRec?
    ensures var w := Deleted(db, arn);
            AllNamed(cfg, w.0.records) && KeysStep(db.records, w.0.records, at) && OthersSame(db.records, w.0.records)
  {
    DeleteKeepsNames(cfg, db, arn);
    OneKeyPurged(db.records, arn, at);
    NothingEvolves(db.records, at);
  }

  /** The moment of a request that schedules no deletion. */
  function Quiet(env: Env): Moment {
    Moment(env.now, None)
  }

  /** What a request may do to the store. */
  ghost predicate Steps(cfg: Config, r: map<Bytes, Record>, r': map<Bytes, Record>, at: Moment) {
    AllNamed(cfg, r') && KeysStep(r, r', at)
  }

  lemma StepsTransitive(cfg: Config, r: map<Bytes, Record>, r': map<Bytes, Record>, r'': map<Bytes, Record>, at: Moment)
    requires Steps(cfg, r, r', at) && Steps(cfg, r', r'', at)
    ensures Steps(cfg, r, r'', at)
  {
    KeysStepTransitive(r, r', r'', at);
  }

  /** What a request that only loads keys may do. */
  ghost predicate Loads(cfg: Config, r: map<Bytes, Record>, r': map<Bytes, Record>, at: Moment) {
    Steps(cfg, r, r', at) && OthersSame(r, r')
  }

  lemma LoadsTransitive(cfg: Config, r: map<Bytes, Record>, r': map<Bytes, Record>, r'': map<Bytes, Record>, at: Moment)
    requires Loads(cfg, r, r', at) && Loads(cfg, r', r'', at)
    ensures Loads(cfg, r, r'', at)
  {
    StepsTransitive(cfg, r, r', r'', at);
  }

  /** `k` is the stored record, with at most its KeySpec filled in; a record of another kind
      reads as the zero key. */
  predicate LoadedFrom(records: map<Bytes, Record>, arn: Bytes, k: KeyRecord) {
    && arn in records
    && k == if records[arn].KeyRec? then Migrated(records[arn].key) else ZERO_KEY
  }

  lemma LoadRestStep(cfg: Config, db: Db, arn: Bytes, at: Moment)
    requires AllNamed(cfg, db.records) && HoldsKey(db.records, arn)
    requires db.records[arn].key.meta.arn == arn
    ensures var (db', k) := LoadRest(db, arn, db.records[arn].key, at.now);
            && Steps(cfg, db.records, db'.records, at) && OthersSame(db.records, db'.records)
            && (k.Some? ==> LoadedFrom(db'.records, arn, k.value))
  {
    var stored := db.records[arn].key;
    var k := Migrated(stored);
    MigrationEvolves(stored, at);
    NothingEvolves(db.records, at);
    if IsPendingDeletion(k.meta, at.now) {
      PurgeStep(cfg, db, arn, at);
    } else if MaterialExpired(k.meta, at.now) {
      ExpiryEvolves(k, at);
      EvolvesTransitive(stored, k, WithoutMaterial(k), at);
      SaveStep(cfg, db, arn, WithoutMaterial(k), at);
    }
  }

  /** LoadKey, whichever of its writes fail: it only lets the key evolve or purges it, and what
      it returns is in the store. */
  lemma LoadStep(cfg: Config, db: Db, arn: Bytes, at: Moment, year: nat, drawn: Bytes)
    requires AllNamed(cfg, db.records) && year >= MIN_YEAR
    ensures var (db', k) := LoadedKey(db, arn, at.now, year, drawn);
            && Steps(cfg, db.records, db'.records, at) && OthersSame(db.records, db'.records)
            && (k.Some? ==> LoadedFrom(db'.records, arn, k.value))
  {
    NothingEvolves(db.records, at);
    if HoldsKey(db.records, arn) {
      var k := db.records[arn].key;
      assert k.meta.arn == arn by {
        var s := SubjectOf(cfg, db.records, arn);
      }
      if NeedsRotation(k, at.now) {
        LoadRotatedStep(cfg, db, arn, at, year, drawn);
      } else {
        LoadRestStep(cfg, db, arn, at);
      }
    }
  }

  lemma LoadRotatedStep(cfg: Config, db: Db, arn: Bytes, at: Moment, year: nat, drawn: Bytes)
    requires AllNamed(cfg, db.records) && year >= MIN_YEAR
    requires HoldsKey(db.records, arn) && db.records[arn].key.meta.arn == arn
    requires NeedsRotation(db.records[arn].key, at.now)
    ensures var (db', k) := LoadedKey(db, arn, at.now, year, drawn);
            && Steps(cfg, db.records, db'.records, at) && OthersSame(db.records, db'.records)
            && (k.Some? ==> LoadedFrom(db'.records, arn, k.value))
  {
    var k := db.records[arn].key;
    var rotated := Rotated(k, at.now, year, drawn);
    var saved := SavedKey(db, rotated);
    RotationEvolves(k, at, year, drawn);
    SaveStep(cfg, db, arn, rotated, at);
    if saved.1 {
      LoadRestStep(cfg, saved.0, arn, at);
      StepsTransitive(cfg, db.records, saved.0.records, LoadRest(saved.0, arn, rotated, at.now).0.records, at);
    }
  }

  lemma GetKeyStep(cfg: Config, db: Db, keyId: Bytes, at: Moment, year: nat, drawn: Bytes)
    requires AllNamed(cfg, db.records) && year >= MIN_YEAR
    ensures var (db', k) := GotKey(cfg, db, keyId, at.now, year, drawn);
            && Steps(cfg, db.records, db'.records, at) && OthersSame(db.records, db'.records)
            && (k.Some? ==> exists arn :: LoadedFrom(db'.records, arn, k.value))
  {
    NothingEvolves(db.records, at);
    var name := ResolvedName(cfg, db, keyId);
    if name.Some? {
      LoadStep(cfg, db, name.value, at, year, drawn);
    }
  }

  /** `k` was handed out for a key record that is in the store under its ARN. */
  predicate HandedOut(records: map<Bytes, Record>, k: KeyRecord) {
    HoldsKey(records, k.meta.arn) && k == Migrated(records[k.meta.arn].key)
  }

  lemma LoadedIsHandedOut(cfg: Config, records: map<Bytes, Record>, arn: Bytes, k: KeyRecord)
    requires AllNamed(cfg, records) && LoadedFrom(records, arn, k) && Usability(k).Usable?
    ensures HandedOut(records, k) && k.meta.arn == arn
  {
    assert HoldsKey(records, arn);
    var s := SubjectOf(cfg, records, arn);
  }

  /** getUsableKey: the key it hands out is in the store, and it is the same key as before. */
  lemma UsableKeyStep(cfg: Config, db: Db, keyId: Bytes, at: Moment, year: nat, drawn: Bytes)
    requires AllNamed(cfg, db.records) && year >= MIN_YEAR
    ensures var (db', got) := GotUsableKey(cfg, db, keyId, at.now, year, drawn);
            && Steps(cfg, db.records, db'.records, at)
            && (got.Usable? ==> HandedOut(db'.records, got.key) && HoldsKey(db.records, got.key.meta.arn)
                                && Grows(db.records[got.key.meta.arn].key, db'.records[got.key.meta.arn].key))
  {
    var (db', k) := GotKey(cfg, db, keyId, at.now, year, drawn);
    GetKeyStep(cfg, db, keyId, at, year, drawn);
    if k.Some? && Usability(k.value).Usable? {
      var arn :| LoadedFrom(db'.records, arn, k.value);
      LoadedIsHandedOut(cfg, db'.records, arn, k.value);
      GrewFromStart(db.records, db'.records, arn, at);
    }
  }

  lemma GrewFromStart(r: map<Bytes, Record>, r': map<Bytes, Record>, n: Bytes, at: Moment)
    requires KeysStep(r, r', at) && HoldsKey(r', n)
    ensures HoldsKey(r, n) && Grows(r[n].key, r'[n].key)
  {
    assert Evolves(r[n].key, r'[n].key, at);
  }

  /** A key that was read from a record of another kind is refused by every save. */
  lemma ZeroKeyIsNeverSaved(c: Suite, op: KeyOp, now: Time, year: nat)
    requires RequestValid(op, now) && Apply(c, op, ZERO_KEY, now, year).Changed?
    ensures !SaveAllowed(Apply(c, op, ZERO_KEY, now, year).key)
  {
  }

  lemma AppliedStep(c: Suite, cfg: Config, db: Db, op: KeyOp, arn: Bytes, k: KeyRecord, env: Env)
    requires AllNamed(cfg, db.records) && env.year >= MIN_YEAR && RequestValid(op, env.now)
    requires LoadedFrom(db.records, arn, k)
    ensures Steps(cfg, db.records, AppliedToLoaded(c, db, op, k, env).0.records, OpMoment(op, env.now))
  {
    var at := OpMoment(op, env.now);
    NothingEvolves(db.records, at);
    var change := Apply(c, op, k, env.now, env.year);
    if change.Changed? {
      if HoldsKey(db.records, arn) {
        var stored := db.records[arn].key;
        MigrationEvolves(stored, at);
        ApplyEvolves(c, op, k, at, env.year);
        EvolvesTransitive(stored, k, change.key, at);
        SaveStep(cfg, db, arn, change.key, at);
      } else {
        ZeroKeyIsNeverSaved(c, op, env.now, env.year);
      }
    }
  }

  lemma KeyChangedStep(c: Suite, cfg: Config, db: Db, keyId: Bytes, op: KeyOp, env: Env)
    requires AllNamed(cfg, db.records) && env.year >= MIN_YEAR
    ensures Steps(cfg, db.records, KeyChanged(c, cfg, db, keyId, op, env).0.records, OpMoment(op, env.now))
  {
    var at := OpMoment(op, env.now);
    NothingEvolves(db.records, at);
    if RequestValid(op, env.now) {
      var target := KeyOpTarget(cfg, db, op, keyId);
      if target.Some? {
        var loaded := LoadedKey(db, target.value, env.now, env.year, env.firstDraw);
        LoadStep(cfg, db, target.value, at, env.year, env.firstDraw);
        if loaded.1.Some? {
          AppliedStep(c, cfg, loaded.0, op, target.value, loaded.1.value, env);
          StepsTransitive(cfg, db.records, loaded.0.records,
                          AppliedToLoaded(c, loaded.0, op, loaded.1.value, env).0.records, at);
        }
      }
    }
  }

  //----------------------------------------------------------------------------------------
  // Other records

  /** Every record but that one is exactly as it was. */
  predicate SameBut(r: map<Bytes, Record>, r': map<Bytes, Record>, arn: Bytes) {
    r' - {arn} == r - {arn}
  }

  lemma LoadRestTouchesOneRecord(db: Db, arn: Bytes, k: KeyRecord, now: Time)
    requires k.meta.arn == arn
    ensures var r := LoadRest(db, arn, k, now).0.records;
            SameBut(db.records, r, arn) && (arn in db.records && arn !in r ==> IsPendingDeletion(k.meta, now))
  {
  }

  /** Loading a key changes or deletes that key's record at most, and deletes it only past its
      deletion date. */
  lemma LoadTouchesOneRecord(cfg: Config, db: Db, arn: Bytes, now: Time, year: nat, drawn: Bytes)
    requires AllNamed(cfg, db.records)
    ensures var r := LoadedKey(db, arn, now, year, drawn).0.records;
            && SameBut(db.records, r, arn)
            && (arn in db.records && arn !in r ==>
                  db.records[arn].KeyRec? && IsPendingDeletion(db.records[arn].key.meta, now))
  {
    if HoldsKey(db.records, arn) {
      var s := SubjectOf(cfg, db.records, arn);
      var k := db.records[arn].key;
      LoadRestTouchesOneRecord(db, arn, k, now);
      if NeedsRotation(k, now) {
        var rotated := Rotated(k, now, year, drawn);
        LoadRestTouchesOneRecord(SavedKey(db, rotated).0, arn, rotated, now);
      }
    }
  }

  lemma GetKeyTouchesOneRecord(cfg: Config, db: Db, keyId: Bytes, now: Time, year: nat, drawn: Bytes)
    requires AllNamed(cfg, db.records)
    ensures var r, name := GotKey(cfg, db, keyId, now, year, drawn).0.records, ResolvedName(cfg, db, keyId);
            if name.Some? then SameBut(db.records, r, name.value) else r == db.records
  {
    var name := ResolvedName(cfg, db, keyId);
    if name.Some? {
      LoadTouchesOneRecord(cfg, db, name.value, now, year, drawn);
    }
  }

  lemma AppliedTouchesOneRecord(c: Suite, cfg: Config, db: Db, op: KeyOp, arn: Bytes, k: KeyRecord, env: Env)
    requires AllNamed(cfg, db.records) && RequestValid(op, env.now) && LoadedFrom(db.records, arn, k)
    ensures SameBut(db.records, AppliedToLoaded(c, db, op, k, env).0.records, arn)
  {
    var change := Apply(c, op, k, env.now, env.year);
    if change.Changed? {
      if HoldsKey(db.records, arn) {
        ApplyGrows(c, op, k, env.now, env.year);
        SaveKeepsNames(cfg, db, arn, change.key);
      } else {
        ZeroKeyIsNeverSaved(c, op, env.now, env.year);
      }
    }
  }

  /** A key-changing request leaves every record but that of the key it names exactly as it was,
      whichever writes fail. */
  lemma KeyChangedTouchesOneRecord(c: Suite, cfg: Config, db: Db, keyId: Bytes, op: KeyOp, env: Env)
    requires AllNamed(cfg, db.records) && env.year >= MIN_YEAR
    ensures var r, target := KeyChanged(c, cfg, db, keyId, op, env).0.records, KeyOpTarget(cfg, db, op, keyId);
            if target.Some? then SameBut(db.records, r, target.value) else r == db.records
  {
    var target := KeyOpTarget(cfg, db, op, keyId);
    if RequestValid(op, env.now) && target.Some? {
      var arn := target.value;
      var loaded := LoadedKey(db, arn, env.now, env.year, env.firstDraw);
      LoadTouchesOneRecord(cfg, db, arn, env.now, env.year, env.firstDraw);
      LoadStep(cfg, db, arn, Quiet(env), env.year, env.firstDraw);
      if loaded.1.Some? {
        AppliedTouchesOneRecord(c, cfg, loaded.0, op, arn, loaded.1.value, env);
      }
    }
  }
}
