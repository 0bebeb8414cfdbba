/** Requests in sequence: the state machine of the whole service and the invariant of its runs. */
module Runs {
  import opened Wrappers
  import opened ByteStrings
  import opened Names
  import opened Crypto
  import opened Ciphertext
  import opened Keys
  import opened Lifecycle
  import opened Store
  import opened Requests
  import opened KeyHistory
  import opened StoreHistory

  /** Describe stands for every request that only loads a key, with any name that getKey takes
      (ListGrants and the read-only requests); DescribeById for those that take an id or ARN
      (ListAliases, ListResourceTags). */
  datatype Request =
    | CreateKey(newKey: NewKey)
    | ChangeKey(keyId: Bytes, op: KeyOp)
    | Describe(keyId: Bytes)
    | DescribeById(keyId: Bytes)
    | Encrypt(keyId: Bytes, plaintext: Bytes, context: map<Bytes, Bytes>, algorithm: EncryptionAlgorithm)
    | GenerateDataKey(keyId: Bytes, secret: Bytes, context: map<Bytes, Bytes>)
    | Decrypt(optionalKeyId: Option<Bytes>, blob: Bytes, context: map<Bytes, Bytes>, algorithm: EncryptionAlgorithm)
    | ReEncrypt(reEncryption: ReEncryption)
    | GenerateMac(keyId: Bytes, message: Bytes, macAlgorithm: MacAlgorithm)
    | VerifyMac(keyId: Bytes, message: Bytes, mac: Bytes, macAlgorithm: MacAlgorithm)
    | ListKeys(limit: int, marker: Bytes)
    | TagResource(keyId: Bytes, tags: seq<TagInput>)
    | UntagResource(keyId: Bytes, tagKeys: seq<Bytes>)
    | CreateAlias(aliasName: Bytes, targetKeyId: Bytes)
    | UpdateAlias(aliasName: Bytes, targetKeyId: Bytes)
    | DeleteAlias(aliasName: Bytes)
    | CreateGrant(keyId: Bytes, grant: Grant)
    | RevokeGrant(keyId: Bytes, grantId: Bytes)
    | RetireGrant(token: Bytes, grantId: Bytes, optionalKey: Bytes)

  function Loaded(r: (Db, Option<KeyRecord>)): (Db, Response) {
    (r.0, if r.1.Some? then Done(r.1.value.meta.arn) else Failed(NotFound))
  }

  ghost function Handle(c: Suite, cfg: Config, db: Db, r: Request, env: Env): (Db, Response) {
    match r
    case CreateKey(n) => KeyCreated(cfg, db, n)
    case ChangeKey(keyId, op) => KeyChanged(c, cfg, db, keyId, op, env)
    case Describe(keyId) => Loaded(GotKey(cfg, db, keyId, env.now, env.year, env.firstDraw))
    case DescribeById(keyId) =>
      Loaded(LoadedKey(db, EnsureArn(cfg, KEY, keyId), env.now, env.year, env.firstDraw))
    case Encrypt(keyId, plaintext, context, a) => EncryptResult(c, cfg, db, keyId, plaintext, context, a, env)
    case GenerateDataKey(keyId, secret, context) => DataKeyResult(c, cfg, db, keyId, secret, context, env)
    case Decrypt(keyId, blob, context, a) => DecryptResult(c, cfg, db, keyId, blob, context, a, env)
    case ReEncrypt(re) => ReEncryptResult(c, cfg, db, re, env)
    case GenerateMac(keyId, message, a) => GenerateMacResult(c, cfg, db, keyId, message, a, env)
    case VerifyMac(keyId, message, mac, a) => VerifyMacResult(c, cfg, db, keyId, message, mac, a, env)
    case ListKeys(limit, marker) => ListKeysResult(cfg, db, limit, marker, env.now)
    case TagResource(keyId, tags) => ResourceTagged(cfg, db, keyId, tags, env)
    case UntagResource(keyId, tagKeys) => ResourceUntagged(cfg, db, keyId, tagKeys, env)
    case CreateAlias(name, target) => AliasCreated(cfg, db, name, target, env)
    case UpdateAlias(name, target) => AliasUpdated(cfg, db, name, target, env)
    case DeleteAlias(name) => AliasDeleted(cfg, db, name)
    case CreateGrant(keyId, g) => GrantCreated(cfg, db, keyId, g, env)
    case RevokeGrant(keyId, grantId) => GrantRevoked(cfg, db, keyId, grantId, env)
    case RetireGrant(token, grantId, keyId) => GrantRetired(cfg, db, token, grantId, keyId, env)
  }

  /** The store, the clock, and the ARNs of all keys there have ever been. */
  datatype System = System(db: Db, now: Time, minted: set<Bytes>)

  datatype Event = Event(request: Request, env: Env)

  /** What every UUID is: free of '/', and no ARN. */
  predicate PlainId(id: Bytes) {
    NoSlash(id) && !HasPrefix(id, "arn:")
  }

  /** The clock does not run backwards, a year has 365 or 366 days, a new key's id is a UUID never
      drawn before, and a new grant's id is not empty. Everything else is arbitrary, and so are
      the failing writes, which System.db.disk lists for the whole run. */
  predicate Admissible(cfg: Config, s: System, e: Event) {
    && s.now <= e.env.now && MIN_YEAR <= e.env.year <= MAX_YEAR
    && (e.request.CreateKey? ==>
          PlainId(e.request.newKey.keyId) && KeyArn(cfg, e.request.newKey.keyId) !in s.minted)
    && (e.request.CreateGrant? ==> e.request.grant.grantId != [])
  }

  ghost function Next(c: Suite, cfg: Config, s: System, e: Event): System {
    System(Handle(c, cfg, s.db, e.request, e.env).0, e.env.now,
           if e.request.CreateKey? then s.minted + {KeyArn(cfg, e.request.newKey.keyId)} else s.minted)
  }

  ghost function Answer(c: Suite, cfg: Config, s: System, e: Event): Response {
    Handle(c, cfg, s.db, e.request, e.env).1
  }

  ghost function Run(c: Suite, cfg: Config, s: System, es: seq<Event>): System
    decreases |es|
  {
    if es == [] then s else Run(c, cfg, Next(c, cfg, s, es[0]), es[1..])
  }

  ghost predicate AdmissibleRun(c: Suite, cfg: Config, s: System, es: seq<Event>)
    decreases |es|
  {
    es == [] || (Admissible(cfg, s, es[0]) && AdmissibleRun(c, cfg, Next(c, cfg, s, es[0]), es[1..]))
  }

  /** The invariant of all runs; the empty store satisfies it. */
  ghost predicate Inv(cfg: Config, s: System) {
    && ValidConfig(cfg) && AllNamed(cfg, s.db.records)
    && (forall n | HoldsKey(s.db.records, n) :: n in s.minted)
  }

  function MomentOf(r: Request, env: Env): Moment {
    if r.ChangeKey? then OpMoment(r.op, env.now) else Quiet(env)
  }

  //----------------------------------------------------------------------------------------
  // Each kind of request is a step

  /** A loaded key's ARN belongs to a key name, or is empty. */
  lemma OwnerExists(cfg: Config, records: map<Bytes, Record>, arn: Bytes, k: KeyRecord)
    requires AllNamed(cfg, records) && LoadedFrom(records, arn, k)
    ensures exists owner: Option<Bytes> :: k.meta.arn == OwnerArn(cfg, owner) && (owner.Some? ==> NoSlash(owner.value))
  {
    if HoldsKey(records, arn) {
      var s := SubjectOf(cfg, records, arn);
      assert k.meta.arn == OwnerArn(cfg, Some(k.meta.keyId));
    } else {
      assert k.meta.arn == OwnerArn(cfg, None);
    }
  }

  /** Writing a record that is not a key under its own name. */
  lemma OtherWriteStep(cfg: Config, db: Db, r: Record, s: Subject, at: Moment)
    requires ValidConfig(cfg) && AllNamed(cfg, db.records) && ValidSubject(s) && !s.KeySubject?
    requires Describes(cfg, r, s)
    ensures Steps(cfg, db.records, Written(db, StorageName(cfg, s), r).0.records, at)
  {
    WritesKeepNames(cfg, db, r, s);
    OtherWritesKeepKeys(cfg, db, r, s, at);
  }

  lemma OtherDeleteStep(cfg: Config, db: Db, s: Subject, at: Moment)
    requires ValidConfig(cfg) && AllNamed(cfg, db.records) && ValidSubject(s) && !s.KeySubject?
    ensures Steps(cfg, db.records, Deleted(db, StorageName(cfg, s)).0.records, at)
  {
    DeleteKeepsNames(cfg, db, StorageName(cfg, s));
    OtherWritesKeepKeys(cfg, db, TagRec(ZERO_TAG), s, at);
  }

  lemma {:induction false} SavedTagsStep(cfg: Config, db: Db, owner: Option<Bytes>, tags: seq<TagInput>, i: nat,
                                         at: Moment)
    requires ValidConfig(cfg) && AllNamed(cfg, db.records) && (owner.Some? ==> NoSlash(owner.value))
    requires i <= |tags| && AllAcceptable(tags)
    ensures Steps(cfg, db.records, SavedTags(db, OwnerArn(cfg, owner), tags, i).0.records, at)
    decreases |tags| - i
  {
    NothingEvolves(db.records, at);
    if i < |tags| {
      var t := TagOf(tags[i]);
      var s := TagSubject(owner, t.tagKey);
      OtherWriteStep(cfg, db, TagRec(t), s, at);
      var w := Written(db, StorageName(cfg, s), TagRec(t)).0;
      SavedTagsStep(cfg, w, owner, tags, i + 1, at);
      StepsTransitive(cfg, db.records, w.records, SavedTags(w, OwnerArn(cfg, owner), tags, i + 1).0.records, at);
    }
  }

  lemma {:induction false} DeletedTagsStep(cfg: Config, db: Db, owner: Option<Bytes>, tagKeys: seq<Bytes>, i: nat,
                                           at: Moment)
    requires ValidConfig(cfg) && AllNamed(cfg, db.records) && (owner.Some? ==> NoSlash(owner.value))
    requires i <= |tagKeys|
    ensures Steps(cfg, db.records, DeletedTags(db, OwnerArn(cfg, owner), tagKeys, i).0.records, at)
    decreases |tagKeys| - i
  {
    NothingEvolves(db.records, at);
    if i < |tagKeys| {
      var s := TagSubject(owner, tagKeys[i]);
      OtherDeleteStep(cfg, db, s, at);
      var w := Deleted(db, StorageName(cfg, s)).0;
      DeletedTagsStep(cfg, w, owner, tagKeys, i + 1, at);
      StepsTransitive(cfg, db.records, w.records, DeletedTags(w, OwnerArn(cfg, owner), tagKeys, i + 1).0.records, at);
    }
  }

  /** Saving or deleting tags of a key just loaded. */
  lemma TagsOfLoadedStep(cfg: Config, db: Db, arn: Bytes, k: KeyRecord, tags: seq<TagInput>, tagKeys: seq<Bytes>,
                         at: Moment)
    requires ValidConfig(cfg) && AllNamed(cfg, db.records) && LoadedFrom(db.records, arn, k) && AllAcceptable(tags)
    ensures Steps(cfg, db.records, TaggedLoaded(db, k, tags).0.records, at)
    ensures Steps(cfg, db.records, UntaggedLoaded(db, k, tagKeys).0.records, at)
  {
    NothingEvolves(db.records, at);
    OwnerExists(cfg, db.records, arn, k);
    var owner: Option<Bytes> :| k.meta.arn == OwnerArn(cfg, owner) && (owner.Some? ==> NoSlash(owner.value));
    SavedTagsStep(cfg, db, owner, tags, 0, at);
    DeletedTagsStep(cfg, db, owner, tagKeys, 0, at);
  }

  lemma TagResourceStep(cfg: Config, db: Db, keyId: Bytes, tags: seq<TagInput>, env: Env)
    requires ValidConfig(cfg) && AllNamed(cfg, db.records) && env.year >= MIN_YEAR
    ensures Steps(cfg, db.records, ResourceTagged(cfg, db, keyId, tags, env).0.records, Quiet(env))
  {
    NothingEvolves(db.records, Quiet(env));
    if TagsRejected(tags).None? {
      var got := GotKey(cfg, db, keyId, env.now, env.year, env.firstDraw);
      GetKeyStep(cfg, db, keyId, Quiet(env), env.year, env.firstDraw);
      if got.1.Some? {
        var arn :| LoadedFrom(got.0.records, arn, got.1.value);
        TagsOfLoadedStep(cfg, got.0, arn, got.1.value, tags, [], Quiet(env));
        StepsTransitive(cfg, db.records, got.0.records, TaggedLoaded(got.0, got.1.value, tags).0.records, Quiet(env));
      }
    }
  }

  lemma UntagResourceStep(cfg: Config, db: Db, keyId: Bytes, tagKeys: seq<Bytes>, env: Env)
    requires ValidConfig(cfg) && AllNamed(cfg, db.records) && env.year >= MIN_YEAR
    ensures Steps(cfg, db.records, ResourceUntagged(cfg, db, keyId, tagKeys, env).0.records, Quiet(env))
  {
    var got := GotKey(cfg, db, keyId, env.now, env.year, env.firstDraw);
    GetKeyStep(cfg, db, keyId, Quiet(env), env.year, env.firstDraw);
    if got.1.Some? {
      var arn :| LoadedFrom(got.0.records, arn, got.1.value);
      TagsOfLoadedStep(cfg, got.0, arn, got.1.value, [], tagKeys, Quiet(env));
      StepsTransitive(cfg, db.records, got.0.records, UntaggedLoaded(got.0, got.1.value, tagKeys).0.records,
                      Quiet(env));
    }
  }

  lemma CreateAliasStep(cfg: Config, db: Db, aliasName: Bytes, targetKeyId: Bytes, env: Env)
    requires ValidConfig(cfg) && AllNamed(cfg, db.records) && env.year >= MIN_YEAR
    ensures Steps(cfg, db.records, AliasCreated(cfg, db, aliasName, targetKeyId, env).0.records, Quiet(env))
  {
    NothingEvolves(db.records, Quiet(env));
    if CreateAliasRejected(aliasName, targetKeyId).None? {
      var target := EnsureArn(cfg, KEY, targetKeyId);
      var loaded := LoadedKey(db, target, env.now, env.year, env.firstDraw);
      LoadStep(cfg, db, target, Quiet(env), env.year, env.firstDraw);
      if loaded.1.Some? {
        var s := AliasSubject(aliasName);
        var a := Alias(StorageName(cfg, s), aliasName, loaded.1.value.meta.keyId, Unix(env.now), Unix(env.now));
        OtherWriteStep(cfg, loaded.0, AliasRec(a), s, Quiet(env));
        StepsTransitive(cfg, db.records, loaded.0.records,
                        Written(loaded.0, StorageName(cfg, s), AliasRec(a)).0.records, Quiet(env));
      }
    }
  }

  lemma RetargetStep(cfg: Config, db: Db, aliasName: Bytes, original: KeyRecord, target: KeyRecord, env: Env)
    requires ValidConfig(cfg) && AllNamed(cfg, db.records) && HasPrefix(aliasName, ALIAS)
    requires ArnPrefix(cfg) + aliasName in db.records
    ensures var a := AsAlias(db.records[ArnPrefix(cfg) + aliasName]);
            Steps(cfg, db.records, AliasRetargeted(db, a, original, target, env).0.records, Quiet(env))
  {
    var s := AliasSubject(aliasName);
    RecordUnderName(cfg, db.records, s);
    var a := AsAlias(db.records[StorageName(cfg, s)]);
    NothingEvolves(db.records, Quiet(env));
    OtherWriteStep(cfg, db, AliasRec(a.(targetKeyId := target.meta.keyId, lastUpdatedDate := Unix(env.now))), s,
                   Quiet(env));
  }

  lemma UpdateAliasStep(cfg: Config, db: Db, aliasName: Bytes, targetKeyId: Bytes, env: Env)
    requires ValidConfig(cfg) && AllNamed(cfg, db.records) && env.year >= MIN_YEAR
    ensures Steps(cfg, db.records, AliasUpdated(cfg, db, aliasName, targetKeyId, env).0.records, Quiet(env))
  {
    NothingEvolves(db.records, Quiet(env));
    var aliasArn := ArnPrefix(cfg) + aliasName;
    if UpdateAliasRejected(aliasName).None? && aliasArn in db.records {
      RecordUnderName(cfg, db.records, AliasSubject(aliasName));
      var a := AsAlias(db.records[aliasArn]);
      var arn1, arn2 := EnsureArn(cfg, KEY, a.targetKeyId), EnsureArn(cfg, KEY, targetKeyId);
      var original := LoadedKey(db, arn1, env.now, env.year, env.firstDraw);
      LoadStep(cfg, db, arn1, Quiet(env), env.year, env.firstDraw);
      var target := LoadedKey(original.0, arn2, env.now, env.year, env.secondDraw);
      LoadStep(cfg, original.0, arn2, Quiet(env), env.year, env.secondDraw);
      StepsTransitive(cfg, db.records, original.0.records, target.0.records, Quiet(env));
      if original.1.Some? && target.1.Some? {
        assert target.0.records[aliasArn] == db.records[aliasArn];
        RetargetStep(cfg, target.0, aliasName, original.1.value, target.1.value, env);
        StepsTransitive(cfg, db.records, target.0.records,
                        AliasRetargeted(target.0, a, original.1.value, target.1.value, env).0.records, Quiet(env));
      }
    }
  }

  lemma DeleteAliasStep(cfg: Config, db: Db, aliasName: Bytes, at: Moment)
    requires ValidConfig(cfg) && AllNamed(cfg, db.records)
    ensures Steps(cfg, db.records, AliasDeleted(cfg, db, aliasName).0.records, at)
  {
    NothingEvolves(db.records, at);
    if HasPrefix(aliasName, ALIAS) {
      OtherDeleteStep(cfg, db, AliasSubject(aliasName), at);
    }
  }

  lemma CreateGrantStep(cfg: Config, db: Db, keyId: Bytes, template: Grant, env: Env)
    requires ValidConfig(cfg) && AllNamed(cfg, db.records) && env.year >= MIN_YEAR && template.grantId != []
    ensures Steps(cfg, db.records, GrantCreated(cfg, db, keyId, template, env).0.records, Quiet(env))
  {
    var got := GotKey(cfg, db, keyId, env.now, env.year, env.firstDraw);
    GetKeyStep(cfg, db, keyId, Quiet(env), env.year, env.firstDraw);
    if got.1.Some? {
      var g := template.(keyArn := got.1.value.meta.arn);
      OtherWriteStep(cfg, got.0, GrantRec(g), GrantSubject(g.grantId), Quiet(env));
      StepsTransitive(cfg, db.records, got.0.records,
                      Written(got.0, GrantName(g.grantId), GrantRec(g)).0.records, Quiet(env));
    }
  }

  lemma RevokeGrantStep(cfg: Config, db: Db, keyId: Bytes, grantId: Bytes, env: Env)
    requires ValidConfig(cfg) && AllNamed(cfg, db.records) && env.year >= MIN_YEAR
    ensures Steps(cfg, db.records, GrantRevoked(cfg, db, keyId, grantId, env).0.records, Quiet(env))
  {
    var got := GotKey(cfg, db, keyId, env.now, env.year, env.firstDraw);
    GetKeyStep(cfg, db, keyId, Quiet(env), env.year, env.firstDraw);
    if got.1.Some? && GrantName(grantId) in got.0.records {
      var g := AsGrant(got.0.records[GrantName(grantId)]);
      OtherDeleteStep(cfg, got.0, GrantSubject(g.grantId), Quiet(env));
      StepsTransitive(cfg, db.records, got.0.records, Deleted(got.0, GrantName(g.grantId)).0.records, Quiet(env));
    }
  }

  lemma RetireGrantStep(cfg: Config, db: Db, token: Bytes, grantId: Bytes, keyId: Bytes, env: Env)
    requires ValidConfig(cfg) && AllNamed(cfg, db.records) && env.year >= MIN_YEAR
    ensures Steps(cfg, db.records, GrantRetired(cfg, db, token, grantId, keyId, env).0.records, Quiet(env))
  {
    NothingEvolves(db.records, Quiet(env));
    var found := GrantByToken(NamesWithPrefix(db.records, GRANT), 0, db.records, token);
    if found.Some? {
      var s := GrantSubject(found.value.grantId);
      var got := GotKey(cfg, db, keyId, env.now, env.year, env.firstDraw);
      GetKeyStep(cfg, db, keyId, Quiet(env), env.year, env.firstDraw);
      OtherDeleteStep(cfg, db, s, Quiet(env));
      OtherDeleteStep(cfg, got.0, s, Quiet(env));
      StepsTransitive(cfg, db.records, got.0.records, Deleted(got.0, StorageName(cfg, s)).0.records, Quiet(env));
    }
  }

  /** ListKeys purges keys past their deletion date, and nothing else. */
  lemma {:induction false} ListKeysStep(cfg: Config, db: Db, names: seq<Bytes>, i: nat, snapshot: map<Bytes, Record>,
                                        limit: nat, marker: Bytes, past: bool, at: Moment)
    requires AllNamed(cfg, snapshot) && AllNamed(cfg, db.records) && i <= |names|
    requires forall n | n in db.records :: n in snapshot && snapshot[n] == db.records[n]
    ensures var r := ListedKeys(db, names, i, snapshot, limit, marker, past, at.now).0.records;
            Steps(cfg, db.records, r, at) && OthersSame(db.records, r)
    decreases |names| - i
  {
    NothingEvolves(db.records, at);
    if limit > 0 && i < |names| {
      if IsTagName(names[i]) || (marker != [] && !past && marker != names[i]) {
        ListKeysStep(cfg, db, names, i + 1, snapshot, limit, marker, past, at);
      } else {
        var k := AsKey(Lookup(snapshot, names[i]));
        if IsPendingDeletion(k.meta, at.now) {
          assert HoldsKey(snapshot, names[i]);
          var s := SubjectOf(cfg, snapshot, names[i]);
          assert k.meta.arn == names[i];
          PurgeStep(cfg, db, names[i], at);
          var d := Deleted(db, names[i]).0;
          ListKeysStep(cfg, d, names, i + 1, snapshot, limit, marker, true, at);
          StepsTransitive(cfg, db.records, d.records,
                          ListedKeys(d, names, i + 1, snapshot, limit, marker, true, at.now).0.records, at);
        } else {
          ListKeysStep(cfg, db, names, i + 1, snapshot, limit - 1, marker, true, at);
        }
      }
    }
  }

  /** ReEncrypt stops before, after the first or after the second load of a key. */
  lemma ReEncryptLoads(c: Suite, cfg: Config, db: Db, r: ReEncryption, u: Unpacked, env: Env)
    requires SourceFields(r.blob) == Ok(u)
    ensures var keyArn := if r.sourceKeyId.Some? then r.sourceKeyId.value else u.ident;
            var source := GotKey(cfg, db, keyArn, env.now, env.year, env.firstDraw).0;
            var dest := GotKey(cfg, source, r.destinationKeyId, env.now, env.year, env.secondDraw).0;
            var db' := ReEncryptResult(c, cfg, db, r, env).0;
            db' == db || db' == source || db' == dest
  {
  }

  lemma ReEncryptStep(c: Suite, cfg: Config, db: Db, r: ReEncryption, env: Env)
    requires AllNamed(cfg, db.records) && env.year >= MIN_YEAR
    ensures Loads(cfg, db.records, ReEncryptResult(c, cfg, db, r, env).0.records, Quiet(env))
  {
    NothingEvolves(db.records, Quiet(env));
    if SourceFields(r.blob).Ok? {
      var u := SourceFields(r.blob).result;
      var keyArn := if r.sourceKeyId.Some? then r.sourceKeyId.value else u.ident;
      var source := GotKey(cfg, db, keyArn, env.now, env.year, env.firstDraw);
      GetKeyStep(cfg, db, keyArn, Quiet(env), env.year, env.firstDraw);
      var dest := GotKey(cfg, source.0, r.destinationKeyId, env.now, env.year, env.secondDraw);
      GetKeyStep(cfg, source.0, r.destinationKeyId, Quiet(env), env.year, env.secondDraw);
      LoadsTransitive(cfg, db.records, source.0.records, dest.0.records, Quiet(env));
      ReEncryptLoads(c, cfg, db, r, u, env);
    }
  }

  lemma EncryptStep(c: Suite, cfg: Config, db: Db, keyId: Bytes, plaintext: Bytes, context: map<Bytes, Bytes>,
                    a: EncryptionAlgorithm, env: Env)
    requires AllNamed(cfg, db.records) && env.year >= MIN_YEAR
    ensures Loads(cfg, db.records, EncryptResult(c, cfg, db, keyId, plaintext, context, a, env).0.records, Quiet(env))
  {
    NothingEvolves(db.records, Quiet(env));
    GetKeyStep(cfg, db, keyId, Quiet(env), env.year, env.firstDraw);
  }

  lemma DataKeyStep(c: Suite, cfg: Config, db: Db, keyId: Bytes, secret: Bytes, context: map<Bytes, Bytes>, env: Env)
    requires AllNamed(cfg, db.records) && env.year >= MIN_YEAR
    ensures Loads(cfg, db.records, DataKeyResult(c, cfg, db, keyId, secret, context, env).0.records, Quiet(env))
  {
    GetKeyStep(cfg, db, keyId, Quiet(env), env.year, env.firstDraw);
  }

  lemma DecryptStep(c: Suite, cfg: Config, db: Db, keyId: Option<Bytes>, blob: Bytes, context: map<Bytes, Bytes>,
                    a: EncryptionAlgorithm, env: Env)
    requires AllNamed(cfg, db.records) && env.year >= MIN_YEAR
    ensures Loads(cfg, db.records, DecryptResult(c, cfg, db, keyId, blob, context, a, env).0.records, Quiet(env))
  {
    NothingEvolves(db.records, Quiet(env));
    if keyId.Some? {
      DecryptWithKeyIdStep(c, cfg, db, keyId.value, blob, context, a, env);
    } else if UnpackCiphertextBlob(blob).Ok? {
      var arn := UnpackCiphertextBlob(blob).result.ident;
      GetKeyStep(cfg, db, arn, Quiet(env), env.year, env.firstDraw);
      assert DecryptByBlob(c, cfg, db, blob, context, a, env).0
             == GotKey(cfg, db, arn, env.now, env.year, env.firstDraw).0;
    }
  }

  lemma DecryptWithKeyIdStep(c: Suite, cfg: Config, db: Db, keyId: Bytes, blob: Bytes, context: map<Bytes, Bytes>,
                             a: EncryptionAlgorithm, env: Env)
    requires AllNamed(cfg, db.records) && env.year >= MIN_YEAR
    ensures Loads(cfg, db.records, DecryptWithKeyId(c, cfg, db, keyId, blob, context, a, env).0.records, Quiet(env))
  {
    GetKeyStep(cfg, db, keyId, Quiet(env), env.year, env.firstDraw);
    assert DecryptWithKeyId(c, cfg, db, keyId, blob, context, a, env).0
        == GotKey(cfg, db, keyId, env.now, env.year, env.firstDraw).0;
  }

  lemma MacStep(c: Suite, cfg: Config, db: Db, keyId: Bytes, message: Bytes, mac: Bytes, a: MacAlgorithm, env: Env)
    requires AllNamed(cfg, db.records) && env.year >= MIN_YEAR
    ensures Loads(cfg, db.records, GenerateMacResult(c, cfg, db, keyId, message, a, env).0.records, Quiet(env))
    ensures Loads(cfg, db.records, VerifyMacResult(c, cfg, db, keyId, message, mac, a, env).0.records, Quiet(env))
  {
    GetKeyStep(cfg, db, keyId, Quiet(env), env.year, env.firstDraw);
  }

  /** Every request other than CreateKey is a step. */
  lemma HandleStep(c: Suite, cfg: Config, db: Db, r: Request, env: Env)
    requires ValidConfig(cfg) && AllNamed(cfg, db.records) && env.year >= MIN_YEAR && !r.CreateKey?
    requires r.CreateGrant? ==> r.grant.grantId != []
    ensures Steps(cfg, db.records, Handle(c, cfg, db, r, env).0.records, MomentOf(r, env))
  {
    match r
    case ChangeKey(keyId, op) => KeyChangedStep(c, cfg, db, keyId, op, env);
    case Encrypt(keyId, plaintext, context, a) => EncryptStep(c, cfg, db, keyId, plaintext, context, a, env);
    case GenerateDataKey(keyId, secret, context) => DataKeyStep(c, cfg, db, keyId, secret, context, env);
    case Decrypt(keyId, blob, context, a) => DecryptStep(c, cfg, db, keyId, blob, context, a, env);
    case ReEncrypt(re) => ReEncryptStep(c, cfg, db, re, env);
    case GenerateMac(keyId, message, a) => MacStep(c, cfg, db, keyId, message, [], a, env);
    case VerifyMac(keyId, message, mac, a) => MacStep(c, cfg, db, keyId, message, mac, a, env);
    case Describe(_) => ReadOnlyStep(c, cfg, db, r, env);
    case DescribeById(_) => ReadOnlyStep(c, cfg, db, r, env);
    case ListKeys(_, _) => ReadOnlyStep(c, cfg, db, r, env);
    case TagResource(keyId, tags) => TagResourceStep(cfg, db, keyId, tags, env);
    case UntagResource(keyId, tagKeys) => UntagResourceStep(cfg, db, keyId, tagKeys, env);
    case _ => OtherRecordsStep(c, cfg, db, r, env);
  }

  /** The requests about aliases and grants. */
  lemma OtherRecordsStep(c: Suite, cfg: Config, db: Db, r: Request, env: Env)
    requires ValidConfig(cfg) && AllNamed(cfg, db.records) && env.year >= MIN_YEAR
    requires r.CreateAlias? || r.UpdateAlias? || r.DeleteAlias?
             || (r.CreateGrant? && r.grant.grantId != []) || r.RevokeGrant? || r.RetireGrant?
    ensures Steps(cfg, db.records, Handle(c, cfg, db, r, env).0.records, Quiet(env))
  {
    match r
    case CreateAlias(name, target) => CreateAliasStep(cfg, db, name, target, env);
    case UpdateAlias(name, target) => UpdateAliasStep(cfg, db, name, target, env);
    case DeleteAlias(name) => DeleteAliasStep(cfg, db, name, Quiet(env));
    case _ => GrantRequestStep(c, cfg, db, r, env);
  }

  lemma GrantRequestStep(c: Suite, cfg: Config, db: Db, r: Request, env: Env)
    requires ValidConfig(cfg) && AllNamed(cfg, db.records) && env.year >= MIN_YEAR
    requires (r.CreateGrant? && r.grant.grantId != []) || r.RevokeGrant? || r.RetireGrant?
    ensures Steps(cfg, db.records, Handle(c, cfg, db, r, env).0.records, Quiet(env))
  {
    match r
    case CreateGrant(keyId, g) =>
      CreateGrantStep(cfg, db, keyId, g, env);
      assert Handle(c, cfg, db, r, env) == GrantCreated(cfg, db, keyId, g, env);
    case RevokeGrant(keyId, grantId) =>
      RevokeGrantStep(cfg, db, keyId, grantId, env);
      assert Handle(c, cfg, db, r, env) == GrantRevoked(cfg, db, keyId, grantId, env);
    case RetireGrant(token, grantId, keyId) =>
      RetireGrantStep(cfg, db, token, grantId, keyId, env);
      assert Handle(c, cfg, db, r, env) == GrantRetired(cfg, db, token, grantId, keyId, env);
  }

  lemma ReadOnlyStep(c: Suite, cfg: Config, db: Db, r: Request, env: Env)
    requires AllNamed(cfg, db.records) && env.year >= MIN_YEAR && (r.Describe? || r.DescribeById? || r.ListKeys?)
    ensures Loads(cfg, db.records, Handle(c, cfg, db, r, env).0.records, Quiet(env))
  {
    NothingEvolves(db.records, Quiet(env));
    match r
    case Describe(keyId) => GetKeyStep(cfg, db, keyId, Quiet(env), env.year, env.firstDraw);
    case DescribeById(keyId) => LoadStep(cfg, db, EnsureArn(cfg, KEY, keyId), Quiet(env), env.year, env.firstDraw);
    case ListKeys(limit, marker) =>
      if LimitValid(limit, 1000) {
        var names := NamesWithPrefix(db.records, ArnPrefix(cfg) + KEY);
        ListKeysStep(cfg, db, names, 0, db.records, limit + 1, marker, false, Quiet(env));
      }
  }

  /** CreateKey adds its initial record under a name never used before, or no key at all. */
  lemma CreateKeyStep(cfg: Config, db: Db, n: NewKey, at: Moment)
    requires ValidConfig(cfg) && AllNamed(cfg, db.records) && NoSlash(n.keyId)
    requires !HoldsKey(db.records, KeyArn(cfg, n.keyId))
    ensures var arn, r := KeyArn(cfg, n.keyId), KeyCreated(cfg, db, n).0.records;
            && AllNamed(cfg, r)
            && (if HoldsKey(r, arn) then CreateRejected(n).None? && Evolves(InitialKey(cfg, n), r[arn].key, at)
                                         && KeysStep(db.records[arn := KeyRec(InitialKey(cfg, n))], r, at)
                else KeysStep(db.records, r, at))
  {
    NothingEvolves(db.records, at);
    if CreateRejected(n).None? {
      var k := InitialKey(cfg, n);
      var s := KeySubject(n.keyId);
      var arn := StorageName(cfg, s);
      var saved := SavedKey(db, k);
      if saved.1 {
        WritesKeepNames(cfg, db, KeyRec(k), s);
        SavedTagsStep(cfg, saved.0, Some(n.keyId), n.tags, 0, at);
        var r := SavedTags(saved.0, arn, n.tags, 0).0.records;
        assert saved.0.records == db.records[arn := KeyRec(k)] && HoldsKey(saved.0.records, arn);
        assert !IsPendingDeletion(k.meta, at.now);
        assert HoldsKey(r, arn);
      }
    }
  }
}
