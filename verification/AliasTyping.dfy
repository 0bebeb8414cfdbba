/** Retargeting an alias keeps the usage and the type of the key it stands for. */
module AliasTyping {
  import opened Wrappers
  import opened ByteStrings
  import opened Names
  import opened Crypto
  import opened Keys
  import opened Lifecycle
  import opened Store
  import opened Requests
  import opened KeyHistory
  import opened StoreHistory
  import opened Runs
  import opened Safety

  predicate HoldsAlias(records: map<Bytes, Record>, a: Bytes) {
    a in records && records[a].AliasRec?
  }

  /** An alias stored under `a` is still there, unchanged. */
  predicate Keeps(r: map<Bytes, Record>, r': map<Bytes, Record>, a: Bytes) {
    HoldsAlias(r, a) ==> HoldsAlias(r', a) && r'[a] == r[a]
  }

  /** Writes and deletes under the name of another subject. */
  lemma OtherNameKeeps(cfg: Config, db: Db, rec: Record, s: Subject, a: Bytes)
    requires ValidConfig(cfg) && AllNamed(cfg, db.records) && ValidSubject(s)
             && (s.AliasSubject? ==> StorageName(cfg, s) != a)
    ensures Keeps(db.records, Written(db, StorageName(cfg, s), rec).0.records, a)
    ensures Keeps(db.records, Deleted(db, StorageName(cfg, s)).0.records, a)
  {
    RecordUnderName(cfg, db.records, s);
  }

  lemma {:induction false} TagsKeep(cfg: Config, db: Db, owner: Option<Bytes>, tags: seq<TagInput>, i: nat, a: Bytes)
    requires ValidConfig(cfg) && AllNamed(cfg, db.records) && (owner.Some? ==> NoSlash(owner.value))
    requires i <= |tags| && AllAcceptable(tags)
    ensures Keeps(db.records, SavedTags(db, OwnerArn(cfg, owner), tags, i).0.records, a)
    decreases |tags| - i
  {
    if i < |tags| {
      var s, t := TagSubject(owner, tags[i].tagKey.value), TagRec(TagOf(tags[i]));
      OtherNameKeeps(cfg, db, t, s, a);
      WritesKeepNames(cfg, db, t, s);
      TagsKeep(cfg, Written(db, StorageName(cfg, s), t).0, owner, tags, i + 1, a);
    }
  }

  lemma {:induction false} UntagKeeps(cfg: Config, db: Db, owner: Option<Bytes>, tagKeys: seq<Bytes>, i: nat, a: Bytes)
    requires ValidConfig(cfg) && AllNamed(cfg, db.records) && (owner.Some? ==> NoSlash(owner.value))
    requires i <= |tagKeys|
    ensures Keeps(db.records, DeletedTags(db, OwnerArn(cfg, owner), tagKeys, i).0.records, a)
    decreases |tagKeys| - i
  {
    if i < |tagKeys| {
      var s := TagSubject(owner, tagKeys[i]);
      OtherNameKeeps(cfg, db, TagRec(ZERO_TAG), s, a);
      DeleteKeepsNames(cfg, db, StorageName(cfg, s));
      UntagKeeps(cfg, Deleted(db, StorageName(cfg, s)).0, owner, tagKeys, i + 1, a);
    }
  }

  lemma LoadedTagsKeep(cfg: Config, db: Db, arn: Bytes, k: KeyRecord, tags: seq<TagInput>, tagKeys: seq<Bytes>,
                       a: Bytes)
    requires ValidConfig(cfg) && AllNamed(cfg, db.records) && LoadedFrom(db.records, arn, k) && AllAcceptable(tags)
    ensures Keeps(db.records, TaggedLoaded(db, k, tags).0.records, a)
    ensures Keeps(db.records, UntaggedLoaded(db, k, tagKeys).0.records, a)
  {
    OwnerExists(cfg, db.records, arn, k);
    var owner: Option<Bytes> :| k.meta.arn == OwnerArn(cfg, owner) && (owner.Some? ==> NoSlash(owner.value));
    TagsKeep(cfg, db, owner, tags, 0, a);
    UntagKeeps(cfg, db, owner, tagKeys, 0, a);
  }

  lemma AppliedKeeps(c: Suite, cfg: Config, db: Db, op: KeyOp, arn: Bytes, k: KeyRecord, env: Env, a: Bytes)
    requires ValidConfig(cfg) && AllNamed(cfg, db.records) && RequestValid(op, env.now)
             && LoadedFrom(db.records, arn, k)
    ensures Keeps(db.records, AppliedToLoaded(c, db, op, k, env).0.records, a)
  {
    var change := Apply(c, op, k, env.now, env.year);
    if change.Changed? {
      if HoldsKey(db.records, arn) {
        ApplyGrows(c, op, k, env.now, env.year);
        SaveKeepsNames(cfg, db, arn, change.key);
      } else {
        ZeroKeyIsNeverSaved(c, op, env.now, env.year);
      }
    }
  }

  lemma KeyChangeKeeps(c: Suite, cfg: Config, db: Db, keyId: Bytes, op: KeyOp, env: Env, a: Bytes)
    requires ValidConfig(cfg) && AllNamed(cfg, db.records) && env.year >= MIN_YEAR
    ensures Keeps(db.records, KeyChanged(c, cfg, db, keyId, op, env).0.records, a)
  {
    if RequestValid(op, env.now) && KeyOpTarget(cfg, db, op, keyId).Some? {
      var arn := KeyOpTarget(cfg, db, op, keyId).value;
      var loaded := LoadedKey(db, arn, env.now, env.year, env.firstDraw);
      LoadStep(cfg, db, arn, Quiet(env), env.year, env.firstDraw);
      if loaded.1.Some? {
        AppliedKeeps(c, cfg, loaded.0, op, arn, loaded.1.value, env, a);
      }
    }
  }

  lemma TaggingKeeps(cfg: Config, db: Db, keyId: Bytes, tags: seq<TagInput>, tagKeys: seq<Bytes>, env: Env, a: Bytes)
    requires ValidConfig(cfg) && AllNamed(cfg, db.records) && env.year >= MIN_YEAR
    ensures Keeps(db.records, ResourceTagged(cfg, db, keyId, tags, env).0.records, a)
    ensures Keeps(db.records, ResourceUntagged(cfg, db, keyId, tagKeys, env).0.records, a)
  {
    var got := GotKey(cfg, db, keyId, env.now, env.year, env.firstDraw);
    GetKeyStep(cfg, db, keyId, Quiet(env), env.year, env.firstDraw);
    if got.1.Some? {
      var arn :| LoadedFrom(got.0.records, arn, got.1.value);
      LoadedTagsKeep(cfg, got.0, arn, got.1.value, if TagsRejected(tags).None? then tags else [], tagKeys, a);
    }
  }

  lemma NewNameKeeps(db: Db, n: Bytes, rec: Record, a: Bytes)
    requires n !in db.records
    ensures Keeps(db.records, Written(db, n, rec).0.records, a)
  {
  }

  lemma CreateAliasKeeps(cfg: Config, db: Db, aliasName: Bytes, targetKeyId: Bytes, env: Env, a: Bytes)
    requires ValidConfig(cfg) && AllNamed(cfg, db.records) && env.year >= MIN_YEAR
    ensures Keeps(db.records, AliasCreated(cfg, db, aliasName, targetKeyId, env).0.records, a)
  {
    if CreateAliasRejected(aliasName, targetKeyId).None? {
      var loaded := LoadedKey(db, EnsureArn(cfg, KEY, targetKeyId), env.now, env.year, env.firstDraw);
      LoadStep(cfg, db, EnsureArn(cfg, KEY, targetKeyId), Quiet(env), env.year, env.firstDraw);
      var n := ArnPrefix(cfg) + aliasName;
      if loaded.1.Some? && n !in loaded.0.records {
        var al := Alias(n, aliasName, loaded.1.value.meta.keyId, Unix(env.now), Unix(env.now));
        NewNameKeeps(loaded.0, n, AliasRec(al), a);
      }
    }
  }

  lemma GrantsKeep(cfg: Config, db: Db, rec: Record, grantId: Bytes, a: Bytes)
    requires ValidConfig(cfg) && AllNamed(cfg, db.records)
    ensures Keeps(db.records, Written(db, GrantName(grantId), rec).0.records, a)
    ensures Keeps(db.records, Deleted(db, GrantName(grantId)).0.records, a)
  {
    OtherNameKeeps(cfg, db, rec, GrantSubject(grantId), a);
  }

  lemma CreateGrantKeeps(cfg: Config, db: Db, keyId: Bytes, g: Grant, env: Env, a: Bytes)
    requires ValidConfig(cfg) && AllNamed(cfg, db.records) && env.year >= MIN_YEAR
    ensures Keeps(db.records, GrantCreated(cfg, db, keyId, g, env).0.records, a)
  {
    var got := GotKey(cfg, db, keyId, env.now, env.year, env.firstDraw);
    GetKeyStep(cfg, db, keyId, Quiet(env), env.year, env.firstDraw);
    if got.1.Some? {
      GrantsKeep(cfg, got.0, GrantRec(g.(keyArn := got.1.value.meta.arn)), g.grantId, a);
    }
  }

  lemma RevokeGrantKeeps(cfg: Config, db: Db, keyId: Bytes, grantId: Bytes, env: Env, a: Bytes)
    requires ValidConfig(cfg) && AllNamed(cfg, db.records) && env.year >= MIN_YEAR
    ensures Keeps(db.records, GrantRevoked(cfg, db, keyId, grantId, env).0.records, a)
  {
    var got := GotKey(cfg, db, keyId, env.now, env.year, env.firstDraw);
    GetKeyStep(cfg, db, keyId, Quiet(env), env.year, env.firstDraw);
    if GrantName(grantId) in got.0.records {
      GrantsKeep(cfg, got.0, TagRec(ZERO_TAG), AsGrant(got.0.records[GrantName(grantId)]).grantId, a);
    }
  }

  lemma RetireGrantKeeps(cfg: Config, db: Db, token: Bytes, grantId: Bytes, keyId: Bytes, env: Env, a: Bytes)
    requires ValidConfig(cfg) && AllNamed(cfg, db.records) && env.year >= MIN_YEAR
    ensures Keeps(db.records, GrantRetired(cfg, db, token, grantId, keyId, env).0.records, a)
  {
    var found := GrantByToken(NamesWithPrefix(db.records, GRANT), 0, db.records, token);
    if found.Some? {
      GetKeyStep(cfg, db, keyId, Quiet(env), env.year, env.firstDraw);
      GrantsKeep(cfg, db, TagRec(ZERO_TAG), found.value.grantId, a);
      GrantsKeep(cfg, GotKey(cfg, db, keyId, env.now, env.year, env.firstDraw).0, TagRec(ZERO_TAG),
                 found.value.grantId, a);
    }
  }

  lemma CreateKeyKeeps(cfg: Config, db: Db, n: NewKey, a: Bytes)
    requires ValidConfig(cfg) && AllNamed(cfg, db.records) && NoSlash(n.keyId)
    ensures Keeps(db.records, KeyCreated(cfg, db, n).0.records, a)
  {
    if CreateRejected(n).None? {
      var k, s := InitialKey(cfg, n), KeySubject(n.keyId);
      OtherNameKeeps(cfg, db, KeyRec(k), s, a);
      WritesKeepNames(cfg, db, KeyRec(k), s);
      TagsKeep(cfg, Written(db, StorageName(cfg, s), KeyRec(k)).0, Some(n.keyId), n.tags, 0, a);
    }
  }

  lemma RetargetKeeps(cfg: Config, db: Db, aliasName: Bytes, al: Alias, original: KeyRecord, target: KeyRecord,
                      env: Env, a: Bytes)
    requires al.aliasArn == ArnPrefix(cfg) + aliasName && a != al.aliasArn
    ensures Keeps(db.records, AliasRetargeted(db, al, original, target, env).0.records, a)
  {
  }

  lemma UpdateOtherAliasKeeps(cfg: Config, db: Db, aliasName: Bytes, targetKeyId: Bytes, env: Env, a: Bytes)
    requires ValidConfig(cfg) && AllNamed(cfg, db.records) && env.year >= MIN_YEAR && a != ArnPrefix(cfg) + aliasName
    ensures Keeps(db.records, AliasUpdated(cfg, db, aliasName, targetKeyId, env).0.records, a)
  {
    var aliasArn := ArnPrefix(cfg) + aliasName;
    if UpdateAliasRejected(aliasName).None? && aliasArn in db.records {
      RecordUnderName(cfg, db.records, AliasSubject(aliasName));
      var al := AsAlias(db.records[aliasArn]);
      var arn1, arn2 := EnsureArn(cfg, KEY, al.targetKeyId), EnsureArn(cfg, KEY, targetKeyId);
      var original := LoadedKey(db, arn1, env.now, env.year, env.firstDraw);
      var target := LoadedKey(original.0, arn2, env.now, env.year, env.secondDraw);
      LoadStep(cfg, db, arn1, Quiet(env), env.year, env.firstDraw);
      LoadStep(cfg, original.0, arn2, Quiet(env), env.year, env.secondDraw);
      if original.1.Some? && target.1.Some? {
        RetargetKeeps(cfg, target.0, aliasName, al, original.1.value, target.1.value, env, a);
      }
    }
  }

  /** Every request keeps an alias as it is, except UpdateAlias and DeleteAlias of that alias. */
  lemma RequestKeeps(c: Suite, cfg: Config, db: Db, r: Request, env: Env, a: Bytes)
    requires ValidConfig(cfg) && AllNamed(cfg, db.records) && env.year >= MIN_YEAR
    requires r.CreateKey? ==> NoSlash(r.newKey.keyId)
    requires (r.UpdateAlias? || r.DeleteAlias?) ==> a != ArnPrefix(cfg) + r.aliasName
    ensures Keeps(db.records, Handle(c, cfg, db, r, env).0.records, a)
  {
    match r
    case CreateKey(n) => CreateKeyKeeps(cfg, db, n, a);
    case ChangeKey(keyId, op) => KeyChangeKeeps(c, cfg, db, keyId, op, env, a);
    case TagResource(keyId, tags) => TaggingKeeps(cfg, db, keyId, tags, [], env, a);
    case UntagResource(keyId, tagKeys) => TaggingKeeps(cfg, db, keyId, [], tagKeys, env, a);
    case CreateGrant(keyId, g) => CreateGrantKeeps(cfg, db, keyId, g, env, a);
    case RevokeGrant(keyId, grantId) => RevokeGrantKeeps(cfg, db, keyId, grantId, env, a);
    case RetireGrant(token, grantId, keyId) => RetireGrantKeeps(cfg, db, token, grantId, keyId, env, a);
    case CreateAlias(_, _) => AliasRequestKeeps(c, cfg, db, r, env, a);
    case UpdateAlias(_, _) => AliasRequestKeeps(c, cfg, db, r, env, a);
    case DeleteAlias(_) => AliasRequestKeeps(c, cfg, db, r, env, a);
    case _ => LoadingKeeps(c, cfg, db, r, env, a);
  }

  lemma AliasRequestKeeps(c: Suite, cfg: Config, db: Db, r: Request, env: Env, a: Bytes)
    requires ValidConfig(cfg) && AllNamed(cfg, db.records) && env.year >= MIN_YEAR
    requires r.CreateAlias? || ((r.UpdateAlias? || r.DeleteAlias?) && a != ArnPrefix(cfg) + r.aliasName)
    ensures Keeps(db.records, Handle(c, cfg, db, r, env).0.records, a)
  {
    match r
    case CreateAlias(name, target) => CreateAliasKeeps(cfg, db, name, target, env, a);
    case UpdateAlias(name, target) => UpdateOtherAliasKeeps(cfg, db, name, target, env, a);
    case DeleteAlias(_) =>
  }

  /** The requests that only load keys. */
  lemma LoadingKeeps(c: Suite, cfg: Config, db: Db, r: Request, env: Env, a: Bytes)
    requires AllNamed(cfg, db.records) && env.year >= MIN_YEAR
    requires r.Describe? || r.DescribeById? || r.Encrypt? || r.GenerateDataKey? || r.Decrypt? || r.ReEncrypt?
             || r.GenerateMac? || r.VerifyMac? || r.ListKeys?
    ensures Keeps(db.records, Handle(c, cfg, db, r, env).0.records, a)
  {
    match r
    case Encrypt(keyId, plaintext, context, alg) => EncryptStep(c, cfg, db, keyId, plaintext, context, alg, env);
    case GenerateDataKey(keyId, secret, context) => DataKeyStep(c, cfg, db, keyId, secret, context, env);
    case Decrypt(keyId, blob, context, alg) => DecryptStep(c, cfg, db, keyId, blob, context, alg, env);
    case ReEncrypt(re) => ReEncryptStep(c, cfg, db, re, env);
    case GenerateMac(keyId, message, alg) => MacStep(c, cfg, db, keyId, message, [], alg, env);
    case VerifyMac(keyId, message, mac, alg) => MacStep(c, cfg, db, keyId, message, mac, alg, env);
    case _ => ReadOnlyStep(c, cfg, db, r, env);
  }

  //----------------------------------------------------------------------------------------
  // The key an alias stands for

  /** The alias stored under `a` points at a key that exists or has existed, and if it exists it
      has this usage and type. */
  ghost predicate Typed(cfg: Config, s: System, a: Bytes, usage: KeyUsage, keyType: KeyType) {
    && HoldsAlias(s.db.records, a)
    && var id := s.db.records[a].alias.targetKeyId;
       && PlainId(id) && KeyArn(cfg, id) in s.minted
       && (Holds(s, KeyArn(cfg, id)) ==>
             KeyIn(s, KeyArn(cfg, id)).meta.keyUsage == usage && KeyIn(s, KeyArn(cfg, id)).keyType == keyType)
  }

  /** The ARN of a stored key is the one that its id stands for. */
  lemma IdStandsForKey(cfg: Config, records: map<Bytes, Record>, n: Bytes)
    requires AllNamed(cfg, records) && HoldsKey(records, n) && PlainId(records[n].key.meta.keyId)
    ensures records[n].key.meta.arn == n && n == KeyArn(cfg, records[n].key.meta.keyId)
    ensures EnsureArn(cfg, KEY, records[n].key.meta.keyId) == n
  {
    var s := SubjectOf(cfg, records, n);
  }

  /** As long as the alias itself is not touched. */
  lemma UntouchedStaysTyped(c: Suite, cfg: Config, s: System, e: Event, a: Bytes, usage: KeyUsage, keyType: KeyType)
    requires Inv(cfg, s) && Admissible(cfg, s, e) && Typed(cfg, s, a, usage, keyType)
    requires Keeps(s.db.records, Next(c, cfg, s, e).db.records, a)
    ensures Typed(cfg, Next(c, cfg, s, e), a, usage, keyType)
  {
    NextStep(c, cfg, s, e, KeyArn(cfg, s.db.records[a].alias.targetKeyId));
  }

  /** What a key reads as, if it reads at all: a stored key that was there before the load, with
      its usage and type, or the zero key. */
  lemma LoadedUsage(cfg: Config, db: Db, arn: Bytes, env: Env, drawn: Bytes)
    requires AllNamed(cfg, db.records) && env.year >= MIN_YEAR
    ensures var (db', k) := LoadedKey(db, arn, env.now, env.year, drawn);
            && AllNamed(cfg, db'.records) && OthersSame(db.records, db'.records)
               && KeysStep(db.records, db'.records, Quiet(env))
            && (k.Some? ==> if HoldsKey(db.records, arn) then SameKey(db.records[arn].key, k.value)
                            else k.value.meta.keyUsage == NoUsage)
  {
    LoadStep(cfg, db, arn, Quiet(env), env.year, drawn);
    var (db', k) := LoadedKey(db, arn, env.now, env.year, drawn);
    if k.Some? && HoldsKey(db'.records, arn) {
      GrewFromStart(db.records, db'.records, arn, Quiet(env));
    }
  }

  /** The same key, as far as retargeting an alias looks at it. */
  predicate SameKey(k: KeyRecord, k': KeyRecord) {
    k'.meta.keyUsage == k.meta.keyUsage && k'.keyType == k.keyType && k'.meta.keyId == k.meta.keyId
  }

  /** The alias under `a` now points at a key that was in the store, of this usage and type. */
  ghost predicate PointsAt(r: map<Bytes, Record>, r': map<Bytes, Record>, a: Bytes, usage: KeyUsage, keyType: KeyType) {
    HoldsAlias(r', a) &&
    exists n :: HoldsKey(r, n) && r[n].key.meta.keyUsage == usage && r[n].key.keyType == keyType
                && r'[a].alias.targetKeyId == r[n].key.meta.keyId
  }

  lemma RetargetChecks(db: Db, al: Alias, original: KeyRecord, target: KeyRecord, env: Env, a: Bytes)
    requires HoldsAlias(db.records, a) && al.aliasArn == a
    ensures var r := AliasRetargeted(db, al, original, target, env).0.records;
            || r == db.records
            || (HoldsAlias(r, a) && r[a].alias.targetKeyId == target.meta.keyId
                && target.meta.keyUsage == original.meta.keyUsage && target.keyType == original.keyType)
  {
  }

  /** UpdateAlias leaves the alias alone or points it at a key of the same usage and type. */
  lemma UpdateAliasRetargets(cfg: Config, db: Db, aliasName: Bytes, targetKeyId: Bytes, env: Env, usage: KeyUsage,
                             keyType: KeyType)
    requires ValidConfig(cfg) && AllNamed(cfg, db.records) && env.year >= MIN_YEAR
    requires var a := ArnPrefix(cfg) + aliasName;
             && HoldsAlias(db.records, a) && PlainId(db.records[a].alias.targetKeyId)
             && var n := KeyArn(cfg, db.records[a].alias.targetKeyId);
                HoldsKey(db.records, n) ==>
                  db.records[n].key.meta.keyUsage == usage && db.records[n].key.keyType == keyType
    requires usage != NoUsage && UpdateAliasRejected(aliasName).None?
    ensures var a, r := ArnPrefix(cfg) + aliasName, AliasUpdated(cfg, db, aliasName, targetKeyId, env).0.records;
            Keeps(db.records, r, a) || PointsAt(db.records, r, a, usage, keyType)
  {
    var a := ArnPrefix(cfg) + aliasName;
    RecordUnderName(cfg, db.records, AliasSubject(aliasName));
    var al := db.records[a].alias;
    var arn1, arn2 := EnsureArn(cfg, KEY, al.targetKeyId), EnsureArn(cfg, KEY, targetKeyId);
    RecordUnderName(cfg, db.records, KeySubject(al.targetKeyId));
    var original := LoadedKey(db, arn1, env.now, env.year, env.firstDraw);
    LoadedUsage(cfg, db, arn1, env, env.firstDraw);
    var target := LoadedKey(original.0, arn2, env.now, env.year, env.secondDraw);
    LoadedUsage(cfg, original.0, arn2, env, env.secondDraw);
    if original.1.Some? && target.1.Some? {
      RetargetChecks(target.0, al, original.1.value, target.1.value, env, a);
      if HoldsKey(original.0.records, arn2) {
        GrewFromStart(db.records, original.0.records, arn2, Quiet(env));
      }
    }
  }

  /** A request after which an alias points at a key that was in the store. */
  lemma PointedIsTyped(c: Suite, cfg: Config, s: System, e: Event, a: Bytes, n: Bytes)
    requires Inv(cfg, s) && Admissible(cfg, s, e) && AllPlainIds(s) && Holds(s, n)
    requires var r := Next(c, cfg, s, e).db.records;
             HoldsAlias(r, a) && r[a].alias.targetKeyId == KeyIn(s, n).meta.keyId
    ensures Typed(cfg, Next(c, cfg, s, e), a, KeyIn(s, n).meta.keyUsage, KeyIn(s, n).keyType)
  {
    IdStandsForKey(cfg, s.db.records, n);
    NextStep(c, cfg, s, e, n);
  }

  lemma UpdateKeepsTyped(c: Suite, cfg: Config, s: System, e: Event, usage: KeyUsage, keyType: KeyType)
    requires Inv(cfg, s) && Admissible(cfg, s, e) && AllPlainIds(s) && e.request.UpdateAlias? && usage != NoUsage
    requires Typed(cfg, s, ArnPrefix(cfg) + e.request.aliasName, usage, keyType)
    ensures Typed(cfg, Next(c, cfg, s, e), ArnPrefix(cfg) + e.request.aliasName, usage, keyType)
  {
    var a, s' := ArnPrefix(cfg) + e.request.aliasName, Next(c, cfg, s, e);
    if UpdateAliasRejected(e.request.aliasName).None? {
      UpdateAliasRetargets(cfg, s.db, e.request.aliasName, e.request.targetKeyId, e.env, usage, keyType);
    }
    if Keeps(s.db.records, s'.db.records, a) {
      UntouchedStaysTyped(c, cfg, s, e, a, usage, keyType);
    } else {
      var n :| HoldsKey(s.db.records, n) && KeyIn(s, n).meta.keyUsage == usage && KeyIn(s, n).keyType == keyType
               && s'.db.records[a].alias.targetKeyId == KeyIn(s, n).meta.keyId;
      PointedIsTyped(c, cfg, s, e, a, n);
    }
  }

  /** The alias is there in every state of the run. */
  ghost predicate AliasStays(c: Suite, cfg: Config, s: System, es: seq<Event>, a: Bytes)
    decreases |es|
  {
    HoldsAlias(s.db.records, a) && (es == [] || AliasStays(c, cfg, Next(c, cfg, s, es[0]), es[1..], a))
  }

  lemma StepKeepsTyped(c: Suite, cfg: Config, s: System, e: Event, a: Bytes, usage: KeyUsage, keyType: KeyType)
    requires Inv(cfg, s) && Admissible(cfg, s, e) && AllPlainIds(s) && usage != NoUsage
    requires Typed(cfg, s, a, usage, keyType) && HoldsAlias(Next(c, cfg, s, e).db.records, a)
    ensures Typed(cfg, Next(c, cfg, s, e), a, usage, keyType)
  {
    var r := e.request;
    if r.UpdateAlias? && a == ArnPrefix(cfg) + r.aliasName {
      UpdateKeepsTyped(c, cfg, s, e, usage, keyType);
    } else {
      if !(r.DeleteAlias? && a == ArnPrefix(cfg) + r.aliasName) {
        RequestKeeps(c, cfg, s.db, r, e.env, a);
      }
      UntouchedStaysTyped(c, cfg, s, e, a, usage, keyType);
    }
  }

  /** From its creation to its deletion, every key an alias is pointed at has the usage and the
      type of the first, as long as that key exists. */
  lemma {:induction false} AliasKeepsUsageAndType(c: Suite, cfg: Config, s: System, es: seq<Event>, a: Bytes,
                                                 usage: KeyUsage, keyType: KeyType)
    requires Inv(cfg, s) && AdmissibleRun(c, cfg, s, es) && AllPlainIds(s) && usage != NoUsage
    requires Typed(cfg, s, a, usage, keyType) && AliasStays(c, cfg, s, es, a)
    ensures Typed(cfg, Run(c, cfg, s, es), a, usage, keyType)
    decreases |es|
  {
    if es != [] {
      NextStep(c, cfg, s, es[0], []);
      StepKeepsPlainIds(c, cfg, s, es[0]);
      StepKeepsTyped(c, cfg, s, es[0], a, usage, keyType);
      AliasKeepsUsageAndType(c, cfg, Next(c, cfg, s, es[0]), es[1..], a, usage, keyType);
    }
  }

  lemma LoadedAliasPoints(cfg: Config, db: Db, aliasName: Bytes, k: KeyRecord, env: Env)
    requires AliasForLoaded(cfg, db, aliasName, k, env).1.Done?
    ensures var a, r := ArnPrefix(cfg) + aliasName, AliasForLoaded(cfg, db, aliasName, k, env).0.records;
            HoldsAlias(r, a) && r[a].alias.targetKeyId == k.meta.keyId
  {
  }

  lemma CreatedAliasPoints(cfg: Config, db: Db, aliasName: Bytes, targetKeyId: Bytes, env: Env)
    requires AllNamed(cfg, db.records) && env.year >= MIN_YEAR && HoldsKey(db.records, EnsureArn(cfg, KEY, targetKeyId))
    requires AliasCreated(cfg, db, aliasName, targetKeyId, env).1.Done?
    ensures var a, r := ArnPrefix(cfg) + aliasName, AliasCreated(cfg, db, aliasName, targetKeyId, env).0.records;
            HoldsAlias(r, a) && r[a].alias.targetKeyId == db.records[EnsureArn(cfg, KEY, targetKeyId)].key.meta.keyId
  {
    var loaded := LoadedKey(db, EnsureArn(cfg, KEY, targetKeyId), env.now, env.year, env.firstDraw);
    LoadedUsage(cfg, db, EnsureArn(cfg, KEY, targetKeyId), env, env.firstDraw);
    LoadedAliasPoints(cfg, loaded.0, aliasName, loaded.1.value, env);
  }

  /** CreateAlias on an existing key starts such a life. */
  lemma CreatedAliasIsTyped(c: Suite, cfg: Config, s: System, e: Event)
    requires Inv(cfg, s) && Admissible(cfg, s, e) && AllPlainIds(s) && e.request.CreateAlias?
    requires Answer(c, cfg, s, e).Done? && Holds(s, EnsureArn(cfg, KEY, e.request.targetKeyId))
    ensures var k := KeyIn(s, EnsureArn(cfg, KEY, e.request.targetKeyId));
            Typed(cfg, Next(c, cfg, s, e), ArnPrefix(cfg) + e.request.aliasName, k.meta.keyUsage, k.keyType)
  {
    CreatedAliasPoints(cfg, s.db, e.request.aliasName, e.request.targetKeyId, e.env);
    PointedIsTyped(c, cfg, s, e, ArnPrefix(cfg) + e.request.aliasName, EnsureArn(cfg, KEY, e.request.targetKeyId));
  }

  /** The whole life of an alias, from any run from the empty store in which it is created on an
      existing key: as long as it is not deleted it stands for keys of that usage and type. */
  lemma AliasLife(c: Suite, cfg: Config, disk: seq<bool>, start: Time, before: seq<Event>, e: Event, after: seq<Event>)
    requires ValidConfig(cfg) && AdmissibleRun(c, cfg, Beginning(disk, start), before)
    requires var s := Run(c, cfg, Beginning(disk, start), before);
             && Admissible(cfg, s, e) && e.request.CreateAlias? && Answer(c, cfg, s, e).Done?
             && Holds(s, EnsureArn(cfg, KEY, e.request.targetKeyId))
             && AdmissibleRun(c, cfg, Next(c, cfg, s, e), after)
             && AliasStays(c, cfg, Next(c, cfg, s, e), after, ArnPrefix(cfg) + e.request.aliasName)
    ensures var s := Run(c, cfg, Beginning(disk, start), before);
            var k := KeyIn(s, EnsureArn(cfg, KEY, e.request.targetKeyId));
            Typed(cfg, Run(c, cfg, Next(c, cfg, s, e), after), ArnPrefix(cfg) + e.request.aliasName,
                  k.meta.keyUsage, k.keyType)
  {
    EveryReachableState(c, cfg, disk, start, before);
    AliasLifeFrom(c, cfg, Run(c, cfg, Beginning(disk, start), before), e, after);
  }

  lemma AliasLifeFrom(c: Suite, cfg: Config, s: System, e: Event, after: seq<Event>)
    requires Inv(cfg, s) && AllPlainIds(s) && AllUsed(s)
    requires Admissible(cfg, s, e) && e.request.CreateAlias? && Answer(c, cfg, s, e).Done?
    requires Holds(s, EnsureArn(cfg, KEY, e.request.targetKeyId))
    requires AdmissibleRun(c, cfg, Next(c, cfg, s, e), after)
    requires AliasStays(c, cfg, Next(c, cfg, s, e), after, ArnPrefix(cfg) + e.request.aliasName)
    ensures var k := KeyIn(s, EnsureArn(cfg, KEY, e.request.targetKeyId));
            Typed(cfg, Run(c, cfg, Next(c, cfg, s, e), after), ArnPrefix(cfg) + e.request.aliasName,
                  k.meta.keyUsage, k.keyType)
  {
    var k := KeyIn(s, EnsureArn(cfg, KEY, e.request.targetKeyId));
    NextStep(c, cfg, s, e, []);
    StepKeepsPlainIds(c, cfg, s, e);
    CreatedAliasIsTyped(c, cfg, s, e);
    AliasKeepsUsageAndType(c, cfg, Next(c, cfg, s, e), after, ArnPrefix(cfg) + e.request.aliasName,
                           k.meta.keyUsage, k.keyType);
  }
}
