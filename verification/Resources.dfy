/** Exactly what the requests about names, new keys, tags, aliases and grants answer and store, for
    every input, in terms of the fields of the records and the limits of the service. */
module Resources {
  import opened Wrappers
  import opened ByteStrings
  import opened Names
  import opened Crypto
  import opened Keys
  import opened Lifecycle
  import opened Store
  import opened Requests
  import opened StoreHistory
  import opened Runs
  import opened Listing
  import opened TagQuota
  import opened Changes

  /** One record is stored, and the answer is success, if the disk takes the write. */
  predicate Stores(result: (Db, Response), db: Db, n: Bytes, r: Record, arn: Bytes) {
    if |db.disk| > 0 && db.disk[0] then result == (Db(db.records[n := r], db.disk[1..]), Done(arn))
    else result.0.records == db.records && result.1 == Failed(InternalFailure)
  }

  /** One record is removed, and the answer is success, if the disk takes the write. */
  predicate Removes(result: (Db, Response), db: Db, n: Bytes, arn: Bytes) {
    if |db.disk| > 0 && db.disk[0] then result == (Db(db.records - {n}, db.disk[1..]), Done(arn))
    else result.0.records == db.records && result.1 == Failed(InternalFailure)
  }

  predicate Begins(s: Bytes, p: Bytes) {
    |s| >= |p| && s[..|p|] == p
  }

  //----------------------------------------------------------------------------------------
  // Names

  function FullArn(cfg: Config, kind: Bytes, name: Bytes): Bytes {
    "arn:aws:kms:" + cfg.region + ":" + cfg.account + ":" + kind + name
  }

  /** An id leads to its key, and so does the key's ARN. */
  lemma IdLeadsToKey(cfg: Config, db: Db, id: Bytes)
    requires ValidConfig(cfg) && PlainId(id)
    ensures ResolvedName(cfg, db, id) == Some(FullArn(cfg, "key/", id))
    ensures ResolvedName(cfg, db, FullArn(cfg, "key/", id)) == Some(FullArn(cfg, "key/", id))
    ensures EnsureArn(cfg, KEY, id) == FullArn(cfg, "key/", id) == EnsureArn(cfg, KEY, FullArn(cfg, "key/", id))
  {
    assert KeyArn(cfg, id) == FullArn(cfg, "key/", id);
    KeyArnIsDirect(cfg, id, KEY);
    assert !Contains(id, ALIAS) by {
      forall i: nat | i <= |id| ensures !OccursAt(id, ALIAS, i) {
        if i + 6 <= |id| {
          assert id[i..i + 6][5] == id[i + 5] && ALIAS[5] == SLASH;
        }
      }
    }
  }

  /** An alias, by its name or its ARN, leads to the key that its record names; a name that no
      record is stored under leads nowhere. */
  lemma AliasLeadsToTarget(cfg: Config, db: Db, name: Bytes)
    requires Begins(name, "alias/")
    ensures var n := FullArn(cfg, "", name);
            && ResolvedName(cfg, db, name) == ResolvedName(cfg, db, n)
            && (n !in db.records ==> ResolvedName(cfg, db, name) == None)
            && (n in db.records && db.records[n].AliasRec? && PlainId(db.records[n].alias.targetKeyId) ==>
                  ResolvedName(cfg, db, name) == Some(FullArn(cfg, "key/", db.records[n].alias.targetKeyId)))
  {
    var n := FullArn(cfg, "", name);
    assert EnsureArn(cfg, [], name) == n by {
      assert name[1] == name[..6][1];
      assert n == ArnPrefix(cfg) + [] + name;
    }
    assert EnsureArn(cfg, [], n) == n by {
      assert n[..4] == "arn:";
    }
    assert Contains(name, ALIAS) by {
      assert OccursAt(name, ALIAS, 0);
    }
    assert Contains(n, ALIAS) by {
      var at := |n| - |name|;
      assert n[at..at + 6] == name[..6];
      assert OccursAt(n, ALIAS, at);
    }
  }

  //----------------------------------------------------------------------------------------
  // Tags

  predicate Reserved(t: TagInput) {
    t.tagKey.Some? && Begins(t.tagKey.value, "aws:")
  }

  predicate InOrder(t: TagInput) {
    t.tagKey.Some? && t.tagValue.Some? && 1 <= |t.tagKey.value| <= 128 && |t.tagValue.value| <= 256
  }

  predicate AllInOrder(tags: seq<TagInput>) {
    forall i | 0 <= i < |tags| :: InOrder(tags[i])
  }

  predicate NoneReserved(tags: seq<TagInput>) {
    forall i | 0 <= i < |tags| :: !Reserved(tags[i])
  }

  lemma TagChecks(tags: seq<TagInput>)
    ensures TagsRejected(tags) ==
            if !NoneReserved(tags) then Some(TagError) else if !AllInOrder(tags) then Some(Validation) else None
    ensures AllInOrder(tags) <==> AllAcceptable(tags)
  {
    if AllInOrder(tags) {
      forall i | 0 <= i < |tags| ensures TagAcceptable(tags[i]) {
        assert InOrder(tags[i]);
      }
    } else {
      var i :| 0 <= i < |tags| && !InOrder(tags[i]);
      assert !TagAcceptable(tags[i]);
    }
    if !NoneReserved(tags) {
      var i :| 0 <= i < |tags| && Reserved(tags[i]);
      assert HasPrefix(tags[i].tagKey.value, "aws:");
    }
  }

  /** How many of the next n writes succeed before the first that fails. */
  function Taken(disk: seq<bool>, n: nat): (m: nat)
    ensures m <= n && m <= |disk| && (forall i | 0 <= i < m :: disk[i]) && (m == n || m == |disk| || !disk[m])
  {
    if n == 0 || disk == [] || !disk[0] then 0 else 1 + Taken(disk[1..], n - 1)
  }

  function KeyAt(tags: seq<TagInput>, j: int): Bytes
    requires 0 <= j < |tags| && AllAcceptable(tags)
  {
    tags[j].tagKey.value
  }

  predicate AmongTags(arn: Bytes, tags: seq<TagInput>, i: nat, e: nat, n: Bytes)
    requires e <= |tags| && AllAcceptable(tags)
  {
    exists j | i <= j < e :: n == arn + "/tag/" + KeyAt(tags, j)
  }

  predicate LastWithKey(tags: seq<TagInput>, j: nat, e: nat)
    requires j < e <= |tags| && AllAcceptable(tags)
  {
    forall l | j < l < e :: KeyAt(tags, l) != KeyAt(tags, j)
  }

  /** Tags i to e - 1 have been stored, the last value for each key, and nothing else has changed. */
  ghost predicate TagsStored(r: map<Bytes, Record>, r': map<Bytes, Record>, arn: Bytes, tags: seq<TagInput>, i: nat,
                             e: nat)
    requires i <= e <= |tags| && AllAcceptable(tags)
  {
    && (forall j: nat | i <= j < e && LastWithKey(tags, j, e) :: TagIsStored(r', arn, tags, j))
    && (forall n | !AmongTags(arn, tags, i, e, n) :: SameRecord(r, r', n))
  }

  predicate TagIsStored(r: map<Bytes, Record>, arn: Bytes, tags: seq<TagInput>, j: nat)
    requires j < |tags| && AllAcceptable(tags)
  {
    var n := arn + "/tag/" + KeyAt(tags, j);
    n in r && r[n] == TagRec(Tag(KeyAt(tags, j), tags[j].tagValue.value))
  }

  predicate SameRecord(r: map<Bytes, Record>, r': map<Bytes, Record>, n: Bytes) {
    (n in r' <==> n in r) && (n in r ==> r'[n] == r[n])
  }

  /** saveTags stores exactly the tags before the first failing write. */
  lemma {:induction false} SavedTagsExactly(db: Db, arn: Bytes, tags: seq<TagInput>, i: nat)
    requires i <= |tags| && AllAcceptable(tags)
    ensures var m := Taken(db.disk, |tags| - i);
            var (db', ok) := SavedTags(db, arn, tags, i);
            (ok <==> m == |tags| - i) && TagsStored(db.records, db'.records, arn, tags, i, i + m)
    decreases |tags| - i
  {
    if i < |tags| && WriteSucceeds(db) {
      var n := arn + "/tag/" + KeyAt(tags, i);
      var w := Written(db, TagName(arn, tags[i].tagKey.value), TagRec(TagOf(tags[i]))).0;
      SavedTagsExactly(w, arn, tags, i + 1);
      var e := i + Taken(db.disk, |tags| - i);
      var r' := SavedTags(w, arn, tags, i + 1).0.records;
      FirstTagStored(db.records, w.records, r', arn, tags, i, e);
    }
  }

  lemma FirstTagStored(r: map<Bytes, Record>, w: map<Bytes, Record>, r': map<Bytes, Record>, arn: Bytes,
                       tags: seq<TagInput>, i: nat, e: nat)
    requires i < e <= |tags| && AllAcceptable(tags)
    requires w == r[arn + "/tag/" + KeyAt(tags, i) := TagRec(Tag(KeyAt(tags, i), tags[i].tagValue.value))]
    requires TagsStored(w, r', arn, tags, i + 1, e)
    ensures TagsStored(r, r', arn, tags, i, e)
  {
    var n := arn + "/tag/" + KeyAt(tags, i);
    if LastWithKey(tags, i, e) {
      if AmongTags(arn, tags, i + 1, e, n) {
        var l :| i + 1 <= l < e && n == arn + "/tag/" + KeyAt(tags, l);
        SameTagKey(arn, KeyAt(tags, l), KeyAt(tags, i));
        assert false;
      }
      assert SameRecord(w, r', n);
    }
    forall m | !AmongTags(arn, tags, i, e, m) ensures SameRecord(r, r', m) {
      assert m != n;
      assert !AmongTags(arn, tags, i + 1, e, m);
      assert SameRecord(w, r', m);
    }
  }

  /** The tags of the request, counted one by one, whose key is not stored. */
  function NewTags(records: map<Bytes, Record>, arn: Bytes, tags: seq<TagInput>, i: nat): set<int>
    requires AllAcceptable(tags)
  {
    set j | i <= j < |tags| && IsNew(records, arn, tags, j)
  }

  predicate IsNew(records: map<Bytes, Record>, arn: Bytes, tags: seq<TagInput>, j: int)
    requires 0 <= j < |tags| && AllAcceptable(tags)
  {
    arn + "/tag/" + KeyAt(tags, j) !in records
  }

  lemma {:induction false} NewTagsAreCounted(records: map<Bytes, Record>, existing: set<Bytes>, arn: Bytes,
                                             tags: seq<TagInput>, i: nat)
    requires i <= |tags| && AllAcceptable(tags)
    requires forall j | 0 <= j < |tags| :: KeyAt(tags, j) in existing <==> !IsNew(records, arn, tags, j)
    ensures NewTagCount(existing, tags, i) == |NewTags(records, arn, tags, i)|
    decreases |tags| - i
  {
    if i < |tags| {
      var rest := NewTags(records, arn, tags, i + 1);
      NewTagsAreCounted(records, existing, arn, tags, i + 1);
      assert NewTags(records, arn, tags, i) == if IsNew(records, arn, tags, i) then {i as int} + rest else rest;
    } else {
      assert NewTags(records, arn, tags, i) == {};
    }
  }

  /** More than 50 tags: those that the key has and those of the request with a key it has not. */
  ghost predicate TooMany(records: map<Bytes, Record>, arn: Bytes, tags: seq<TagInput>)
    requires AllAcceptable(tags)
  {
    tags != [] && |TagsOn(records, arn)| + |NewTags(records, arn, tags, 0)| > 50
  }

  lemma QuotaExactly(cfg: Config, records: map<Bytes, Record>, owner: Option<Bytes>, tags: seq<TagInput>)
    requires ValidConfig(cfg) && AllNamed(cfg, records) && (owner.Some? ==> NoSlash(owner.value))
    requires AllAcceptable(tags)
    ensures OverQuota(records, OwnerArn(cfg, owner), tags) <==> TooMany(records, OwnerArn(cfg, owner), tags)
  {
    var arn := OwnerArn(cfg, owner);
    CountIsRange(records, arn);
    forall n ensures n in TagRangeOf(records, arn) <==> n in TagsOn(records, arn) {
      RangeMembers(cfg, records, TagQuery(owner), n);
    }
    assert TagRangeOf(records, arn) == TagsOn(records, arn);
    forall j | 0 <= j < |tags|
      ensures KeyAt(tags, j) in StoredTagKeys(records, arn) <==> !IsNew(records, arn, tags, j)
    {
      StoredKeyHasName(cfg, records, owner, KeyAt(tags, j));
      TagNameInRange(arn, KeyAt(tags, j));
    }
    NewTagsAreCounted(records, StoredTagKeys(records, arn), arn, tags, 0);
  }

  /** TagResource stores the tags up to the first failing write, or refuses for the first of these
      reasons: a reserved key, a missing or too long key or value, no key, a key about to be
      deleted, more than 50 tags. */
  lemma TagResourceExactly(cfg: Config, db: Db, keyId: Bytes, tags: seq<TagInput>, env: Env)
    requires ValidConfig(cfg) && AllNamed(cfg, db.records) && env.year >= MIN_YEAR
    ensures var result := ResourceTagged(cfg, db, keyId, tags, env);
            var (db1, k) := GotKey(cfg, db, keyId, env.now, env.year, env.firstDraw);
            if !NoneReserved(tags) then Refuses(result, db, TagError)
            else if !AllInOrder(tags) then Refuses(result, db, Validation)
            else if k == None then Refuses(result, db1, NotFound)
            else if k.value.meta.keyState == PendingDeletion then Refuses(result, db1, InvalidState)
            else AllAcceptable(tags) && Tags(result, db1, k.value.meta.arn, tags)
  {
    TagChecks(tags);
    var (db1, k) := GotKey(cfg, db, keyId, env.now, env.year, env.firstDraw);
    if TagsRejected(tags).None? && k.Some? {
      GetKeyStep(cfg, db, keyId, Quiet(env), env.year, env.firstDraw);
      var name :| LoadedFrom(db1.records, name, k.value);
      TaggedExactly(cfg, db1, name, k.value, tags);
    }
  }

  lemma TaggedExactly(cfg: Config, db: Db, name: Bytes, k: KeyRecord, tags: seq<TagInput>)
    requires ValidConfig(cfg) && AllNamed(cfg, db.records) && LoadedFrom(db.records, name, k) && AllAcceptable(tags)
    ensures if k.meta.keyState == PendingDeletion then Refuses(TaggedLoaded(db, k, tags), db, InvalidState)
            else Tags(TaggedLoaded(db, k, tags), db, k.meta.arn, tags)
  {
    OwnerExists(cfg, db.records, name, k);
    var owner: Option<Bytes> :| k.meta.arn == OwnerArn(cfg, owner) && (owner.Some? ==> NoSlash(owner.value));
    QuotaExactly(cfg, db.records, owner, tags);
    SavedTagsExactly(db, k.meta.arn, tags, 0);
  }

  ghost predicate Tags(result: (Db, Response), db: Db, arn: Bytes, tags: seq<TagInput>)
    requires AllAcceptable(tags)
  {
    if TooMany(db.records, arn, tags) then Refuses(result, db, TagError)
    else
      var m := Taken(db.disk, |tags|);
      && TagsStored(db.records, result.0.records, arn, tags, 0, m)
      && result.1 == if m == |tags| then Done(arn) else Failed(InternalFailure)
  }

  predicate AmongKeys(arn: Bytes, tagKeys: seq<Bytes>, i: nat, e: nat, n: Bytes)
    requires e <= |tagKeys|
  {
    exists j | i <= j < e :: n == arn + "/tag/" + tagKeys[j]
  }

  /** Tag keys i to e - 1 have been removed, and nothing else has changed. */
  ghost predicate TagsRemoved(r: map<Bytes, Record>, r': map<Bytes, Record>, arn: Bytes, tagKeys: seq<Bytes>, i: nat,
                              e: nat)
    requires i <= e <= |tagKeys|
  {
    forall n :: if AmongKeys(arn, tagKeys, i, e, n) then n !in r' else SameRecord(r, r', n)
  }

  lemma {:induction false} DeletedTagsExactly(db: Db, arn: Bytes, tagKeys: seq<Bytes>, i: nat)
    requires i <= |tagKeys|
    ensures var m := Taken(db.disk, |tagKeys| - i);
            var (db', ok) := DeletedTags(db, arn, tagKeys, i);
            (ok <==> m == |tagKeys| - i) && TagsRemoved(db.records, db'.records, arn, tagKeys, i, i + m)
    decreases |tagKeys| - i
  {
    if i < |tagKeys| && WriteSucceeds(db) {
      var n := arn + "/tag/" + tagKeys[i];
      var w := Deleted(db, TagName(arn, tagKeys[i])).0;
      DeletedTagsExactly(w, arn, tagKeys, i + 1);
      var e := i + Taken(db.disk, |tagKeys| - i);
      var r' := DeletedTags(w, arn, tagKeys, i + 1).0.records;
      forall x ensures if AmongKeys(arn, tagKeys, i, e, x) then x !in r' else SameRecord(db.records, r', x) {
        assert AmongKeys(arn, tagKeys, i, e, x) <==> x == n || AmongKeys(arn, tagKeys, i + 1, e, x);
        assert if AmongKeys(arn, tagKeys, i + 1, e, x) then x !in r' else SameRecord(w.records, r', x);
      }
    }
  }

  /** UntagResource removes the named tags up to the first failing write, and no other record. */
  lemma UntagResourceExactly(cfg: Config, db: Db, keyId: Bytes, tagKeys: seq<Bytes>, env: Env)
    ensures var result := ResourceUntagged(cfg, db, keyId, tagKeys, env);
            var (db1, k) := GotKey(cfg, db, keyId, env.now, env.year, env.firstDraw);
            if k == None then Refuses(result, db1, NotFound)
            else if k.value.meta.keyState == PendingDeletion then Refuses(result, db1, InvalidState)
            else
              var m := Taken(db1.disk, |tagKeys|);
              && TagsRemoved(db1.records, result.0.records, k.value.meta.arn, tagKeys, 0, m)
              && result.1 == if m == |tagKeys| then Done(k.value.meta.arn) else Failed(InternalFailure)
  {
    var (db1, k) := GotKey(cfg, db, keyId, env.now, env.year, env.firstDraw);
    if k.Some? {
      DeletedTagsExactly(db1, k.value.meta.arn, tagKeys, 0);
    }
  }

  //----------------------------------------------------------------------------------------
  // New keys

  /** The spec asked for, by either of its names; symmetric encryption if neither is given. */
  function SpecAsked(n: NewKey): KeySpec {
    if n.keySpec == NoSpec && n.customerMasterKeySpec == NoSpec then SymmetricDefault
    else if n.keySpec == NoSpec then n.customerMasterKeySpec
    else n.keySpec
  }

  predicate UsageFits(spec: KeySpec, usage: KeyUsage) {
    || (spec == SymmetricDefault && usage in {NoUsage, EncryptDecrypt})
    || (spec in {EccNistP256, EccNistP384, EccNistP521, EccSecp256k1} && usage == SignVerify)
    || (spec in {Rsa2048, Rsa3072, Rsa4096} && usage in {SignVerify, EncryptDecrypt})
    || (spec in {Hmac224, Hmac256, Hmac384, Hmac512} && usage == GenerateVerifyMac)
  }

  /** When a new key is refused, by the error. */
  function CreationRefusal(n: NewKey): Option<Error> {
    if |n.description| > 8192 || |n.policy| > 32768 then Some(Validation)
    else if !NoneReserved(n.tags) then Some(TagError)
    else if !AllInOrder(n.tags) || (n.keySpec != NoSpec && n.customerMasterKeySpec != NoSpec) then Some(Validation)
    else if n.origin == CloudHsm then Some(UnsupportedOperation)
    else if n.origin == OtherOrigin || (n.origin == External && SpecAsked(n) != SymmetricDefault)
            || !UsageFits(SpecAsked(n), n.usage) then Some(Validation)
    else None
  }

  /** The record of a new key. An EXTERNAL key waits for its material; any other AES or HMAC key has
      the drawn material as its only backing key; RSA and ECC keys have a private key instead. */
  predicate IsNewRecord(cfg: Config, n: NewKey, k: KeyRecord) {
    var external, spec, m := n.origin == External, SpecAsked(n), k.meta;
    && m.arn == FullArn(cfg, "key/", n.keyId) && m.keyId == n.keyId && m.description == n.description
    && k.policy == n.policy
    && m.enabled == !external && m.keyState == (if external then PendingImport else Enabled)
    && m.origin == (if external then External else AwsKms)
    && m.deletionDate == 0 && m.validTo == 0 && m.expirationModel == NoExpiration
    && m.keySpec == spec && m.customerMasterKeySpec == spec
    && m.keyUsage == (if n.usage == NoUsage then EncryptDecrypt else n.usage)
    && (k.keyType == Aes <==> spec == SymmetricDefault)
    && (k.keyType == Rsa <==> spec in {Rsa2048, Rsa3072, Rsa4096})
    && (k.keyType == Hmac <==> spec in {Hmac224, Hmac256, Hmac384, Hmac512})
    && m.macAlgorithms == (if spec == Hmac224 then [HmacSha224] else if spec == Hmac256 then [HmacSha256]
                           else if spec == Hmac384 then [HmacSha384] else if spec == Hmac512 then [HmacSha512] else [])
    && k.backingKeys == (if external || k.keyType in {Rsa, Ecc} then [] else [n.material])
    && k.privateKey == (if k.keyType in {Rsa, Ecc} then n.privateKey else [])
    && k.nextKeyRotation == None && k.onDemandRotationCount == 0
    && k.importParams == ParametersForImport(0, [], [], NoWrapping)
  }

  lemma CreationRefusals(n: NewKey)
    ensures CreateRejected(n) == CreationRefusal(n)
  {
    TagChecks(n.tags);
    assert SpecAsked(n) == EffectiveSpec(n);
    var t := KeyTypeOf(SpecAsked(n));
    assert UsageFits(SpecAsked(n), n.usage) <==> t.Some? && UsageAccepted(t.value, n.usage);
  }

  lemma InitialRecord(cfg: Config, n: NewKey)
    requires CreateRejected(n).None?
    ensures IsNewRecord(cfg, n, InitialKey(cfg, n))
  {
    assert ArnPrefix(cfg) + KEY + n.keyId == FullArn(cfg, "key/", n.keyId);
  }

  /** CreateKey stores the record, if the disk takes the write, and then the tags up to the first
      failing write; the key stays even if a tag could not be stored. */
  lemma CreateKeyExactly(cfg: Config, db: Db, n: NewKey)
    ensures var result := KeyCreated(cfg, db, n);
            var arn := FullArn(cfg, "key/", n.keyId);
            if CreationRefusal(n).Some? then Refuses(result, db, CreationRefusal(n).value)
            else if |db.disk| == 0 || !db.disk[0] then
              result.0.records == db.records && result.1 == Failed(InternalFailure)
            else
              var m := Taken(db.disk[1..], |n.tags|);
              && HoldsKey(result.0.records, arn) && IsNewRecord(cfg, n, result.0.records[arn].key)
              && AllAcceptable(n.tags)
              && TagsStored(db.records[arn := result.0.records[arn]], result.0.records, arn, n.tags, 0, m)
              && result.1 == if m == |n.tags| then Done(arn) else Failed(InternalFailure)
  {
    CreationRefusals(n);
    TagChecks(n.tags);
    if CreateRejected(n).None? && WriteSucceeds(db) {
      var k := InitialKey(cfg, n);
      InitialRecord(cfg, n);
      assert SaveAllowed(k);
      var saved := SavedKey(db, k).0;
      var m := Taken(db.disk[1..], |n.tags|);
      SavedTagsExactly(saved, k.meta.arn, n.tags, 0);
      NoTagHasKeyName(k.meta.arn, n.tags, m);
      assert SameRecord(saved.records, SavedTags(saved, k.meta.arn, n.tags, 0).0.records, k.meta.arn);
    }
  }

  lemma NoTagHasKeyName(arn: Bytes, tags: seq<TagInput>, e: nat)
    requires e <= |tags| && AllAcceptable(tags)
    ensures !AmongTags(arn, tags, 0, e, arn)
  {
    forall j | 0 <= j < e ensures arn != arn + "/tag/" + KeyAt(tags, j) {
      assert |arn + "/tag/" + KeyAt(tags, j)| > |arn|;
    }
  }

  //----------------------------------------------------------------------------------------
  // Aliases

  predicate NameCharacters(name: Bytes) {
    forall i | 6 <= i < |name| ::
      name[i] in {'/', '_', '-'} || 'a' <= name[i] <= 'z' || 'A' <= name[i] <= 'Z' || '0' <= name[i] <= '9'
  }

  function NewAliasRefusal(name: Bytes, target: Bytes): Option<Error> {
    if |name| < 7 || !Begins(name, "alias/") || !NameCharacters(name) then Some(InvalidAliasName)
    else if Begins(name, "alias/aws/") then Some(NotAuthorized)
    else if |name| > 256 || Begins(target, "alias/") then Some(Validation)
    else None
  }

  lemma CreateAliasExactly(cfg: Config, db: Db, name: Bytes, target: Bytes, env: Env)
    ensures var result := AliasCreated(cfg, db, name, target, env);
            var loaded := LoadedKey(db, EnsureArn(cfg, KEY, target), env.now, env.year, env.firstDraw);
            var n := FullArn(cfg, "", name);
            if NewAliasRefusal(name, target).Some? then Refuses(result, db, NewAliasRefusal(name, target).value)
            else if loaded.1 == None then Refuses(result, loaded.0, NotFound)
            else if loaded.1.value.meta.deletionDate > 0 then Refuses(result, loaded.0, InvalidState)
            else if n in loaded.0.records then Refuses(result, loaded.0, AlreadyExists)
            else
              var at := env.now / 1_000_000_000;
              Stores(result, loaded.0, n, AliasRec(Alias(n, name, loaded.1.value.meta.keyId, at, at)), n)
  {
    assert ArnPrefix(cfg) + name == FullArn(cfg, "", name);
    assert ValidAliasName(name) <==> |name| >= 7 && Begins(name, "alias/") && NameCharacters(name);
  }

  /** The two keys of an update match, and the new one is not about to be deleted. */
  function RetargetRefusal(original: KeyRecord, target: KeyRecord): Option<Error> {
    if original.meta.keyUsage != target.meta.keyUsage then Some(Validation)
    else if original.keyType != target.keyType then Some(Validation)
    else if target.meta.deletionDate > 0 then Some(InvalidState)
    else None
  }

  /** The original key is loaded first and the new one from the store that leaves; the alias record
      is the one that was there before. */
  lemma UpdateAliasExactly(cfg: Config, db: Db, name: Bytes, target: Bytes, env: Env)
    requires AllNamed(cfg, db.records) && ValidConfig(cfg)
    ensures var result := AliasUpdated(cfg, db, name, target, env);
            var n := FullArn(cfg, "", name);
            if !Begins(name, "alias/") then Refuses(result, db, Validation)
            else if Begins(name, "alias/aws") then Refuses(result, db, NotAuthorized)
            else if |name| > 256 then Refuses(result, db, Validation)
            else if n !in db.records then Refuses(result, db, NotFound)
            else
              db.records[n].AliasRec? && Updates(cfg, db, result, db.records[n].alias, n, target, env)
  {
    assert ArnPrefix(cfg) + name == FullArn(cfg, "", name);
    if Begins(name, "alias/") {
      RecordUnderName(cfg, db.records, AliasSubject(name));
    }
  }

  predicate Updates(cfg: Config, db: Db, result: (Db, Response), a: Alias, n: Bytes, target: Bytes, env: Env) {
    var first := LoadedKey(db, EnsureArn(cfg, KEY, a.targetKeyId), env.now, env.year, env.firstDraw);
    var second := LoadedKey(first.0, EnsureArn(cfg, KEY, target), env.now, env.year, env.secondDraw);
    if first.1 == None then Refuses(result, first.0, InternalFailure)
    else if second.1 == None then Refuses(result, second.0, NotFound)
    else if RetargetRefusal(first.1.value, second.1.value).Some? then
      Refuses(result, second.0, RetargetRefusal(first.1.value, second.1.value).value)
    else
      Stores(result, second.0, n,
             AliasRec(Alias(n, a.aliasName, second.1.value.meta.keyId, a.creationDate, env.now / 1_000_000_000)), n)
  }

  lemma DeleteAliasExactly(cfg: Config, db: Db, name: Bytes)
    ensures var result := AliasDeleted(cfg, db, name);
            var n := FullArn(cfg, "", name);
            if !Begins(name, "alias/") then Refuses(result, db, Validation)
            else if Begins(name, "alias/aws/") then Refuses(result, db, InvalidState)
            else if n !in db.records then Refuses(result, db, NotFound)
            else Removes(result, db, n, n)
  {
    assert ArnPrefix(cfg) + name == FullArn(cfg, "", name);
  }

  /** From the creation on, the alias and the id of its key lead to the same key. */
  lemma CreatedAliasLeads(cfg: Config, db: Db, name: Bytes, target: Bytes, env: Env)
    requires ValidConfig(cfg) && AliasCreated(cfg, db, name, target, env).1.Done?
    ensures var db' := AliasCreated(cfg, db, name, target, env).0;
            var loaded := LoadedKey(db, EnsureArn(cfg, KEY, target), env.now, env.year, env.firstDraw);
            && loaded.1.Some?
            && (PlainId(loaded.1.value.meta.keyId) ==>
                  ResolvedName(cfg, db', name) == ResolvedName(cfg, db', loaded.1.value.meta.keyId)
                  == Some(FullArn(cfg, "key/", loaded.1.value.meta.keyId)))
  {
    CreateAliasExactly(cfg, db, name, target, env);
    var loaded := LoadedKey(db, EnsureArn(cfg, KEY, target), env.now, env.year, env.firstDraw);
    var db' := AliasCreated(cfg, db, name, target, env).0;
    AliasLeadsToTarget(cfg, db', name);
    if PlainId(loaded.1.value.meta.keyId) {
      IdLeadsToKey(cfg, db', loaded.1.value.meta.keyId);
    }
  }

  lemma DeletedAliasLeadsNowhere(cfg: Config, db: Db, name: Bytes)
    requires AliasDeleted(cfg, db, name).1.Done?
    ensures ResolvedName(cfg, AliasDeleted(cfg, db, name).0, name) == None
  {
    DeleteAliasExactly(cfg, db, name);
    AliasLeadsToTarget(cfg, AliasDeleted(cfg, db, name).0, name);
  }

  //----------------------------------------------------------------------------------------
  // Grants

  lemma CreateGrantExactly(cfg: Config, db: Db, keyId: Bytes, template: Grant, env: Env)
    ensures var result := GrantCreated(cfg, db, keyId, template, env);
            var (db1, k) := GotKey(cfg, db, keyId, env.now, env.year, env.firstDraw);
            if k == None then Refuses(result, db1, NotFound)
            else if k.value.meta.deletionDate > 0 then Refuses(result, db1, InvalidState)
            else
              Stores(result, db1, "grant/" + template.grantId, GrantRec(template.(keyArn := k.value.meta.arn)),
                     k.value.meta.arn)
  {
  }

  /** A grant is revoked only by its own key. */
  lemma RevokeGrantExactly(cfg: Config, db: Db, keyId: Bytes, grantId: Bytes, env: Env)
    requires ValidConfig(cfg) && AllNamed(cfg, db.records) && env.year >= MIN_YEAR
    ensures var result := GrantRevoked(cfg, db, keyId, grantId, env);
            var (db1, k) := GotKey(cfg, db, keyId, env.now, env.year, env.firstDraw);
            var n := "grant/" + grantId;
            if k == None || n !in db1.records then Refuses(result, db1, NotFound)
            else
              db1.records[n].GrantRec? &&
              var g := db1.records[n].grant;
              if g.keyArn != k.value.meta.arn then Refuses(result, db1, NotFound)
              else Removes(result, db1, n, g.keyArn)
  {
    GetKeyStep(cfg, db, keyId, Quiet(env), env.year, env.firstDraw);
    var db1 := GotKey(cfg, db, keyId, env.now, env.year, env.firstDraw).0;
    RecordUnderName(cfg, db1.records, GrantSubject(grantId));
  }

  /** A stored grant that carries the token and, unless they are empty, is the named one and belongs
      to the named key is deleted. The result of the search is left open if several carry it. */
  ghost predicate Retires(cfg: Config, db: Db, result: (Db, Response), g: Grant, token: Bytes, grantId: Bytes,
                          keyId: Bytes, env: Env)
  {
    var n := "grant/" + g.grantId;
    && n in db.records && db.records[n] == GrantRec(g) && g.grantToken == token
    && (if grantId != [] && g.grantId != grantId then Refuses(result, db, NotFound)
        else if keyId == [] then Removes(result, db, n, g.keyArn)
        else
          var (db1, k) := GotKey(cfg, db, keyId, env.now, env.year, env.firstDraw);
          if k == None || g.keyArn != k.value.meta.arn then Refuses(result, db1, NotFound)
          else Removes(result, db1, n, g.keyArn))
  }

  lemma RetireGrantExactly(cfg: Config, db: Db, token: Bytes, grantId: Bytes, keyId: Bytes, env: Env)
    requires ValidConfig(cfg) && AllNamed(cfg, db.records)
    ensures var result := GrantRetired(cfg, db, token, grantId, keyId, env);
            if forall n | n in db.records && db.records[n].GrantRec? :: db.records[n].grant.grantToken != token then
              Refuses(result, db, NotFound)
            else exists g :: Retires(cfg, db, result, g, token, grantId, keyId, env)
  {
    var found := GrantByToken(NamesWithPrefix(db.records, GRANT), 0, db.records, token);
    TokenFindsGrant(cfg, db.records, token);
    if found.Some? {
      assert GrantName(found.value.grantId) == "grant/" + found.value.grantId;
      var result := GrantRetired(cfg, db, token, grantId, keyId, env);
      assert Retires(cfg, db, result, found.value, token, grantId, keyId, env);
    }
  }
}
