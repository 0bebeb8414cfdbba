/** What was issued stays good: every ciphertext of an AES key, whatever request issues it, and
    every MAC, over every admissible run with any pattern of failing writes. */
module Issued {
  import opened Wrappers
  import opened ByteStrings
  import opened Names
  import opened Crypto
  import opened Ciphertext
  import opened Keys
  import opened Lifecycle
  import opened Store
  import opened Requests
  import opened KeyHistory
  import opened StoreHistory
  import opened Runs
  import opened Safety

  /** `blob` is an AES encryption of `plaintext` under `context` by backing key number `version`
      of the key stored under `arn`. */
  ghost predicate SealedAs(c: Suite, records: map<Bytes, Record>, arn: Bytes, blob: Bytes, plaintext: Bytes,
                           context: map<Bytes, Bytes>, version: nat, nonce: Nonce)
  {
    && HoldsKey(records, arn)
    && var k := records[arn].key;
       && k.keyType == Aes && k.meta.arn == arn && version < |k.backingKeys|
       && Pack(Unpacked(arn, version, nonce + c.seal(k.backingKeys[version], nonce, plaintext, ContextBytes(context))))
          == Ok(blob)
  }

  ghost predicate Sealed(c: Suite, records: map<Bytes, Record>, arn: Bytes, blob: Bytes, plaintext: Bytes,
                         context: map<Bytes, Bytes>)
  {
    exists version: nat, nonce: Nonce :: SealedAs(c, records, arn, blob, plaintext, context, version, nonce)
  }

  /** Sealed by the last of the backing keys, under its number. */
  ghost predicate SealedByLast(c: Suite, records: map<Bytes, Record>, arn: Bytes, blob: Bytes, plaintext: Bytes,
                               context: map<Bytes, Bytes>)
  {
    && HoldsKey(records, arn)
    && exists version: nat, nonce: Nonce ::
         SealedAs(c, records, arn, blob, plaintext, context, version, nonce)
         && version == |records[arn].key.backingKeys| - 1
  }

  /** If `arn` names an AES key, the blob is sealed under its last backing key. */
  ghost predicate SealedIfAes(c: Suite, records: map<Bytes, Record>, arn: Bytes, blob: Bytes, plaintext: Bytes,
                              context: map<Bytes, Bytes>)
  {
    && HoldsKey(records, arn)
    && (records[arn].key.keyType == Aes ==> SealedByLast(c, records, arn, blob, plaintext, context))
  }

  //----------------------------------------------------------------------------------------
  // What is issued is sealed under a stored key

  /** What PackagedCiphertext returns for a key just handed out is sealed by the last backing key
      in the stored record, at the version the blob carries. */
  lemma PackagedIsSealed(c: Suite, records: map<Bytes, Record>, k: KeyRecord, plaintext: Bytes,
                         context: map<Bytes, Bytes>, nonce: Nonce)
    requires HandedOut(records, k) && k.keyType == Aes
    requires PackagedCiphertext(c, k, plaintext, context, nonce).Ok?
    ensures SealedByLast(c, records, k.meta.arn, PackagedCiphertext(c, k, plaintext, context, nonce).result,
                         plaintext, context)
  {
    var blob := PackagedCiphertext(c, k, plaintext, context, nonce).result;
    assert SealedAs(c, records, k.meta.arn, blob, plaintext, context, |k.backingKeys| - 1, nonce);
  }

  /** Any key that getUsableKey hands out, whichever writes fail, seals under a stored backing key. */
  lemma UsableKeySeals(c: Suite, cfg: Config, db: Db, keyId: Bytes, env: Env, drawn: Bytes, plaintext: Bytes,
                       context: map<Bytes, Bytes>)
    requires AllNamed(cfg, db.records) && env.year >= MIN_YEAR
    ensures var (db', got) := GotUsableKey(cfg, db, keyId, env.now, env.year, drawn);
            got.Usable? ==>
              && HoldsKey(db'.records, got.key.meta.arn)
              && db'.records[got.key.meta.arn].key.keyType == got.key.keyType
              && (got.key.keyType == Aes && PackagedCiphertext(c, got.key, plaintext, context, env.nonce).Ok? ==>
                    SealedByLast(c, db'.records, got.key.meta.arn,
                                 PackagedCiphertext(c, got.key, plaintext, context, env.nonce).result,
                                 plaintext, context))
  {
    var (db', got) := GotUsableKey(cfg, db, keyId, env.now, env.year, drawn);
    UsableKeyStep(cfg, db, keyId, Quiet(env), env.year, drawn);
    if got.Usable? && got.key.keyType == Aes && PackagedCiphertext(c, got.key, plaintext, context, env.nonce).Ok? {
      PackagedIsSealed(c, db'.records, got.key, plaintext, context, env.nonce);
    }
  }

  /** The answers that carry a ciphertext. */
  predicate IssuesBlob(r: Response) {
    r.Encrypted? || r.DataKeyIssued? || r.ReEncrypted?
  }

  /** A ciphertext in the answer encrypts this text under this context, by a key in the store. */
  ghost predicate BlobSealed(c: Suite, result: (Db, Response), text: Bytes, context: map<Bytes, Bytes>) {
    IssuesBlob(result.1) ==> SealedIfAes(c, result.0.records, result.1.keyArn, result.1.blob, text, context)
  }

  lemma EncryptSeals(c: Suite, cfg: Config, db: Db, keyId: Bytes, plaintext: Bytes, context: map<Bytes, Bytes>,
                     a: EncryptionAlgorithm, env: Env)
    requires AllNamed(cfg, db.records) && env.year >= MIN_YEAR
    ensures BlobSealed(c, EncryptResult(c, cfg, db, keyId, plaintext, context, a, env), plaintext, context)
  {
    UsableKeySeals(c, cfg, db, keyId, env, env.firstDraw, plaintext, context);
  }

  lemma EncryptIssuesSealed(c: Suite, cfg: Config, s: System, e: Event)
    requires Inv(cfg, s) && Admissible(cfg, s, e) && e.request.Encrypt? && Answer(c, cfg, s, e).Encrypted?
    ensures |e.request.plaintext| <= 4096
    ensures SealedIfAes(c, Next(c, cfg, s, e).db.records, Answer(c, cfg, s, e).keyArn, Answer(c, cfg, s, e).blob,
                        e.request.plaintext, e.request.context)
  {
    var r := e.request;
    EncryptSeals(c, cfg, s.db, r.keyId, r.plaintext, r.context, r.algorithm, e.env);
  }

  lemma DataKeySeals(c: Suite, cfg: Config, db: Db, keyId: Bytes, secret: Bytes, context: map<Bytes, Bytes>, env: Env)
    requires AllNamed(cfg, db.records) && env.year >= MIN_YEAR
    ensures BlobSealed(c, DataKeyResult(c, cfg, db, keyId, secret, context, env), secret, context)
  {
    UsableKeySeals(c, cfg, db, keyId, env, env.firstDraw, secret, context);
  }

  lemma EncryptAgainSeals(c: Suite, cfg: Config, db: Db, re: ReEncryption, source: KeyRecord, plaintext: Bytes,
                          env: Env)
    requires AllNamed(cfg, db.records) && env.year >= MIN_YEAR
    ensures BlobSealed(c, EncryptedAgain(c, cfg, db, re, source, plaintext, env), plaintext, re.destinationContext)
  {
    UsableKeySeals(c, cfg, db, re.destinationKeyId, env, env.secondDraw, plaintext, re.destinationContext);
  }

  /** The text that ReEncrypt goes on with once the source key is loaded. */
  ghost function TextOf(c: Suite, cfg: Config, db: Db, re: ReEncryption, env: Env): Response {
    match SourceFields(re.blob)
    case Ok(u) =>
      var sourceId := if re.sourceKeyId.Some? then re.sourceKeyId.value else u.ident;
      var source := GotUsableKey(cfg, db, sourceId, env.now, env.year, env.firstDraw).1;
      if source.Unusable? then Failed(source.error) else SourceText(c, source.key, re, u)
    case _ => Panicked
  }

  ghost function ReEncryptedText(c: Suite, cfg: Config, db: Db, re: ReEncryption, env: Env): Bytes {
    var t := TextOf(c, cfg, db, re, env);
    if t.Decrypted? then t.plaintext else []
  }

  lemma FromSourceAnswers(c: Suite, cfg: Config, db: Db, re: ReEncryption, source: KeyRecord, u: Unpacked, env: Env)
    ensures var answer := ReEncryptedFrom(c, cfg, db, re, source, u, env).1; IssuesBlob(answer) ==> answer.ReEncrypted?
  {
  }

  lemma ReEncryptAnswers(c: Suite, cfg: Config, db: Db, re: ReEncryption, env: Env)
    requires IssuesBlob(ReEncryptResult(c, cfg, db, re, env).1)
    ensures ReEncryptResult(c, cfg, db, re, env).1.ReEncrypted? && SourceFields(re.blob).Ok?
  {
    var u := SourceFields(re.blob).result;
    var sourceId := if re.sourceKeyId.Some? then re.sourceKeyId.value else u.ident;
    var source := GotUsableKey(cfg, db, sourceId, env.now, env.year, env.firstDraw);
    if source.1.Usable? {
      FromSourceAnswers(c, cfg, source.0, re, source.1.key, u, env);
    }
  }

  /** ReEncrypt from any source, RSA included, into an AES key. */
  lemma ReEncryptSeals(c: Suite, cfg: Config, db: Db, re: ReEncryption, env: Env)
    requires AllNamed(cfg, db.records) && env.year >= MIN_YEAR
    ensures BlobSealed(c, ReEncryptResult(c, cfg, db, re, env), ReEncryptedText(c, cfg, db, re, env),
                       re.destinationContext)
  {
    if IssuesBlob(ReEncryptResult(c, cfg, db, re, env).1) {
      ReEncryptAnswers(c, cfg, db, re, env);
      var u := SourceFields(re.blob).result;
      var sourceId := if re.sourceKeyId.Some? then re.sourceKeyId.value else u.ident;
      var source := GotUsableKey(cfg, db, sourceId, env.now, env.year, env.firstDraw);
      ReEncryptUnfolds(c, cfg, db, re, u, env);
      UsableKeyStep(cfg, db, sourceId, Quiet(env), env.year, env.firstDraw);
      FromSourceSeals(c, cfg, source.0, re, source.1.key, u, env);
    }
  }

  lemma FromSourceSeals(c: Suite, cfg: Config, db: Db, re: ReEncryption, source: KeyRecord, u: Unpacked, env: Env)
    requires AllNamed(cfg, db.records) && env.year >= MIN_YEAR
    requires ReEncryptedFrom(c, cfg, db, re, source, u, env).1.ReEncrypted?
    ensures SourceText(c, source, re, u).Decrypted?
    ensures BlobSealed(c, ReEncryptedFrom(c, cfg, db, re, source, u, env), SourceText(c, source, re, u).plaintext,
                       re.destinationContext)
  {
    var text := SourceText(c, source, re, u);
    assert text.Decrypted?;
    EncryptAgainSeals(c, cfg, db, re, source, text.plaintext, env);
  }

  /** The context a request encrypts under. */
  function ContextOf(r: Request): map<Bytes, Bytes> {
    match r
    case Encrypt(_, _, context, _) => context
    case GenerateDataKey(_, _, context) => context
    case ReEncrypt(re) => re.destinationContext
    case _ => map[]
  }

  /** The text a request that issues a blob encrypts. */
  ghost function IssuedText(c: Suite, cfg: Config, db: Db, r: Request, env: Env): Bytes {
    match r
    case Encrypt(_, plaintext, _, _) => plaintext
    case GenerateDataKey(_, secret, _) => secret
    case ReEncrypt(re) => ReEncryptedText(c, cfg, db, re, env)
    case _ => []
  }

  /** Whichever writes fail, and whatever the request that issues it, a blob of an AES key is only
      ever issued under the last backing key that is in the stored record, at its version. */
  lemma EveryBlobIsSealed(c: Suite, cfg: Config, s: System, e: Event)
    requires Inv(cfg, s) && Admissible(cfg, s, e) && IssuesBlob(Answer(c, cfg, s, e))
    ensures SealedIfAes(c, Next(c, cfg, s, e).db.records, Answer(c, cfg, s, e).keyArn, Answer(c, cfg, s, e).blob,
                        IssuedText(c, cfg, s.db, e.request, e.env), ContextOf(e.request))
  {
    BlobOfRequest(c, cfg, s.db, e.request, e.env);
  }

  /** What the blob carries, as its reader sees it: the ARN, the number of the last stored backing
      key, a nonce, and the text sealed by that key. */
  lemma BlobCarriesLastVersion(c: Suite, cfg: Config, s: System, e: Event)
    requires Inv(cfg, s) && Admissible(cfg, s, e) && IssuesBlob(Answer(c, cfg, s, e))
    requires |Answer(c, cfg, s, e).keyArn| <= 250
    ensures var r, arn := Next(c, cfg, s, e).db.records, Answer(c, cfg, s, e).keyArn;
            HoldsKey(r, arn) &&
            (r[arn].key.keyType == Aes ==>
               CarriesLast(c, r[arn].key.backingKeys, arn, Answer(c, cfg, s, e).blob,
                           IssuedText(c, cfg, s.db, e.request, e.env), ContextOf(e.request)))
  {
    var r, arn := Next(c, cfg, s, e).db.records, Answer(c, cfg, s, e).keyArn;
    EveryBlobIsSealed(c, cfg, s, e);
    if r[arn].key.keyType == Aes {
      LastIsCarried(c, r, arn, Answer(c, cfg, s, e).blob, IssuedText(c, cfg, s.db, e.request, e.env),
                    ContextOf(e.request));
    }
  }

  ghost predicate CarriesLast(c: Suite, keys: seq<Bytes>, arn: Bytes, blob: Bytes, text: Bytes,
                              context: map<Bytes, Bytes>)
  {
    exists nonce: Nonce :: CarriesUnder(c, keys, arn, blob, text, context, nonce)
  }

  ghost predicate CarriesUnder(c: Suite, keys: seq<Bytes>, arn: Bytes, blob: Bytes, text: Bytes,
                               context: map<Bytes, Bytes>, nonce: Nonce)
  {
    keys != [] &&
    var last := |keys| - 1;
    UnpackCiphertextBlob(blob) ==
    Ok(Unpacked(arn, last, nonce + c.seal(keys[last], nonce, text, ContextBytes(context))))
  }

  lemma LastIsCarried(c: Suite, r: map<Bytes, Record>, arn: Bytes, blob: Bytes, text: Bytes, context: map<Bytes, Bytes>)
    requires SealedByLast(c, r, arn, blob, text, context) && |arn| <= 250
    ensures CarriesLast(c, r[arn].key.backingKeys, arn, blob, text, context)
  {
    var keys := r[arn].key.backingKeys;
    var version: nat, nonce: Nonce :| SealedAs(c, r, arn, blob, text, context, version, nonce) && version == |keys| - 1;
    UnpackOfPack(Unpacked(arn, |keys| - 1, nonce + c.seal(keys[|keys| - 1], nonce, text, ContextBytes(context))));
    assert CarriesUnder(c, keys, arn, blob, text, context, nonce);
  }

  lemma BlobOfRequest(c: Suite, cfg: Config, db: Db, r: Request, env: Env)
    requires AllNamed(cfg, db.records) && env.year >= MIN_YEAR
    ensures BlobSealed(c, Handle(c, cfg, db, r, env), IssuedText(c, cfg, db, r, env), ContextOf(r))
  {
    match r
    case Encrypt(keyId, plaintext, context, a) => EncryptSeals(c, cfg, db, keyId, plaintext, context, a, env);
    case GenerateDataKey(keyId, secret, context) => DataKeySeals(c, cfg, db, keyId, secret, context, env);
    case ReEncrypt(re) => ReEncryptSeals(c, cfg, db, re, env);
    case _ => OthersIssueNothing(c, cfg, db, r, env);
  }

  lemma OthersIssueNothing(c: Suite, cfg: Config, db: Db, r: Request, env: Env)
    requires !r.Encrypt? && !r.GenerateDataKey? && !r.ReEncrypt?
    ensures !IssuesBlob(Handle(c, cfg, db, r, env).1)
  {
    match r
    case CreateKey(_) =>
    case ChangeKey(keyId, op) => ChangeIssuesNothing(c, cfg, db, keyId, op, env);
    case Describe(_) =>
    case DescribeById(_) =>
    case ListKeys(_, _) =>
    case Decrypt(keyId, blob, context, a) => DecryptIssuesNothing(c, cfg, db, keyId, blob, context, a, env);
    case GenerateMac(keyId, message, a) => MacsIssueNothing(c, cfg, db, keyId, message, [], a, env);
    case VerifyMac(keyId, message, mac, a) => MacsIssueNothing(c, cfg, db, keyId, message, mac, a, env);
    case TagResource(keyId, tags) => TagsIssueNothing(cfg, db, keyId, tags, [], env);
    case UntagResource(keyId, tagKeys) => TagsIssueNothing(cfg, db, keyId, [], tagKeys, env);
    case _ => OtherRecordsIssueNothing(c, cfg, db, r, env);
  }

  lemma ChangeIssuesNothing(c: Suite, cfg: Config, db: Db, keyId: Bytes, op: KeyOp, env: Env)
    ensures !IssuesBlob(KeyChanged(c, cfg, db, keyId, op, env).1)
  {
  }

  lemma PlaintextIsNoBlob(c: Suite, k: KeyRecord, version: nat, ciphertext: Bytes, context: map<Bytes, Bytes>,
                          a: EncryptionAlgorithm)
    ensures !IssuesBlob(DecryptedUnder(c, k, version, ciphertext, context, a))
  {
  }

  lemma KeyIdDecryptIssuesNothing(c: Suite, cfg: Config, db: Db, keyId: Bytes, blob: Bytes, context: map<Bytes, Bytes>,
                                  a: EncryptionAlgorithm, env: Env)
    ensures !IssuesBlob(DecryptWithKeyId(c, cfg, db, keyId, blob, context, a, env).1)
  {
    var got := GotUsableKey(cfg, db, keyId, env.now, env.year, env.firstDraw);
    if got.1.Usable? {
      PlaintextIsNoBlob(c, got.1.key, 0, blob, context, a);
      if UnpackCiphertextBlob(blob).Ok? {
        var u := UnpackCiphertextBlob(blob).result;
        PlaintextIsNoBlob(c, got.1.key, u.version, u.ciphertext, context, a);
      }
    }
  }

  lemma DecryptIssuesNothing(c: Suite, cfg: Config, db: Db, keyId: Option<Bytes>, blob: Bytes,
                             context: map<Bytes, Bytes>, a: EncryptionAlgorithm, env: Env)
    ensures !IssuesBlob(DecryptResult(c, cfg, db, keyId, blob, context, a, env).1)
  {
    if keyId.Some? {
      KeyIdDecryptIssuesNothing(c, cfg, db, keyId.value, blob, context, a, env);
    } else if UnpackCiphertextBlob(blob).Ok? {
      var u := UnpackCiphertextBlob(blob).result;
      var got := GotUsableKey(cfg, db, u.ident, env.now, env.year, env.firstDraw);
      if got.1.Usable? {
        PlaintextIsNoBlob(c, got.1.key, u.version, u.ciphertext, context, a);
      }
    }
  }

  lemma MacsIssueNothing(c: Suite, cfg: Config, db: Db, keyId: Bytes, message: Bytes, mac: Bytes, a: MacAlgorithm,
                         env: Env)
    ensures !IssuesBlob(GenerateMacResult(c, cfg, db, keyId, message, a, env).1)
    ensures !IssuesBlob(VerifyMacResult(c, cfg, db, keyId, message, mac, a, env).1)
  {
  }

  lemma TagsIssueNothing(cfg: Config, db: Db, keyId: Bytes, tags: seq<TagInput>, tagKeys: seq<Bytes>, env: Env)
    ensures !IssuesBlob(ResourceTagged(cfg, db, keyId, tags, env).1)
    ensures !IssuesBlob(ResourceUntagged(cfg, db, keyId, tagKeys, env).1)
  {
  }

  lemma OtherRecordsIssueNothing(c: Suite, cfg: Config, db: Db, r: Request, env: Env)
    requires r.CreateAlias? || r.UpdateAlias? || r.DeleteAlias? || r.CreateGrant? || r.RevokeGrant? || r.RetireGrant?
    ensures !IssuesBlob(Handle(c, cfg, db, r, env).1)
  {
  }

  //----------------------------------------------------------------------------------------
  // Decrypt

  /** A sealed blob stays sealed as long as its key exists. */
  lemma SealedForever(c: Suite, cfg: Config, s: System, es: seq<Event>, arn: Bytes, blob: Bytes, plaintext: Bytes,
                       context: map<Bytes, Bytes>)
    requires Inv(cfg, s) && AdmissibleRun(c, cfg, s, es)
    requires Sealed(c, s.db.records, arn, blob, plaintext, context) && Holds(Run(c, cfg, s, es), arn)
    ensures Sealed(c, Run(c, cfg, s, es).db.records, arn, blob, plaintext, context)
  {
    var version: nat, nonce: Nonce :| SealedAs(c, s.db.records, arn, blob, plaintext, context, version, nonce);
    RunOnlyExtends(c, cfg, s, es, arn);
    var k, k' := KeyIn(s, arn), KeyIn(Run(c, cfg, s, es), arn);
    assert k'.backingKeys[version] == k.backingKeys[..][version];
    assert SealedAs(c, Run(c, cfg, s, es).db.records, arn, blob, plaintext, context, version, nonce);
  }

  /** The exact size of a sealed blob; for plaintexts up to the 4096 bytes that Encrypt takes it is
      below what Decrypt and ReEncrypt accept. */
  lemma BlobSize(c: Suite, records: map<Bytes, Record>, arn: Bytes, blob: Bytes, plaintext: Bytes,
                 context: map<Bytes, Bytes>)
    requires Lawful(c) && Sealed(c, records, arn, blob, plaintext, context)
    ensures |arn| <= 255 && |blob| == |arn| + |plaintext| + 33
    ensures |plaintext| <= 4096 ==> |blob| <= 4384 <= MAX_BLOB
  {
    var version: nat, nonce: Nonce :| SealedAs(c, records, arn, blob, plaintext, context, version, nonce);
  }

  /** Reading a sealed blob back with its key as handed out from a store reached later. */
  lemma SealedOpens(c: Suite, r: map<Bytes, Record>, arn: Bytes, blob: Bytes, plaintext: Bytes,
                     context: map<Bytes, Bytes>, r': map<Bytes, Record>, k: KeyRecord)
    requires Lawful(c) && Sealed(c, r, arn, blob, plaintext, context) && |arn| <= 250
    requires HandedOut(r', k) && k.meta.arn == arn && Grows(r[arn].key, r'[arn].key)
    ensures UnpackCiphertextBlob(blob).Ok? && k.keyType == Aes
    ensures var u := UnpackCiphertextBlob(blob).result;
            DecryptedText(c, k, u.version, u.ciphertext, context) ==
            if |k.backingKeys| > MAX_UINT32 then Panic else Ok(plaintext)
  {
    var version: nat, nonce: Nonce :| SealedAs(c, r, arn, blob, plaintext, context, version, nonce);
    var keys := r[arn].key.backingKeys;
    var sealed := c.seal(keys[version], nonce, plaintext, ContextBytes(context));
    var u := Unpacked(arn, version, nonce + sealed);
    UnpackOfPack(u);
    assert u.ciphertext[..NONCE_SIZE] == nonce && u.ciphertext[NONCE_SIZE..] == sealed;
    assert k.backingKeys[version] == keys[version];
  }

  /** The answer for a sealed blob once a usable key is at hand. */
  function SealedAnswer(arn: Bytes, plaintext: Bytes, k: KeyRecord): Response {
    if |k.backingKeys| > MAX_UINT32 then Panicked else Decrypted(arn, plaintext)
  }

  /** A usable key with the blob's ARN opens the blob, after whatever the load did to it. */
  lemma UsableKeyOpens(c: Suite, cfg: Config, s: System, env: Env, keyId: Bytes, drawn: Bytes, arn: Bytes, blob: Bytes,
                       plaintext: Bytes, context: map<Bytes, Bytes>, a: EncryptionAlgorithm)
    requires Lawful(c) && Inv(cfg, s) && env.year >= MIN_YEAR && |arn| <= 250
    requires Sealed(c, s.db.records, arn, blob, plaintext, context)
    ensures UnpackCiphertextBlob(blob).Ok? && UnpackCiphertextBlob(blob).result.ident == arn
    ensures var u, got := UnpackCiphertextBlob(blob).result, GotUsableKey(cfg, s.db, keyId, env.now, env.year, drawn).1;
            got.Usable? && got.key.meta.arn == arn ==>
              got.key.keyType == Aes &&
              DecryptedUnder(c, got.key, u.version, u.ciphertext, context, a) == SealedAnswer(arn, plaintext, got.key)
  {
    SealedUnpacks(c, s.db.records, arn, blob, plaintext, context);
    var got := GotUsableKey(cfg, s.db, keyId, env.now, env.year, drawn);
    UsableKeyStep(cfg, s.db, keyId, Quiet(env), env.year, drawn);
    if got.1.Usable? && got.1.key.meta.arn == arn {
      SealedOpens(c, s.db.records, arn, blob, plaintext, context, got.0.records, got.1.key);
    }
  }

  lemma SealedUnpacks(c: Suite, r: map<Bytes, Record>, arn: Bytes, blob: Bytes, plaintext: Bytes,
                      context: map<Bytes, Bytes>)
    requires Sealed(c, r, arn, blob, plaintext, context)
    ensures |arn| > 250 ==> UnpackCiphertextBlob(blob) == Panic
    ensures |arn| <= 250 ==> UnpackCiphertextBlob(blob).Ok? && UnpackCiphertextBlob(blob).result.ident == arn
  {
    var version: nat, nonce: Nonce :| SealedAs(c, r, arn, blob, plaintext, context, version, nonce);
    var sealed := c.seal(r[arn].key.backingKeys[version], nonce, plaintext, ContextBytes(context));
    UnpackOfPack(Unpacked(arn, version, nonce + sealed));
  }

  lemma BlobDecrypts(c: Suite, cfg: Config, s: System, blob: Bytes, context: map<Bytes, Bytes>, a: EncryptionAlgorithm,
                     env: Env, arn: Bytes, plaintext: Bytes)
    requires Lawful(c) && Inv(cfg, s) && env.year >= MIN_YEAR
    requires Sealed(c, s.db.records, arn, blob, plaintext, context)
    ensures var got := GotUsableKey(cfg, s.db, arn, env.now, env.year, env.firstDraw).1;
            DecryptByBlob(c, cfg, s.db, blob, context, a, env).1 ==
            if |arn| > 250 then Panicked
            else if got.Unusable? then Failed(AccessDenied)
            else SealedAnswer(arn, plaintext, got.key)
  {
    SealedUnpacks(c, s.db.records, arn, blob, plaintext, context);
    if |arn| <= 250 {
      UsableKeyOpens(c, cfg, s, env, arn, env.firstDraw, arn, blob, plaintext, context, a);
      ArnResolvesToItself(cfg, s.db, arn, env);
    }
  }

  /** Decrypt of a sealed blob without a KeyId: exactly what it answers. It returns the
      plaintext and the ARN whenever the key is usable, up to 250-byte ARNs; the longer ones
      that Encrypt accepts make it panic. Only texts that no Encrypt takes make a blob too long. */
  lemma DecryptSealed(c: Suite, cfg: Config, s: System, e: Event, arn: Bytes, plaintext: Bytes)
    requires Lawful(c) && Inv(cfg, s) && Admissible(cfg, s, e)
    requires e.request.Decrypt? && e.request.optionalKeyId.None?
    requires Sealed(c, s.db.records, arn, e.request.blob, plaintext, e.request.context)
    ensures var got := GotUsableKey(cfg, s.db, arn, e.env.now, e.env.year, e.env.firstDraw).1;
            Answer(c, cfg, s, e) ==
            if |e.request.blob| > MAX_BLOB then Failed(Validation)
            else if |arn| > 250 then Panicked
            else if got.Unusable? then Failed(AccessDenied)
            else SealedAnswer(arn, plaintext, got.key)
  {
    BlobSize(c, s.db.records, arn, e.request.blob, plaintext, e.request.context);
    BlobDecrypts(c, cfg, s, e.request.blob, e.request.context, e.request.algorithm, e.env, arn, plaintext);
  }

  /** Asking for a stored key by its ARN gets that key. */
  lemma ArnResolvesToItself(cfg: Config, db: Db, arn: Bytes, env: Env)
    requires ValidConfig(cfg) && AllNamed(cfg, db.records) && HoldsKey(db.records, arn) && env.year >= MIN_YEAR
    ensures var got := GotUsableKey(cfg, db, arn, env.now, env.year, env.firstDraw).1;
            got.Usable? ==> got.key.meta.arn == arn
  {
    var s := SubjectOf(cfg, db.records, arn);
    KeyArnIsDirect(cfg, s.id, KEY);
    var got := LoadedKey(db, arn, env.now, env.year, env.firstDraw);
    LoadStep(cfg, db, arn, Quiet(env), env.year, env.firstDraw);
    if got.1.Some? && Usability(got.1.value).Usable? {
      LoadedIsHandedOut(cfg, got.0.records, arn, got.1.value);
    }
  }

  /** With a KeyId, by id, ARN or alias: the same, provided it leads to the blob's key; a key of
      another ARN is refused. */
  lemma DecryptSealedWithKeyId(c: Suite, cfg: Config, s: System, keyId: Bytes, blob: Bytes, context: map<Bytes, Bytes>,
                                a: EncryptionAlgorithm, env: Env, arn: Bytes, plaintext: Bytes)
    requires Lawful(c) && Inv(cfg, s) && env.year >= MIN_YEAR
    requires Sealed(c, s.db.records, arn, blob, plaintext, context)
    ensures var got := GotUsableKey(cfg, s.db, keyId, env.now, env.year, env.firstDraw).1;
            var answer := DecryptResult(c, cfg, s.db, Some(keyId), blob, context, a, env).1;
            && (|blob| > MAX_BLOB ==> answer == Failed(Validation))
            && (|blob| <= MAX_BLOB && got.Unusable? ==> answer == Failed(got.error))
            && (|blob| <= MAX_BLOB && got.Usable? && got.key.keyType == Aes ==>
                  answer ==
                  if |arn| > 250 then Panicked
                  else if got.key.meta.arn != arn then Failed(AccessDenied)
                  else SealedAnswer(arn, plaintext, got.key))
  {
    BlobSize(c, s.db.records, arn, blob, plaintext, context);
    SealedUnpacks(c, s.db.records, arn, blob, plaintext, context);
    if |arn| <= 250 {
      UsableKeyOpens(c, cfg, s, env, keyId, env.firstDraw, arn, blob, plaintext, context, a);
    }
  }

  /** A sealed blob after any run, as long as its key is there: what Decrypt answers. */
  lemma SealedTextIsNeverLost(c: Suite, cfg: Config, s: System, es: seq<Event>, d: Event, arn: Bytes, plaintext: Bytes)
    requires Lawful(c) && Inv(cfg, s) && AdmissibleRun(c, cfg, s, es) && Admissible(cfg, Run(c, cfg, s, es), d)
    requires d.request.Decrypt? && d.request.optionalKeyId.None?
    requires Sealed(c, s.db.records, arn, d.request.blob, plaintext, d.request.context)
    requires Holds(Run(c, cfg, s, es), arn)
    ensures var later := Run(c, cfg, s, es);
            var got := GotUsableKey(cfg, later.db, arn, d.env.now, d.env.year, d.env.firstDraw).1;
            Answer(c, cfg, later, d) ==
            if |d.request.blob| > MAX_BLOB then Failed(Validation)
            else if |arn| > 250 then Panicked
            else if got.Unusable? then Failed(AccessDenied)
            else SealedAnswer(arn, plaintext, got.key)
  {
    SealedForever(c, cfg, s, es, arn, d.request.blob, plaintext, d.request.context);
    RunKeepsInv(c, cfg, s, es);
    DecryptSealed(c, cfg, Run(c, cfg, s, es), d, arn, plaintext);
  }

  /** The same with a KeyId by id, ARN or alias, which may have been retargeted in between: what
      it leads to then decides. */
  lemma SealedTextWithKeyId(c: Suite, cfg: Config, s: System, es: seq<Event>, keyId: Bytes, blob: Bytes,
                            context: map<Bytes, Bytes>, a: EncryptionAlgorithm, env: Env, arn: Bytes, plaintext: Bytes)
    requires Lawful(c) && Inv(cfg, s) && AdmissibleRun(c, cfg, s, es) && env.year >= MIN_YEAR
    requires Sealed(c, s.db.records, arn, blob, plaintext, context) && Holds(Run(c, cfg, s, es), arn)
    ensures var later := Run(c, cfg, s, es);
            var got := GotUsableKey(cfg, later.db, keyId, env.now, env.year, env.firstDraw).1;
            var answer := DecryptResult(c, cfg, later.db, Some(keyId), blob, context, a, env).1;
            && (|blob| > MAX_BLOB ==> answer == Failed(Validation))
            && (|blob| <= MAX_BLOB && got.Unusable? ==> answer == Failed(got.error))
            && (|blob| <= MAX_BLOB && got.Usable? && got.key.keyType == Aes ==>
                  answer ==
                  if |arn| > 250 then Panicked
                  else if got.key.meta.arn != arn then Failed(AccessDenied)
                  else SealedAnswer(arn, plaintext, got.key))
  {
    SealedForever(c, cfg, s, es, arn, blob, plaintext, context);
    RunKeepsInv(c, cfg, s, es);
    DecryptSealedWithKeyId(c, cfg, Run(c, cfg, s, es), keyId, blob, context, a, env, arn, plaintext);
  }

  /** The durability theorem for every request that issues a ciphertext: if it answered with a
      blob of an AES key whose ARN has at most 250 bytes, then after any run whatsoever, if the
      key still exists and is usable, Decrypt of the blob under the same context returns the
      text and the ARN, provided the blob is not longer than Decrypt takes. */
  lemma IssuedTextIsNeverLost(c: Suite, cfg: Config, s: System, e: Event, es: seq<Event>, d: Event)
    requires Lawful(c) && Inv(cfg, s) && Admissible(cfg, s, e)
    requires IssuesBlob(Answer(c, cfg, s, e)) && |Answer(c, cfg, s, e).keyArn| <= 250
    requires |Answer(c, cfg, s, e).blob| <= MAX_BLOB
    requires var later := Run(c, cfg, Next(c, cfg, s, e), es);
             && AdmissibleRun(c, cfg, Next(c, cfg, s, e), es) && Admissible(cfg, later, d)
             && Holds(later, Answer(c, cfg, s, e).keyArn)
             && KeyIn(later, Answer(c, cfg, s, e).keyArn).keyType == Aes
    requires d.request.Decrypt? && d.request.optionalKeyId.None?
    requires d.request.blob == Answer(c, cfg, s, e).blob && d.request.context == ContextOf(e.request)
    ensures var later, arn := Run(c, cfg, Next(c, cfg, s, e), es), Answer(c, cfg, s, e).keyArn;
            var got := GotUsableKey(cfg, later.db, arn, d.env.now, d.env.year, d.env.firstDraw).1;
            Answer(c, cfg, later, d) ==
            if got.Unusable? then Failed(AccessDenied)
            else SealedAnswer(arn, IssuedText(c, cfg, s.db, e.request, e.env), got.key)
  {
    var s', arn := Next(c, cfg, s, e), Answer(c, cfg, s, e).keyArn;
    NextStep(c, cfg, s, e, arn);
    EveryBlobIsSealed(c, cfg, s, e);
    RunOnlyExtends(c, cfg, s', es, arn);
    SealedTextIsNeverLost(c, cfg, s', es, d, arn, IssuedText(c, cfg, s.db, e.request, e.env));
  }

  /** For Encrypt the blob is never too long. */
  lemma EncryptedTextIsNeverLost(c: Suite, cfg: Config, s: System, e: Event, es: seq<Event>, d: Event)
    requires Lawful(c) && Inv(cfg, s) && Admissible(cfg, s, e) && e.request.Encrypt?
    requires Answer(c, cfg, s, e).Encrypted? && |Answer(c, cfg, s, e).keyArn| <= 250
    requires var later := Run(c, cfg, Next(c, cfg, s, e), es);
             && AdmissibleRun(c, cfg, Next(c, cfg, s, e), es) && Admissible(cfg, later, d)
             && Holds(later, Answer(c, cfg, s, e).keyArn)
             && KeyIn(later, Answer(c, cfg, s, e).keyArn).keyType == Aes
    requires d.request.Decrypt? && d.request.optionalKeyId.None?
    requires d.request.blob == Answer(c, cfg, s, e).blob && d.request.context == e.request.context
    ensures var later, arn := Run(c, cfg, Next(c, cfg, s, e), es), Answer(c, cfg, s, e).keyArn;
            var got := GotUsableKey(cfg, later.db, arn, d.env.now, d.env.year, d.env.firstDraw).1;
            Answer(c, cfg, later, d) ==
            if got.Unusable? then Failed(AccessDenied) else SealedAnswer(arn, e.request.plaintext, got.key)
  {
    var s', arn := Next(c, cfg, s, e), Answer(c, cfg, s, e).keyArn;
    NextStep(c, cfg, s, e, arn);
    EncryptIssuesSealed(c, cfg, s, e);
    RunOnlyExtends(c, cfg, s', es, arn);
    BlobSize(c, s'.db.records, arn, d.request.blob, e.request.plaintext, e.request.context);
    SealedTextIsNeverLost(c, cfg, s', es, d, arn, e.request.plaintext);
  }

  lemma DecryptLoadsBlobKey(c: Suite, cfg: Config, s: System, d: Event, arn: Bytes)
    requires d.request.Decrypt? && d.request.optionalKeyId.None? && 0 < |d.request.blob| <= MAX_BLOB
    requires UnpackCiphertextBlob(d.request.blob).Ok? && UnpackCiphertextBlob(d.request.blob).result.ident == arn
    ensures Next(c, cfg, s, d).db == GotUsableKey(cfg, s.db, arn, d.env.now, d.env.year, d.env.firstDraw).0
  {
  }

  /** The key that a Decrypt without KeyId uses is the stored one of the state it leaves. */
  lemma DecryptingKeyIsStored(c: Suite, cfg: Config, s: System, d: Event, arn: Bytes)
    requires Inv(cfg, s) && Admissible(cfg, s, d) && Holds(s, arn)
    requires d.request.Decrypt? && d.request.optionalKeyId.None? && 0 < |d.request.blob| <= MAX_BLOB
    requires UnpackCiphertextBlob(d.request.blob).Ok? && UnpackCiphertextBlob(d.request.blob).result.ident == arn
    requires GotUsableKey(cfg, s.db, arn, d.env.now, d.env.year, d.env.firstDraw).1.Usable?
    ensures var s', k := Next(c, cfg, s, d), GotUsableKey(cfg, s.db, arn, d.env.now, d.env.year, d.env.firstDraw).1.key;
            Holds(s', arn) && KeyIn(s', arn).backingKeys == k.backingKeys
  {
    DecryptLoadsBlobKey(c, cfg, s, d, arn);
    ArnResolvesToItself(cfg, s.db, arn, d.env);
    UsableKeyStep(cfg, s.db, arn, Quiet(d.env), d.env.year, d.env.firstDraw);
  }

  ghost predicate VersionsFitAt(s: System, arn: Bytes) {
    Holds(s, arn) ==> |KeyIn(s, arn).backingKeys| <= MAX_UINT32
  }

  lemma BoundFits(s: System, s': System, arn: Bytes)
    requires Holds(s, arn) && Holds(s', arn) && WithinBound(s, s', arn)
    requires MostBackingKeys(KeyIn(s, arn), s'.now - s.now) <= MAX_UINT32
    ensures VersionsFitAt(s', arn)
  {
  }

  lemma BoundAfter(c: Suite, cfg: Config, s: System, es: seq<Event>, d: Event, arn: Bytes)
    requires Inv(cfg, s) && AdmissibleRun(c, cfg, s, es) && Admissible(cfg, Run(c, cfg, s, es), d) && Holds(s, arn)
    requires KeyIn(s, arn).onDemandRotationCount <= MAX_ON_DEMAND_ROTATIONS
    requires Holds(Next(c, cfg, Run(c, cfg, s, es), d), arn)
    ensures WithinBound(s, Next(c, cfg, Run(c, cfg, s, es), d), arn)
  {
    RunAppend(c, cfg, s, es, d);
    BackingKeysAreBounded(c, cfg, s, es + [d], arn);
  }

  lemma FitsAfter(c: Suite, cfg: Config, s: System, es: seq<Event>, d: Event, arn: Bytes)
    requires Inv(cfg, s) && AdmissibleRun(c, cfg, s, es) && Admissible(cfg, Run(c, cfg, s, es), d) && Holds(s, arn)
    requires KeyIn(s, arn).onDemandRotationCount <= MAX_ON_DEMAND_ROTATIONS
    requires d.env.now >= s.now && MostBackingKeys(KeyIn(s, arn), d.env.now - s.now) <= MAX_UINT32
    ensures VersionsFitAt(Next(c, cfg, Run(c, cfg, s, es), d), arn)
  {
    var s' := Next(c, cfg, Run(c, cfg, s, es), d);
    if Holds(s', arn) {
      BoundAfter(c, cfg, s, es, d, arn);
      BoundFits(s, s', arn);
    }
  }

  lemma DecryptsWhileVersionsFit(c: Suite, cfg: Config, s: System, d: Event, arn: Bytes, plaintext: Bytes)
    requires Lawful(c) && Inv(cfg, s) && Admissible(cfg, s, d)
    requires d.request.Decrypt? && d.request.optionalKeyId.None? && |arn| <= 250
    requires Sealed(c, s.db.records, arn, d.request.blob, plaintext, d.request.context)
    requires VersionsFitAt(Next(c, cfg, s, d), arn)
    ensures Answer(c, cfg, s, d) ==
            if |d.request.blob| > MAX_BLOB then Failed(Validation)
            else if GotUsableKey(cfg, s.db, arn, d.env.now, d.env.year, d.env.firstDraw).1.Unusable? then
              Failed(AccessDenied)
            else Decrypted(arn, plaintext)
  {
    DecryptSealed(c, cfg, s, d, arn, plaintext);
    if |d.request.blob| <= MAX_BLOB && GotUsableKey(cfg, s.db, arn, d.env.now, d.env.year, d.env.firstDraw).1.Usable? {
      BlobSize(c, s.db.records, arn, d.request.blob, plaintext, d.request.context);
      SealedUnpacks(c, s.db.records, arn, d.request.blob, plaintext, d.request.context);
      DecryptingKeyIsStored(c, cfg, s, d, arn);
    }
  }

  /** While the bound on the number of backing keys fits 32 bits, a blob of a usable key always
      decrypts, unless it is too long to ask: no version number overflows. */
  lemma VersionsFit(c: Suite, cfg: Config, s: System, es: seq<Event>, d: Event, arn: Bytes, plaintext: Bytes)
    requires Lawful(c) && Inv(cfg, s) && AdmissibleRun(c, cfg, s, es) && Admissible(cfg, Run(c, cfg, s, es), d)
    requires d.request.Decrypt? && d.request.optionalKeyId.None? && |arn| <= 250
    requires Sealed(c, s.db.records, arn, d.request.blob, plaintext, d.request.context)
    requires KeyIn(s, arn).onDemandRotationCount <= MAX_ON_DEMAND_ROTATIONS && Holds(Run(c, cfg, s, es), arn)
    requires d.env.now >= s.now && MostBackingKeys(KeyIn(s, arn), d.env.now - s.now) <= MAX_UINT32
    ensures var later := Run(c, cfg, s, es);
            Answer(c, cfg, later, d) ==
            if |d.request.blob| > MAX_BLOB then Failed(Validation)
            else if GotUsableKey(cfg, later.db, arn, d.env.now, d.env.year, d.env.firstDraw).1.Unusable? then
              Failed(AccessDenied)
            else Decrypted(arn, plaintext)
  {
    var later := Run(c, cfg, s, es);
    RunKeepsInv(c, cfg, s, es);
    SealedForever(c, cfg, s, es, arn, d.request.blob, plaintext, d.request.context);
    FitsAfter(c, cfg, s, es, d, arn);
    DecryptsWhileVersionsFit(c, cfg, later, d, arn, plaintext);
  }

  //----------------------------------------------------------------------------------------
  // ReEncrypt

  /** Re-encrypting a sealed blob under its own key's ARN, into an AES key, gives a sealed
      blob of the same plaintext under the destination context. */
  lemma ReEncryptKeepsMeaning(c: Suite, cfg: Config, s: System, e: Event, arn: Bytes, plaintext: Bytes)
    requires Lawful(c) && Inv(cfg, s) && Admissible(cfg, s, e) && e.request.ReEncrypt?
    requires Sealed(c, s.db.records, arn, e.request.reEncryption.blob, plaintext, e.request.reEncryption.sourceContext)
    requires Answer(c, cfg, s, e).ReEncrypted? && Answer(c, cfg, s, e).sourceArn == arn
    ensures var r, answer := Next(c, cfg, s, e).db.records, Answer(c, cfg, s, e);
            && HoldsKey(r, answer.keyArn)
            && (r[answer.keyArn].key.keyType == Aes ==>
                  Sealed(c, r, answer.keyArn, answer.blob, plaintext, e.request.reEncryption.destinationContext))
  {
    ReEncryptionIsSealed(c, cfg, s, e.request.reEncryption, e.env, arn, plaintext);
  }

  lemma ReEncryptionIsSealed(c: Suite, cfg: Config, s: System, re: ReEncryption, env: Env, arn: Bytes, plaintext: Bytes)
    requires Lawful(c) && Inv(cfg, s) && env.year >= MIN_YEAR
    requires Sealed(c, s.db.records, arn, re.blob, plaintext, re.sourceContext)
    requires ReEncryptResult(c, cfg, s.db, re, env).1.ReEncrypted?
    requires ReEncryptResult(c, cfg, s.db, re, env).1.sourceArn == arn
    ensures var (db', answer) := ReEncryptResult(c, cfg, s.db, re, env);
            && HoldsKey(db'.records, answer.keyArn)
            && (db'.records[answer.keyArn].key.keyType == Aes ==>
                  Sealed(c, db'.records, answer.keyArn, answer.blob, plaintext, re.destinationContext))
  {
    SealedUnpacks(c, s.db.records, arn, re.blob, plaintext, re.sourceContext);
    var u := UnpackCiphertextBlob(re.blob).result;
    var sourceId := if re.sourceKeyId.Some? then re.sourceKeyId.value else u.ident;
    var source := GotUsableKey(cfg, s.db, sourceId, env.now, env.year, env.firstDraw);
    ReEncryptUnfolds(c, cfg, s.db, re, u, env);
    SourceOpens(c, cfg, s, re, env, sourceId, arn, plaintext);
    DestinationIsSealed(c, cfg, source.0, re, source.1.key, u, env, plaintext);
  }

  lemma ReEncryptUnfolds(c: Suite, cfg: Config, db: Db, re: ReEncryption, u: Unpacked, env: Env)
    requires SourceFields(re.blob) == Ok(u) && ReEncryptResult(c, cfg, db, re, env).1.ReEncrypted?
    ensures var sourceId := if re.sourceKeyId.Some? then re.sourceKeyId.value else u.ident;
            var source := GotUsableKey(cfg, db, sourceId, env.now, env.year, env.firstDraw);
            && source.1.Usable?
            && ReEncryptResult(c, cfg, db, re, env) == ReEncryptedFrom(c, cfg, source.0, re, source.1.key, u, env)
            && ReEncryptResult(c, cfg, db, re, env).1.sourceArn == source.1.key.meta.arn
  {
    var sourceId := if re.sourceKeyId.Some? then re.sourceKeyId.value else u.ident;
    var source := GotUsableKey(cfg, db, sourceId, env.now, env.year, env.firstDraw);
    assert source.1.Usable?;
    ReEncryptedFromNames(c, cfg, source.0, re, source.1.key, u, env);
  }

  lemma ReEncryptedFromNames(c: Suite, cfg: Config, db: Db, re: ReEncryption, source: KeyRecord, u: Unpacked, env: Env)
    ensures var answer := ReEncryptedFrom(c, cfg, db, re, source, u, env).1;
            answer.ReEncrypted? ==> answer.sourceArn == source.meta.arn
  {
  }

  lemma SourceOpens(c: Suite, cfg: Config, s: System, re: ReEncryption, env: Env, sourceId: Bytes, arn: Bytes,
                    plaintext: Bytes)
    requires Lawful(c) && Inv(cfg, s) && env.year >= MIN_YEAR && |arn| <= 250
    requires Sealed(c, s.db.records, arn, re.blob, plaintext, re.sourceContext)
    ensures UnpackCiphertextBlob(re.blob).Ok?
    ensures var u := UnpackCiphertextBlob(re.blob).result;
            var source := GotUsableKey(cfg, s.db, sourceId, env.now, env.year, env.firstDraw);
            source.1.Usable? && source.1.key.meta.arn == arn ==>
              && AllNamed(cfg, source.0.records) && source.1.key.keyType == Aes
              && DecryptedUnder(c, source.1.key, u.version, u.ciphertext, re.sourceContext, re.sourceAlgorithm)
                 == SealedAnswer(arn, plaintext, source.1.key)
  {
    UsableKeyStep(cfg, s.db, sourceId, Quiet(env), env.year, env.firstDraw);
    UsableKeyOpens(c, cfg, s, env, sourceId, env.firstDraw, arn, re.blob, plaintext, re.sourceContext,
                   re.sourceAlgorithm);
  }

  lemma DestinationIsSealed(c: Suite, cfg: Config, db: Db, re: ReEncryption, source: KeyRecord, u: Unpacked, env: Env,
                             plaintext: Bytes)
    requires AllNamed(cfg, db.records) && env.year >= MIN_YEAR
    requires ReEncryptedFrom(c, cfg, db, re, source, u, env).1.ReEncrypted?
    requires source.keyType == Aes
    requires DecryptedUnder(c, source, u.version, u.ciphertext, re.sourceContext, re.sourceAlgorithm)
             == SealedAnswer(source.meta.arn, plaintext, source)
    ensures var (db', answer) := ReEncryptedFrom(c, cfg, db, re, source, u, env);
            && HoldsKey(db'.records, answer.keyArn)
            && (db'.records[answer.keyArn].key.keyType == Aes ==>
                  Sealed(c, db'.records, answer.keyArn, answer.blob, plaintext, re.destinationContext))
  {
    var dest := GotUsableKey(cfg, db, re.destinationKeyId, env.now, env.year, env.secondDraw);
    UsableKeyStep(cfg, db, re.destinationKeyId, Quiet(env), env.year, env.secondDraw);
    if dest.1.key.keyType == Aes {
      PackagedIsSealed(c, dest.0.records, dest.1.key, plaintext, re.destinationContext, env.nonce);
    }
  }

  /** The source key of a successful ReEncrypt was in the store before it. */
  lemma SourceIsHeld(c: Suite, cfg: Config, db: Db, re: ReEncryption, env: Env)
    requires AllNamed(cfg, db.records) && env.year >= MIN_YEAR && ReEncryptResult(c, cfg, db, re, env).1.ReEncrypted?
    ensures HoldsKey(db.records, ReEncryptResult(c, cfg, db, re, env).1.sourceArn)
  {
    var u := SourceFields(re.blob).result;
    var sourceId := if re.sourceKeyId.Some? then re.sourceKeyId.value else u.ident;
    ReEncryptUnfolds(c, cfg, db, re, u, env);
    UsableKeyStep(cfg, db, sourceId, Quiet(env), env.year, env.firstDraw);
  }

  /** A run of any kind, then a ReEncrypt. */
  datatype Link = Link(before: seq<Event>, hop: Event)

  /** A state of the service, and the blob at hand with its key and context. */
  datatype Place = Place(system: System, arn: Bytes, blob: Bytes, context: map<Bytes, Bytes>)

  ghost predicate SealedAt(c: Suite, cfg: Config, p: Place, plaintext: Bytes) {
    Inv(cfg, p.system) && Sealed(c, p.system.db.records, p.arn, p.blob, plaintext, p.context)
  }

  /** The hop takes the blob and context at hand, reads it with its own key, and succeeds into
      an AES key. */
  ghost predicate Hops(c: Suite, cfg: Config, p: Place, l: Link) {
    && l.hop.request.ReEncrypt?
    && l.hop.request.reEncryption.blob == p.blob && l.hop.request.reEncryption.sourceContext == p.context
    && AdmissibleRun(c, cfg, p.system, l.before)
    && var at := Run(c, cfg, p.system, l.before);
       var answer := Answer(c, cfg, at, l.hop);
       && Admissible(cfg, at, l.hop) && answer.ReEncrypted? && answer.sourceArn == p.arn
       && Holds(Next(c, cfg, at, l.hop), answer.keyArn) && KeyIn(Next(c, cfg, at, l.hop), answer.keyArn).keyType == Aes
  }

  ghost function AfterHop(c: Suite, cfg: Config, p: Place, l: Link): Place
    requires Hops(c, cfg, p, l)
  {
    var at := Run(c, cfg, p.system, l.before);
    var answer := Answer(c, cfg, at, l.hop);
    Place(Next(c, cfg, at, l.hop), answer.keyArn, answer.blob, l.hop.request.reEncryption.destinationContext)
  }

  ghost predicate Chain(c: Suite, cfg: Config, p: Place, links: seq<Link>)
    decreases |links|
  {
    links == [] || (Hops(c, cfg, p, links[0]) && Chain(c, cfg, AfterHop(c, cfg, p, links[0]), links[1..]))
  }

  ghost function AfterChain(c: Suite, cfg: Config, p: Place, links: seq<Link>): Place
    requires Chain(c, cfg, p, links)
    decreases |links|
  {
    if links == [] then p else AfterChain(c, cfg, AfterHop(c, cfg, p, links[0]), links[1..])
  }

  lemma HopKeepsMeaning(c: Suite, cfg: Config, p: Place, l: Link, plaintext: Bytes)
    requires Lawful(c) && SealedAt(c, cfg, p, plaintext) && Hops(c, cfg, p, l)
    ensures SealedAt(c, cfg, AfterHop(c, cfg, p, l), plaintext)
  {
    var at := Run(c, cfg, p.system, l.before);
    RunKeepsInv(c, cfg, p.system, l.before);
    SourceIsHeld(c, cfg, at.db, l.hop.request.reEncryption, l.hop.env);
    SealedForever(c, cfg, p.system, l.before, p.arn, p.blob, plaintext, p.context);
    ReEncryptKeepsMeaning(c, cfg, at, l.hop, p.arn, plaintext);
    NextStep(c, cfg, at, l.hop, p.arn);
  }

  /** Re-encrypting along a chain of any length, with anything happening in between, keeps the
      plaintext. */
  lemma {:induction false} ChainKeepsMeaning(c: Suite, cfg: Config, p: Place, links: seq<Link>, plaintext: Bytes)
    requires Lawful(c) && SealedAt(c, cfg, p, plaintext) && Chain(c, cfg, p, links)
    ensures SealedAt(c, cfg, AfterChain(c, cfg, p, links), plaintext)
    decreases |links|
  {
    if links != [] {
      HopKeepsMeaning(c, cfg, p, links[0], plaintext);
      ChainKeepsMeaning(c, cfg, AfterHop(c, cfg, p, links[0]), links[1..], plaintext);
    }
  }

  /** Decrypt of the last blob under the last context answers the plaintext, exactly as for a
      blob of Encrypt. */
  lemma ChainDecrypts(c: Suite, cfg: Config, p: Place, links: seq<Link>, plaintext: Bytes, d: Event)
    requires Lawful(c) && SealedAt(c, cfg, p, plaintext) && Chain(c, cfg, p, links)
    requires var end := AfterChain(c, cfg, p, links);
             && Admissible(cfg, end.system, d) && d.request.Decrypt? && d.request.optionalKeyId.None?
             && d.request.blob == end.blob && d.request.context == end.context
    ensures var end := AfterChain(c, cfg, p, links);
            var got := GotUsableKey(cfg, end.system.db, end.arn, d.env.now, d.env.year, d.env.firstDraw).1;
            Answer(c, cfg, end.system, d) ==
            if |end.blob| > MAX_BLOB then Failed(Validation)
            else if |end.arn| > 250 then Panicked
            else if got.Unusable? then Failed(AccessDenied)
            else SealedAnswer(end.arn, plaintext, got.key)
  {
    var end := AfterChain(c, cfg, p, links);
    ChainKeepsMeaning(c, cfg, p, links, plaintext);
    DecryptSealed(c, cfg, end.system, d, end.arn, plaintext);
  }

  //----------------------------------------------------------------------------------------
  // MACs

  /** `mac` authenticates the message under one of the backing keys of the stored HMAC key. */
  ghost predicate GenuineMac(c: Suite, records: map<Bytes, Record>, arn: Bytes, message: Bytes, mac: Bytes,
                             a: MacAlgorithm) {
    && HoldsKey(records, arn)
    && var k := records[arn].key;
       && k.keyType == Hmac && a in k.meta.macAlgorithms && a != OtherMac
       && exists key | key in k.backingKeys :: c.hmac(a, key, message) == mac
  }

  /** Every MAC is issued under a backing key that is in the stored record. */
  lemma GenerateMacIssuesGenuine(c: Suite, cfg: Config, s: System, e: Event)
    requires Inv(cfg, s) && Admissible(cfg, s, e) && e.request.GenerateMac?
    requires Answer(c, cfg, s, e).MacGenerated?
    ensures GenuineMac(c, Next(c, cfg, s, e).db.records, Answer(c, cfg, s, e).keyArn, e.request.message,
                       Answer(c, cfg, s, e).mac, e.request.macAlgorithm)
  {
    UsableKeyStep(cfg, s.db, e.request.keyId, Quiet(e.env), e.env.year, e.env.firstDraw);
    var k := GotUsableKey(cfg, s.db, e.request.keyId, e.env.now, e.env.year, e.env.firstDraw).1.key;
    assert k.backingKeys[0] in k.backingKeys;
  }

  lemma MacStaysGenuine(c: Suite, r: map<Bytes, Record>, r': map<Bytes, Record>, arn: Bytes, message: Bytes, mac: Bytes,
                        a: MacAlgorithm)
    requires GenuineMac(c, r, arn, message, mac, a) && HoldsKey(r', arn) && Grows(r[arn].key, r'[arn].key)
    ensures GenuineMac(c, r', arn, message, mac, a)
  {
    var key :| key in r[arn].key.backingKeys && c.hmac(a, key, message) == mac;
    assert key in r'[arn].key.backingKeys;
  }

  /** A genuine MAC against its own key as handed out. */
  lemma HandedOutAccepts(c: Suite, records: map<Bytes, Record>, k: KeyRecord, message: Bytes, mac: Bytes,
                         a: MacAlgorithm)
    requires HandedOut(records, k) && Consistent(records[k.meta.arn].key) && Usability(k).Usable?
    requires GenuineMac(c, records, k.meta.arn, message, mac, a)
    ensures MacRejected(k, a).None? && MacValid(c, k, message, mac, a) == Some(true)
  {
    var key :| key in records[k.meta.arn].key.backingKeys && c.hmac(a, key, message) == mac;
    assert key in k.backingKeys;
  }

  /** VerifyMac with a usable key of that ARN accepts a genuine MAC. */
  lemma VerifyMacAcceptsGenuine(c: Suite, cfg: Config, s: System, keyId: Bytes, env: Env, arn: Bytes, message: Bytes,
                                mac: Bytes, a: MacAlgorithm)
    requires Inv(cfg, s) && AllConsistent(s) && env.year >= MIN_YEAR
    requires GenuineMac(c, s.db.records, arn, message, mac, a)
    ensures var got := GotUsableKey(cfg, s.db, keyId, env.now, env.year, env.firstDraw);
            got.1.Usable? && got.1.key.meta.arn == arn ==>
              VerifyMacResult(c, cfg, s.db, keyId, message, mac, a, env) == (got.0, MacVerified(arn, true))
  {
    var got := GotUsableKey(cfg, s.db, keyId, env.now, env.year, env.firstDraw);
    UsableKeyStep(cfg, s.db, keyId, Quiet(env), env.year, env.firstDraw);
    if got.1.Usable? && got.1.key.meta.arn == arn {
      assert Consistent(got.0.records[arn].key) by {
        assert Evolves(KeyIn(s, arn), got.0.records[arn].key, Quiet(env));
      }
      MacStaysGenuine(c, s.db.records, got.0.records, arn, message, mac, a);
      HandedOutAccepts(c, got.0.records, got.1.key, message, mac, a);
    }
  }

  /** Every MAC verifies in every later state in which its key is usable, across rotations and
      re-imports. */
  lemma MacsStayValid(c: Suite, cfg: Config, s: System, e: Event, es: seq<Event>, v: Event)
    requires Inv(cfg, s) && AllConsistent(s) && Admissible(cfg, s, e) && e.request.GenerateMac?
    requires Answer(c, cfg, s, e).MacGenerated?
    requires var later := Run(c, cfg, Next(c, cfg, s, e), es);
             && AdmissibleRun(c, cfg, Next(c, cfg, s, e), es) && Admissible(cfg, later, v)
             && Holds(later, Answer(c, cfg, s, e).keyArn)
    requires v.request.VerifyMac? && v.request.message == e.request.message
    requires v.request.mac == Answer(c, cfg, s, e).mac && v.request.macAlgorithm == e.request.macAlgorithm
    ensures var later, arn := Run(c, cfg, Next(c, cfg, s, e), es), Answer(c, cfg, s, e).keyArn;
            var got := GotUsableKey(cfg, later.db, v.request.keyId, v.env.now, v.env.year, v.env.firstDraw).1;
            got.Usable? && got.key.meta.arn == arn ==> Answer(c, cfg, later, v) == MacVerified(arn, true)
  {
    var s' := Next(c, cfg, s, e);
    var later, arn := Run(c, cfg, s', es), Answer(c, cfg, s, e).keyArn;
    StepKeepsConsistent(c, cfg, s, e);
    NextStep(c, cfg, s, e, arn);
    GenerateMacIssuesGenuine(c, cfg, s, e);
    MacLivesOn(c, cfg, s', es, arn, e.request.message, v.request.mac, e.request.macAlgorithm);
    VerifyMacAcceptsGenuine(c, cfg, later, v.request.keyId, v.env, arn, e.request.message, v.request.mac,
                            e.request.macAlgorithm);
  }

  lemma MacLivesOn(c: Suite, cfg: Config, s: System, es: seq<Event>, arn: Bytes, message: Bytes, mac: Bytes,
                   a: MacAlgorithm)
    requires Inv(cfg, s) && AllConsistent(s) && AdmissibleRun(c, cfg, s, es) && Holds(Run(c, cfg, s, es), arn)
    requires GenuineMac(c, s.db.records, arn, message, mac, a)
    ensures var later := Run(c, cfg, s, es);
            Inv(cfg, later) && AllConsistent(later) && GenuineMac(c, later.db.records, arn, message, mac, a)
  {
    var later := Run(c, cfg, s, es);
    RunOnlyExtends(c, cfg, s, es, arn);
    MacStaysGenuine(c, s.db.records, later.db.records, arn, message, mac, a);
    RunKeepsInv(c, cfg, s, es);
    RunKeepsConsistent(c, cfg, s, es);
  }

  //----------------------------------------------------------------------------------------
  // Failing writes

  /** A request to change a key that is not answered with success leaves the store as the load
      left it: whatever it changed on the loaded key is gone. */
  lemma FailedChangeIsUndone(c: Suite, cfg: Config, db: Db, keyId: Bytes, op: KeyOp, env: Env)
    requires KeyChanged(c, cfg, db, keyId, op, env).1.Failed?
    ensures var target := KeyOpTarget(cfg, db, op, keyId);
            KeyChanged(c, cfg, db, keyId, op, env).0.records ==
            if !RequestValid(op, env.now) || target.None? then db.records
            else LoadedKey(db, target.value, env.now, env.year, env.firstDraw).0.records
  {
    var target := KeyOpTarget(cfg, db, op, keyId);
    if RequestValid(op, env.now) && target.Some? {
      var loaded := LoadedKey(db, target.value, env.now, env.year, env.firstDraw);
      if loaded.1.Some? {
        FailedSaveIsUndone(c, loaded.0, op, loaded.1.value, env);
      }
    }
  }

  lemma FailedSaveIsUndone(c: Suite, db: Db, op: KeyOp, k: KeyRecord, env: Env)
    requires RequestValid(op, env.now) && AppliedToLoaded(c, db, op, k, env).1.Failed?
    ensures AppliedToLoaded(c, db, op, k, env).0.records == db.records
  {
  }

  /** A key whose rotation or expiry could not be saved is not handed out at all, and the
      stored record stays as it was. */
  lemma UnsavedLoadIsRefused(cfg: Config, db: Db, arn: Bytes, now: Time, year: nat, drawn: Bytes)
    requires AllNamed(cfg, db.records) && HoldsKey(db.records, arn) && !WriteSucceeds(db)
    ensures var k, (db', got) := db.records[arn].key, LoadedKey(db, arn, now, year, drawn);
            && db'.records == db.records
            && (got.None? <==> NeedsRotation(k, now) || IsPendingDeletion(k.meta, now) || MaterialExpired(k.meta, now))
            && (got.Some? ==> got == Some(Migrated(k)))
  {
  }
}
