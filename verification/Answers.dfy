/** Exactly what the cryptographic requests answer, for every input, in terms of the stored record
    and the functions of the suite alone: what is accepted, what is refused, and by which error. */
module Answers {
  import opened Wrappers
  import opened ByteStrings
  import opened Names
  import opened Crypto
  import opened Ciphertext
  import opened Keys
  import opened Lifecycle
  import opened Store
  import opened Requests
  import opened KeyHistory
  import opened StoreHistory
  import opened Issued

  //----------------------------------------------------------------------------------------
  // Usable keys

  /** getUsableKey hands a loaded key out if and only if it is enabled, has a state other than
      PendingImport and no deletion date; the error is that of the first of these that fails. */
  lemma UsableExactly(cfg: Config, db: Db, keyId: Bytes, env: Env)
    ensures var (db', k) := GotKey(cfg, db, keyId, env.now, env.year, env.firstDraw);
            GotUsableKey(cfg, db, keyId, env.now, env.year, env.firstDraw) ==
            (db', if k == None then Unusable(NotFound)
                  else if k.value.meta.keyState == PendingImport then Unusable(InvalidState)
                  else if k.value.meta.deletionDate > 0 then Unusable(InvalidState)
                  else if k.value.meta.enabled then Usable(k.value)
                  else Unusable(KeyDisabled))
  {
  }

  /** A key with a sound record is usable if and only if its state is Enabled and it has no
      deletion date. */
  lemma SoundKeyIsUsable(k: KeyRecord)
    requires Consistent(k)
    ensures Usability(k) == Usable(k) <==> k.meta.keyState == Enabled && k.meta.deletionDate == 0
  {
  }

  /** The backing keys of the key that a request has just used, as they are in the store after it. */
  function StoredKeys(records: map<Bytes, Record>, k: KeyRecord): seq<Bytes>
    requires HandedOut(records, k)
  {
    records[k.meta.arn].key.backingKeys
  }

  //----------------------------------------------------------------------------------------
  // Decrypt

  /** The ciphertext opens with the stored backing key of that number. */
  ghost predicate OpensTo(c: Suite, keys: seq<Bytes>, u: Unpacked, context: map<Bytes, Bytes>, plaintext: Bytes) {
    && u.version < |keys| && |u.ciphertext| >= 12
    && c.open(keys[u.version], u.ciphertext[..12], u.ciphertext[12..], ContextBytes(context)) == Some(plaintext)
  }

  /** What a usable AES key answers: a plaintext if and only if the ciphertext opens to it. */
  ghost predicate AnswersOpening(c: Suite, keys: seq<Bytes>, arn: Bytes, u: Unpacked, context: map<Bytes, Bytes>,
                                 answer: Response)
  {
    && (forall p {:trigger Decrypted(arn, p)} :: answer == Decrypted(arn, p) <==> OpensTo(c, keys, u, context, p))
    && (answer == Failed(InvalidCiphertext) || exists p :: answer == Decrypted(arn, p))
  }

  lemma OpeningAnswers(c: Suite, k: KeyRecord, u: Unpacked, context: map<Bytes, Bytes>, a: EncryptionAlgorithm)
    requires k.keyType == Aes && |k.backingKeys| <= 0xFFFF_FFFF
    ensures AnswersOpening(c, k.backingKeys, k.meta.arn, u, context,
                           DecryptedUnder(c, k, u.version, u.ciphertext, context, a))
  {
  }

  /** Decrypt without a KeyId, of any blob that unpacks: with the usable AES key that it names, a
      plaintext if and only if the stored backing key of the blob's version opens the ciphertext
      under the context, and InvalidCiphertext otherwise. */
  lemma DecryptAnswersExactly(c: Suite, cfg: Config, db: Db, blob: Bytes, context: map<Bytes, Bytes>,
                              a: EncryptionAlgorithm, env: Env, u: Unpacked)
    requires AllNamed(cfg, db.records) && env.year >= MIN_YEAR
    requires 1 <= |blob| <= 6144 && UnpackCiphertextBlob(blob) == Ok(u)
    ensures var (db', got) := GotUsableKey(cfg, db, u.ident, env.now, env.year, env.firstDraw);
            var result := DecryptResult(c, cfg, db, None, blob, context, a, env);
            && result.0 == db'
            && (got.Unusable? ==> result.1 == Failed(AccessDenied))
            && (got.Usable? ==> HandedOut(db'.records, got.key))
            && (got.Usable? && got.key.keyType == Aes && |got.key.backingKeys| <= 0xFFFF_FFFF ==>
                  AnswersOpening(c, StoredKeys(db'.records, got.key), got.key.meta.arn, u, context, result.1))
  {
    var got := GotUsableKey(cfg, db, u.ident, env.now, env.year, env.firstDraw);
    UsableKeyStep(cfg, db, u.ident, Quiet(env), env.year, env.firstDraw);
    if got.1.Usable? && got.1.key.keyType == Aes && |got.1.key.backingKeys| <= 0xFFFF_FFFF {
      OpeningAnswers(c, got.1.key, u, context, a);
    }
  }

  /** With a KeyId that leads to a usable AES key: the same if the blob names that key; a blob that
      names another is refused, and one that does not unpack is invalid. */
  lemma DecryptWithKeyIdAnswersExactly(c: Suite, cfg: Config, db: Db, keyId: Bytes, blob: Bytes,
                                       context: map<Bytes, Bytes>, a: EncryptionAlgorithm, env: Env)
    requires AllNamed(cfg, db.records) && env.year >= MIN_YEAR && 1 <= |blob| <= 6144
    ensures var (db', got) := GotUsableKey(cfg, db, keyId, env.now, env.year, env.firstDraw);
            var result := DecryptResult(c, cfg, db, Some(keyId), blob, context, a, env);
            && result.0 == db'
            && (got.Unusable? ==> result.1 == Failed(got.error))
            && (got.Usable? ==> HandedOut(db'.records, got.key))
            && (got.Usable? && got.key.keyType == Aes && |got.key.backingKeys| <= 0xFFFF_FFFF ==>
                  match UnpackCiphertextBlob(blob)
                  case Panic => result.1 == Panicked
                  case Err => result.1 == Failed(InvalidCiphertext)
                  case Ok(u) =>
                    if u.ident != got.key.meta.arn then result.1 == Failed(AccessDenied)
                    else AnswersOpening(c, StoredKeys(db'.records, got.key), got.key.meta.arn, u, context, result.1))
  {
    var got := GotUsableKey(cfg, db, keyId, env.now, env.year, env.firstDraw);
    UsableKeyStep(cfg, db, keyId, Quiet(env), env.year, env.firstDraw);
    if got.1.Usable? && got.1.key.keyType == Aes && |got.1.key.backingKeys| <= 0xFFFF_FFFF
       && UnpackCiphertextBlob(blob).Ok?
    {
      OpeningAnswers(c, got.1.key, UnpackCiphertextBlob(blob).result, context, a);
    }
  }

  /** Without a KeyId, keys of the other types get the ciphertext that follows the header. */
  lemma OtherKeysDecryptByBlob(c: Suite, cfg: Config, db: Db, blob: Bytes, context: map<Bytes, Bytes>,
                               a: EncryptionAlgorithm, env: Env)
    requires 1 <= |blob| <= 6144
    ensures var answer := DecryptResult(c, cfg, db, None, blob, context, a, env).1;
            match UnpackCiphertextBlob(blob)
            case Panic => answer == Panicked
            case Err => answer == Failed(InvalidCiphertext)
            case Ok(u) =>
              var got := GotUsableKey(cfg, db, u.ident, env.now, env.year, env.firstDraw).1;
              && (got.Usable? && got.key.keyType in {Ecc, Hmac} ==> answer == Failed(InternalFailure))
              && (got.Usable? && got.key.keyType == Rsa ==>
                    if got.key.meta.keyUsage != EncryptDecrypt then answer == Failed(InvalidKeyUsage)
                    else if a !in {OaepSha1, OaepSha256} then answer == Failed(InvalidCiphertext)
                    else match c.rsaDecrypt(got.key.privateKey, a, u.ciphertext)
                         case None => answer == Failed(InvalidCiphertext)
                         case Some(p) => answer == Decrypted(got.key.meta.arn, p))
  {
  }

  /** Keys of the other types: RSA keys for encryption open what their library opens, with an OAEP
      algorithm; the rest refuse. */
  lemma OtherKeysDecrypt(c: Suite, cfg: Config, db: Db, keyId: Bytes, blob: Bytes, context: map<Bytes, Bytes>,
                         a: EncryptionAlgorithm, env: Env)
    requires 1 <= |blob| <= 6144
    ensures var (db', got) := GotUsableKey(cfg, db, keyId, env.now, env.year, env.firstDraw);
            var answer := DecryptResult(c, cfg, db, Some(keyId), blob, context, a, env).1;
            && (got.Usable? && got.key.keyType in {Ecc, Hmac} ==> answer == Failed(InternalFailure))
            && (got.Usable? && got.key.keyType == Rsa ==>
                  if got.key.meta.keyUsage != EncryptDecrypt then answer == Failed(InvalidKeyUsage)
                  else if a !in {OaepSha1, OaepSha256} then answer == Failed(InvalidCiphertext)
                  else match c.rsaDecrypt(got.key.privateKey, a, blob)
                       case None => answer == Failed(InvalidCiphertext)
                       case Some(p) => answer == Decrypted(got.key.meta.arn, p))
  {
  }

  /** Blobs of a wrong size are refused before any key is loaded. */
  lemma DecryptSizes(c: Suite, cfg: Config, db: Db, keyId: Option<Bytes>, blob: Bytes, context: map<Bytes, Bytes>,
                     a: EncryptionAlgorithm, env: Env)
    requires |blob| == 0 || |blob| > 6144
    ensures DecryptResult(c, cfg, db, keyId, blob, context, a, env) == (db, Failed(Validation))
  {
  }

  //----------------------------------------------------------------------------------------
  // Encrypt and GenerateDataKey

  /** The bytes that an AES key with these backing keys issues: the documented layout, with the
      number of the last backing key, sealed by it. */
  ghost function IssuedBytes(c: Suite, keys: seq<Bytes>, arn: Bytes, text: Bytes, context: map<Bytes, Bytes>,
                             nonce: Nonce): Bytes
    requires keys != [] && |arn| <= 255
  {
    var last := |keys| - 1;
    [|arn| as byte] + arn + LittleEndian32(last) + nonce + c.seal(keys[last], nonce, text, ContextBytes(context))
  }

  lemma PackagedExactly(c: Suite, k: KeyRecord, text: Bytes, context: map<Bytes, Bytes>, nonce: Nonce)
    ensures PackagedCiphertext(c, k, text, context, nonce) ==
            if |k.backingKeys| == 0 then Panic
            else if |k.meta.arn| > 255 then Err
            else if |k.backingKeys| > 0x1_0000_0000 then Panic
            else Ok(IssuedBytes(c, k.backingKeys, k.meta.arn, text, context, nonce))
  {
    if |k.backingKeys| > 0 && |k.meta.arn| <= 255 && |k.backingKeys| <= 0x1_0000_0000 {
      var last := |k.backingKeys| - 1;
      var sealed := c.seal(k.backingKeys[last], nonce, text, ContextBytes(context));
      assert [|k.meta.arn| as byte] + k.meta.arn + LittleEndian32(last) + (nonce + sealed)
          == [|k.meta.arn| as byte] + k.meta.arn + LittleEndian32(last) + nonce + sealed;
    }
  }

  /** Encrypt with a usable AES key: when it succeeds and with which bytes, for plaintexts of 1 to
      4096 bytes. */
  lemma EncryptAnswersExactly(c: Suite, cfg: Config, db: Db, keyId: Bytes, plaintext: Bytes, context: map<Bytes, Bytes>,
                              a: EncryptionAlgorithm, env: Env)
    ensures var (db', got) := GotUsableKey(cfg, db, keyId, env.now, env.year, env.firstDraw);
            var result := EncryptResult(c, cfg, db, keyId, plaintext, context, a, env);
            if !(1 <= |plaintext| <= 4096) then result == (db, Failed(Validation))
            else if got.Unusable? then result == (db', Failed(got.error))
            else
              result.0 == db' &&
              (got.key.keyType == Aes ==>
                 result.1 ==
                 if |got.key.backingKeys| == 0 then Panicked
                 else if |got.key.meta.arn| > 255 then Failed(InternalFailure)
                 else if |got.key.backingKeys| > 0x1_0000_0000 then Panicked
                 else Encrypted(got.key.meta.arn,
                                IssuedBytes(c, got.key.backingKeys, got.key.meta.arn, plaintext, context, env.nonce)))
  {
    var got := GotUsableKey(cfg, db, keyId, env.now, env.year, env.firstDraw);
    if got.1.Usable? && got.1.key.keyType == Aes {
      PackagedExactly(c, got.1.key, plaintext, context, env.nonce);
    }
  }

  /** The longest plaintext an RSA key takes, in bytes. */
  function RsaLimit(spec: KeySpec, a: EncryptionAlgorithm): nat
    requires spec in {Rsa2048, Rsa3072, Rsa4096} && a in {OaepSha1, OaepSha256}
  {
    if spec == Rsa2048 then if a == OaepSha1 then 214 else 190
    else if spec == Rsa3072 then if a == OaepSha1 then 342 else 318
    else if a == OaepSha1 then 470 else 446
  }

  /** Encrypt with the other types: RSA keys up to their limit, the rest never. */
  lemma OtherKeysEncrypt(c: Suite, cfg: Config, db: Db, keyId: Bytes, plaintext: Bytes, context: map<Bytes, Bytes>,
                         a: EncryptionAlgorithm, env: Env)
    requires 1 <= |plaintext| <= 4096
    ensures var got := GotUsableKey(cfg, db, keyId, env.now, env.year, env.firstDraw).1;
            var answer := EncryptResult(c, cfg, db, keyId, plaintext, context, a, env).1;
            && (got.Usable? && got.key.keyType in {Ecc, Hmac} ==>
                  answer == Failed(if got.key.meta.keyUsage == SignVerify then InvalidKeyUsage else InternalFailure))
            && (got.Usable? && got.key.keyType == Rsa && got.key.meta.keySpec in {Rsa2048, Rsa3072, Rsa4096} ==>
                  if got.key.meta.keyUsage != EncryptDecrypt then answer == Failed(InvalidKeyUsage)
                  else if a !in {OaepSha1, OaepSha256} then answer == Failed(InternalFailure)
                  else if |plaintext| > RsaLimit(got.key.meta.keySpec, a) then answer == Failed(InvalidKeyUsage)
                  else match c.rsaEncrypt(got.key.privateKey, a, plaintext, env.seed)
                       case None => answer == Failed(InternalFailure)
                       case Some(blob) => answer == Encrypted(got.key.meta.arn, blob))
  {
  }

  lemma DataKeyAnswersExactly(c: Suite, cfg: Config, db: Db, keyId: Bytes, secret: Bytes, context: map<Bytes, Bytes>,
                              env: Env)
    ensures var (db', got) := GotUsableKey(cfg, db, keyId, env.now, env.year, env.firstDraw);
            DataKeyResult(c, cfg, db, keyId, secret, context, env) ==
            (db', if got.Unusable? then Failed(got.error)
                  else if got.key.keyType != Aes then Failed(InvalidKeyUsage)
                  else if |got.key.backingKeys| == 0 then Panicked
                  else if |got.key.meta.arn| > 255 then Failed(InternalFailure)
                  else if |got.key.backingKeys| > 0x1_0000_0000 then Panicked
                  else DataKeyIssued(got.key.meta.arn,
                                     IssuedBytes(c, got.key.backingKeys, got.key.meta.arn, secret, context, env.nonce),
                                     secret))
  {
    var got := GotUsableKey(cfg, db, keyId, env.now, env.year, env.firstDraw);
    if got.1.Usable? {
      PackagedExactly(c, got.1.key, secret, context, env.nonce);
    }
  }

  //----------------------------------------------------------------------------------------
  // MACs

  /** GenerateMac answers with the HMAC under the first stored backing key, and only for a usable
      HMAC key that supports the algorithm. */
  lemma GenerateMacAnswersExactly(c: Suite, cfg: Config, db: Db, keyId: Bytes, message: Bytes, a: MacAlgorithm,
                                  env: Env)
    ensures var (db', got) := GotUsableKey(cfg, db, keyId, env.now, env.year, env.firstDraw);
            GenerateMacResult(c, cfg, db, keyId, message, a, env) ==
            (db', if got.Unusable? then Failed(got.error)
                  else if got.key.meta.keyState != Enabled then Failed(KeyDisabled)
                  else if got.key.keyType != Hmac then Failed(Validation)
                  else if a !in got.key.meta.macAlgorithms then Failed(Validation)
                  else if |got.key.backingKeys| == 0 || a == OtherMac then Failed(InternalFailure)
                  else MacGenerated(got.key.meta.arn, c.hmac(a, got.key.backingKeys[0], message)))
  {
  }

  /** VerifyMac with a usable HMAC key that supports the algorithm and has material answers true if
      and only if the MAC is genuine for the record in the store, and false otherwise. */
  lemma VerifyMacAnswersExactly(c: Suite, cfg: Config, db: Db, keyId: Bytes, message: Bytes, mac: Bytes,
                                a: MacAlgorithm, env: Env)
    requires AllNamed(cfg, db.records) && env.year >= MIN_YEAR
    ensures var (db', got) := GotUsableKey(cfg, db, keyId, env.now, env.year, env.firstDraw);
            var result := VerifyMacResult(c, cfg, db, keyId, message, mac, a, env);
            && result.0 == db'
            && (got.Unusable? ==> result.1 == Failed(got.error))
            && (got.Usable? ==>
                  if got.key.meta.keyState != Enabled then result.1 == Failed(KeyDisabled)
                  else if got.key.keyType != Hmac then result.1 == Failed(Validation)
                  else if a !in got.key.meta.macAlgorithms then result.1 == Failed(Validation)
                  else if got.key.backingKeys == [] || a == OtherMac then result.1 == Failed(InternalFailure)
                  else
                    && result.1.MacVerified? && result.1.keyArn == got.key.meta.arn
                    && (result.1.valid <==> GenuineMac(c, db'.records, got.key.meta.arn, message, mac, a)))
  {
    UsableKeyStep(cfg, db, keyId, Quiet(env), env.year, env.firstDraw);
  }

  //----------------------------------------------------------------------------------------
  // ReEncrypt

  /** What ReEncrypt reads from the blob: its fields, or empty ones if it does not unpack. */
  function FieldsRead(blob: Bytes): Unpacked {
    match UnpackCiphertextBlob(blob)
    case Ok(u) => u
    case _ => Unpacked([], 0, [])
  }

  /** An RSA source opens the whole blob, with an OAEP algorithm. */
  ghost function FromRsa(c: Suite, cfg: Config, db: Db, re: ReEncryption, source: KeyRecord, env: Env): (Db, Response) {
    if re.sourceAlgorithm !in {OaepSha1, OaepSha256} then (db, Failed(InvalidCiphertext))
    else match c.rsaDecrypt(source.privateKey, re.sourceAlgorithm, re.blob)
         case None => (db, Failed(InvalidCiphertext))
         case Some(p) => EncryptedAgain(c, cfg, db, re, source, p, env)
  }

  /** The first half: blobs of a wrong size, unusable source keys and keys of another usage are
      refused; a usable AES source goes on with the text the ciphertext opens to, or refuses it. */
  lemma ReEncryptReadsExactly(c: Suite, cfg: Config, db: Db, re: ReEncryption, env: Env)
    ensures |re.blob| == 0 ==> ReEncryptResult(c, cfg, db, re, env) == (db, Failed(MissingParameter))
    ensures |re.blob| > 6144 ==> ReEncryptResult(c, cfg, db, re, env) == (db, Failed(Validation))
    ensures 1 <= |re.blob| <= 6144 && UnpackCiphertextBlob(re.blob) == Panic ==>
              ReEncryptResult(c, cfg, db, re, env) == (db, Panicked)
    ensures 1 <= |re.blob| <= 6144 && UnpackCiphertextBlob(re.blob) != Panic ==>
              var u := FieldsRead(re.blob);
              var sourceId := match re.sourceKeyId case Some(id) => id case None => u.ident;
              var (db1, source) := GotUsableKey(cfg, db, sourceId, env.now, env.year, env.firstDraw);
              var result := ReEncryptResult(c, cfg, db, re, env);
              && (source.Unusable? ==> result == (db1, Failed(source.error)))
              && (source.Usable? && source.key.meta.keyUsage != EncryptDecrypt ==>
                    result == (db1, Failed(InvalidKeyUsage)))
              && (source.Usable? && source.key.meta.keyUsage == EncryptDecrypt && source.key.keyType == Rsa ==>
                    result == FromRsa(c, cfg, db1, re, source.key, env))
              && (source.Usable? && source.key.meta.keyUsage == EncryptDecrypt && source.key.keyType == Aes
                  && |source.key.backingKeys| <= 0xFFFF_FFFF ==>
                    && (forall p :: OpensTo(c, source.key.backingKeys, u, re.sourceContext, p) ==>
                          result == EncryptedAgain(c, cfg, db1, re, source.key, p, env))
                    && ((forall p :: !OpensTo(c, source.key.backingKeys, u, re.sourceContext, p)) ==>
                          result == (db1, Failed(InvalidCiphertext))))
  {
    if 1 <= |re.blob| <= 6144 && UnpackCiphertextBlob(re.blob) != Panic {
      var u := FieldsRead(re.blob);
      var sourceId := match re.sourceKeyId case Some(id) => id case None => u.ident;
      var source := GotUsableKey(cfg, db, sourceId, env.now, env.year, env.firstDraw);
      if source.1.Usable? {
        ReEncryptReads(c, cfg, source.0, re, source.1.key, u, env);
      }
    }
  }

  lemma ReEncryptReads(c: Suite, cfg: Config, db: Db, re: ReEncryption, source: KeyRecord, u: Unpacked, env: Env)
    ensures var result := ReEncryptedFrom(c, cfg, db, re, source, u, env);
            && (source.meta.keyUsage != EncryptDecrypt ==> result == (db, Failed(InvalidKeyUsage)))
            && (source.meta.keyUsage == EncryptDecrypt && source.keyType == Rsa ==>
                  result == FromRsa(c, cfg, db, re, source, env))
            && (source.meta.keyUsage == EncryptDecrypt && source.keyType == Aes
                && |source.backingKeys| <= 0xFFFF_FFFF ==>
                  && (forall p :: OpensTo(c, source.backingKeys, u, re.sourceContext, p) ==>
                        result == EncryptedAgain(c, cfg, db, re, source, p, env))
                  && ((forall p :: !OpensTo(c, source.backingKeys, u, re.sourceContext, p)) ==>
                        result == (db, Failed(InvalidCiphertext))))
  {
    if source.meta.keyUsage == EncryptDecrypt && source.keyType == Aes && |source.backingKeys| <= 0xFFFF_FFFF {
      OpeningAnswers(c, source, u, re.sourceContext, re.sourceAlgorithm);
      var text := SourceText(c, source, re, u);
      if text.Decrypted? {
        assert OpensTo(c, source.backingKeys, u, re.sourceContext, text.plaintext);
      }
    }
  }

  /** The second half: what it issues under a usable AES destination key, and the refusals. */
  lemma ReEncryptWritesExactly(c: Suite, cfg: Config, db: Db, re: ReEncryption, source: KeyRecord, text: Bytes,
                               env: Env)
    ensures var (db', dest) := GotUsableKey(cfg, db, re.destinationKeyId, env.now, env.year, env.secondDraw);
            var result := EncryptedAgain(c, cfg, db, re, source, text, env);
            && result.0 == db'
            && (dest.Unusable? ==> result.1 == Failed(dest.error))
            && (dest.Usable? && dest.key.meta.keyUsage != EncryptDecrypt ==> result.1 == Failed(InvalidKeyUsage))
            && (dest.Usable? && dest.key.meta.keyUsage == EncryptDecrypt && dest.key.keyType == Aes ==>
                  result.1 ==
                  if |dest.key.backingKeys| == 0 then Panicked
                  else if |dest.key.meta.arn| > 255 then Failed(InternalFailure)
                  else if |dest.key.backingKeys| > 0x1_0000_0000 then Panicked
                  else ReEncrypted(dest.key.meta.arn, source.meta.arn,
                                   IssuedBytes(c, dest.key.backingKeys, dest.key.meta.arn, text,
                                               re.destinationContext, env.nonce)))
            && (dest.Usable? && dest.key.meta.keyUsage == EncryptDecrypt && dest.key.keyType == Rsa ==>
                  if re.destinationAlgorithm !in {OaepSha1, OaepSha256} then result.1 == Failed(InternalFailure)
                  else match c.rsaEncrypt(dest.key.privateKey, re.destinationAlgorithm, text, env.seed)
                       case None => result.1 == Failed(InternalFailure)
                       case Some(blob) => result.1 == ReEncrypted(dest.key.meta.arn, source.meta.arn, blob))
  {
    var dest := GotUsableKey(cfg, db, re.destinationKeyId, env.now, env.year, env.secondDraw);
    if dest.1.Usable? {
      PackagedExactly(c, dest.1.key, text, re.destinationContext, env.nonce);
    }
  }
}
