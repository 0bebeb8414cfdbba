/** Rotation seen by the holders of ciphertexts: after a key has been rotated on demand, no blob is
    issued any more under the backing keys that it had before. */
module Rotation {
  import opened Wrappers
  import opened ByteStrings
  import opened Names
  import opened Crypto
  import opened Ciphertext
  import opened Keys
  import opened Lifecycle
  import opened Store
  import opened Requests
  import opened KeyHistory
  import opened StoreHistory
  import opened Runs
  import opened Safety
  import opened Issued
  import opened Loading
  import Changes

  /** The event rotates the key on demand, and the drawn backing key is saved. */
  ghost predicate RotatesOnDemand(c: Suite, cfg: Config, s: System, e: Event, arn: Bytes) {
    e.request.ChangeKey? && e.request.op.RotateKeyOnDemand? && Answer(c, cfg, s, e) == Done(arn)
  }

  lemma RotationAnswers(c: Suite, cfg: Config, db: Db, keyId: Bytes, drawn: Bytes, env: Env, arn: Bytes)
    requires KeyChanged(c, cfg, db, keyId, RotateKeyOnDemand(drawn), env).1 == Done(arn)
    ensures var (db1, loaded) := GotKey(cfg, db, keyId, env.now, env.year, env.firstDraw);
            && loaded.Some? && loaded.value.meta.arn == arn && loaded.value.meta.enabled && loaded.value.keyType == Aes
            && var r := KeyChanged(c, cfg, db, keyId, RotateKeyOnDemand(drawn), env).0.records;
               && HoldsKey(r, arn) && r[arn].key.keyType == Aes
               && r[arn].key.backingKeys == loaded.value.backingKeys + [drawn]
  {
    var (db1, loaded) := GotKey(cfg, db, keyId, env.now, env.year, env.firstDraw);
    if loaded == None {
      Changes.NoKeyToChange(c, cfg, db, keyId, RotateKeyOnDemand(drawn), env);
    } else {
      Changes.RotateKeyOnDemandExactly(c, cfg, db, keyId, drawn, env, db1, loaded.value);
    }
  }

  /** A successful RotateKeyOnDemand adds the drawn key at the end of the stored ones. */
  lemma RotationIsSaved(c: Suite, cfg: Config, db: Db, keyId: Bytes, drawn: Bytes, env: Env, arn: Bytes)
    requires AllNamed(cfg, db.records) && env.year >= MIN_YEAR
    requires KeyChanged(c, cfg, db, keyId, RotateKeyOnDemand(drawn), env).1 == Done(arn)
    ensures var db' := KeyChanged(c, cfg, db, keyId, RotateKeyOnDemand(drawn), env).0;
            && HoldsKey(db.records, arn) && HoldsKey(db'.records, arn)
            && var k, k' := db.records[arn].key, db'.records[arn].key;
               && k'.keyType == Aes && |k'.backingKeys| > |k.backingKeys|
               && k'.backingKeys[|k'.backingKeys| - 1] == drawn
  {
    var got := GotKey(cfg, db, keyId, env.now, env.year, env.firstDraw);
    RotationAnswers(c, cfg, db, keyId, drawn, env, arn);
    GetKeyStep(cfg, db, keyId, Quiet(env), env.year, env.firstDraw);
    var name :| LoadedFrom(got.0.records, name, got.1.value);
    EnabledKeyIsStored(cfg, got.0.records, name, got.1.value);
    GrewFromStart(db.records, got.0.records, arn, Quiet(env));
  }

  lemma EnabledKeyIsStored(cfg: Config, records: map<Bytes, Record>, name: Bytes, k: KeyRecord)
    requires AllNamed(cfg, records) && LoadedFrom(records, name, k) && k.meta.enabled
    ensures HoldsKey(records, k.meta.arn) && records[k.meta.arn].key.backingKeys == k.backingKeys
  {
    var subject := SubjectOf(cfg, records, name);
  }

  lemma RotationIsStored(c: Suite, cfg: Config, s: System, e: Event, arn: Bytes)
    requires Inv(cfg, s) && Admissible(cfg, s, e) && RotatesOnDemand(c, cfg, s, e, arn)
    ensures var s' := Next(c, cfg, s, e);
            && Holds(s, arn) && Holds(s', arn) && KeyIn(s', arn).keyType == Aes
            && |KeyIn(s', arn).backingKeys| > |KeyIn(s, arn).backingKeys|
            && KeyIn(s', arn).backingKeys[|KeyIn(s', arn).backingKeys| - 1] == e.request.op.drawn
  {
    RotationIsSaved(c, cfg, s.db, e.request.keyId, e.request.op.drawn, e.env, arn);
  }

  /** From the rotation on, in every run, whatever the requests and whichever writes fail: a blob
      issued by that key carries a version above all those that could be issued before it, and is
      sealed under the backing key of that number; the first of these keys is the drawn one, for
      good. */
  lemma OldKeysSealNoMore(c: Suite, cfg: Config, s: System, e: Event, es: seq<Event>, f: Event, arn: Bytes)
    requires Inv(cfg, s) && Admissible(cfg, s, e) && RotatesOnDemand(c, cfg, s, e, arn) && |arn| <= 250
    requires AdmissibleRun(c, cfg, Next(c, cfg, s, e), es)
    requires var s' := Run(c, cfg, Next(c, cfg, s, e), es);
             && Admissible(cfg, s', f) && IssuesBlob(Answer(c, cfg, s', f)) && Answer(c, cfg, s', f).keyArn == arn
    ensures Holds(s, arn) && Holds(Next(c, cfg, s, e), arn)
    ensures var last := |KeyIn(Next(c, cfg, s, e), arn).backingKeys| - 1;
            var s' := Run(c, cfg, Next(c, cfg, s, e), es);
            var s'' := Next(c, cfg, s', f);
            && last >= |KeyIn(s, arn).backingKeys|
            && Holds(s'', arn) && |KeyIn(s'', arn).backingKeys| > last
            && KeyIn(s'', arn).backingKeys[last] == e.request.op.drawn
            && UnpackCiphertextBlob(Answer(c, cfg, s', f).blob).Ok?
            && UnpackCiphertextBlob(Answer(c, cfg, s', f).blob).result.version >= last
            && CarriesLast(c, KeyIn(s'', arn).backingKeys, arn, Answer(c, cfg, s', f).blob,
                           IssuedText(c, cfg, s'.db, f.request, f.env), ContextOf(f.request))
  {
    var s1 := Next(c, cfg, s, e);
    var s' := Run(c, cfg, s1, es);
    RotationIsStored(c, cfg, s, e, arn);
    NextStep(c, cfg, s, e, arn);
    assert arn in s1.minted;
    RunKeepsInv(c, cfg, s1, es);
    BlobCarriesLastVersion(c, cfg, s', f);
    KeyOnlyExtends(c, cfg, s1, es, f, arn);
  }

  /** The key at the end of a run and one more event extends the one at its start. */
  lemma KeyOnlyExtends(c: Suite, cfg: Config, s: System, es: seq<Event>, f: Event, arn: Bytes)
    requires Inv(cfg, s) && AdmissibleRun(c, cfg, s, es) && arn in s.minted
    requires Admissible(cfg, Run(c, cfg, s, es), f) && Holds(Next(c, cfg, Run(c, cfg, s, es), f), arn)
    ensures Holds(s, arn) && Grows(KeyIn(s, arn), KeyIn(Next(c, cfg, Run(c, cfg, s, es), f), arn))
  {
    RunAppend(c, cfg, s, es, f);
    RunOnlyExtends(c, cfg, s, es + [f], arn);
  }

  /** The ciphertext in the blob is sealed by the given key, and its version is the given one. */
  ghost predicate SealedWith(c: Suite, blob: Bytes, version: nat, key: Bytes, text: Bytes, context: map<Bytes, Bytes>) {
    && UnpackCiphertextBlob(blob).Ok? && UnpackCiphertextBlob(blob).result.version == version
    && exists nonce: Nonce ::
         UnpackCiphertextBlob(blob).result.ciphertext == nonce + c.seal(key, nonce, text, ContextBytes(context))
  }

  /** An Encrypt answered with that key, on whose load no rotation is due. */
  ghost predicate EncryptsUndisturbed(c: Suite, cfg: Config, s: System, f: Event, arn: Bytes) {
    && Admissible(cfg, s, f) && f.request.Encrypt?
    && Answer(c, cfg, s, f).Encrypted? && Answer(c, cfg, s, f).keyArn == arn
    && Holds(s, arn) && !RotationDue(KeyIn(s, arn), f.env.now)
  }

  /** The very next Encrypt with that key, if no rotation is due on its load: the version is exactly
      the new one, and the drawn key seals. */
  lemma NextEncryptUsesDrawnKey(c: Suite, cfg: Config, s: System, e: Event, f: Event, arn: Bytes)
    requires Inv(cfg, s) && Admissible(cfg, s, e) && RotatesOnDemand(c, cfg, s, e, arn) && |arn| <= 250
    requires EncryptsUndisturbed(c, cfg, Next(c, cfg, s, e), f, arn)
    ensures var s1 := Next(c, cfg, s, e);
            SealedWith(c, Answer(c, cfg, s1, f).blob, |KeyIn(s1, arn).backingKeys| - 1, e.request.op.drawn,
                       f.request.plaintext, f.request.context)
  {
    RotationIsStored(c, cfg, s, e, arn);
    NextStep(c, cfg, s, e, arn);
    EncryptUsesLastKey(c, cfg, Next(c, cfg, s, e), f, arn);
  }

  lemma EncryptUsesLastKey(c: Suite, cfg: Config, s: System, f: Event, arn: Bytes)
    requires Inv(cfg, s) && EncryptsUndisturbed(c, cfg, s, f, arn) && |arn| <= 250
    requires KeyIn(s, arn).keyType == Aes && KeyIn(s, arn).backingKeys != []
    ensures var keys := KeyIn(s, arn).backingKeys;
            SealedWith(c, Answer(c, cfg, s, f).blob, |keys| - 1, keys[|keys| - 1], f.request.plaintext,
                       f.request.context)
  {
    var r, blob := f.request, Answer(c, cfg, s, f).blob;
    EncryptHandsOut(c, cfg, s.db, r.keyId, r.plaintext, r.context, r.algorithm, f.env);
    UsableKeyRotatesWhenDue(cfg, s.db, r.keyId, f.env, arn);
    BlobCarriesLastVersion(c, cfg, s, f);
    LastKeySealed(c, KeyIn(s, arn).backingKeys, arn, blob, r.plaintext, r.context);
  }

  lemma EncryptHandsOut(c: Suite, cfg: Config, db: Db, keyId: Bytes, plaintext: Bytes, context: map<Bytes, Bytes>,
                        a: EncryptionAlgorithm, env: Env)
    ensures var result := EncryptResult(c, cfg, db, keyId, plaintext, context, a, env);
            var got := GotUsableKey(cfg, db, keyId, env.now, env.year, env.firstDraw);
            result.1.Encrypted? ==> got.1.Usable? && got.1.key.meta.arn == result.1.keyArn && result.0 == got.0
  {
  }

  lemma LastKeySealed(c: Suite, keys: seq<Bytes>, arn: Bytes, blob: Bytes, text: Bytes, context: map<Bytes, Bytes>)
    requires CarriesLast(c, keys, arn, blob, text, context)
    ensures keys != [] && SealedWith(c, blob, |keys| - 1, keys[|keys| - 1], text, context)
  {
    var nonce: Nonce :| CarriesUnder(c, keys, arn, blob, text, context, nonce);
  }

  /** Handing a usable key out adds a backing key to it only if a rotation was due. */
  lemma UsableKeyRotatesWhenDue(cfg: Config, db: Db, keyId: Bytes, env: Env, arn: Bytes)
    requires AllNamed(cfg, db.records) && env.year >= MIN_YEAR
    requires HoldsKey(db.records, arn) && !RotationDue(db.records[arn].key, env.now)
    requires var got := GotUsableKey(cfg, db, keyId, env.now, env.year, env.firstDraw);
             got.1.Usable? && got.1.key.meta.arn == arn
    ensures var r := GotUsableKey(cfg, db, keyId, env.now, env.year, env.firstDraw).0.records;
            HoldsKey(r, arn) && Grows(db.records[arn].key, r[arn].key)
            && r[arn].key.backingKeys == db.records[arn].key.backingKeys
  {
    var got := GotKey(cfg, db, keyId, env.now, env.year, env.firstDraw);
    UsableKeyStep(cfg, db, keyId, Quiet(env), env.year, env.firstDraw);
    var name := ResolvedName(cfg, db, keyId).value;
    LoadStep(cfg, db, name, Quiet(env), env.year, env.firstDraw);
    LoadedIsHandedOut(cfg, got.0.records, name, got.1.value);
    RotatesExactlyWhenDue(cfg, db, arn, env.now, env.year, env.firstDraw);
  }
}
