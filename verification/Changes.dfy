/** Exactly what each key-changing request does to a key that it could load: when it is refused and
    with which error, and otherwise the fields it leaves, and that it succeeds if and only if the
    record can be saved. In terms of the record's fields and the request alone. */
module Changes {
  import opened Wrappers
  import opened ByteStrings
  import opened Names
  import opened Crypto
  import opened Keys
  import opened Lifecycle
  import opened Store
  import opened Requests
  import opened Loading

  /** A refusal: nothing changes beyond the load. */
  predicate Refuses(result: (Db, Response), db: Db, e: Error) {
    result == (db, Failed(e))
  }

  /** The record becomes `k`, and the answer is success, if it can be saved; otherwise nothing
      changes. */
  predicate Becomes(result: (Db, Response), db: Db, k: KeyRecord) {
    if Complete(k) && |db.disk| > 0 && db.disk[0] then
      result == (Db(db.records[k.meta.arn := KeyRec(k)], db.disk[1..]), Done(k.meta.arn))
    else result.0.records == db.records && result.1 == Failed(InternalFailure)
  }

  /** Loading for a request that takes a key id, ARN or alias. */
  predicate Got(cfg: Config, db: Db, keyId: Bytes, env: Env, db1: Db, k: KeyRecord) {
    GotKey(cfg, db, keyId, env.now, env.year, env.firstDraw) == (db1, Some(k))
  }

  /** Loading for a request that takes an id or ARN. */
  predicate Loaded(cfg: Config, db: Db, keyId: Bytes, env: Env, db1: Db, k: KeyRecord) {
    LoadedKey(db, EnsureArn(cfg, KEY, keyId), env.now, env.year, env.firstDraw) == (db1, Some(k))
  }

  /** The key a request loads: some handlers take an alias too, others only an id or ARN. */
  predicate Ready(cfg: Config, db: Db, op: KeyOp, keyId: Bytes, env: Env, db1: Db, k: KeyRecord) {
    match op
    case ScheduleKeyDeletion(_) => Loaded(cfg, db, keyId, env, db1, k)
    case CancelKeyDeletion => Loaded(cfg, db, keyId, env, db1, k)
    case EnableKeyRotation => Loaded(cfg, db, keyId, env, db1, k)
    case DisableKeyRotation => Loaded(cfg, db, keyId, env, db1, k)
    case UpdateKeyDescription(_) => Loaded(cfg, db, keyId, env, db1, k)
    case PutKeyPolicy(_) => Got(cfg, db, EnsureArn(cfg, KEY, keyId), env, db1, k)
    case _ => Got(cfg, db, keyId, env, db1, k)
  }

  /** What is made of the loaded record decides the request. */
  lemma Lifted(c: Suite, cfg: Config, db: Db, keyId: Bytes, op: KeyOp, env: Env, db1: Db, k: KeyRecord)
    requires Ready(cfg, db, op, keyId, env, db1, k) && RequestValid(op, env.now)
    ensures var result := KeyChanged(c, cfg, db, keyId, op, env);
            match Apply(c, op, k, env.now, env.year)
            case Rejected(e) => Refuses(result, db1, e)
            case Changed(k') => Becomes(result, db1, k')
  {
    assert KeyChanged(c, cfg, db, keyId, op, env) == AppliedToLoaded(c, db1, op, k, env);
    var change := Apply(c, op, k, env.now, env.year);
    if change.Changed? {
      assert SaveAllowed(change.key) <==> Complete(change.key);
    }
  }

  //----------------------------------------------------------------------------------------
  // State

  lemma EnableKeyExactly(c: Suite, cfg: Config, db: Db, keyId: Bytes, env: Env, db1: Db, k: KeyRecord)
    requires Got(cfg, db, keyId, env, db1, k)
    ensures var result := KeyChanged(c, cfg, db, keyId, EnableKey, env);
            if k.meta.keyState in {PendingDeletion, PendingImport} then Refuses(result, db1, InvalidState)
            else Becomes(result, db1, k.(meta := k.meta.(enabled := true, keyState := Enabled)))
  {
    Lifted(c, cfg, db, keyId, EnableKey, env, db1, k);
  }

  lemma DisableKeyExactly(c: Suite, cfg: Config, db: Db, keyId: Bytes, env: Env, db1: Db, k: KeyRecord)
    requires Got(cfg, db, keyId, env, db1, k)
    ensures var result := KeyChanged(c, cfg, db, keyId, DisableKey, env);
            if k.meta.keyState in {PendingDeletion, PendingImport} then Refuses(result, db1, InvalidState)
            else Becomes(result, db1, k.(meta := k.meta.(enabled := false, keyState := Disabled)))
  {
    Lifted(c, cfg, db, keyId, DisableKey, env, db1, k);
  }

  /** The record that a scheduled deletion leaves. */
  function WithDate(k: KeyRecord, days: int, now: Time): KeyRecord
    requires days >= 0
  {
    k.(meta := k.meta.(enabled := false, keyState := PendingDeletion,
                       deletionDate := now + days * 86_400_000_000_000))
  }

  lemma ScheduleOfLoaded(c: Suite, op: KeyOp, k: KeyRecord, now: Time, year: nat)
    requires op.ScheduleKeyDeletion? && RequestValid(op, now)
    ensures Apply(c, op, k, now, year) ==
            if k.meta.keyState == PendingDeletion then Rejected(InvalidState)
            else Changed(WithDate(k, WindowInDays(op), now))
  {
    assert AddDays(now, WindowInDays(op)) == now + WindowInDays(op) * 86_400_000_000_000;
  }

  lemma ScheduleKeyDeletionExactly(c: Suite, cfg: Config, db: Db, keyId: Bytes, window: Option<int>, env: Env, db1: Db,
                                   k: KeyRecord)
    requires Loaded(cfg, db, keyId, env, db1, k)
    ensures var result := KeyChanged(c, cfg, db, keyId, ScheduleKeyDeletion(window), env);
            var days := match window case None => 30 case Some(d) => d;
            if days < 7 || days > 30 then Refuses(result, db, Validation)
            else if k.meta.keyState == PendingDeletion then Refuses(result, db1, InvalidState)
            else Becomes(result, db1, WithDate(k, days, env.now))
  {
    var op := ScheduleKeyDeletion(window);
    if RequestValid(op, env.now) {
      Lifted(c, cfg, db, keyId, op, env, db1, k);
      ScheduleOfLoaded(c, op, k, env.now, env.year);
    }
  }

  lemma CancelKeyDeletionExactly(c: Suite, cfg: Config, db: Db, keyId: Bytes, env: Env, db1: Db, k: KeyRecord)
    requires Loaded(cfg, db, keyId, env, db1, k)
    ensures var result := KeyChanged(c, cfg, db, keyId, CancelKeyDeletion, env);
            if k.meta.keyState != PendingDeletion then Refuses(result, db1, InvalidState)
            else Becomes(result, db1, k.(meta := k.meta.(enabled := false, keyState := Disabled, deletionDate := 0)))
  {
    Lifted(c, cfg, db, keyId, CancelKeyDeletion, env, db1, k);
  }

  /** What the four do to the usability of the key. */
  lemma StateAndUse(k: KeyRecord, days: nat, now: Time)
    ensures var enabled := k.(meta := k.meta.(enabled := true, keyState := Enabled));
            Usability(enabled) == if k.meta.deletionDate == 0 then Usable(enabled) else Unusable(InvalidState)
    ensures var disabled := k.(meta := k.meta.(enabled := false, keyState := Disabled));
            Usability(disabled) == Unusable(if k.meta.deletionDate == 0 then KeyDisabled else InvalidState)
    ensures days > 0 ==> Usability(WithDate(k, days, now)) == Unusable(InvalidState)
    ensures Usability(k.(meta := k.meta.(enabled := false, keyState := Disabled, deletionDate := 0)))
            == Unusable(KeyDisabled)
  {
  }

  //----------------------------------------------------------------------------------------
  // Imported material

  lemma DeleteImportedKeyMaterialExactly(c: Suite, cfg: Config, db: Db, keyId: Bytes, env: Env, db1: Db, k: KeyRecord)
    requires Got(cfg, db, keyId, env, db1, k)
    ensures var result := KeyChanged(c, cfg, db, keyId, DeleteImportedKeyMaterial, env);
            if k.meta.origin != External then Refuses(result, db1, UnsupportedOperation)
            else if k.meta.keyState in {PendingDeletion, Unavailable} then Refuses(result, db1, InvalidState)
            else Becomes(result, db1, k.(meta := k.meta.(
              enabled := false, keyState := PendingImport, validTo := 0, expirationModel := NoExpiration)))
  {
    Lifted(c, cfg, db, keyId, DeleteImportedKeyMaterial, env, db1, k);
  }

  /** The guards that the two import requests share. */
  function ImportGuard(k: KeyRecord): Option<Error> {
    if k.meta.origin != External then Some(UnsupportedOperation)
    else if k.meta.keyState in {PendingDeletion, Unavailable} then Some(InvalidState)
    else if k.keyType in {Rsa, Ecc} then Some(UnsupportedOperation)
    else None
  }

  /** Parameters are valid for 24 hours and replace the ones given out before. */
  function WithParameters(k: KeyRecord, a: WrappingAlgorithm, token: Bytes, wrappingKey: Bytes, now: Time): KeyRecord {
    k.(importParams := ParametersForImport(now / 1_000_000_000 + 86_400, token, wrappingKey, a))
  }

  lemma ParametersOfLoaded(c: Suite, op: KeyOp, k: KeyRecord, now: Time, year: nat)
    requires op.GetParametersForImport? && RequestValid(op, now)
    ensures Apply(c, op, k, now, year) ==
            if ImportGuard(k).Some? then Rejected(ImportGuard(k).value)
            else Changed(WithParameters(k, op.wrappingAlgorithm, op.newToken, op.wrappingKey, now))
  {
  }

  lemma GetParametersForImportExactly(c: Suite, cfg: Config, db: Db, keyId: Bytes, a: WrappingAlgorithm, token: Bytes,
                                      wrappingKey: Bytes, env: Env, db1: Db, k: KeyRecord)
    requires Got(cfg, db, keyId, env, db1, k)
    ensures var result := KeyChanged(c, cfg, db, keyId, GetParametersForImport(a, token, wrappingKey), env);
            if a == NoWrapping then Refuses(result, db, Validation)
            else if ImportGuard(k).Some? then Refuses(result, db1, ImportGuard(k).value)
            else Becomes(result, db1, WithParameters(k, a, token, wrappingKey, env.now))
  {
    if a != NoWrapping {
      var op := GetParametersForImport(a, token, wrappingKey);
      Lifted(c, cfg, db, keyId, op, env, db1, k);
      ParametersOfLoaded(c, op, k, env.now, env.year);
    }
  }

  /** The size of the material a key takes. */
  function MaterialSize(k: KeyRecord): int {
    if k.keyType == Aes then 32
    else match k.meta.keySpec
         case Hmac224 => 28
         case Hmac256 => 32
         case Hmac384 => 48
         case Hmac512 => 64
         case _ => -1
  }

  /** The expiration asked for is in order: a date in the future exactly with the expiring model,
      which a date implies if no model is named. */
  predicate ExpirationInOrder(model: Option<ExpirationModel>, validTo: Option<int>, now: Time) {
    match validTo
    case Some(t) => model in {None, Some(MaterialExpires)} && t > now / 1_000_000_000
    case None => model in {None, Some(MaterialDoesNotExpire)}
  }

  /** The guards on the key before the material is unwrapped. */
  function ImportRefusal(k: KeyRecord, token: Bytes, now: Time): Option<Error> {
    if ImportGuard(k).Some? then ImportGuard(k)
    else if token != k.importParams.token then Some(InvalidImportToken)
    else if k.importParams.validTo < now / 1_000_000_000 then Some(ExpiredImportToken)
    else None
  }

  /** The record that imported material leaves, enabled and with the expiration asked for. */
  function WithImport(k: KeyRecord, material: Bytes, validTo: Option<int>): KeyRecord
    requires validTo.Some? ==> validTo.value >= 0
  {
    k.(backingKeys := if k.backingKeys == [] then [material] else k.backingKeys,
       meta := k.meta.(
         enabled := true, keyState := Enabled,
         expirationModel := if validTo == None then MaterialDoesNotExpire else MaterialExpires,
         validTo := match validTo case None => 0 case Some(t) => t))
  }

  lemma ImportOfLoaded(c: Suite, op: KeyOp, k: KeyRecord, now: Time)
    requires op.ImportKeyMaterial? && RequestValid(op, now)
    ensures ImportChange(c, op, k, now) ==
            if ImportRefusal(k, op.importToken, now).Some? then Rejected(ImportRefusal(k, op.importToken, now).value)
            else
              match c.unwrap(k.importParams.wrappingKey, k.importParams.algorithm, op.encryptedMaterial)
              case None => Rejected(InvalidCiphertext)
              case Some(material) =>
                if |material| != MaterialSize(k) || (k.backingKeys != [] && k.backingKeys[0] != material) then
                  Rejected(IncorrectKeyMaterial)
                else Changed(WithImport(k, material, op.validTo))
  {
    if ImportRefusal(k, op.importToken, now).None? {
      var unwrapped := c.unwrap(k.importParams.wrappingKey, k.importParams.algorithm, op.encryptedMaterial);
      if unwrapped.Some? {
        assert Importable(k);
        ImportedExactly(k, unwrapped.value);
      }
    }
  }

  lemma ImportedExactly(k: KeyRecord, material: Bytes)
    requires Importable(k)
    ensures Imported(k, material) ==
            if |material| != MaterialSize(k) || (k.backingKeys != [] && k.backingKeys[0] != material) then None
            else Some(k.(backingKeys := if k.backingKeys == [] then [material] else k.backingKeys))
  {
  }

  /** An import is refused with another token than the last one given out for the key, after its 24
      hours, with material of another size, or with other material than was imported first; else
      the key is enabled with the material and the expiration asked for. */
  lemma ImportKeyMaterialExactly(c: Suite, cfg: Config, db: Db, keyId: Bytes, token: Bytes, wrapped: Bytes,
                                 model: Option<ExpirationModel>, validTo: Option<int>, env: Env, db1: Db, k: KeyRecord)
    requires Got(cfg, db, keyId, env, db1, k)
    ensures var result := KeyChanged(c, cfg, db, keyId, ImportKeyMaterial(token, wrapped, model, validTo), env);
            if !ExpirationInOrder(model, validTo, env.now) then Refuses(result, db, Validation)
            else if ImportRefusal(k, token, env.now).Some? then
              Refuses(result, db1, ImportRefusal(k, token, env.now).value)
            else
              match c.unwrap(k.importParams.wrappingKey, k.importParams.algorithm, wrapped)
              case None => Refuses(result, db1, InvalidCiphertext)
              case Some(material) =>
                if |material| != MaterialSize(k) || (k.backingKeys != [] && k.backingKeys[0] != material) then
                  Refuses(result, db1, IncorrectKeyMaterial)
                else Becomes(result, db1, WithImport(k, material, validTo))
  {
    var op := ImportKeyMaterial(token, wrapped, model, validTo);
    if ExpirationInOrder(model, validTo, env.now) {
      Lifted(c, cfg, db, keyId, op, env, db1, k);
      ImportOfLoaded(c, op, k, env.now);
    }
  }

  /** No token opens an import but the last one given out for the key, whatever else the request
      holds; the refusal changes no record beyond the load. */
  lemma OtherTokenIsRefused(c: Suite, cfg: Config, db: Db, keyId: Bytes, token: Bytes, wrapped: Bytes,
                            model: Option<ExpirationModel>, validTo: Option<int>, env: Env, db1: Db, k: KeyRecord)
    requires Got(cfg, db, keyId, env, db1, k) && token != k.importParams.token
    ensures var result := KeyChanged(c, cfg, db, keyId, ImportKeyMaterial(token, wrapped, model, validTo), env);
            result.1.Failed? && result.0 in {db, db1}
  {
    ImportKeyMaterialExactly(c, cfg, db, keyId, token, wrapped, model, validTo, env, db1, k);
  }

  //----------------------------------------------------------------------------------------
  // Rotation

  /** The guards of the three rotation requests. */
  function RotationRefusal(k: KeyRecord): Option<Error> {
    if k.meta.origin == External || k.keyType in {Rsa, Ecc, Hmac} then Some(UnsupportedOperation)
    else if k.meta.deletionDate > 0 then Some(InvalidState)
    else if k.meta.enabled then None
    else Some(KeyDisabled)
  }

  /** The 26th rotation on demand is refused, the first 25 each add the drawn key at the end. */
  lemma RotateKeyOnDemandExactly(c: Suite, cfg: Config, db: Db, keyId: Bytes, drawn: Bytes, env: Env, db1: Db,
                                 k: KeyRecord)
    requires Got(cfg, db, keyId, env, db1, k)
    ensures var result := KeyChanged(c, cfg, db, keyId, RotateKeyOnDemand(drawn), env);
            if RotationRefusal(k).Some? then Refuses(result, db1, RotationRefusal(k).value)
            else if k.onDemandRotationCount >= 25 then Refuses(result, db1, LimitExceeded)
            else Becomes(result, db1, k.(
              backingKeys := k.backingKeys + [drawn], onDemandRotationCount := k.onDemandRotationCount + 1))
  {
    Lifted(c, cfg, db, keyId, RotateKeyOnDemand(drawn), env, db1, k);
  }

  lemma EnableKeyRotationExactly(c: Suite, cfg: Config, db: Db, keyId: Bytes, env: Env, db1: Db, k: KeyRecord)
    requires Loaded(cfg, db, keyId, env, db1, k)
    ensures var result := KeyChanged(c, cfg, db, keyId, EnableKeyRotation, env);
            if RotationRefusal(k).Some? then Refuses(result, db1, RotationRefusal(k).value)
            else Becomes(result, db1, if k.nextKeyRotation == None then k.(nextKeyRotation := Some(env.now + env.year))
                                      else k)
  {
    Lifted(c, cfg, db, keyId, EnableKeyRotation, env, db1, k);
  }

  lemma DisableKeyRotationExactly(c: Suite, cfg: Config, db: Db, keyId: Bytes, env: Env, db1: Db, k: KeyRecord)
    requires Loaded(cfg, db, keyId, env, db1, k)
    ensures var result := KeyChanged(c, cfg, db, keyId, DisableKeyRotation, env);
            if RotationRefusal(k).Some? then Refuses(result, db1, RotationRefusal(k).value)
            else Becomes(result, db1, k.(nextKeyRotation := None))
  {
    Lifted(c, cfg, db, keyId, DisableKeyRotation, env, db1, k);
  }

  /** What the two mean for later loads: one year after EnableKeyRotation the key is due, if it had
      no date before; after DisableKeyRotation it never is. */
  lemma RotationAndLoading(k: KeyRecord, now: Time, year: nat, later: Time)
    requires k.keyType == Aes
    ensures RotationDue(k.(nextKeyRotation := Some(now + year)), later) <==> later > now + year
    ensures !RotationDue(k.(nextKeyRotation := None), later)
  {
  }

  //----------------------------------------------------------------------------------------
  // Description and policy; keys that are not there

  lemma UpdateKeyDescriptionExactly(c: Suite, cfg: Config, db: Db, keyId: Bytes, d: Bytes, env: Env, db1: Db,
                                    k: KeyRecord)
    requires Loaded(cfg, db, keyId, env, db1, k)
    ensures var result := KeyChanged(c, cfg, db, keyId, UpdateKeyDescription(d), env);
            if |d| > 8192 then Refuses(result, db, Validation)
            else if k.meta.deletionDate > 0 then Refuses(result, db1, InvalidState)
            else Becomes(result, db1, k.(meta := k.meta.(description := d)))
  {
    if |d| <= 8192 {
      Lifted(c, cfg, db, keyId, UpdateKeyDescription(d), env, db1, k);
    }
  }

  lemma PutKeyPolicyExactly(c: Suite, cfg: Config, db: Db, keyId: Bytes, p: Bytes, env: Env, db1: Db, k: KeyRecord)
    requires Got(cfg, db, EnsureArn(cfg, KEY, keyId), env, db1, k)
    ensures var result := KeyChanged(c, cfg, db, keyId, PutKeyPolicy(p), env);
            if |p| > 32768 then Refuses(result, db, Validation) else Becomes(result, db1, k.(policy := p))
  {
    if |p| <= 32768 {
      Lifted(c, cfg, db, keyId, PutKeyPolicy(p), env, db1, k);
    }
  }

  /** The checks on the request alone. */
  predicate InOrder(op: KeyOp, now: Time) {
    match op
    case ScheduleKeyDeletion(None) => true
    case ScheduleKeyDeletion(Some(days)) => 7 <= days <= 30
    case ImportKeyMaterial(_, _, model, validTo) => ExpirationInOrder(model, validTo, now)
    case GetParametersForImport(a, _, _) => a in {Pkcs1V15, WrapOaepSha1, WrapOaepSha256}
    case UpdateKeyDescription(d) => |d| <= 8192
    case PutKeyPolicy(p) => |p| <= 32768
    case _ => true
  }

  /** A request that is not in order is refused before any key is loaded; a key that cannot be loaded
      is not found, and nothing changes beyond the load. */
  lemma NoKeyToChange(c: Suite, cfg: Config, db: Db, keyId: Bytes, op: KeyOp, env: Env)
    ensures var byId := LoadedKey(db, EnsureArn(cfg, KEY, keyId), env.now, env.year, env.firstDraw);
            var byName := GotKey(cfg, db, keyId, env.now, env.year, env.firstDraw);
            var byArn := GotKey(cfg, db, EnsureArn(cfg, KEY, keyId), env.now, env.year, env.firstDraw);
            var result := KeyChanged(c, cfg, db, keyId, op, env);
            if !InOrder(op, env.now) then Refuses(result, db, Validation)
            else if op.ScheduleKeyDeletion? || op.CancelKeyDeletion? || op.EnableKeyRotation? || op.DisableKeyRotation?
                    || op.UpdateKeyDescription? then
              byId.1 == None ==> Refuses(result, byId.0, NotFound)
            else if op.PutKeyPolicy? then byArn.1 == None ==> Refuses(result, byArn.0, NotFound)
            else byName.1 == None ==> Refuses(result, byName.0, NotFound)
  {
    assert RequestValid(op, env.now) <==> InOrder(op, env.now);
  }
}
