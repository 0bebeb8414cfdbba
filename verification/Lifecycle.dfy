/** What each key-changing request makes of a key record: its guards in the order the handler
    checks them, and its field updates (the enable, disable, schedule, cancel, delete-material,
    import, import-parameters, rotation, description and policy handlers). */
module Lifecycle {
  import opened Wrappers
  import opened ByteStrings
  import opened Crypto
  import opened Keys

  datatype Error =
    | Validation | MissingParameter | NotFound | InvalidState | KeyDisabled | UnsupportedOperation | LimitExceeded
    | InvalidImportToken | ExpiredImportToken | InvalidCiphertext | IncorrectKeyMaterial
    | InternalFailure | AccessDenied | InvalidKeyUsage | AlreadyExists | InvalidAliasName
    | NotAuthorized | TagError | InvalidMarker

  datatype KeyOp =
    | EnableKey
    | DisableKey
    | ScheduleKeyDeletion(pendingWindowInDays: Option<int>)
    | CancelKeyDeletion
    | DeleteImportedKeyMaterial
    | ImportKeyMaterial(importToken: Bytes, encryptedMaterial: Bytes,
                        expirationModel: Option<ExpirationModel>, validTo: Option<int>)
    | GetParametersForImport(wrappingAlgorithm: WrappingAlgorithm, newToken: Bytes, wrappingKey: Bytes)
    | RotateKeyOnDemand(drawn: Bytes)
    | EnableKeyRotation
    | DisableKeyRotation
    | UpdateKeyDescription(description: Bytes)
    | PutKeyPolicy(policy: Bytes)

  datatype Change = Changed(key: KeyRecord) | Rejected(error: Error)

  const DEFAULT_WINDOW: int := 30
  const IMPORT_PARAMETERS_LIFETIME: nat := 24 * 60 * 60

  function ImportDeadline(now: Time): nat {
    Unix(now) + IMPORT_PARAMETERS_LIFETIME
  }

  function WindowInDays(op: KeyOp): int
    requires op.ScheduleKeyDeletion?
  {
    if op.pendingWindowInDays.Some? then op.pendingWindowInDays.value else DEFAULT_WINDOW
  }

  /** The expiration model an import request asks for. */
  function RequestedModel(op: KeyOp): ExpirationModel
    requires op.ImportKeyMaterial?
  {
    match op.expirationModel
    case Some(m) => m
    case None => if op.validTo.Some? then MaterialExpires else MaterialDoesNotExpire
  }

  /** The checks on the request alone, made before any key is loaded. */
  predicate RequestValid(op: KeyOp, now: Time) {
    match op
    case ScheduleKeyDeletion(_) => 7 <= WindowInDays(op) <= 30
    case ImportKeyMaterial(_, _, _, validTo) =>
      var model := RequestedModel(op);
      && (model == MaterialExpires || model == MaterialDoesNotExpire)
      && (model == MaterialExpires <==> validTo.Some?)
      && (validTo.Some? ==> validTo.value > Unix(now))
    case GetParametersForImport(algorithm, _, _) => algorithm != NoWrapping
    case UpdateKeyDescription(d) => |d| <= 8192
    case PutKeyPolicy(p) => |p| <= 32768
    case _ => true
  }

  function WithState(k: KeyRecord, enabled: bool, state: KeyState): KeyRecord {
    k.(meta := k.meta.(enabled := enabled, keyState := state))
  }

  /** Imported material, on a key whose parameters match the request. */
  function ImportChange(c: Suite, op: KeyOp, k: KeyRecord, now: Time): Change
    requires op.ImportKeyMaterial? && RequestValid(op, now)
  {
    if k.meta.origin != External then Rejected(UnsupportedOperation)
    else if k.meta.keyState == PendingDeletion || k.meta.keyState == Unavailable then Rejected(InvalidState)
    else if !Importable(k) then Rejected(UnsupportedOperation)
    else if k.importParams.token != op.importToken then Rejected(InvalidImportToken)
    else if k.importParams.validTo < Unix(now) then Rejected(ExpiredImportToken)
    else
      match c.unwrap(k.importParams.wrappingKey, k.importParams.algorithm, op.encryptedMaterial)
      case None => Rejected(InvalidCiphertext)
      case Some(material) =>
        match Imported(k, material)
        case None => Rejected(IncorrectKeyMaterial)
        case Some(k') =>
          var validTo := if op.validTo.Some? then op.validTo.value else 0;
          Changed(k'.(meta := k'.meta.(
            expirationModel := RequestedModel(op), keyState := Enabled, enabled := true, validTo := validTo)))
  }

  /** The guards that the two rotation-schedule requests and RotateKeyOnDemand share. */
  function RotationGuard(k: KeyRecord): Option<Error> {
    if k.meta.origin == External || k.keyType != Aes then Some(UnsupportedOperation)
    else if k.meta.deletionDate != 0 then Some(InvalidState)
    else if !k.meta.enabled then Some(KeyDisabled)
    else None
  }

  function Apply(c: Suite, op: KeyOp, k: KeyRecord, now: Time, year: nat): Change
    requires RequestValid(op, now)
  {
    var pending := k.meta.keyState == PendingDeletion;
    match op
    case EnableKey =>
      if pending || k.meta.keyState == PendingImport then Rejected(InvalidState)
      else Changed(WithState(k, true, Enabled))
    case DisableKey =>
      if pending || k.meta.keyState == PendingImport then Rejected(InvalidState)
      else Changed(WithState(k, false, Disabled))
    case ScheduleKeyDeletion(_) =>
      if pending then Rejected(InvalidState)
      else
        var k' := WithState(k, false, PendingDeletion);
        Changed(k'.(meta := k'.meta.(deletionDate := AddDays(now, WindowInDays(op)))))
    case CancelKeyDeletion =>
      if !pending then Rejected(InvalidState)
      else
        var k' := WithState(k, false, Disabled);
        Changed(k'.(meta := k'.meta.(deletionDate := 0)))
    case DeleteImportedKeyMaterial =>
      if k.meta.origin != External then Rejected(UnsupportedOperation)
      else if pending || k.meta.keyState == Unavailable then Rejected(InvalidState)
      else Changed(WithoutMaterial(k))
    case ImportKeyMaterial(_, _, _, _) => ImportChange(c, op, k, now)
    case GetParametersForImport(algorithm, token, wrappingKey) =>
      if k.meta.origin != External then Rejected(UnsupportedOperation)
      else if pending || k.meta.keyState == Unavailable then Rejected(InvalidState)
      else if !Importable(k) then Rejected(UnsupportedOperation)
      else Changed(k.(importParams :=
                        ParametersForImport(ImportDeadline(now), token, wrappingKey, algorithm)))
    case RotateKeyOnDemand(drawn) =>
      if RotationGuard(k).Some? then Rejected(RotationGuard(k).value)
      else if OnDemandRotated(k, drawn).None? then Rejected(LimitExceeded)
      else Changed(OnDemandRotated(k, drawn).value)
    case EnableKeyRotation =>
      if RotationGuard(k).Some? then Rejected(RotationGuard(k).value)
      else if k.nextKeyRotation.Some? then Changed(k)
      else Changed(k.(nextKeyRotation := Some(now + year)))
    case DisableKeyRotation =>
      if RotationGuard(k).Some? then Rejected(RotationGuard(k).value)
      else Changed(k.(nextKeyRotation := None))
    case UpdateKeyDescription(d) =>
      if k.meta.deletionDate != 0 then Rejected(InvalidState)
      else Changed(k.(meta := k.meta.(description := d)))
    case PutKeyPolicy(p) => Changed(k.(policy := p))
  }
}
