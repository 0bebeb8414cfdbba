/** Key records and what a key can do to itself (key.go, aes_key.go, hmac_key.go,
    aes_encryption.go). The Go types AesKey, HmacKey, RsaKey and EccKey, which share one
    interface, are one class here, told apart by `keyType`. Time is in nanoseconds. */
module Keys {
  import opened Wrappers
  import opened ByteStrings
  import opened Crypto
  import opened Ciphertext

  type Time = nat

  const SECOND: nat := 1_000_000_000
  const DAY: nat := 86_400 * SECOND
  const MIN_YEAR: nat := 365 * DAY
  const MAX_YEAR: nat := 366 * DAY

  const MAX_ON_DEMAND_ROTATIONS: nat := 25
  const AES_KEY_SIZE: nat := 32

  /** AddDate(0, 0, days), with every day 86400 seconds long. */
  function AddDays(now: Time, days: nat): Time {
    now + days * DAY
  }

  function Unix(now: Time): nat {
    now / SECOND
  }

  datatype KeyType = Aes | Rsa | Ecc | Hmac
  datatype KeySpec =
    | NoSpec | SymmetricDefault
    | EccNistP256 | EccNistP384 | EccNistP521 | EccSecp256k1
    | Rsa2048 | Rsa3072 | Rsa4096
    | Hmac224 | Hmac256 | Hmac384 | Hmac512
    | OtherSpec
  datatype KeyState = NoState | Enabled | Disabled | PendingImport | PendingDeletion | Unavailable
  datatype KeyUsage = NoUsage | EncryptDecrypt | SignVerify | GenerateVerifyMac | OtherUsage
  datatype KeyOrigin = NoOrigin | AwsKms | External | CloudHsm | OtherOrigin
  datatype ExpirationModel = NoExpiration | MaterialExpires | MaterialDoesNotExpire | OtherExpiration

  /** A zero deletionDate or validTo means "not set", as in the source. */
  datatype KeyMetadata = KeyMetadata(
    arn: Bytes, keyId: Bytes, description: Bytes,
    enabled: bool, keyState: KeyState, keyUsage: KeyUsage, origin: KeyOrigin,
    deletionDate: Time, validTo: nat, expirationModel: ExpirationModel,
    keySpec: KeySpec, customerMasterKeySpec: KeySpec, macAlgorithms: seq<MacAlgorithm>)

  datatype ParametersForImport = ParametersForImport(
    validTo: nat, token: Bytes, wrappingKey: Bytes, algorithm: WrappingAlgorithm)

  /** A key as it is stored. `nextKeyRotation` is None where the source has the zero time. */
  datatype KeyRecord = KeyRecord(
    keyType: KeyType, meta: KeyMetadata, policy: Bytes, backingKeys: seq<Bytes>,
    nextKeyRotation: Option<Time>, importParams: ParametersForImport,
    onDemandRotationCount: nat, privateKey: Bytes)

  const ZERO_PARAMETERS := ParametersForImport(0, [], [], NoWrapping)

  /** What decoding the JSON of an alias, tag or grant as a key yields: no field matches. */
  const ZERO_KEY := KeyRecord(
    Aes,
    KeyMetadata([], [], [], false, NoState, NoUsage, NoOrigin, 0, 0, NoExpiration, NoSpec, NoSpec, []),
    [], [], None, ZERO_PARAMETERS, 0, [])

  predicate IsPendingDeletion(m: KeyMetadata, now: Time) {
    m.deletionDate != 0 && m.deletionDate < Unix(now) * SECOND
  }

  predicate MaterialExpired(m: KeyMetadata, now: Time) {
    m.validTo != 0 && m.validTo < Unix(now)
  }

  function HmacKeySize(spec: KeySpec): Option<nat> {
    match spec
    case Hmac224 => Some(28)
    case Hmac256 => Some(32)
    case Hmac384 => Some(48)
    case Hmac512 => Some(64)
    case _ => None
  }

  //----------------------------------------------------------------------------------------
  // What each operation makes of a record

  predicate NeedsRotation(k: KeyRecord, now: Time) {
    && (k.keyType == Aes || (k.keyType == Hmac && HmacKeySize(k.meta.keySpec).Some?))
    && k.nextKeyRotation.Some? && k.nextKeyRotation.value < now
  }

  function Rotated(k: KeyRecord, now: Time, year: nat, drawn: Bytes): KeyRecord {
    k.(backingKeys := k.backingKeys + [drawn], nextKeyRotation := Some(now + year))
  }

  function Migrated(k: KeyRecord): KeyRecord {
    if k.meta.keySpec == NoSpec then k.(meta := k.meta.(keySpec := k.meta.customerMasterKeySpec)) else k
  }

  function WithoutMaterial(k: KeyRecord): KeyRecord {
    k.(meta := k.meta.(enabled := false, keyState := PendingImport, expirationModel := NoExpiration, validTo := 0))
  }

  function OnDemandRotated(k: KeyRecord, drawn: Bytes): Option<KeyRecord> {
    if k.onDemandRotationCount >= MAX_ON_DEMAND_ROTATIONS then None
    else Some(k.(backingKeys := k.backingKeys + [drawn], onDemandRotationCount := k.onDemandRotationCount + 1))
  }

  predicate Importable(k: KeyRecord) {
    k.keyType == Aes || k.keyType == Hmac
  }

  function Imported(k: KeyRecord, material: Bytes): Option<KeyRecord>
    requires Importable(k)
  {
    var size := if k.keyType == Aes then Some(AES_KEY_SIZE) else HmacKeySize(k.meta.keySpec);
    if size.None? || |material| != size.value then None
    else if k.backingKeys == [] then Some(k.(backingKeys := [material]))
    else if k.backingKeys[0] == material then Some(k)
    else None
  }

  ghost function PackagedCiphertext(c: Suite, k: KeyRecord, plaintext: Bytes, context: map<Bytes, Bytes>, nonce: Nonce)
    : Outcome<Bytes>
  {
    if k.backingKeys == [] then Panic
    else
      var version := |k.backingKeys| - 1;
      var sealed := c.seal(k.backingKeys[version], nonce, plaintext, ContextBytes(context));
      Pack(Unpacked(k.meta.arn, version, nonce + sealed))
  }

  ghost function DecryptedText(c: Suite, k: KeyRecord, version: nat, ciphertext: Bytes, context: map<Bytes, Bytes>)
    : Outcome<Bytes>
  {
    if |k.backingKeys| > MAX_UINT32 then Panic
    else if version >= |k.backingKeys| || |ciphertext| < NONCE_SIZE then Err
    else
      match c.open(k.backingKeys[version], ciphertext[..NONCE_SIZE], ciphertext[NONCE_SIZE..], ContextBytes(context))
      case Some(p) => Ok(p)
      case None => Err
  }

  function MacOf(c: Suite, k: KeyRecord, message: Bytes, algorithm: MacAlgorithm): Option<Bytes> {
    if k.backingKeys == [] || algorithm == OtherMac then None
    else Some(c.hmac(algorithm, k.backingKeys[0], message))
  }

  /** None for an error; otherwise whether some backing key yields the MAC. */
  function MacValid(c: Suite, k: KeyRecord, message: Bytes, mac: Bytes, algorithm: MacAlgorithm): Option<bool> {
    if k.backingKeys == [] || algorithm == OtherMac then None
    else Some(exists key | key in k.backingKeys :: c.hmac(algorithm, key, message) == mac)
  }

  //----------------------------------------------------------------------------------------

  class Key {
    const keyType: KeyType
    const privateKey: Bytes
    var meta: KeyMetadata
    var policy: Bytes
    var backingKeys: seq<Bytes>
    var nextKeyRotation: Option<Time>
    var importParams: ParametersForImport
    var onDemandRotationCount: nat

    function Record(): KeyRecord
      reads this
    {
      KeyRecord(keyType, meta, policy, backingKeys, nextKeyRotation, importParams, onDemandRotationCount, privateKey)
    }

    /** Unmarshals a stored record into a new object. */
    constructor Decode(r: KeyRecord)
      ensures Record() == r
    {
      keyType, privateKey := r.keyType, r.privateKey;
      meta, policy, backingKeys := r.meta, r.policy, r.backingKeys;
      nextKeyRotation, importParams := r.nextKeyRotation, r.importParams;
      onDemandRotationCount := r.onDemandRotationCount;
    }

    method RotateIfNeeded(now: Time, year: nat, drawn: Bytes) returns (rotated: bool)
      modifies this
      ensures rotated == NeedsRotation(old(Record()), now)
      ensures Record() == if rotated then Rotated(old(Record()), now, year, drawn) else old(Record())
      ensures rotated <==>
                && (keyType == Aes || (keyType == Hmac && old(meta).keySpec in {Hmac224, Hmac256, Hmac384, Hmac512}))
                && old(nextKeyRotation).Some? && old(nextKeyRotation).value < now
      ensures backingKeys == old(backingKeys) + if rotated then [drawn] else []
      ensures nextKeyRotation == if rotated then Some(now + year) else old(nextKeyRotation)
    {
      if keyType == Rsa || keyType == Ecc {
        return false;
      }
      if nextKeyRotation.Some? && nextKeyRotation.value < now {
        if keyType == Hmac {
          var size := HmacKeySize(meta.keySpec);
          if size.None? {
            return false;
          }
        }
        backingKeys := backingKeys + [drawn];
        nextKeyRotation := Some(now + year);
        return true;
      }
      return false;
    }

    method RotateOnDemand(drawn: Bytes) returns (ok: bool)
      modifies this
      ensures ok == OnDemandRotated(old(Record()), drawn).Some?
      ensures Record() == if ok then OnDemandRotated(old(Record()), drawn).value else old(Record())
      ensures ok <==> old(onDemandRotationCount) < 25
      ensures backingKeys == old(backingKeys) + if ok then [drawn] else []
    {
      if onDemandRotationCount >= MAX_ON_DEMAND_ROTATIONS {
        return false;
      }
      backingKeys := backingKeys + [drawn];
      onDemandRotationCount := onDemandRotationCount + 1;
      return true;
    }

    method ImportKeyMaterial(material: Bytes) returns (ok: bool)
      requires Importable(Record())
      modifies this
      ensures ok == Imported(old(Record()), material).Some?
      ensures Record() == if ok then Imported(old(Record()), material).value else old(Record())
      ensures ok ==> backingKeys != [] && backingKeys[0] == material
      ensures ok && old(backingKeys) != [] ==> backingKeys == old(backingKeys)
    {
      var expected := AES_KEY_SIZE;
      if keyType == Hmac {
        var size := HmacKeySize(meta.keySpec);
        if size.None? {
          return false;
        }
        expected := size.value;
      }
      if |material| != expected {
        return false;
      }
      if |backingKeys| == 0 {
        backingKeys := backingKeys + [material];
      } else if material != backingKeys[0] {
        return false;
      }
      return true;
    }

    method EncryptAndPackage(c: Suite, plaintext: Bytes, context: map<Bytes, Bytes>, nonce: Nonce)
      returns (result: Outcome<Bytes>)
      ensures result == PackagedCiphertext(c, Record(), plaintext, context, nonce)
      ensures result.Ok? ==>
                && backingKeys != [] && |meta.arn| <= 255
                && var last := |backingKeys| - 1;
                   result.result == [|meta.arn| as byte] + meta.arn + LittleEndian32(last) +
                                    (nonce + c.seal(backingKeys[last], nonce, plaintext, ContextBytes(context)))
    {
      if |backingKeys| == 0 {
        return Panic;
      }
      var keyVersion := |backingKeys| - 1;
      var dataKey := backingKeys[keyVersion];
      var additionalData := PrepareAesEncryptionContext(context);
      var ciphertext := nonce + c.seal(dataKey, nonce, plaintext, additionalData);
      var identBytes := meta.arn;
      if |identBytes| > 255 {
        return Err;
      }
      var v := ToUnsigned(keyVersion, MAX_UINT32);
      if v.Panic? {
        return Panic;
      }
      var packed := [|identBytes| as byte];
      packed := packed + identBytes;
      packed := packed + LittleEndian32(keyVersion);
      packed := packed + ciphertext;
      return Ok(packed);
    }

    method Decrypt(c: Suite, version: nat, ciphertext: Bytes, context: map<Bytes, Bytes>)
      returns (plaintext: Outcome<Bytes>)
      ensures plaintext == DecryptedText(c, Record(), version, ciphertext, context)
      ensures plaintext.Ok? ==>
                && version < |backingKeys| && |ciphertext| >= 12
                && c.open(backingKeys[version], ciphertext[..12], ciphertext[12..], ContextBytes(context))
                   == Some(plaintext.result)
      ensures plaintext.Err? ==>
                || version >= |backingKeys| || |ciphertext| < 12
                || c.open(backingKeys[version], ciphertext[..12], ciphertext[12..], ContextBytes(context)).None?
      ensures plaintext.Panic? <==> |backingKeys| > 0xFFFF_FFFF
    {
      var count := ToUnsigned(|backingKeys|, MAX_UINT32);
      if count.Panic? {
        return Panic;
      }
      if version >= |backingKeys| {
        return Err;
      }
      if |ciphertext| < NONCE_SIZE {
        return Err;
      }
      var nonce := ciphertext[..NONCE_SIZE];
      var additionalData := PrepareAesEncryptionContext(context);
      var text := c.open(backingKeys[version], nonce, ciphertext[NONCE_SIZE..], additionalData);
      return if text.Some? then Ok(text.value) else Err;
    }

    method GenerateMac(c: Suite, message: Bytes, algorithm: MacAlgorithm) returns (mac: Option<Bytes>)
      ensures mac == MacOf(c, Record(), message, algorithm)
      ensures mac.None? <==> backingKeys == [] || algorithm == OtherMac
      ensures mac.Some? ==> mac.value == c.hmac(algorithm, backingKeys[0], message)
    {
      if |backingKeys| == 0 || algorithm == OtherMac {
        return None;
      }
      return Some(c.hmac(algorithm, backingKeys[0], message));
    }

    /** Tries every backing key in turn. */
    method VerifyMac(c: Suite, message: Bytes, mac: Bytes, algorithm: MacAlgorithm) returns (valid: Option<bool>)
      ensures valid == MacValid(c, Record(), message, mac, algorithm)
      ensures valid.None? <==> backingKeys == [] || algorithm == OtherMac
      ensures valid.Some? ==> (valid.value <==> exists k | k in backingKeys :: c.hmac(algorithm, k, message) == mac)
    {
      if |backingKeys| == 0 || algorithm == OtherMac {
        return None;
      }
      for i := 0 to |backingKeys|
        invariant forall j | 0 <= j < i :: c.hmac(algorithm, backingKeys[j], message) != mac
      {
        var expectedMac := c.hmac(algorithm, backingKeys[i], message);
        if mac == expectedMac {
          return Some(true);
        }
      }
      return Some(false);
    }
  }
}
