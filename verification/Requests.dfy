/** What each request does to the store and answers, as functions of the store's value. One
    request is one atomic step at one instant. */
module Requests {
  import opened Wrappers
  import opened ByteStrings
  import opened Names
  import opened Crypto
  import opened Ciphertext
  import opened Keys
  import opened Lifecycle
  import opened Pages
  import opened Store

  /** The clock, the length of the year that AddDate(1, 0, 0) adds, and the random data drawn:
      for a rotation by the first and second key load, for a nonce, for RSA padding. */
  datatype Env = Env(now: Time, year: nat, firstDraw: Bytes, secondDraw: Bytes, nonce: Nonce, seed: Bytes)

  datatype KeyEntry = KeyEntry(keyArn: Bytes, keyId: Bytes)

  datatype Response =
    | Done(arn: Bytes)
    | Encrypted(keyArn: Bytes, blob: Bytes)
    | DataKeyIssued(keyArn: Bytes, blob: Bytes, secret: Bytes)
    | Decrypted(keyArn: Bytes, plaintext: Bytes)
    | ReEncrypted(keyArn: Bytes, sourceArn: Bytes, blob: Bytes)
    | MacGenerated(keyArn: Bytes, mac: Bytes)
    | MacVerified(keyArn: Bytes, valid: bool)
    | KeysListed(keys: seq<KeyEntry>, next: Option<Bytes>)
    | AliasesListed(aliases: seq<Alias>, next: Option<Bytes>)
    | GrantsListed(grants: seq<Grant>, next: Option<Bytes>)
    | TagsListed(tags: seq<Tag>, next: Option<Bytes>)
    | Failed(error: Error)
    | Panicked

  //----------------------------------------------------------------------------------------
  // helpers.go

  /** The name getKey loads: an alias is mapped to its target first. */
  function ResolvedName(cfg: Config, db: Db, keyId: Bytes): Option<Bytes> {
    if Contains(keyId, ALIAS) then
      var aliasArn := EnsureArn(cfg, [], keyId);
      if aliasArn !in db.records then None
      else Some(EnsureArn(cfg, KEY, AsAlias(db.records[aliasArn]).targetKeyId))
    else Some(EnsureArn(cfg, KEY, keyId))
  }

  function GotKey(cfg: Config, db: Db, keyId: Bytes, now: Time, year: nat, drawn: Bytes): (Db, Option<KeyRecord>) {
    match ResolvedName(cfg, db, keyId)
    case None => (db, None)
    case Some(arn) => LoadedKey(db, arn, now, year, drawn)
  }

  datatype Usable = Usable(key: KeyRecord) | Unusable(error: Error)

  function Usability(k: KeyRecord): Usable {
    if k.meta.keyState == PendingImport then Unusable(InvalidState)
    else if k.meta.deletionDate != 0 then Unusable(InvalidState)
    else if !k.meta.enabled then Unusable(KeyDisabled)
    else Usable(k)
  }

  function GotUsableKey(cfg: Config, db: Db, keyId: Bytes, now: Time, year: nat, drawn: Bytes): (Db, Usable) {
    var got := GotKey(cfg, db, keyId, now, year, drawn);
    (got.0, if got.1.None? then Unusable(NotFound) else Usability(got.1.value))
  }

  //----------------------------------------------------------------------------------------
  // The handlers that change a key

  function KeyOpTarget(cfg: Config, db: Db, op: KeyOp, keyId: Bytes): Option<Bytes> {
    match op
    case ScheduleKeyDeletion(_) => Some(EnsureArn(cfg, KEY, keyId))
    case CancelKeyDeletion => Some(EnsureArn(cfg, KEY, keyId))
    case EnableKeyRotation => Some(EnsureArn(cfg, KEY, keyId))
    case DisableKeyRotation => Some(EnsureArn(cfg, KEY, keyId))
    case UpdateKeyDescription(_) => Some(EnsureArn(cfg, KEY, keyId))
    case PutKeyPolicy(_) => ResolvedName(cfg, db, EnsureArn(cfg, KEY, keyId))
    case _ => ResolvedName(cfg, db, keyId)
  }

  /** The change applied to a key just loaded. */
  function AppliedToLoaded(c: Suite, db: Db, op: KeyOp, k: KeyRecord, env: Env): (Db, Response)
    requires RequestValid(op, env.now)
  {
    match Apply(c, op, k, env.now, env.year)
    case Rejected(e) => (db, Failed(e))
    case Changed(k') =>
      var saved := SavedKey(db, k');
      (saved.0, if saved.1 then Done(k'.meta.arn) else Failed(InternalFailure))
  }

  function KeyChanged(c: Suite, cfg: Config, db: Db, keyId: Bytes, op: KeyOp, env: Env): (Db, Response) {
    if !RequestValid(op, env.now) then (db, Failed(Validation))
    else
      match KeyOpTarget(cfg, db, op, keyId)
      case None => (db, Failed(NotFound))
      case Some(arn) =>
        var loaded := LoadedKey(db, arn, env.now, env.year, env.firstDraw);
        if loaded.1.None? then (loaded.0, Failed(NotFound))
        else AppliedToLoaded(c, loaded.0, op, loaded.1.value, env)
  }

  //----------------------------------------------------------------------------------------
  // Tags

  datatype TagInput = TagInput(tagKey: Option<Bytes>, tagValue: Option<Bytes>)

  /** validateTags: None if every tag is acceptable. */
  function TagsRejected(tags: seq<TagInput>): Option<Error> {
    if exists i | 0 <= i < |tags| :: tags[i].tagKey.Some? && HasPrefix(tags[i].tagKey.value, "aws:") then Some(TagError)
    else if !AllAcceptable(tags) then Some(Validation)
    else None
  }

  predicate AllAcceptable(tags: seq<TagInput>) {
    forall i | 0 <= i < |tags| :: TagAcceptable(tags[i])
  }

  predicate TagAcceptable(t: TagInput) {
    && t.tagKey.Some? && 1 <= |t.tagKey.value| <= 128
    && t.tagValue.Some? && |t.tagValue.value| <= 256
  }

  function TagOf(t: TagInput): Tag
    requires TagAcceptable(t)
  {
    Tag(t.tagKey.value, t.tagValue.value)
  }

  /** saveTags from tag i on: stops at the first failing write. */
  function SavedTags(db: Db, keyArn: Bytes, tags: seq<TagInput>, i: nat): (Db, bool)
    requires i <= |tags| && AllAcceptable(tags)
    decreases |tags| - i
  {
    if i == |tags| then (db, true)
    else
      var w := Written(db, TagName(keyArn, tags[i].tagKey.value), TagRec(TagOf(tags[i])));
      if w.1 then SavedTags(w.0, keyArn, tags, i + 1) else w
  }

  const MAX_TAGS_PER_KEY: nat := 50

  /** How many of the tags from i on carry a key the resource does not have yet; a key that
      is repeated in the request is counted each time. */
  function NewTagCount(existing: set<Bytes>, tags: seq<TagInput>, i: nat): nat
    requires i <= |tags| && AllAcceptable(tags)
    decreases |tags| - i
  {
    if i == |tags| then 0
    else (if tags[i].tagKey.value in existing then 0 else 1) + NewTagCount(existing, tags, i + 1)
  }

  ghost function TagNames(records: map<Bytes, Record>, keyArn: Bytes): seq<Bytes> {
    NamesWithPrefix(records, keyArn + TAG)
  }

  /** The TagKey fields of the records listed under a key. */
  ghost function StoredTagKeys(records: map<Bytes, Record>, keyArn: Bytes): set<Bytes> {
    set n | n in TagNames(records, keyArn) :: AsTag(Lookup(records, n)).tagKey
  }

  ghost predicate OverQuota(records: map<Bytes, Record>, keyArn: Bytes, tags: seq<TagInput>)
    requires AllAcceptable(tags)
  {
    tags != [] &&
    |TagNames(records, keyArn)| + NewTagCount(StoredTagKeys(records, keyArn), tags, 0) > MAX_TAGS_PER_KEY
  }

  /** TagResource once the key is loaded. */
  ghost function TaggedLoaded(db: Db, k: KeyRecord, tags: seq<TagInput>): (Db, Response)
    requires AllAcceptable(tags)
  {
    if k.meta.keyState == PendingDeletion then (db, Failed(InvalidState))
    else if OverQuota(db.records, k.meta.arn, tags) then (db, Failed(TagError))
    else
      var saved := SavedTags(db, k.meta.arn, tags, 0);
      (saved.0, if saved.1 then Done(k.meta.arn) else Failed(InternalFailure))
  }

  ghost function ResourceTagged(cfg: Config, db: Db, keyId: Bytes, tags: seq<TagInput>, env: Env): (Db, Response) {
    if TagsRejected(tags).Some? then (db, Failed(TagsRejected(tags).value))
    else
      var got := GotKey(cfg, db, keyId, env.now, env.year, env.firstDraw);
      if got.1.None? then (got.0, Failed(NotFound)) else TaggedLoaded(got.0, got.1.value, tags)
  }

  /** UntagResource from tag key i on. */
  function DeletedTags(db: Db, keyArn: Bytes, tagKeys: seq<Bytes>, i: nat): (Db, bool)
    requires i <= |tagKeys|
    decreases |tagKeys| - i
  {
    if i == |tagKeys| then (db, true)
    else
      var w := Deleted(db, TagName(keyArn, tagKeys[i]));
      if w.1 then DeletedTags(w.0, keyArn, tagKeys, i + 1) else w
  }

  function UntaggedLoaded(db: Db, k: KeyRecord, tagKeys: seq<Bytes>): (Db, Response) {
    if k.meta.keyState == PendingDeletion then (db, Failed(InvalidState))
    else
      var w := DeletedTags(db, k.meta.arn, tagKeys, 0);
      (w.0, if w.1 then Done(k.meta.arn) else Failed(InternalFailure))
  }

  function ResourceUntagged(cfg: Config, db: Db, keyId: Bytes, tagKeys: seq<Bytes>, env: Env): (Db, Response) {
    var got := GotKey(cfg, db, keyId, env.now, env.year, env.firstDraw);
    if got.1.None? then (got.0, Failed(NotFound)) else UntaggedLoaded(got.0, got.1.value, tagKeys)
  }

  //----------------------------------------------------------------------------------------
  // CreateKey

  /** NoSpec, NoUsage and NoOrigin stand for absent fields. `policy` is the given or the default
      policy; keyId, material and privateKey are what the generators drew. */
  datatype NewKey = NewKey(
    keySpec: KeySpec, customerMasterKeySpec: KeySpec, usage: KeyUsage, origin: KeyOrigin,
    description: Bytes, policy: Bytes, tags: seq<TagInput>,
    keyId: Bytes, material: Bytes, privateKey: Bytes)

  function EffectiveSpec(n: NewKey): KeySpec {
    if n.keySpec != NoSpec then n.keySpec
    else if n.customerMasterKeySpec != NoSpec then n.customerMasterKeySpec
    else SymmetricDefault
  }

  function KeyTypeOf(spec: KeySpec): Option<KeyType> {
    match spec
    case SymmetricDefault => Some(Aes)
    case EccNistP256 => Some(Ecc)
    case EccNistP384 => Some(Ecc)
    case EccNistP521 => Some(Ecc)
    case EccSecp256k1 => Some(Ecc)
    case Rsa2048 => Some(Rsa)
    case Rsa3072 => Some(Rsa)
    case Rsa4096 => Some(Rsa)
    case Hmac224 => Some(Hmac)
    case Hmac256 => Some(Hmac)
    case Hmac384 => Some(Hmac)
    case Hmac512 => Some(Hmac)
    case _ => None
  }

  function UsageAccepted(t: KeyType, usage: KeyUsage): bool {
    match t
    case Aes => usage == NoUsage || usage == EncryptDecrypt
    case Ecc => usage == SignVerify
    case Rsa => usage == SignVerify || usage == EncryptDecrypt
    case Hmac => usage == GenerateVerifyMac
  }

  function MacAlgorithmsOf(spec: KeySpec): seq<MacAlgorithm> {
    match spec
    case Hmac224 => [HmacSha224]
    case Hmac256 => [HmacSha256]
    case Hmac384 => [HmacSha384]
    case Hmac512 => [HmacSha512]
    case _ => []
  }

  /** The first check CreateKey fails, in the handler's order. */
  function CreateRejected(n: NewKey): Option<Error> {
    var spec := EffectiveSpec(n);
    if |n.description| > 8192 || |n.policy| > 32768 then Some(Validation)
    else if TagsRejected(n.tags).Some? then TagsRejected(n.tags)
    else if n.keySpec != NoSpec && n.customerMasterKeySpec != NoSpec then Some(Validation)
    else if n.origin == External && spec != SymmetricDefault then Some(Validation)
    else if n.origin == CloudHsm then Some(UnsupportedOperation)
    else if n.origin == OtherOrigin then Some(Validation)
    else if KeyTypeOf(spec).None? || !UsageAccepted(KeyTypeOf(spec).value, n.usage) then Some(Validation)
    else None
  }

  /** What the constructors of the four key types make of the metadata. */
  function KeyMade(n: NewKey, metadata: KeyMetadata, spec: KeySpec): KeyRecord
    requires KeyTypeOf(spec).Some?
  {
    var keyType := KeyTypeOf(spec).value;
    var symmetric := keyType == Aes || keyType == Hmac;
    KeyRecord(
      keyType,
      metadata.(keyUsage := if keyType == Aes then EncryptDecrypt else n.usage,
                keySpec := spec, customerMasterKeySpec := spec, macAlgorithms := MacAlgorithmsOf(spec)),
      n.policy, if symmetric && metadata.origin != External then [n.material] else [],
      None, ZERO_PARAMETERS, 0, if symmetric then [] else n.privateKey)
  }

  /** The record a new key starts with. */
  function InitialKey(cfg: Config, n: NewKey): KeyRecord
    requires CreateRejected(n).None?
  {
    var external := n.origin == External;
    var metadata := KeyMetadata(
      KeyArn(cfg, n.keyId), n.keyId, n.description,
      !external, if external then PendingImport else Enabled,
      NoUsage, if external then External else AwsKms,
      0, 0, NoExpiration, NoSpec, NoSpec, []);
    KeyMade(n, metadata, EffectiveSpec(n))
  }

  function KeyCreated(cfg: Config, db: Db, n: NewKey): (Db, Response) {
    if CreateRejected(n).Some? then (db, Failed(CreateRejected(n).value))
    else
      var k := InitialKey(cfg, n);
      var saved := SavedKey(db, k);
      if !saved.1 then (saved.0, Failed(InternalFailure))
      else
        var tagged := SavedTags(saved.0, k.meta.arn, n.tags, 0);
        (tagged.0, if tagged.1 then Done(k.meta.arn) else Failed(InternalFailure))
  }

  //----------------------------------------------------------------------------------------
  // Encrypt, Decrypt, ReEncrypt, MACs

  function RsaMaxPlaintextBytes(spec: KeySpec, algorithm: EncryptionAlgorithm): int {
    var keyBytes := match spec case Rsa2048 => 256 case Rsa3072 => 384 case Rsa4096 => 512 case _ => -1;
    if keyBytes == -1 then -1
    else match algorithm case OaepSha1 => keyBytes - 42 case OaepSha256 => keyBytes - 66 case _ => -1
  }

  predicate RsaAlgorithm(a: EncryptionAlgorithm) {
    a == OaepSha1 || a == OaepSha256
  }

  function RsaEncryption(c: Suite, k: KeyRecord, a: EncryptionAlgorithm, plaintext: Bytes, seed: Bytes): Option<Bytes> {
    if RsaAlgorithm(a) then c.rsaEncrypt(k.privateKey, a, plaintext, seed) else None
  }

  function RsaDecryption(c: Suite, k: KeyRecord, a: EncryptionAlgorithm, ciphertext: Bytes): Option<Bytes> {
    if RsaAlgorithm(a) then c.rsaDecrypt(k.privateKey, a, ciphertext) else None
  }

  ghost function EncryptedUnder(c: Suite, k: KeyRecord, plaintext: Bytes, context: map<Bytes, Bytes>,
                                algorithm: EncryptionAlgorithm, env: Env): Response
  {
    match k.keyType
    case Aes => (
      match PackagedCiphertext(c, k, plaintext, context, env.nonce)
      case Ok(blob) => Encrypted(k.meta.arn, blob)
      case Err => Failed(InternalFailure)
      case Panic => Panicked)
    case Rsa =>
      var maxBytes := RsaMaxPlaintextBytes(k.meta.keySpec, algorithm);
      if k.meta.keyUsage != EncryptDecrypt || (maxBytes > 0 && |plaintext| > maxBytes) then Failed(InvalidKeyUsage)
      else
        var blob := RsaEncryption(c, k, algorithm, plaintext, env.seed);
        if blob.Some? then Encrypted(k.meta.arn, blob.value) else Failed(InternalFailure)
    case _ => Failed(if k.meta.keyUsage == SignVerify then InvalidKeyUsage else InternalFailure)
  }

  ghost function EncryptResult(c: Suite, cfg: Config, db: Db, keyId: Bytes, plaintext: Bytes,
                               context: map<Bytes, Bytes>, algorithm: EncryptionAlgorithm, env: Env): (Db, Response)
  {
    if |plaintext| == 0 || |plaintext| > 4096 then (db, Failed(Validation))
    else
      var got := GotUsableKey(cfg, db, keyId, env.now, env.year, env.firstDraw);
      (got.0, if got.1.Unusable? then Failed(got.1.error)
              else EncryptedUnder(c, got.1.key, plaintext, context, algorithm, env))
  }

  ghost function DataKeyUnder(c: Suite, k: KeyRecord, secret: Bytes, context: map<Bytes, Bytes>, env: Env): Response {
    if k.keyType != Aes then Failed(InvalidKeyUsage)
    else
      match PackagedCiphertext(c, k, secret, context, env.nonce)
      case Ok(blob) => DataKeyIssued(k.meta.arn, blob, secret)
      case Err => Failed(InternalFailure)
      case Panic => Panicked
  }

  /** GenerateDataKey and GenerateDataKeyPair once their own parameters are accepted; `secret` is
      the data key or the private key that was drawn. */
  ghost function DataKeyResult(c: Suite, cfg: Config, db: Db, keyId: Bytes, secret: Bytes, context: map<Bytes, Bytes>,
                               env: Env): (Db, Response)
  {
    var got := GotUsableKey(cfg, db, keyId, env.now, env.year, env.firstDraw);
    (got.0, if got.1.Unusable? then Failed(got.1.error) else DataKeyUnder(c, got.1.key, secret, context, env))
  }

  const MAX_BLOB: nat := 6144

  /** The answer once the key, the version and the ciphertext are settled. */
  ghost function DecryptedUnder(c: Suite, k: KeyRecord, version: nat, ciphertext: Bytes, context: map<Bytes, Bytes>,
                                algorithm: EncryptionAlgorithm): Response
  {
    match k.keyType
    case Aes => (
      match DecryptedText(c, k, version, ciphertext, context)
      case Ok(p) => Decrypted(k.meta.arn, p)
      case Err => Failed(InvalidCiphertext)
      case Panic => Panicked)
    case Rsa =>
      if k.meta.keyUsage != EncryptDecrypt then Failed(InvalidKeyUsage)
      else
        var p := RsaDecryption(c, k, algorithm, ciphertext);
        if p.Some? then Decrypted(k.meta.arn, p.value) else Failed(InvalidCiphertext)
    case _ => Failed(InternalFailure)
  }

  /** Decrypt with the key named by the request. */
  ghost function DecryptWithKeyId(c: Suite, cfg: Config, db: Db, keyId: Bytes, blob: Bytes, context: map<Bytes, Bytes>,
                                  algorithm: EncryptionAlgorithm, env: Env): (Db, Response)
  {
    var got := GotUsableKey(cfg, db, keyId, env.now, env.year, env.firstDraw);
    if got.1.Unusable? then (got.0, Failed(got.1.error))
    else
      var k := got.1.key;
      if k.keyType != Aes then (got.0, DecryptedUnder(c, k, 0, blob, context, algorithm))
      else
        match UnpackCiphertextBlob(blob)
        case Panic => (got.0, Panicked)
        case Err => (got.0, Failed(InvalidCiphertext))
        case Ok(u) =>
          (got.0, if k.meta.arn != u.ident then Failed(AccessDenied)
                  else DecryptedUnder(c, k, u.version, u.ciphertext, context, algorithm))
  }

  /** Decrypt with the key the blob names. */
  ghost function DecryptByBlob(c: Suite, cfg: Config, db: Db, blob: Bytes, context: map<Bytes, Bytes>,
                               algorithm: EncryptionAlgorithm, env: Env): (Db, Response)
  {
    match UnpackCiphertextBlob(blob)
    case Panic => (db, Panicked)
    case Err => (db, Failed(InvalidCiphertext))
    case Ok(u) =>
      var got := GotUsableKey(cfg, db, u.ident, env.now, env.year, env.firstDraw);
      (got.0, if got.1.Unusable? then Failed(AccessDenied)
              else DecryptedUnder(c, got.1.key, u.version, u.ciphertext, context, algorithm))
  }

  ghost function DecryptResult(c: Suite, cfg: Config, db: Db, keyId: Option<Bytes>, blob: Bytes,
                               context: map<Bytes, Bytes>, algorithm: EncryptionAlgorithm, env: Env): (Db, Response)
  {
    if |blob| == 0 || |blob| > MAX_BLOB then (db, Failed(Validation))
    else if keyId.Some? then DecryptWithKeyId(c, cfg, db, keyId.value, blob, context, algorithm, env)
    else DecryptByBlob(c, cfg, db, blob, context, algorithm, env)
  }

  datatype ReEncryption = ReEncryption(
    blob: Bytes, sourceKeyId: Option<Bytes>, destinationKeyId: Bytes,
    sourceContext: map<Bytes, Bytes>, destinationContext: map<Bytes, Bytes>,
    sourceAlgorithm: EncryptionAlgorithm, destinationAlgorithm: EncryptionAlgorithm)

  /** What ReEncrypt goes on with; it ignores whether unpacking succeeded. */
  function SourceFields(blob: Bytes): Outcome<Unpacked> {
    match UnpackCiphertextBlob(blob)
    case Ok(u) => Ok(u)
    case Err => Ok(Unpacked([], 0, []))
    case Panic => Panic
  }

  ghost function SourceText(c: Suite, k: KeyRecord, r: ReEncryption, u: Unpacked): Response {
    if k.meta.keyUsage != EncryptDecrypt then Failed(InvalidKeyUsage)
    else if k.keyType == Rsa then DecryptedUnder(c, k, 0, r.blob, r.sourceContext, r.sourceAlgorithm)
    else DecryptedUnder(c, k, u.version, u.ciphertext, r.sourceContext, r.sourceAlgorithm)
  }

  ghost function DestinationBlob(c: Suite, k: KeyRecord, source: KeyRecord, plaintext: Bytes, r: ReEncryption, env: Env)
    : Response
  {
    if k.meta.keyUsage != EncryptDecrypt then Failed(InvalidKeyUsage)
    else
      match k.keyType
      case Aes => (
        match PackagedCiphertext(c, k, plaintext, r.destinationContext, env.nonce)
        case Ok(blob) => ReEncrypted(k.meta.arn, source.meta.arn, blob)
        case Err => Failed(InternalFailure)
        case Panic => Panicked)
      case Rsa =>
        var blob := RsaEncryption(c, k, r.destinationAlgorithm, plaintext, env.seed);
        if blob.Some? then ReEncrypted(k.meta.arn, source.meta.arn, blob.value) else Failed(InternalFailure)
      case _ => Failed(InternalFailure)
  }

  /** ReEncrypt once the source key is loaded. */
  ghost function ReEncryptedFrom(c: Suite, cfg: Config, db: Db, r: ReEncryption, source: KeyRecord, u: Unpacked,
                                 env: Env)
    : (Db, Response)
  {
    var text := SourceText(c, source, r, u);
    if !text.Decrypted? then (db, text) else EncryptedAgain(c, cfg, db, r, source, text.plaintext, env)
  }

  /** The second half of ReEncrypt. */
  ghost function EncryptedAgain(c: Suite, cfg: Config, db: Db, r: ReEncryption, source: KeyRecord, plaintext: Bytes,
                                env: Env)
    : (Db, Response)
  {
    var dest := GotUsableKey(cfg, db, r.destinationKeyId, env.now, env.year, env.secondDraw);
    (dest.0, if dest.1.Unusable? then Failed(dest.1.error)
     else DestinationBlob(c, dest.1.key, source, plaintext, r, env))
  }

  ghost function ReEncryptResult(c: Suite, cfg: Config, db: Db, r: ReEncryption, env: Env): (Db, Response) {
    if |r.blob| == 0 then (db, Failed(MissingParameter))
    else if |r.blob| > MAX_BLOB then (db, Failed(Validation))
    else
      match SourceFields(r.blob)
      case Ok(u) =>
        var keyArn := if r.sourceKeyId.Some? then r.sourceKeyId.value else u.ident;
        var source := GotUsableKey(cfg, db, keyArn, env.now, env.year, env.firstDraw);
        if source.1.Unusable? then (source.0, Failed(source.1.error))
        else ReEncryptedFrom(c, cfg, source.0, r, source.1.key, u, env)
      case _ => (db, Panicked)
  }

  /** The checks GenerateMac and VerifyMac share after getUsableKey. */
  function MacRejected(k: KeyRecord, algorithm: MacAlgorithm): Option<Error> {
    if k.meta.keyState != Enabled then Some(KeyDisabled)
    else if k.keyType != Hmac || algorithm !in k.meta.macAlgorithms then Some(Validation)
    else None
  }

  function GenerateMacResult(c: Suite, cfg: Config, db: Db, keyId: Bytes, message: Bytes, algorithm: MacAlgorithm,
                             env: Env)
    : (Db, Response)
  {
    var got := GotUsableKey(cfg, db, keyId, env.now, env.year, env.firstDraw);
    if got.1.Unusable? then (got.0, Failed(got.1.error))
    else
      var k := got.1.key;
      if MacRejected(k, algorithm).Some? then (got.0, Failed(MacRejected(k, algorithm).value))
      else
        var mac := MacOf(c, k, message, algorithm);
        (got.0, if mac.Some? then MacGenerated(k.meta.arn, mac.value) else Failed(InternalFailure))
  }

  function VerifyMacResult(c: Suite, cfg: Config, db: Db, keyId: Bytes, message: Bytes, mac: Bytes,
                           algorithm: MacAlgorithm, env: Env): (Db, Response)
  {
    var got := GotUsableKey(cfg, db, keyId, env.now, env.year, env.firstDraw);
    if got.1.Unusable? then (got.0, Failed(got.1.error))
    else
      var k := got.1.key;
      if MacRejected(k, algorithm).Some? then (got.0, Failed(MacRejected(k, algorithm).value))
      else
        var valid := MacValid(c, k, message, mac, algorithm);
        (got.0, if valid.Some? then MacVerified(k.meta.arn, valid.value) else Failed(InternalFailure))
  }

  //----------------------------------------------------------------------------------------
  // Aliases and grants

  predicate AliasCharacter(b: byte) {
    'a' <= b <= 'z' || 'A' <= b <= 'Z' || '0' <= b <= '9' || b == '/' || b == '_' || b == '-'
  }

  /** ^alias/[a-zA-Z0-9/_-]+$ */
  predicate ValidAliasName(name: Bytes) {
    HasPrefix(name, ALIAS) && |name| > |ALIAS| && forall i | |ALIAS| <= i < |name| :: AliasCharacter(name[i])
  }

  function CreateAliasRejected(aliasName: Bytes, targetKeyId: Bytes): Option<Error> {
    if !ValidAliasName(aliasName) then Some(InvalidAliasName)
    else if HasPrefix(aliasName, "alias/aws/") then Some(NotAuthorized)
    else if |aliasName| > 256 || HasPrefix(targetKeyId, ALIAS) then Some(Validation)
    else None
  }

  /** CreateAlias once the target is loaded. */
  function AliasForLoaded(cfg: Config, db: Db, aliasName: Bytes, k: KeyRecord, env: Env): (Db, Response) {
    var aliasArn := ArnPrefix(cfg) + aliasName;
    if k.meta.deletionDate != 0 then (db, Failed(InvalidState))
    else if aliasArn in db.records then (db, Failed(AlreadyExists))
    else
      var a := Alias(aliasArn, aliasName, k.meta.keyId, Unix(env.now), Unix(env.now));
      var saved := Written(db, aliasArn, AliasRec(a));
      (saved.0, if saved.1 then Done(aliasArn) else Failed(InternalFailure))
  }

  function AliasCreated(cfg: Config, db: Db, aliasName: Bytes, targetKeyId: Bytes, env: Env): (Db, Response) {
    if CreateAliasRejected(aliasName, targetKeyId).Some? then
      (db, Failed(CreateAliasRejected(aliasName, targetKeyId).value))
    else
      var loaded := LoadedKey(db, EnsureArn(cfg, KEY, targetKeyId), env.now, env.year, env.firstDraw);
      if loaded.1.None? then (loaded.0, Failed(NotFound))
      else AliasForLoaded(cfg, loaded.0, aliasName, loaded.1.value, env)
  }

  function UpdateAliasRejected(aliasName: Bytes): Option<Error> {
    if !HasPrefix(aliasName, ALIAS) then Some(Validation)
    else if HasPrefix(aliasName, "alias/aws") then Some(NotAuthorized)
    else if |aliasName| > 256 then Some(Validation)
    else None
  }

  function AliasRetargeted(db: Db, a: Alias, original: KeyRecord, target: KeyRecord, env: Env): (Db, Response) {
    if original.meta.keyUsage != target.meta.keyUsage || original.keyType != target.keyType then
      (db, Failed(Validation))
    else if target.meta.deletionDate != 0 then (db, Failed(InvalidState))
    else
      var a' := a.(targetKeyId := target.meta.keyId, lastUpdatedDate := Unix(env.now));
      var saved := Written(db, a'.aliasArn, AliasRec(a'));
      (saved.0, if saved.1 then Done(a'.aliasArn) else Failed(InternalFailure))
  }

  function AliasUpdated(cfg: Config, db: Db, aliasName: Bytes, targetKeyId: Bytes, env: Env): (Db, Response) {
    var aliasArn := ArnPrefix(cfg) + aliasName;
    if UpdateAliasRejected(aliasName).Some? then (db, Failed(UpdateAliasRejected(aliasName).value))
    else if aliasArn !in db.records then (db, Failed(NotFound))
    else
      var a := AsAlias(db.records[aliasArn]);
      var original := LoadedKey(db, EnsureArn(cfg, KEY, a.targetKeyId), env.now, env.year, env.firstDraw);
      if original.1.None? then (original.0, Failed(InternalFailure))
      else
        var target := LoadedKey(original.0, EnsureArn(cfg, KEY, targetKeyId), env.now, env.year, env.secondDraw);
        if target.1.None? then (target.0, Failed(NotFound))
        else AliasRetargeted(target.0, a, original.1.value, target.1.value, env)
  }

  function AliasDeleted(cfg: Config, db: Db, aliasName: Bytes): (Db, Response) {
    var aliasArn := ArnPrefix(cfg) + aliasName;
    if !HasPrefix(aliasName, ALIAS) then (db, Failed(Validation))
    else if HasPrefix(aliasName, "alias/aws/") then (db, Failed(InvalidState))
    else if aliasArn !in db.records then (db, Failed(NotFound))
    else
      var w := Deleted(db, aliasArn);
      (w.0, if w.1 then Done(aliasArn) else Failed(InternalFailure))
  }

  /** `template` holds the fields of the request; its id and token are what was drawn. */
  function GrantCreated(cfg: Config, db: Db, keyId: Bytes, template: Grant, env: Env): (Db, Response) {
    var got := GotKey(cfg, db, keyId, env.now, env.year, env.firstDraw);
    if got.1.None? then (got.0, Failed(NotFound))
    else if got.1.value.meta.deletionDate != 0 then (got.0, Failed(InvalidState))
    else
      var g := template.(keyArn := got.1.value.meta.arn);
      var saved := Written(got.0, GrantName(g.grantId), GrantRec(g));
      (saved.0, if saved.1 then Done(g.keyArn) else Failed(InternalFailure))
  }

  /** RevokeGrant, and RetireGrant by key and grant id. */
  function GrantRevoked(cfg: Config, db: Db, keyId: Bytes, grantId: Bytes, env: Env): (Db, Response) {
    var got := GotKey(cfg, db, keyId, env.now, env.year, env.firstDraw);
    if got.1.None? then (got.0, Failed(NotFound))
    else if GrantName(grantId) !in got.0.records then (got.0, Failed(NotFound))
    else
      var g := AsGrant(got.0.records[GrantName(grantId)]);
      if g.keyArn != got.1.value.meta.arn then (got.0, Failed(NotFound)) else GrantDropped(got.0, g)
  }

  /** RetireGrant by token; an empty grant id or key id is not checked. */
  ghost function GrantRetired(cfg: Config, db: Db, token: Bytes, grantId: Bytes, keyId: Bytes, env: Env)
    : (Db, Response)
  {
    match GrantByToken(NamesWithPrefix(db.records, GRANT), 0, db.records, token)
    case None => (db, Failed(NotFound))
    case Some(g) =>
      if grantId != [] && grantId != g.grantId then (db, Failed(NotFound))
      else if keyId == [] then GrantDropped(db, g)
      else
        var got := GotKey(cfg, db, keyId, env.now, env.year, env.firstDraw);
        if got.1.None? || got.1.value.meta.arn != g.keyArn then (got.0, Failed(NotFound)) else GrantDropped(got.0, g)
  }

  function GrantDropped(db: Db, g: Grant): (Db, Response) {
    var w := Deleted(db, GrantName(g.grantId));
    (w.0, if w.1 then Done(g.keyArn) else Failed(InternalFailure))
  }

  //----------------------------------------------------------------------------------------
  // Listings: one result more than asked is scanned for, and cut off again as the next marker

  predicate LimitValid(limit: int, max: int) {
    1 <= limit <= max
  }

  function EntriesOf(keys: seq<KeyRecord>): seq<KeyEntry> {
    seq(|keys|, i requires 0 <= i < |keys| => KeyEntry(keys[i].meta.arn, keys[i].meta.keyId))
  }

  function KeysAnswer(keys: seq<KeyRecord>, limit: nat): Response {
    if |keys| > limit then KeysListed(EntriesOf(keys[..limit]), Some(keys[|keys| - 1].meta.arn))
    else KeysListed(EntriesOf(keys), None)
  }

  ghost function ListKeysResult(cfg: Config, db: Db, limit: int, marker: Bytes, now: Time): (Db, Response) {
    if !LimitValid(limit, 1000) then (db, Failed(Validation))
    else
      var names := NamesWithPrefix(db.records, ArnPrefix(cfg) + KEY);
      var listed := ListedKeys(db, names, 0, db.records, limit + 1, marker, false, now);
      (listed.0, if marker != [] && !listed.2 then Failed(InvalidMarker) else KeysAnswer(listed.1, limit))
  }

  /** One page, as the names of its records; `next` is the name of the extra one. */
  ghost function AliasPage(cfg: Config, records: map<Bytes, Record>, limit: nat, marker: Bytes, key: Bytes): Page {
    PageOf(ListedAliases(records, ArnPrefix(cfg) + ALIAS, limit + 1, marker, key), limit)
  }

  ghost function GrantPage(records: map<Bytes, Record>, f: GrantFilter, limit: nat, marker: Bytes): Page {
    PageOf(ListedGrants(records, f, limit + 1, marker), limit)
  }

  ghost function TagPage(records: map<Bytes, Record>, keyArn: Bytes, limit: nat, marker: Bytes): Page {
    PageOf(ListedTags(records, keyArn, limit + 1, marker), limit)
  }

  // The next marker is the field of the extra record that the scan compares markers with.

  function AliasesAnswer(records: map<Bytes, Record>, p: Page): Response {
    match p
    case BadMarker => Failed(InvalidMarker)
    case Page(names, next) =>
      AliasesListed(AliasesNamed(records, names),
                    if next.Some? then Some(AsAlias(Lookup(records, next.value)).aliasArn) else None)
  }

  function GrantsAnswer(records: map<Bytes, Record>, p: Page): Response {
    match p
    case BadMarker => Failed(InvalidMarker)
    case Page(names, next) =>
      GrantsListed(GrantsNamed(records, names),
                   if next.Some? then Some(AsGrant(Lookup(records, next.value)).grantId) else None)
  }

  /** ListResourceTags reports an invalid marker as an internal failure. */
  function TagsAnswer(records: map<Bytes, Record>, p: Page): Response {
    match p
    case BadMarker => Failed(InternalFailure)
    case Page(names, next) =>
      TagsListed(TagsNamed(records, names),
                 if next.Some? then Some(AsTag(Lookup(records, next.value)).tagKey) else None)
  }

  ghost function ListAliasesResult(cfg: Config, db: Db, keyId: Option<Bytes>, limit: int, marker: Bytes, env: Env)
    : (Db, Response)
  {
    if !LimitValid(limit, 100) then (db, Failed(Validation))
    else if keyId.None? then (db, AliasesAnswer(db.records, AliasPage(cfg, db.records, limit, marker, [])))
    else
      var loaded := LoadedKey(db, EnsureArn(cfg, KEY, keyId.value), env.now, env.year, env.firstDraw);
      (loaded.0,
       if loaded.1.None? then Failed(NotFound)
       else
         var r := loaded.0.records;
         AliasesAnswer(r, AliasPage(cfg, r, limit, marker, loaded.1.value.meta.keyId)))
  }

  /** `f` carries the request's optional fields; its keyArn is that of the key. */
  ghost function ListGrantsResult(cfg: Config, db: Db, keyId: Bytes, f: GrantFilter, limit: int, marker: Bytes,
                                  env: Env)
    : (Db, Response)
  {
    if !LimitValid(limit, 100) then (db, Failed(Validation))
    else
      var got := GotKey(cfg, db, keyId, env.now, env.year, env.firstDraw);
      (got.0,
       if got.1.None? then Failed(NotFound)
       else GrantsAnswer(got.0.records, GrantPage(got.0.records, f.(keyArn := got.1.value.meta.arn), limit, marker)))
  }

  ghost function ListRetirableGrantsResult(db: Db, f: GrantFilter, limit: int, marker: Bytes): (Db, Response) {
    (db, if !LimitValid(limit, 100) then Failed(Validation)
         else GrantsAnswer(db.records, GrantPage(db.records, f, limit, marker)))
  }

  ghost function ListResourceTagsResult(cfg: Config, db: Db, keyId: Bytes, limit: int, marker: Bytes, env: Env)
    : (Db, Response)
  {
    if !LimitValid(limit, 1000) then (db, Failed(Validation))
    else
      var loaded := LoadedKey(db, EnsureArn(cfg, KEY, keyId), env.now, env.year, env.firstDraw);
      (loaded.0,
       if loaded.1.None? then Failed(NotFound)
       else
         var r := loaded.0.records;
         TagsAnswer(r, TagPage(r, loaded.1.value.meta.arn, limit, marker)))
  }
}
