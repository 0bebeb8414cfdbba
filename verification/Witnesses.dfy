/** Concrete runs from the empty store, without a failing write, at the end of which the service
    does what one would not expect: for every valid configuration and every id that CreateKey
    can draw. All requests concern that one key. */
module Witnesses {
  import opened Wrappers
  import opened ByteStrings
  import opened Names
  import opened Crypto
  import opened Keys
  import opened Lifecycle
  import opened Store
  import opened Requests
  import opened Runs
  import opened Safety
  import opened Issued
  import Recovery

  const NOW: Time := 0
  const ENV := Env(NOW, MIN_YEAR, [], [], ['n', 'n', 'n', 'n', 'n', 'n', 'n', 'n', 'n', 'n', 'n', 'n'], [])

  function ExternalKey(id: Bytes): NewKey {
    NewKey(NoSpec, NoSpec, NoUsage, External, [], [], [], id, [], [])
  }

  function AesKey(id: Bytes): NewKey {
    NewKey(NoSpec, NoSpec, NoUsage, NoOrigin, [], [], [], id, MATERIAL, [])
  }

  const MATERIAL: Bytes := "0123456789abcdef0123456789abcdef"

  /** The store holds one key, which a load at time 0 leaves alone. */
  predicate Holding(db: Db, arn: Bytes, k: KeyRecord) {
    && db.records == map[arn := KeyRec(k)] && k.meta.arn == arn
    && k.nextKeyRotation.None? && k.meta.keySpec != NoSpec
    && !MaterialExpired(k.meta, NOW) && !IsPendingDeletion(k.meta, NOW)
  }

  lemma LoadsAsStored(db: Db, arn: Bytes, k: KeyRecord)
    requires Holding(db, arn, k)
    ensures LoadedKey(db, arn, NOW, MIN_YEAR, []) == (db, Some(k))
  {
  }

  lemma ChangeIsSaved(c: Suite, cfg: Config, db: Db, arn: Bytes, k: KeyRecord, op: KeyOp)
    requires Holding(db, arn, k) && WriteSucceeds(db) && EnsureArn(cfg, KEY, arn) == arn && !Contains(arn, ALIAS)
    requires RequestValid(op, NOW) && Apply(c, op, k, NOW, MIN_YEAR).Changed? && !op.PutKeyPolicy?
    requires var k' := Apply(c, op, k, NOW, MIN_YEAR).key; SaveAllowed(k') && k'.meta.arn == arn
    ensures var k' := Apply(c, op, k, NOW, MIN_YEAR).key;
            KeyChanged(c, cfg, db, arn, op, ENV).0 == Db(map[arn := KeyRec(k')], db.disk[1..])
  {
    LoadsAsStored(db, arn, k);
    var k' := Apply(c, op, k, NOW, MIN_YEAR).key;
    assert map[arn := KeyRec(k)][arn := KeyRec(k')] == map[arn := KeyRec(k')];
  }

  function Asks(r: Request): Event {
    Event(r, ENV)
  }

  ghost function Start(): System {
    Beginning([true, true, true, true, true], NOW)
  }

  /** After these requests the store holds the key `k` alone, and `writes` more writes succeed. */
  ghost predicate Reached(c: Suite, cfg: Config, id: Bytes, es: seq<Event>, k: KeyRecord, writes: nat) {
    && AdmissibleRun(c, cfg, Start(), es)
    && var at := Run(c, cfg, Start(), es);
       at.now == NOW && Holding(at.db, KeyArn(cfg, id), k) && Healthy(at.db, writes)
  }

  lemma KeyIsCreated(cfg: Config, id: Bytes, n: NewKey, disk: seq<bool>)
    requires disk != [] && disk[0] && n in {ExternalKey(id), AesKey(id)}
    ensures CreateRejected(n).None?
    ensures var arn, k := KeyArn(cfg, id), InitialKey(cfg, n);
            && KeyCreated(cfg, Db(map[], disk), n).0 == Db(map[arn := KeyRec(k)], disk[1..])
            && Holding(Db(map[arn := KeyRec(k)], disk[1..]), arn, k)
  {
    assert TagsRejected([]).None?;
  }

  lemma ReachCreated(c: Suite, cfg: Config, id: Bytes, n: NewKey)
    requires ValidConfig(cfg) && PlainId(id) && n in {ExternalKey(id), AesKey(id)}
    ensures CreateRejected(n).None?
    ensures Reached(c, cfg, id, [Asks(CreateKey(n))], InitialKey(cfg, n), 4)
  {
    var first := Asks(CreateKey(n));
    KeyIsCreated(cfg, id, n, Start().db.disk);
    assert Run(c, cfg, Start(), []) == Start();
    RunAppend(c, cfg, Start(), [], first);
    assert [] + [first] == [first];
  }

  /** One more request of the run. */
  lemma ReachChanged(c: Suite, cfg: Config, id: Bytes, es: seq<Event>, k: KeyRecord, op: KeyOp, writes: nat)
    requires ValidConfig(cfg) && PlainId(id) && Reached(c, cfg, id, es, k, writes + 1)
    requires RequestValid(op, NOW) && Apply(c, op, k, NOW, MIN_YEAR).Changed? && !op.PutKeyPolicy?
    requires var arn, k' := KeyArn(cfg, id), Apply(c, op, k, NOW, MIN_YEAR).key;
             SaveAllowed(k') && Holding(Db(map[arn := KeyRec(k')], []), arn, k')
    ensures Reached(c, cfg, id, es + [Asks(ChangeKey(KeyArn(cfg, id), op))], Apply(c, op, k, NOW, MIN_YEAR).key, writes)
  {
    var arn := KeyArn(cfg, id);
    var at, e := Run(c, cfg, Start(), es), Asks(ChangeKey(arn, op));
    KeyArnIsDirect(cfg, id, KEY);
    ChangeIsSaved(c, cfg, at.db, arn, k, op);
    RunAppend(c, cfg, Start(), es, e);
  }

  //----------------------------------------------------------------------------------------
  // Encrypt panics: an EXTERNAL key is scheduled for deletion before any import, then
  // cancelled and enabled

  lemma EncryptPanics(c: Suite, cfg: Config, db: Db, arn: Bytes, k: KeyRecord)
    requires Holding(db, arn, k) && EnsureArn(cfg, KEY, arn) == arn && !Contains(arn, ALIAS)
    requires k.keyType == Aes && k.backingKeys == [] && Usability(k).Usable?
    ensures EncryptResult(c, cfg, db, arn, "p", map[], SymmetricAlgorithm, ENV).1 == Panicked
  {
    LoadsAsStored(db, arn, k);
  }

  function Scheduled(k: KeyRecord): KeyRecord {
    var k' := WithState(k, false, PendingDeletion);
    k'.(meta := k'.meta.(deletionDate := AddDays(NOW, 30)))
  }

  function Cancelled(k: KeyRecord): KeyRecord {
    var k' := WithState(Scheduled(k), false, Disabled);
    k'.(meta := k'.meta.(deletionDate := 0))
  }

  function Reenabled(k: KeyRecord): KeyRecord {
    WithState(Cancelled(k), true, Enabled)
  }

  /** What the three changes make of the key without material. */
  lemma ThreeChanges(c: Suite, cfg: Config, id: Bytes, k: KeyRecord)
    requires CreateRejected(ExternalKey(id)).None? && k == InitialKey(cfg, ExternalKey(id))
    ensures Apply(c, ScheduleKeyDeletion(None), k, NOW, MIN_YEAR) == Changed(Scheduled(k))
    ensures Apply(c, CancelKeyDeletion, Scheduled(k), NOW, MIN_YEAR) == Changed(Cancelled(k))
    ensures Apply(c, EnableKey, Cancelled(k), NOW, MIN_YEAR) == Changed(Reenabled(k))
    ensures forall k' | k' in {Scheduled(k), Cancelled(k), Reenabled(k)} ::
              var arn := KeyArn(cfg, id); SaveAllowed(k') && Holding(Db(map[arn := KeyRec(k')], []), arn, k')
    ensures Reenabled(k).keyType == Aes && Reenabled(k).backingKeys == [] && Usability(Reenabled(k)).Usable?
  {
  }

  lemma ReachReenabled(c: Suite, cfg: Config, id: Bytes) returns (es: seq<Event>)
    requires ValidConfig(cfg) && PlainId(id)
    ensures CreateRejected(ExternalKey(id)).None?
    ensures Reached(c, cfg, id, es, Reenabled(InitialKey(cfg, ExternalKey(id))), 1)
  {
    var arn := KeyArn(cfg, id);
    ReachCreated(c, cfg, id, ExternalKey(id));
    var k := InitialKey(cfg, ExternalKey(id));
    ThreeChanges(c, cfg, id, k);
    es := [Asks(CreateKey(ExternalKey(id)))];
    ReachChanged(c, cfg, id, es, k, ScheduleKeyDeletion(None), 3);
    es := es + [Asks(ChangeKey(arn, ScheduleKeyDeletion(None)))];
    ReachChanged(c, cfg, id, es, Scheduled(k), CancelKeyDeletion, 2);
    es := es + [Asks(ChangeKey(arn, CancelKeyDeletion))];
    ReachChanged(c, cfg, id, es, Cancelled(k), EnableKey, 1);
    es := es + [Asks(ChangeKey(arn, EnableKey))];
  }

  /** Encrypt panics at the end of this run. */
  lemma PanicIsReachable(c: Suite, cfg: Config, id: Bytes) returns (es: seq<Event>, e: Event)
    requires ValidConfig(cfg) && PlainId(id)
    ensures AdmissibleRun(c, cfg, Start(), es) && Admissible(cfg, Run(c, cfg, Start(), es), e)
    ensures e.request.Encrypt? && Answer(c, cfg, Run(c, cfg, Start(), es), e) == Panicked
  {
    var arn := KeyArn(cfg, id);
    es := ReachReenabled(c, cfg, id);
    e := Asks(Encrypt(arn, "p", map[], SymmetricAlgorithm));
    var k := InitialKey(cfg, ExternalKey(id));
    ThreeChanges(c, cfg, id, k);
    KeyArnIsDirect(cfg, id, KEY);
    EncryptPanics(c, cfg, Run(c, cfg, Start(), es).db, arn, Reenabled(k));
  }

  //----------------------------------------------------------------------------------------
  // Decrypt panics: with a long region name ARNs have more than 250 bytes

  const LONG_REGION := Config(seq(185, _ => 'r'), "111122223333")
  const UUID: Bytes := "123e4567-e89b-42d3-a456-426614174000"

  lemma UuidIsPlain()
    ensures PlainId(UUID) && |UUID| == 36 && !HasPrefix(UUID, ALIAS)
  {
    var u: Bytes := UUID;
    assert u[0] == '1' && |u| == 36;
    assert u[..4][0] == u[0] && u[..6][0] == u[0];
    var arn: Bytes := "arn:";
    assert arn[0] == 'a' && ALIAS[0] == 'a';
  }

  lemma LongArnExists()
    ensures ValidConfig(LONG_REGION) && PlainId(UUID) && |UUID| == 36 && |KeyArn(LONG_REGION, UUID)| == 251
  {
    UuidIsPlain();
  }

  function LongArnEncrypt(cfg: Config, id: Bytes): Event {
    Asks(Encrypt(KeyArn(cfg, id), "p", map[], SymmetricAlgorithm))
  }

  /** Encrypt with any key whose ARN has 251 to 255 bytes issues a blob, and Decrypt of it panics. */
  lemma LongArnPanics(c: Suite, cfg: Config, id: Bytes) returns (es: seq<Event>, d: Event)
    requires Lawful(c) && ValidConfig(cfg) && PlainId(id) && 251 <= |KeyArn(cfg, id)| <= 255
    ensures AdmissibleRun(c, cfg, Start(), es)
    ensures var at, e := Run(c, cfg, Start(), es), LongArnEncrypt(cfg, id);
            && Admissible(cfg, at, e) && Answer(c, cfg, at, e).Encrypted?
            && Answer(c, cfg, at, e).keyArn == KeyArn(cfg, id)
            && Admissible(cfg, Next(c, cfg, at, e), d) && d.request.Decrypt?
            && d.request.blob == Answer(c, cfg, at, e).blob && d.request.context == e.request.context
            && Answer(c, cfg, Next(c, cfg, at, e), d) == Panicked
  {
    es := [Asks(CreateKey(AesKey(id)))];
    ReachCreated(c, cfg, id, AesKey(id));
    var at := Run(c, cfg, Start(), es);
    RunKeepsInv(c, cfg, Start(), es);
    d := LongArnDecrypt(c, cfg, id, at, InitialKey(cfg, AesKey(id)));
  }

  lemma LongArnDecrypt(c: Suite, cfg: Config, id: Bytes, at: System, k: KeyRecord) returns (d: Event)
    requires Lawful(c) && PlainId(id) && 251 <= |KeyArn(cfg, id)| <= 255
    requires CreateRejected(AesKey(id)).None? && k == InitialKey(cfg, AesKey(id))
    requires Inv(cfg, at) && at.now == NOW && Holding(at.db, KeyArn(cfg, id), k)
    ensures var e := LongArnEncrypt(cfg, id);
            && Admissible(cfg, at, e) && Answer(c, cfg, at, e).Encrypted?
            && Answer(c, cfg, at, e).keyArn == KeyArn(cfg, id)
            && Admissible(cfg, Next(c, cfg, at, e), d) && d.request.Decrypt?
            && d.request.blob == Answer(c, cfg, at, e).blob && d.request.context == e.request.context
            && Answer(c, cfg, Next(c, cfg, at, e), d) == Panicked
  {
    var arn, e := KeyArn(cfg, id), LongArnEncrypt(cfg, id);
    EncryptsLongArn(c, cfg, id, at.db, arn, k);
    d := Asks(Decrypt(None, Answer(c, cfg, at, e).blob, map[], SymmetricAlgorithm));
    NextStep(c, cfg, at, e, arn);
    BlobOfLongArnPanics(c, cfg, at, e, d, arn);
  }

  lemma EncryptsLongArn(c: Suite, cfg: Config, id: Bytes, db: Db, arn: Bytes, k: KeyRecord)
    requires ValidConfig(cfg) && PlainId(id) && arn == KeyArn(cfg, id) && |arn| <= 255 && Holding(db, arn, k)
    requires CreateRejected(AesKey(id)).None? && k == InitialKey(cfg, AesKey(id))
    ensures EncryptResult(c, cfg, db, arn, "p", map[], SymmetricAlgorithm, ENV).1.Encrypted?
    ensures EncryptResult(c, cfg, db, arn, "p", map[], SymmetricAlgorithm, ENV).1.keyArn == arn
    ensures EncryptResult(c, cfg, db, arn, "p", map[], SymmetricAlgorithm, ENV).0 == db
  {
    LoadsAsStored(db, arn, k);
    KeyArnIsDirect(cfg, id, KEY);
  }

  lemma BlobOfLongArnPanics(c: Suite, cfg: Config, s: System, e: Event, d: Event, arn: Bytes)
    requires Lawful(c) && Inv(cfg, s) && Admissible(cfg, s, e) && e.request.Encrypt?
    requires Answer(c, cfg, s, e).Encrypted? && Answer(c, cfg, s, e).keyArn == arn && |arn| > 250
    requires var s' := Next(c, cfg, s, e); Inv(cfg, s') && Holds(s', arn) && KeyIn(s', arn).keyType == Aes
    requires Admissible(cfg, Next(c, cfg, s, e), d) && d.request.Decrypt? && d.request.optionalKeyId.None?
    requires d.request.blob == Answer(c, cfg, s, e).blob && d.request.context == e.request.context
    ensures Answer(c, cfg, Next(c, cfg, s, e), d) == Panicked
  {
    var s' := Next(c, cfg, s, e);
    EncryptIssuesSealed(c, cfg, s, e);
    BlobSize(c, s'.db.records, arn, d.request.blob, e.request.plaintext, e.request.context);
    DecryptSealed(c, cfg, s', d, arn, e.request.plaintext);
  }

  //----------------------------------------------------------------------------------------
  // Expiry overwrites PendingDeletion: material that expires is imported, then the key is
  // scheduled for deletion and looked at after the expiry

  const PARAMETERS := ParametersForImport(ImportDeadline(NOW), "t", "w", Pkcs1V15)
  const GET_PARAMETERS := KeyOp.GetParametersForImport(Pkcs1V15, "t", "w")
  const IMPORT := KeyOp.ImportKeyMaterial("t", MATERIAL, None, Some(1))
  const SCHEDULE := KeyOp.ScheduleKeyDeletion(Some(7))

  function Parametrised(k: KeyRecord): KeyRecord {
    k.(importParams := PARAMETERS)
  }

  function WithMaterial(k: KeyRecord): KeyRecord {
    var k' := Parametrised(k).(backingKeys := [MATERIAL]);
    k'.(meta := k'.meta.(expirationModel := MaterialExpires, keyState := Enabled, enabled := true, validTo := 1))
  }

  function SetAside(k: KeyRecord): KeyRecord {
    var k' := WithState(WithMaterial(k), false, PendingDeletion);
    k'.(meta := k'.meta.(deletionDate := AddDays(NOW, 7)))
  }

  lemma ImportChanges(cfg: Config, id: Bytes, k: KeyRecord)
    requires CreateRejected(ExternalKey(id)).None? && k == InitialKey(cfg, ExternalKey(id))
    ensures RequestValid(IMPORT, NOW)
    ensures Apply(PlainSuite(), GET_PARAMETERS, k, NOW, MIN_YEAR) == Changed(Parametrised(k))
    ensures Apply(PlainSuite(), IMPORT, Parametrised(k), NOW, MIN_YEAR) == Changed(WithMaterial(k))
    ensures Apply(PlainSuite(), SCHEDULE, WithMaterial(k), NOW, MIN_YEAR) == Changed(SetAside(k))
    ensures forall k' | k' in {Parametrised(k), WithMaterial(k), SetAside(k)} ::
              var arn := KeyArn(cfg, id); SaveAllowed(k') && Holding(Db(map[arn := KeyRec(k')], []), arn, k')
  {
  }

  lemma ReachSetAside(cfg: Config, id: Bytes) returns (es: seq<Event>)
    requires ValidConfig(cfg) && PlainId(id)
    ensures CreateRejected(ExternalKey(id)).None?
    ensures Reached(PlainSuite(), cfg, id, es, SetAside(InitialKey(cfg, ExternalKey(id))), 1)
  {
    var c, arn := PlainSuite(), KeyArn(cfg, id);
    ReachCreated(c, cfg, id, ExternalKey(id));
    var k := InitialKey(cfg, ExternalKey(id));
    ImportChanges(cfg, id, k);
    es := [Asks(CreateKey(ExternalKey(id)))];
    ReachChanged(c, cfg, id, es, k, GET_PARAMETERS, 3);
    es := es + [Asks(ChangeKey(arn, GET_PARAMETERS))];
    ReachChanged(c, cfg, id, es, Parametrised(k), IMPORT, 2);
    es := es + [Asks(ChangeKey(arn, IMPORT))];
    ReachChanged(c, cfg, id, es, WithMaterial(k), SCHEDULE, 1);
    es := es + [Asks(ChangeKey(arn, SCHEDULE))];
  }

  lemma ExpiresAside(cfg: Config, id: Bytes, db: Db, arn: Bytes, k: KeyRecord)
    requires CreateRejected(ExternalKey(id)).None? && k == SetAside(InitialKey(cfg, ExternalKey(id)))
    requires Holding(db, arn, k) && WriteSucceeds(db)
    ensures LoadedKey(db, arn, 2 * SECOND, MIN_YEAR, []).0.records == map[arn := KeyRec(WithoutMaterial(k))]
  {
    assert db.records[arn := KeyRec(WithoutMaterial(k))] == map[arn := KeyRec(WithoutMaterial(k))];
  }

  /** Looking at the key after the expiry leaves it PendingImport with its deletion date set. */
  lemma ExpiryOverwritesReachably(cfg: Config, id: Bytes) returns (es: seq<Event>, e: Event)
    requires ValidConfig(cfg) && PlainId(id)
    ensures AdmissibleRun(PlainSuite(), cfg, Start(), es) && Admissible(cfg, Run(PlainSuite(), cfg, Start(), es), e)
    ensures var s, arn := Run(PlainSuite(), cfg, Start(), es), KeyArn(cfg, id);
            var s' := Next(PlainSuite(), cfg, s, e);
            && Holds(s, arn) && KeyIn(s, arn).meta.keyState == PendingDeletion
            && Holds(s', arn) && KeyIn(s', arn).meta.keyState == PendingImport && KeyIn(s', arn).meta.deletionDate != 0
  {
    var c, arn := PlainSuite(), KeyArn(cfg, id);
    es := ReachSetAside(cfg, id);
    e := Event(DescribeById(arn), ENV.(now := 2 * SECOND));
    KeyArnIsDirect(cfg, id, KEY);
    ExpiresAside(cfg, id, Run(c, cfg, Start(), es).db, arn, SetAside(InitialKey(cfg, ExternalKey(id))));
  }

  //----------------------------------------------------------------------------------------
  // The recovery scan takes an alias for a tag

  lemma SlashTagInside(p: Bytes, name: Bytes)
    requires name == "alias/a" + "/tag/" + "b"
    ensures Contains(p + name, "/tag/")
  {
    var n, at := p + name, |p| + 7;
    assert n[at..at + 5] == name[7..12];
    assert name[7..12] == "/tag/";
    assert OccursAt(n, "/tag/", at);
  }

  lemma NameIsValid(name: Bytes)
    requires name == "alias/a/tag/b"
    ensures ValidAliasName(name) && !HasPrefix(name, "alias/aws/")
  {
    var reserved: Bytes := "alias/aws/";
    assert name[7] == '/' && reserved[7] == 'w' && |reserved| == 10;
    assert name[..10][7] == name[7];
    assert name[..6] == ALIAS;
  }

  lemma AliasTakenForTag(cfg: Config)
    ensures CreateAliasRejected("alias/a/tag/b", UUID).None?
    ensures Recovery.KindOf(StorageName(cfg, AliasSubject("alias/a/tag/b"))) == Recovery.TagEntry
  {
    var name: Bytes := "alias/a/tag/b";
    UuidIsPlain();
    NameIsValid(name);
    assert name == "alias/a" + "/tag/" + "b";
    SlashTagInside(ArnPrefix(cfg), name);
  }
}
