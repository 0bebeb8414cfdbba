/** What holds over every admissible run, of any length and with any pattern of failing writes,
    of the keys themselves. */
module Safety {
  import opened Wrappers
  import opened ByteStrings
  import opened Names
  import opened Crypto
  import opened Keys
  import opened Lifecycle
  import opened Store
  import opened Requests
  import opened KeyHistory
  import opened StoreHistory
  import opened Runs

  predicate Holds(s: System, n: Bytes) {
    HoldsKey(s.db.records, n)
  }

  function KeyIn(s: System, n: Bytes): KeyRecord
    requires Holds(s, n)
  {
    s.db.records[n].key
  }

  /** One event: the invariant is kept, keys evolve or are purged after their deletion date,
      and a key that appears is a new one under a name never used before. */
  lemma NextStep(c: Suite, cfg: Config, s: System, e: Event, n: Bytes)
    requires Inv(cfg, s) && Admissible(cfg, s, e)
    ensures var s' := Next(c, cfg, s, e);
            && Inv(cfg, s') && s.minted <= s'.minted
            && (Holds(s, n) ==> if Holds(s', n) then Evolves(KeyIn(s, n), KeyIn(s', n), MomentOf(e.request, e.env))
                                else IsPendingDeletion(KeyIn(s, n).meta, e.env.now))
            && (Holds(s', n) && !Holds(s, n) ==>
                  && n !in s.minted && e.request.CreateKey? && CreateRejected(e.request.newKey).None?
                  && Evolves(InitialKey(cfg, e.request.newKey), KeyIn(s', n), Quiet(e.env)))
  {
    var s' := Next(c, cfg, s, e);
    var r, r' := s.db.records, s'.db.records;
    if e.request.CreateKey? {
      var nk := e.request.newKey;
      var arn := KeyArn(cfg, nk.keyId);
      CreateKeyStep(cfg, s.db, nk, Quiet(e.env));
      if HoldsKey(r', arn) {
        var mid := r[arn := KeyRec(InitialKey(cfg, nk))];
        assert forall m | HoldsKey(mid, m) :: m == arn || HoldsKey(r, m);
      }
    } else {
      HandleStep(c, cfg, s.db, e.request, e.env);
    }
  }

  lemma {:induction false} RunKeepsInv(c: Suite, cfg: Config, s: System, es: seq<Event>)
    requires Inv(cfg, s) && AdmissibleRun(c, cfg, s, es)
    ensures Inv(cfg, Run(c, cfg, s, es)) && Run(c, cfg, s, es).now >= s.now
    decreases |es|
  {
    if es != [] {
      NextStep(c, cfg, s, es[0], []);
      RunKeepsInv(c, cfg, Next(c, cfg, s, es[0]), es[1..]);
    }
  }

  lemma GrowsTransitive(k: KeyRecord, k': KeyRecord, k'': KeyRecord)
    requires Grows(k, k') && Grows(k', k'')
    ensures Grows(k, k'')
  {
  }

  /** A key that is in the store at the end of a run, under a name already used at its start,
      was there at the start, and it is the same key: same identity, and its backing keys only
      extended at the end. In particular a purged key never comes back. */
  lemma {:induction false} RunOnlyExtends(c: Suite, cfg: Config, s: System, es: seq<Event>, n: Bytes)
    requires Inv(cfg, s) && AdmissibleRun(c, cfg, s, es) && n in s.minted
    requires Holds(Run(c, cfg, s, es), n)
    ensures Holds(s, n) && Grows(KeyIn(s, n), KeyIn(Run(c, cfg, s, es), n))
    decreases |es|
  {
    if es != [] {
      var s' := Next(c, cfg, s, es[0]);
      NextStep(c, cfg, s, es[0], n);
      RunOnlyExtends(c, cfg, s', es[1..], n);
      GrowsTransitive(KeyIn(s, n), KeyIn(s', n), KeyIn(Run(c, cfg, s, es), n));
    }
  }

  //----------------------------------------------------------------------------------------
  // The lifecycle invariant

  ghost predicate AllConsistent(s: System) {
    forall n | Holds(s, n) :: Consistent(KeyIn(s, n))
  }

  lemma InitialKeyIsConsistent(cfg: Config, n: NewKey)
    requires CreateRejected(n).None?
    ensures Consistent(InitialKey(cfg, n)) && SingleMaterial(InitialKey(cfg, n))
  {
  }

  lemma StepKeepsConsistent(c: Suite, cfg: Config, s: System, e: Event)
    requires Inv(cfg, s) && Admissible(cfg, s, e) && AllConsistent(s)
    ensures AllConsistent(Next(c, cfg, s, e))
  {
    var s' := Next(c, cfg, s, e);
    forall n | Holds(s', n) ensures Consistent(KeyIn(s', n)) {
      NextStep(c, cfg, s, e, n);
      if !Holds(s, n) {
        InitialKeyIsConsistent(cfg, e.request.newKey);
      }
    }
  }

  /** In every reachable state every key satisfies the lifecycle invariant. */
  lemma {:induction false} RunKeepsConsistent(c: Suite, cfg: Config, s: System, es: seq<Event>)
    requires Inv(cfg, s) && AdmissibleRun(c, cfg, s, es) && AllConsistent(s)
    ensures AllConsistent(Run(c, cfg, s, es))
    decreases |es|
  {
    if es != [] {
      NextStep(c, cfg, s, es[0], []);
      StepKeepsConsistent(c, cfg, s, es[0]);
      RunKeepsConsistent(c, cfg, Next(c, cfg, s, es[0]), es[1..]);
    }
  }

  predicate InSync(k: KeyRecord) {
    k.meta.deletionDate != 0 <==> k.meta.keyState == PendingDeletion
  }

  /** No request separates the deletion date from the PendingDeletion state. */
  lemma RequestsKeepInSync(c: Suite, op: KeyOp, k: KeyRecord, now: Time, year: nat)
    requires RequestValid(op, now) && Apply(c, op, k, now, year).Changed? && InSync(k)
    ensures InSync(Apply(c, op, k, now, year).key)
  {
  }

  /** Loading does, in exactly one case: the material of a key pending deletion expires. The
      key is then PendingImport with its deletion date still set; only EXTERNAL keys get there. */
  lemma ExpiryOverwritesPendingDeletion(db: Db, arn: Bytes, k: KeyRecord, now: Time)
    requires Consistent(k) && InSync(k) && LoadRest(db, arn, k, now).1.Some?
    ensures var k' := LoadRest(db, arn, k, now).1.value;
            && (!InSync(k') <==> k.meta.keyState == PendingDeletion && MaterialExpired(k.meta, now))
            && (!InSync(k') ==>
                  k'.meta.keyState == PendingImport && k'.meta.deletionDate != 0 && k'.meta.origin == External)
  {
  }

  //----------------------------------------------------------------------------------------
  // EXTERNAL keys

  ghost predicate AllSingle(s: System) {
    forall n | Holds(s, n) :: SingleMaterial(KeyIn(s, n))
  }

  /** EXTERNAL keys created through the API never hold a second backing key, and the one they
      hold is never replaced. */
  lemma {:induction false} ExternalMaterialIsNeverReplaced(c: Suite, cfg: Config, s: System, es: seq<Event>, n: Bytes)
    requires Inv(cfg, s) && AdmissibleRun(c, cfg, s, es) && AllSingle(s)
    ensures var s' := Run(c, cfg, s, es);
            && AllSingle(s')
            && (n in s.minted && Holds(s', n) && KeyIn(s', n).meta.origin == External ==>
                  Holds(s, n) && |KeyIn(s', n).backingKeys| <= 1 &&
                  (KeyIn(s, n).backingKeys == [] || KeyIn(s, n).backingKeys == KeyIn(s', n).backingKeys))
    decreases |es|
  {
    if es != [] {
      var s', e := Next(c, cfg, s, es[0]), es[0];
      NextStep(c, cfg, s, e, n);
      forall m | Holds(s', m) ensures SingleMaterial(KeyIn(s', m)) {
        NextStep(c, cfg, s, e, m);
        if !Holds(s, m) {
          InitialKeyIsConsistent(cfg, e.request.newKey);
        }
      }
      ExternalMaterialIsNeverReplaced(c, cfg, s', es[1..], n);
    }
  }

  //----------------------------------------------------------------------------------------
  // Rotation

  lemma {:induction false} RunKeepsSpacing(c: Suite, cfg: Config, s: System, es: seq<Event>, n: Bytes, start: Time,
                                           base: int)
    requires Inv(cfg, s) && AdmissibleRun(c, cfg, s, es) && Holds(s, n) && start <= s.now
    requires RotationsSpaced(KeyIn(s, n), start, base, s.now)
    requires KeyIn(s, n).onDemandRotationCount <= MAX_ON_DEMAND_ROTATIONS
    ensures var s' := Run(c, cfg, s, es);
            Holds(s', n) ==> s'.now >= s.now && RotationsSpaced(KeyIn(s', n), start, base, s'.now) &&
                             KeyIn(s', n).onDemandRotationCount <= MAX_ON_DEMAND_ROTATIONS
    decreases |es|
  {
    if es != [] && Holds(Run(c, cfg, s, es), n) {
      var s' := Next(c, cfg, s, es[0]);
      NextStep(c, cfg, s, es[0], n);
      RunOnlyExtends(c, cfg, s', es[1..], n);
      assert RotationsSpaced(KeyIn(s, n), start, base, es[0].env.now);
      RunKeepsSpacing(c, cfg, s', es[1..], n, start, base);
    }
  }

  lemma SpacedFromNow(k: KeyRecord, now: Time)
    ensures RotationsSpaced(k, now, Base(k), now)
  {
  }

  /** How many times 365 days fit into a span of time. */
  function Years(elapsed: nat): nat {
    if elapsed < MIN_YEAR then 0 else 1 + Years(elapsed - MIN_YEAR)
  }

  /** The most backing keys a key can have `elapsed` nanoseconds later: 25 in all on demand, one
      at once and one per 365 days by automatic rotation, and one by a first import. */
  function MostBackingKeys(k: KeyRecord, elapsed: nat): int {
    |k.backingKeys| + (if k.backingKeys == [] then 1 else 0)
    + (MAX_ON_DEMAND_ROTATIONS - k.onDemandRotationCount) + 1 + Years(elapsed)
  }

  /** Between two states the number of backing keys stays within that bound. */
  predicate WithinBound(s: System, s': System, n: Bytes)
    requires Holds(s, n) && Holds(s', n)
  {
    s.now <= s'.now && |KeyIn(s', n).backingKeys| <= MostBackingKeys(KeyIn(s, n), s'.now - s.now)
  }

  /** Over a run the number of backing keys stays within the bound. */
  lemma BackingKeysAreBounded(c: Suite, cfg: Config, s: System, es: seq<Event>, n: Bytes)
    requires Inv(cfg, s) && AdmissibleRun(c, cfg, s, es) && Holds(s, n)
    requires KeyIn(s, n).onDemandRotationCount <= MAX_ON_DEMAND_ROTATIONS
    requires Holds(Run(c, cfg, s, es), n)
    ensures WithinBound(s, Run(c, cfg, s, es), n)
  {
    SpacedFromNow(KeyIn(s, n), s.now);
    RunKeepsSpacing(c, cfg, s, es, n, s.now, Base(KeyIn(s, n)));
    SpacingBounds(s, Run(c, cfg, s, es), n);
  }

  lemma SpacingBounds(s: System, s': System, n: Bytes)
    requires Holds(s, n) && Holds(s', n) && s.now <= s'.now
    requires RotationsSpaced(KeyIn(s', n), s.now, Base(KeyIn(s, n)), s'.now)
    requires KeyIn(s', n).onDemandRotationCount <= MAX_ON_DEMAND_ROTATIONS
    ensures WithinBound(s, s', n)
  {
    YearsPassed(s'.now - s.now, AutomaticRotations(KeyIn(s', n), Base(KeyIn(s, n))));
  }

  lemma {:induction false} YearsPassed(elapsed: nat, rotations: int)
    requires elapsed >= Span(rotations - 1)
    ensures rotations <= 1 + Years(elapsed)
    decreases rotations
  {
    if rotations >= 2 {
      YearsPassed(elapsed - MIN_YEAR, rotations - 1);
    }
  }

  /** What counts as an automatic rotation: of a key with material the one on loading, and no
      request does it. */
  lemma OnlyLoadingRotates(c: Suite, op: KeyOp, k: KeyRecord, now: Time, year: nat, drawn: Bytes)
    requires RequestValid(op, now) && Apply(c, op, k, now, year).Changed?
    ensures Rotates(k, Rotated(k, now, year, drawn)) <==> k.backingKeys != []
    ensures !Rotates(k, Apply(c, op, k, now, year).key)
  {
  }

  /** One event on a key that stays: whether it rotates, it does so only when due. */
  lemma RotationStep(c: Suite, cfg: Config, s: System, e: Event, n: Bytes, last: Time)
    requires Inv(cfg, s) && Admissible(cfg, s, e) && last <= s.now
    requires Holds(s, n) && Holds(Next(c, cfg, s, e), n) && NotDueBefore(KeyIn(s, n), last)
    ensures NotDueBefore(KeyIn(Next(c, cfg, s, e), n), last)
    ensures Rotates(KeyIn(s, n), KeyIn(Next(c, cfg, s, e), n)) ==> e.env.now > last + MIN_YEAR
  {
    NextStep(c, cfg, s, e, n);
  }

  /** A key that is not due within a year of `last` rotates later than that, if at all. */
  lemma {:induction false} NextRotationIsLater(c: Suite, cfg: Config, s: System, es: seq<Event>, n: Bytes, last: Time)
    requires Inv(cfg, s) && AdmissibleRun(c, cfg, s, es) && last <= s.now
    requires Holds(s, n) && Holds(Run(c, cfg, s, es), n) && NotDueBefore(KeyIn(s, n), last)
    ensures NotDueBefore(KeyIn(Run(c, cfg, s, es), n), last)
    ensures Rotates(KeyIn(s, n), KeyIn(Run(c, cfg, s, es), n)) ==> Run(c, cfg, s, es).now > last + MIN_YEAR
    decreases |es|
  {
    if es != [] {
      var s' := Next(c, cfg, s, es[0]);
      NextStep(c, cfg, s, es[0], n);
      RunOnlyExtends(c, cfg, s', es[1..], n);
      RotationStep(c, cfg, s, es[0], n, last);
      NextRotationIsLater(c, cfg, s', es[1..], n, last);
      RunKeepsInv(c, cfg, s', es[1..]);
    }
  }

  lemma JustRotated(c: Suite, cfg: Config, s: System, e: Event, n: Bytes)
    requires Inv(cfg, s) && Admissible(cfg, s, e) && Holds(s, n) && Holds(Next(c, cfg, s, e), n)
    requires Rotates(KeyIn(s, n), KeyIn(Next(c, cfg, s, e), n))
    ensures NotDueBefore(KeyIn(Next(c, cfg, s, e), n), e.env.now)
  {
    NextStep(c, cfg, s, e, n);
  }

  /** Automatic rotations of a key are more than a year apart: if an event rotates it, and by the
      end of the run that follows, whatever disabling, enabling and loading it consists of, it
      has been rotated again, then more than 365 days have passed. */
  lemma RotationsAreAYearApart(c: Suite, cfg: Config, s: System, e: Event, es: seq<Event>, n: Bytes)
    requires Inv(cfg, s) && Admissible(cfg, s, e) && AdmissibleRun(c, cfg, Next(c, cfg, s, e), es)
    requires Holds(s, n) && Holds(Next(c, cfg, s, e), n) && Holds(Run(c, cfg, Next(c, cfg, s, e), es), n)
    requires Rotates(KeyIn(s, n), KeyIn(Next(c, cfg, s, e), n))
    requires Rotates(KeyIn(Next(c, cfg, s, e), n), KeyIn(Run(c, cfg, Next(c, cfg, s, e), es), n))
    ensures Run(c, cfg, Next(c, cfg, s, e), es).now > e.env.now + MIN_YEAR
  {
    NextStep(c, cfg, s, e, n);
    JustRotated(c, cfg, s, e, n);
    NextRotationIsLater(c, cfg, Next(c, cfg, s, e), es, n, e.env.now);
  }

  //----------------------------------------------------------------------------------------
  // Deletion

  /** The key keeps this deletion date in every state of the run. */
  ghost predicate DateHeld(c: Suite, cfg: Config, s: System, es: seq<Event>, n: Bytes, date: Time)
    decreases |es|
  {
    && Holds(s, n) && KeyIn(s, n).meta.deletionDate == date
    && (es == [] || DateHeld(c, cfg, Next(c, cfg, s, es[0]), es[1..], n, date))
  }

  /** The event is a ScheduleKeyDeletion of this very key, with a window of 7 to 30 days, that
      succeeds and gives it this date. */
  ghost predicate Schedules(c: Suite, cfg: Config, s: System, e: Event, n: Bytes, date: Time) {
    && e.request.ChangeKey? && e.request.op.ScheduleKeyDeletion?
    && EnsureArn(cfg, KEY, e.request.keyId) == n
    && 7 <= WindowInDays(e.request.op) <= 30 && date == AddDays(e.env.now, WindowInDays(e.request.op))
    && Answer(c, cfg, s, e) == Done(n)
    && Holds(s, n) && KeyIn(s, n).meta.deletionDate != date
  }

  /** Some event of the run scheduled the key for this date, and from then on it was neither
      cancelled nor rescheduled. */
  ghost predicate ScheduledDuring(c: Suite, cfg: Config, s: System, es: seq<Event>, n: Bytes, date: Time)
    decreases |es|
  {
    es != [] &&
    var s' := Next(c, cfg, s, es[0]);
    || (Schedules(c, cfg, s, es[0], n, date) && DateHeld(c, cfg, s', es[1..], n, date))
    || ScheduledDuring(c, cfg, s', es[1..], n, date)
  }

  lemma ChangeAnswers(c: Suite, cfg: Config, db: Db, op: KeyOp, arn: Bytes, k: KeyRecord, env: Env)
    requires AllNamed(cfg, db.records) && RequestValid(op, env.now) && LoadedFrom(db.records, arn, k)
    requires AppliedToLoaded(c, db, op, k, env).0.records != db.records
    ensures HoldsKey(db.records, arn) && AppliedToLoaded(c, db, op, k, env).1 == Done(arn)
  {
    var change := Apply(c, op, k, env.now, env.year);
    if HoldsKey(db.records, arn) {
      var s := SubjectOf(cfg, db.records, arn);
      ApplyGrows(c, op, k, env.now, env.year);
    } else {
      ZeroKeyIsNeverSaved(c, op, env.now, env.year);
    }
  }

  /** If the request sets a date that loading the key does not, then it answers with success. */
  lemma ScheduleAnswers(c: Suite, cfg: Config, db: Db, keyId: Bytes, op: KeyOp, env: Env, n: Bytes)
    requires AllNamed(cfg, db.records) && env.year >= MIN_YEAR && op.ScheduleKeyDeletion?
    requires EnsureArn(cfg, KEY, keyId) == n && HoldsKey(db.records, n)
    requires var r := KeyChanged(c, cfg, db, keyId, op, env).0.records;
             && HoldsKey(r, n) && r[n].key.meta.deletionDate != 0
             && r[n].key.meta.deletionDate != db.records[n].key.meta.deletionDate
    ensures KeyChanged(c, cfg, db, keyId, op, env).1 == Done(n)
  {
    var loaded := LoadedKey(db, n, env.now, env.year, env.firstDraw);
    LoadStep(cfg, db, n, Quiet(env), env.year, env.firstDraw);
    if HoldsKey(loaded.0.records, n) {
      assert Evolves(db.records[n].key, loaded.0.records[n].key, Quiet(env));
    }
    if loaded.1.Some? {
      ChangeAnswers(c, cfg, loaded.0, op, n, loaded.1.value, env);
    }
  }

  /** A key gets a new deletion date from a successful ScheduleKeyDeletion of that key and from
      nothing else. */
  lemma NewDateIsScheduled(c: Suite, cfg: Config, s: System, e: Event, n: Bytes)
    requires Inv(cfg, s) && Admissible(cfg, s, e) && Holds(s, n) && Holds(Next(c, cfg, s, e), n)
    requires KeyIn(Next(c, cfg, s, e), n).meta.deletionDate != 0
    requires KeyIn(Next(c, cfg, s, e), n).meta.deletionDate != KeyIn(s, n).meta.deletionDate
    ensures Schedules(c, cfg, s, e, n, KeyIn(Next(c, cfg, s, e), n).meta.deletionDate)
  {
    NextStep(c, cfg, s, e, n);
    var r := e.request;
    KeyChangedTouchesOneRecord(c, cfg, s.db, r.keyId, r.op, e.env);
    assert EnsureArn(cfg, KEY, r.keyId) == n by {
      if EnsureArn(cfg, KEY, r.keyId) != n {
        SameElsewhere(s.db.records, Next(c, cfg, s, e).db.records, EnsureArn(cfg, KEY, r.keyId), n);
      }
    }
    ScheduleAnswers(c, cfg, s.db, r.keyId, r.op, e.env, n);
  }

  lemma SameElsewhere(r: map<Bytes, Record>, r': map<Bytes, Record>, arn: Bytes, n: Bytes)
    requires SameBut(r, r', arn) && n != arn && n in r && n in r'
    ensures r'[n] == r[n]
  {
    assert (r - {arn})[n] == (r' - {arn})[n];
  }

  lemma {:induction false} DateWasScheduled(c: Suite, cfg: Config, s: System, es: seq<Event>, n: Bytes)
    requires Inv(cfg, s) && AdmissibleRun(c, cfg, s, es) && Holds(s, n) && Holds(Run(c, cfg, s, es), n)
    requires KeyIn(Run(c, cfg, s, es), n).meta.deletionDate != 0
    ensures var date := KeyIn(Run(c, cfg, s, es), n).meta.deletionDate;
            DateHeld(c, cfg, s, es, n, date) || ScheduledDuring(c, cfg, s, es, n, date)
    decreases |es|
  {
    if es != [] {
      var s' := Next(c, cfg, s, es[0]);
      NextStep(c, cfg, s, es[0], n);
      RunOnlyExtends(c, cfg, s', es[1..], n);
      DateWasScheduled(c, cfg, s', es[1..], n);
      var date := KeyIn(Run(c, cfg, s, es), n).meta.deletionDate;
      if DateHeld(c, cfg, s', es[1..], n, date) && KeyIn(s, n).meta.deletionDate != date {
        NewDateIsScheduled(c, cfg, s, es[0], n);
      }
    }
  }

  /** No event removes a key before its stored deletion date has passed, and a key without one
      at the start of the run was itself scheduled in the run, 7 to 30 days ahead, and never
      cancelled since. */
  lemma PurgedKeyWasScheduled(c: Suite, cfg: Config, s: System, es: seq<Event>, e: Event, n: Bytes)
    requires Inv(cfg, s) && AdmissibleRun(c, cfg, s, es) && Holds(s, n) && Holds(Run(c, cfg, s, es), n)
    requires Admissible(cfg, Run(c, cfg, s, es), e) && !Holds(Next(c, cfg, Run(c, cfg, s, es), e), n)
    ensures var date := KeyIn(Run(c, cfg, s, es), n).meta.deletionDate;
            && 0 < date < e.env.now
            && (DateHeld(c, cfg, s, es, n, date) || ScheduledDuring(c, cfg, s, es, n, date))
            && (KeyIn(s, n).meta.deletionDate == 0 ==> ScheduledDuring(c, cfg, s, es, n, date))
  {
    RunKeepsInv(c, cfg, s, es);
    NextStep(c, cfg, Run(c, cfg, s, es), e, n);
    DateWasScheduled(c, cfg, s, es, n);
    assert e.env.now / SECOND * SECOND <= e.env.now;
  }

  //----------------------------------------------------------------------------------------
  // Key material

  ghost predicate AllSavable(s: System) {
    forall n | Holds(s, n) :: SaveAllowed(KeyIn(s, n))
  }

  /** In every run an AES key that is not EXTERNAL has material, because every save checks it. */
  lemma {:induction false} NonExternalKeysHaveMaterial(c: Suite, cfg: Config, s: System, es: seq<Event>)
    requires Inv(cfg, s) && AdmissibleRun(c, cfg, s, es) && AllSavable(s)
    ensures AllSavable(Run(c, cfg, s, es))
    decreases |es|
  {
    if es != [] {
      var s', e := Next(c, cfg, s, es[0]), es[0];
      NextStep(c, cfg, s, e, []);
      forall n | Holds(s', n) ensures SaveAllowed(KeyIn(s', n)) {
        NextStep(c, cfg, s, e, n);
      }
      NonExternalKeysHaveMaterial(c, cfg, s', es[1..]);
    }
  }

  ghost predicate NoneHollow(records: map<Bytes, Record>) {
    forall n | HoldsKey(records, n) :: !Hollow(records[n].key)
  }

  /** What makes a ScheduleKeyDeletion set an EXTERNAL AES key aside that has no material yet: the
      window is valid, the key is there and not pending deletion already, and the disk takes the
      write. */
  predicate SchedulesEmptyKey(cfg: Config, s: System, e: Event) {
    && e.request.ChangeKey? && e.request.op.ScheduleKeyDeletion? && 7 <= WindowInDays(e.request.op) <= 30
    && var loaded := LoadedKey(s.db, EnsureArn(cfg, KEY, e.request.keyId), e.env.now, e.env.year, e.env.firstDraw);
       && loaded.1.Some? && EmptyExternal(loaded.1.value) && WriteSucceeds(loaded.0)
  }

  predicate EmptyExternal(k: KeyRecord) {
    k.keyType == Aes && k.backingKeys == [] && k.meta.origin == External && k.meta.keyState != PendingDeletion
  }

  lemma QuietStepKeepsMaterial(cfg: Config, r: map<Bytes, Record>, r': map<Bytes, Record>, at: Moment)
    requires Steps(cfg, r, r', at) && at.window.None? && NoneHollow(r)
    ensures NoneHollow(r')
  {
    forall n | HoldsKey(r', n) ensures !Hollow(r'[n].key) {
      assert HoldsKey(r, n) && Evolves(r[n].key, r'[n].key, at);
    }
  }

  /** What scheduling a deletion does to the absence of hollow keys. */
  lemma ScheduleAndMaterial(c: Suite, cfg: Config, s: System, e: Event)
    requires Inv(cfg, s) && Admissible(cfg, s, e) && NoneHollow(s.db.records)
    requires e.request.ChangeKey? && e.request.op.ScheduleKeyDeletion?
    ensures NoneHollow(Next(c, cfg, s, e).db.records) <==> !SchedulesEmptyKey(cfg, s, e)
  {
    var op, env := e.request.op, e.env;
    if RequestValid(op, env.now) {
      var arn := EnsureArn(cfg, KEY, e.request.keyId);
      var loaded := LoadedKey(s.db, arn, env.now, env.year, env.firstDraw);
      LoadStep(cfg, s.db, arn, Quiet(env), env.year, env.firstDraw);
      QuietStepKeepsMaterial(cfg, s.db.records, loaded.0.records, Quiet(env));
      if loaded.1.Some? {
        AppliedToHollow(c, cfg, loaded.0, op, arn, loaded.1.value, env);
      }
    }
  }

  lemma AppliedToHollow(c: Suite, cfg: Config, db: Db, op: KeyOp, arn: Bytes, k: KeyRecord, env: Env)
    requires AllNamed(cfg, db.records) && RequestValid(op, env.now) && op.ScheduleKeyDeletion?
    requires LoadedFrom(db.records, arn, k) && NoneHollow(db.records)
    ensures var db' := AppliedToLoaded(c, db, op, k, env).0;
            NoneHollow(db'.records) <==> !(EmptyExternal(k) && WriteSucceeds(db))
  {
    var change := Apply(c, op, k, env.now, env.year);
    if change.Changed? {
      if HoldsKey(db.records, arn) {
        SaveKeepsNames(cfg, db, arn, change.key);
        var r := SavedKey(db, change.key).0.records;
        assert forall n | HoldsKey(r, n) && n != arn :: HoldsKey(db.records, n) && r[n] == db.records[n];
        if SavedKey(db, change.key).1 {
          assert HoldsKey(r, arn) && r[arn].key == change.key;
        }
      } else {
        ZeroKeyIsNeverSaved(c, op, env.now, env.year);
      }
    }
  }

  /** Exactly one thing makes an AES key hollow: scheduling the deletion of a key without
      material. */
  lemma StepKeepsMaterial(c: Suite, cfg: Config, s: System, e: Event)
    requires Inv(cfg, s) && Admissible(cfg, s, e) && NoneHollow(s.db.records)
    ensures NoneHollow(Next(c, cfg, s, e).db.records) <==> !SchedulesEmptyKey(cfg, s, e)
  {
    var s' := Next(c, cfg, s, e);
    if e.request.ChangeKey? && e.request.op.ScheduleKeyDeletion? {
      ScheduleAndMaterial(c, cfg, s, e);
    } else {
      forall n | HoldsKey(s'.db.records, n) ensures !Hollow(s'.db.records[n].key) {
        NextStep(c, cfg, s, e, n);
      }
    }
  }

  ghost predicate NeverSchedulesEmptyKey(c: Suite, cfg: Config, s: System, es: seq<Event>)
    decreases |es|
  {
    es == [] || (!SchedulesEmptyKey(cfg, s, es[0]) && NeverSchedulesEmptyKey(c, cfg, Next(c, cfg, s, es[0]), es[1..]))
  }

  lemma UsableKeyHasMaterial(cfg: Config, s: System, keyId: Bytes, env: Env)
    requires Inv(cfg, s) && NoneHollow(s.db.records) && env.year >= MIN_YEAR
    ensures var got := GotUsableKey(cfg, s.db, keyId, env.now, env.year, env.firstDraw).1;
            got.Usable? && got.key.keyType == Aes ==> got.key.backingKeys != []
  {
    var got := GotKey(cfg, s.db, keyId, env.now, env.year, env.firstDraw);
    GetKeyStep(cfg, s.db, keyId, Quiet(env), env.year, env.firstDraw);
    QuietStepKeepsMaterial(cfg, s.db.records, got.0.records, Quiet(env));
    if got.1.Some? {
      var arn :| LoadedFrom(got.0.records, arn, got.1.value);
    }
  }

  lemma {:induction false} RunKeepsMaterial(c: Suite, cfg: Config, s: System, es: seq<Event>)
    requires Inv(cfg, s) && AdmissibleRun(c, cfg, s, es) && NoneHollow(s.db.records)
    requires NeverSchedulesEmptyKey(c, cfg, s, es)
    ensures NoneHollow(Run(c, cfg, s, es).db.records)
    decreases |es|
  {
    if es != [] {
      NextStep(c, cfg, s, es[0], []);
      StepKeepsMaterial(c, cfg, s, es[0]);
      RunKeepsMaterial(c, cfg, Next(c, cfg, s, es[0]), es[1..]);
    }
  }

  /** In a run that never does that, every AES key that getUsableKey hands out, EXTERNAL or not,
      has material, so the index into its backing keys is in range. */
  lemma UsableKeysHaveMaterial(c: Suite, cfg: Config, s: System, es: seq<Event>, keyId: Bytes, env: Env)
    requires Inv(cfg, s) && AdmissibleRun(c, cfg, s, es) && NoneHollow(s.db.records)
    requires NeverSchedulesEmptyKey(c, cfg, s, es) && env.year >= MIN_YEAR
    ensures var got := GotUsableKey(cfg, Run(c, cfg, s, es).db, keyId, env.now, env.year, env.firstDraw);
            got.1.Usable? && got.1.key.keyType == Aes ==> got.1.key.backingKeys != []
  {
    RunKeepsInv(c, cfg, s, es);
    RunKeepsMaterial(c, cfg, s, es);
    UsableKeyHasMaterial(cfg, Run(c, cfg, s, es), keyId, env);
  }

  lemma SavableKeyHasMaterial(cfg: Config, s: System, keyId: Bytes, env: Env)
    requires Inv(cfg, s) && AllSavable(s) && env.year >= MIN_YEAR
    ensures var got := GotUsableKey(cfg, s.db, keyId, env.now, env.year, env.firstDraw).1;
            got.Usable? && got.key.keyType == Aes && got.key.meta.origin != External ==> got.key.backingKeys != []
  {
    var got := GotUsableKey(cfg, s.db, keyId, env.now, env.year, env.firstDraw);
    UsableKeyStep(cfg, s.db, keyId, Quiet(env), env.year, env.firstDraw);
    if got.1.Usable? {
      assert SaveAllowed(KeyIn(s, got.1.key.meta.arn));
    }
  }

  /** In every run at all, every AES key that is not EXTERNAL and that getUsableKey hands out has
      material. */
  lemma UsableOwnKeysHaveMaterial(c: Suite, cfg: Config, s: System, es: seq<Event>, keyId: Bytes, env: Env)
    requires Inv(cfg, s) && AdmissibleRun(c, cfg, s, es) && AllSavable(s) && env.year >= MIN_YEAR
    ensures var got := GotUsableKey(cfg, Run(c, cfg, s, es).db, keyId, env.now, env.year, env.firstDraw).1;
            got.Usable? && got.key.keyType == Aes && got.key.meta.origin != External ==> got.key.backingKeys != []
  {
    RunKeepsInv(c, cfg, s, es);
    NonExternalKeysHaveMaterial(c, cfg, s, es);
    SavableKeyHasMaterial(cfg, Run(c, cfg, s, es), keyId, env);
  }

  /** The excluded path leads to a panic: cancelling and enabling such a key makes it usable. */
  lemma HollowKeyPanics(c: Suite, k: KeyRecord, now: Time, year: nat, plaintext: Bytes, context: map<Bytes, Bytes>,
                        nonce: Nonce)
    requires Hollow(k) && k.meta.keyState == PendingDeletion
    ensures var cancelled := Apply(c, CancelKeyDeletion, k, now, year);
            cancelled.Changed? &&
            var enabled := Apply(c, EnableKey, cancelled.key, now, year);
            && enabled.Changed? && Usability(enabled.key) == Usable(enabled.key)
            && PackagedCiphertext(c, enabled.key, plaintext, context, nonce) == Panic
  {
  }

  //----------------------------------------------------------------------------------------
  // From the beginning

  ghost function Beginning(disk: seq<bool>, now: Time): System {
    System(Db(map[], disk), now, {})
  }

  /** No key was rotated on demand more than 25 times. */
  ghost predicate AllLimited(s: System) {
    forall n | Holds(s, n) :: KeyIn(s, n).onDemandRotationCount <= MAX_ON_DEMAND_ROTATIONS
  }

  /** Key ids are UUIDs. */
  ghost predicate AllPlainIds(s: System) {
    forall n | Holds(s, n) :: PlainId(KeyIn(s, n).meta.keyId)
  }

  lemma StepKeepsPlainIds(c: Suite, cfg: Config, s: System, e: Event)
    requires Inv(cfg, s) && Admissible(cfg, s, e) && AllPlainIds(s)
    ensures AllPlainIds(Next(c, cfg, s, e))
  {
    var s' := Next(c, cfg, s, e);
    forall n | Holds(s', n) ensures PlainId(KeyIn(s', n).meta.keyId) {
      NextStep(c, cfg, s, e, n);
    }
  }

  lemma StepKeepsLimits(c: Suite, cfg: Config, s: System, e: Event)
    requires Inv(cfg, s) && Admissible(cfg, s, e) && AllLimited(s)
    ensures AllLimited(Next(c, cfg, s, e))
  {
    var s' := Next(c, cfg, s, e);
    forall n | Holds(s', n) ensures KeyIn(s', n).onDemandRotationCount <= MAX_ON_DEMAND_ROTATIONS {
      NextStep(c, cfg, s, e, n);
    }
  }

  /** Every key has a usage. */
  ghost predicate AllUsed(s: System) {
    forall n | Holds(s, n) :: KeyIn(s, n).meta.keyUsage != NoUsage
  }

  lemma {:induction false} RunKeepsUsages(c: Suite, cfg: Config, s: System, es: seq<Event>)
    requires Inv(cfg, s) && AdmissibleRun(c, cfg, s, es) && AllUsed(s)
    ensures AllUsed(Run(c, cfg, s, es))
    decreases |es|
  {
    if es != [] {
      var s', e := Next(c, cfg, s, es[0]), es[0];
      NextStep(c, cfg, s, e, []);
      forall n | Holds(s', n) ensures KeyIn(s', n).meta.keyUsage != NoUsage {
        NextStep(c, cfg, s, e, n);
      }
      RunKeepsUsages(c, cfg, s', es[1..]);
    }
  }

  /** In every reachable state no key was rotated on demand more than 25 times. */
  lemma {:induction false} RunKeepsLimits(c: Suite, cfg: Config, s: System, es: seq<Event>)
    requires Inv(cfg, s) && AdmissibleRun(c, cfg, s, es) && AllLimited(s) && AllPlainIds(s)
    ensures AllLimited(Run(c, cfg, s, es)) && AllPlainIds(Run(c, cfg, s, es))
    decreases |es|
  {
    if es != [] {
      NextStep(c, cfg, s, es[0], []);
      StepKeepsLimits(c, cfg, s, es[0]);
      StepKeepsPlainIds(c, cfg, s, es[0]);
      RunKeepsLimits(c, cfg, Next(c, cfg, s, es[0]), es[1..]);
    }
  }

  /** Every state reached from the empty store, with any pattern of failing writes, satisfies the
      invariants that the theorems above start from. */
  lemma EveryReachableState(c: Suite, cfg: Config, disk: seq<bool>, now: Time, es: seq<Event>)
    requires ValidConfig(cfg) && AdmissibleRun(c, cfg, Beginning(disk, now), es)
    ensures var s := Run(c, cfg, Beginning(disk, now), es);
            && Inv(cfg, s) && AllConsistent(s) && AllSingle(s) && AllSavable(s)
            && AllLimited(s) && AllPlainIds(s) && AllUsed(s)
  {
    var start := Beginning(disk, now);
    RunKeepsInv(c, cfg, start, es);
    RunKeepsConsistent(c, cfg, start, es);
    ExternalMaterialIsNeverReplaced(c, cfg, start, es, []);
    NonExternalKeysHaveMaterial(c, cfg, start, es);
    RunKeepsLimits(c, cfg, start, es);
    RunKeepsUsages(c, cfg, start, es);
  }

  lemma {:induction false} RunAppend(c: Suite, cfg: Config, s: System, es: seq<Event>, e: Event)
    requires AdmissibleRun(c, cfg, s, es) && Admissible(cfg, Run(c, cfg, s, es), e)
    ensures AdmissibleRun(c, cfg, s, es + [e])
    ensures Run(c, cfg, s, es + [e]) == Next(c, cfg, Run(c, cfg, s, es), e)
    decreases |es|
  {
    if es == [] {
      assert [] + [e] == [e];
      assert [e][1..] == [];
    } else {
      RunAppend(c, cfg, Next(c, cfg, s, es[0]), es[1..], e);
      assert (es + [e])[1..] == es[1..] + [e];
    }
  }

  //----------------------------------------------------------------------------------------
  // Loading twice

  /** The exception of LoadKeyNormalises is no key of the service: expiring material means
      EXTERNAL, and EXTERNAL keys have no rotation date. */
  lemma NoOverdueLegacyKey(k: KeyRecord, now: Time)
    requires Consistent(k) && SingleMaterial(k)
    ensures !OverdueLegacyHmac(k, now)
  {
  }

  /** In every state reached from the empty store, with writes succeeding, loading a key again at
      the same time answers the same and changes nothing. */
  lemma ReachableLoadsNormalise(c: Suite, cfg: Config, disk: seq<bool>, start: Time, es: seq<Event>, arn: Bytes,
                                now: Time, year: nat, drawn: Bytes, year': nat, drawn': Bytes)
    requires ValidConfig(cfg) && AdmissibleRun(c, cfg, Beginning(disk, start), es)
    requires Healthy(Run(c, cfg, Beginning(disk, start), es).db, 3)
    ensures var (db1, k1) := LoadedKey(Run(c, cfg, Beginning(disk, start), es).db, arn, now, year, drawn);
            var (db2, k2) := LoadedKey(db1, arn, now, year', drawn');
            db2.records == db1.records && k2 == k1
  {
    var s := Run(c, cfg, Beginning(disk, start), es);
    EveryReachableState(c, cfg, disk, start, es);
    SoundLoadsNormalise(cfg, s, arn, now, year, drawn, year', drawn');
  }

  lemma SoundLoadsNormalise(cfg: Config, s: System, arn: Bytes, now: Time, year: nat, drawn: Bytes, year': nat,
                            drawn': Bytes)
    requires Inv(cfg, s) && AllConsistent(s) && AllSingle(s) && Healthy(s.db, 3)
    ensures var (db1, k1) := LoadedKey(s.db, arn, now, year, drawn);
            var (db2, k2) := LoadedKey(db1, arn, now, year', drawn');
            db2.records == db1.records && k2 == k1
  {
    if Holds(s, arn) {
      var subject := SubjectOf(cfg, s.db.records, arn);
      NoOverdueLegacyKey(KeyIn(s, arn), now);
    }
    LoadKeyNormalises(s.db, arn, now, year, drawn, year', drawn');
  }
}
