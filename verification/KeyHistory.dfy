/** What a key record keeps through every rotation, migration, expiry and request: its
    identity and the order of its backing keys, the lifecycle invariant, the rotation bound. */
module KeyHistory {
  import opened Wrappers
  import opened ByteStrings
  import opened Crypto
  import opened Keys
  import opened Lifecycle

  /** The same key, whose backing keys were only ever extended at the end. */
  ghost predicate Grows(k: KeyRecord, k': KeyRecord) {
    && k'.keyType == k.keyType && k'.privateKey == k.privateKey
    && k'.meta.arn == k.meta.arn && k'.meta.keyId == k.meta.keyId
    && k'.meta.keyUsage == k.meta.keyUsage && k'.meta.origin == k.meta.origin
    && k'.meta.macAlgorithms == k.meta.macAlgorithms
    && k.backingKeys <= k'.backingKeys
  }

  predicate Consistent(k: KeyRecord) {
    var m := k.meta;
    && (m.enabled <==> m.keyState == Enabled)
    && m.keyState != Unavailable && m.keyState != NoState
    && (m.keyState == PendingDeletion ==> m.deletionDate != 0)
    && (m.origin != External ==> (m.deletionDate != 0 <==> m.keyState == PendingDeletion))
    && (m.validTo != 0 <==> m.expirationModel == MaterialExpires)
    && (m.validTo != 0 ==> m.origin == External)
    && (m.keyState == PendingImport ==> m.validTo == 0 && m.origin == External)
  }

  /** An EXTERNAL key has one backing key at most and no rotation date. */
  predicate SingleMaterial(k: KeyRecord) {
    k.meta.origin == External ==> |k.backingKeys| <= 1 && k.nextKeyRotation.None?
  }

  /** The time of a request and, if it schedules a deletion, its window in days. */
  datatype Moment = Moment(now: Time, window: Option<int>)

  function OpMoment(op: KeyOp, now: Time): Moment {
    Moment(now, if op.ScheduleKeyDeletion? then Some(WindowInDays(op)) else None)
  }

  /** A deletion date is kept, cleared, or set by a request with a window of 7 to 30 days. */
  predicate DeletionDateStep(k: KeyRecord, k': KeyRecord, at: Moment) {
    || k'.meta.deletionDate == k.meta.deletionDate
    || k'.meta.deletionDate == 0
    || (at.window.Some? && 7 <= at.window.value <= 30 && k'.meta.deletionDate == AddDays(at.now, at.window.value))
  }

  /** An AES key without material that is not pending import, so that enabling it would make it
      usable. */
  predicate Hollow(k: KeyRecord) {
    k.keyType == Aes && k.backingKeys == [] && k.meta.keyState != PendingImport
  }

  /** The backing keys that RotateKeyOnDemand did not add, with a first import counted ahead. */
  function Base(k: KeyRecord): int {
    |k.backingKeys| - k.onDemandRotationCount + (if k.backingKeys == [] then 1 else 0)
  }

  /** `k'` has backing keys that neither an import nor RotateKeyOnDemand added to `k`: it was
      rotated automatically. (A rotation of a key without material counts as its first.) */
  predicate Rotates(k: KeyRecord, k': KeyRecord) {
    Base(k') > Base(k)
  }

  predicate Due(k: KeyRecord, now: Time) {
    k.nextKeyRotation.Some? && k.nextKeyRotation.value < now
  }

  /** Backing keys of `k` that are neither among the first `base` nor due to RotateKeyOnDemand. */
  function AutomaticRotations(k: KeyRecord, base: int): int {
    |k.backingKeys| - k.onDemandRotationCount - base
  }

  /** The length of n years of 365 days. */
  function Span(n: int): nat {
    if n <= 0 then 0 else MIN_YEAR + Span(n - 1)
  }

  /** Since `start`, automatic rotations came at least a year apart: the n-th not before n - 1
      years, and the next one is not due before n years. A first import counts into `base`. */
  predicate RotationsSpaced(k: KeyRecord, start: Time, base: int, now: Time) {
    var n := AutomaticRotations(k, base);
    && (n >= 1 ==> now >= start + Span(n - 1))
    && (n >= 1 && k.nextKeyRotation.Some? ==> k.nextKeyRotation.value >= start + Span(n))
    && (k.backingKeys == [] ==> n < 0)
  }

  /** No automatic rotation is due within a year of `last`. */
  predicate NotDueBefore(k: KeyRecord, last: Time) {
    k.nextKeyRotation.Some? ==> k.nextKeyRotation.value >= last + MIN_YEAR
  }

  /** Everything one request at moment `at` does to a key that stays in the store. */
  ghost predicate Evolves(k: KeyRecord, k': KeyRecord, at: Moment) {
    && Grows(k, k')
    && (Consistent(k) ==> Consistent(k'))
    && (SingleMaterial(k) ==> SingleMaterial(k'))
    && DeletionDateStep(k, k', at)
    && (Hollow(k') ==> Hollow(k) || at.window.Some?)
    && (k.onDemandRotationCount <= MAX_ON_DEMAND_ROTATIONS ==> k'.onDemandRotationCount <= MAX_ON_DEMAND_ROTATIONS)
    && (forall start: Time, base: int {:trigger RotationsSpaced(k, start, base, at.now)} ::
          start <= at.now && RotationsSpaced(k, start, base, at.now) ==> RotationsSpaced(k', start, base, at.now))
    && (forall last: Time {:trigger NotDueBefore(k, last)} ::
          last <= at.now && NotDueBefore(k, last) ==> NotDueBefore(k', last))
    && (Due(k', at.now) ==> Due(k, at.now))
    && (Rotates(k, k') ==> Due(k, at.now) && NotDueBefore(k', at.now))
  }

  lemma EvolvesTransitive(k: KeyRecord, k': KeyRecord, k'': KeyRecord, at: Moment)
    requires Evolves(k, k', at) && Evolves(k', k'', at)
    ensures Evolves(k, k'', at)
  {
  }

  lemma EvolvesReflexive(k: KeyRecord, at: Moment)
    ensures Evolves(k, k, at)
  {
  }

  //----------------------------------------------------------------------------------------
  // What LoadKey does

  lemma RotationEvolves(k: KeyRecord, at: Moment, year: nat, drawn: Bytes)
    requires NeedsRotation(k, at.now) && year >= MIN_YEAR
    ensures Evolves(k, Rotated(k, at.now, year, drawn), at)
  {
    var k' := Rotated(k, at.now, year, drawn);
    forall start: Time, base: int | start <= at.now && RotationsSpaced(k, start, base, at.now)
      ensures RotationsSpaced(k', start, base, at.now)
    {
      assert AutomaticRotations(k', base) == AutomaticRotations(k, base) + 1;
    }
  }

  lemma MigrationEvolves(k: KeyRecord, at: Moment)
    ensures Evolves(k, Migrated(k), at)
  {
  }

  lemma ExpiryEvolves(k: KeyRecord, at: Moment)
    requires MaterialExpired(k.meta, at.now)
    ensures Evolves(k, WithoutMaterial(k), at)
  {
  }

  //----------------------------------------------------------------------------------------
  // What a request does

  lemma ApplyGrows(c: Suite, op: KeyOp, k: KeyRecord, now: Time, year: nat)
    requires RequestValid(op, now) && Apply(c, op, k, now, year).Changed?
    ensures Grows(k, Apply(c, op, k, now, year).key)
  {
  }

  lemma ApplyKeepsConsistent(c: Suite, op: KeyOp, k: KeyRecord, now: Time, year: nat)
    requires RequestValid(op, now) && Apply(c, op, k, now, year).Changed? && Consistent(k)
    ensures Consistent(Apply(c, op, k, now, year).key)
  {
  }

  lemma ApplyKeepsSpacing(c: Suite, op: KeyOp, k: KeyRecord, now: Time, year: nat, start: Time, base: int)
    requires RequestValid(op, now) && Apply(c, op, k, now, year).Changed? && year >= MIN_YEAR
    requires start <= now && RotationsSpaced(k, start, base, now)
    ensures RotationsSpaced(Apply(c, op, k, now, year).key, start, base, now)
  {
    var k' := Apply(c, op, k, now, year).key;
    assert AutomaticRotations(k', base) == AutomaticRotations(k, base) || k.backingKeys == [];
  }

  lemma ApplyEvolves(c: Suite, op: KeyOp, k: KeyRecord, at: Moment, year: nat)
    requires at == OpMoment(op, at.now)
    requires RequestValid(op, at.now) && Apply(c, op, k, at.now, year).Changed? && year >= MIN_YEAR
    ensures Evolves(k, Apply(c, op, k, at.now, year).key, at)
  {
    var k' := Apply(c, op, k, at.now, year).key;
    ApplyGrows(c, op, k, at.now, year);
    if Consistent(k) {
      ApplyKeepsConsistent(c, op, k, at.now, year);
    }
    forall start: Time, base: int | start <= at.now && RotationsSpaced(k, start, base, at.now)
      ensures RotationsSpaced(k', start, base, at.now)
    {
      ApplyKeepsSpacing(c, op, k, at.now, year, start, base);
    }
  }
}
