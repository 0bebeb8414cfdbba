/** The listings of aliases, grants and tags as their handlers answer them: each call loads the key
    first, which may rotate it or expire its material before the page is read. */
module HandlerListing {
  import opened Wrappers
  import opened ByteStrings
  import opened Names
  import opened Keys
  import opened Lifecycle
  import opened Crypto
  import opened Pages
  import opened Store
  import opened Requests
  import opened StoreHistory
  import opened Runs
  import opened Safety
  import opened Listing

  //----------------------------------------------------------------------------------------
  // Loading again

  lemma RestAgain(db: Db, arn: Bytes, k: KeyRecord, now: Time, year: nat, drawn: Bytes)
    requires arn in db.records && db.records[arn] == KeyRec(k) && k.meta.arn == arn
    requires !NeedsRotation(k, now) && !OverdueLegacyHmac(k, now) && LoadRest(db, arn, k, now).1.Some?
    ensures var loaded := LoadRest(db, arn, k, now); LoadedKey(loaded.0, arn, now, year, drawn) == loaded
  {
  }

  /** After a load that handed out the key, whichever writes fail from then on, loading again at the
      same time changes nothing and hands out the same key. */
  lemma LoadedAgain(cfg: Config, db: Db, arn: Bytes, now: Time, year: nat, drawn: Bytes, year': nat, drawn': Bytes)
    requires AllNamed(cfg, db.records) && LoadedKey(db, arn, now, year, drawn).1.Some?
    requires !OverdueLegacyHmac(AsKey(Lookup(db.records, arn)), now)
    ensures var loaded := LoadedKey(db, arn, now, year, drawn);
            LoadedKey(loaded.0, arn, now, year', drawn') == loaded
  {
    if HoldsKey(db.records, arn) {
      var s := SubjectOf(cfg, db.records, arn);
      var k := db.records[arn].key;
      if NeedsRotation(k, now) {
        var rotated := Rotated(k, now, year, drawn);
        RestAgain(SavedKey(db, rotated).0, arn, rotated, now, year', drawn');
      } else {
        RestAgain(db, arn, k, now, year', drawn');
      }
    }
  }

  lemma PrefixedContains(p: Bytes, s: Bytes, sub: Bytes)
    requires Contains(s, sub)
    ensures Contains(p + s, sub)
  {
    var i: nat :| i <= |s| && OccursAt(s, sub, i);
    assert (p + s)[|p| + i..|p| + i + |sub|] == s[i..i + |sub|];
    assert OccursAt(p + s, sub, |p| + i);
  }

  /** A load does not change what an alias name leads to. */
  lemma NameStays(cfg: Config, db: Db, db': Db, keyId: Bytes)
    requires ValidConfig(cfg) && AllNamed(cfg, db.records) && AllNamed(cfg, db'.records)
    requires OthersSame(db.records, db'.records) && ResolvedName(cfg, db, keyId).Some?
    ensures ResolvedName(cfg, db', keyId) == ResolvedName(cfg, db, keyId)
  {
    if Contains(keyId, ALIAS) {
      var n := EnsureArn(cfg, [], keyId);
      assert Contains(n, ALIAS) by {
        if !HasPrefix(keyId, "arn:") {
          PrefixedContains(ArnPrefix(cfg) + [], keyId, ALIAS);
        }
      }
      var s := SubjectOf(cfg, db.records, n);
      if s.KeySubject? {
        KeyArnIsDirect(cfg, s.id, KEY);
        assert false;
      }
    }
  }

  lemma GotAgain(cfg: Config, db: Db, keyId: Bytes, env: Env)
    requires ValidConfig(cfg) && AllNamed(cfg, db.records) && env.year >= MIN_YEAR
    requires GotKey(cfg, db, keyId, env.now, env.year, env.firstDraw).1.Some?
    requires ResolvedName(cfg, db, keyId).Some? ==>
               !OverdueLegacyHmac(AsKey(Lookup(db.records, ResolvedName(cfg, db, keyId).value)), env.now)
    ensures var got := GotKey(cfg, db, keyId, env.now, env.year, env.firstDraw);
            GotKey(cfg, got.0, keyId, env.now, env.year, env.firstDraw) == got
  {
    var arn := ResolvedName(cfg, db, keyId).value;
    var loaded := LoadedKey(db, arn, env.now, env.year, env.firstDraw);
    LoadStep(cfg, db, arn, Quiet(env), env.year, env.firstDraw);
    LoadedAgain(cfg, db, arn, env.now, env.year, env.firstDraw, env.year, env.firstDraw);
    NameStays(cfg, db, loaded.0, keyId);
  }

  //----------------------------------------------------------------------------------------
  // The handlers

  datatype ListRequest =
    | AliasesAsked(keyId: Option<Bytes>)
    | GrantsAsked(grantKey: Bytes, filter: GrantFilter)
    | RetirableAsked(retirable: GrantFilter)
    | TagsAsked(tagKeyId: Bytes)

  function MaxLimit(r: ListRequest): nat {
    if r.TagsAsked? then 1000 else 100
  }

  ghost function ListResult(cfg: Config, db: Db, r: ListRequest, limit: int, marker: Bytes, env: Env): (Db, Response) {
    match r
    case AliasesAsked(keyId) => ListAliasesResult(cfg, db, keyId, limit, marker, env)
    case GrantsAsked(keyId, f) => ListGrantsResult(cfg, db, keyId, f, limit, marker, env)
    case RetirableAsked(f) => ListRetirableGrantsResult(db, f, limit, marker)
    case TagsAsked(keyId) => ListResourceTagsResult(cfg, db, keyId, limit, marker, env)
  }

  /** The name of the key a request loads, if it loads one. */
  function KeyAsked(cfg: Config, db: Db, r: ListRequest): Option<Bytes> {
    match r
    case AliasesAsked(keyId) => if keyId.Some? then Some(EnsureArn(cfg, KEY, keyId.value)) else None
    case GrantsAsked(keyId, _) => ResolvedName(cfg, db, keyId)
    case RetirableAsked(_) => None
    case TagsAsked(keyId) => Some(EnsureArn(cfg, KEY, keyId))
  }

  /** The store that the page is read from, and the key that was loaded; ZERO_KEY if the request
      names none. */
  function Looked(cfg: Config, db: Db, r: ListRequest, env: Env): (Db, Option<KeyRecord>) {
    match r
    case AliasesAsked(None) => (db, Some(ZERO_KEY))
    case RetirableAsked(_) => (db, Some(ZERO_KEY))
    case GrantsAsked(keyId, _) => GotKey(cfg, db, keyId, env.now, env.year, env.firstDraw)
    case _ => LoadedKey(db, KeyAsked(cfg, db, r).value, env.now, env.year, env.firstDraw)
  }

  /** What is listed, once the key is loaded. */
  function QueryFor(r: ListRequest, k: KeyRecord, owner: Option<Bytes>): Query {
    match r
    case AliasesAsked(keyId) => AliasQuery(if keyId.Some? then k.meta.keyId else [])
    case GrantsAsked(_, f) => GrantQuery(f.(keyArn := k.meta.arn))
    case RetirableAsked(f) => GrantQuery(f)
    case TagsAsked(_) => TagQuery(owner)
  }

  lemma ResultIsAnswer(cfg: Config, db: Db, r: ListRequest, limit: int, marker: Bytes, env: Env, owner: Option<Bytes>)
    requires LimitValid(limit, MaxLimit(r)) && Looked(cfg, db, r, env).1.Some?
    requires r.TagsAsked? ==> Looked(cfg, db, r, env).1.value.meta.arn == OwnerArn(cfg, owner)
    ensures var looked := Looked(cfg, db, r, env);
            ListResult(cfg, db, r, limit, marker, env) ==
            (looked.0, AnswerTo(cfg, looked.0.records, QueryFor(r, looked.1.value, owner), limit, marker))
  {
  }

  /** A limit out of range is refused before any key is loaded; a key that cannot be loaded is not
      found. */
  lemma ListRefusals(cfg: Config, db: Db, r: ListRequest, limit: int, marker: Bytes, env: Env)
    ensures limit < 1 || limit > (if r.TagsAsked? then 1000 else 100) ==>
              ListResult(cfg, db, r, limit, marker, env) == (db, Failed(Validation))
    ensures 1 <= limit <= (if r.TagsAsked? then 1000 else 100) && Looked(cfg, db, r, env).1 == None ==>
              ListResult(cfg, db, r, limit, marker, env) == (Looked(cfg, db, r, env).0, Failed(NotFound))
  {
  }

  /** The key is not the exception of LoadKeyNormalises. */
  predicate Settles(cfg: Config, db: Db, r: ListRequest, now: Time) {
    var n := KeyAsked(cfg, db, r);
    n.Some? ==> !OverdueLegacyHmac(AsKey(Lookup(db.records, n.value)), now)
  }

  lemma LookedAgain(cfg: Config, db: Db, r: ListRequest, env: Env)
    requires ValidConfig(cfg) && AllNamed(cfg, db.records) && env.year >= MIN_YEAR
    requires Looked(cfg, db, r, env).1.Some? && Settles(cfg, db, r, env.now)
    ensures var looked := Looked(cfg, db, r, env);
            && Looked(cfg, looked.0, r, env) == looked
            && AllNamed(cfg, looked.0.records) && OthersSame(db.records, looked.0.records)
            && (KeyAsked(cfg, db, r).Some? ==> exists arn :: LoadedFrom(looked.0.records, arn, looked.1.value))
  {
    match r
    case AliasesAsked(None) =>
    case RetirableAsked(_) =>
    case GrantsAsked(keyId, _) =>
      GetKeyStep(cfg, db, keyId, Quiet(env), env.year, env.firstDraw);
      GotAgain(cfg, db, keyId, env);
    case _ =>
      var arn := KeyAsked(cfg, db, r).value;
      LoadStep(cfg, db, arn, Quiet(env), env.year, env.firstDraw);
      LoadedAgain(cfg, db, arn, env.now, env.year, env.firstDraw, env.year, env.firstDraw);
  }

  //----------------------------------------------------------------------------------------
  // Following the markers

  /** One call: the store it leaves, and its answer as a page of names. */
  ghost function ListCalled(cfg: Config, db: Db, r: ListRequest, q: Query, limit: int, marker: Bytes, env: Env)
    : (Db, Page)
  {
    var (db', answer) := ListResult(cfg, db, r, limit, marker, env);
    (db', if answer.Failed? then BadMarker else Page(Shown(cfg, q, answer), NextMarker(answer)))
  }

  ghost function ListCalls(cfg: Config, r: ListRequest, q: Query, limit: int, env: Env): Calls<Db> {
    imap s: (Db, Bytes) :: ListCalled(cfg, s.0, r, q, limit, s.1, env)
  }

  /** Loading a key changes no alias, tag or grant, hence none of the lists. */
  lemma PlainStays(cfg: Config, r: map<Bytes, Record>, r': map<Bytes, Record>, q: Query)
    requires OthersSame(r, r')
    ensures Plain(cfg, r', q) == Plain(cfg, r, q)
  {
    forall n ensures n in Plain(cfg, r', q) <==> n in Plain(cfg, r, q) {
    }
  }

  /** Calls in a store in which loading the key changes nothing any more, or in the first one. */
  lemma ListCallServes(cfg: Config, db: Db, r: ListRequest, owner: Option<Bytes>, limit: int, env: Env, s: Db,
                       m: Bytes, k: nat)
    requires ValidConfig(cfg) && AllNamed(cfg, db.records) && env.year >= MIN_YEAR
    requires Looked(cfg, db, r, env).1.Some? && Settles(cfg, db, r, env.now) && LimitValid(limit, MaxLimit(r))
    requires owner.Some? ==> NoSlash(owner.value)
    requires r.TagsAsked? ==> Looked(cfg, db, r, env).1.value.meta.arn == OwnerArn(cfg, owner)
    requires s == db || s == Looked(cfg, db, r, env).0
    requires var (db', key) := Looked(cfg, db, r, env);
             var q := QueryFor(r, key.value, owner);
             At(Ascending(Plain(cfg, db'.records, q)), MarkerNames(cfg, q), m, k)
    ensures var (db', key) := Looked(cfg, db, r, env);
            var q := QueryFor(r, key.value, owner);
            && ListCalled(cfg, s, r, q, limit, m, env).0 == db'
            && Serves(Ascending(Plain(cfg, db'.records, q)), MarkerNames(cfg, q), limit, k,
                      ListCalled(cfg, s, r, q, limit, m, env).1)
  {
    var (db', key) := Looked(cfg, db, r, env);
    LookedAgain(cfg, db, r, env);
    ResultIsAnswer(cfg, s, r, limit, m, env, owner);
    CalledAtPosition(cfg, db'.records, QueryFor(r, key.value, owner), limit, m, k);
  }

  /** Following the next markers of ListAliases, ListGrants, ListRetirableGrants or ListResourceTags
      at one instant, if the first call finds the key it asks for, yields the plain sorted list of
      the records in the store before the first call, each once, cut every `limit`: whatever loading
      the key does to it. */
  lemma FollowingListRequests(cfg: Config, db: Db, r: ListRequest, owner: Option<Bytes>, limit: int, env: Env, n: nat)
    requires ValidConfig(cfg) && AllNamed(cfg, db.records) && env.year >= MIN_YEAR
    requires Looked(cfg, db, r, env).1.Some? && Settles(cfg, db, r, env.now) && LimitValid(limit, MaxLimit(r))
    requires owner.Some? ==> NoSlash(owner.value)
    requires r.TagsAsked? ==> Looked(cfg, db, r, env).1.value.meta.arn == OwnerArn(cfg, owner)
    requires n > |Plain(cfg, db.records, QueryFor(r, Looked(cfg, db, r, env).1.value, owner))|
    ensures var q := QueryFor(r, Looked(cfg, db, r, env).1.value, owner);
            var pages := Follow(ListCalls(cfg, r, q, limit, env), db, [], n);
            && pages == Cut(Ascending(Plain(cfg, db.records, q)), 0, limit)
            && Concat(pages) == Ascending(Plain(cfg, db.records, q))
  {
    var (db', key) := Looked(cfg, db, r, env);
    var q := QueryFor(r, key.value, owner);
    LookedAgain(cfg, db, r, env);
    PlainStays(cfg, db.records, db'.records, q);
    var calls, nameOf := ListCalls(cfg, r, q, limit, env), MarkerNames(cfg, q);
    var list := Ascending(Plain(cfg, db.records, q));
    var stores := iset{db, db'};
    AscendingElements(Plain(cfg, db.records, q));
    forall s, m, k: nat | s in stores && At(list, nameOf, m, k)
      ensures ServesIn(calls, stores, list, nameOf, limit, s, m, k)
    {
      ListCallServes(cfg, db, r, owner, limit, env, s, m, k);
    }
    FollowingListsAll(calls, stores, list, nameOf, limit, db, n);
  }

  /** The owner of the tags that ListResourceTags lists always exists. */
  lemma OwnerOfTags(cfg: Config, db: Db, r: ListRequest, env: Env) returns (owner: Option<Bytes>)
    requires ValidConfig(cfg) && AllNamed(cfg, db.records) && env.year >= MIN_YEAR
    requires Looked(cfg, db, r, env).1.Some? && Settles(cfg, db, r, env.now) && r.TagsAsked?
    ensures owner.Some? ==> NoSlash(owner.value)
    ensures Looked(cfg, db, r, env).1.value.meta.arn == OwnerArn(cfg, owner)
  {
    var (db', key) := Looked(cfg, db, r, env);
    LookedAgain(cfg, db, r, env);
    var arn :| LoadedFrom(db'.records, arn, key.value);
    OwnerExists(cfg, db'.records, arn, key.value);
    owner :| key.value.meta.arn == OwnerArn(cfg, owner) && (owner.Some? ==> NoSlash(owner.value));
  }

  //----------------------------------------------------------------------------------------
  // From the empty store

  lemma SoundKeysSettle(cfg: Config, s: System, r: ListRequest, now: Time)
    requires AllConsistent(s) && AllSingle(s)
    ensures Settles(cfg, s.db, r, now)
  {
    var n := KeyAsked(cfg, s.db, r);
    if n.Some? && Holds(s, n.value) {
      NoOverdueLegacyKey(KeyIn(s, n.value), now);
    }
  }

  /** However many calls are made, from one per record and one more on, following the next markers
      yields exactly the plain list. */
  ghost predicate ListsAll(cfg: Config, db: Db, r: ListRequest, q: Query, limit: nat, env: Env)
    requires limit >= 1
  {
    forall n: nat {:trigger Follow(ListCalls(cfg, r, q, limit, env), db, [], n)} | n > |Plain(cfg, db.records, q)| ::
      && Follow(ListCalls(cfg, r, q, limit, env), db, [], n) == Cut(Ascending(Plain(cfg, db.records, q)), 0, limit)
      && Concat(Follow(ListCalls(cfg, r, q, limit, env), db, [], n)) == Ascending(Plain(cfg, db.records, q))
  }

  lemma SoundListRequests(cfg: Config, s: System, r: ListRequest, limit: int, env: Env) returns (owner: Option<Bytes>)
    requires Inv(cfg, s) && AllConsistent(s) && AllSingle(s) && env.year >= MIN_YEAR
    requires Looked(cfg, s.db, r, env).1.Some? && LimitValid(limit, MaxLimit(r))
    ensures var key := Looked(cfg, s.db, r, env).1.value;
            && (r.TagsAsked? ==> key.meta.arn == OwnerArn(cfg, owner))
            && ListsAll(cfg, s.db, r, QueryFor(r, key, owner), limit, env)
  {
    var db, key := s.db, Looked(cfg, s.db, r, env).1.value;
    SoundKeysSettle(cfg, s, r, env.now);
    owner := None;
    if r.TagsAsked? {
      owner := OwnerOfTags(cfg, db, r, env);
    }
    var q := QueryFor(r, key, owner);
    forall n: nat {:trigger Follow(ListCalls(cfg, r, q, limit, env), db, [], n)} | n > |Plain(cfg, db.records, q)|
      ensures Follow(ListCalls(cfg, r, q, limit, env), db, [], n) == Cut(Ascending(Plain(cfg, db.records, q)), 0, limit)
      ensures Concat(Follow(ListCalls(cfg, r, q, limit, env), db, [], n)) == Ascending(Plain(cfg, db.records, q))
    {
      FollowingListRequests(cfg, db, r, owner, limit, env, n);
    }
  }

  /** In every state reached from the empty store, with any pattern of failing writes: if the first
      call finds the key, following the next markers yields exactly the plain list. */
  lemma ReachableListRequests(c: Suite, cfg: Config, disk: seq<bool>, start: Time, es: seq<Event>, r: ListRequest,
                              limit: int, env: Env) returns (owner: Option<Bytes>)
    requires ValidConfig(cfg) && AdmissibleRun(c, cfg, Beginning(disk, start), es) && env.year >= MIN_YEAR
    requires Looked(cfg, Run(c, cfg, Beginning(disk, start), es).db, r, env).1.Some? && LimitValid(limit, MaxLimit(r))
    ensures var db := Run(c, cfg, Beginning(disk, start), es).db;
            var key := Looked(cfg, db, r, env).1.value;
            && (r.TagsAsked? ==> key.meta.arn == OwnerArn(cfg, owner))
            && ListsAll(cfg, db, r, QueryFor(r, key, owner), limit, env)
  {
    EveryReachableState(c, cfg, disk, start, es);
    owner := SoundListRequests(cfg, Run(c, cfg, Beginning(disk, start), es), r, limit, env);
  }
}
