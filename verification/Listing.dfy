/** The four listings, page by page: following their next markers from the start yields the plain
    sorted list of the records of that kind, cut into pages. */
module Listing {
  import opened Wrappers
  import opened ByteStrings
  import opened Names
  import opened Keys
  import opened Lifecycle
  import opened Pages
  import opened Store
  import opened Requests
  import opened StoreHistory
  import opened Loading

  //----------------------------------------------------------------------------------------
  // The plain lists

  ghost function KeysIn(records: map<Bytes, Record>): set<Bytes> {
    set n | n in records && records[n].KeyRec?
  }

  /** The keys that have not reached their deletion date. */
  ghost function LiveKeys(records: map<Bytes, Record>, now: Time): set<Bytes> {
    set n | n in records && records[n].KeyRec? && !PurgeDue(records[n].key, now)
  }

  /** The aliases of a key, or all of them if no key is given. */
  ghost function AliasesFor(records: map<Bytes, Record>, keyId: Bytes): set<Bytes> {
    set n | n in records && records[n].AliasRec? && (keyId == [] || records[n].alias.targetKeyId == keyId)
  }

  /** The grant has all the fields that the request asks for. */
  predicate GrantAsked(f: GrantFilter, g: Grant) {
    && (f.keyArn != [] ==> g.keyArn == f.keyArn)
    && (f.grantId != [] ==> g.grantId == f.grantId)
    && (f.granteePrincipal != [] ==> g.granteePrincipal == f.granteePrincipal)
    && (f.granteeServicePrincipal != [] ==> g.granteeServicePrincipal == f.granteeServicePrincipal)
    && (f.retiringPrincipal != [] ==> g.retiringPrincipal == f.retiringPrincipal)
    && (f.retiringServicePrincipal != [] ==> g.retiringServicePrincipal == f.retiringServicePrincipal)
  }

  ghost function GrantsFor(records: map<Bytes, Record>, f: GrantFilter): set<Bytes> {
    set n | n in records && records[n].GrantRec? && GrantAsked(f, records[n].grant)
  }

  ghost function TagsOn(records: map<Bytes, Record>, keyArn: Bytes): set<Bytes> {
    set n | n in records && records[n].TagRec? && n == TagName(keyArn, records[n].tag.tagKey)
  }

  //----------------------------------------------------------------------------------------
  // What the prefix ranges hold

  lemma PrefixSplits(n: Bytes, head: Bytes)
    requires HasPrefix(n, head + [SLASH])
    ensures n == head + [SLASH] + n[|head| + 1..]
  {
    assert n == n[..|head| + 1] + n[|head| + 1..];
  }

  lemma SplitsHavePrefix(head: Bytes, rest: Bytes)
    ensures HasPrefix(head + [SLASH] + rest, head + [SLASH])
  {
    assert (head + [SLASH] + rest)[..|head + [SLASH]|] == head + [SLASH];
  }

  lemma HeadOfPrefix(cfg: Config, s: Subject, head: Bytes)
    requires ValidConfig(cfg) && ValidSubject(s) && NoSlash(head)
    ensures HasPrefix(StorageName(cfg, s), head + [SLASH]) <==> Head(cfg, s) == head
  {
    var n := StorageName(cfg, s);
    NameSplits(cfg, s);
    if HasPrefix(n, head + [SLASH]) {
      PrefixSplits(n, head);
      SplitAtSlash(Head(cfg, s), Rest(s), head, n[|head| + 1..]);
    } else {
      SplitsHavePrefix(Head(cfg, s), Rest(s));
    }
  }

  /** The kind of a subject, by the prefix of its storage name. */
  lemma GrantPrefix(cfg: Config, s: Subject)
    requires ValidConfig(cfg) && ValidSubject(s)
    ensures HasPrefix(StorageName(cfg, s), GRANT) <==> s.GrantSubject?
  {
    assert GRANT == "grant" + [SLASH];
    HeadOfPrefix(cfg, s, "grant");
    if Head(cfg, s) == "grant" {
      HeadDeterminesKind(cfg, s, GrantSubject([]));
    }
  }

  lemma AliasPrefix(cfg: Config, s: Subject)
    requires ValidConfig(cfg) && ValidSubject(s)
    ensures HasPrefix(StorageName(cfg, s), ArnPrefix(cfg) + ALIAS) <==> s.AliasSubject?
  {
    var head := ArnPrefix(cfg) + "alias";
    assert ArnPrefix(cfg) + ALIAS == head + [SLASH];
    HeadOfPrefix(cfg, s, head);
    if Head(cfg, s) == head {
      HeadDeterminesKind(cfg, s, AliasSubject(ALIAS));
    }
  }

  lemma KeyPrefix(cfg: Config, s: Subject)
    requires ValidConfig(cfg) && ValidSubject(s)
    ensures HasPrefix(StorageName(cfg, s), ArnPrefix(cfg) + KEY) <==> s.KeySubject? || (s.TagSubject? && s.owner.Some?)
  {
    var head := ArnPrefix(cfg) + "key";
    assert ArnPrefix(cfg) + KEY == head + [SLASH];
    HeadOfPrefix(cfg, s, head);
    if Head(cfg, s) == head {
      HeadDeterminesKind(cfg, s, KeySubject([]));
      HeadDeterminesKind(cfg, KeySubject([]), s);
    }
  }

  lemma TagPrefix(cfg: Config, s: Subject, id: Bytes)
    requires ValidConfig(cfg) && ValidSubject(s) && NoSlash(id)
    ensures HasPrefix(StorageName(cfg, s), KeyArn(cfg, id) + TAG) <==> s.TagSubject? && s.owner == Some(id)
  {
    var n, p := StorageName(cfg, s), ArnPrefix(cfg) + KEY;
    assert KeyArn(cfg, id) + TAG == p + (id + TAG);
    if s.TagSubject? && s.owner == Some(id) {
      assert n[..|KeyArn(cfg, id) + TAG|] == KeyArn(cfg, id) + TAG;
    } else if HasPrefix(n, KeyArn(cfg, id) + TAG) {
      assert n[..|p|] == (KeyArn(cfg, id) + TAG)[..|p|];
      KeyPrefix(cfg, s);
      KeyThenTag(n[|p|..], id);
      if !s.KeySubject? {
        TagRest(cfg, s);
        SplitAtSlash(s.owner.value, "tag/" + s.tagKey, id, n[|p|..][|id| + 1..]);
      }
    }
  }

  /** The same for tags saved against the empty ARN. */
  lemma OrphanPrefix(cfg: Config, s: Subject)
    requires ValidConfig(cfg) && ValidSubject(s)
    ensures HasPrefix(StorageName(cfg, s), TAG) <==> s.TagSubject? && s.owner.None?
  {
    var n := StorageName(cfg, s);
    HeadOfPrefix(cfg, s, []);
    assert [] + [SLASH] == TAG[..1];
    if s.TagSubject? && s.owner.None? {
      assert n[..4] == TAG;
    }
    if HasPrefix(n, TAG) {
      assert n[..1] == n[..4][..1];
    }
  }

  lemma OwnerPrefix(cfg: Config, s: Subject, owner: Option<Bytes>)
    requires ValidConfig(cfg) && ValidSubject(s) && (owner.Some? ==> NoSlash(owner.value))
    ensures HasPrefix(StorageName(cfg, s), OwnerArn(cfg, owner) + TAG) <==> s.TagSubject? && s.owner == owner
  {
    if owner.Some? {
      TagPrefix(cfg, s, owner.value);
    } else {
      OrphanPrefix(cfg, s);
      assert [] + TAG == TAG;
    }
  }

  lemma KeyThenTag(rest: Bytes, id: Bytes)
    requires HasPrefix(rest, id + TAG)
    ensures rest == id + [SLASH] + rest[|id| + 1..] && rest[|id|] == SLASH
  {
    assert rest[..|id + TAG|][|id|] == SLASH;
    assert rest[..|id|] == (id + TAG)[..|id|];
  }

  lemma TagRest(cfg: Config, s: Subject)
    requires s.TagSubject? && s.owner.Some?
    ensures StorageName(cfg, s)[|ArnPrefix(cfg) + KEY|..] == s.owner.value + [SLASH] + ("tag/" + s.tagKey)
  {
    assert "/tag/" == [SLASH] + "tag/";
  }

  lemma GrantRange(cfg: Config, records: map<Bytes, Record>, n: Bytes)
    requires ValidConfig(cfg) && AllNamed(cfg, records) && n in records
    ensures HasPrefix(n, GRANT) <==> records[n].GrantRec?
    ensures records[n].GrantRec? ==> n == GrantName(records[n].grant.grantId) && records[n].grant.grantId != []
  {
    var s := SubjectOf(cfg, records, n);
    GrantPrefix(cfg, s);
  }

  lemma AliasRange(cfg: Config, records: map<Bytes, Record>, n: Bytes)
    requires ValidConfig(cfg) && AllNamed(cfg, records) && n in records
    ensures HasPrefix(n, ArnPrefix(cfg) + ALIAS) <==> records[n].AliasRec?
    ensures records[n].AliasRec? ==> n == records[n].alias.aliasArn && n != []
  {
    var s := SubjectOf(cfg, records, n);
    AliasPrefix(cfg, s);
  }

  lemma TagRange(cfg: Config, records: map<Bytes, Record>, owner: Option<Bytes>, n: Bytes)
    requires ValidConfig(cfg) && AllNamed(cfg, records) && n in records && (owner.Some? ==> NoSlash(owner.value))
    ensures HasPrefix(n, OwnerArn(cfg, owner) + TAG) <==>
            records[n].TagRec? && n == TagName(OwnerArn(cfg, owner), records[n].tag.tagKey)
    ensures HasPrefix(n, OwnerArn(cfg, owner) + TAG) ==> records[n].tag.tagKey != []
  {
    var s := SubjectOf(cfg, records, n);
    OwnerPrefix(cfg, s, owner);
    if records[n].TagRec? && n == TagName(OwnerArn(cfg, owner), records[n].tag.tagKey) {
      StorageNameInjective(cfg, s, TagSubject(owner, records[n].tag.tagKey));
    }
  }

  /** In the range of the keys, the names that contain "/tag/" are those of tags. */
  lemma KeyRange(cfg: Config, records: map<Bytes, Record>, n: Bytes)
    requires ValidConfig(cfg) && AllNamed(cfg, records) && n in records
    ensures records[n].KeyRec? <==> HasPrefix(n, ArnPrefix(cfg) + KEY) && !IsTagName(n)
    ensures records[n].KeyRec? ==> n == records[n].key.meta.arn && n != []
  {
    var s := SubjectOf(cfg, records, n);
    KeyPrefix(cfg, s);
    if s.KeySubject? {
      KeyNameHasOneSlash(cfg, s.id);
    } else if s.TagSubject? {
      assert OccursAt(n, "/tag/", |OwnerArn(cfg, s.owner)|);
    }
  }

  lemma KeyNameHasOneSlash(cfg: Config, id: Bytes)
    requires ValidConfig(cfg) && NoSlash(id)
    ensures !IsTagName(KeyArn(cfg, id))
  {
    var arn, p := KeyArn(cfg, id), ArnPrefix(cfg);
    assert forall j | 0 <= j < |arn| && arn[j] == SLASH :: j == |p| + 3;
    forall i: nat | i <= |arn| ensures !OccursAt(arn, "/tag/", i) {
      if i + 5 <= |arn| {
        var part, tag := arn[i..i + 5], "/tag/";
        assert part[0] == arn[i] && part[4] == arn[i + 4];
        assert tag[0] == SLASH && tag[4] == SLASH;
      }
    }
  }

  //----------------------------------------------------------------------------------------
  // Filtering a range gives the plain list

  lemma {:induction false} FilterSorted(names: seq<Bytes>, kept: set<Bytes>)
    requires Sorted(names) && Distinct(names)
    ensures Sorted(Filter(names, kept))
    decreases |names|
  {
    if names != [] {
      var tail := Filter(names[1..], kept);
      FilterSorted(names[1..], kept);
      forall j | 0 <= j < |tail| ensures Leq(names[0], tail[j]) {
        assert tail[j] in tail;
        FilterMember(names[1..], kept, tail[j]);
      }
    }
  }

  /** A filtered range is the sorted list of the set, if it keeps just the set's elements. */
  lemma RangeIsPlainList(range: set<Bytes>, kept: set<Bytes>, plain: set<Bytes>)
    requires forall n :: n in plain <==> n in range && n in kept
    ensures Distinct(Ascending(range)) && Filter(Ascending(range), kept) == Ascending(plain)
  {
    var names := Ascending(range);
    AscendingSorted(range);
    AscendingElements(range);
    FilterSorted(names, kept);
    FilterDistinct(names, kept);
    forall n ensures n in Filter(names, kept) <==> n in plain {
      FilterMember(names, kept, n);
    }
    DistinctMultiset(Filter(names, kept), plain);
    SortedDistinctIsAscending(Filter(names, kept), plain);
  }

  //----------------------------------------------------------------------------------------
  // Aliases, grants and tags

  /** What is listed: the aliases of a key or all of them, the grants a filter lets through, the
      tags of an owner. */
  datatype Query = AliasQuery(keyId: Bytes) | GrantQuery(filter: GrantFilter) | TagQuery(owner: Option<Bytes>)

  predicate ValidQuery(q: Query) {
    q.TagQuery? && q.owner.Some? ==> NoSlash(q.owner.value)
  }

  /** The handler's answer on a store. */
  ghost function AnswerTo(cfg: Config, records: map<Bytes, Record>, q: Query, limit: nat, marker: Bytes): Response {
    match q
    case AliasQuery(keyId) => AliasesAnswer(records, AliasPage(cfg, records, limit, marker, keyId))
    case GrantQuery(f) => GrantsAnswer(records, GrantPage(records, f, limit, marker))
    case TagQuery(owner) => TagsAnswer(records, TagPage(records, OwnerArn(cfg, owner), limit, marker))
  }

  /** The storage names of the listed records, computed from their own fields. */
  function Shown(cfg: Config, q: Query, r: Response): seq<Bytes> {
    match r
    case AliasesListed(aliases, _) => seq(|aliases|, i requires 0 <= i < |aliases| => aliases[i].aliasArn)
    case GrantsListed(grants, _) => seq(|grants|, i requires 0 <= i < |grants| => GrantName(grants[i].grantId))
    case TagsListed(tags, _) =>
      if !q.TagQuery? then []
      else seq(|tags|, i requires 0 <= i < |tags| => TagName(OwnerArn(cfg, q.owner), tags[i].tagKey))
    case _ => []
  }

  function NextMarker(r: Response): Option<Bytes> {
    match r
    case AliasesListed(_, next) => next
    case GrantsListed(_, next) => next
    case TagsListed(_, next) => next
    case _ => None
  }

  /** The name a marker stands for. */
  function NameOf(cfg: Config, q: Query, marker: Bytes): Bytes {
    if marker == [] then []
    else
      match q
      case AliasQuery(_) => marker
      case GrantQuery(_) => GrantName(marker)
      case TagQuery(owner) => TagName(OwnerArn(cfg, owner), marker)
  }

  ghost function Range(cfg: Config, records: map<Bytes, Record>, q: Query): set<Bytes> {
    match q
    case AliasQuery(_) => set n | n in records && HasPrefix(n, ArnPrefix(cfg) + ALIAS)
    case GrantQuery(_) => set n | n in records && HasPrefix(n, GRANT)
    case TagQuery(owner) => set n | n in records && HasPrefix(n, OwnerArn(cfg, owner) + TAG)
  }

  function Kept(records: map<Bytes, Record>, q: Query): set<Bytes> {
    match q
    case AliasQuery(keyId) => AliasesOf(records, keyId)
    case GrantQuery(f) => MatchingGrants(records, f)
    case TagQuery(_) => records.Keys
  }

  /** The records that the query is about, filtered or not. */
  ghost function Unfiltered(cfg: Config, records: map<Bytes, Record>, q: Query): set<Bytes> {
    match q
    case AliasQuery(_) => set n | n in records && records[n].AliasRec?
    case GrantQuery(_) => set n | n in records && records[n].GrantRec?
    case TagQuery(owner) => TagsOn(records, OwnerArn(cfg, owner))
  }

  ghost function Plain(cfg: Config, records: map<Bytes, Record>, q: Query): set<Bytes> {
    match q
    case AliasQuery(keyId) => AliasesFor(records, keyId)
    case GrantQuery(f) => GrantsFor(records, f)
    case TagQuery(owner) => TagsOn(records, OwnerArn(cfg, owner))
  }

  /** The marker that stands for a record. */
  function MarkerOf(records: map<Bytes, Record>, q: Query, n: Bytes): Bytes {
    match q
    case AliasQuery(_) => AsAlias(Lookup(records, n)).aliasArn
    case GrantQuery(_) => AsGrant(Lookup(records, n)).grantId
    case TagQuery(_) => AsTag(Lookup(records, n)).tagKey
  }

  /** A record in the range is one the query is about, and its marker stands for its name. */
  lemma RangeMembers(cfg: Config, records: map<Bytes, Record>, q: Query, n: Bytes)
    requires ValidConfig(cfg) && AllNamed(cfg, records) && ValidQuery(q)
    ensures n in Range(cfg, records, q) <==> n in Unfiltered(cfg, records, q)
    ensures n in Plain(cfg, records, q) <==> n in Range(cfg, records, q) && n in Kept(records, q)
    ensures n in Range(cfg, records, q) ==>
              MarkerOf(records, q, n) != [] && NameOf(cfg, q, MarkerOf(records, q, n)) == n
  {
    if n in records {
      match q
      case AliasQuery(_) => AliasRange(cfg, records, n);
      case GrantQuery(_) => GrantRange(cfg, records, n);
      case TagQuery(owner) => TagRange(cfg, records, owner, n);
    }
  }

  function AnswerOf(records: map<Bytes, Record>, q: Query, p: Page): Response {
    match q
    case AliasQuery(_) => AliasesAnswer(records, p)
    case GrantQuery(_) => GrantsAnswer(records, p)
    case TagQuery(_) => TagsAnswer(records, p)
  }

  /** The handler's page in terms of names. */
  ghost function NamePage(cfg: Config, records: map<Bytes, Record>, q: Query, limit: nat, marker: Bytes): Page {
    PageOf(Scan(Ascending(Range(cfg, records, q)), limit + 1, NameOf(cfg, q, marker), Kept(records, q)), limit)
  }

  lemma AnswerIsPage(cfg: Config, records: map<Bytes, Record>, q: Query, limit: nat, marker: Bytes)
    ensures AnswerTo(cfg, records, q, limit, marker) == AnswerOf(records, q, NamePage(cfg, records, q, limit, marker))
  {
  }

  lemma NextMarkerOf(records: map<Bytes, Record>, q: Query, p: Page)
    requires p.Page?
    ensures NextMarker(AnswerOf(records, q, p)) == if p.next.Some? then Some(MarkerOf(records, q, p.next.value))
            else None
  {
  }

  lemma ShownNames(cfg: Config, records: map<Bytes, Record>, q: Query, p: Page)
    requires p.Page?
    requires forall n | n in p.items :: NameOf(cfg, q, MarkerOf(records, q, n)) == n && MarkerOf(records, q, n) != []
    ensures Shown(cfg, q, AnswerOf(records, q, p)) == p.items && !AnswerOf(records, q, p).Failed?
  {
    var shown := Shown(cfg, q, AnswerOf(records, q, p));
    assert |shown| == |p.items|;
    forall i | 0 <= i < |shown| ensures shown[i] == p.items[i] {
      assert p.items[i] in p.items;
    }
  }

  /** The answer as a page of names, with the marker it hands out. */
  ghost function Called(cfg: Config, records: map<Bytes, Record>, q: Query, limit: nat, marker: Bytes): Page {
    var r := AnswerTo(cfg, records, q, limit, marker);
    if r.Failed? then BadMarker else Page(Shown(cfg, q, r), NextMarker(r))
  }

  /** All calls there are: they leave the store as it is. */
  ghost function QueryCalls(cfg: Config, q: Query, limit: nat): Calls<map<Bytes, Record>> {
    imap s: (map<Bytes, Record>, Bytes) :: (s.0, Called(cfg, s.0, q, limit, s.1))
  }

  ghost function MarkerNames(cfg: Config, q: Query): imap<Bytes, Bytes> {
    imap m: Bytes :: NameOf(cfg, q, m)
  }

  /** One call, with a marker that stands for position k of the plain list. */
  lemma CalledAtPosition(cfg: Config, records: map<Bytes, Record>, q: Query, limit: nat, marker: Bytes, k: nat)
    requires ValidConfig(cfg) && AllNamed(cfg, records) && ValidQuery(q)
    requires At(Ascending(Plain(cfg, records, q)), MarkerNames(cfg, q), marker, k)
    ensures Serves(Ascending(Plain(cfg, records, q)), MarkerNames(cfg, q), limit, k,
                   Called(cfg, records, q, limit, marker))
  {
    var list := Ascending(Plain(cfg, records, q));
    var range, kept := Range(cfg, records, q), Kept(records, q);
    forall n ensures n in Plain(cfg, records, q) <==> n in range && n in kept {
      RangeMembers(cfg, records, q, n);
    }
    RangeIsPlainList(range, kept, Plain(cfg, records, q));
    PageAtPosition(Ascending(range), kept, limit, NameOf(cfg, q, marker), k);
    AnswerIsPage(cfg, records, q, limit, marker);
    PageNames(cfg, records, q, PageAt(list, k, limit), list);
  }

  lemma PageNames(cfg: Config, records: map<Bytes, Record>, q: Query, p: Page, list: seq<Bytes>)
    requires ValidConfig(cfg) && AllNamed(cfg, records) && ValidQuery(q) && list == Ascending(Plain(cfg, records, q))
    requires p.Page? && (forall n | n in p.items :: n in list) && (p.next.Some? ==> p.next.value in list)
    ensures Shown(cfg, q, AnswerOf(records, q, p)) == p.items && !AnswerOf(records, q, p).Failed?
    ensures NextMarker(AnswerOf(records, q, p)).Some? <==> p.next.Some?
    ensures p.next.Some? ==> var m := NextMarker(AnswerOf(records, q, p)).value;
                             m != [] && NameOf(cfg, q, m) == p.next.value
  {
    AscendingElements(Plain(cfg, records, q));
    forall n | n in list ensures NameOf(cfg, q, MarkerOf(records, q, n)) == n && MarkerOf(records, q, n) != [] {
      RangeMembers(cfg, records, q, n);
    }
    ShownNames(cfg, records, q, p);
    NextMarkerOf(records, q, p);
  }

  /** Following the next markers from the start ends within one call per record and one more,
      and the pages are the plain sorted list of the records, each once, cut every `limit`. */
  lemma FollowingMarkersListsAll(cfg: Config, records: map<Bytes, Record>, q: Query, limit: nat, n: nat)
    requires ValidConfig(cfg) && AllNamed(cfg, records) && ValidQuery(q) && limit >= 1
    requires n > |Plain(cfg, records, q)|
    ensures var pages := Follow(QueryCalls(cfg, q, limit), records, [], n);
            && pages == Cut(Ascending(Plain(cfg, records, q)), 0, limit)
            && Concat(pages) == Ascending(Plain(cfg, records, q))
  {
    var calls, list, nameOf := QueryCalls(cfg, q, limit), Ascending(Plain(cfg, records, q)), MarkerNames(cfg, q);
    var stores := iset{records};
    AscendingElements(Plain(cfg, records, q));
    forall s, m, k: nat | s in stores && At(list, nameOf, m, k)
      ensures ServesIn(calls, stores, list, nameOf, limit, s, m, k)
    {
      CalledAtPosition(cfg, records, q, limit, m, k);
    }
    FollowingListsAll(calls, stores, list, nameOf, limit, records, n);
  }

  /** A marker is rejected exactly when it is not empty and names no record of that kind; for tags
      that is an internal failure. */
  lemma MarkerRejectedExactly(cfg: Config, records: map<Bytes, Record>, q: Query, limit: nat, marker: Bytes)
    requires ValidConfig(cfg) && AllNamed(cfg, records) && ValidQuery(q)
    ensures var answer := AnswerTo(cfg, records, q, limit, marker);
            && (answer.Failed? <==> marker != [] && NameOf(cfg, q, marker) !in Unfiltered(cfg, records, q))
            && (answer.Failed? ==> answer.error == if q.TagQuery? then InternalFailure else InvalidMarker)
  {
    var name, range := NameOf(cfg, q, marker), Range(cfg, records, q);
    AnswerIsPage(cfg, records, q, limit, marker);
    MarkerRejected(Ascending(range), limit + 1, name, Kept(records, q));
    AscendingElements(range);
    RangeMembers(cfg, records, q, name);
  }

  predicate ListedAsStored(cfg: Config, records: map<Bytes, Record>, q: Query, limit: nat, r: Response) {
    match r
    case AliasesListed(aliases, _) =>
      |aliases| <= limit && forall i | 0 <= i < |aliases| :: AliasAsStored(records, q, aliases[i])
    case GrantsListed(grants, _) =>
      |grants| <= limit && forall i | 0 <= i < |grants| :: GrantAsStored(records, q, grants[i])
    case TagsListed(tags, _) =>
      |tags| <= limit && forall i | 0 <= i < |tags| :: TagAsStored(cfg, records, q, tags[i])
    case Failed(_) => true
    case _ => false
  }

  predicate AliasAsStored(records: map<Bytes, Record>, q: Query, a: Alias) {
    && a.aliasArn in records && records[a.aliasArn] == AliasRec(a)
    && q.AliasQuery? && (q.keyId == [] || a.targetKeyId == q.keyId)
  }

  predicate GrantAsStored(records: map<Bytes, Record>, q: Query, g: Grant) {
    && GrantName(g.grantId) in records && records[GrantName(g.grantId)] == GrantRec(g)
    && q.GrantQuery? && GrantAsked(q.filter, g)
  }

  predicate TagAsStored(cfg: Config, records: map<Bytes, Record>, q: Query, t: Tag) {
    && q.TagQuery?
    && TagName(OwnerArn(cfg, q.owner), t.tagKey) in records
    && records[TagName(OwnerArn(cfg, q.owner), t.tagKey)] == TagRec(t)
  }

  /** Whatever the marker, a page holds at most `limit` records, and each is answered exactly as it
      is stored, and was asked for. */
  lemma AnswersAreStored(cfg: Config, records: map<Bytes, Record>, q: Query, limit: nat, marker: Bytes)
    requires ValidConfig(cfg) && AllNamed(cfg, records) && ValidQuery(q)
    ensures ListedAsStored(cfg, records, q, limit, AnswerTo(cfg, records, q, limit, marker))
  {
    var p, range := NamePage(cfg, records, q, limit, marker), Range(cfg, records, q);
    AnswerIsPage(cfg, records, q, limit, marker);
    PageMembers(Ascending(range), Kept(records, q), limit, NameOf(cfg, q, marker));
    AscendingElements(range);
    if p.Page? {
      forall i | 0 <= i < |p.items| ensures StoredForQuery(cfg, records, q, p.items[i]) {
        assert p.items[i] in p.items;
        NameIsStored(cfg, records, q, p.items[i]);
      }
    }
  }

  predicate StoredForQuery(cfg: Config, records: map<Bytes, Record>, q: Query, n: Bytes) {
    match q
    case AliasQuery(_) => AliasAsStored(records, q, AsAlias(Lookup(records, n)))
    case GrantQuery(_) => GrantAsStored(records, q, AsGrant(Lookup(records, n)))
    case TagQuery(_) => TagAsStored(cfg, records, q, AsTag(Lookup(records, n)))
  }

  lemma NameIsStored(cfg: Config, records: map<Bytes, Record>, q: Query, n: Bytes)
    requires ValidConfig(cfg) && AllNamed(cfg, records) && ValidQuery(q)
    requires n in Range(cfg, records, q) && n in Kept(records, q)
    ensures StoredForQuery(cfg, records, q, n)
  {
    match q
    case AliasQuery(_) => AliasRange(cfg, records, n);
    case GrantQuery(_) => GrantRange(cfg, records, n);
    case TagQuery(owner) => TagRange(cfg, records, owner, n);
  }

  //----------------------------------------------------------------------------------------
  // Grants by token

  lemma {:induction false} TokenFindsFirst(names: seq<Bytes>, i: nat, records: map<Bytes, Record>, token: Bytes)
    requires i <= |names|
    ensures var found := GrantByToken(names, i, records, token);
            if found.Some? then exists j :: i <= j < |names| && found.value == AsGrant(Lookup(records, names[j])) &&
                                            found.value.grantToken == token
            else forall j | i <= j < |names| :: AsGrant(Lookup(records, names[j])).grantToken != token
    decreases |names| - i
  {
    if i < |names| && AsGrant(Lookup(records, names[i])).grantToken != token {
      TokenFindsFirst(names, i + 1, records, token);
    }
  }

  lemma GrantNames(cfg: Config, records: map<Bytes, Record>)
    requires ValidConfig(cfg) && AllNamed(cfg, records)
    ensures forall n | n in NamesWithPrefix(records, GRANT) ::
              n in records && records[n].GrantRec? && n == GrantName(records[n].grant.grantId)
    ensures forall n | n in records && records[n].GrantRec? :: n in NamesWithPrefix(records, GRANT)
  {
    AscendingElements(set n | n in records && HasPrefix(n, GRANT));
    forall n | n in records
      ensures HasPrefix(n, GRANT) <==> records[n].GrantRec?
      ensures records[n].GrantRec? ==> n == GrantName(records[n].grant.grantId)
    {
      GrantRange(cfg, records, n);
    }
  }

  /** Searching by token finds a stored grant that carries it, and fails only if there is none. */
  lemma TokenFindsGrant(cfg: Config, records: map<Bytes, Record>, token: Bytes)
    requires ValidConfig(cfg) && AllNamed(cfg, records)
    ensures var found := GrantByToken(NamesWithPrefix(records, GRANT), 0, records, token);
            if found.Some? then
              var n := GrantName(found.value.grantId);
              n in records && records[n] == GrantRec(found.value) && found.value.grantToken == token
            else forall n | n in records && records[n].GrantRec? :: records[n].grant.grantToken != token
  {
    var names := NamesWithPrefix(records, GRANT);
    GrantNames(cfg, records);
    TokenFindsFirst(names, 0, records, token);
    var found := GrantByToken(names, 0, records, token);
    if found.Some? {
      var j :| 0 <= j < |names| && found.value == AsGrant(Lookup(records, names[j])) && found.value.grantToken == token;
      assert names[j] in names;
    } else {
      forall n | n in records && records[n].GrantRec? ensures records[n].grant.grantToken != token {
        assert n in names;
        var j :| 0 <= j < |names| && names[j] == n;
        assert AsGrant(Lookup(records, names[j])).grantToken != token;
      }
    }
  }
}
