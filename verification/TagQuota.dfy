/** The tags of a key after TagResource: how many there are, and what they hold. */
module TagQuota {
  import opened Wrappers
  import opened ByteStrings
  import opened Names
  import opened Keys
  import opened Lifecycle
  import opened Store
  import opened Requests
  import opened StoreHistory
  import opened Runs
  import opened Listing

  ghost function TagRangeOf(records: map<Bytes, Record>, arn: Bytes): set<Bytes> {
    set n | n in records && HasPrefix(n, arn + TAG)
  }

  lemma CountIsRange(records: map<Bytes, Record>, arn: Bytes)
    ensures |TagNames(records, arn)| == |TagRangeOf(records, arn)|
    ensures forall n :: n in TagNames(records, arn) <==> n in TagRangeOf(records, arn)
  {
    AscendingElements(TagRangeOf(records, arn));
  }

  function RequestKeys(tags: seq<TagInput>): set<Bytes>
    requires AllAcceptable(tags)
  {
    set t | t in tags && t.tagKey.Some? :: t.tagKey.value
  }

  /** The storage names of the tags from i on. */
  function NamesFrom(arn: Bytes, tags: seq<TagInput>, i: nat): set<Bytes>
    requires i <= |tags| && AllAcceptable(tags)
    decreases |tags| - i
  {
    if i == |tags| then {} else {TagName(arn, tags[i].tagKey.value)} + NamesFrom(arn, tags, i + 1)
  }

  lemma {:induction false} NamesFromKeys(arn: Bytes, tags: seq<TagInput>, i: nat, n: Bytes)
    requires i <= |tags| && AllAcceptable(tags)
    ensures n in NamesFrom(arn, tags, i) <==> exists j :: i <= j < |tags| && n == TagName(arn, tags[j].tagKey.value)
    decreases |tags| - i
  {
    if i < |tags| {
      NamesFromKeys(arn, tags, i + 1, n);
    }
  }

  lemma TagNameInRange(arn: Bytes, tagKey: Bytes)
    ensures HasPrefix(TagName(arn, tagKey), arn + TAG)
  {
    assert TagName(arn, tagKey)[..|arn + TAG|] == arn + TAG;
  }

  //----------------------------------------------------------------------------------------
  // What saveTags does to the range

  /** Whichever writes fail, saving only adds names of the request; all of them if it succeeds. */
  lemma {:induction false} SavedRange(db: Db, arn: Bytes, tags: seq<TagInput>, i: nat)
    requires i <= |tags| && AllAcceptable(tags)
    ensures var (db', ok) := SavedTags(db, arn, tags, i);
            && TagRangeOf(db.records, arn) <= TagRangeOf(db'.records, arn)
            && TagRangeOf(db'.records, arn) <= TagRangeOf(db.records, arn) + NamesFrom(arn, tags, i)
            && (ok ==> NamesFrom(arn, tags, i) <= TagRangeOf(db'.records, arn))
    decreases |tags| - i
  {
    if i < |tags| {
      TagNameInRange(arn, tags[i].tagKey.value);
      SavedRange(Written(db, TagName(arn, tags[i].tagKey.value), TagRec(TagOf(tags[i]))).0, arn, tags, i + 1);
    }
  }

  /** Records under other names stay as they were. */
  lemma {:induction false} SavedOthers(db: Db, arn: Bytes, tags: seq<TagInput>, i: nat, n: Bytes)
    requires i <= |tags| && AllAcceptable(tags) && n !in NamesFrom(arn, tags, i)
    ensures var r := SavedTags(db, arn, tags, i).0.records;
            (n in r <==> n in db.records) && (n in r ==> r[n] == db.records[n])
    decreases |tags| - i
  {
    if i < |tags| {
      SavedOthers(Written(db, TagName(arn, tags[i].tagKey.value), TagRec(TagOf(tags[i]))).0, arn, tags, i + 1, n);
    }
  }

  /** On success every tag of the request is stored with the last value given for its key. */
  lemma {:induction false} LastValueIsStored(db: Db, arn: Bytes, tags: seq<TagInput>, i: nat, j: nat)
    requires i <= j < |tags| && AllAcceptable(tags) && SavedTags(db, arn, tags, i).1
    requires forall l | j < l < |tags| :: tags[l].tagKey != tags[j].tagKey
    ensures var r, n := SavedTags(db, arn, tags, i).0.records, TagName(arn, tags[j].tagKey.value);
            n in r && r[n] == TagRec(TagOf(tags[j]))
    decreases |tags| - i
  {
    var n := TagName(arn, tags[i].tagKey.value);
    var w := Written(db, n, TagRec(TagOf(tags[i]))).0;
    if i < j {
      LastValueIsStored(w, arn, tags, i + 1, j);
    } else {
      if n in NamesFrom(arn, tags, i + 1) {
        NamesFromKeys(arn, tags, i + 1, n);
        var l :| i + 1 <= l < |tags| && n == TagName(arn, tags[l].tagKey.value);
        SameTagKey(arn, tags[l].tagKey.value, tags[i].tagKey.value);
      }
      SavedOthers(w, arn, tags, i + 1, n);
    }
  }

  lemma SameTagKey(arn: Bytes, a: Bytes, b: Bytes)
    requires TagName(arn, a) == TagName(arn, b)
    ensures a == b
  {
    assert a == TagName(arn, a)[|arn| + 5..] && b == TagName(arn, b)[|arn| + 5..];
  }

  //----------------------------------------------------------------------------------------
  // Counting

  /** The stored tag keys are exactly those whose names are taken. */
  lemma StoredKeyHasName(cfg: Config, records: map<Bytes, Record>, owner: Option<Bytes>, tagKey: Bytes)
    requires ValidConfig(cfg) && AllNamed(cfg, records) && (owner.Some? ==> NoSlash(owner.value))
    ensures var arn := OwnerArn(cfg, owner);
            tagKey in StoredTagKeys(records, arn) <==> TagName(arn, tagKey) in TagRangeOf(records, arn)
  {
    var arn, n := OwnerArn(cfg, owner), TagName(OwnerArn(cfg, owner), tagKey);
    CountIsRange(records, arn);
    if tagKey in StoredTagKeys(records, arn) {
      var m :| m in TagNames(records, arn) && AsTag(Lookup(records, m)).tagKey == tagKey;
      TagRange(cfg, records, owner, m);
    }
    if n in TagRangeOf(records, arn) {
      TagRange(cfg, records, owner, n);
      SameTagKey(arn, tagKey, records[n].tag.tagKey);
    }
  }

  /** `existing` holds exactly the tag keys whose names are in the range. */
  ghost predicate KeysOfRange(existing: set<Bytes>, range: set<Bytes>, arn: Bytes) {
    forall k :: k in existing <==> TagName(arn, k) in range
  }

  /** Each tag with a key that is not stored yet adds one name at most. */
  lemma {:induction false} CountIsBounded(existing: set<Bytes>, range: set<Bytes>, arn: Bytes, tags: seq<TagInput>,
                                          i: nat)
    requires KeysOfRange(existing, range, arn) && i <= |tags| && AllAcceptable(tags)
    ensures |range + NamesFrom(arn, tags, i)| <= |range| + NewTagCount(existing, tags, i)
    decreases |tags| - i
  {
    if i == |tags| {
      assert range + {} == range;
    } else {
      var n := TagName(arn, tags[i].tagKey.value);
      var more := range + NamesFrom(arn, tags, i + 1);
      CountIsBounded(existing, range, arn, tags, i + 1);
      assert range + NamesFrom(arn, tags, i) == more + {n};
      assert n in more ==> more + {n} == more;
    }
  }

  function NamesOf(arn: Bytes, tagKeys: set<Bytes>): set<Bytes> {
    set k | k in tagKeys :: TagName(arn, k)
  }

  lemma {:induction false} AsManyNames(arn: Bytes, tagKeys: set<Bytes>)
    ensures |NamesOf(arn, tagKeys)| == |tagKeys|
    decreases |tagKeys|
  {
    if tagKeys != {} {
      var k :| k in tagKeys;
      var rest := tagKeys - {k};
      AsManyNames(arn, rest);
      if TagName(arn, k) in NamesOf(arn, rest) {
        var j :| j in rest && TagName(arn, j) == TagName(arn, k);
        SameTagKey(arn, j, k);
      }
      assert NamesOf(arn, tagKeys) == NamesOf(arn, rest) + {TagName(arn, k)};
    }
  }

  lemma RequestNames(arn: Bytes, tags: seq<TagInput>)
    requires AllAcceptable(tags)
    ensures NamesFrom(arn, tags, 0) == NamesOf(arn, RequestKeys(tags))
  {
    forall n ensures n in NamesFrom(arn, tags, 0) <==> n in NamesOf(arn, RequestKeys(tags)) {
      NamesFromKeys(arn, tags, 0, n);
      if n in NamesOf(arn, RequestKeys(tags)) {
        var k :| k in RequestKeys(tags) && n == TagName(arn, k);
        var t :| t in tags && t.tagKey == Some(k);
        var j :| 0 <= j < |tags| && tags[j] == t;
      }
    }
  }

  /** A request adds one name for each distinct key that is not stored yet. */
  lemma CountIsExact(existing: set<Bytes>, range: set<Bytes>, arn: Bytes, tags: seq<TagInput>)
    requires KeysOfRange(existing, range, arn) && AllAcceptable(tags)
    ensures |range + NamesFrom(arn, tags, 0)| == |range| + |RequestKeys(tags) - existing|
  {
    var added := RequestKeys(tags) - existing;
    RequestNames(arn, tags);
    AsManyNames(arn, added);
    NewNames(existing, range, arn, RequestKeys(tags));
    assert range + NamesFrom(arn, tags, 0) == range + NamesOf(arn, added);
  }

  lemma NewNames(existing: set<Bytes>, range: set<Bytes>, arn: Bytes, wanted: set<Bytes>)
    requires KeysOfRange(existing, range, arn)
    ensures NamesOf(arn, wanted) - range == NamesOf(arn, wanted - existing)
  {
  }

  //----------------------------------------------------------------------------------------
  // TagResource

  /** Loading a key leaves all tags alone. */
  lemma LoadKeepsTags(cfg: Config, r: map<Bytes, Record>, r': map<Bytes, Record>, owner: Option<Bytes>)
    requires ValidConfig(cfg) && AllNamed(cfg, r) && AllNamed(cfg, r') && (owner.Some? ==> NoSlash(owner.value))
    requires OthersSame(r, r')
    ensures TagRangeOf(r', OwnerArn(cfg, owner)) == TagRangeOf(r, OwnerArn(cfg, owner))
    ensures StoredTagKeys(r', OwnerArn(cfg, owner)) == StoredTagKeys(r, OwnerArn(cfg, owner))
  {
    var arn := OwnerArn(cfg, owner);
    CountIsRange(r, arn);
    CountIsRange(r', arn);
    forall n ensures n in TagRangeOf(r', arn) <==> n in TagRangeOf(r, arn) {
      if n in r && HasPrefix(n, arn + TAG) {
        TagRange(cfg, r, owner, n);
      }
      if n in r' && HasPrefix(n, arn + TAG) {
        TagRange(cfg, r', owner, n);
      }
    }
    forall n | n in TagRangeOf(r, arn) ensures Lookup(r, n) == Lookup(r', n) {
      TagRange(cfg, r, owner, n);
    }
  }

  lemma TaggedQuota(cfg: Config, db: Db, k: KeyRecord, owner: Option<Bytes>, tags: seq<TagInput>)
    requires ValidConfig(cfg) && AllNamed(cfg, db.records) && (owner.Some? ==> NoSlash(owner.value))
    requires AllAcceptable(tags) && tags != [] && k.meta.arn == OwnerArn(cfg, owner)
    requires k.meta.keyState != PendingDeletion && !OverQuota(db.records, k.meta.arn, tags)
    ensures var arn := k.meta.arn;
            var (db', answer) := TaggedLoaded(db, k, tags);
            && |TagNames(db'.records, arn)| <= MAX_TAGS_PER_KEY
            && |TagNames(db'.records, arn)| <=
               |TagNames(db.records, arn)| + NewTagCount(StoredTagKeys(db.records, arn), tags, 0)
            && (answer.Done? ==> |TagNames(db'.records, arn)| ==
                                 |TagNames(db.records, arn)| + |RequestKeys(tags) - StoredTagKeys(db.records, arn)|)
  {
    var arn := k.meta.arn;
    var (db', ok) := SavedTags(db, arn, tags, 0);
    CountIsRange(db.records, arn);
    CountIsRange(db'.records, arn);
    SavedRange(db, arn, tags, 0);
    forall t ensures t in StoredTagKeys(db.records, arn) <==> TagName(arn, t) in TagRangeOf(db.records, arn) {
      StoredKeyHasName(cfg, db.records, owner, t);
    }
    GrownRange(StoredTagKeys(db.records, arn), TagRangeOf(db.records, arn), TagRangeOf(db'.records, arn), arn, tags,
               ok);
  }

  lemma GrownRange(existing: set<Bytes>, range: set<Bytes>, range': set<Bytes>, arn: Bytes, tags: seq<TagInput>,
                   ok: bool)
    requires KeysOfRange(existing, range, arn) && AllAcceptable(tags)
    requires range <= range' <= range + NamesFrom(arn, tags, 0) && (ok ==> NamesFrom(arn, tags, 0) <= range')
    ensures |range'| <= |range| + NewTagCount(existing, tags, 0)
    ensures ok ==> |range'| == |range| + |RequestKeys(tags) - existing|
  {
    CountIsBounded(existing, range, arn, tags, 0);
    CountIsExact(existing, range, arn, tags);
    SmallerSet(range', range + NamesFrom(arn, tags, 0));
    if ok {
      assert range' == range + NamesFrom(arn, tags, 0);
    }
  }

  lemma {:induction false} SmallerSet(a: set<Bytes>, b: set<Bytes>)
    requires a <= b
    ensures |a| <= |b|
    decreases |a|
  {
    if a != {} {
      var x :| x in a;
      SmallerSet(a - {x}, b - {x});
    }
  }

  /** After TagResource with a non-empty list that got as far as saving, whether it succeeded or
      a write failed midway, the key has at most 50 tags, and no more than it had plus the
      number the request was counted for; on success exactly one more for each distinct new key. */
  lemma TagResourceQuota(cfg: Config, db: Db, keyId: Bytes, tags: seq<TagInput>, env: Env)
    requires ValidConfig(cfg) && AllNamed(cfg, db.records) && env.year >= MIN_YEAR && tags != []
    requires TagsRejected(tags).None? && GotKey(cfg, db, keyId, env.now, env.year, env.firstDraw).1.Some?
    requires var answer := ResourceTagged(cfg, db, keyId, tags, env).1;
             answer.Done? || answer == Failed(InternalFailure)
    ensures var (db', answer) := ResourceTagged(cfg, db, keyId, tags, env);
            var arn := GotKey(cfg, db, keyId, env.now, env.year, env.firstDraw).1.value.meta.arn;
            && |TagNames(db'.records, arn)| <= MAX_TAGS_PER_KEY
            && |TagNames(db'.records, arn)| <=
               |TagNames(db.records, arn)| + NewTagCount(StoredTagKeys(db.records, arn), tags, 0)
            && (answer.Done? ==> |TagNames(db'.records, arn)| ==
                                 |TagNames(db.records, arn)| + |RequestKeys(tags) - StoredTagKeys(db.records, arn)|)
  {
    var got := GotKey(cfg, db, keyId, env.now, env.year, env.firstDraw);
    var k := got.1.value;
    GetKeyStep(cfg, db, keyId, Quiet(env), env.year, env.firstDraw);
    var name :| LoadedFrom(got.0.records, name, k);
    OwnerExists(cfg, got.0.records, name, k);
    var owner: Option<Bytes> :| k.meta.arn == OwnerArn(cfg, owner) && (owner.Some? ==> NoSlash(owner.value));
    LoadKeepsTags(cfg, db.records, got.0.records, owner);
    CountIsRange(db.records, k.meta.arn);
    CountIsRange(got.0.records, k.meta.arn);
    TaggedQuota(cfg, got.0, k, owner, tags);
  }
}
