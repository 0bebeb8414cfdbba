/** ARNs and the names under which records share one key/value store
    (config.go, and the put calls of database_key, _alias, _tag and _grant). */
module Names {
  import opened Wrappers
  import opened ByteStrings

  datatype Config = Config(region: Bytes, account: Bytes)

  predicate ValidConfig(cfg: Config) {
    NoSlash(cfg.region) && NoSlash(cfg.account)
  }

  function ArnPrefix(cfg: Config): Bytes {
    "arn:aws:kms:" + cfg.region + ":" + cfg.account + ":"
  }

  function EnsureArn(cfg: Config, prefix: Bytes, target: Bytes): Bytes {
    if HasPrefix(target, "arn:") then target else ArnPrefix(cfg) + prefix + target
  }

  const KEY: Bytes := "key/"
  const ALIAS: Bytes := "alias/"
  const TAG: Bytes := "/tag"
  const GRANT: Bytes := "grant/"

  function KeyArn(cfg: Config, id: Bytes): Bytes {
    ArnPrefix(cfg) + KEY + id
  }

  function TagName(keyArn: Bytes, tagKey: Bytes): Bytes {
    keyArn + "/tag/" + tagKey
  }

  function GrantName(grantId: Bytes): Bytes {
    GRANT + grantId
  }

  /** What a stored record is about. `owner` is None for a tag saved against the empty ARN
      that a key decoded from a record of another kind carries. */
  datatype Subject =
    | KeySubject(id: Bytes)
    | AliasSubject(aliasName: Bytes)
    | TagSubject(owner: Option<Bytes>, tagKey: Bytes)
    | GrantSubject(grantId: Bytes)

  predicate ValidSubject(s: Subject) {
    match s
    case KeySubject(id) => NoSlash(id)
    case AliasSubject(name) => HasPrefix(name, ALIAS)
    case TagSubject(owner, _) => owner.Some? ==> NoSlash(owner.value)
    case GrantSubject(_) => true
  }

  function OwnerArn(cfg: Config, owner: Option<Bytes>): Bytes {
    if owner.Some? then KeyArn(cfg, owner.value) else []
  }

  /** The name computed from a record's own fields. */
  function StorageName(cfg: Config, s: Subject): Bytes {
    match s
    case KeySubject(id) => KeyArn(cfg, id)
    case AliasSubject(name) => ArnPrefix(cfg) + name
    case TagSubject(owner, tagKey) => TagName(OwnerArn(cfg, owner), tagKey)
    case GrantSubject(id) => GrantName(id)
  }

  /** The part of a storage name before its first '/'. */
  function Head(cfg: Config, s: Subject): Bytes {
    match s
    case KeySubject(_) => ArnPrefix(cfg) + "key"
    case AliasSubject(_) => ArnPrefix(cfg) + "alias"
    case TagSubject(owner, _) => if owner.Some? then ArnPrefix(cfg) + "key" else []
    case GrantSubject(_) => "grant"
  }

  /** The part after it. */
  function Rest(s: Subject): Bytes
    requires ValidSubject(s)
  {
    match s
    case KeySubject(id) => id
    case AliasSubject(name) => name[6..]
    case TagSubject(owner, tagKey) =>
      if owner.Some? then owner.value + [SLASH] + "tag/" + tagKey else "tag/" + tagKey
    case GrantSubject(id) => id
  }

  lemma NameSplits(cfg: Config, s: Subject)
    requires ValidConfig(cfg) && ValidSubject(s)
    ensures NoSlash(Head(cfg, s))
    ensures StorageName(cfg, s) == Head(cfg, s) + [SLASH] + Rest(s)
  {
    match s
    case KeySubject(id) =>
      assert KEY == "key" + [SLASH];
    case AliasSubject(name) =>
      assert name == "alias" + [SLASH] + name[6..];
    case TagSubject(owner, tagKey) =>
      assert KEY == "key" + [SLASH];
      assert "/tag/" == [SLASH] + "tag/";
    case GrantSubject(id) =>
      assert GRANT == "grant" + [SLASH];
  }

  lemma TagRestHasSlash(s: Subject)
    requires ValidSubject(s)
    ensures s.TagSubject? ==> !NoSlash(Rest(s))
  {
    if s.TagSubject? {
      assert Rest(s)[if s.owner.Some? then |s.owner.value| else 3] == SLASH;
    }
  }

  lemma TagRestInjective(s: Subject, t: Subject)
    requires ValidSubject(s) && ValidSubject(t) && s.TagSubject? && t.TagSubject?
    requires s.owner.Some? <==> t.owner.Some?
    requires Rest(s) == Rest(t)
    ensures s == t
  {
    var x, y := "tag/" + s.tagKey, "tag/" + t.tagKey;
    if s.owner.Some? {
      assert Rest(s) == s.owner.value + [SLASH] + x;
      assert Rest(t) == t.owner.value + [SLASH] + y;
      SplitAtSlash(s.owner.value, x, t.owner.value, y);
    }
    assert s.tagKey == x[4..] && t.tagKey == y[4..];
  }

  lemma AliasRestInjective(s: Subject, t: Subject)
    requires ValidSubject(s) && ValidSubject(t) && s.AliasSubject? && t.AliasSubject?
    requires Rest(s) == Rest(t)
    ensures s == t
  {
    assert s.aliasName == s.aliasName[..6] + s.aliasName[6..];
    assert t.aliasName == t.aliasName[..6] + t.aliasName[6..];
  }

  /** Different subjects are never stored under the same name: names are injective within a
      kind and disjoint between kinds, whatever the tag keys and grant ids contain. */
  lemma StorageNameInjective(cfg: Config, s: Subject, t: Subject)
    requires ValidConfig(cfg) && ValidSubject(s) && ValidSubject(t)
    requires StorageName(cfg, s) == StorageName(cfg, t)
    ensures s == t
  {
    NameSplits(cfg, s);
    NameSplits(cfg, t);
    SplitAtSlash(Head(cfg, s), Rest(s), Head(cfg, t), Rest(t));
    HeadDeterminesKind(cfg, s, t);
    HeadDeterminesKind(cfg, t, s);
    RestDetermines(s, t);
  }

  lemma RestDetermines(s: Subject, t: Subject)
    requires ValidSubject(s) && ValidSubject(t) && Rest(s) == Rest(t)
    requires s.AliasSubject? <==> t.AliasSubject?
    requires s.GrantSubject? <==> t.GrantSubject?
    requires s.TagSubject? && t.TagSubject? ==> (s.owner.Some? <==> t.owner.Some?)
    ensures s == t
  {
    TagRestHasSlash(s);
    TagRestHasSlash(t);
    if s.TagSubject? && t.TagSubject? {
      TagRestInjective(s, t);
    } else if s.AliasSubject? {
      AliasRestInjective(s, t);
    }
  }

  lemma HeadDeterminesKind(cfg: Config, s: Subject, t: Subject)
    requires Head(cfg, s) == Head(cfg, t)
    ensures s.AliasSubject? <==> t.AliasSubject?
    ensures s.GrantSubject? <==> t.GrantSubject?
    ensures s.KeySubject? ==> t.KeySubject? || (t.TagSubject? && t.owner.Some?)
    ensures s.TagSubject? ==> (s.owner.Some? <==> t.KeySubject? || (t.TagSubject? && t.owner.Some?))
  {
    var p := ArnPrefix(cfg);
    assert |p| >= 14 && p[0] == 'a';
    assert (p + "key")[|p|..] == "key" && (p + "alias")[|p|..] == "alias";
  }

  /** A full key ARN is left alone by EnsureArn and is never taken for an alias. */
  lemma KeyArnIsDirect(cfg: Config, id: Bytes, prefix: Bytes)
    requires ValidConfig(cfg) && NoSlash(id)
    ensures EnsureArn(cfg, prefix, KeyArn(cfg, id)) == KeyArn(cfg, id)
    ensures !Contains(KeyArn(cfg, id), ALIAS)
  {
    var arn := KeyArn(cfg, id);
    var p := ArnPrefix(cfg);
    assert arn[..4] == "arn:";
    assert NoSlash(p);
    assert forall j | 0 <= j < |arn| && arn[j] == SLASH :: j == |p| + 3;
    assert arn[|p| + 2] == 'y';
    forall i: nat | i <= |arn| ensures !OccursAt(arn, ALIAS, i) {
      if i + 6 <= |arn| {
        assert arn[i..i + 6][5] == arn[i + 5] && arn[i..i + 6][4] == arn[i + 4];
        assert ALIAS[5] == SLASH && ALIAS[4] == 's';
      }
    }
  }
}
