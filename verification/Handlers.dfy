/** The request handlers as methods of one object over the store: each loads a key object,
    checks it, changes its fields and saves it, in the order of the handler package. */
module Handlers {
  import opened Wrappers
  import opened ByteStrings
  import opened Names
  import opened Crypto
  import opened Ciphertext
  import opened Keys
  import opened Lifecycle
  import opened Pages
  import opened Store
  import opened Databases
  import opened Requests

  /** The handler's view of all tags of a key is the whole range. */
  lemma AllTagsListed(records: map<Bytes, Record>, keyArn: Bytes)
    ensures var names := TagNames(records, keyArn);
            ListedTags(records, keyArn, |names| + 1, []) == Some(names)
  {
    var names := TagNames(records, keyArn);
    AscendingElements(set n | n in records && HasPrefix(n, keyArn + TAG));
    KeptAll(names, records.Keys);
  }

  lemma {:induction false} KeptAll(names: seq<Bytes>, kept: set<Bytes>)
    requires forall n | n in names :: n in kept
    ensures Filter(names, kept) == names
  {
    if names != [] {
      KeptAll(names[1..], kept);
    }
  }

  lemma StoredKeysListed(records: map<Bytes, Record>, keyArn: Bytes, tags: seq<Tag>)
    requires tags == TagsNamed(records, TagNames(records, keyArn))
    ensures (set t | t in tags :: t.tagKey) == StoredTagKeys(records, keyArn)
  {
    var names := TagNames(records, keyArn);
    forall n | n in names ensures AsTag(Lookup(records, n)) in tags {
      var j :| 0 <= j < |names| && names[j] == n;
      assert tags[j] in tags;
    }
    forall t | t in tags ensures t.tagKey in StoredTagKeys(records, keyArn) {
      var j :| 0 <= j < |tags| && tags[j] == t;
      assert names[j] in names;
    }
  }

  // Cutting the extra record off is cutting its name off.

  lemma CutAliases(records: map<Bytes, Record>, names: seq<Bytes>, limit: nat)
    ensures var aliases := AliasesNamed(records, names);
            AliasesAnswer(records, PageOf(Some(names), limit)) ==
            if |aliases| > limit then AliasesListed(aliases[..limit], Some(aliases[|aliases| - 1].aliasArn))
            else AliasesListed(aliases, None)
  {
    if |names| > limit {
      assert AliasesNamed(records, names[..limit]) == AliasesNamed(records, names)[..limit];
    }
  }

  lemma CutGrants(records: map<Bytes, Record>, names: seq<Bytes>, limit: nat)
    ensures var grants := GrantsNamed(records, names);
            GrantsAnswer(records, PageOf(Some(names), limit)) ==
            if |grants| > limit then GrantsListed(grants[..limit], Some(grants[|grants| - 1].grantId))
            else GrantsListed(grants, None)
  {
    if |names| > limit {
      assert GrantsNamed(records, names[..limit]) == GrantsNamed(records, names)[..limit];
    }
  }

  lemma CutTags(records: map<Bytes, Record>, names: seq<Bytes>, limit: nat)
    ensures var tags := TagsNamed(records, names);
            TagsAnswer(records, PageOf(Some(names), limit)) ==
            if |tags| > limit then TagsListed(tags[..limit], Some(tags[|tags| - 1].tagKey)) else TagsListed(tags, None)
  {
    if |names| > limit {
      assert TagsNamed(records, names[..limit]) == TagsNamed(records, names)[..limit];
    }
  }

  class RequestHandler {
    const database: Database
    const config: Config
    const crypto: Suite

    constructor (database: Database, config: Config, crypto: Suite)
      ensures this.database == database && this.config == config && this.crypto == crypto
    {
      this.database, this.config, this.crypto := database, config, crypto;
    }

    /** The store and the answer are as expected. */
    ghost predicate Gives(expected: (Db, Response), r: Response)
      reads database
    {
      database.State() == expected.0 && r == expected.1
    }

    //--------------------------------------------------------------------------------------
    // Loading keys

    method GetKey(keyId: Bytes, now: Time, year: nat, drawn: Bytes) returns (key: Key?)
      modifies database
      ensures database.State() == GotKey(config, old(database.State()), keyId, now, year, drawn).0
      ensures key == null <==> GotKey(config, old(database.State()), keyId, now, year, drawn).1.None?
      ensures key != null ==>
                fresh(key) && Some(key.Record()) == GotKey(config, old(database.State()), keyId, now, year, drawn).1
    {
      var name := keyId;
      if Contains(keyId, ALIAS) {
        var aliasArn := EnsureArn(config, [], keyId);
        var found := database.LoadAlias(aliasArn);
        if found.None? {
          return null;
        }
        name := found.value.targetKeyId;
      }
      name := EnsureArn(config, KEY, name);
      key := database.LoadKey(name, now, year, drawn);
    }

    method GetUsableKey(keyId: Bytes, now: Time, year: nat, drawn: Bytes) returns (key: Key?, error: Error)
      modifies database
      ensures database.State() == GotUsableKey(config, old(database.State()), keyId, now, year, drawn).0
      ensures key == null ==> GotUsableKey(config, old(database.State()), keyId, now, year, drawn).1 == Unusable(error)
      ensures key != null ==>
                fresh(key) && GotUsableKey(config, old(database.State()), keyId, now, year, drawn).1
                  == Usable(key.Record())
    {
      key := GetKey(keyId, now, year, drawn);
      if key == null {
        return null, NotFound;
      }
      if key.meta.keyState == PendingImport {
        return null, InvalidState;
      }
      if key.meta.deletionDate != 0 {
        return null, InvalidState;
      }
      if !key.meta.enabled {
        return null, KeyDisabled;
      }
      return key, Validation;
    }

    //--------------------------------------------------------------------------------------
    // Requests that change a key

    method EnableKey(keyId: Bytes, env: Env) returns (r: Response)
      modifies database
      ensures Gives(KeyChanged(crypto, config, old(database.State()), keyId, KeyOp.EnableKey, env), r)
    {
      var key := GetKey(keyId, env.now, env.year, env.firstDraw);
      if key == null {
        return Failed(NotFound);
      }
      match key.meta.keyState {
        case PendingDeletion =>
          return Failed(InvalidState);
        case PendingImport =>
          return Failed(InvalidState);
        case _ =>
      }
      key.meta := key.meta.(enabled := true);
      key.meta := key.meta.(keyState := Enabled);
      var ok := database.SaveKey(key);
      return if ok then Done(key.meta.arn) else Failed(InternalFailure);
    }

    method DisableKey(keyId: Bytes, env: Env) returns (r: Response)
      modifies database
      ensures Gives(KeyChanged(crypto, config, old(database.State()), keyId, KeyOp.DisableKey, env), r)
    {
      var key := GetKey(keyId, env.now, env.year, env.firstDraw);
      if key == null {
        return Failed(NotFound);
      }
      match key.meta.keyState {
        case PendingDeletion =>
          return Failed(InvalidState);
        case PendingImport =>
          return Failed(InvalidState);
        case _ =>
      }
      key.meta := key.meta.(enabled := false);
      key.meta := key.meta.(keyState := Disabled);
      var ok := database.SaveKey(key);
      return if ok then Done(key.meta.arn) else Failed(InternalFailure);
    }

    method ScheduleKeyDeletion(keyId: Bytes, pendingWindowInDays: Option<int>, env: Env) returns (r: Response)
      modifies database
      ensures Gives(KeyChanged(crypto, config, old(database.State()), keyId,
                               KeyOp.ScheduleKeyDeletion(pendingWindowInDays), env), r)
    {
      var window: int;
      if pendingWindowInDays.Some? {
        window := pendingWindowInDays.value;
        if window < 7 || window > 30 {
          return Failed(Validation);
        }
      } else {
        window := 30;
      }
      var target := EnsureArn(config, KEY, keyId);
      var key := database.LoadKey(target, env.now, env.year, env.firstDraw);
      if key == null {
        return Failed(NotFound);
      }
      if key.meta.keyState == PendingDeletion {
        return Failed(InvalidState);
      }
      key.meta := key.meta.(enabled := false);
      key.meta := key.meta.(keyState := PendingDeletion);
      key.meta := key.meta.(deletionDate := AddDays(env.now, window));
      var ok := database.SaveKey(key);
      return if ok then Done(key.meta.arn) else Failed(InternalFailure);
    }

    method CancelKeyDeletion(keyId: Bytes, env: Env) returns (r: Response)
      modifies database
      ensures Gives(KeyChanged(crypto, config, old(database.State()), keyId, KeyOp.CancelKeyDeletion, env), r)
    {
      var target := EnsureArn(config, KEY, keyId);
      var key := database.LoadKey(target, env.now, env.year, env.firstDraw);
      if key == null {
        return Failed(NotFound);
      }
      if key.meta.keyState != PendingDeletion {
        return Failed(InvalidState);
      }
      key.meta := key.meta.(enabled := false);
      key.meta := key.meta.(keyState := Disabled);
      key.meta := key.meta.(deletionDate := 0);
      var ok := database.SaveKey(key);
      return if ok then Done(key.meta.arn) else Failed(InternalFailure);
    }

    /** Only the metadata changes: the material stays, as it must be imported again. */
    method DeleteImportedKeyMaterial(keyId: Bytes, env: Env) returns (r: Response)
      modifies database
      ensures Gives(KeyChanged(crypto, config, old(database.State()), keyId, KeyOp.DeleteImportedKeyMaterial, env), r)
    {
      var key := GetKey(keyId, env.now, env.year, env.firstDraw);
      if key == null {
        return Failed(NotFound);
      }
      if key.meta.origin != External {
        return Failed(UnsupportedOperation);
      }
      if key.meta.keyState == PendingDeletion || key.meta.keyState == Unavailable {
        return Failed(InvalidState);
      }
      key.meta := key.meta.(keyState := PendingImport, enabled := false);
      key.meta := key.meta.(validTo := 0, expirationModel := NoExpiration);
      var ok := database.SaveKey(key);
      return if ok then Done(key.meta.arn) else Failed(InternalFailure);
    }

    /** The checks on the expiration that ImportKeyMaterial makes first: the model it goes on with. */
    method CheckExpiration(model: Option<ExpirationModel>, validTo: Option<int>, now: Time)
      returns (checked: Option<ExpirationModel>)
      ensures forall token, material ::
                var op := KeyOp.ImportKeyMaterial(token, material, model, validTo);
                checked == if RequestValid(op, now) then Some(RequestedModel(op)) else None
    {
      var expirationModel;
      if model.None? {
        expirationModel := if validTo.Some? then MaterialExpires else MaterialDoesNotExpire;
      } else if model.value == MaterialExpires || model.value == MaterialDoesNotExpire {
        expirationModel := model.value;
      } else {
        return None;
      }
      if expirationModel == MaterialExpires && validTo.None? {
        return None;
      }
      if expirationModel == MaterialDoesNotExpire && validTo.Some? {
        return None;
      }
      if validTo.Some? && validTo.value <= Unix(now) {
        return None;
      }
      return Some(expirationModel);
    }

    method ImportKeyMaterial(keyId: Bytes, importToken: Bytes, encryptedMaterial: Bytes,
                             model: Option<ExpirationModel>, validTo: Option<int>, env: Env) returns (r: Response)
      modifies database
      ensures Gives(KeyChanged(crypto, config, old(database.State()), keyId,
                               KeyOp.ImportKeyMaterial(importToken, encryptedMaterial, model, validTo), env), r)
    {
      var requested := CheckExpiration(model, validTo, env.now);
      if requested.None? {
        return Failed(Validation);
      }
      var key := GetKey(keyId, env.now, env.year, env.firstDraw);
      if key == null {
        return Failed(NotFound);
      }
      var error := ImportInto(key, importToken, encryptedMaterial, requested.value, model, validTo, env.now);
      if error.Some? {
        return Failed(error.value);
      }
      var ok := database.SaveKey(key);
      return if ok then Done(key.meta.arn) else Failed(InternalFailure);
    }

    /** The checks and changes that ImportKeyMaterial makes on the loaded key. */
    method ImportInto(key: Key, importToken: Bytes, encryptedMaterial: Bytes, expirationModel: ExpirationModel,
                      ghost model: Option<ExpirationModel>, validTo: Option<int>, now: Time)
      returns (error: Option<Error>)
      requires var op := KeyOp.ImportKeyMaterial(importToken, encryptedMaterial, model, validTo);
               RequestValid(op, now) && expirationModel == RequestedModel(op)
      modifies key
      ensures var op := KeyOp.ImportKeyMaterial(importToken, encryptedMaterial, model, validTo);
              match ImportChange(crypto, op, old(key.Record()), now)
              case Rejected(e) => error == Some(e)
              case Changed(k) => error == None && key.Record() == k
    {
      if key.meta.origin != External {
        return Some(UnsupportedOperation);
      }
      if key.meta.keyState == PendingDeletion || key.meta.keyState == Unavailable {
        return Some(InvalidState);
      }
      if key.keyType != Aes && key.keyType != Hmac {
        return Some(UnsupportedOperation);
      }
      var params := key.importParams;
      if params.token != importToken {
        return Some(InvalidImportToken);
      }
      if params.validTo < Unix(now) {
        return Some(ExpiredImportToken);
      }
      var material := crypto.unwrap(params.wrappingKey, params.algorithm, encryptedMaterial);
      if material.None? {
        return Some(InvalidCiphertext);
      }
      var imported := key.ImportKeyMaterial(material.value);
      if !imported {
        return Some(IncorrectKeyMaterial);
      }
      key.meta := key.meta.(expirationModel := expirationModel);
      key.meta := key.meta.(keyState := Enabled, enabled := true);
      key.meta := key.meta.(validTo := if expirationModel == MaterialExpires then validTo.value else 0);
      return None;
    }

    /** `newToken` and `wrappingKey` are what the generators drew. */
    method GetParametersForImport(keyId: Bytes, wrappingAlgorithm: WrappingAlgorithm, newToken: Bytes,
                                  wrappingKey: Bytes, env: Env) returns (r: Response)
      modifies database
      ensures Gives(KeyChanged(crypto, config, old(database.State()), keyId,
                               KeyOp.GetParametersForImport(wrappingAlgorithm, newToken, wrappingKey), env), r)
    {
      if wrappingAlgorithm == NoWrapping {
        return Failed(Validation);
      }
      var key := GetKey(keyId, env.now, env.year, env.firstDraw);
      if key == null {
        return Failed(NotFound);
      }
      if key.meta.origin != External {
        return Failed(UnsupportedOperation);
      }
      if key.meta.keyState == PendingDeletion || key.meta.keyState == Unavailable {
        return Failed(InvalidState);
      }
      if key.keyType != Aes && key.keyType != Hmac {
        return Failed(UnsupportedOperation);
      }
      key.importParams := ParametersForImport(ImportDeadline(env.now), newToken, wrappingKey, wrappingAlgorithm);
      var ok := database.SaveKey(key);
      return if ok then Done(key.meta.arn) else Failed(InternalFailure);
    }

    method RotateKeyOnDemand(keyId: Bytes, drawn: Bytes, env: Env) returns (r: Response)
      modifies database
      ensures Gives(KeyChanged(crypto, config, old(database.State()), keyId, KeyOp.RotateKeyOnDemand(drawn), env), r)
    {
      var key := GetKey(keyId, env.now, env.year, env.firstDraw);
      if key == null {
        return Failed(NotFound);
      }
      if key.meta.origin == External {
        return Failed(UnsupportedOperation);
      }
      if key.keyType != Aes {
        return Failed(UnsupportedOperation);
      }
      if key.meta.deletionDate != 0 {
        return Failed(InvalidState);
      }
      if !key.meta.enabled {
        return Failed(KeyDisabled);
      }
      var rotated := key.RotateOnDemand(drawn);
      if !rotated {
        return Failed(LimitExceeded);
      }
      var ok := database.SaveKey(key);
      return if ok then Done(key.meta.arn) else Failed(InternalFailure);
    }

    method EnableKeyRotation(keyId: Bytes, env: Env) returns (r: Response)
      modifies database
      ensures Gives(KeyChanged(crypto, config, old(database.State()), keyId, KeyOp.EnableKeyRotation, env), r)
    {
      var keyArn := EnsureArn(config, KEY, keyId);
      var key := database.LoadKey(keyArn, env.now, env.year, env.firstDraw);
      if key == null {
        return Failed(NotFound);
      }
      if key.meta.origin == External {
        return Failed(UnsupportedOperation);
      }
      if key.keyType != Aes {
        return Failed(UnsupportedOperation);
      }
      if key.meta.deletionDate != 0 {
        return Failed(InvalidState);
      }
      if !key.meta.enabled {
        return Failed(KeyDisabled);
      }
      if key.nextKeyRotation.None? {
        key.nextKeyRotation := Some(env.now + env.year);
      }
      var ok := database.SaveKey(key);
      return if ok then Done(key.meta.arn) else Failed(InternalFailure);
    }

    method DisableKeyRotation(keyId: Bytes, env: Env) returns (r: Response)
      modifies database
      ensures Gives(KeyChanged(crypto, config, old(database.State()), keyId, KeyOp.DisableKeyRotation, env), r)
    {
      var keyArn := EnsureArn(config, KEY, keyId);
      var key := database.LoadKey(keyArn, env.now, env.year, env.firstDraw);
      if key == null {
        return Failed(NotFound);
      }
      if key.meta.origin == External {
        return Failed(UnsupportedOperation);
      }
      if key.keyType != Aes {
        return Failed(UnsupportedOperation);
      }
      if key.meta.deletionDate != 0 {
        return Failed(InvalidState);
      }
      if !key.meta.enabled {
        return Failed(KeyDisabled);
      }
      key.nextKeyRotation := None;
      var ok := database.SaveKey(key);
      return if ok then Done(key.meta.arn) else Failed(InternalFailure);
    }

    method UpdateKeyDescription(keyId: Bytes, description: Bytes, env: Env) returns (r: Response)
      modifies database
      ensures Gives(KeyChanged(crypto, config, old(database.State()), keyId, KeyOp.UpdateKeyDescription(description),
                               env), r)
    {
      if |description| > 8192 {
        return Failed(Validation);
      }
      var keyArn := EnsureArn(config, KEY, keyId);
      var key := database.LoadKey(keyArn, env.now, env.year, env.firstDraw);
      if key == null {
        return Failed(NotFound);
      }
      if key.meta.deletionDate != 0 {
        return Failed(InvalidState);
      }
      key.meta := key.meta.(description := description);
      var ok := database.SaveKey(key);
      return if ok then Done(key.meta.arn) else Failed(InternalFailure);
    }

    method PutKeyPolicy(keyId: Bytes, policy: Bytes, env: Env) returns (r: Response)
      modifies database
      ensures Gives(KeyChanged(crypto, config, old(database.State()), keyId, KeyOp.PutKeyPolicy(policy), env), r)
    {
      if |policy| > 32768 {
        return Failed(Validation);
      }
      var keyArn := EnsureArn(config, KEY, keyId);
      var key := GetKey(keyArn, env.now, env.year, env.firstDraw);
      if key == null {
        return Failed(NotFound);
      }
      key.policy := policy;
      var ok := database.SaveKey(key);
      return if ok then Done(key.meta.arn) else Failed(InternalFailure);
    }

    //--------------------------------------------------------------------------------------
    // CreateKey and tags

    method ValidateTags(tags: seq<TagInput>) returns (e: Option<Error>)
      ensures e == TagsRejected(tags)
    {
      for i := 0 to |tags|
        invariant forall j | 0 <= j < i :: tags[j].tagKey.Some? ==> !HasPrefix(tags[j].tagKey.value, "aws:")
      {
        if tags[i].tagKey.Some? && HasPrefix(tags[i].tagKey.value, "aws:") {
          return Some(TagError);
        }
      }
      for i := 0 to |tags|
        invariant forall j | 0 <= j < i :: TagAcceptable(tags[j])
      {
        if tags[i].tagKey.None? || |tags[i].tagKey.value| < 1 {
          return Some(Validation);
        }
        if |tags[i].tagKey.value| > 128 {
          return Some(Validation);
        }
        if tags[i].tagValue.None? || |tags[i].tagValue.value| > 256 {
          return Some(Validation);
        }
      }
      return None;
    }

    method SaveTags(keyArn: Bytes, tags: seq<TagInput>) returns (ok: bool)
      requires AllAcceptable(tags)
      modifies database
      ensures database.State() == SavedTags(old(database.State()), keyArn, tags, 0).0
      ensures ok == SavedTags(old(database.State()), keyArn, tags, 0).1
    {
      ghost var all := SavedTags(database.State(), keyArn, tags, 0);
      for i := 0 to |tags|
        invariant SavedTags(database.State(), keyArn, tags, i) == all
      {
        var saved := database.SaveTag(keyArn, Tag(tags[i].tagKey.value, tags[i].tagValue.value));
        if !saved {
          return false;
        }
      }
      return true;
    }

    /** The key object, by the constructors of the four key types. */
    method MakeKey(n: NewKey, metadata: KeyMetadata, spec: KeySpec) returns (key: Key?)
      ensures key != null <==> KeyTypeOf(spec).Some? && UsageAccepted(KeyTypeOf(spec).value, n.usage)
      ensures key != null ==> fresh(key) && key.Record() == KeyMade(n, metadata, spec)
    {
      var keyType := KeyTypeOf(spec);
      if keyType.None? || !UsageAccepted(keyType.value, n.usage) {
        return null;
      }
      var record := ZERO_KEY.(keyType := keyType.value, policy := n.policy);
      if keyType.value == Aes || keyType.value == Hmac {
        if metadata.origin != External {
          record := record.(backingKeys := [n.material]);
        }
      } else {
        record := record.(privateKey := n.privateKey);
      }
      var usage := if keyType.value == Aes then EncryptDecrypt else n.usage;
      record := record.(meta := metadata.(
        keyUsage := usage, keySpec := spec, customerMasterKeySpec := spec, macAlgorithms := MacAlgorithmsOf(spec)));
      key := new Key.Decode(record);
    }

    method CreateKey(n: NewKey) returns (r: Response)
      modifies database
      ensures Gives(KeyCreated(config, old(database.State()), n), r)
    {
      var metadata := ZERO_KEY.meta.(
        keyId := n.keyId, arn := KeyArn(config, n.keyId), enabled := true, keyState := Enabled, origin := AwsKms);
      if |n.description| > 8192 {
        return Failed(Validation);
      }
      if |n.policy| > 32768 {
        return Failed(Validation);
      }
      var rejected := ValidateTags(n.tags);
      if rejected.Some? {
        return Failed(rejected.value);
      }
      metadata := metadata.(description := n.description);
      if n.keySpec != NoSpec && n.customerMasterKeySpec != NoSpec {
        return Failed(Validation);
      }
      var spec := EffectiveSpec(n);
      if n.origin == External {
        if spec != SymmetricDefault {
          return Failed(Validation);
        }
        metadata := metadata.(origin := External, enabled := false, keyState := PendingImport);
      } else if n.origin == CloudHsm {
        return Failed(UnsupportedOperation);
      } else if n.origin == OtherOrigin {
        return Failed(Validation);
      }
      var key := MakeKey(n, metadata, spec);
      if key == null {
        return Failed(Validation);
      }
      var saved := database.SaveKey(key);
      if !saved {
        return Failed(InternalFailure);
      }
      var tagged := SaveTags(key.meta.arn, n.tags);
      return if tagged then Done(key.meta.arn) else Failed(InternalFailure);
    }

    /** How many tag keys of the request the resource does not have yet. */
    method CountNewTags(existingTags: seq<Tag>, tags: seq<TagInput>) returns (newCount: nat)
      requires AllAcceptable(tags)
      ensures newCount == NewTagCount(set t | t in existingTags :: t.tagKey, tags, 0)
    {
      var existingKeys: set<Bytes> := {};
      for i := 0 to |existingTags|
        invariant existingKeys == set t | t in existingTags[..i] :: t.tagKey
      {
        existingKeys := existingKeys + {existingTags[i].tagKey};
        assert existingTags[..i + 1] == existingTags[..i] + [existingTags[i]];
      }
      assert existingTags[..|existingTags|] == existingTags;
      newCount := 0;
      for i := 0 to |tags|
        invariant newCount + NewTagCount(existingKeys, tags, i) == NewTagCount(existingKeys, tags, 0)
      {
        if tags[i].tagKey.value !in existingKeys {
          newCount := newCount + 1;
        }
      }
    }

    method WithinQuota(keyArn: Bytes, tags: seq<TagInput>) returns (ok: bool)
      requires AllAcceptable(tags) && tags != []
      ensures ok == !OverQuota(database.State().records, keyArn, tags)
    {
      var currentCount := database.CountTags(keyArn);
      ghost var names;
      var existingTags, listed;
      AllTagsListed(database.records, keyArn);
      // With an empty marker this listing cannot fail.
      existingTags, names, listed := database.ListTags(keyArn, currentCount + 1, []);
      var newCount := CountNewTags(existingTags, tags);
      StoredKeysListed(database.records, keyArn, existingTags);
      return currentCount + newCount <= MAX_TAGS_PER_KEY;
    }

    method TagResource(keyId: Bytes, tags: seq<TagInput>, env: Env) returns (r: Response)
      modifies database
      ensures Gives(ResourceTagged(config, old(database.State()), keyId, tags, env), r)
    {
      var rejected := ValidateTags(tags);
      if rejected.Some? {
        return Failed(rejected.value);
      }
      var key := GetKey(keyId, env.now, env.year, env.firstDraw);
      if key == null {
        return Failed(NotFound);
      }
      if key.meta.keyState == PendingDeletion {
        return Failed(InvalidState);
      }
      if |tags| > 0 {
        var within := WithinQuota(key.meta.arn, tags);
        if !within {
          return Failed(TagError);
        }
      }
      var saved := SaveTags(key.meta.arn, tags);
      return if saved then Done(key.meta.arn) else Failed(InternalFailure);
    }

    method UntagResource(keyId: Bytes, tagKeys: seq<Bytes>, env: Env) returns (r: Response)
      modifies database
      ensures Gives(ResourceUntagged(config, old(database.State()), keyId, tagKeys, env), r)
    {
      var key := GetKey(keyId, env.now, env.year, env.firstDraw);
      if key == null {
        return Failed(NotFound);
      }
      if key.meta.keyState == PendingDeletion {
        return Failed(InvalidState);
      }
      ghost var all := DeletedTags(database.State(), key.meta.arn, tagKeys, 0);
      for i := 0 to |tagKeys|
        modifies database
        invariant DeletedTags(database.State(), key.meta.arn, tagKeys, i) == all
      {
        var deleted := database.DeleteObject(TagName(key.meta.arn, tagKeys[i]));
        if !deleted {
          return Failed(InternalFailure);
        }
      }
      return Done(key.meta.arn);
    }

    //--------------------------------------------------------------------------------------
    // Encrypt, Decrypt, ReEncrypt, MACs

    method Encrypt(keyId: Bytes, plaintext: Bytes, context: map<Bytes, Bytes>, algorithm: EncryptionAlgorithm, env: Env)
      returns (r: Response)
      modifies database
      ensures Gives(EncryptResult(crypto, config, old(database.State()), keyId, plaintext, context, algorithm, env), r)
    {
      if |plaintext| == 0 {
        return Failed(Validation);
      }
      if |plaintext| > 4096 {
        return Failed(Validation);
      }
      var key, error := GetUsableKey(keyId, env.now, env.year, env.firstDraw);
      if key == null {
        return Failed(error);
      }
      var blob: Bytes := [];
      match key.keyType {
        case Aes =>
          var packaged := key.EncryptAndPackage(crypto, plaintext, context, env.nonce);
          match packaged {
            case Ok(b) => blob := b;
            case Err => return Failed(InternalFailure);
            case Panic => return Panicked;
          }
        case Rsa =>
          if key.meta.keyUsage != EncryptDecrypt {
            return Failed(InvalidKeyUsage);
          }
          var maxBytes := RsaMaxPlaintextBytes(key.meta.keySpec, algorithm);
          if maxBytes > 0 && |plaintext| > maxBytes {
            return Failed(InvalidKeyUsage);
          }
          var encrypted := RsaEncryption(crypto, key.Record(), algorithm, plaintext, env.seed);
          if encrypted.None? {
            return Failed(InternalFailure);
          }
          blob := encrypted.value;
        case _ =>
          return Failed(if key.meta.keyUsage == SignVerify then InvalidKeyUsage else InternalFailure);
      }
      return Encrypted(key.meta.arn, blob);
    }

    /** `secret` is what GenerateRandomData or the key pair generator drew. */
    method GenerateDataKey(keyId: Bytes, secret: Bytes, context: map<Bytes, Bytes>, env: Env) returns (r: Response)
      modifies database
      ensures Gives(DataKeyResult(crypto, config, old(database.State()), keyId, secret, context, env), r)
    {
      var key, error := GetUsableKey(keyId, env.now, env.year, env.firstDraw);
      if key == null {
        return Failed(error);
      }
      if key.keyType != Aes {
        return Failed(InvalidKeyUsage);
      }
      var packaged := key.EncryptAndPackage(crypto, secret, context, env.nonce);
      match packaged {
        case Ok(blob) => return DataKeyIssued(key.meta.arn, blob, secret);
        case Err => return Failed(InternalFailure);
        case Panic => return Panicked;
      }
    }

    method Decrypt(keyId: Option<Bytes>, blob: Bytes, context: map<Bytes, Bytes>, algorithm: EncryptionAlgorithm,
                   env: Env)
      returns (r: Response)
      modifies database
      ensures Gives(DecryptResult(crypto, config, old(database.State()), keyId, blob, context, algorithm, env), r)
    {
      if |blob| == 0 {
        return Failed(Validation);
      }
      if |blob| > MAX_BLOB {
        return Failed(Validation);
      }
      var key: Key? := null;
      var error: Error := Validation;
      var keyVersion: nat := 0;
      var ciphertext := blob;
      if keyId.Some? {
        key, error := GetUsableKey(keyId.value, env.now, env.year, env.firstDraw);
        if key == null {
          return Failed(error);
        }
      }
      if key == null || key.keyType == Aes {
        var unpacked := UnpackCiphertextBlob(blob);
        if unpacked.Panic? {
          return Panicked;
        }
        if unpacked.Err? {
          return Failed(InvalidCiphertext);
        }
        var keyArn := unpacked.result.ident;
        keyVersion, ciphertext := unpacked.result.version, unpacked.result.ciphertext;
        if key == null {
          key, error := GetUsableKey(keyArn, env.now, env.year, env.firstDraw);
        } else if key.meta.arn != keyArn {
          return Failed(AccessDenied);
        }
      }
      if key == null {
        return Failed(AccessDenied);
      }
      r := Plaintext(key, keyVersion, ciphertext, context, algorithm);
    }

    /** The switch over key types that ends Decrypt. */
    method Plaintext(key: Key, version: nat, ciphertext: Bytes, context: map<Bytes, Bytes>,
                     algorithm: EncryptionAlgorithm)
      returns (r: Response)
      ensures r == DecryptedUnder(crypto, key.Record(), version, ciphertext, context, algorithm)
    {
      match key.keyType {
        case Aes =>
          var plaintext := key.Decrypt(crypto, version, ciphertext, context);
          match plaintext {
            case Ok(p) => return Decrypted(key.meta.arn, p);
            case Err => return Failed(InvalidCiphertext);
            case Panic => return Panicked;
          }
        case Rsa =>
          if key.meta.keyUsage != EncryptDecrypt {
            return Failed(InvalidKeyUsage);
          }
          var plaintext := RsaDecryption(crypto, key.Record(), algorithm, ciphertext);
          return if plaintext.Some? then Decrypted(key.meta.arn, plaintext.value) else Failed(InvalidCiphertext);
        case _ =>
          return Failed(InternalFailure);
      }
    }

    method ReEncrypt(q: ReEncryption, env: Env) returns (r: Response)
      modifies database
      ensures Gives(ReEncryptResult(crypto, config, old(database.State()), q, env), r)
    {
      if |q.blob| == 0 {
        return Failed(MissingParameter);
      }
      if |q.blob| > MAX_BLOB {
        return Failed(Validation);
      }
      // The ok result of unpacking is ignored.
      var unpacked := SourceFields(q.blob);
      if !unpacked.Ok? {
        return Panicked;
      }
      var keyArn := unpacked.result.ident;
      if q.sourceKeyId.Some? {
        keyArn := q.sourceKeyId.value;
      }
      var keySource, error := GetUsableKey(keyArn, env.now, env.year, env.firstDraw);
      if keySource == null {
        return Failed(error);
      }
      if keySource.meta.keyUsage != EncryptDecrypt {
        return Failed(InvalidKeyUsage);
      }
      var text;
      if keySource.keyType == Rsa {
        text := Plaintext(keySource, 0, q.blob, q.sourceContext, q.sourceAlgorithm);
      } else {
        text := Plaintext(keySource, unpacked.result.version, unpacked.result.ciphertext, q.sourceContext,
                          q.sourceAlgorithm);
      }
      if !text.Decrypted? {
        return text;
      }
      r := EncryptAgain(q, keySource, text.plaintext, env);
    }

    /** The second half of ReEncrypt. */
    method EncryptAgain(q: ReEncryption, keySource: Key, plaintext: Bytes, env: Env) returns (r: Response)
      modifies database
      ensures Gives(EncryptedAgain(crypto, config, old(database.State()), q, keySource.Record(), plaintext, env), r)
    {
      var keyDestination, error := GetUsableKey(q.destinationKeyId, env.now, env.year, env.secondDraw);
      if keyDestination == null {
        return Failed(error);
      }
      if keyDestination.meta.keyUsage != EncryptDecrypt {
        return Failed(InvalidKeyUsage);
      }
      match keyDestination.keyType {
        case Aes =>
          var packaged := keyDestination.EncryptAndPackage(crypto, plaintext, q.destinationContext, env.nonce);
          match packaged {
            case Ok(blob) => return ReEncrypted(keyDestination.meta.arn, keySource.meta.arn, blob);
            case Err => return Failed(InternalFailure);
            case Panic => return Panicked;
          }
        case Rsa =>
          var blob := RsaEncryption(crypto, keyDestination.Record(), q.destinationAlgorithm, plaintext, env.seed);
          return if blob.Some? then ReEncrypted(keyDestination.meta.arn, keySource.meta.arn, blob.value)
                 else Failed(InternalFailure);
        case _ =>
          return Failed(InternalFailure);
      }
    }

    /** The checks on a usable key that GenerateMac and VerifyMac share. */
    method CheckMacKey(key: Key, algorithm: MacAlgorithm) returns (e: Option<Error>)
      ensures e == MacRejected(key.Record(), algorithm)
    {
      if key.meta.keyState != Enabled {
        return Some(KeyDisabled);
      }
      if key.keyType != Hmac {
        return Some(Validation);
      }
      var supported := key.meta.macAlgorithms;
      for i := 0 to |supported|
        invariant algorithm !in supported[..i]
      {
        if supported[i] == algorithm {
          return None;
        }
      }
      assert supported[..|supported|] == supported;
      return Some(Validation);
    }

    method GenerateMac(keyId: Bytes, message: Bytes, algorithm: MacAlgorithm, env: Env) returns (r: Response)
      modifies database
      ensures Gives(GenerateMacResult(crypto, config, old(database.State()), keyId, message, algorithm, env), r)
    {
      var key, error := GetUsableKey(keyId, env.now, env.year, env.firstDraw);
      if key == null {
        return Failed(error);
      }
      var rejected := CheckMacKey(key, algorithm);
      if rejected.Some? {
        return Failed(rejected.value);
      }
      var mac := key.GenerateMac(crypto, message, algorithm);
      return if mac.Some? then MacGenerated(key.meta.arn, mac.value) else Failed(InternalFailure);
    }

    method VerifyMac(keyId: Bytes, message: Bytes, mac: Bytes, algorithm: MacAlgorithm, env: Env) returns (r: Response)
      modifies database
      ensures Gives(VerifyMacResult(crypto, config, old(database.State()), keyId, message, mac, algorithm, env), r)
    {
      var key, error := GetUsableKey(keyId, env.now, env.year, env.firstDraw);
      if key == null {
        return Failed(error);
      }
      var rejected := CheckMacKey(key, algorithm);
      if rejected.Some? {
        return Failed(rejected.value);
      }
      var valid := key.VerifyMac(crypto, message, mac, algorithm);
      return if valid.Some? then MacVerified(key.meta.arn, valid.value) else Failed(InternalFailure);
    }

    //--------------------------------------------------------------------------------------
    // Aliases

    method CreateAlias(aliasName: Bytes, targetKeyId: Bytes, env: Env) returns (r: Response)
      modifies database
      ensures Gives(AliasCreated(config, old(database.State()), aliasName, targetKeyId, env), r)
    {
      if !ValidAliasName(aliasName) {
        return Failed(InvalidAliasName);
      }
      if HasPrefix(aliasName, "alias/aws/") {
        return Failed(NotAuthorized);
      }
      if |aliasName| > 256 {
        return Failed(Validation);
      }
      if HasPrefix(targetKeyId, ALIAS) {
        return Failed(Validation);
      }
      var target := EnsureArn(config, KEY, targetKeyId);
      var key := database.LoadKey(target, env.now, env.year, env.firstDraw);
      if key == null {
        return Failed(NotFound);
      }
      if key.meta.deletionDate != 0 {
        return Failed(InvalidState);
      }
      var aliasArn := ArnPrefix(config) + aliasName;
      var existing := database.LoadAlias(aliasArn);
      if existing.Some? {
        return Failed(AlreadyExists);
      }
      var now := Unix(env.now);
      var a := Alias(aliasArn, aliasName, key.meta.keyId, now, now);
      var ok := database.SaveAlias(a);
      return if ok then Done(aliasArn) else Failed(InternalFailure);
    }

    method UpdateAlias(aliasName: Bytes, targetKeyId: Bytes, env: Env) returns (r: Response)
      modifies database
      ensures Gives(AliasUpdated(config, old(database.State()), aliasName, targetKeyId, env), r)
    {
      if !HasPrefix(aliasName, ALIAS) {
        return Failed(Validation);
      }
      if HasPrefix(aliasName, "alias/aws") {
        return Failed(NotAuthorized);
      }
      if |aliasName| > 256 {
        return Failed(Validation);
      }
      var aliasArn := ArnPrefix(config) + aliasName;
      var found := database.LoadAlias(aliasArn);
      if found.None? {
        return Failed(NotFound);
      }
      var a := found.value;
      var originalKey := database.LoadKey(EnsureArn(config, KEY, a.targetKeyId), env.now, env.year, env.firstDraw);
      if originalKey == null {
        return Failed(InternalFailure);
      }
      var targetKey := database.LoadKey(EnsureArn(config, KEY, targetKeyId), env.now, env.year, env.secondDraw);
      if targetKey == null {
        return Failed(NotFound);
      }
      if originalKey.meta.keyUsage != targetKey.meta.keyUsage {
        return Failed(Validation);
      }
      if originalKey.keyType != targetKey.keyType {
        return Failed(Validation);
      }
      if targetKey.meta.deletionDate != 0 {
        return Failed(InvalidState);
      }
      a := a.(targetKeyId := targetKey.meta.keyId);
      a := a.(lastUpdatedDate := Unix(env.now));
      var ok := database.SaveAlias(a);
      return if ok then Done(a.aliasArn) else Failed(InternalFailure);
    }

    method DeleteAlias(aliasName: Bytes) returns (r: Response)
      modifies database
      ensures Gives(AliasDeleted(config, old(database.State()), aliasName), r)
    {
      if !HasPrefix(aliasName, ALIAS) {
        return Failed(Validation);
      }
      if HasPrefix(aliasName, "alias/aws/") {
        return Failed(InvalidState);
      }
      var aliasArn := ArnPrefix(config) + aliasName;
      var found := database.LoadAlias(aliasArn);
      if found.None? {
        return Failed(NotFound);
      }
      var ok := database.DeleteObject(aliasArn);
      return if ok then Done(aliasArn) else Failed(InternalFailure);
    }

    //--------------------------------------------------------------------------------------
    // Grants

    method CreateGrant(keyId: Bytes, template: Grant, env: Env) returns (r: Response)
      modifies database
      ensures Gives(GrantCreated(config, old(database.State()), keyId, template, env), r)
    {
      var key := GetKey(keyId, env.now, env.year, env.firstDraw);
      if key == null {
        return Failed(NotFound);
      }
      if key.meta.deletionDate != 0 {
        return Failed(InvalidState);
      }
      var grant := template.(keyArn := key.meta.arn);
      var ok := database.SaveGrant(grant);
      return if ok then Done(grant.keyArn) else Failed(InternalFailure);
    }

    method RevokeGrant(keyId: Bytes, grantId: Bytes, env: Env) returns (r: Response)
      modifies database
      ensures Gives(GrantRevoked(config, old(database.State()), keyId, grantId, env), r)
    {
      var key := GetKey(keyId, env.now, env.year, env.firstDraw);
      if key == null {
        return Failed(NotFound);
      }
      var grant := database.LoadGrant(grantId);
      if grant.None? || grant.value.keyArn != key.meta.arn {
        return Failed(NotFound);
      }
      var ok := database.DeleteGrant(grant.value.grantId);
      return if ok then Done(grant.value.keyArn) else Failed(InternalFailure);
    }

    method RetireGrant(token: Bytes, grantId: Bytes, keyId: Bytes, env: Env) returns (r: Response)
      modifies database
      ensures Gives(GrantRetired(config, old(database.State()), token, grantId, keyId, env), r)
    {
      var grant := database.FindGrantByToken(token);
      if grant.None? {
        return Failed(NotFound);
      }
      if grantId != [] && grantId != grant.value.grantId {
        return Failed(NotFound);
      }
      if keyId != [] {
        var key := GetKey(keyId, env.now, env.year, env.firstDraw);
        if key == null {
          return Failed(NotFound);
        }
        if key.meta.arn != grant.value.keyArn {
          return Failed(NotFound);
        }
      }
      var ok := database.DeleteGrant(grant.value.grantId);
      return if ok then Done(grant.value.keyArn) else Failed(InternalFailure);
    }

    //--------------------------------------------------------------------------------------
    // Listings

    method ListKeys(limit: int, marker: Bytes, env: Env) returns (r: Response)
      modifies database
      ensures Gives(ListKeysResult(config, old(database.State()), limit, marker, env.now), r)
    {
      if limit < 1 || limit > 1000 {
        return Failed(Validation);
      }
      var keys, ok := database.ListKeys(ArnPrefix(config) + KEY, limit + 1, marker, env.now);
      if !ok {
        return Failed(InvalidMarker);
      }
      var next: Option<Bytes> := None;
      if |keys| > limit {
        next := Some(keys[|keys| - 1].meta.arn);
        keys := keys[..limit];
      }
      var entries: seq<KeyEntry> := [];
      for i := 0 to |keys|
        invariant entries == EntriesOf(keys)[..i]
      {
        entries := entries + [KeyEntry(keys[i].meta.arn, keys[i].meta.keyId)];
      }
      return KeysListed(entries, next);
    }

    method ListAliases(keyId: Option<Bytes>, limit: int, marker: Bytes, env: Env) returns (r: Response)
      modifies database
      ensures Gives(ListAliasesResult(config, old(database.State()), keyId, limit, marker, env), r)
    {
      if limit < 1 || limit > 100 {
        return Failed(Validation);
      }
      var keyFilter: Bytes := [];
      if keyId.Some? {
        var key := database.LoadKey(EnsureArn(config, KEY, keyId.value), env.now, env.year, env.firstDraw);
        if key == null {
          return Failed(NotFound);
        }
        keyFilter := key.meta.keyId;
      }
      ghost var names;
      var aliases, ok;
      aliases, names, ok := database.ListAlias(ArnPrefix(config) + ALIAS, limit + 1, marker, keyFilter);
      if !ok {
        return Failed(InvalidMarker);
      }
      CutAliases(database.records, names, limit);
      var next: Option<Bytes> := None;
      if |aliases| > limit {
        next := Some(aliases[|aliases| - 1].aliasArn);
        aliases := aliases[..limit];
      }
      return AliasesListed(aliases, next);
    }

    method GrantsFound(filter: GrantFilter, limit: nat, marker: Bytes) returns (r: Response)
      requires limit >= 1
      ensures r == GrantsAnswer(database.State().records, GrantPage(database.State().records, filter, limit, marker))
    {
      ghost var names;
      var grants, ok;
      grants, names, ok := database.ScanGrants(limit + 1, marker, filter);
      if !ok {
        return Failed(InvalidMarker);
      }
      CutGrants(database.records, names, limit);
      var next: Option<Bytes> := None;
      if |grants| > limit {
        next := Some(grants[|grants| - 1].grantId);
        grants := grants[..limit];
      }
      return GrantsListed(grants, next);
    }

    method ListGrants(keyId: Bytes, filter: GrantFilter, limit: int, marker: Bytes, env: Env) returns (r: Response)
      modifies database
      ensures Gives(ListGrantsResult(config, old(database.State()), keyId, filter, limit, marker, env), r)
    {
      if limit < 1 || limit > 100 {
        return Failed(Validation);
      }
      var key := GetKey(keyId, env.now, env.year, env.firstDraw);
      if key == null {
        return Failed(NotFound);
      }
      r := GrantsFound(filter.(keyArn := key.meta.arn), limit, marker);
    }

    method ListRetirableGrants(filter: GrantFilter, limit: int, marker: Bytes) returns (r: Response)
      modifies database
      ensures Gives(ListRetirableGrantsResult(old(database.State()), filter, limit, marker), r)
    {
      if limit < 1 || limit > 100 {
        return Failed(Validation);
      }
      r := GrantsFound(filter, limit, marker);
    }

    method ListResourceTags(keyId: Bytes, limit: int, marker: Bytes, env: Env) returns (r: Response)
      modifies database
      ensures Gives(ListResourceTagsResult(config, old(database.State()), keyId, limit, marker, env), r)
    {
      if limit < 1 || limit > 1000 {
        return Failed(Validation);
      }
      var key := database.LoadKey(EnsureArn(config, KEY, keyId), env.now, env.year, env.firstDraw);
      if key == null {
        return Failed(NotFound);
      }
      ghost var names;
      var tags, ok;
      tags, names, ok := database.ListTags(key.meta.arn, limit + 1, marker);
      if !ok {
        return Failed(InternalFailure);
      }
      CutTags(database.records, names, limit);
      var next: Option<Bytes> := None;
      if |tags| > limit {
        next := Some(tags[|tags| - 1].tagKey);
        tags := tags[..limit];
      }
      return TagsListed(tags, next);
    }
  }
}
