# A verified model of local-kms

local-kms is a single-node key management service: request handlers load key records from a
key/value store, change them and save them, and loading itself rotates, purges and expires keys.
A ciphertext carries no more than the ARN of its key and the index of a backing key. Everything
ever issued therefore depends on what all handlers together keep of the stored records, over runs
of any length, whichever disk writes fail. This project models that state machine and proves what
it keeps.

`dafny verify dfyconfig.toml` checks the whole project.

## Layers

- **Values.** `Store`, `Lifecycle` and `Requests` describe the store, the keys and every request as
  functions of a store value `Db(records, disk)`; `disk` lists which of the coming writes succeed.
- **Objects.** `Keys.Key`, `Databases.Database` and `Handlers.RequestHandler` are the imperative
  code: fields that methods update, loops with counters and flags, guards in the source's order.
  Each method is proved equal to its function on the old state (`Gives` in `Handlers`), so that the
  theorems about the functions are theorems about the methods. These rows close the table; what
  they contribute is that one refinement, method by method.
- **History.** `KeyHistory` says what one request keeps of one key, `StoreHistory` of the store,
  `Runs` defines runs and shows that every request is such a step.
- **Answers.** `Answers`, `Loading`, `Changes` and `Resources` say of every request, for every input,
  when it is refused and with which error, and otherwise what it answers and stores. They speak of
  record fields, the functions of the crypto suite and literal limits, not of the functions that
  the requests are built from, so that the two descriptions check each other.
- **Theorems.** `Safety` (keys over all runs), `Issued` and `Rotation` (ciphertexts and MACs over all
  runs), `AliasTyping`, `TagQuota`, `Listing`, `KeyListing` and `HandlerListing` (pagination),
  `Recovery`, and `Witnesses`, concrete runs for the surprises below.
- **Foundations.** `Wrappers`, `ByteStrings`, `Names`, `Crypto`, `Ciphertext`, `Pages`.

A run is a sequence of events, each a request with the time, the length of the year that
`AddDate(1, 0, 0)` adds, and the random data drawn. The clock never runs backwards and drawn ids
are fresh UUIDs; nothing else is assumed of a run. The cryptographic libraries are function
parameters; the only laws used are that opening undoes sealing and that AES-GCM adds 16 bytes,
the interface of sections 2.1 and 2.2 of RFC 5116.

## Where the code does not do what one would expect

The first four are proved with their exact conditions and at a concrete input.

- The writer of ciphertext headers accepts ARNs up to 255 bytes (src/cmk/aes_encryption.go:80);
  the reader's uint8 offsets wrap from 251 on and its length check from 250 on
  (src/service/ciphertext.go:18-34). Decrypt of such a blob panics (`Ciphertext.UnpackOfPack`,
  `Issued.DecryptSealed`, `Witnesses.LongArnPanics`). A long region name suffices.
- Expiry overwrites PendingDeletion with PendingImport while the deletion date stays
  (`Safety.ExpiryOverwritesPendingDeletion`, `Witnesses.ExpiryOverwritesReachably`).
- Scheduling the deletion of an EXTERNAL key that has no material yet, cancelling and enabling it
  makes it usable, and Encrypt panics (`Safety.StepKeepsMaterial`, `Witnesses.PanicIsReachable`).
- The recovery scan takes an alias whose name contains `/tag/` for a tag, and a grant for a key
  (`Recovery.TakenFor`, `Witnesses.AliasTakenForTag`).
- A comment calls the backing key at index 0 the most recent one (src/cmk/hmac_key.go:141). After a
  rotation it is the oldest; GenerateMac keeps using it.
- ListResourceTags answers an invalid marker with an internal failure; the other listings have an
  error of their own.

Loading a key twice at one time is the same as loading it once in every state that is reached from
the empty store (`Safety.ReachableLoadsNormalise`). On arbitrary records there is one exception, an
HMAC key without KeySpec that is both overdue for rotation and expired (`Store.LoadKeyNormalises`).
The record that shows it (`Store.LegacyHmacRotatesLate`) is made by hand: neither CreateKey nor
seeding writes an HMAC key without KeySpec.

## Model

| member | source | states |
|---|---|---|
| `Issued.EveryBlobIsSealed` | src/cmk/aes_encryption.go:57-58 | Whichever writes fail and whatever request issues it (Encrypt, GenerateDataKey, GenerateDataKeyPair, ReEncrypt from any source), a blob of an AES key is only ever issued under the last backing key of the stored record, at its version, and encrypts the text and context of the request |
| `Issued.UsableKeySeals` | src/handler/generate_data_key_pair.go:158-164 | Any key that getUsableKey hands out seals any text under its last stored backing key, so the same holds for every handler that calls EncryptAndPackage |
| `Issued.ReEncryptSeals` | src/handler/re_encrypt.go:53-130 | ReEncrypt from an RSA ciphertext or any other source into an AES key: the blob encrypts the text that was decrypted |
| `Issued.BlobSize` | src/handler/encrypt.go:63-69 | A blob is exactly 33 bytes longer than its ARN and plaintext, so at most 4384 bytes for what Encrypt takes, below what Decrypt and ReEncrypt accept |
| `Issued.DecryptSealed` | src/handler/decrypt.go:40-124 | Exactly what Decrypt without KeyId answers for such a blob: plaintext and ARN if the key is usable, access denied if not, a panic for ARNs over 250 bytes, a validation error over 6144 bytes |
| `Issued.DecryptSealedWithKeyId` | src/handler/decrypt.go:40-100 | The same with a KeyId by id, ARN or alias; a key of another ARN is refused |
| `Issued.SealedTextIsNeverLost` | src/handler/decrypt.go:63-124 | The same answer after any run whatsoever with any pattern of failing writes, as long as the key record exists |
| `Issued.SealedTextWithKeyId` | src/handler/decrypt.go:63-100 | After any run, Decrypt with a KeyId by id, ARN or alias, retargeted or not: the text if it leads to the blob's usable key, access denied for another AES key, the key's own error if unusable |
| `Issued.IssuedTextIsNeverLost` | src/handler/decrypt.go:63-124 | After any run with any failing writes, if the key still exists and is usable, Decrypt of a blob that any request issued returns the text and the ARN, for ARNs up to 250 bytes and blobs up to 6144 |
| `Issued.EncryptedTextIsNeverLost` | src/handler/decrypt.go:63-124 | For Encrypt without any bound on the blob: what it encrypts is never too long |
| `Issued.VersionsFit` | src/service/safeconv.go:13-21 | While the bound on the number of backing keys fits 32 bits, Decrypt of a blob never meets the version overflow panic |
| `Issued.ReEncryptKeepsMeaning` | src/handler/re_encrypt.go:56-127 | Re-encrypting such a blob into an AES key gives such a blob of the same plaintext under the destination context |
| `Issued.ChainKeepsMeaning` | src/handler/re_encrypt.go:56-127 | The same along chains of any length with any run between the hops |
| `Issued.ChainDecrypts` | src/handler/decrypt.go:77-124 | Decrypt of the last blob of a chain under the last context answers the first plaintext |
| `Issued.GenerateMacIssuesGenuine` | src/handler/generate_mac.go:78-93 | Every MAC is issued under a backing key of the stored record |
| `Issued.MacsStayValid` | src/cmk/hmac_key.go:131-169 | Every MAC verifies in every later state in which its key is usable, across rotations and re-imports |
| `Issued.FailedChangeIsUndone` | src/handler/rotate_key_on_demand.go:71-84 | A key-changing request that is not answered with success leaves the store as the load left it |
| `Issued.UnsavedLoadIsRefused` | src/data/database_key.go:47-65 | With a failing write the stored record stays as it was, and the key is handed out if and only if neither rotation nor purge nor expiry was due |
| `Issued.BlobCarriesLastVersion` | src/cmk/aes_encryption.go:57-58 | Whatever request issues a blob of an AES key, up to 250-byte ARNs: unpacking it gives that ARN, a version that is the number of stored backing keys less one, and a ciphertext sealed by that last key |
| `Answers.UsableExactly` | src/handler/helpers.go:55-86 | When getUsableKey hands a key out, and which error it gives otherwise, by the fields of the record |
| `Answers.DecryptAnswersExactly` | src/cmk/aes_encryption.go:13-51 | For every blob that unpacks to a usable AES key with at most 2^32 - 1 backing keys: Decrypt answers a plaintext if and only if the stored backing key of the blob's version opens the ciphertext behind its 12-byte nonce under the context's additional data, and InvalidCiphertext otherwise: another context or a changed byte that does not open is refused |
| `Answers.DecryptWithKeyIdAnswersExactly` | src/handler/decrypt.go:63-119 | The same with a KeyId that leads to that key; a blob that names another key, or does not unpack, is refused |
| `Answers.OtherKeysDecryptByBlob` | src/handler/decrypt.go:77-158 | Without a KeyId: blobs that do not unpack, and keys of the other types |
| `Answers.OtherKeysDecrypt` | src/handler/decrypt.go:121-158 | With a KeyId of a key of another type: RSA keys open what their library opens, with OAEP only; the rest refuse |
| `Answers.EncryptAnswersExactly` | src/handler/encrypt.go:63-112 | When Encrypt with a usable AES key succeeds, and the bytes it issues: the documented layout with the number of the last backing key, sealed by it |
| `Answers.OtherKeysEncrypt` | src/handler/encrypt.go:114-141 | Encrypt with keys of the other types: RSA up to 190 to 470 bytes by spec and algorithm, the rest never |
| `Answers.DataKeyAnswersExactly` | src/handler/generate_data_key.go:98-142 | When GenerateDataKey succeeds, the bytes it issues, and that the secret is the one sealed |
| `Answers.GenerateMacAnswersExactly` | src/handler/generate_mac.go:34-93 | The HMAC under the first backing key, only for a usable, enabled HMAC key that supports the algorithm and has material |
| `Answers.VerifyMacAnswersExactly` | src/cmk/hmac_key.go:147-169 | VerifyMac answers true if and only if some backing key of the stored record yields the MAC, and false otherwise: a forged MAC is refused |
| `Answers.ReEncryptReadsExactly` | src/handler/re_encrypt.go:30-105 | The first half of ReEncrypt, for every blob: goes on with exactly the text that the ciphertext opens to under the source context, and refuses otherwise |
| `Answers.ReEncryptWritesExactly` | src/handler/re_encrypt.go:107-160 | The second half: the bytes it issues under the last backing key of the destination, and its refusals |
| `Rotation.RotationIsStored` | src/handler/rotate_key_on_demand.go:71-84 | A successful RotateKeyOnDemand leaves the drawn key as the last of the stored backing keys, behind all those before it |
| `Rotation.OldKeysSealNoMore` | src/cmk/aes_encryption.go:57-58 | From a successful RotateKeyOnDemand on, in every run: a blob issued by that key carries a version above all earlier ones and is sealed by the stored backing key of that version; the drawn key keeps its place for good |
| `Rotation.NextEncryptUsesDrawnKey` | src/handler/encrypt.go:88-104 | The next Encrypt, if no rotation is due on its load, carries exactly the new version and is sealed by the drawn key |
| `Safety.NoOverdueLegacyKey` | src/data/database_key.go:82-91 | No key that satisfies the lifecycle invariants is that exception: expiring material means EXTERNAL, and EXTERNAL keys have no rotation date |
| `Safety.ReachableLoadsNormalise` | src/data/database_key.go:29-96 | In every state reached from the empty store, with writes succeeding, a second load at the same time answers the same and changes nothing, without exception |
| `Safety.NextStep` | src/data/database_key.go:75-91 | One event of a run keeps the run invariant; keys evolve, are purged past their date, or are new under a name never used before |
| `Safety.RunOnlyExtends` | src/cmk/aes_key.go:92-127 | Over runs of any length and any pattern of failing writes, a key still in the store is the same key and its backing keys were only extended at the end; a purged key never comes back |
| `Safety.RunKeepsConsistent` | src/handler/import_key_material.go:177-185 | Every reachable state satisfies the lifecycle invariant |
| `Safety.RequestsKeepInSync` | src/handler/cancel_key_deletion.go:55-57 | No request separates the deletion date from the PendingDeletion state |
| `Safety.ExpiryOverwritesPendingDeletion` | src/data/database_key.go:83-91 | Loading separates them if and only if the material of a key pending deletion expires; only EXTERNAL keys get there, and they become PendingImport with the date still set |
| `Safety.ExternalMaterialIsNeverReplaced` | src/cmk/aes_key.go:79-87 | In runs that start with none that does, as the empty store, no EXTERNAL key ever holds a second backing key, and the one it holds is never replaced |
| `Safety.BackingKeysAreBounded` | src/cmk/aes_key.go:92-127 | Over a run of any time T a key gains at most 25 backing keys on demand, one and one per 365 days by automatic rotation, and one by a first import |
| `Safety.RotationsAreAYearApart` | src/cmk/aes_key.go:92-103 | If an event rotates a key automatically and by the end of the run that follows it has been rotated again, whatever disabling, enabling and loading came in between, then more than 365 days have passed |
| `Safety.OnlyLoadingRotates` | src/handler/enable_key_rotation.go:84-86 | What counts as automatic: the rotation on loading a key with material does, no request does |
| `Safety.RunKeepsLimits` | src/cmk/aes_key.go:111-127 | In every reachable state no key was rotated on demand more than 25 times |
| `Safety.RunKeepsUsages` | src/handler/create_key.go:135-205 | In every reachable state every key has a usage |
| `Safety.PurgedKeyWasScheduled` | src/handler/schedule_key_deletion.go:33-85 | No event removes a key before its stored deletion date, and that date was set by a successful ScheduleKeyDeletion of that very key with a window of 7 to 30 days, and neither cancelled nor changed since |
| `Safety.NewDateIsScheduled` | src/handler/schedule_key_deletion.go:49-85 | A key gets a new deletion date from a successful ScheduleKeyDeletion that names it, and from nothing else |
| `Safety.NonExternalKeysHaveMaterial` | src/data/data_validation.go:12-18 | In every run an AES key that is not EXTERNAL has material |
| `Safety.StepKeepsMaterial` | src/handler/schedule_key_deletion.go:33-79 | An event leaves an AES key without material outside PendingImport if and only if it is a ScheduleKeyDeletion with a window of 7 to 30 days of a stored EXTERNAL AES key without material that is not pending deletion yet, and the disk takes the write |
| `Safety.UsableKeysHaveMaterial` | src/cmk/aes_encryption.go:57-58 | In a run that never does that, every AES key that getUsableKey hands out has material, so the index of the last backing key is in range |
| `Safety.UsableOwnKeysHaveMaterial` | src/data/data_validation.go:12-18 | In every run at all, every AES key that is not EXTERNAL and that getUsableKey hands out has material |
| `Safety.HollowKeyPanics` | src/handler/enable_key.go:38-53 | Cancelling and enabling such a key makes it usable, and Encrypt panics |
| `Safety.EveryReachableState` | src/data/database_key.go:15-27 | Every state reached from the empty store satisfies the invariants that the theorems start from: names, lifecycle, single EXTERNAL material, material on save, at most 25 on-demand rotations, UUID ids, usages |
| `Loading.OverdueKeyIsRotated` | src/data/database_key.go:47-55 | An AES or HMAC key whose rotation date has passed, with nothing else due: the record with one more backing key and a date one year ahead is stored before it is handed out; if the write fails it is not handed out |
| `Loading.RotatesExactlyWhenDue` | src/cmk/aes_key.go:92-107 | A load changes the backing keys if and only if the date had passed and the disk took the write, and then by exactly the drawn key at the end |
| `Loading.OverdueKeyIsPurged` | src/data/database_key.go:73-81 | A key past its deletion date is never handed out, and its record is gone if and only if the write for that succeeded |
| `Loading.PurgesOnlyWhenDue` | src/data/database_key.go:73-81 | Loading deletes no other key |
| `Loading.ExpiredKeyIsPendingImport` | src/data/database_key.go:82-91 | Expired material: the key is stored and handed out disabled and pending import, or not at all |
| `Loading.RotatedThenExpired` | src/data/database_key.go:47-91 | Both due: rotation first, then expiry, each with its own write |
| `Loading.QuietLoad` | src/data/database_key.go:57-96 | Nothing due: the store stays as it is, and the stored record is handed out, with its KeySpec filled in |
| `Changes.EnableKeyExactly` | src/handler/enable_key.go:31-68 | For every loadable key: refused when pending deletion or import, else the record with exactly two fields changed, if it can be saved |
| `Changes.DisableKeyExactly` | src/handler/disable_key.go:31-68 | The same for disabling |
| `Changes.ScheduleKeyDeletionExactly` | src/handler/schedule_key_deletion.go:31-95 | A window of 7 to 30 days, 30 if absent, of 86400 seconds each, ahead of now; refused when pending already |
| `Changes.CancelKeyDeletionExactly` | src/handler/cancel_key_deletion.go:32-74 | Only for a key pending deletion, which ends disabled and without a date |
| `Changes.StateAndUse` | src/handler/helpers.go:55-86 | What these four do to the usability of the key |
| `Changes.DeleteImportedKeyMaterialExactly` | src/handler/delete_imported_key_material.go:29-93 | Only for EXTERNAL keys in a fitting state; the material stays in the record |
| `Changes.GetParametersForImportExactly` | src/handler/get_parameters_for_import.go:78-162 | Only for symmetric EXTERNAL keys; the new token and wrapping key replace the old ones and end after 24 hours |
| `Changes.ImportKeyMaterialExactly` | src/handler/import_key_material.go:60-201 | Every refusal in order (expiration, origin, state, type, token, deadline, unwrapping, size, other material), and otherwise the record with the material as its first backing key |
| `Changes.OtherTokenIsRefused` | src/handler/import_key_material.go:144-147 | An import with another token than the last one given out is refused and changes no record beyond the load |
| `Changes.RotateKeyOnDemandExactly` | src/handler/rotate_key_on_demand.go:31-94 | The first 25 rotations each add the drawn key at the end, the next is refused |
| `Changes.EnableKeyRotationExactly` | src/handler/enable_key_rotation.go:33-101 | A date one year ahead unless there is one |
| `Changes.DisableKeyRotationExactly` | src/handler/disable_key_rotation.go:33-99 | No date any more |
| `Changes.RotationAndLoading` | src/cmk/aes_key.go:92-103 | What the two mean for later loads: due after exactly that year, or never |
| `Changes.UpdateKeyDescriptionExactly` | src/handler/update_key_description.go:34-81 | At most 8192 bytes, not with a deletion date, one field changed |
| `Changes.PutKeyPolicyExactly` | src/handler/put_key_policy.go:41-75 | At most 32768 bytes, any loadable key, one field changed |
| `Changes.NoKeyToChange` | src/handler/schedule_key_deletion.go:33-61 | Requests out of order are refused before a load, and keys that cannot be loaded are not found, without any change beyond the load |
| `Resources.IdLeadsToKey` | src/config/config.go:73-81 | A key id and the key's ARN lead to the same record |
| `Resources.AliasLeadsToTarget` | src/handler/helpers.go:16-42 | An alias name and its ARN lead to the key that the stored alias names; a name without a record leads nowhere |
| `Resources.CreateAliasExactly` | src/handler/create_alias.go:42-124 | Every refusal in order, and the exact record that is stored |
| `Resources.UpdateAliasExactly` | src/handler/update_alias.go:39-148 | Every refusal in order, the two loads one after the other, and the exact record that is stored |
| `Resources.DeleteAliasExactly` | src/handler/delete_alias.go:30-66 | Every refusal in order, and that exactly this record goes |
| `Resources.CreatedAliasLeads` | src/handler/create_alias.go:95-120 | After a successful CreateAlias the alias and the id of the key lead to the same key |
| `Resources.DeletedAliasLeadsNowhere` | src/handler/delete_alias.go:57-66 | After a successful DeleteAlias the name leads nowhere |
| `Resources.TagResourceExactly` | src/handler/tag_resource.go:32-96 | Refused for a reserved key, a key or value out of bounds, no key, a key pending deletion, or stored tags and tags with new keys adding up to more than 50; otherwise the tags before the first failing write are stored, the last value of each key, and nothing else changes |
| `Resources.UntagResourceExactly` | src/handler/untag_resource.go:32-57 | The named tags before the first failing write are gone, and nothing else changes |
| `Resources.CreateKeyExactly` | src/handler/create_key.go:37-242 | Every refusal, the record of a new key field by field, and its tags up to the first failing write; the key stays even if a tag could not be stored |
| `Resources.CreateGrantExactly` | src/handler/create_grant.go:56-129 | Refused without a key or with a deletion date; the stored grant carries the key's ARN |
| `Resources.RevokeGrantExactly` | src/handler/revoke_grant.go:36-58 | Only a grant of the named key is deleted, and only that record |
| `Resources.RetireGrantExactly` | src/handler/retire_grant.go:30-64 | A stored grant that carries the token, and is the named one of the named key if those are given, is deleted; refused otherwise |
| `Witnesses.PanicIsReachable` | src/handler/cancel_key_deletion.go:46-57 | For every configuration and id: a concrete run from the empty store without a failing write after which Encrypt panics |
| `Witnesses.LongArnPanics` | src/service/ciphertext.go:13-34 | For every configuration and id that give an ARN of 251 to 255 bytes: a run in which Encrypt issues a blob and Decrypt of it panics |
| `Witnesses.LongArnExists` | src/config/config.go:69-71 | A region of 185 bytes, a 12-digit account and a UUID give an ARN of 251 bytes |
| `Witnesses.ExpiryOverwritesReachably` | src/data/database_key.go:82-91 | For every configuration and id: a concrete run in which an imported key pending deletion ends PendingImport with its deletion date set |
| `Witnesses.AliasTakenForTag` | src/data/data_recovery.go:39-50 | CreateAlias takes the name alias/a/tag/b, and the recovery scan takes that alias for a tag |
| `AliasTyping.CreatedAliasIsTyped` | src/handler/create_alias.go:73-115 | An alias created on an existing key starts with that key's usage and type |
| `AliasTyping.AliasKeepsUsageAndType` | src/handler/update_alias.go:75-137 | Until its deletion every key the alias is pointed at has that usage and type, as long as the key exists |
| `AliasTyping.AliasLife` | src/handler/update_alias.go:75-137 | The whole life of an alias in any run from the empty store: from its creation on an existing key until its deletion it stands for keys of that usage and type |
| `AliasTyping.RequestKeeps` | src/handler/update_alias.go:136-139 | Every request keeps an alias record as it is, except UpdateAlias and DeleteAlias of that alias |
| `HandlerListing.LoadedAgain` | src/data/database_key.go:29-96 | After a load that handed out the key, whichever writes fail from then on, loading again at the same time changes nothing |
| `HandlerListing.FollowingListRequests` | src/handler/list_resource_tags.go:54-94 | ListAliases, ListGrants, ListRetirableGrants and ListResourceTags as wholes: although every call loads the key, which may rotate it or expire its material, following the next markers yields exactly the plain sorted list as it was before the first call |
| `HandlerListing.ReachableListRequests` | src/handler/list_aliases.go:46-105 | The same in every state reached from the empty store, with no condition but that the first call finds the key |
| `HandlerListing.ListRefusals` | src/handler/list_grants.go:38-64 | Limits outside 1 to 100, or 1 to 1000 for tags, are refused before a load; a key that cannot be loaded is not found |
| `KeyListing.FollowingKeysListsLiveKeys` | src/handler/list_keys.go:47-80 | Following the next markers at one instant, while each call purges what it passes and any deletion may fail, lists exactly the keys that have not reached their deletion date, in order, each once |
| `KeyListing.KeyMarkerRejected` | src/data/database_key.go:119-149 | A key marker is rejected if and only if it is not empty and names no key in the store; a key past its deletion date is still a valid marker while it is there |
| `KeyListing.ListingOnlyPurges` | src/data/database_key.go:131-136 | ListKeys deletes keys past their deletion date and touches no other record |
| `KeyListing.EntriesAreStored` | src/handler/list_keys.go:55-95 | Whatever the marker: at most `limit` entries, each with the ARN and id of a stored key that has not reached its deletion date |
| `Listing.FollowingMarkersListsAll` | src/handler/list_aliases.go:69-105 | Aliases, grants and tags: following the next markers yields exactly the sorted list of the matching records, each once and in order, cut into pages of `limit` |
| `Listing.MarkerRejectedExactly` | src/data/database_tag.go:36-75 | Aliases, grants and tags: a marker is rejected if and only if it is not empty and names no record of that kind, with InvalidMarker, or an internal failure for tags |
| `Listing.CalledAtPosition` | src/handler/list_resource_tags.go:67-94 | One call shows the plain list from its marker on, and the marker it hands out stands for the entry after the page |
| `Listing.KeyRange` | src/data/database_key.go:114-117 | In the range of the keys the names that contain `/tag/` are exactly those of tags, so the loop skips no key and lists no tag |
| `Listing.TokenFindsGrant` | src/data/database_grant.go:49-69 | Searching by token finds a stored grant that carries it, and fails only if there is none |
| `Listing.AnswersAreStored` | src/data/database_grant.go:71-102 | Whatever the marker: at most `limit` aliases, grants or tags, each exactly as it is stored and with every field that was asked for |
| `TagQuota.TagResourceQuota` | src/handler/tag_resource.go:54-93 | After TagResource with a non-empty list that got as far as saving, even if a write failed midway, the key has at most 50 tags and at most the old count plus newCount; on success exactly one more for each distinct new key |
| `TagQuota.LastValueIsStored` | src/handler/helpers.go:136-152 | On success every tag of the request is stored with the last value given for its key |
| `TagQuota.SavedOthers` | src/handler/helpers.go:136-152 | Saving tags leaves the records under all other names as they were |
| `Recovery.RawDatabase.ScanForCorruption` | src/data/data_recovery.go:29-72 | Reports exactly the records whose decoder fails, in order, with one counter per kind |
| `Recovery.CountersSum` | src/data/data_recovery.go:16-22 | The three counters sum to the number of entries, and no entry repeats |
| `Recovery.RawDatabase.RemoveCorrupted` | cmd/recovery/main.go:90-98 | The removal loop goes on after a failed deletion and counts the deletions that succeeded |
| `Recovery.RescanReportsTheRest` | cmd/recovery/main.go:90-101 | Whichever deletions fail, every sound record stays as it was, and a rescan reports exactly the entries that were not deleted |
| `Recovery.RescanIsEmpty` | cmd/recovery/main.go:90-101 | If no deletion fails the rescan is empty |
| `Recovery.TakenFor` | src/data/data_recovery.go:24-60 | For which kind the scan takes each record: an alias whose name contains `/tag/` is taken for a tag, a grant for a key, all else for what it is |
| `Recovery.ReportedExactly` | src/data/data_recovery.go:29-72 | A record is reported if and only if the decoder that its name calls for rejects it |
| `Recovery.CleanupDeletesEach` | cmd/recovery/main.go:90-98 | An entry is gone if and only if its own deletion succeeds: the loop goes on after a failure |
| `Ciphertext.UnpackOfPack` | src/service/ciphertext.go:13-37 | Exactly what the reader makes of every blob the writer accepts: the same fields for ARNs up to 250 bytes and non-empty ciphertext, a panic exactly for ARNs of 251 to 255 bytes, an error for an empty ciphertext behind a shorter ARN |
| `Ciphertext.PackOfUnpack` | src/service/ciphertext.go:7-38 | For arbitrary bytes: exactly when the reader indexes out of range (never for a first byte up to 249), exactly when it accepts, and re-writing what it accepts gives the same bytes back |
| `Ciphertext.UnpackFields` | src/service/ciphertext.go:22-34 | As long as no uint8 offset wraps, the fields are the byte ranges of the documented layout |
| `Ciphertext.LittleEndianRoundTrip` | src/cmk/aes_encryption.go:84-85 | Reading back a 32-bit little-endian version gives the version |
| `Ciphertext.FromLittleEndianInverse` | src/service/ciphertext.go:28-29 | Writing the version read from four bytes gives the four bytes, and it fits 32 bits |
| `Ciphertext.LittleEndianIsPositional` | src/cmk/aes_encryption.go:84-85 | The low byte comes first, both ways |
| `Crypto.LawfulSuiteExists` | src/cmk/aes_encryption.go:95-118 | The AEAD laws assumed of the cryptographic functions (open undoes seal, the tag is 16 bytes) can be met |
| `Crypto.PrepareAesEncryptionContext` | src/cmk/aes_encryption.go:128-151 | Whatever order the map is iterated in, collecting, sorting and appending yields the bytes determined by the map alone: the least name, its value, then those of the rest |
| `Crypto.ContextOrderIrrelevant` | src/cmk/aes_encryption.go:134-148 | Any two enumerations of the same names, sorted in any way, give the same additional data: the sorted permutation is unique |
| `Crypto.ContextBytesHold` | src/cmk/aes_encryption.go:145-148 | What the additional data holds: the least name and its value, then the additional data of the rest of the context; nothing for the empty context |
| `Crypto.ContextBytesLength` | src/cmk/aes_encryption.go:128-151 | Its length is that of all names and values together |
| `Names.StorageNameInjective` | src/data/database_grant.go:10-26 | Storage names of keys, aliases, tags (even with `/tag/` inside a tag key) and grants are injective within a kind and disjoint between kinds: equal names mean the same subject |
| `Names.KeyArnIsDirect` | src/config/config.go:69-81 | A full key ARN is left alone by EnsureArn whatever the prefix, and is never taken for an alias name |
| `Store.LoadKeyNormalises` | src/data/database_key.go:29-96 | At a fixed clock with writes succeeding, a second load gives the same answer and changes nothing, if and only if the key is not a legacy HMAC key (no KeySpec) that is both overdue for rotation and expired |
| `Store.LegacyHmacRotatesLate` | src/data/database_key.go:57-71 | The exception at a hand-made record, which neither creation nor seeding writes: an expired HMAC_256 key without KeySpec rotates on the second load only, since the first finds no key size before it migrates the KeySpec |
| `Pages.ScanLoopIsScan` | src/data/database_grant.go:108-148 | The shared loop with its counter and pastMarker flag computes the marker's suffix of the range, filtered, cut at the limit, and rejects exactly an invalid marker |
| `Pages.MarkerRejected` | src/data/database_grant.go:141-145 | A marker is rejected if and only if it is not empty and names no entry of the range |
| `Pages.PageAtPosition` | src/handler/list_grants.go:66-91 | The page a handler cuts from one result more than asked is the plain filtered list from the marker on, and its next marker is the entry after it |
| `Pages.FollowingListsAll` | src/handler/list_grants.go:86-91 | Once for all listings: calls that serve a list from wherever their marker points, followed from the start through changing stores, end within one call per entry and one more and yield exactly the list, cut every `limit` |
| `Pages.PageMembers` | src/handler/list_grants.go:82-91 | A page holds no more than was asked for, and only entries that the filter keeps |
| `Runs.HandleStep` | src/handler/re_encrypt.go:56-127 | Every request other than CreateKey lets stored keys evolve or purges them past their date, creates none, and keeps every record under the name computed from its own fields |
| `Runs.CreateKeyStep` | src/handler/create_key.go:219-236 | CreateKey adds its initial record under a name never used before, or no key at all |
| `StoreHistory.LoadStep` | src/data/database_key.go:29-96 | Whichever of its writes fail, LoadKey only lets the key evolve or purges it past its date, leaves all else, and what it returns is in the store |
| `StoreHistory.UsableKeyStep` | src/handler/helpers.go:55-86 | A key that getUsableKey hands out is in the store under its ARN and is the key that was there before |
| `StoreHistory.KeyChangedStep` | src/handler/rotate_key_on_demand.go:71-84 | A key-changing request as a whole is such a step on the store, whichever writes fail |
| `StoreHistory.KeyChangedTouchesOneRecord` | src/handler/enable_key.go:31-62 | A key-changing request leaves every record but that of the key it names exactly as it was, whichever writes fail |
| `StoreHistory.LoadTouchesOneRecord` | src/data/database_key.go:75-91 | LoadKey changes or deletes the record of that key at most, and deletes it only past its deletion date |
| `StoreHistory.GetKeyTouchesOneRecord` | src/handler/helpers.go:16-49 | getKey touches at most the record of the key that the id or alias leads to |
| `StoreHistory.RecordUnderName` | src/data/database_key.go:26 | Under a name computed from a subject there is a record about that subject or none |
| `KeyHistory.ApplyGrows` | src/handler/import_key_material.go:172-185 | Every key-changing request keeps identity, usage, type and origin, and only extends the backing keys at the end |
| `KeyHistory.ApplyKeepsConsistent` | src/handler/delete_imported_key_material.go:74-77 | Every key-changing request keeps the lifecycle invariant: enabled iff state Enabled, pending deletion implies a date (and conversely for keys that are not EXTERNAL), validTo set iff the model is KEY_MATERIAL_EXPIRES and only on EXTERNAL keys, PendingImport implies no validTo, Unavailable never |
| `KeyHistory.ApplyEvolves` | src/handler/schedule_key_deletion.go:72-74 | The whole step relation of a request on one key: growth, invariants, where a deletion date may come from, rotation spacing, the on-demand limit |
| `KeyHistory.RotationEvolves` | src/data/database_key.go:47-65 | The same for the rotation on loading |
| `KeyHistory.ExpiryEvolves` | src/data/database_key.go:82-91 | The same for the expiry on loading |
| `Keys.Key.RotateIfNeeded` | src/cmk/aes_key.go:92-107 | An AES key, or an HMAC key of known size, whose rotation date has passed gains the drawn backing key at the end and a date one year ahead; any other is unchanged |
| `Keys.Key.RotateOnDemand` | src/cmk/aes_key.go:111-127 | Below 25 on-demand rotations the drawn key is appended and counted; at 25 the key is unchanged and the call fails |
| `Keys.Key.ImportKeyMaterial` | src/cmk/hmac_key.go:82-108 | Fails on a wrong size or on material that differs from the first backing key; otherwise the material is the first backing key afterwards and nothing else changed |
| `Keys.Key.EncryptAndPackage` | src/cmk/aes_encryption.go:55-93 | The blob is, byte by byte, the ARN's length and the ARN, the number of the last backing key and what that key seals; no backing key panics, an ARN over 255 bytes is an error |
| `Keys.Key.Decrypt` | src/cmk/aes_encryption.go:13-51 | The text if and only if the backing key at the given version opens the ciphertext; a version out of range, a short ciphertext or a failed authentication is an error |
| `Keys.Key.GenerateMac` | src/cmk/hmac_key.go:131-145 | The MAC under the first backing key, an error without one or for an unknown algorithm |
| `Keys.Key.VerifyMac` | src/cmk/hmac_key.go:147-169 | The loop answers true if and only if some stored backing key yields that MAC, false otherwise, and an error only without material or for an unknown algorithm |
| `Databases.Database.Put` | src/data/database.go:60-65 | A failing write changes no record; a succeeding one sets exactly one |
| `Databases.Database.DeleteObject` | src/data/database.go:53-58 | A failing deletion changes no record; a succeeding one removes exactly one |
| `Databases.Database.SaveKey` | src/data/database_key.go:15-27 | An AES key of the service's own origin without backing keys is refused; any other record is written under its ARN unless the write fails |
| `Databases.Database.LoadKey` | src/data/database_key.go:29-96 | Rotates, migrates, purges or expires what it reads, in that order, and hands out nothing if a save on the way fails: the function that `Loading` states case by case |
| `Databases.Database.ListKeys` | src/data/database_key.go:104-151 | The loop with its counter and flag is the recursion that skips tags, purges keys past their deletion date and collects the rest up to the limit |
| `Databases.Database.ListAlias` | src/data/database_alias.go:43-85 | The loop returns the aliases from the marker on that match the key, in order, up to the limit, and fails exactly on an invalid marker |
| `Databases.Database.CountTags` | src/data/database_tag.go:26-34 | The number of records in the key's tag range |
| `Databases.Database.ListTags` | src/data/database_tag.go:36-75 | The loop returns the tags from the marker on, in order, up to the limit, and fails exactly on an invalid marker |
| `Databases.Database.FindGrantByToken` | src/data/database_grant.go:49-69 | The first grant in storage order that carries the token |
| `Databases.Database.ScanGrants` | src/data/database_grant.go:104-148 | The loop returns the grants from the marker on that pass the filter, in order, up to the limit, and fails exactly on an invalid marker |
| `Handlers.RequestHandler.GetKey` | src/handler/helpers.go:16-49 | Maps an alias to its target and loads the key by ARN; nothing for every error |
| `Handlers.RequestHandler.GetUsableKey` | src/handler/helpers.go:55-86 | Hands out the loaded key unless it is pending import, has a deletion date or is disabled, checked in this order |
| `Handlers.RequestHandler.EnableKey` | src/handler/enable_key.go:31-68 | Refused when pending deletion or import, else saved as Enabled |
| `Handlers.RequestHandler.DisableKey` | src/handler/disable_key.go:31-68 | Refused when pending deletion or import, else saved as Disabled |
| `Handlers.RequestHandler.ScheduleKeyDeletion` | src/handler/schedule_key_deletion.go:31-95 | Window 7 to 30 days, default 30; refused when already pending; else saved with the date that many days ahead |
| `Handlers.RequestHandler.CancelKeyDeletion` | src/handler/cancel_key_deletion.go:32-74 | Refused unless pending deletion, else saved as Disabled without a date |
| `Handlers.RequestHandler.DeleteImportedKeyMaterial` | src/handler/delete_imported_key_material.go:29-93 | EXTERNAL keys not pending deletion become PendingImport; the material stays |
| `Handlers.RequestHandler.ImportKeyMaterial` | src/handler/import_key_material.go:60-201 | All checks in order, then the material is imported and the key enabled with the requested expiration |
| `Handlers.RequestHandler.GetParametersForImport` | src/handler/get_parameters_for_import.go:78-162 | EXTERNAL keys get a new token and wrapping key valid for 24 hours |
| `Handlers.RequestHandler.RotateKeyOnDemand` | src/handler/rotate_key_on_demand.go:31-94 | AES keys of the service's own origin that are enabled gain a backing key, up to the limit, if the save succeeds |
| `Handlers.RequestHandler.EnableKeyRotation` | src/handler/enable_key_rotation.go:33-101 | Sets the rotation date a year ahead unless one is set |
| `Handlers.RequestHandler.DisableKeyRotation` | src/handler/disable_key_rotation.go:33-99 | Clears the rotation date |
| `Handlers.RequestHandler.UpdateKeyDescription` | src/handler/update_key_description.go:34-81 | At most 8192 bytes; refused with a deletion date |
| `Handlers.RequestHandler.PutKeyPolicy` | src/handler/put_key_policy.go:41-75 | At most 32768 bytes; any loadable key |
| `Handlers.RequestHandler.CreateKey` | src/handler/create_key.go:37-242 | The checks in order, the initial record by origin, spec and usage, then key and tags are saved |
| `Handlers.RequestHandler.TagResource` | src/handler/tag_resource.go:32-96 | Validation, load, quota over stored and new tag keys, then the tags are saved in order |
| `Handlers.RequestHandler.UntagResource` | src/handler/untag_resource.go:32-57 | Deletes the named tags in order, up to the first failing write |
| `Handlers.RequestHandler.Encrypt` | src/handler/encrypt.go:55-141 | Size limits, usable key, then AES packaging or RSA with its own size limit |
| `Handlers.RequestHandler.GenerateDataKey` | src/handler/generate_data_key.go:98-142 | Usable AES key, then the drawn secret is packaged under it |
| `Handlers.RequestHandler.Decrypt` | src/handler/decrypt.go:32-158 | Key by request or by blob, ARN match, then opening by key type |
| `Handlers.RequestHandler.ReEncrypt` | src/handler/re_encrypt.go:30-160 | Unpacking whose success is ignored, source key, plaintext, destination key, new blob |
| `Handlers.RequestHandler.GenerateMac` | src/handler/generate_mac.go:34-93 | Usable enabled HMAC key that supports the algorithm |
| `Handlers.RequestHandler.VerifyMac` | src/handler/verify_mac.go:38-97 | The same checks, then whether some backing key yields the MAC |
| `Handlers.RequestHandler.CreateAlias` | src/handler/create_alias.go:42-124 | Name checks, existing key without deletion date, no such alias yet |
| `Handlers.RequestHandler.UpdateAlias` | src/handler/update_alias.go:39-148 | Both keys exist, same usage and type, target without deletion date |
| `Handlers.RequestHandler.DeleteAlias` | src/handler/delete_alias.go:30-66 | Name checks, existing alias, deletion |
| `Handlers.RequestHandler.CreateGrant` | src/handler/create_grant.go:56-129 | Loadable key without deletion date; the grant carries its ARN |
| `Handlers.RequestHandler.RevokeGrant` | src/handler/revoke_grant.go:36-58 | The grant must exist and belong to the key |
| `Handlers.RequestHandler.RetireGrant` | src/handler/retire_grant.go:30-64 | Retiring by token, with the optional grant id and key checked |
| `Handlers.RequestHandler.ListKeys` | src/handler/list_keys.go:35-95 | Limit 1 to 1000, scan for one more, cut it off as the next marker |
| `Handlers.RequestHandler.ListAliases` | src/handler/list_aliases.go:34-123 | Limit 1 to 100, optional key loaded by id, scan for one more, cut it off |
| `Handlers.RequestHandler.ListGrants` | src/handler/list_grants.go:38-102 | Limit 1 to 100, key loaded, filter by its ARN, scan for one more, cut it off |
| `Handlers.RequestHandler.ListRetirableGrants` | src/handler/list_retirable_grants.go:38-94 | Limit 1 to 100, filter by retiring principals, scan for one more, cut it off |
| `Handlers.RequestHandler.ListResourceTags` | src/handler/list_resource_tags.go:39-98 | Limit 1 to 1000, key loaded by id, scan for one more, cut it off; an invalid marker is an internal failure |

## Left out

- Databases.Database.LoadKey: decoding always succeeds; a record of another kind reads as a key with zero fields, as its JSON has none of a key's fields. `Recovery` treats decoding as an arbitrary predicate instead.
- Answers.OtherKeysEncrypt: RSA keys are taken to have one of the three RSA specs; CreateKey makes no others.
- Resources.RetireGrantExactly: if several stored grants carry the token, it does not say which of them is taken; `Databases.Database.FindGrantByToken` does.
- Databases.Database.Put: LevelDB, fsync and the disk-space system call are one bit for each write, success or failure without effect.
- Handlers.RequestHandler.TagResource: on a name that resolves to a record that is not a key, tags are saved against an empty ARN, as the code does; these records are covered by the naming and quota theorems.
- Handlers.RequestHandler.ScheduleKeyDeletion: the deletion date is exact in nanoseconds, a day has 86400 seconds; the source's float64 rounding and daylight-saving changes are not modelled.
- Keys.Key.RotateIfNeeded: a year has 365 or 366 days, chosen by the environment.
- Ciphertext.PackOfUnpack: Go lets a slice expression reach up to the capacity of the backing array; here the bound is the length, so a panic here may be a read of spare capacity there.
- Issued.IssuedTextIsNeverLost: RSA ciphertexts are not covered; RSA, HMAC and unwrapping are functions without laws.
- Issued.DecryptSealedWithKeyId: the answer is stated for usable AES keys and for unusable keys; `Answers.OtherKeysDecrypt` has the other types.
- AliasTyping.AliasKeepsUsageAndType: starts from a key that has a usage; `AliasTyping.AliasLife` discharges that for runs from the empty store, not for seeded keys without one.
- Interleaving of concurrent requests: the handlers take no lock, so each request is one atomic step at one instant, which the source does not enforce.
- Missing request fields, their validation messages, HTTP dispatch, JSON, YAML and base64 coding, logging: plumbing.
- Sign, Verify, GetPublicKey, GenerateRandom: thin layers over libraries.
- Handlers.RequestHandler.GenerateDataKey: starts once the length or the key pair spec is accepted, with the drawn secret as a parameter; GenerateDataKeyPair is the same from there on.
- Grant names, operations and constraints, key creation dates: stored and shown only.
- RetireGrant by key and grant id: the same steps as RevokeGrant.
- Seeding and restarts: they only supply initial states; the run theorems start from any state that satisfies their invariants.
- Generation of RSA and ECC keys, x509 and PEM parsing: private keys are opaque bytes.
- The concatenation of the encryption context has no separators, so different contexts may give the same bytes; the additional data is characterised (`Crypto.ContextBytesHold`), injectivity is not claimed.
- The four Go key types, which share one interface, are one class told apart by its key type.
