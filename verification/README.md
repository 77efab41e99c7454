# Verified model of the token library's core

This project models the parts of the Microsoft Authentication Library for Go that carry state, recursion or
interleaving, and proves what they promise. It follows the code; where the code does not keep a promise, the
model keeps the code and a lemma says exactly when the promise holds.

## What is modelled

**The JSON codec** (`JsonText`, `JsonStream`, `GoTypes`, `Marshal`, `Unmarshal`, `Decoder`, `RoundTrip`, `Codec`,
`BasicFields`, `Preserve`). Go types are a schema datatype, the output buffer is a class over lexical tokens, and the
standard decoder is a token stream with the standard library's own state. The printer appends a comma after everything
and truncates. The decoder is three mutually recursive state machines over one stream. Decoding undoes printing
exactly for clean and settled values, and it is exact which members unknown to the struct a document keeps when it is
loaded and saved again. `BasicFields` says what null and values of another sort do to strings, numbers and booleans.

**The token cache** (`Items`, `Scopes`, `Upgrade`, `Storage`, `OldKeys`, `StorageUse`, `CacheFields`, `Partitioned`,
`PartitionedUse`, `PartitionedFields`). The flat and the partitioned manager are classes over maps; Go's map order is
a contract that leaves the choice open. Their methods are tied to functions and relations on their contents, and what
holds over whole runs is proved about those. The window in which a reader has dropped its read lock is a run of steps
by others. `OldKeys` says exactly what a cache that still holds mixed-case keys can do to a read. `CacheFields` and
`PartitionedFields` say field by field what an answer holds, in terms of the responses that were written and the
request that is answered.

**The cache file** (`Records`, `CacheColumns`, `CacheFile`, `CacheText`). The codec, put to the use it exists for: the
flat cache's contract is written to a file and read from it, and comes back exactly if no item in it is empty.
`CacheText` says what is in the file, name by name.

**Silent acquisition** (`Refresh`, `RefreshUse`, `SilentKeys`). The refresh protocol is a step machine for any number
of calls, with one flag for each tenant as the caller spelled it; `RefreshUse` says over its runs what each call hands
out and when it asks the identity provider. `SilentKeys` follows one call and logs what it asks of the external cache.

**Endpoint resolution** (`Endpoints`, `Resolver`, `ResolverUse`). The cache, issuer validation and alias lookup are
imperative; the protocol of check, join or lead, check again, discover, validate, cache and publish is a step machine,
and `ResolverUse` says over its runs what each caller gets, failures included.

**Claims and cache keys** (`Claims`, `ClaimsMerge`, `ClaimsRequest`, `CacheExtKey`). The two merges work in place on
heap objects, and are proved against a merge of values that is characterised path by path. `CacheExtKey` proves the
length-prefixed encoding injective with a parser for it.

**Two loops** (`Retry`, `DeviceCode`): the managed identity retry loop with its resources, and device code polling.

`Wrappers`, `Strings` and `MapOrder` are shared by the rest. Lemmas that Dafny would prove by automatic induction have
it switched off: in Dafny 4.11 its hypothesis takes terms of any type to be defined, from which `false` can follow.

## What turned out not to hold

- A struct that emits no member prints as a lone `}` (`Codec.EmptyStructUnreadable`), and nil containers come back
  empty; `RoundTrip.RoundTrips`, `RoundTrip.SameValueBack` and `Preserve.LoadSaveLoad` say exactly when values come
  back.
- One empty item makes the whole cache file unreadable, although saving it succeeds. A saved cache can be loaded, and is
  then the same, exactly if no item is empty (`CacheFile.SavedLoads`); every cache that runs on authorities with a host
  lead to is such a one (`CacheFile.RunSurvivesFile`).
- A document that names the collecting field itself can lose unknown members (`Preserve.BlockDropsUnknown`);
  `Preserve.UnknownMembersKept` says exactly which documents keep them.
- A stored scope that is repeated lets through scopes that were never granted (`Scopes.RepeatLetsThrough`); counting is
  right exactly without repeats (`Scopes.CountingExact`).
- The upgrade of an old key can trade a token that answers the request for another that does not, because both share
  the lowercase key, which leaves out the key ID (`OldKeys.UpgradeTradesToken`). Every token that a read may find
  answers the request exactly if no upgrade does that (`OldKeys.FoundFitsExactly`).
- Removing an account can change what another user's read finds: what goes may have stood in the way of an upgrade. It
  changes nothing exactly if it did not (`OldKeys.ReadElsewhere`), as in every cache without old keys.
- Spelling one tenant in two ways, or leaving it out in one place, gives it two flags, so a secret can be refreshed
  twice (`Refresh.ReplacedTwice`); with one spelling it cannot (`Refresh.AtMostOnceExactly`).
- `merge` is complete only for single-key chains (`Claims.CompleteExactly`), which is what capabilities are.
- Claims that are the single JSON value `null` make `MergeCapabilitiesAndClaims` write into a nil map
  (the `Crashed` outcome of `ClaimsRequest.MergeCapabilitiesAndClaims`).
- A second assertion of the same user hides the ID token and account of the first (`PartitionedUse.SecondAssertion`).
  They are found exactly if they were put and only ever replaced by others for the same assertion
  (`PartitionedUse.ReadInRun`): the last write decides (`PartitionedUse.LastIDTokenDecides`, `LastAccountDecides`).
- A silent call of a user whose new token is for another account than it asked for reads one partition and writes
  back another (`SilentKeys.Client.OneKeyExactly`).
- After a write-back on behalf of a user the flat manager is exported, although the partitioned one was written. The
  manager that was written is the one exported exactly if the call is not on behalf of a user or gets no new token as
  far as the export (`SilentKeys.Client.ExportExactly`).
- A wait that is cancelled hands out a response whose body is still open: the body of the last attempt is released
  exactly if its answer is final or no attempt is left (`Retry.Transport.Retry`).

## Model

| member | source | states |
|---|---|---|
| Marshal.MarshalStruct | apps/internal/json/marshal.go:17-97 | Appends exactly the canonical text of the struct to what the buffer already held, and succeeds exactly when no nil pointer has to be followed. The trailing-comma discipline is what the loop invariant is about. |
| Marshal.WriteField | apps/internal/json/marshal.go:54-91 | One turn of the field loop adds nothing, the block of unknown members, or one member, and leaves a comma after whatever it added. |
| Records.MembersWritten | apps/internal/json/marshal.go:54-91 | A printed struct has a member under the JSON name of a field exactly if the field is public and not left out for being zero. |
| Marshal.WriteMember | apps/internal/json/marshal.go:80-101 | A quoted key, the text of the value, and a comma, whatever the value is. |
| Marshal.Close | apps/internal/json/marshal.go:93-94 | Truncating one byte and closing turns a comma-terminated list into an object, and an empty one into a lone closing brace. |
| Marshal.MarshalValue | apps/internal/json/marshal.go:99-123 | The recursive cases together append the canonical text of any supported value. |
| Marshal.MarshalMap | apps/internal/json/marshal.go:125-190 | A map of any element type appends its canonical text: empty maps, and maps of basic types and of pointers to them, which the standard encoder writes as a whole, included. |
| Marshal.EncodeMap | apps/internal/json/marshal.go:192-227 | The loop over a non-empty map, in any enumeration order, appends every entry once. |
| Marshal.MarshalSlice | apps/internal/json/marshal.go:229-295 | A slice of any element type appends its canonical text, with the same cases. |
| Marshal.EncodeSlice | apps/internal/json/marshal.go:297-325 | The loop over a non-empty slice appends its elements in order. |
| Marshal.WriteAddFields | apps/internal/json/marshal.go:329-346 | The block of unknown members holds every one of them once, separated and not followed by commas. |
| Unmarshal.ReadsText | apps/internal/json/struct.go:53-196 | On the text of any document, well formed or not, followed by anything: the struct machine computes what the document means for the type, and stops right behind the value. |
| Unmarshal.ReadsMap | apps/internal/json/mapslice.go:33-159 | The same for the map machine. |
| Unmarshal.ReadsSlice | apps/internal/json/mapslice.go:200-315 | The same for the slice machine. |
| Decoder.StructDecoder.Run | apps/internal/json/struct.go:53-65 | The loop over state functions ends, on a measure of remaining tokens and state, with what the machine computes. |
| Decoder.StructDecoder.First | apps/internal/json/struct.go:68-84 | The first state accepts an opening brace and nothing else, and goes on to the keys. |
| Decoder.StructDecoder.NextKey | apps/internal/json/struct.go:87-103 | The state between members keeps what the rest of the run will give. |
| Decoder.StructDecoder.Store | apps/internal/json/struct.go:107-182 | Storing a member into its field keeps what the rest of the run will give. |
| Decoder.StructDecoder.StoreUnknown | apps/internal/json/struct.go:185-196 | Storing an unknown member keeps what the rest of the run will give. |
| Decoder.MapWalk.Run | apps/internal/json/mapslice.go:33-45 | The map loop ends with what the map machine computes. |
| Decoder.MapWalk.NextKey | apps/internal/json/mapslice.go:87-102 | The state between entries keeps what the rest of the run will give. |
| Decoder.MapWalk.Store | apps/internal/json/mapslice.go:104-159 | Storing an entry, of any element type, keeps what the rest of the run will give. |
| Decoder.SliceWalk.Run | apps/internal/json/mapslice.go:200-212 | The slice loop ends with what the slice machine computes. |
| Decoder.SliceWalk.NextElem | apps/internal/json/mapslice.go:253-260 | The state between elements keeps what the rest of the run will give. |
| Decoder.SliceWalk.Store | apps/internal/json/mapslice.go:262-315 | Storing an element keeps what the rest of the run will give. |
| Decoder.ReadInto | apps/internal/json/struct.go:13-39 | Decoding into a variable of any type from the shared token stream gives what the machines compute and leaves the stream where they leave it; what that is for basic types, null included, is in the rows of `BasicFields`. |
| Decoder.UnmarshalMap | apps/internal/json/mapslice.go:13-85 | The same for a map, with the standard library reading maps of basic types and of pointers to them; null gives a nil map of basic types, and an empty one of types with their own unmarshalers and of composites. |
| Decoder.UnmarshalSlice | apps/internal/json/mapslice.go:176-251 | The same for a slice; null gives a nil slice of basic types, and leaves one of types with their own unmarshalers or of composites as it was. |
| BasicFields.TargetIs | apps/internal/json/struct.go:107-118 | The key of a member leads to the field whose JSON name it is, or else to the one whose Go name it is, and to no other. |
| BasicFields.NullKeeps | apps/internal/json/struct.go:163-181 | Null for a field that is a string, a number or a boolean changes nothing, wherever it stands among any other members. |
| BasicFields.NullKeepsText | apps/internal/json/struct.go:53-196 | The same for the text of a whole document: it is decoded as if the member were not there. |
| BasicFields.WrongSortFails | apps/internal/json/struct.go:163-181 | Anything else but a value of its sort there fails the whole load. |
| BasicFields.LastDecides | apps/internal/json/struct.go:107-181 | After any load such a field holds what the last member for it that is not null said, or what it held before. |
| BasicFields.MapOfBasics | apps/internal/json/mapslice.go:47-85 | A map of strings, numbers or booleans is read exactly if all its members are null or of the sort; each key holds what its last member says, zero for null. |
| BasicFields.SliceOfBasics | apps/internal/json/mapslice.go:214-251 | A slice of them, likewise, in order. |
| BasicFields.NullPointers | apps/internal/json/struct.go:119-181 | Null leaves a pointer to a basic type on what it led to, or on a new zero value, and makes one to a type with its own unmarshaler nil. |
| BasicFields.NullContainers | apps/internal/json/struct.go:132-161 | Null makes a container of basic types nil and one of structs empty, and is no struct. |
| RoundTrip.RoundTrips | apps/internal/json/marshal.go:17-346 | For every supported type and value: decoding the printed document gives back the normal form of the value if and only if every written struct has something to write and no unknown member carries a name that leads to a field; otherwise it does not give back the value itself either. |
| RoundTrip.SameValueBack | apps/internal/json/struct.go:53-196 | Decoding the printed document gives back that very value if and only if it is clean and settled: what is not written is zero, no written container is nil, no pointer leads to a value that writes null, and inside containers an empty slice of composites is nil. |
| RoundTrip.NormalIsSame | apps/internal/json/mapslice.go:13-315 | A value is its own normal form exactly if it is settled, at every depth. |
| Codec.MarshalValue | apps/internal/json/json.go:41-56 | The entry point succeeds exactly on printable values, with the canonical text. |
| Codec.UnmarshalValue | apps/internal/json/json.go:74-88 | The entry point leaves the variable alone on empty input and otherwise gives what the struct machine gives. |
| Codec.PrintedReadsBack | apps/internal/json/struct.go:53-196 | The token stream holding a printed value and then anything is decoded to the normal form and left at the rest, if and only if the value is clean; to the value itself, if and only if it is settled as well. |
| Codec.SaveAndLoad | apps/internal/json/json.go:41-88 | Marshal and then Unmarshal gives the normal form if and only if the value is printable and clean, and the same value if and only if it is settled as well. |
| Codec.EmptyStructUnreadable | apps/internal/json/marshal.go:93-94 | A concrete struct that prints as a lone closing brace and cannot be read back. |
| Preserve.UnknownMembersKept | apps/internal/json/struct.go:107-196 | Load then save, for every document: what is saved holds exactly the unknown members of the document, each with its last value, if and only if the last member that leads to the collecting field, if there is one, says about each unknown key what the members before it said, or a later member overrules it. |
| Preserve.UnknownMembersSaved | apps/internal/json/struct.go:107-196 | Load then save, for every document and every unknown key: what is saved has a member with that key exactly for the last one behind all members that lead to the collecting field, or else for what the last such member's own object holds. |
| Preserve.BlockDropsUnknown | apps/internal/json/struct.go:139-147 | A concrete document with an unknown member that loading loses, because a later member spells out an empty collection. |
| Preserve.LoadCollects | apps/internal/json/struct.go:87-196 | The same for loading alone, into a variable that already holds collected members: they shine through only if no member leads to the collecting field. |
| Preserve.SaveWrites | apps/internal/json/marshal.go:62-70 | Saving writes a member with an unknown key exactly for what was collected under it. |
| Preserve.LoadTidy | apps/internal/json/struct.go:107-196 | Loading any document into a value of the type leaves a value of the type; if no member puts a field's name among the unknown members, no such name is there afterwards, at any depth. |
| Preserve.LoadSaveLoad | apps/internal/json/json.go:41-88 | Load, save, load, for every document: the second load gives the normal form of the first, or the same value, exactly as for any value; and for documents that put no field's name among the unknown members it fails only on a written struct that has nothing to write. |
| Preserve.LoadAndSave | apps/internal/json/json.go:41-88 | Unmarshal and then Marshal, for every document: fails exactly when loading or printing does, and its text is that of a document of the loaded value, which has kept the unknown members under the exact condition above. |
| Items.KeyShowsExtra | apps/internal/base/storage/items.go:107-125 | The key of an access token contains its extra cache key in lower case, which is what the flat cache searches for. |
| Items.AccessKeyText | apps/internal/base/storage/items.go:106-126 | The text of an access token's key: the six parts, the token type unless it is the bearer type, and the extra cache key if there is one, which also changes the kind. |
| Items.OtherKeysText | apps/internal/base/storage/items.go:189-223 | The texts of the keys of refresh tokens, ID tokens, accounts and app metadata. |
| Scopes.IsMatchingScopes | apps/internal/base/storage/storage.go:71-83 | The nested counting loops decide whether there are as many pairs of equal scopes as requested scopes. |
| Scopes.CountingExact | apps/internal/base/storage/storage.go:71-83 | Counting decides inclusion for every request if and only if the stored scopes hold no case-insensitive repeats. |
| Scopes.CountingIsInclusion | apps/internal/base/storage/storage.go:71-83 | Without repeats the count accepts exactly the requests whose scopes are all stored. |
| Scopes.RepeatLetsThrough | apps/internal/base/storage/storage.go:71-83 | A concrete stored repeat with which a scope is accepted that was never granted. |
| Scopes.FindDeclinedScopes | apps/internal/oauth/ops/accesstokens/tokens.go:308-321 | The declined scopes are the requested ones without an equal granted one, in the order of the request. |
| Scopes.NoneDeclined | apps/internal/oauth/ops/accesstokens/tokens.go:308-321 | Nothing is declined if and only if every requested scope was granted. |
| Scopes.ComputeScope | apps/internal/oauth/ops/accesstokens/tokens.go:252-259 | A response without scopes counts as all requested granted; nothing is declined if and only if all requested are among the granted. |
| Scopes.ChecksAgree | apps/internal/oauth/ops/accesstokens/tokens.go:308-321 | The response check and the cache check agree on every request if and only if the granted scopes hold no case-insensitive repeats. |
| Upgrade.FindFirst | apps/internal/base/storage/storage.go:324-369 | The scan common to all readers: no match and nothing changed, or some matching entry, upgraded if its key is old. |
| Upgrade.UpgradeKeepsView | apps/internal/base/storage/storage.go:98-116 | An upgrade never shows a value that was not there, loses no lowercase key, and with one old variant for each lowercase key changes nothing that can be seen. |
| Upgrade.UpgradesConfluent | apps/internal/base/storage/storage.go:98-116 | Any two orders of upgrading the same old keys reach the same cache when each lowercase key has at most one old variant. |
| Upgrade.ReaderNeverZero | apps/internal/base/storage/storage.go:351-358 | Whatever writes and upgrades run while a reader waits for the write lock, its upgrade gives the entry it scanned, one under the same lowercase key, or one written there meanwhile; never a zero value. |
| Storage.Manager.Write | apps/internal/base/storage/storage.go:172-250 | The whole new cache, map by map: which entries are stored under which keys, an unusable access token left out, and all else as before. |
| Storage.WriteKeeps | apps/internal/base/storage/storage.go:172-250 | A write keeps each entry under a spelling of its own key, and brings in no old key. |
| Storage.Manager.WriteAccessToken | apps/internal/base/storage/storage.go:371-377 | One entry under its own lowercase key, and nothing else. |
| Storage.Manager.WriteRefreshToken | apps/internal/base/storage/storage.go:434-440 | The same for refresh tokens. |
| Storage.Manager.WriteIDToken | apps/internal/base/storage/storage.go:461-467 | The same for ID tokens. |
| Storage.Manager.WriteAccount | apps/internal/base/storage/storage.go:518-525 | The same for accounts. |
| Storage.Manager.WriteAppMetaData | apps/internal/base/storage/storage.go:544-550 | The same for app metadata. |
| Storage.Manager.Read | apps/internal/base/storage/storage.go:119-167 | All that a read may answer and the whole cache it leaves behind: without a user an access token only; with one, a scan for each kind of item, and for refresh tokens one that follows the family found in the app metadata. |
| Storage.ReadKeeps | apps/internal/base/storage/storage.go:119-167 | Whatever a read finds, it keeps each entry under a spelling of its own key, and changes nothing in a cache without old keys. |
| Storage.Manager.ReadAccessToken | apps/internal/base/storage/storage.go:324-369 | A matching access token if there is one, upgraded if need be; nothing changes otherwise. |
| Storage.Manager.ReadRefreshToken | apps/internal/base/storage/storage.go:379-424 | Outside a family the own token is preferred to a family token, inside it the other way round; a token is found if either matches. |
| Storage.Manager.ReadIDToken | apps/internal/base/storage/storage.go:442-459 | A matching ID token if there is one. |
| Storage.Manager.ReadAccount | apps/internal/base/storage/storage.go:494-516 | A matching account if there is one. |
| Storage.Manager.ReadAppMetaData | apps/internal/base/storage/storage.go:527-542 | Matching app metadata if there are any. |
| Storage.DeleteAll | apps/internal/base/storage/storage.go:560-610 | Deleting while ranging over the map, in any order, leaves exactly the entries that were not picked. |
| Storage.Manager.RemoveAccount | apps/internal/base/storage/storage.go:553-558 | The whole new cache: exactly the account's access tokens, ID tokens and accounts go, and its refresh tokens of this client or of a family; every other entry and the app metadata stay. |
| OldKeys.FoundFitsExactly | apps/internal/base/storage/storage.go:324-369 | In every cache keyed by its values: every access token that a read may find matches the request under its own key if and only if no matching entry under an old key stands beside one under the same key in lower case that does not match. |
| OldKeys.UpgradeTradesToken | apps/internal/base/storage/storage.go:98-116 | Two tokens of one user bound to different keys, one under an old key and one under the same key in lower case, with which a request that names the first is handed the second. |
| OldKeys.ReadElsewhere | apps/internal/base/storage/storage.go:553-610 | For another user or environment: everything that a read may answer and leave behind after the removal could have been answered and left without it, if and only if no entry that goes stands in the way of an upgrade that the read may come to; without old keys none does. |
| StorageUse.WrittenTokenMatches | apps/internal/base/storage/storage.go:324-369 | The token stored for a response matches any request with the same identity, covered scopes and the same extra cache key. |
| StorageUse.ReadServes | apps/internal/base/storage/storage.go:324-369 | Whatever access token a read finds in any cache keyed by its values: its own key contains the extra cache key of the request, and if no upgrade trades a matching token for one that does not match, it matches the request under its own key. In a cache without old keys it is stored and matches under its own map key. |
| StorageUse.ReadAfterWrite | apps/internal/base/storage/storage.go:119-250 | A read right after a write of a usable token finds an access token. In every cache keyed by its values its key contains the request's extra cache key, and all tokens that may be found match the request if and only if no upgrade trades a match for a mismatch; the write brings about no such upgrade. In a cache without old keys what is found is a stored token that matches. |
| StorageUse.AcquireThenReadSilently | apps/internal/oauth/ops/accesstokens/tokens.go:252-259 | What was declined, and that the answer is a read of the cache with the granted scopes written to it: if nothing was declined and the granted scopes are distinct and hold no space, an access token is found. In every cache keyed by its values the same exact condition says when whatever may be found matches the request, and no upgrade that spoiled nothing before the write spoils anything after it. |
| StorageUse.ReadAfterRemove | apps/internal/base/storage/storage.go:553-610 | After removing an account from any cache, a read for that user and client under the account's environment finds no access, ID or refresh token and no account. |
| StorageUse.Run | apps/internal/base/storage/storage.go:119-250 | A run of any operations on the manager goes through a sequence of caches, each a step of the operation from the one before, with the answers of its reads. |
| StorageUse.RunKeeps | apps/internal/base/storage/storage.go:98-116 | In every run from a cache keyed by its values all caches are so; from one without old keys, such as the empty one, none ever needs an upgrade, and the caches are what the writes and removals alone make of it. |
| StorageUse.HeldAfter | apps/internal/base/storage/storage.go:371-377 | After any operations on the empty cache its access tokens are exactly those that were stored and not replaced under their key or removed with their account since. |
| StorageUse.ReadInRun | apps/internal/base/storage/storage.go:119-167 | In any run from the empty cache a silent request finds an access token if and only if one that matches it was stored before and not replaced or removed since, and it finds such a one. |
| CacheFields.ReadsExactly | apps/internal/base/storage/storage.go:119-167 | In a cache without old keys: of access tokens, ID tokens and accounts something is found exactly if the cache has one for the user, tenant, client, environment, token type, scopes and extra cache key of the request, and what is found is such a one. |
| CacheFields.RefreshExactly | apps/internal/base/storage/storage.go:379-424 | A refresh token is found exactly if the client is known and there is one of the user's for the client or for a family; inside a family one of a family is preferred, and outside the client's own. |
| CacheFields.RemovedExactly | apps/internal/base/storage/storage.go:553-610 | Entry by entry what a removal takes: all of the account in that environment, but of its refresh tokens only those of the client and of families. |
| CacheFields.FoundInRun | apps/internal/base/storage/storage.go:119-250 | In any run from the empty cache: every field of every item in an answer is what one response before it said, in time when it came, for the user, tenant, client and extra cache key of the request and with its scopes among those granted. |
| CacheFields.WrittenThenRead | apps/internal/base/storage/storage.go:119-250 | A write to a new cache and a read by the same user: an access token exactly if the response brought one in time, a refresh token, ID token and account exactly if it brought those, each with all the fields of the response. |
| Records.RecordClean | apps/internal/json/marshal.go:54-94 | A struct whose fields are all left out when zero is clean exactly if some field is not zero and all that are not are clean. |
| Records.RecordBack | apps/internal/json/struct.go:107-196 | Such a struct with a nil or empty block of unknown members, printed and loaded over a zero one, with settled values comes back as it was, the block nil, if and only if it is clean. |
| CacheColumns.ContractColumns | apps/internal/base/storage/items.go:22-30 | The fields of the contract and of the five kinds of items are ones that the codec supports and tells apart by name. |
| CacheFile.Save | apps/internal/base/storage/storage.go:621-625 | Saving succeeds for every cache, with the text of a document of its contract. |
| CacheFile.Load | apps/internal/base/storage/storage.go:628-642 | Loading replaces the whole contents by what the file holds, or changes nothing, exactly if the file cannot be read. |
| CacheFile.FileLoads | apps/internal/base/storage/storage.go:621-642 | Every document that a cache may be written as, loaded over an empty contract, means that cache's contract if no item is empty, and fails otherwise. |
| CacheFile.SavedLoads | apps/internal/base/storage/storage.go:621-642 | What is saved of a cache holds exactly that cache if no item in it is empty, and cannot be read at all otherwise. |
| CacheFile.SaveAndLoad | apps/internal/base/storage/storage.go:621-642 | Saving one manager and loading it into another succeeds exactly if no item is empty, and gives the other one the same contents; otherwise the other stays as it was. |
| CacheFile.EmptyItemFails | apps/internal/json/marshal.go:93-94 | One empty item of any kind leaves a text in its map that no decoding can read. |
| CacheFile.RunSurvivesFile | apps/internal/base/storage/storage.go:119-250 | Whatever writes, reads and removals ran on a new cache, for authorities with a host: every cache of the run is read back from its file as it was. |
| CacheText.FileSays | apps/internal/base/storage/items.go:22-223 | The file of a cache without empty items holds each item under its kind and its key, as an object that has each text of the item under its JSON name, times in seconds, and nothing under the names of empty ones. |
| Partitioned.PartitionedManager.Write | apps/internal/base/storage/partitioned_storage.go:88-180 | The whole new cache; a rejected access token ends the write after the refresh token was stored, and nothing else is. |
| Partitioned.WriteKeeps | apps/internal/base/storage/partitioned_storage.go:88-180 | Every write keeps each item in the partition that its own hash or home account names. |
| Partitioned.PartitionedManager.ReadAccessToken | apps/internal/base/storage/partitioned_storage.go:254-281 | Succeeds exactly when an unpartitioned scan finds a match. |
| Partitioned.PartitionedManager.ReadRefreshToken | apps/internal/base/storage/partitioned_storage.go:302-341 | The same, with the order of preference between own and family tokens. |
| Partitioned.PartitionedManager.ReadIDToken | apps/internal/base/storage/partitioned_storage.go:354-365 | Succeeds exactly when some ID token of that home account matches anywhere. |
| Partitioned.PartitionedManager.ReadAccount | apps/internal/base/storage/partitioned_storage.go:378-394 | Succeeds exactly when some account with that home account matches anywhere. |
| Partitioned.PartitionedManager.ReadAppMetaData | apps/internal/base/storage/partitioned_storage.go:407-417 | Matching app metadata if there are any. |
| Partitioned.PartitionedManager.Read | apps/internal/base/storage/partitioned_storage.go:39-85 | All parts of a read in terms of unpartitioned scans, the ID token and account following the home account found before them. |
| PartitionedUse.Run | apps/internal/base/storage/partitioned_storage.go:88-180 | A run of any writes on the new manager ends with the contents that the writes, folded over the empty cache, give. |
| PartitionedUse.AfterIs | apps/internal/base/storage/partitioned_storage.go:88-180 | After any run of writes the contents are valid, and of each kind exactly what its writes left. |
| PartitionedUse.PutAllExact | apps/internal/base/storage/partitioned_storage.go:367-405 | An item is stored after a run if and only if some write put it and no later one put another in the same partition under the same key. |
| PartitionedUse.ReadInRun | apps/internal/base/storage/partitioned_storage.go:39-85 | After any run of writes a request finds an access token if and only if one that matches it was put and only ever replaced by another such; so also the ID token of that home account, and the account. |
| PartitionedUse.OwnItemsOnly | apps/internal/base/storage/partitioned_storage.go:39-85 | After any run of writes the tokens, the ID token and the account that a request gets were all written on behalf of that very assertion and have not been replaced since. |
| PartitionedUse.ReadAfterWrite | apps/internal/base/storage/partitioned_storage.go:39-180 | A read right after an accepted write to any cache finds a matching access token for the same assertion, and if it is that user's, the ID token and the account as well. |
| PartitionedUse.LastIDTokenDecides | apps/internal/base/storage/partitioned_storage.go:354-376 | After any run, a request whose access token is found at its host also finds an ID token if and only if the last write of one for that user, client, tenant and host was made on behalf of the request's own assertion. |
| PartitionedUse.LastAccountDecides | apps/internal/base/storage/partitioned_storage.go:378-405 | With an ID token found, the account is found if and only if the last write of one for that user, tenant and host, of whatever client, was made on behalf of the request's own assertion. |
| PartitionedUse.SecondAssertion | apps/internal/base/storage/partitioned_storage.go:367-405 | When the same user comes with a second assertion, the first one still finds its access token but no ID token and no account, because their keys leave out the assertion. |
| PartitionedFields.ReadsExactly | apps/internal/base/storage/partitioned_storage.go:39-85 | In any cache: of access tokens, ID tokens and accounts something is found exactly if there is one for the assertion, tenant, client, environment, token type, scopes and extra cache key of the request, the ID token of the access token's user and the account of the ID token's. |
| PartitionedFields.RefreshExactly | apps/internal/base/storage/partitioned_storage.go:302-341 | A refresh token is found exactly if the client is known and there is one for the assertion, with the same preference for families. |
| PartitionedFields.FoundInRun | apps/internal/base/storage/partitioned_storage.go:39-180 | After any run of writes: every field of every item in an answer is what one response said that was written on behalf of the very assertion, and fits the request. |
| PartitionedFields.WrittenThenRead | apps/internal/base/storage/partitioned_storage.go:39-180 | A write to a new cache and a read for the same assertion: what is found of each kind, exactly, with all the fields of the response; after a token that was out of time nothing is. |
| Refresh.FlagsAlwaysExact | apps/internal/base/base.go:399-427 | Over every interleaving a tenant's flag is set exactly while one call with that tenant ID is between winning the swap and returning, and never two. |
| Refresh.SafeRun | apps/internal/base/base.go:399-427 | In every run of sound steps with one spelling of each tenant, no replaced secret comes back or is about to be replaced again. |
| Refresh.AtMostOnceExactly | apps/internal/base/base.go:399-427 | In every run each secret is replaced by at most one successful proactive refresh if and only if callers sharing a cache entry spell its tenant in one way. |
| Refresh.ReplacedTwice | apps/internal/base/base.go:399-427 | For any two spellings of one tenant, a run in which both callers refresh the same secret. |
| RefreshUse.ReadDecides | apps/internal/base/base.go:399-443 | In every run: a call goes to the identity provider exactly if it has claims or the cache has no token for it with five minutes left; it fetches its tenant's flag exactly if that token is due for a refresh, and otherwise hands it out. |
| RefreshUse.NewTokenStored | apps/internal/base/base.go:545-573 | A new token is in the cache after its call wrote it exactly if it was in time then, nothing else changes, and the call hands it out either way. |
| RefreshUse.HandsOut | apps/internal/base/base.go:355-446 | In every run: a token served from the cache was there for the call when it first read, in time and without claims, and if it was due there was a reason not to replace it; a token from the identity provider was given to this very call; a call fails only when refused. |
| RefreshUse.AsksProvider | apps/internal/base/base.go:331-446 | In every run: a call redeems its refresh token only if it first found nothing that it may use, and refreshes ahead of time only a token that was due. |
| Endpoints.AliasesFromMetadata | apps/internal/oauth/resolvers.go:119-132 | The aliases of the first metadata entry that mentions the host, ignoring case; none if no entry does. |
| Endpoints.TenantFilledIn | apps/internal/oauth/resolvers.go:75-81 | In each of the three URLs of a document, however often it has the placeholder, the tenant takes the place of every one of them and nothing else changes, each into its own part. |
| Endpoints.EveryUrlCuts | apps/internal/oauth/resolvers.go:75-81 | Every URL is some pieces without the placeholder, joined by it, so that the row above says what becomes of any document. |
| Endpoints.ValidateIssuerMatchesAuthority | apps/internal/oauth/ops/authority/authority.go:119-162 | Accepts exactly issuers with the authority's scheme and host, an alias, a trusted host, or the host that the authority is a regional variant of; any order of the aliases. |
| Endpoints.AlwaysTrusted | apps/internal/oauth/ops/authority/authority.go:56-80 | The issuers that are accepted for every authority, aliases or not, are exactly those at the thirteen hosts of the public and the national clouds. |
| Endpoints.AuthorityEndpoint.CachedEndpoints | apps/internal/oauth/resolvers.go:101-117 | A cached entry is a hit whatever its list of domains says. |
| Endpoints.AuthorityEndpoint.AddCachedEndpoints | apps/internal/oauth/resolvers.go:134-155 | The whole new cache: one entry for the URI with the endpoints, for ADFS valid for the domains seen before and exactly the caller's own, and all other entries as before. |
| Endpoints.AdfsDomainIs | apps/internal/oauth/resolvers.go:180-186 | The domain of a user name is what follows its first `@`, up to the next; there is none without. |
| Endpoints.AuthorityEndpoint.Discover | apps/internal/oauth/resolvers.go:55-91 | A hit is returned and nothing changes; otherwise endpoints are returned and cached, with no other change, exactly when the replies pass response and issuer validation. |
| Resolver.OneLeaderKept | apps/internal/oauth/resolvers.go:54-91 | Each step keeps that a URI has a singleflight group exactly while one call leads it. |
| Resolver.AtMostOneDiscovery | apps/internal/oauth/resolvers.go:48-98 | Over every interleaving a URI has at most one successful discovery and one cache write, and only validated endpoints are cached. |
| Resolver.SameEndpoints | apps/internal/oauth/resolvers.go:48-98 | All calls for one URI that succeed return the same endpoints. |
| Resolver.OneAtATime | apps/internal/oauth/resolvers.go:54-91 | At any moment at most one call for each URI talks to the network. |
| ResolverUse.HitReturns | apps/internal/oauth/resolvers.go:48-52 | In every run: a call that finds its authority in the cache returns that at once, and otherwise joins the group. |
| ResolverUse.FollowerShares | apps/internal/oauth/resolvers.go:54-97 | In every run: a call that waited for another one of the same URI returns exactly what that one published and returned, failures included. |
| ResolverUse.LeaderReturns | apps/internal/oauth/resolvers.go:56-91 | In every run: the call that got the replies returns endpoints exactly if they validate, and just those. |
| ResolverUse.FailsOnlyOnReplies | apps/internal/oauth/resolvers.go:54-97 | In every run: a call fails only if some discovery for its URI had replies that do not validate. |
| ResolverUse.NobodyStuck | apps/internal/oauth/resolvers.go:48-98 | In every run: a call that has not returned can go on, waits for the network, or waits for a call of the same URI that does not wait for another. |
| Claims.DeepMergedLeaves | apps/internal/oauth/ops/authority/authority.go:434-447 | A leaf is in the merge if and only if it is in the source, or in the destination at a path where the source has nothing and no non-object on the way. |
| Claims.MergeOnlyAdds | apps/internal/oauth/ops/authority/authority.go:450-473 | Merging capabilities never changes a leaf of the claims, even when it fails, and what it adds comes from the capabilities at a path with room. |
| Claims.CompleteExactly | apps/internal/oauth/ops/authority/authority.go:450-473 | A reported success means a complete merge, for all claims and key orders, if and only if the capabilities are a single key at each level down to a level of non-objects. |
| Claims.ChainMerge | apps/internal/oauth/ops/authority/authority.go:450-473 | For the chain that client capabilities form, the merge succeeds if and only if the claims have no non-object on the way and nothing at its end; it then adds that one leaf, and otherwise changes nothing. |
| ClaimsMerge.DeepMerge | apps/internal/oauth/ops/authority/authority.go:434-447 | In place on two trees that share no node, in any key order, the destination becomes the right-biased deep merge and the source is not written. |
| ClaimsMerge.MergeKey | apps/internal/oauth/ops/authority/authority.go:435-445 | One round of the loop merges or sets exactly one key. |
| ClaimsMerge.Merge | apps/internal/oauth/ops/authority/authority.go:450-473 | In place, in any key order, the claims become an outcome of the capability merge and the capabilities are not written. |
| ClaimsMerge.AddKey | apps/internal/oauth/ops/authority/authority.go:452-454 | A missing key gets the capability's value, shared, and nothing else changes. |
| ClaimsMerge.MergeBelow | apps/internal/oauth/ops/authority/authority.go:459-461 | The first shared object is merged and its outcome is the outcome of the whole. |
| ClaimsRequest.MergeClaims | apps/internal/oauth/ops/authority/authority.go:395-415 | With one input missing the other is returned as it is; with two, both must be objects and are deep-merged. |
| ClaimsRequest.MergeCapabilitiesAndClaims | apps/internal/oauth/ops/authority/authority.go:360-388 | Without capabilities the merged claims alone, one input as it was, or an error; with them every outcome and exactly when it arises, on success the merged claims' leaves and the capability leaf and no others. The capability map is unchanged. |
| ClaimsRequest.AddCapabilities | apps/internal/oauth/ops/authority/authority.go:374-380 | Merging the capabilities into the claims in place succeeds exactly when there is room, and then adds that one leaf. |
| ClaimsRequest.ManyRequests | apps/internal/oauth/ops/authority/authority.go:360-388 | Over any number of requests the shared capability map stays as it was, and the outcome and the resulting leaves of each request are those it would have had as the only one. |
| CacheExtKey.SortStrings | apps/internal/oauth/ops/authority/authority.go:847-852 | Any list of distinct keys comes out in increasing byte order, with the same keys. |
| CacheExtKey.WriteComponents | apps/internal/oauth/ops/authority/authority.go:860-864 | The loop writes the length-prefixed keys and values in the given order. |
| CacheExtKey.CacheExtKeyGenerator | apps/internal/oauth/ops/authority/authority.go:842-868 | Empty for no components, otherwise the lowercased digest of the encoding of the map. |
| CacheExtKey.EncodingExact | apps/internal/oauth/ops/authority/authority.go:854-864 | The encoding does not depend on the enumeration of the map, can be read back, and is injective on maps. |
| SilentKeys.Client.AuthResultFromToken | apps/internal/base/base.go:545-573 | What a write-back asks of the external cache, and when it succeeds. |
| SilentKeys.Client.ProactiveRefresh | apps/internal/base/base.go:331-353 | For every kind of request, whether a refresh ends the call, whether it succeeds and what it writes back: of those with a reply to wait for, only public clients see a failed refresh. |
| SilentKeys.Client.RefreshIfDue | apps/internal/base/base.go:399-427 | With a usable token: a refresh is tried exactly if it is due, the tenant's flag is free and the token is still the same; whether that ends the call, with which outcome and calls, and that the flag is released on every way out. |
| SilentKeys.Client.AcquireTokenSilent | apps/internal/base/base.go:355-446 | Exactly which external cache calls a run makes, with their keys, and exactly when it succeeds; the flags are released on every way out. |
| SilentKeys.Client.OneKeyExactly | apps/internal/base/base.go:363-389 | All external cache calls of a run use one partition key if and only if it acts on behalf of a user, is for the app cache, gets no new token, or gets one of the account it asked for, or makes no call but the first. |
| SilentKeys.Client.KeysAre | apps/internal/base/base.go:363-389 | The partition key of every call of a run: the assertion's hash on behalf of a user; the client, the tenant and the extra cache key for the app itself; otherwise the account asked for when reading, and the token's when writing back. |
| SilentKeys.Client.ExportExactly | apps/internal/base/base.go:545-573 | Every export of a call is of the manager it wrote, the partitioned one on behalf of a user and the flat one otherwise, if and only if the call is not on behalf of a user or does not get as far as the export. |
| Retry.Transport.BufferResponseBody | apps/managedidentity/managedidentity.go:636-648 | A body is drained and closed once, and moves into memory if it can be read. |
| Retry.Transport.Retry | apps/managedidentity/managedidentity.go:651-701 | It makes attempts exactly up to the first one that is final, the last one, or followed by a cancellation. All contexts are cancelled, superseded bodies drained and closed once while their context lives; the last body is so if and only if its answer is final or no attempt is left, and an answer without error is in memory. |
| DeviceCode.IsWaitError | apps/internal/oauth/oauth.go:305-328 | Only a 400 with one of the two error codes means to go on waiting. |
| DeviceCode.PollForToken | apps/internal/oauth/oauth.go:264-299 | The n-th wait is min(50*3^n, 5000) ms and there are at most 5 + T/5000 polls. It expires only when all polls so far were answered by a wait error and the next would start at the end or later; otherwise it hands back the first answer that is not one to wait on, from a poll that started in time. |
| DeviceCode.FewPolls | apps/internal/oauth/oauth.go:277-291 | So much waiting before n polls leaves room for at most 5 + T/5000 of them. |

## Left out

- HTTP, headers, TLS, certificates, JWT and X.509 handling, files and the environment: replies of the identity provider
  and of the network are arbitrary inputs.
- Reflection and the bytes of JSON: types are a schema, documents are tokens, white space in the input is not modelled,
  and `%q` is taken to quote as JSON does. Embedded structs, pointers to pointers, and the codec's check of nested
  `json.Unmarshaler` types are not covered.
- Types with their own marshalers are opaque: a value is the JSON that it writes, and what their unmarshalers refuse is
  modelled for the times of the cache file only. A raw message that holds `[]` is taken for a nil one, containers of
  pointers to such types are not covered, and neither is a zero time that is not left out, which writes nothing.
- Cache files in which a time is the empty text, which the library never writes: the model reads a zero time there.
- A nil and an empty map of unknown members are told apart as Go does, but what a panic in reflection leaves behind is
  only a failure.
- Strings are ASCII and one byte for each character; times are integers.
- Metadata discovery for aliases in the two managers: the aliases of a request are a parameter.
- SHA-256 and base64: the digest is any function of the encoded text, and assertion hashes are any non-empty strings.
- Parsing of URLs: whatever holds a URL also holds its parsed form.
- Removal or replacement of the whole cache while a reader waits for the write lock.
- `Marshal` and `Unmarshal` of the partitioned manager, whose contract type the codec does not accept.
- Fields of cached items that no modelled function reads, such as names of accounts, and members of cached items that
  the library does not know: the cache file is written without them, and the items that are loaded hold none.
- The tenant names `common`, `consumers` and `organizations`, and authorities that take no tenant: such a silent call
  fails before the protocol starts.
- The trailing cancel after the retry loop, which no attempt can reach.
- The check for a device code made outside its package.
- Injectivity of the keys joined with `-`, and of the app partition key: it does not hold.
- The known-metadata tables, WS-Trust, the local server, option plumbing and the public APIs: they would add easy
  members.
- What can still go wrong with a new token after it was written, such as declined scopes or the external cache: in the
  refresh protocol the call then hands the token out (`SilentKeys` has these errors). On behalf of a user a token that
  is out of time fails the call, while the protocol has the flat manager, which leaves it out and goes on.
- Refresh.AtMostOnceExactly: assumes, as its steps do, that the identity provider never repeats a secret, and that a
  refreshed token lands on the entry of its call and is usable when it is written; and that one entry answers a request.
- Resolver.AtMostOneDiscovery: a cache entry counts as validated for the caller that discovered it; callers with other
  settings for the same URI share it, as in the code.
- PartitionedUse.LastIDTokenDecides: for requests with one host; with several aliases, several keys can hold an ID
  token, and PartitionedUse.ReadInRun is the exact condition.
- Partitioned.PartitionedManager.Read: aliases come from the caller, and an empty assertion hash, which the digest never
  gives, is excluded.
