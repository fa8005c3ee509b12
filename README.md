# ReqChase backend: a verified model of its document store

ReqChase is a Jira Forge app. Its backend keeps the project's documents in the Forge key-value store:
- the requirements;
- their types, stages and statuses;
- the validation and verification checklists;
- a join table from Jira issue ids to requirement ids;
- a catalog of compressed snapshots ("baseline versions") of the whole tracked data set.

An in-memory cache mirrors five of the collections and a directory of the project's assignable users.

This project models that core in Dafny and proves what the resolvers promise.

- **Forge storage** (`ForgeStorage.Storage`) is a class over `map<string, Value>`. A missing key reads as `undefined` (`None`).
- **Documents** (`Values`):
  - A document is an array of records (`List`), the join table (`Links`) or the version catalog (`Catalog`).
  - A record is its `id` plus a map of JSON properties.
  - Object spread `{...r, name, color}` is `Spread`. A property set to `undefined` is dropped, because storing a document serialises it as JSON.
  - A stored value that is not the shape a resolver expects makes that resolver fail with a `TypeError`.
- **Ids** (`Ids`, `Decimal`):
  - `generateUniqueId` is modelled character by character.
  - `Date.now()` is a parameter `now`.
  - Its digits come from a verified decimal printer.
- **Collections**:
  - types, validation and verification checklists, and requirements are read-modify-written straight in storage (`TypeResolvers`, `ValidationResolvers`, `VerificationResolvers`, `RequirementResolvers`);
  - stages and statuses are read cache-first and refresh the cache after each write (`StageResolvers`, `StatusResolvers`).
- **Cache** (`CacheLayer.Cache`): a class with the six slots of the `cache` object. `storageKeyMap` is `SlotFor`/`KeyOf`.
- **Join table** (`JoinTable`, `IssueResolvers`):
  - A sequence of `(issueId, requirementIds)` in the order a JavaScript object enumerates its keys. Integer-like keys come first in ascending order, then the other keys in insertion order.
  - `table[issueId] = ids` is `Assign`.
  - The `for ... of Object.entries` scans are `ScanLinks`.
- **Snapshots** (`Versions`):
  - A snapshot captures every tracked key except `versions`.
  - `compressData`/`decompressData` are `Compress`/`Decompress`. The model keeps only the JSON stage: keys whose value is `undefined` are dropped. Deflate and base64 are lossless and are not modelled.
  - Restore deletes the tracked keys, writes the payload and re-initialises the cache.
- **External input**: Jira REST answers are parameters. `getDashboardData` and `getRequirementIssues` take a function from the requested issue ids to the answer. `fetchAndCacheUsers` takes the user list.

Notes on the code's behaviour, all modelled as the code does it:
- writes are plain read-modify-write with no compare-and-swap;
- deleting a requirement leaves its ids in the join table;
- requirement updates keep no change log;
- a cache miss in `getStatuses`/`getStages` does not fill the cache;
- restore re-reads every mapped key into the cache rather than resetting it to `null`;
- version keys are not checked for uniqueness (`Versions.AppendedVersionShadowed`).

Three more things the code does are modelled as written:
- The type resolvers store types under `'types'`, while the cache mirrors `'user-types'`. No type write ever refreshes the cache slot (`CacheLayer.UnmappedKeys`).
- In `getDashboardData`, a non-ok response evaluates `issueId`, which is not in scope there. The reply is therefore `{ error: "issueId is not defined" }` (`RequirementResolvers.UndefinedIssueId`).
- Ids of a stage and a status made in the same millisecond coincide, because both prefixes are `sta` (`Ids.StageStatusCollide`). Ids repeat every 10^8 ms (`Ids.IdsRepeat`).

## Model

| member | source | states |
|---|---|---|
| Ids.GenerateUniqueId | src/utils.js:2-18 | an empty class name gives the bare numeric id; otherwise the id is 12 characters: the 3-letter prefix, '-', and the 8-digit numeric part |
| Ids.NumericId | src/utils.js:7 | the numeric part is always 8 characters long |
| Ids.Prefix | src/utils.js:10-14 | the prefix is always 3 characters: the lower-cased first letters of the class name, padded with 'x' |
| Ids.NumericIdValue | src/utils.js:4-7 | the numeric part is exactly 8 decimal digits, and its value is the clock modulo 10^8 |
| Ids.IdsRepeat | src/utils.js:4-17 | two clock readings that agree modulo 10^8 give the same id for any class name |
| Ids.IdsDistinct | src/utils.js:4-17 | two clock readings that differ modulo 10^8 give different ids |
| Ids.ResolverPrefixes | src/utils.js:11-14 | the prefixes the resolvers get: req, typ, val, ver, and sta for both stage and status |
| Ids.StageStatusCollide | src/resolvers/stageResolvers.js:21 | a stage id and a status id made at the same clock reading are equal |
| Ids.ShortPrefix | src/utils.js:13 | every class name shorter than 3 characters gives its lower-cased letters padded with 'x' to 3 characters |
| Decimal.ToDecimal | src/utils.js:7 | `toString()` of a non-negative integer: all digits, at least one, no leading zero (zero prints as exactly "0"), and it denotes the number |
| Values.Spread | src/resolvers/typeResolvers.js:32 | a patch property overrides the old one, an undefined one removes it, and every other property is kept |
| Values.NewRecord | src/resolvers/typeResolvers.js:17-21 | a new object has the given id and exactly the defined properties |
| Values.ReadList | src/resolvers/typeResolvers.js:15 | a missing key reads as the empty array, and a non-array value fails |
| Values.ReadLinks | src/resolvers/issueResolvers.js:28 | a missing join table reads as empty; a value that is not a join table fails |
| Values.ReadCatalog | src/resolvers/versionResolvers.js:61 | a missing catalog reads as empty; a value that is not a catalog fails |
| ForgeStorage.Storage.Set | src/resolvers/versionResolvers.js:56 | `storage.set` replaces one key and leaves every other key alone |
| ForgeStorage.Storage.Delete | src/resolvers/versionResolvers.js:51 | `storage.delete` removes one key and leaves every other key alone |
| Records.FindFirst | src/resolvers/requirementResolvers.js:65 | `findIndex`: the first position whose id matches, or none exactly when no record has the id |
| Records.Without | src/resolvers/typeResolvers.js:42 | `filter(item => item.id !== id)` keeps exactly the records with another id |
| Records.WithoutAppend | src/resolvers/typeResolvers.js:42 | filtering distributes over concatenation, so the kept records stay in their order |
| Records.WithoutIdempotent | src/resolvers/typeResolvers.js:39-46 | removing an id twice is the same as removing it once |
| Records.WithoutPresent | src/resolvers/typeResolvers.js:42 | removing an id some record has makes the array strictly shorter |
| Records.UpdateAll | src/resolvers/typeResolvers.js:32 | the `map` patches every record with the id and no other, keeping the length |
| Records.UpdateAllAbsent | src/resolvers/typeResolvers.js:29-36 | updating an id no record has returns the array unchanged |
| Records.UpdateFirst | src/resolvers/statusResolvers.js:36-39 | `findIndex` then assignment: fails exactly when the id is absent, else patches only the first match |
| Records.UpdateFirstUnique | src/resolvers/statusResolvers.js:36-39 | on ids that are unique, patching the first match is the same as patching every match |
| CacheLayer.SlotFor | src/cache.js:22-28 | `storageKeyMap` maps the five storage keys to their slots and nothing else |
| CacheLayer.StorageKeyMapBijective | src/cache.js:22-28 | `storageKeyMap` is a bijection between its five keys and the five slots |
| CacheLayer.UnmappedKeys | src/cache.js:22-28 | 'types', 'user-requirements', the join table and 'versions' are never cached |
| CacheLayer.Entry | src/cache.js:100-104 | a user's entry keeps the account id and display name; the avatar is the 48x48 URL, or null when it is missing or empty |
| CacheLayer.UserDirectory | src/cache.js:99-106 | every directory entry is filed under its own account id |
| CacheLayer.UserDirectoryKeys | src/cache.js:99-106 | the directory has exactly the account ids of the users |
| CacheLayer.UserDirectoryLastWins | src/cache.js:99-106 | for a repeated account id, the last user's entry is the one kept |
| CacheLayer.Cache.constructor | src/cache.js:12-19 | all six slots start `null` |
| CacheLayer.Cache.GetFromCache | src/cache.js:46-48 | `cache[key]` is the slot named by the key, as it stands |
| CacheLayer.Cache.SetSlot | src/cache.js:35 | the one slot takes the new value; every other slot and the users are unchanged |
| CacheLayer.CacheFirst | src/resolvers/statusResolvers.js:6-14 | a cached value is returned as is; on a miss the stored value, or `[]` when nothing is stored (`getStages` in src/resolvers/stageResolvers.js:6-14 is the same) |
| CacheLayer.Cache.GetAllCachedData | src/cache.js:62-71 | returns the six slots as they are |
| CacheLayer.Cache.InitializeCache | src/cache.js:31-37 | every mapped slot becomes the stored value, or `[]` when it is missing; the user directory is untouched |
| CacheLayer.Cache.UpdateCache | src/cache.js:51-59 | slots whose key is listed are refreshed from storage; every other slot and the users are unchanged |
| CacheLayer.Cache.ClearCache | src/cache.js:74-78 | all six slots, users included, become `null` |
| CacheLayer.Cache.FetchAndCacheUsers | src/cache.js:81-110 | the users' directory is returned and cached; the collection slots are unchanged |
| CacheLayer.Cache.GetUserFromCache | src/cache.js:39-44 | a cached directory is returned as is; otherwise it is built, cached and returned |
| JoinTable.Rank | src/resolvers/issueResolvers.js:31 | canonical array-index keys rank by their value, below every other key |
| JoinTable.Find | src/resolvers/issueResolvers.js:9 | `table[issueId]` finds the entry of the issue, or none exactly when there is no entry |
| JoinTable.Lookup | src/resolvers/issueResolvers.js:9 | `table[issueId]` is undefined exactly when the issue has no entry; otherwise it is the list of an entry of that issue |
| JoinTable.LookupIn | src/resolvers/issueResolvers.js:9 | with unique keys, looking up an issue gives `ids` exactly when `(issue, ids)` is an entry |
| JoinTable.InsertPos | src/resolvers/issueResolvers.js:31 | a new key goes after every key of lower or equal rank and before the first key of higher rank |
| JoinTable.InsertPosNonIndex | src/resolvers/issueResolvers.js:31 | a key that is not an array index goes at the end, in insertion order |
| JoinTable.InsertKeepsOrder | src/resolvers/issueResolvers.js:31 | inserting a new key at its position keeps the keys unique and in enumeration order |
| JoinTable.Assign | src/resolvers/issueResolvers.js:31 | the new entry is in the table; the table keeps its length when the issue had an entry and grows by one when it had none |
| JoinTable.AssignKeepsOrder | src/resolvers/issueResolvers.js:28-34 | an assignment keeps the table in enumeration order |
| JoinTable.AssignMembers | src/resolvers/issueResolvers.js:28-34 | after an assignment the entries are the new one plus every entry of another issue |
| JoinTable.AssignUnique | src/resolvers/issueResolvers.js:31 | an assignment keeps the issue keys unique |
| JoinTable.AssignLookup | src/resolvers/issueResolvers.js:28-34 | an assignment replaces the issue's list, not merges it, and every other issue's lookup is unchanged |
| JoinTable.IssuesOf | src/resolvers/issueResolvers.js:49-54 | the reverse scan lists at most one issue per entry |
| JoinTable.IssuesOfAppend | src/resolvers/issueResolvers.js:50-54 | scanning a concatenation is scanning each part, in order |
| JoinTable.IssuesOfMembers | src/resolvers/issueResolvers.js:50-54 | an issue is listed exactly when its entry includes the requirement id |
| JoinTable.ScanAgreesWithLookup | src/resolvers/issueResolvers.js:6-54 | the reverse scan and the forward lookup of `getAssignedRequirements` agree |
| JoinTable.IssuesOfOrdered | src/resolvers/issueResolvers.js:50-54 | the scan lists each issue once, in enumeration order |
| JoinTable.ScanLinks | src/resolvers/issueResolvers.js:49-54 | the `for ... of` loop computes exactly the reverse scan |
| TypeResolvers.GetTypes | src/resolvers/typeResolvers.js:7-10 | the stored array under 'types', or `[]` |
| TypeResolvers.AddType | src/resolvers/typeResolvers.js:13-26 | appends one `{id: typ-…, name, color}` and returns it; a non-array value fails and writes nothing |
| TypeResolvers.UpdateType | src/resolvers/typeResolvers.js:29-36 | writes back and returns the array with every record that has the id patched |
| TypeResolvers.RemoveType | src/resolvers/typeResolvers.js:39-46 | writes back and returns the records with another id |
| ValidationResolvers.GetValidationChecklist | src/resolvers/validationResolvers.js:7-10 | the stored checklist, or `[]` |
| ValidationResolvers.AddValidationChecklistItem | src/resolvers/validationResolvers.js:13-25 | appends one `{id: val-…, name}` and returns it |
| ValidationResolvers.UpdateValidationChecklistItem | src/resolvers/validationResolvers.js:28-35 | renames every item with the id |
| ValidationResolvers.RemoveValidationChecklistItem | src/resolvers/validationResolvers.js:38-45 | keeps the items with another id |
| VerificationResolvers.GetVerificationChecklist | src/resolvers/verificationResolvers.js:7-10 | the stored checklist, or `[]` |
| VerificationResolvers.AddVerificationChecklistItem | src/resolvers/verificationResolvers.js:13-25 | appends one `{id: ver-…, name}` and returns it |
| VerificationResolvers.UpdateVerificationChecklistItem | src/resolvers/verificationResolvers.js:28-35 | renames every item with the id |
| VerificationResolvers.RemoveVerificationChecklistItem | src/resolvers/verificationResolvers.js:38-45 | keeps the items with another id |
| StatusResolvers.GetStatuses | src/resolvers/statusResolvers.js:6-14 | the cached slot when it is not `null`, else the stored array or `[]` |
| StatusResolvers.AddStatus | src/resolvers/statusResolvers.js:16-30 | appends to the cache-first array and stores it; afterwards the cached slot equals storage, and the other slots and users are unchanged |
| StatusResolvers.UpdateStatus | src/resolvers/statusResolvers.js:32-43 | patches only the first status with the id; an absent id throws "Status not found" and changes nothing; the cache is refreshed after a write |
| StatusResolvers.RemoveStatus | src/resolvers/statusResolvers.js:45-53 | stores and returns the statuses with another id, then refreshes the cache |
| StageResolvers.GetStages | src/resolvers/stageResolvers.js:6-14 | the cached slot when it is not `null`, else the stored array or `[]` |
| StageResolvers.AddStage | src/resolvers/stageResolvers.js:16-30 | appends to the cache-first array and stores it; afterwards the cached slot equals storage |
| StageResolvers.UpdateStage | src/resolvers/stageResolvers.js:32-43 | patches only the first stage with the id; an absent id throws "Stage not found" and changes nothing |
| StageResolvers.RemoveStage | src/resolvers/stageResolvers.js:45-53 | stores and returns the stages with another id, then refreshes the cache |
| RequirementResolvers.GetRequirements | src/resolvers/requirementResolvers.js:8-11 | the stored requirements, or `[]` |
| RequirementResolvers.NewRequirement | src/resolvers/requirementResolvers.js:18-25 | a new requirement has the given name, description and type, and both check lists are `[]` |
| RequirementResolvers.AddRequirement | src/resolvers/requirementResolvers.js:14-30 | appends one new `req-…` requirement and returns it |
| RequirementResolvers.AddedRequirementFound | src/resolvers/requirementResolvers.js:26-57 | a requirement appended under a fresh id is the one `getRequirement` finds |
| RequirementResolvers.DeleteRequirement | src/resolvers/requirementResolvers.js:33-45 | an absent id gives "Requirement <id> not found." with no write; otherwise every match is removed and "… deleted successfully." is returned |
| RequirementResolvers.GetRequirement | src/resolvers/requirementResolvers.js:48-58 | the first requirement with the id; the error is thrown exactly when no requirement has the id |
| RequirementResolvers.ChecksOr | src/resolvers/requirementResolvers.js:74-75 | picks the first truthy of the given and the stored list, else `[]`, and the result is always truthy |
| RequirementResolvers.UpdateRequirement | src/resolvers/requirementResolvers.js:61-81 | only the first match is rewritten; an absent id throws and writes nothing |
| RequirementResolvers.RequirementPatch | src/resolvers/requirementResolvers.js:70-77 | the update writes exactly name, description, both check lists and typeId; both lists are truthy, the other three are as given |
| RequirementResolvers.UpdateKeepsChecks | src/resolvers/requirementResolvers.js:70-77 | an update always leaves both check lists truthy: an explicit `[]` clears a list, and an omitted list keeps the stored array |
| RequirementResolvers.IssueKeys | src/resolvers/requirementResolvers.js:99 | `Object.keys` of the join table is its issue ids, in order |
| RequirementResolvers.Row | src/resolvers/requirementResolvers.js:121-142 | a row keeps the requirement's id, name and description and has one child per linked issue, with id `<req>-<issue>` |
| RequirementResolvers.Children | src/resolvers/requirementResolvers.js:130-134 | one child per issue id, in order, with id `<req>-<issue>` and name `Issue <issue>` |
| RequirementResolvers.GetDashboardData | src/resolvers/requirementResolvers.js:84-145 | a non-ok fetch gives the `issueId` ReferenceError message; a rejected fetch gives its message; otherwise one row per requirement, in order |
| RequirementResolvers.RowChildren | src/resolvers/requirementResolvers.js:121-142 | a row lists an issue exactly when the join table links it to the requirement |
| RequirementResolvers.RowChildrenDistinct | src/resolvers/requirementResolvers.js:123-134 | on a table in enumeration order, a row's children have distinct ids |
| IssueResolvers.Dict | src/resolvers/issueResolvers.js:11-14 | every requirement in `requirementDict` is filed under its own id |
| IssueResolvers.DictLastWins | src/resolvers/issueResolvers.js:11-14 | `requirementDict` holds exactly the requirement ids, each mapped to the last requirement with that id |
| IssueResolvers.DictAgreesWithFind | src/resolvers/issueResolvers.js:11-14 | with unique ids, the dictionary gives the same requirement as `find` |
| IssueResolvers.RequirementDict | src/resolvers/issueResolvers.js:11-14 | the `forEach` builds that dictionary |
| IssueResolvers.AssignedList | src/resolvers/issueResolvers.js:15 | fails exactly when some id has no requirement; otherwise one `{name, id}` per id, in order |
| IssueResolvers.AssignedIds | src/resolvers/issueResolvers.js:9 | `storedData[issueId] || []` is `[]` when the issue has no entry, and otherwise the list of an entry of that issue |
| IssueResolvers.GetAssignedRequirements | src/resolvers/issueResolvers.js:6-17 | the issue's list, or `[]`, mapped through the requirement dictionary |
| IssueResolvers.AssignRequirements | src/resolvers/issueResolvers.js:20-41 | a falsy issueId or non-array requirements throws and writes nothing; otherwise the issue's entry is replaced and the inputs are echoed |
| IssueResolvers.AssignThenRead | src/resolvers/issueResolvers.js:28-34 | after assigning, the issue's assigned ids are exactly the ones given, and every other issue's are unchanged |
| IssueResolvers.Project | src/resolvers/issueResolvers.js:80-94 | `isDone` holds exactly for Done, Closed and Resolved; the assignee is null exactly when the issue has none |
| IssueResolvers.ProjectAll | src/resolvers/issueResolvers.js:80 | one projection per fetched issue, in order |
| IssueResolvers.GetRequirementIssues | src/resolvers/issueResolvers.js:44-99 | with no linked issue, `[]` whatever the fetch would answer; a non-ok fetch throws "Failed to fetch issues", a rejected request rethrows its error, and a body without `issues` throws a TypeError at `data.issues.map`; otherwise the fetched issues are projected |
| Versions.SnapshotKeys | src/resolvers/versionResolvers.js:40 | the tracked keys other than 'versions' |
| Versions.GetAllStorageData | src/resolvers/versionResolvers.js:37-45 | reads every snapshot key, missing ones as undefined, and no other key |
| Versions.Captured | src/resolvers/versionResolvers.js:38-44 | the snapshot has exactly the tracked keys other than 'versions', each holding what storage holds, undefined for a missing key |
| Versions.Compress | src/resolvers/versionResolvers.js:9-17 | serialising keeps exactly the keys whose value is defined |
| Versions.Decompress | src/resolvers/versionResolvers.js:20-34 | what decompression returns compresses back to the same blob |
| Versions.CompressRoundTrip | src/resolvers/versionResolvers.js:9-34 | decompressing a compressed payload gives back every defined member |
| Versions.Restored | src/resolvers/versionResolvers.js:48-58 | after a restore, payload keys hold the payload, other snapshot keys are gone, and every other key is as before |
| Versions.RestoreAllStorageData | src/resolvers/versionResolvers.js:48-58 | the delete loop and the set loop leave exactly that store |
| Versions.SnapshotRoundTrip | src/resolvers/versionResolvers.js:37-58 | restoring a snapshot brings back every snapshot key as it was when captured, absent keys included |
| Versions.RestoreKeepsCatalog | src/resolvers/versionResolvers.js:40-58 | the catalog is never in a payload, so a restore leaves it alone |
| Versions.Listing | src/resolvers/versionResolvers.js:62-66 | one `{key, description, createdDate}` per version, in order |
| Versions.GetVersions | src/resolvers/versionResolvers.js:60-67 | the catalog's listing, or `[]` |
| Versions.FindVersion | src/resolvers/versionResolvers.js:110 | the first version with the key, or none exactly when no version has it |
| Versions.DropVersion | src/resolvers/versionResolvers.js:102 | keeps exactly the versions with another key |
| Versions.DropVersionAppend | src/resolvers/versionResolvers.js:102 | removal keeps the other versions in their order |
| Versions.DropVersionAbsent | src/resolvers/versionResolvers.js:102 | removing an absent key changes nothing |
| Versions.DropVersionIdempotent | src/resolvers/versionResolvers.js:99-105 | removing a version twice is removing it once |
| Versions.AppendedVersionShadowed | src/resolvers/versionResolvers.js:70-97 | a created version is the one restore finds only if no earlier version has its key |
| Versions.CreateVersion | src/resolvers/versionResolvers.js:70-97 | captures and compresses the snapshot keys and appends one version to the catalog |
| Versions.RemoveVersion | src/resolvers/versionResolvers.js:99-105 | writes back the catalog without the key and succeeds |
| Versions.RestoreVersion | src/resolvers/versionResolvers.js:107-124 | an unknown key throws "Version not found" and changes nothing; otherwise the store is restored and every mapped cache slot equals storage |

## Left out

- I/O and concurrency. Every storage call and `Promise.all` is modelled as a sequential step that succeeds; the Jira requests are parameters whose failures are modelled where the code handles them. Interleaved resolver calls, lost updates, and storage calls that fail partway through a restore are not modelled.
- Jira REST calls (the bulk issue fetch, the project search and the user search) are not modelled. Their answers are parameters. The request bodies and HTTP headers are left out, apart from the ids sent to the bulk fetch. In `getDashboardData` the fetched summaries are never used, so only whether the fetch succeeded matters.
- Compression: `pako` deflate/inflate, `TextEncoder`, and base64 with `btoa`/`atob` are left out because they are lossless byte transforms. Only the JSON stage is modelled.
- `Date.now()` and `new Date().toISOString()` are parameters. `console.log` and `console.error` are left out.
- Ids.JsString: numbers of 10^21 or more, which JavaScript prints in exponent form, are not modelled. Neither are non-integral clock values.
- Ids.Lower: only ASCII letters are lower-cased. The resolvers' class names are ASCII.
- Values of the wrong shape: a stored value that is not the array, join table or catalog a resolver expects is treated as a `TypeError`. JavaScript sometimes proceeds instead, e.g. `Object.keys` of an array. The app itself never writes such values.
- Record contents: `id` is a string present on every record. Property order inside a record, prototype-inherited keys, and ids such as `__proto__` are not modelled.
- Join table contents: requirement and issue ids in the table are strings, and each entry is an array. Other entries are not modelled: `requirements?.includes?.` skips entries without an `includes` method, and on a string entry it is a substring match rather than an element match.
- Cached-array aliasing: `getStatuses`/`getStages` return the cached array itself, and `push` or index assignment then mutates the cache in place. The model works on values. Every successful write refreshes the slot right afterwards, so the final state is the same.
- IssueResolvers.Project: `status`, `priority` and an assignee's `avatarUrls` are taken to be present. A missing one would throw in JavaScript.
- `getDashboardData`: a malformed successful response (no `issues` array) is not modelled.
- IssueResolvers.GetRequirementIssues: a rejected request is modelled by its message only; the `catch` rethrows the original error object, whatever its class.
- The list of tracked keys is a parameter of the snapshot operations. `versionResolvers.js` imports `STORAGE_KEYS` from src/config.js, which does not define it. As written, `createVersion` and `restoreVersion` (after its not-found check) therefore throw a TypeError at `STORAGE_KEYS.filter` before any write; the model shows the behaviour intended for a defined list of keys.
- The resolver registration in src/index.js, `userResolvers.js` and the frontend are not part of this model.
