# Nishan client core in Dafny

This project models `Nishan`, the entry-point client of the Nishan library
for Notion (`api/Nishan.ts`). A `Nishan` object holds a session context and
a local record cache. The context is the user id, the space id, the shard id
and a transaction builder bound to a (shard, space) pair. The cache has eight
tables, each an insertion-ordered map from record id to record value. The
client calls the store's HTTP API to:

- read blocks and pages through the cache (`getBlock`, `getPage` by id);
- select pages by a predicate, cache first (`getPage` by predicate);
- read a collection and its parent block (`getCollection`);
- create a page by submitting one batch of six operations (`createPage`);
- choose the session's space and user (`setSpace`, `setRootUser`).

The store's record maps merge into the cache with `saveToCache`.

Modules:

- `Wrappers`: `Option`, `Result` and the `Fault` a call can end in.
  - `TypeError` is a JavaScript property read on `undefined` or `null`, or a call of an unbound builder.
  - `ContextMissing` is the client's "UserId, SpaceId or ShardId is null" error.
  - `IllTyped` is explained under Left out.
- `Json`: record values as untyped JSON with `undefined`, JavaScript truthiness, and JavaScript property reads (`Prop`, `First`).
- `RecordCache`:
  - the tables;
  - `IdMap`, a JavaScript `Map` given as its iteration order plus its contents;
  - the cache, and a reply's record map;
  - `Merge`, which is what `saveToCache` computes;
  - the merge laws: read after merge, nothing else changes, order kept, idempotence, overwrite wins.
- `Operations`:
  - the mutation operations;
  - the transaction a bound builder makes;
  - the fixed six-operation batch of `createPage`, with its shape laws.
- `Reads`: the decisions the reads make, as functions of the cache and the replies:
  - cache hits, and what a fetched reply yields;
  - page filtering and predicate selection, with the loops that compute them;
  - the space `setSpace` picks, and the fields it reads.
- `Api`: the `Nishan` class.
  - Its fields are the ones the source updates.
  - `sent` logs every request posted, with its cookie.
  - The store's replies are parameters of the methods that fetch.
  - Each method is proved against the functions of `Reads`, `RecordCache` and `Operations`.
  - Two scenario methods assert the outcome of concrete calls; they are verified, not executed. `CreatePageScenario` creates page "abc" in space "space-1" for "user-1" on shard 7. `PredicateFallbackScenario` runs a predicate read on an empty cache: one `loadUserContent` request, and the second of three fetched pages selected.

Two behaviours of the code are worth stating plainly, since they are what the
model follows:

- `createPage` (api/Nishan.ts:133) checks only `space_id && user_id`. It never checks the shard, unlike the context checks of `getBlock` (line 70) and `getCollection` (line 115). When no builder is bound, its call of `this.createTransaction(...)` throws a TypeError.
- After its fetch, `getPage` by predicate (api/Nishan.ts:209-213) filters only the reply's block table, not the merged cache. It indexes those pages from 0 again.

## Model

| member | source | states |
|---|---|---|
| Api.Nishan.constructor | api/Nishan.ts:23-53 | falsy or missing options take their defaults (interval 1000, user "", shard 0, space "", all eight tables empty); the cookie is `token_v2=` + token; the builder is bound, to (shard, space), exactly when both the shard and the space given are truthy; nothing is sent |
| Api.Nishan.SaveToCache | api/Nishan.ts:246-254 | after the table-by-table, record-by-record loop, the cache is `Merge` of the old cache and the reply |
| RecordCache.SetAll | api/Nishan.ts:250-252 | setting one table's records one by one, in order, keeps the map well formed and yields `MergeEntries` of the map and the records |
| RecordCache.Put | api/Nishan.ts:251 | `Map.set` keeps the map well formed, stores the value under the id, keeps an existing id's place and appends a new id at the end |
| RecordCache.MergeEntries | api/Nishan.ts:250-252 | merging a reply table into a well-formed map gives a well-formed map |
| RecordCache.Merge | api/Nishan.ts:246-254 | the cache after `saveToCache`; it carries no contract of its own (one makes the loop proofs that use it too costly), and what it means is stated by the merge lemmas in the rows below: read after merge, nothing else changes, order kept, idempotence, overwrite wins |
| RecordCache.MergedVals | api/Nishan.ts:246-254 | a merged table's contents are the old contents overridden by the reply's records, later records winning |
| RecordCache.MergedIds | api/Nishan.ts:246-254 | a merged table's iteration order is the old order followed by the reply's new ids in reply order |
| RecordCache.LookupAfterMerge | api/Nishan.ts:246-254 | every record of the reply is in the cache after the merge, with the reply's value |
| RecordCache.MergeLeavesOthers | api/Nishan.ts:246-254 | a table the reply does not mention is unchanged, and so is every id a mentioned table does not list, both its presence and its value |
| RecordCache.MergeKeepsOrder | api/Nishan.ts:246-254 | merging never drops or moves a cached record: old ids keep their places, new ids follow, and the set of keys only grows |
| RecordCache.MergeEntriesIdempotent | api/Nishan.ts:250-252 | merging the same reply table twice gives the same map as merging it once |
| RecordCache.MergeIdempotent | api/Nishan.ts:246-254 | `saveToCache` of the same record map twice leaves the cache as doing it once |
| RecordCache.MergeOverwriteWins | api/Nishan.ts:246-254 | whatever an earlier merge stored, a later merge listing the same record leaves the later value |
| RecordCache.LookupMerged | api/Nishan.ts:64-65 | a record the reply holds for an id is what the cache holds for that id after the merge |
| RecordCache.MergeAllTables | api/Nishan.ts:248-253 | visiting all eight cache tables, in key order, performs the whole merge |
| RecordCache.IndexOf | api/Nishan.ts:41-50 | every table has a position in the cache's key order, and the table at that position is itself |
| RecordCache.EmptyTables | api/Nishan.ts:41-50 | the default cache has all eight tables, each empty |
| RecordCache.Lookup | api/Nishan.ts:65 | `recordMap.block[id]` finds a record exactly when the reply lists the id, and what it finds is a record the reply lists under that id (inherited `Object.prototype` members are not modelled; see Left out) |
| RecordCache.Values | api/Nishan.ts:189 | the cached values are visited once per id in the table's iteration order |
| RecordCache.EntryValues | api/Nishan.ts:209 | `Object.values` of a reply table has one value per record |
| Json.Prop | api/Nishan.ts:190 | a property read throws a TypeError exactly on `undefined` and `null` |
| Json.First | api/Nishan.ts:231 | `v[0]` throws exactly on `undefined` and `null` |
| Reads.ContextReady | api/Nishan.ts:70-71 | the session passes the context check exactly when the user id, the space id and the shard id are all truthy |
| Reads.CachedBlock | api/Nishan.ts:57-58 | a cache hit is a truthy value the cache holds for the id; a miss means the id is absent or its value is falsy |
| Reads.PageAfterFetch | api/Nishan.ts:177-184 | after a miss, `getPage(id)` throws a TypeError exactly when the reply has no block table, yields `undefined` exactly when the reply does not list the id, and otherwise returns the value the reply lists for it |
| Reads.BlockAfterFetchAsWritten | api/Nishan.ts:65-80 | as written, a successful `getBlock` after a miss never yields a block: it throws a TypeError when the reply has no block table, fails with the context error exactly when the reply lists the block and the context is not ready, and otherwise yields `undefined` |
| Reads.BlockAfterFetch | api/Nishan.ts:65-80 | corrected `getBlock` after a miss throws a TypeError when the reply has no block table, fails with the context error exactly when the reply lists the block with the context not ready, yields `undefined` exactly when the reply does not list it, and otherwise returns the listed value |
| Reads.FetchedValue | api/Nishan.ts:99 | `recordMap[table][id].value` succeeds exactly when the reply has the table and lists the id, then yields the value the reply lists for it; otherwise it throws a TypeError |
| Reads.ReadThrough | api/Nishan.ts:164-186 | a truthy page fetched on a miss is what the cache answers for that id afterwards, so a repeated `getPage(id)` needs no request |
| Reads.BlockReadThrough | api/Nishan.ts:55-81 | `getBlock` after a miss returns a block exactly when the reply holds it and the context is ready; that block is then in the cache, and a truthy one is a cache hit next time |
| Reads.GetBlockDropsFoundRecord | api/Nishan.ts:70-80 | as written, `getBlock` on an empty cache with the block in the reply and the context ready yields `undefined`, although the block is then cached and the corrected read returns it |
| Reads.IsPage | api/Nishan.ts:190 | `block.type === 'page'` throws a TypeError exactly on `undefined`/`null`, and is true exactly for an object whose type is "page" |
| Reads.PagesOf | api/Nishan.ts:189-191 | collecting pages fails only with a TypeError |
| Reads.PagesOfSpec | api/Nishan.ts:189-191 | collecting pages fails exactly when some value is `undefined` or `null`, and otherwise keeps exactly the page values (their order and multiplicity are fixed by `Reads.PagesOfAppend` and `Reads.PagesOfSingle`) |
| Reads.PagesOfSingle | api/Nishan.ts:190 | one value throws when nullish, and otherwise is kept exactly when it is a page |
| Reads.PagesOfAppend | api/Nishan.ts:189-191 | filtering two runs of values gives the first run's pages followed by the second's, so pages keep their order and multiplicity |
| Reads.PagesOfAllPages | api/Nishan.ts:209 | values that are all pages are all kept, in order |
| Reads.Select | api/Nishan.ts:195-198 | the selection is drawn from the given pages and is never longer |
| Reads.SelectSingle | api/Nishan.ts:196-197 | one page is kept exactly when the predicate accepts it at index 0 |
| Reads.SelectAppend | api/Nishan.ts:195-198 | selecting from two runs gives the selection from the first followed by the selection from the second, judged at their indices in the whole sequence, so the selected pages keep their order, multiplicity and index |
| Reads.SelectSpec | api/Nishan.ts:195-198 | a page is selected exactly when the predicate accepts it at one of its indices; nothing is selected exactly when the predicate rejects every page at its index; never more pages than given (order and multiplicity are fixed by `Reads.SelectAppend` and `Reads.SelectSingle`) |
| Reads.SelectOne | api/Nishan.ts:210-213 | a predicate accepting exactly one index selects exactly the page at that index |
| Reads.CachedPages | api/Nishan.ts:188-191 | the `forEach` over the cached blocks computes `PagesOf` of the cached values in iteration order, including its TypeError |
| Reads.SelectPages | api/Nishan.ts:193-198 | the indexed loop computes `Select` of the pages and the predicate |
| Reads.FirstMatch | api/Nishan.ts:227 | `find` stops at the first entry whose value satisfies `fn`, and finds nothing exactly when no entry does |
| Reads.TargetSpace | api/Nishan.ts:227 | the chosen space is one of the reply's spaces, and the choice throws a TypeError exactly when there is none |
| Reads.SpaceTarget | api/Nishan.ts:220-227 | choosing throws a TypeError exactly when the reply has no space table or an empty one |
| Reads.TargetSpaceFirstMatch | api/Nishan.ts:227 | `setSpace` picks the first space whose value satisfies `fn` when that value is truthy |
| Reads.TargetSpaceFalsyMatch | api/Nishan.ts:227 | a first match whose value is falsy is passed over, and the first space is chosen |
| Reads.TargetSpaceDefault | api/Nishan.ts:227 | when no space satisfies `fn`, `setSpace` falls back to the first space, and throws when there is none |
| Reads.SpaceIdOf | api/Nishan.ts:230 | `target_space.id` is read exactly when the space is an object with a string id, and throws a TypeError on a nullish space |
| Reads.OwnerOf | api/Nishan.ts:231 | `target_space.permission[0].user_id` is read exactly when the space is an object whose non-nullish `permission` has a first element that is an object with a string user id, that id is the result, and it throws a TypeError on a nullish space |
| Reads.ShardOf | api/Nishan.ts:232 | `target_space.shard_id` is read exactly when the space is an object with a numeric shard id, and throws a TypeError on a nullish space |
| Reads.RootUserId | api/Nishan.ts:243 | the root user id is read exactly when the reply has a first user root whose value has a string id; a missing table, an empty table or a `null`/`undefined` value throws a TypeError |
| Operations.PageOps | api/Nishan.ts:136-151 | the page batch has six operations, one per stage of page creation, in stage order |
| Api.OrEmpty | api/Nishan.ts:130 | the destructuring default replaces `undefined` with `{}` and nothing else (so `null` stays) |
| Operations.PageOpsShape | api/Nishan.ts:136-151 | the page batch runs its six stages once each, in order: create a version-1 page record, grant editor permission, link it to the space with its properties and format, list it in the space's `pages`, then the edit and creation stamps naming the user; everything but the list insert targets the new block |
| Operations.PageOpsSwapDetected | api/Nishan.ts:136-151 | exchanging any two operations of the page batch gives a different batch, so the order is fixed |
| Api.Nishan.GetBlock | api/Nishan.ts:55-81 | a truthy cached block is returned with no request and no change; otherwise exactly one backlinks request, the reply is merged, and the result is that of the corrected read (TypeError, `undefined`, context error or the block) |
| Api.Nishan.GetPage | api/Nishan.ts:164-186 | a truthy cached page is returned with no request and no change; otherwise exactly one backlinks request, the reply is merged, and the fetched page or `undefined` is returned |
| Api.Nishan.GetPageWhere | api/Nishan.ts:187-215 | when some cached page passes the predicate, those pages are returned with no request and no change; only when none does, exactly one `loadUserContent` request, the reply merged, and the reply's pages that pass are returned; a `null`/`undefined` value throws |
| Api.Nishan.CreatePage | api/Nishan.ts:129-162 | with a space id and a user id set and no builder bound, a TypeError before anything is sent; with them set and a builder bound, one `saveTransactions` carrying the six-operation page batch in the bound scope, with `{}` for missing properties or format; then one backlinks request, the reply merged, and the new record's value or a TypeError |
| Api.Nishan.GetCollection | api/Nishan.ts:83-127 | one request for the collection; a TypeError if the reply lacks it; one request for its parent block; then the context error when user, space or shard is unset, before the parent is read; the cache never changes |
| Api.Nishan.SetSpace | api/Nishan.ts:219-234 | one `loadUserContent` request, merged; the chosen space's errors are raised even without a user id; without a user id, nothing else changes; otherwise the space id, the first permission's user id and the builder's (shard, space) are set in that order, and a failing read leaves the fields assigned before it |
| Api.Nishan.SetRootUser | api/Nishan.ts:236-244 | one `loadUserContent` request, merged; the user id becomes the first user root's id, or stays as it was when that read throws |

## Left out

- HTTP: every `axios.post` becomes an entry of `sent`, naming its endpoint and body and carrying the cookie. The reply is a parameter of the method, and failed requests are not modelled.
- `uuidv4`: the new page's id is a parameter of `CreatePage`.
- `setTimeout` in `getPage(id)`: the resolution delayed by `interval` is returned at once. `interval` is only stored.
- `Block`, `Page` and `Collection` are not part of this model. Where the source wraps a record in one of them, the model returns the record value. This includes `getPage(id)`, which returns a cached value raw but wraps a fetched one.
- `utils/createTransaction` is not part of this model. `Transaction` pairs the bound (shard, space) scope with the batches, without request ids or timestamps.
- `utils/chunk` is not part of this model. Each operation builder becomes one constructor, and `lastEditOperations` and `createOperation` each become one stamp operation, whose fields the client does not choose.
- `utils/logs` is not part of this model. Warnings and logged errors are not recorded: a missing block yields `undefined`, and `setSpace` without a user id only logs.
- `async`/`await`: calls run one at a time and atomically. The predicate of `getPage` is synchronous.
- Aliasing: a cache object passed to the constructor is copied in as a value. Later changes through another reference are not modelled.
- A supplied cache that lacks some of the eight tables: the cache type always holds all eight.
- Record-map tables other than the eight: a reply cannot hold them. This matches `saveToCache` iterating only the cache's own tables.
- Numbers are integers. Fractional shard ids and versions are not modelled.
- Key order of JSON objects: `Object.values` and `Object.entries` list integer-like keys first. The model keeps each reply's records in the order given.
- Api.Nishan.SetSpace: an `id` or `permission[0].user_id` that is not a string, or a `shard_id` that is not a number, ends in `IllTyped` (through `Reads.SpaceIdOf`, `Reads.OwnerOf` and `Reads.ShardOf`). The source would store the odd value and go on to rebind the builder.
- RecordCache.Lookup: an id naming a member a parsed JSON object inherits from `Object.prototype` (`constructor`, `toString`, `valueOf`, `hasOwnProperty`, `__proto__` and the like) counts as absent when the reply does not list it, whereas `recordMap.block[id]` (api/Nishan.ts:65, 177), `collection[id]` (line 99) and `block[parent_id]` (line 124) find the inherited value. The model has no prototype chain. This changes `Reads.FetchedValue`, `Reads.PageAfterFetch`, `Reads.BlockAfterFetchAsWritten`, `Reads.BlockAfterFetch`, `Api.Nishan.GetBlock`, `Api.Nishan.GetPage` and `Api.Nishan.GetCollection` for such ids: where the source finds the inherited value, they yield `undefined` or a TypeError.
- Reads.SpaceIdOf: an `id` that is not a string yields `IllTyped` instead of the value api/Nishan.ts:230 stores, because the session's space id is a string here.
- Reads.OwnerOf: a `permission[0].user_id` that is not a string yields `IllTyped` instead of the value api/Nishan.ts:231 stores, because the session's user id is a string here.
- Reads.ShardOf: a `shard_id` that is not a number yields `IllTyped` instead of the value api/Nishan.ts:232 binds the builder to, because the session's shard id is an integer here.
- Api.Nishan.SetRootUser: a root user `id` that is not a string ends in `IllTyped` (through `Reads.RootUserId`). The source, at api/Nishan.ts:243, stores whatever `.id` holds.
- Reads.RootUserId: a value without a string `id` yields `IllTyped` instead of the value the source would read, for the reason above.
- Api.Nishan.GetCollection: a `parent_id` that is not a string ends in `IllTyped`. The source would post the odd value as the id.

## Findings

| source | as written | input that shows it | evidently intended | confidence | as-written member | corrected member |
|---|---|---|---|---|---|---|
| api/Nishan.ts:72-80 | the `else` branch of `getBlock` builds a `Block` from the fetched record but does not return it, so the call resolves to `undefined` | empty cache, user, space and shard set, reply holding block "b": `getBlock("b")` yields `undefined`, while a second call returns "b" from the cache | return the built block | not executed | Reads.BlockAfterFetchAsWritten, Reads.GetBlockDropsFoundRecord | Reads.BlockAfterFetch, Reads.BlockReadThrough |
