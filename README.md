# Offline persistence and order sync of the TapResto POS front end

This project models the layer that keeps the point-of-sale front end working
offline, and proves properties about it. The layer has these parts:

- **The local store.** The IndexedDB database `TapRestoDB` at version 7 has four
  partitions (object stores): `storeProfile`, `storeItems`, `storeTables` and
  `pendingOrders`. Each is keyed in-line by the `id` of its rows.
  - `LocalDb` models it as the class `Database`. Its `stores` field maps a
    partition name to a map from key to row.
  - `Open` runs the upgrade step. The upgrade creates only the partitions that
    are missing.
- **Three singleton snapshot caches.** The store profile, the item list and the
  table list each live under one fixed key (`"store"`, `"items"`, `"tables"`).
  - A save replaces the whole row. A load reads `row?.field || null`. A delete
    removes the row.
  - `Snapshots` holds the shared behaviour. `StoreProfileDb`, `StoreItemsDb` and
    `StoreTablesDb` are the three repositories.
- **The pending-order queue (`PendingOrdersDb`).** Orders captured offline are
  stored under a fresh local id. That id is also the record's `_localId` and the
  order's `_localId`.
  - The queue is listed by `getAll` followed by an in-place sort by id. The sort
    is modelled on an array.
  - A record is removed by its key.
- **The sync engine (`OrderSync`).** The module-level `isSyncing` flag becomes a
  field of the class `SyncEngine`.
  - A drain reads the queue once and sends one batch.
  - It then deletes exactly the records that the server's results confirm with
    `ok`, and counts successes and failures.
  - The engine is split at the network await. `Begin` runs up to the request.
    `Finish` handles the response or the thrown error. `SyncPendingOrders` is
    the two together.
- **Session bootstrap and invalidation (`StoreContext`, `StoreLogout`).**
  - On mount, the store provider reads the token from `localStorage`
    (`BrowserStorage`). On native platforms it shows the cached profile first.
  - It then fetches the profile and caches it.
  - On a 401 answer, it removes the token and deletes the three caches.
  - Logout awaits the call to `removeFcmToken()` and then calls the backend
    logout. Once the
    logout succeeds, it removes the `token` and `fcm` entries and deletes the
    same three caches.
  - Neither cascade touches the pending-order queue.

Inputs the outside world supplies are passed in as parameters:

- the server's answers (`SyncResponse`, `FetchOutcome`, `logoutOk`);
- the platform test (`isNative`);
- generated ids and timestamps.

The outgoing requests are returned as values (`SyncRequest`, `ProfileRequest`,
`Call`). Each IndexedDB request is treated as atomic and synchronous.

## Model

| member | source | states |
|---|---|---|
| LocalDb.EnsurePartition | src/offline/db.js:9-11 | one conditional creation step: an existing partition keeps its rows, a missing one is created empty, no other partition changes |
| LocalDb.UpgradedByContents | src/offline/db.js:5-27 | partitions that keep every old partition and add exactly the missing four, empty, are the upgraded ones |
| LocalDb.UpgradeSteps | src/offline/db.js:9-26 | the four conditional creations, in the handler's order, amount to `Upgraded` |
| LocalDb.Upgraded | src/offline/db.js:5-27 | after the upgrade all four partitions exist, existing partitions and their rows are untouched, created ones are empty, nothing else is added, and an already complete database is left as it is |
| LocalDb.UpgradeIdempotent | src/offline/db.js:5-27 | running the upgrade twice gives the same partitions and contents as running it once |
| LocalDb.UpgradeKeepsWellKeyed | src/offline/db.js:9-26 | the upgrade keeps every row under its own `id` key and in a partition of its kind |
| LocalDb.UpgradeKeepsQueue | src/offline/db.js:24-26 | the upgrade leaves the pending-order queue as it was |
| LocalDb.OtherPartitionKeepsQueue | src/offline/db.js:10-25 | a put or delete in any partition other than `pendingOrders` leaves the queue as it was |
| LocalDb.PutRow | src/offline/pendingOrdersDB.js:106 | a put upserts the row under its own key in one partition: every other partition and every other key is unchanged, and a fresh key grows the partition by exactly one |
| LocalDb.DeleteKey | src/offline/pendingOrdersDB.js:134 | a delete removes only the given key from one partition, other partitions and keys are unchanged, and deleting an absent key is a no-op |
| LocalDb.PutKeepsWellKeyed | src/offline/db.js:10-25 | a put of a fitting row keeps every partition keyed by `id` |
| LocalDb.DeleteKeepsWellKeyed | src/offline/db.js:10-25 | a delete keeps every partition keyed by `id` |
| LocalDb.Database.constructor | src/offline/db.js:3 | a database that was never opened has version 0 and no partitions |
| LocalDb.Database.Upgrade | src/offline/db.js:5-27 | the `onupgradeneeded` handler turns the partitions into `Upgraded` of the old ones |
| LocalDb.Database.CreateIfMissing | src/offline/db.js:9-11 | one conditional creation: the partitions become `EnsurePartition` of the old ones |
| LocalDb.Database.Open | src/offline/db.js:1-31 | `openDB` leaves the database at version 7 with its partitions upgraded, and it keeps the store well keyed |
| LocalDb.Database.Put | src/offline/pendingOrdersDB.js:106 | the new partitions are `PutRow` of the old ones |
| LocalDb.Database.Delete | src/offline/pendingOrdersDB.js:134 | the new partitions are `DeleteKey` of the old ones |
| LocalDb.Database.Get | src/offline/storeProfileDB.js:63 | the result is present if and only if the key is stored, and it is then the stored row |
| LocalDb.Database.GetAll | src/offline/pendingOrdersDB.js:119 | every stored row is returned, each exactly once, and nothing else |
| PendingOrdersDb.MakeRecord | src/offline/pendingOrdersDB.js:91-104 | the key `id`, the `_localId` and `order._localId` are one value; `createdAt`/`updatedAt` keep a truthy caller value or take the given time; every other field is copied unchanged; no other field is added |
| PendingOrdersDb.MakeRecordKey | src/offline/pendingOrdersDB.js:95-97 | the record is stored under the generated id |
| PendingOrdersDb.ListingEmpty | src/offline/pendingOrdersDB.js:121-123 | a listing is empty exactly when the queue is empty |
| PendingOrdersDb.ListingTail | src/offline/pendingOrdersDB.js:122 | after its head, a listing lists the rest of the queue |
| PendingOrdersDb.ListingHeadsAgree | src/offline/pendingOrdersDB.js:122 | every listing of a non-empty queue starts with the same record, the one with the least id |
| PendingOrdersDb.ListingUnique | src/offline/pendingOrdersDB.js:113-125 | a queue has exactly one FIFO listing, so the order returned is determined by the stored records alone |
| PendingOrdersDb.InsertById | src/offline/pendingOrdersDB.js:122 | placing a record by id adds exactly that record to the list |
| PendingOrdersDb.InsertSorted | src/offline/pendingOrdersDB.js:122 | placing a record with an unused id keeps a listing in strictly ascending order |
| PendingOrdersDb.ListingAfterSave | src/offline/pendingOrdersDB.js:86-108 | after a save under a fresh id, the new listing is the old one with the new record at its id position |
| PendingOrdersDb.Without | src/offline/pendingOrdersDB.js:131-136 | the records kept are exactly those whose key was not removed |
| PendingOrdersDb.WithoutSorted | src/offline/pendingOrdersDB.js:122 | removing records keeps the others in ascending order |
| PendingOrdersDb.ListingAfterRemoval | src/offline/pendingOrdersDB.js:131-136 | after removing a set of keys, the listing is the old one without those records, in the same relative order |
| PendingOrdersDb.RemovedNeverListed | src/offline/pendingOrdersDB.js:131-136 | after `removePendingOrder(id)` no listing contains that id |
| PendingOrdersDb.SortedRowsAreListing | src/offline/pendingOrdersDB.js:119-123 | the rows that `getAll` returned, once sorted by id, list the queue: each stored record exactly once, in ascending order |
| PendingOrdersDb.InsertStep | src/offline/pendingOrdersDB.js:122 | one insertion pass extends the sorted prefix by one element and only permutes the array |
| PendingOrdersDb.SortById | src/offline/pendingOrdersDB.js:122 | `list.sort((a, b) => a.id - b.id)` leaves the array sorted by id and a permutation of its old contents |
| PendingOrdersDb.SavePendingOrder | src/offline/pendingOrdersDB.js:86-108 | the database is opened and then holds `MakeRecord` of the order under the generated id, with nothing else changed |
| PendingOrdersDb.GetPendingOrders | src/offline/pendingOrdersDB.js:113-126 | the result lists the queue (every stored record exactly once, ascending by id) and no partition changes (read-only) |
| PendingOrdersDb.RemovePendingOrder | src/offline/pendingOrdersDB.js:131-136 | only key `id` of the queue is deleted |
| Snapshots.ReadSnapshot | src/offline/storeProfileDB.js:64 | a load is `null` or truthy; nothing stored reads as `null`; a truthy stored payload is returned as it is |
| Snapshots.SaveThenLoad | src/offline/storeProfileDB.js:52-66 | a save followed by a load returns the saved value when it is truthy and `null` otherwise |
| Snapshots.SecondSaveReplaces | src/offline/storeProfileDB.js:55 | a second save replaces the first wholesale |
| Snapshots.DeleteThenLoad | src/offline/storeProfileDB.js:68-73 | a delete followed by a load returns `null` |
| Snapshots.SaveKeepsOtherSnapshots | src/offline/storeProfileDB.js:55 | a save of one snapshot leaves the load of every other partition and key as it was |
| Snapshots.DeleteKeepsOtherSnapshots | src/offline/storeProfileDB.js:70-72 | a delete of one snapshot leaves the load of every other partition and key as it was |
| Snapshots.Save | src/offline/storeProfileDB.js:52-57 | open, then a put of the single row under the fixed key |
| Snapshots.Load | src/offline/storeProfileDB.js:59-66 | open, then the loaded value is `ReadSnapshot` of the store; nothing changes beyond the upgrade |
| Snapshots.Delete | src/offline/storeProfileDB.js:68-73 | open, then a delete of the fixed key only |
| StoreProfileDb.SaveStoreProfile | src/offline/storeProfileDB.js:52-57 | the profile replaces the single row under key `"store"` of `storeProfile` |
| StoreProfileDb.GetStoreProfile | src/offline/storeProfileDB.js:59-66 | returns the stored truthy profile or `null`, and nothing changes beyond the upgrade an open performs |
| StoreProfileDb.DeleteStoreProfile | src/offline/storeProfileDB.js:68-73 | deletes key `"store"` of `storeProfile` only |
| StoreItemsDb.SaveStoreItems | src/offline/storeItemsDB.js:3-7 | the list replaces the single row under key `"items"` of `storeItems` |
| StoreItemsDb.GetStoreItems | src/offline/storeItemsDB.js:9-16 | returns the stored truthy list or `null`, and nothing changes beyond the upgrade an open performs |
| StoreItemsDb.DeleteStoreItems | src/offline/storeItemsDB.js:18-23 | deletes key `"items"` of `storeItems` only |
| StoreTablesDb.SaveStoreTables | src/offline/storeTablesDB.js:4-9 | the list replaces the single row under key `"tables"` of `storeTables` |
| StoreTablesDb.GetStoreTables | src/offline/storeTablesDB.js:12-19 | returns the stored truthy list or `null`, and nothing changes beyond the upgrade an open performs |
| StoreTablesDb.DeleteStoreTables | src/offline/storeTablesDB.js:22-26 | deletes key `"tables"` of `storeTables` only |
| BrowserStorage.Lookup | src/context/StoreContext.jsx:72 | `getItem` yields a value if and only if the key is stored, and it is then the stored string |
| BrowserStorage.LocalStorage.GetItem | src/context/StoreContext.jsx:72 | returns `Lookup` of the stored items |
| BrowserStorage.LocalStorage.RemoveItem | src/context/StoreContext.jsx:107 | removes only that key, and is a no-op when the key is absent |
| OrderSync.BatchEntry | src/utils/orderSync.js:95-98 | an entry is the record's order with `_localId` set to the record's id, every other field kept |
| OrderSync.BuildBatch | src/utils/orderSync.js:93-98 | `storeId` is the first record's `order.storeId`, and there is one entry per record in the same order |
| OrderSync.BatchCorrelatesQueue | src/utils/orderSync.js:95-98 | the batch built from a listing carries every queued record's id exactly once, as `_localId`, in ascending FIFO order |
| OrderSync.OkRefsMembership | src/utils/orderSync.js:119-126 | a key is confirmed if and only if some result with `ok` names it as `orderRef` |
| OrderSync.CountsAddUp | src/utils/orderSync.js:113-126 | `successCount + failedCount` is the number of results |
| OrderSync.CountOkIsOkResults | src/utils/orderSync.js:119-125 | `successCount` is the number of results with `ok` |
| OrderSync.KeptIffUnconfirmed | src/utils/orderSync.js:119-126 | a queued record stays if and only if no `ok` result names it, and a record that stays is unchanged |
| OrderSync.ReconcileNothing | src/utils/orderSync.js:111-119 | applying no results (an empty or missing `results` array) deletes nothing |
| OrderSync.ReconcileStep | src/utils/orderSync.js:119-126 | one more result is one more queue delete and one more success when `ok`, and only one more failure otherwise |
| OrderSync.FullConfirmationDrains | src/utils/orderSync.js:119-126 | when every record of the snapshot is confirmed, the queue ends empty |
| OrderSync.SavedDuringDrainSurvives | src/utils/orderSync.js:82-126 | an order saved while a drain is in flight, and not named by an `ok` result, is still queued and unchanged afterwards |
| OrderSync.ReplayIsIdempotent | src/utils/orderSync.js:119-126 | reconciling the partitions a second time with the same results leaves them as the first reconciliation did |
| OrderSync.PartialFailureScenario | src/utils/orderSync.js:119-126 | of queued A, B, C with A confirmed and B rejected, B and C remain and are listed as [B, C] |
| OrderSync.SyncEngine.constructor | src/utils/orderSync.js:75 | the flag starts cleared |
| OrderSync.SyncEngine.Begin | src/utils/orderSync.js:78-109 | with the flag set, nothing is read or sent and nothing changes; otherwise the snapshot is the queue's listing, an empty queue sends nothing and clears the flag, and a non-empty one sends `BuildBatch` of it with the flag kept set |
| OrderSync.SyncEngine.Finish | src/utils/orderSync.js:111-142 | on a response the new partitions are `Reconciled` by the results: exactly the confirmed keys are deleted from the queue and the counts are `CountOk`/`CountFailed`; on a thrown error nothing is deleted; the flag is cleared either way |
| OrderSync.SyncEngine.SyncPendingOrders | src/utils/orderSync.js:77-143 | the whole drain: the early return, the empty-queue return, and one batch followed by deletion of exactly the confirmed records or no deletion on error, with the flag cleared on every path that started a drain |
| StoreContext.InvalidationClearsCaches | src/context/StoreContext.jsx:109-111 | after the 401 cascade the profile, items and tables caches read as `null` |
| StoreContext.InvalidationKeepsQueue | src/context/StoreContext.jsx:104-115 | the 401 cascade leaves the pending-order queue as it was |
| StoreContext.InvalidationKeepsOtherRows | src/context/StoreContext.jsx:109-111 | apart from the three snapshot rows, the cascade changes no partition and no row beyond what opening the database does |
| StoreContext.BodyWithoutStoreClearsCache | src/context/StoreContext.jsx:98-102 | a body with no `store` field shows `undefined` and, cached on native, leaves the profile cache reading as `null` |
| StoreContext.InvalidationSteps | src/context/StoreContext.jsx:109-111 | the three deletes, each opening the database, end in `InvalidatedStores` |
| StoreContext.DeleteCaches | src/context/StoreContext.jsx:109-111 | the three awaited deletes leave the database at `InvalidatedStores` of the old partitions |
| StoreContext.StoreProvider.constructor | src/context/StoreContext.jsx:67-69 | `store` starts as `{}`, `isLoading` as true and `error` as `null` |
| StoreContext.StoreProvider.ShowCached | src/context/StoreContext.jsx:82-88 | on native, a truthy cached profile is shown and loading ends before the fetch resolves; a missing one changes nothing; off native the database is not touched |
| StoreContext.StoreProvider.Settle | src/context/StoreContext.jsx:91-117 | a fetched profile is shown and, on native, replaces the cached one; a 401 removes the token, deletes the three caches and resets `store`; another failure changes nothing; the database is left at version 7 whenever it was opened; the queue is never touched and loading always ends |
| StoreContext.StoreProvider.Mount | src/context/StoreContext.jsx:71-121 | with no token no fetch is made and nothing else changes but loading ends; with a token, the stale read and then each outcome of the fetch as in `Settle`; on native and after a 401 the database is left at version 7; the queue is never touched |
| StoreLogout.LogoutSteps | src/pages/StoreLogout.jsx:30-32 | the three deletes, each opening the database, end in `LoggedOutStores` |
| StoreLogout.LogoutClearsLikeInvalidation | src/pages/StoreLogout.jsx:26-33 | logout clears exactly what the 401 cascade clears, whatever the order of the three deletes |
| StoreLogout.LoggedOutClearsCaches | src/pages/StoreLogout.jsx:26-33 | after a logout the three caches read as `null` and the queue is as it was |
| StoreLogout.DeleteCaches | src/pages/StoreLogout.jsx:30-32 | the three awaited deletes leave the database at `LoggedOutStores` of the old partitions |
| StoreLogout.HandleLogout | src/pages/StoreLogout.jsx:15-42 | the awaited call to `removeFcmToken()` comes before the logout call, which carries the token read at render; on success `token` and `fcm` are removed, the database is left at version 7 and the three caches deleted; on failure nothing is cleared; the queue is never touched |

## Left out

- Asynchrony and failure of IndexedDB requests. Each request is atomic and
  synchronous and never fails. The failure paths are not modelled: an open that
  never resolves, a rejected transaction, and the errors that would reach the
  `catch` blocks of `syncPendingOrders` and `initStore` from the local store.
- `tx.complete`: it is not an IndexedDB property, so no caller actually waits
  for a commit. With atomic requests this makes no difference.
- A stored database version above 7. `openDB` would then never resolve. The
  model keeps the version at or below 7.
- How ids and timestamps are generated (`Date.now() + Math.random()`,
  `new Date().toISOString()`). The id and the two time strings are parameters
  of `SavePendingOrder`. Callers are expected to pass a fresh id, which
  `ListingAfterSave` requires.
- NaN and floating-point rounding. Ids and numbers are exact reals. The sort
  comparator `a.id - b.id` is modelled as comparing ids.
- The exact order of `getAll`. It returns rows in ascending key order, but the
  model leaves that order unspecified. The sort that follows establishes the
  order on its own.
- The field name of a snapshot row's payload. The row is `{ id, profile }` or
  `{ id, list }`; the model stores only the payload, which each repository
  reads back from the same field.
- A result whose `orderRef` is not a valid IndexedDB key, and a result whose
  `ok` is truthy without being a boolean. `orderRef` is a number and `ok` a
  boolean. A missing `results` array is the empty sequence, as
  `res.data.results || []` makes it.
- Interleavings of real concurrency. The sync engine and the bootstrap are split
  at their network await points. An enqueue or a second drain while one is in
  flight is therefore stated between the two halves (see
  `SavedDuringDrainSurvives` and the early return of `Begin`), not as a true
  interleaving.
- Toasts, console logging, navigation and rendering. The toast summary is the
  returned `SyncReport`. The `navigate("/store-login")` after logout is not
  modelled.
- The context value object and the React state setters (`setStore`,
  `setIsLoading`, `setError`). The value only re-exposes the provider's three
  fields, which are the fields of `StoreContext.StoreProvider`. `error` is never
  set by `initStore`, and the model keeps it unchanged.
- React re-rendering and effect scheduling. `Mount` is the effect run once, as
  the empty dependency list makes it.
- Response bodies of the profile fetch other than JSON objects. A string,
  number, boolean or array body has no `store` field, so `data.store` is
  `undefined` and it behaves exactly as `Fetched(map[])`: `store` becomes
  `undefined` and, on native, the cached profile is overwritten and then reads
  back as `null`. A `null` body makes `data.store` throw a `TypeError` with no
  response, which behaves exactly as `Failed(None)`.
- `removeFcmToken` (src/utils/removeFcm.js). It is an external call that
  swallows its own errors and changes no local state, so the model records only
  that `handleLogout` awaits it before the logout call. Whether it sends a
  request, which happens only when both `fcm` and `token` are stored
  (src/utils/removeFcm.js:7), is not modelled.
- The `Authorization` header of the logout call when no token is stored. It
  carries the `getItem` result as `Option`; the string `Bearer null` is not
  built.
- The push and notification modules, printing and bill formatting, table
  management, routing guards and the back-button handler: they are outside this
  layer. The commented-out legacy code (retry counters, the per-order sync loop)
  is not live and is not modelled.
