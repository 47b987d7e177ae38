# Phone-inventory map: cache, endpoints, login, coordinate pass and monitor

The system is a store-locator and phone-inventory map. Its Express server reads
four Google Sheets: the phone inventory, the store list, the agents and the
colour codes. Every read goes through an in-memory TTL cache
(`cacheUtils`). The server answers:

- `/api/stores`: each store row joined with its per-model, per-colour phone
  counts, optionally without phones shipped in the last three days;
- `/api/models`: model to sorted colour list;
- `/api/agents`: the agent list;
- `/api/login`: inventory-mode ids, then agents, then stores.

Two maintenance paths use the same store sheet. `/api/update-coordinates` and
the hourly `checkAndUpdateAddresses` geocode every active store's address and
batch-write latitude and longitude back.

A separate uptime monitor polls the server. It counts consecutive failures
and sends a Discord alert once the server is down and again when it
recovers.

The browser keeps its own two-tier cache: a memory map backed by
`localStorage` under `cache_` keys. Its `fetchData` flattens the server's
store tree into a per-store phone list.

The model is split into these modules:

- `TtlCache`: the server cache, kept as an insertion-ordered key list plus entries.
- `Sheets`: sheet reads through the cache, and cache refresh.
- `Inventory`: the stores aggregation and join.
- `Catalog`: models and agents.
- `Endpoints`: the three GET routes.
- `Login`: the login route.
- `Coordinates`: the coordinate pass.
- `ClientCache`: the browser cache.
- `ClientFetch`: `fetchData`.
- `Monitor`: the uptime monitor.

Stateful code is modelled as classes. `TtlCache.TtlCache`,
`ClientCache.ClientCache` and `Monitor.StatusMonitor` have methods whose
`ensures` tie the new state to a pure specification function of the old
state. The lemmas prove what the source promises about those functions.

The following are parameters of each operation, not modelled effects:

- the current time;
- each sheet read (`string -> SheetRead`);
- the geocoder result per row;
- whether the batch write succeeded;
- date parsing;
- whether a Discord message or a `localStorage` write got through;
- the HTTP response seen by `fetchData`.

## Model

| member | source | states |
|---|---|---|
| CacheEntry.Fresh | server/index.js:19-26 | a record set at now with ttl holds the data, is stamped now, is live at now+ttl and expired one millisecond later |
| TtlCache.Put | server/index.js:19-33 | setting a key keeps the cache well-formed: the key list has no duplicates, names exactly the stored keys and never exceeds MAX_CACHE_SIZE |
| TtlCache.Remove | server/index.js:56-59 | deleting a key keeps the cache well-formed |
| TtlCache.Lookup | server/index.js:36-53 | reading a key keeps the cache well-formed |
| TtlCache.Sweep | server/index.js:62-76 | removing expired entries keeps the cache well-formed |
| TtlCache.PutStores | server/index.js:19-33 | after set, the key holds {data, now, now+ttl}; every other surviving key holds exactly what it held before |
| TtlCache.PutOverwriteKeepsOrder | server/index.js:19-33 | re-setting a present key keeps the insertion order and the key set (Map.set on an existing key) |
| TtlCache.PutNewKeyFifo | server/index.js:19-33 | a new key is appended; when the cache already holds MAX_CACHE_SIZE entries, the oldest key is evicted first |
| TtlCache.GetAfterSet | server/index.js:19-53 | get after set returns the data and changes nothing while now <= t0+ttl; afterwards it returns nothing and deletes the key |
| TtlCache.LookupHitIffLive | server/index.js:36-53 | get hits iff the key is present and not expired; a hit returns the stored data and leaves the cache unchanged; a miss removes exactly that key (if present) from the entries and the insertion order, and every other key keeps its entry |
| TtlCache.PutKeepsOthers | server/index.js:19-33 | a set that evicts nothing (the key is present or the Map is below MAX_CACHE_SIZE) keeps every other key with its entry and grows the Map by at most one |
| TtlCache.SweepExact | server/index.js:62-76 | cleanup keeps exactly the entries with now <= expiry, unchanged, in their original order |
| TtlCache.CountsPartition | server/index.js:79-87 | live and expired entries partition the keys |
| TtlCache.StatusCounts | server/index.js:79-87 | getStatus: total is the cache size, valid + expired = total, expired counts the entries past their expiry |
| TtlCache.DistinctKeysCount | server/index.js:79-87 | the key list and the entry map have the same size |
| TtlCache.TtlCache.constructor | server/index.js:12 | the cache starts empty |
| TtlCache.TtlCache.Set | server/index.js:19-33 | updates the state to Put of the old state |
| TtlCache.TtlCache.Get | server/index.js:36-53 | returns and updates the state as Lookup |
| TtlCache.TtlCache.Delete | server/index.js:56-59 | updates the state to Remove of the old state |
| TtlCache.TtlCache.Cleanup | server/index.js:62-76 | its delete-while-iterating loop leaves Sweep of the old state and returns the number of deleted entries |
| StringOrder.Insert | server/index.js:772-780 | inserting a colour into a strictly sorted list keeps it strictly sorted, with exactly the old members plus the new one (push then sort, no duplicates) |
| StringOrder.BelowTransitive | server/index.js:780 | the code-unit order used by sort is transitive |
| StringOrder.BelowTotal | server/index.js:780 | the code-unit order relates any two distinct strings |
| StringOrder.BelowIrreflexive | server/index.js:780 | no string is below itself |
| Text.TrimStartShape | server/index.js:629-633 | trimStart removes exactly a whitespace prefix and leaves a string that does not start with whitespace |
| Text.TrimEndShape | server/index.js:629-633 | trimEnd removes exactly a whitespace suffix |
| Text.TrimShape | server/index.js:629-633 | trim never lengthens and leaves no whitespace at either end |
| Text.TrimEmptyIffBlank | server/index.js:629-633 | trim gives "" iff the string is all whitespace |
| Text.TrimIdempotent | server/index.js:629-633 | trimming twice is trimming once |
| Text.NatToString | server/index.js:510 | the decimal text of a row number is non-empty and all digits |
| Text.ParseNatToString | server/index.js:510 | the decimal text of n reads back as n |
| Text.NatToStringInjective | server/index.js:510 | distinct row numbers have distinct decimal texts |
| Inventory.CategoryOf | server/index.js:651-659 | the category is Sims iff the type is "유심", Wearables iff "웨어러블", SmartDevices iff "스마트기기", phones otherwise |
| Inventory.StoreInventory.WithBranch | server/index.js:641-668 | replacing one category branch changes that branch only |
| Inventory.Bump | server/index.js:641-675 | counting a row adds its store to the map's keys |
| Inventory.BumpCount | server/index.js:661-675 | counting a row adds one at its own (store, category, model, colour, status) path and nothing elsewhere |
| Inventory.ClassifyKeeps | server/index.js:626-659 | a row is counted iff it has at least 15 cells, non-blank trimmed store, model and colour, and is not a recent shipment under includeShipped=false; it is counted under the trimmed cells, with the category from the type column |
| Inventory.ShippedIgnoredUnlessFalse | server/index.js:615-639 | unless includeShipped is "false", the shipping date plays no part |
| Inventory.ShippedExclusion | server/index.js:615-639 | with includeShipped "false", a well-formed row is dropped iff it was shipped on or after threeDaysAgo; with "true" it is kept |
| Inventory.Survivors | server/index.js:626-676 | the rows kept are at most the rows read |
| Inventory.BuildInventoryMap | server/index.js:626-676 | the aggregation loop computes Aggregate over the kept rows |
| Inventory.AggregateCounts | server/index.js:626-676 | each path's count is the number of kept rows on that path |
| Inventory.AggregateStores | server/index.js:626-676 | the map's stores are exactly the stores of the kept rows |
| Inventory.SurvivorsAppend | server/index.js:626-676 | filtering distributes over concatenation |
| Inventory.SurvivorsSingle | server/index.js:626-676 | one row survives as its path or not at all |
| Inventory.Join | server/index.js:679-714 | the joined list is at most as long as the store rows |
| Inventory.JoinRecords | server/index.js:679-714 | every joined store has a non-blank trimmed name and id, uniqueId = id + "_" + name, its own inventory entry (or none), and non-empty coordinates |
| Inventory.JoinMembers | server/index.js:679-714 | a record is listed iff some store row passes the filter and maps to it |
| Inventory.JoinAppend | server/index.js:679-714 | the join distributes over concatenation, so row order is kept |
| Inventory.JoinSingle | server/index.js:679-714 | one row joins to its record iff it passes the filter |
| Catalog.ModelIndex | server/index.js:754-782 | every colour list in the model index is strictly sorted |
| Catalog.ModelIndexExact | server/index.js:754-782 | colour c is listed under model m iff some inventory row yields the pair (m, c) |
| Catalog.ModelIndexNonEmpty | server/index.js:754-782 | no model has an empty colour list |
| Catalog.SortedUnique | server/index.js:779-781 | two strictly sorted lists with the same members are equal, so each colour list is determined by its members |
| Catalog.AgentList | server/index.js:822-831 | the agent list is at most as long as the agent rows |
| Catalog.AgentListMembers | server/index.js:822-831 | an agent is listed iff some row has a non-empty contact id (column C) and maps to it; listed agents have a non-empty contact id |
| Catalog.AgentListAppend | server/index.js:822-831 | the agent list distributes over concatenation, so row order is kept |
| Catalog.AgentListSingle | server/index.js:822-831 | one row yields its agent iff its column C is non-empty |
| Sheets.SheetKey | server/index.js:315 | sheet keys start with "sheet_", never with the stores prefix, and differ from the models and agents keys |
| Sheets.StoresKey | server/index.js:589 | stores keys start with "processed_stores_data_", never with "sheet_", and differ from the models and agents keys |
| Sheets.ProcessedKeys | server/index.js:734 | the models and agents keys belong to neither prefixed family |
| Sheets.TypedPut | server/index.js:19-33 | storing a payload under its own key family keeps every key holding its family's payload |
| Sheets.TypedRemove | server/index.js:36-76 | delete, get and cleanup keep every key holding its family's payload |
| Sheets.SheetFetch | server/index.js:314-340 | reading a sheet through the cache keeps it well-formed and typed |
| Sheets.SheetFetchHit | server/index.js:318-321 | a live cached sheet is returned without calling the API and the cache is left unchanged |
| Sheets.SheetFetchMiss | server/index.js:323-339 | on a cold cache the result is the API's answer (missing values read as []); a success is cached for five minutes; a failure leaves the key absent |
| Sheets.SheetFetchOthers | server/index.js:314-340 | reading one sheet never adds or changes any other key |
| Sheets.SheetFetchAnswer | server/index.js:314-340 | whether the sheet is cached or not, the result is the cached rows while live and the API's answer otherwise; after a success the sheet's key holds those rows, live |
| Sheets.SheetFetchKeeps | server/index.js:314-340 | when the read evicts nothing (the sheet is live, or the Map is below MAX_CACHE_SIZE), every other key keeps its entry |
| Sheets.GetSheetValues | server/index.js:314-340 | returns and updates the cache as SheetFetch |
| Sheets.Refresh | server/index.js:465-485 | cache-refresh keeps the cache well-formed and typed |
| Sheets.RefreshEffects | server/index.js:465-485 | with a sheet name, exactly that sheet's key is dropped; without one, exactly the live entries remain |
| Sheets.CacheRefresh | server/index.js:465-485 | updates the cache as Refresh |
| Endpoints.StoresSpec | server/index.js:587-730 | the stores route keeps the cache well-formed and typed |
| Endpoints.GetStores | server/index.js:587-730 | returns and updates the cache as StoresSpec |
| Endpoints.StoresHit | server/index.js:591-596 | a live cached store list for the flag is served without reading any sheet and the cache is unchanged |
| Endpoints.StoresMiss | server/index.js:598-729 | when the flag's store list is not live, whether or not the sheets are cached: success iff both sheets' answers through the cache are rows; the body is the join of the store rows with the aggregated inventory (header rows skipped); it is cached for five minutes under the flag's key; on failure nothing is cached under that key; the store sheet's answer is the one cached before the request unless the inventory read evicted it from a full Map |
| Endpoints.ModelsSpec | server/index.js:733-798 | the models route keeps the cache well-formed and typed |
| Endpoints.GetModels | server/index.js:733-798 | returns and updates the cache as ModelsSpec |
| Endpoints.ModelsHit | server/index.js:733-741 | a live cached model index is served without reading any sheet and the cache is unchanged |
| Endpoints.ModelsMiss | server/index.js:733-798 | when the model index is not live, whether or not the sheet is cached: success iff the inventory sheet's answer through the cache is rows; the body is the model index of the rows after the three header rows; it is cached for five minutes; on failure nothing is cached under that key |
| Endpoints.AgentsSpec | server/index.js:801-847 | the agents route keeps the cache well-formed and typed |
| Endpoints.GetAgents | server/index.js:801-847 | returns and updates the cache as AgentsSpec |
| Endpoints.AgentsHit | server/index.js:801-809 | a live cached agent list is served without reading any sheet and the cache is unchanged |
| Endpoints.AgentsMiss | server/index.js:801-847 | when the agent list is not live, whether or not the sheet is cached: success iff the agent sheet's answer through the cache is rows; the body is the agent list of the rows after the header; it is cached for five minutes; on failure nothing is cached under that key |
| Endpoints.LookupKeepsSheets | server/index.js:36-53 | looking up a processed key leaves every sheet key and its entry as it was |
| Login.FindFirst | server/index.js:1095-1102 | the index found is the first row whose column equals the id; none is found only when no row matches |
| Login.LoginSpec | server/index.js:949-1173 | login keeps the cache well-formed and typed |
| Login.Login | server/index.js:949-1173 | returns the outcome and updates the cache as LoginSpec |
| Login.LoginMissingId | server/index.js:953-958 | a missing or empty id is a 400 and reads nothing |
| Login.LoginReserved | server/index.js:963-1014 | a reserved id opens inventory mode under that id with the fixed record, whatever the sheets hold, and the cache is untouched |
| Login.LoginOrder | server/index.js:1016-1172 | with each sheet answered through the cache, cached or not: an unreadable agent sheet is a 500; the first agent whose column C matches wins and the store sheet plays no part; otherwise an unreadable store sheet is a 500, the first store whose column H (index 7) matches wins, and no match is a 404; the store sheet's answer is the one cached before the request unless the agent read evicted it from a full Map |
| Coordinates.CollectUpdates | server/index.js:498-556 | the row loop produces Plan (one update per row) and pauses exactly where Paused says |
| Coordinates.PlanAt | server/index.js:501-553 | the batch has one update per row; row i's range is "폰클출고처데이터!A{i+2}:B{i+2}" with the row's values |
| Coordinates.RowValuesWrite | server/index.js:506-553 | coordinates are written iff the store is active ("사용"), its address is not blank and the geocoder finds it; all other rows are cleared |
| Coordinates.PlanIgnoresOtherRows | server/index.js:501-553 | the geocoder is consulted only for active rows with an address |
| Coordinates.RangesDistinct | server/index.js:510 | distinct rows get distinct ranges, so no update overwrites another |
| Coordinates.ColonSplit | server/index.js:510 | the row number is recovered from its range text |
| Coordinates.PausedExact | server/index.js:555 | the one-second pause happens exactly after each active row with a non-blank address, in row order |
| Coordinates.PassSpec | server/index.js:488-584 | the coordinate pass keeps the cache well-formed and typed |
| Coordinates.CoordinatePass | server/index.js:488-584 | returns the outcome and updates the cache as PassSpec |
| Coordinates.UpdateCoordinates | server/index.js:488-584 | responds with Response of the pass outcome |
| Coordinates.CheckAndUpdateAddresses | server/index.js:1176-1263 | runs the same pass and swallows its errors |
| Coordinates.PassResult | server/index.js:488-584 | whether or not the store sheet is cached: an unreadable sheet fails; an empty sheet writes nothing; otherwise the batch is Plan of the rows with one entry per row, and the route succeeds iff the write did, reporting the row count; the write does not invalidate the cache, so the sheet's key still holds, live, the rows the batch was planned from |
| ClientCache.StorageKey | src/api.js:19 | storage keys carry the "cache_" prefix followed by the key |
| ClientCache.StorageKeyInjective | src/api.js:19 | distinct keys have distinct storage keys |
| ClientCache.SetSpec | src/api.js:9-27 | set keeps the two tiers well-formed |
| ClientCache.GetSpec | src/api.js:30-61 | get keeps the two tiers well-formed |
| ClientCache.DeleteSpec | src/api.js:64-71 | delete keeps the two tiers well-formed |
| ClientCache.CleanupSpec | src/api.js:74-101 | cleanup keeps the two tiers well-formed |
| ClientCache.ClearAllSpec | src/api.js:338-351 | clearAll keeps the two tiers well-formed |
| ClientCache.ClientCache.constructor | src/api.js:4 | memory starts empty over whatever localStorage holds |
| ClientCache.ClientCache.Set | src/api.js:9-27 | updates both tiers as SetSpec |
| ClientCache.ClientCache.Get | src/api.js:30-61 | returns and updates both tiers as GetSpec |
| ClientCache.ClientCache.Delete | src/api.js:64-71 | updates both tiers as DeleteSpec |
| ClientCache.ClientCache.Cleanup | src/api.js:74-101 | its two loops leave CleanupSpec of the old state |
| ClientCache.ClientCache.ClearAll | src/api.js:338-351 | its loop leaves ClearAllSpec of the old state |
| ClientCache.ClientCache.GetStatus | src/api.js:299-323 | its counting loop returns StatusSpec of the current state |
| ClientCache.SetBothTiers | src/api.js:9-27 | set stores {data, now, now+ttl} in memory, mirrors it to storage when the write succeeds, leaves storage alone when it fails, and keeps other memory keys |
| ClientCache.ClientGetAfterSet | src/api.js:9-61 | get after set returns the data unchanged while live; once expired and persisted, it returns nothing and clears both tiers |
| ClientCache.GetMemoryFirst | src/api.js:32-41 | a live memory entry is served from memory whatever storage holds |
| ClientCache.GetPromotes | src/api.js:43-51 | a live stored entry missing from memory is returned and copied into memory, so the next get hits memory |
| ClientCache.GetNoneClears | src/api.js:36-57 | a miss leaves the key in neither tier |
| ClientCache.GetOthersUnchanged | src/api.js:30-61 | get touches no other key in either tier |
| ClientCache.DeleteForgets | src/api.js:64-71 | after delete the key misses, and every other key reads as before |
| ClientCache.CleanupExact | src/api.js:74-101 | cleanup keeps exactly the live memory entries and the storage items not expired; keys without the prefix are never removed |
| ClientCache.CleanupUnobservable | src/api.js:74-101 | cleanup never changes what get returns |
| ClientCache.ClearAllExact | src/api.js:338-351 | clearAll empties memory and removes exactly the prefixed storage keys, after which every get misses |
| ClientCache.StatusPartition | src/api.js:299-323 | valid counts the live memory entries, expired the rest, and they sum to the total |
| ClientFetch.ProcessAll | src/api.js:141-184 | one processed store per server store, in order; each keeps its record, carries its flattened inventory with the summed quantity (never negative), and has inventory iff it holds at least one phone row |
| ClientFetch.FlattenInventory | src/api.js:141-184 | the nested loops produce Items of the store |
| ClientFetch.ProcessStores | src/api.js:141-184 | the map loop produces ProcessAll |
| ClientFetch.ColorItemsExact | src/api.js:150-160 | an item comes from a colour iff that colour's quantity is positive and the item carries store, model, colour and quantity |
| ClientFetch.PhoneItemsExact | src/api.js:145-163 | items come only from models whose colour data is an object |
| ClientFetch.PhoneItemsPositive | src/api.js:145-163 | every flattened item has a positive quantity |
| ClientFetch.ColorItemsPositive | src/api.js:150-160 | every colour item has a positive quantity |
| ClientFetch.PhoneCountPositive | src/api.js:176-182 | with positive quantities the phone count is non-negative, and positive iff there are items |
| ClientFetch.PhoneCountAppend | src/api.js:176 | the phone count adds over concatenation |
| ClientFetch.HasInventoryIffRows | src/api.js:176-182 | hasInventory holds iff the store has at least one item; the count is never negative |
| ClientFetch.StoresCacheKeyInjective | src/api.js:116 | different (flag, timestamp) requests never share a cache key |
| ClientFetch.FetchSpec | src/api.js:114-217 | fetchData keeps the client cache well-formed |
| ClientFetch.FetchData | src/api.js:114-217 | returns and updates the client cache as FetchSpec |
| ClientFetch.FetchStampedBypass | src/api.js:119-125 | a non-zero timestamp skips the cache read: the result does not depend on the cache, is the processed response, and is stored; an error changes nothing |
| ClientFetch.FetchCachedHit | src/api.js:119-125 | without a timestamp, a cache hit is returned and the response plays no part |
| ClientFetch.FetchThenCached | src/api.js:114-203 | after a successful fetch, a second fetch within five minutes returns the same processed data whatever the server says |
| Monitor.StatusMonitor.constructor | server/monitor.js:21-28 | the record starts offline, unchecked, with no retries and nothing notified |
| Monitor.StatusMonitor.SendDiscordAlert | server/monitor.js:76-111 | updates the record as Alert |
| Monitor.StatusMonitor.HandleServerDown | server/monitor.js:144-158 | updates the record as ServerDown |
| Monitor.StatusMonitor.CheckServerStatus | server/monitor.js:114-141 | updates the record as Check |
| Monitor.CheckSuccess | server/monitor.js:116-132 | a reachable server is marked online, with retries reset, notified cleared and both times stamped; the last outage time is kept |
| Monitor.RecoveryAlert | server/monitor.js:124-127 | a recovery alert is attempted exactly when the server was offline after a recorded outage |
| Monitor.FailureCounts | server/monitor.js:147 | every failed check adds one retry |
| Monitor.BelowThresholdQuiet | server/monitor.js:147-157 | below MAX_RETRIES a failure changes only the retry count and the check time |
| Monitor.DownTransition | server/monitor.js:150-157 | at the threshold a failure marks the server offline and sends a down alert if it was online or nothing was delivered yet; otherwise it only counts |
| Monitor.NotifiedOnlyByDelivery | server/monitor.js:76-111 | notified becomes true only through a delivered alert |
| Monitor.NoRealert | server/monitor.js:150-157 | once a down alert was delivered, further failures send nothing more |
| Monitor.FailuresBelowThreshold | server/monitor.js:144-158 | fewer than MAX_RETRIES consecutive failures leave the status and the alerts unchanged |
| Monitor.ConsistentRun | server/monitor.js:114-158 | with a positive threshold, every run keeps "online implies no pending notice and retries below the threshold" |
| Monitor.ThresholdAlert | server/monitor.js:15 | from a freshly reset online server, exactly MAX_RETRIES failures end offline with one down alert, sent at the last failure |
| Monitor.DefaultThreshold | server/monitor.js:15-158 | with MAX_RETRIES unset (3), an online server survives two consecutive failures with no alert, and the third marks it down with one down alert |
| Monitor.NotifiedRun | server/monitor.js:76-158 | across any run of checks the alert log only grows, and notified holds at the end only if it held at the start or some alert sent during the run was delivered |
| Monitor.RunAppend | server/monitor.js:114-141 | running two batches of checks is running them in sequence |

## Left out

- Google Sheets, the Kakao geocoder, Discord and HTTP are not modelled. Their results are parameters.
- The batch write is one success flag.
- The monitor's status file (loadStatus and saveStatus) is not modelled.
- Log embeds and `sendLogToDiscord` are not modelled.
- Request logging (device info, IP) is not modelled.
- `setInterval` timers are not modelled. The cleanup and address-check schedules are outside the model.
- The one-second delay in the coordinate loop is recorded as a list of paused rows, not as time.
- Each request or operation reads the clock once (one `now`).
- Timestamps are integers in milliseconds. ISO strings and `Date` parsing are a `parseDate` parameter returning a millisecond value or nothing for an invalid date.
- Coordinates and phone numbers are kept as the sheet's text. `parseFloat` and floating point are not modelled.
- `/api/stores` reads the inventory sheet before the store sheet. The source reads both with `Promise.all`; a failure of either yields the same 500. In the source both cache lookups happen before either read stores its rows (server/index.js:314-321, 602-605), so the store sheet always answers from the cache as it was before the request. The sequential order adds a case the source never reaches: when the inventory read fills a full Map it can evict the store sheet, and the model then reads that sheet again and may answer 500 where the source would not (the condition in Endpoints.StoresMiss).
- Monitor.StatusMonitor.HandleServerDown: the source does not await it. It is modelled as finishing before the check returns.
- Sheet cells are strings; numbers and other JSON values in cells are not modelled.
- `localStorage` items are assumed well-formed. A corrupt record under a `cache_` key (one `JSON.parse` rejects) is not modelled.
- The JSON round trip through storage is assumed exact.
- Key iteration order in `localStorage` is not modelled; the loops run over key sets.
- Inventory.Join: JavaScript prototype keys (a store named "constructor") are not modelled in the inventory-map lookup.
- Object.entries ordering of integer-like keys is not modelled.
- StringOrder.Below orders strings by character. JavaScript sorts by UTF-16 code unit. The two differ only for characters outside the Basic Multilingual Plane.
- Monitor.StatusMonitor.constructor: a MAX_RETRIES that `parseInt` turns into NaN is not modelled; the threshold is an integer.
- ClientFetch.FetchData takes the server response as a list of stores. The response is an already-decoded list: this model does not connect it to the stores route's output. Connecting them would show a mismatch. The route's `inventory` is a category → model → status → colour tree. So `Object.entries(store.inventory)` yields the categories, and every `quantity` the client reads is a status object. `quantity > 0` is then false, so `phoneData` is always empty and `hasInventory` is false (src/api.js:145-163).
- `/api/log-activity`, the `/` route and the other client calls (models, agents) are not part of this model.
- The store join keeps only rows with a non-blank trimmed name, as the code does (server/index.js:679-714).
- Writing coordinates back does not invalidate the cached store sheet. The model keeps that behaviour (Coordinates.PassResult states it).
- Login reads the phone from column L (index 11). The store list reads it from column J (index 9). Both columns are modelled as the code has them.
- ClientCache.GetSpec: a `localStorage.getItem` that throws is not modelled; reads always succeed (src/api.js:41-58).
- ClientCache.DeleteSpec: a `localStorage.removeItem` that throws is not modelled; removals always succeed (src/api.js:65-70).
- ClientCache.CleanupSpec: failures of `getItem` or `removeItem` inside the sweep are not modelled; every key is read and every expired one removed (src/api.js:84-100).
- Inventory.Aggregate: JavaScript prototype keys are not modelled; the model counts every kept row under its own path. In the source's plain-object accumulator a name of an `Object.prototype` member (such as "constructor") finds the inherited `Object` function, with three outcomes:
  - a model or status of that name lands its count on that function, so it never reaches the response (server/index.js:661-668);
  - a colour of that name takes the increment branch, so the leaf becomes `NaN` and is sent as `null` (server/index.js:670-674);
  - an inventory store of that name has no category branch, so the next index throws and `/api/stores` answers 500 (server/index.js:642-661).
- Catalog.ModelIndex: the same prototype-key collision is not modelled; in the source a model named "constructor" reaches an inherited function and `/api/models` answers 500 (server/index.js:772-775).
