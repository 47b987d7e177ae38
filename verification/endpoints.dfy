/**
 * The three read endpoints, each a read-through cache over a processed result:
 * `GET /api/stores`, `GET /api/models` and `GET /api/agents`. A live processed
 * entry is served as it is; otherwise the sheets are fetched (through
 * getSheetValues), the result is computed, stored for CACHE_TTL and served. A
 * failed fetch is the 500 response and stores no processed result.
 */
module Endpoints {
  import opened Wrappers
  import opened Text
  import opened CacheEntry
  import opened TtlCache
  import opened Inventory
  import opened Catalog
  import opened Sheets

  /** `includeShipped` from the query string, 'true' when absent. */
  function ShippedFlag(query: Option<string>): string
  {
    if query.None? then "true" else query.value
  }

  /** The store list computed from the two sheets' rows. */
  function StoreList(inventoryValues: seq<Row>, storeValues: seq<Row>, flag: string, threeDaysAgo: int,
                     parseDate: string -> Option<int>): seq<StoreRecord>
  {
    Join(Skip(storeValues, 1), Aggregate(Skip(inventoryValues, 3), RowFilter(flag, threeDaysAgo, parseDate)))
  }

  /**
   * `GET /api/stores` at time now. Both sheet reads always run (the source
   * awaits them together); either failing makes the response a 500.
   */
  function StoresSpec(st: CacheState<Payload>, query: Option<string>, threeDaysAgo: int,
                      parseDate: string -> Option<int>, now: int, read: string -> SheetRead)
    : (r: (Result<seq<StoreRecord>>, CacheState<Payload>))
    requires st.Valid() && Typed(st)
    ensures r.1.Valid() && Typed(r.1)
  {
    var flag := ShippedFlag(query);
    var key := StoresKey(flag);
    TypedRemove(st, key, now);
    var (hit, st1) := Lookup(st, key, now);
    if hit.Some? then (Ok(hit.value.stores), st1)
    else
      var (inv, st2) := SheetFetch(st1, INVENTORY_SHEET_NAME, now, read);
      var (sto, st3) := SheetFetch(st2, STORE_SHEET_NAME, now, read);
      if inv.Err? || sto.Err? then (Err(ExternalServiceError), st3)
      else
        var stores := StoreList(inv.value, sto.value, flag, threeDaysAgo, parseDate);
        TypedPut(st3, key, Stores(stores), CACHE_TTL, now);
        (Ok(stores), Put(st3, key, Stores(stores), CACHE_TTL, now))
  }

  /** `GET /api/stores` on the server's cache. */
  method GetStores(cache: TtlCache<Payload>, query: Option<string>, threeDaysAgo: int,
                   parseDate: string -> Option<int>, now: int, read: string -> SheetRead)
    returns (r: Result<seq<StoreRecord>>)
    requires cache.Valid() && Typed(cache.State())
    modifies cache
    ensures cache.Valid() && Typed(cache.State())
    ensures (r, cache.State()) == StoresSpec(old(cache.State()), query, threeDaysAgo, parseDate, now, read)
  {
    var flag := ShippedFlag(query);
    var key := StoresKey(flag);
    TypedRemove(cache.State(), key, now);
    var cached := cache.Get(key, now);
    if cached.Some? {
      return Ok(cached.value.stores);
    }
    var inventoryValues := GetSheetValues(cache, INVENTORY_SHEET_NAME, now, read);
    var storeValues := GetSheetValues(cache, STORE_SHEET_NAME, now, read);
    if inventoryValues.Err? || storeValues.Err? {
      return Err(ExternalServiceError);
    }
    var inventoryMap := BuildInventoryMap(Skip(inventoryValues.value, 3), flag, threeDaysAgo, parseDate);
    var stores := Join(Skip(storeValues.value, 1), inventoryMap);
    TypedPut(cache.State(), key, Stores(stores), CACHE_TTL, now);
    cache.Set(key, Stores(stores), CACHE_TTL, now);
    r := Ok(stores);
  }

  /** `GET /api/models` at time now. */
  function ModelsSpec(st: CacheState<Payload>, now: int, read: string -> SheetRead)
    : (r: (Result<map<string, seq<string>>>, CacheState<Payload>))
    requires st.Valid() && Typed(st)
    ensures r.1.Valid() && Typed(r.1)
  {
    TypedRemove(st, MODELS_KEY, now);
    ProcessedKeys();
    var (hit, st1) := Lookup(st, MODELS_KEY, now);
    if hit.Some? then (Ok(hit.value.index), st1)
    else
      var (inv, st2) := SheetFetch(st1, INVENTORY_SHEET_NAME, now, read);
      if inv.Err? then (Err(ExternalServiceError), st2)
      else
        var index := ModelIndex(Skip(inv.value, 3), PairFilter());
        TypedPut(st2, MODELS_KEY, Models(index), CACHE_TTL, now);
        (Ok(index), Put(st2, MODELS_KEY, Models(index), CACHE_TTL, now))
  }

  /** `GET /api/models` on the server's cache. */
  method GetModels(cache: TtlCache<Payload>, now: int, read: string -> SheetRead)
    returns (r: Result<map<string, seq<string>>>)
    requires cache.Valid() && Typed(cache.State())
    modifies cache
    ensures cache.Valid() && Typed(cache.State())
    ensures (r, cache.State()) == ModelsSpec(old(cache.State()), now, read)
  {
    TypedRemove(cache.State(), MODELS_KEY, now);
    ProcessedKeys();
    var cached := cache.Get(MODELS_KEY, now);
    if cached.Some? {
      return Ok(cached.value.index);
    }
    var inventoryValues := GetSheetValues(cache, INVENTORY_SHEET_NAME, now, read);
    if inventoryValues.Err? {
      return Err(ExternalServiceError);
    }
    var index := ModelIndex(Skip(inventoryValues.value, 3), PairFilter());
    TypedPut(cache.State(), MODELS_KEY, Models(index), CACHE_TTL, now);
    cache.Set(MODELS_KEY, Models(index), CACHE_TTL, now);
    r := Ok(index);
  }

  /** `GET /api/agents` at time now. */
  function AgentsSpec(st: CacheState<Payload>, now: int, read: string -> SheetRead)
    : (r: (Result<seq<Agent>>, CacheState<Payload>))
    requires st.Valid() && Typed(st)
    ensures r.1.Valid() && Typed(r.1)
  {
    TypedRemove(st, AGENTS_KEY, now);
    ProcessedKeys();
    var (hit, st1) := Lookup(st, AGENTS_KEY, now);
    if hit.Some? then (Ok(hit.value.agents), st1)
    else
      var (rows, st2) := SheetFetch(st1, AGENT_SHEET_NAME, now, read);
      if rows.Err? then (Err(ExternalServiceError), st2)
      else
        var agents := AgentList(Skip(rows.value, 1));
        TypedPut(st2, AGENTS_KEY, Agents(agents), CACHE_TTL, now);
        (Ok(agents), Put(st2, AGENTS_KEY, Agents(agents), CACHE_TTL, now))
  }

  /** `GET /api/agents` on the server's cache. */
  method GetAgents(cache: TtlCache<Payload>, now: int, read: string -> SheetRead)
    returns (r: Result<seq<Agent>>)
    requires cache.Valid() && Typed(cache.State())
    modifies cache
    ensures cache.Valid() && Typed(cache.State())
    ensures (r, cache.State()) == AgentsSpec(old(cache.State()), now, read)
  {
    TypedRemove(cache.State(), AGENTS_KEY, now);
    ProcessedKeys();
    var cached := cache.Get(AGENTS_KEY, now);
    if cached.Some? {
      return Ok(cached.value.agents);
    }
    var agentValues := GetSheetValues(cache, AGENT_SHEET_NAME, now, read);
    if agentValues.Err? {
      return Err(ExternalServiceError);
    }
    var agents := AgentList(Skip(agentValues.value, 1));
    TypedPut(cache.State(), AGENTS_KEY, Agents(agents), CACHE_TTL, now);
    cache.Set(AGENTS_KEY, Agents(agents), CACHE_TTL, now);
    r := Ok(agents);
  }

  // ---------------------------------------------------------------------------
  // Properties

  /** A live processed store list is served as cached: no sheet is consulted and nothing changes. */
  lemma StoresHit(st: CacheState<Payload>, query: Option<string>, threeDaysAgo: int,
                  parseDate: string -> Option<int>, now: int, read1: string -> SheetRead, read2: string -> SheetRead)
    requires st.Valid() && Typed(st)
    requires var key := StoresKey(ShippedFlag(query)); key in st.entries && st.entries[key].LiveAt(now)
    ensures StoresSpec(st, query, threeDaysAgo, parseDate, now, read1) == StoresSpec(st, query, threeDaysAgo, parseDate, now, read2)
    ensures StoresSpec(st, query, threeDaysAgo, parseDate, now, read1)
            == (Ok(st.entries[StoresKey(ShippedFlag(query))].data.stores), st)
  {
    LookupHitIffLive(st, StoresKey(ShippedFlag(query)), now);
  }

  /** A live model index is served as cached: no sheet is consulted and nothing changes. */
  lemma ModelsHit(st: CacheState<Payload>, now: int, read1: string -> SheetRead, read2: string -> SheetRead)
    requires st.Valid() && Typed(st)
    requires MODELS_KEY in st.entries && st.entries[MODELS_KEY].LiveAt(now)
    ensures ModelsSpec(st, now, read1) == ModelsSpec(st, now, read2)
    ensures ModelsSpec(st, now, read1) == (Ok(st.entries[MODELS_KEY].data.index), st)
  {
    LookupHitIffLive(st, MODELS_KEY, now);
  }

  /** A live agent list is served as cached: no sheet is consulted and nothing changes. */
  lemma AgentsHit(st: CacheState<Payload>, now: int, read1: string -> SheetRead, read2: string -> SheetRead)
    requires st.Valid() && Typed(st)
    requires AGENTS_KEY in st.entries && st.entries[AGENTS_KEY].LiveAt(now)
    ensures AgentsSpec(st, now, read1) == AgentsSpec(st, now, read2)
    ensures AgentsSpec(st, now, read1) == (Ok(st.entries[AGENTS_KEY].data.agents), st)
  {
    LookupHitIffLive(st, AGENTS_KEY, now);
  }

  /** Looking up a processed key changes no sheet's answer and never grows the Map. */
  lemma LookupKeepsSheets(st: CacheState<Payload>, key: string, now: int, read: string -> SheetRead)
    requires st.Valid() && Typed(st) && !HasPrefix(key, SHEET_PREFIX)
    ensures var st1 := Lookup(st, key, now).1;
      && Typed(st1) && |st1.order| <= |st.order|
      && (forall name :: SheetKey(name) in st1.entries <==> SheetKey(name) in st.entries)
      && (forall name :: SheetKey(name) in st1.entries ==> st1.entries[SheetKey(name)] == st.entries[SheetKey(name)])
  {
    LookupHitIffLive(st, key, now);
    TypedRemove(st, key, now);
  }

  lemma SheetKeysDistinct()
    ensures SheetKey(STORE_SHEET_NAME) != SheetKey(INVENTORY_SHEET_NAME)
  {
    assert SheetKey(STORE_SHEET_NAME)[8] != SheetKey(INVENTORY_SHEET_NAME)[8];
  }

  /**
   * The two sheet reads of the stores route, once its processed key is gone:
   * each answers through the cache, and the processed key stays absent.
   */
  lemma FetchBoth(st1: CacheState<Payload>, key: string, now: int, read: string -> SheetRead)
    requires st1.Valid() && Typed(st1) && key !in st1.entries && !HasPrefix(key, SHEET_PREFIX)
    ensures var (inv, st2) := SheetFetch(st1, INVENTORY_SHEET_NAME, now, read);
      var (sto, st3) := SheetFetch(st2, STORE_SHEET_NAME, now, read);
      && inv == SheetAnswer(st1, INVENTORY_SHEET_NAME, now, read)
      && sto == SheetAnswer(st2, STORE_SHEET_NAME, now, read)
      && key !in st3.entries
  {
    SheetFetchAnswer(st1, INVENTORY_SHEET_NAME, now, read);
    SheetFetchOthers(st1, INVENTORY_SHEET_NAME, now, read);
    var st2 := SheetFetch(st1, INVENTORY_SHEET_NAME, now, read).1;
    SheetFetchAnswer(st2, STORE_SHEET_NAME, now, read);
    SheetFetchOthers(st2, STORE_SHEET_NAME, now, read);
  }

  /**
   * After a processed key is looked up and a first sheet is read, a second
   * sheet answers as it did before the request, provided that first read
   * evicted nothing.
   */
  lemma SecondSheetKept(st: CacheState<Payload>, key: string, first: string, second: string,
                        now: int, read: string -> SheetRead)
    requires st.Valid() && Typed(st) && !HasPrefix(key, SHEET_PREFIX) && SheetKey(first) != SheetKey(second)
    requires |st.order| < MAX_CACHE_SIZE || !Cold(st, SheetKey(first), now)
    ensures var st2 := SheetFetch(Lookup(st, key, now).1, first, now, read).1;
      SheetAnswer(st2, second, now, read) == SheetAnswer(st, second, now, read)
  {
    LookupKeepsSheets(st, key, now, read);
    var st1 := Lookup(st, key, now).1;
    SheetFetchKeeps(st1, first, now, read);
    SheetFetchOthers(st1, first, now, read);
    var st2 := SheetFetch(st1, first, now, read).1;
    assert SheetKey(second) in st2.entries <==> SheetKey(second) in st.entries;
  }

  /**
   * When the processed store list for the flag is not live, the response is
   * the store list computed from what the two sheets answer through the
   * cache (cached rows while live, a fresh read otherwise), exactly when both
   * answers are rows, and that list is then cached under
   * `processed_stores_data_<flag>` for CACHE_TTL; if either answer is a
   * failure the response is an error and no store list is cached under that
   * key. The store sheet is consulted after the inventory sheet; unless that
   * first read evicted it from a full Map, its answer is the one the cache
   * held before the request.
   */
  lemma StoresMiss(st: CacheState<Payload>, query: Option<string>, threeDaysAgo: int,
                   parseDate: string -> Option<int>, now: int, read: string -> SheetRead)
    requires st.Valid() && Typed(st)
    requires Cold(st, StoresKey(ShippedFlag(query)), now)
    ensures var flag := ShippedFlag(query);
      var key := StoresKey(flag);
      var (r, st4) := StoresSpec(st, query, threeDaysAgo, parseDate, now, read);
      var st2 := SheetFetch(Lookup(st, key, now).1, INVENTORY_SHEET_NAME, now, read).1;
      var inv := SheetAnswer(st, INVENTORY_SHEET_NAME, now, read);
      var sto := SheetAnswer(st2, STORE_SHEET_NAME, now, read);
      && (r.Ok? <==> inv.Ok? && sto.Ok?)
      && (r.Ok? ==> r.value == StoreList(inv.value, sto.value, flag, threeDaysAgo, parseDate)
                    && key in st4.entries
                    && st4.entries[key] == Entry(Stores(r.value), now, now + CACHE_TTL))
      && (r.Err? ==> key !in st4.entries)
      && (|st.order| < MAX_CACHE_SIZE || !Cold(st, SheetKey(INVENTORY_SHEET_NAME), now) ==>
            sto == SheetAnswer(st, STORE_SHEET_NAME, now, read))
  {
    var flag := ShippedFlag(query);
    var key := StoresKey(flag);
    var invKey := SheetKey(INVENTORY_SHEET_NAME);
    SheetKeysDistinct();
    LookupHitIffLive(st, key, now);
    LookupKeepsSheets(st, key, now, read);
    var st1 := Lookup(st, key, now).1;
    assert SheetAnswer(st1, INVENTORY_SHEET_NAME, now, read) == SheetAnswer(st, INVENTORY_SHEET_NAME, now, read);
    FetchBoth(st1, key, now, read);
    var (inv, st2) := SheetFetch(st1, INVENTORY_SHEET_NAME, now, read);
    var (sto, st3) := SheetFetch(st2, STORE_SHEET_NAME, now, read);
    if |st.order| < MAX_CACHE_SIZE || !Cold(st, invKey, now) {
      SecondSheetKept(st, key, INVENTORY_SHEET_NAME, STORE_SHEET_NAME, now, read);
    }
    if inv.Ok? && sto.Ok? {
      PutStores(st3, key, Stores(StoreList(inv.value, sto.value, flag, threeDaysAgo, parseDate)), CACHE_TTL, now);
    }
  }

  /**
   * When the model index is not live, it is computed from the inventory
   * sheet's answer through the cache (the three header rows skipped) exactly
   * when that answer is rows, and is then cached under
   * `processed_models_data`; a failed read caches nothing there.
   */
  lemma ModelsMiss(st: CacheState<Payload>, now: int, read: string -> SheetRead)
    requires st.Valid() && Typed(st)
    requires Cold(st, MODELS_KEY, now)
    ensures var (r, st2) := ModelsSpec(st, now, read);
      var inv := SheetAnswer(st, INVENTORY_SHEET_NAME, now, read);
      && (r.Ok? <==> inv.Ok?)
      && (r.Ok? ==> r.value == ModelIndex(Skip(inv.value, 3), PairFilter())
                    && MODELS_KEY in st2.entries && st2.entries[MODELS_KEY] == Entry(Models(r.value), now, now + CACHE_TTL))
      && (r.Err? ==> MODELS_KEY !in st2.entries)
  {
    ProcessedKeys();
    LookupHitIffLive(st, MODELS_KEY, now);
    LookupKeepsSheets(st, MODELS_KEY, now, read);
    var st1 := Lookup(st, MODELS_KEY, now).1;
    var (inv, st2) := SheetFetch(st1, INVENTORY_SHEET_NAME, now, read);
    SheetFetchAnswer(st1, INVENTORY_SHEET_NAME, now, read);
    SheetFetchOthers(st1, INVENTORY_SHEET_NAME, now, read);
    if inv.Ok? {
      PutStores(st2, MODELS_KEY, Models(ModelIndex(Skip(inv.value, 3), PairFilter())), CACHE_TTL, now);
    }
  }

  /**
   * When the agent list is not live, it is computed from the agent sheet's
   * answer through the cache (the header row skipped) exactly when that
   * answer is rows, and is then cached under `processed_agents_data`; a failed
   * read caches nothing there.
   */
  lemma AgentsMiss(st: CacheState<Payload>, now: int, read: string -> SheetRead)
    requires st.Valid() && Typed(st)
    requires Cold(st, AGENTS_KEY, now)
    ensures var (r, st2) := AgentsSpec(st, now, read);
      var rows := SheetAnswer(st, AGENT_SHEET_NAME, now, read);
      && (r.Ok? <==> rows.Ok?)
      && (r.Ok? ==> r.value == AgentList(Skip(rows.value, 1))
                    && AGENTS_KEY in st2.entries && st2.entries[AGENTS_KEY] == Entry(Agents(r.value), now, now + CACHE_TTL))
      && (r.Err? ==> AGENTS_KEY !in st2.entries)
  {
    ProcessedKeys();
    LookupHitIffLive(st, AGENTS_KEY, now);
    LookupKeepsSheets(st, AGENTS_KEY, now, read);
    var st1 := Lookup(st, AGENTS_KEY, now).1;
    var (rows, st2) := SheetFetch(st1, AGENT_SHEET_NAME, now, read);
    SheetFetchAnswer(st1, AGENT_SHEET_NAME, now, read);
    SheetFetchOthers(st1, AGENT_SHEET_NAME, now, read);
    if rows.Ok? {
      PutStores(st2, AGENTS_KEY, Agents(AgentList(Skip(rows.value, 1))), CACHE_TTL, now);
    }
  }
}
