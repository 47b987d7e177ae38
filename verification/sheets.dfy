/**
 * The spreadsheet side of the server: the three sheet names, the payloads the
 * one shared cache holds, `getSheetValues` (a read-through cache in front of
 * the sheets client) and the cache-refresh endpoint.
 *
 * The sheets client is a parameter `read`: for a sheet name it answers with
 * the rows, with a response that has no `values` field, or with a failure.
 */
module Sheets {
  import opened Wrappers
  import opened Text
  import opened CacheEntry
  import opened TtlCache
  import opened Inventory
  import opened Catalog

  const INVENTORY_SHEET_NAME: string := "폰클재고데이터"
  const STORE_SHEET_NAME: string := "폰클출고처데이터"
  const AGENT_SHEET_NAME: string := "대리점아이디관리"

  /** What one `spreadsheets.values.get` call gives back. */
  datatype SheetRead = Values(rows: seq<Row>) | NoValues | ReadFailed

  /** What the shared server cache holds under each family of keys. */
  datatype Payload =
    | Rows(rows: seq<Row>)
    | Stores(stores: seq<StoreRecord>)
    | Models(index: map<string, seq<string>>)
    | Agents(agents: seq<Agent>)

  const SHEET_PREFIX: string := "sheet_"
  const STORES_PREFIX: string := "processed_stores_data_"
  const MODELS_KEY: string := "processed_models_data"
  const AGENTS_KEY: string := "processed_agents_data"

  function SheetKey(name: string): (k: string)
    ensures HasPrefix(k, SHEET_PREFIX) && !HasPrefix(k, STORES_PREFIX)
    ensures k != MODELS_KEY && k != AGENTS_KEY
  {
    assert (SHEET_PREFIX + name)[..|SHEET_PREFIX|] == SHEET_PREFIX;
    assert (SHEET_PREFIX + name)[0] == 's';
    SHEET_PREFIX + name
  }

  /** The key of one processed store list: `processed_stores_data_<includeShipped>`. */
  function StoresKey(flag: string): (k: string)
    ensures HasPrefix(k, STORES_PREFIX) && !HasPrefix(k, SHEET_PREFIX)
    ensures k != MODELS_KEY && k != AGENTS_KEY
  {
    assert (STORES_PREFIX + flag)[..|STORES_PREFIX|] == STORES_PREFIX;
    assert (STORES_PREFIX + flag)[0] == 'p';
    assert (STORES_PREFIX + flag)[10] == 's';
    STORES_PREFIX + flag
  }

  /** The two fixed processed keys belong to neither prefix family. */
  lemma ProcessedKeys()
    ensures !HasPrefix(MODELS_KEY, SHEET_PREFIX) && !HasPrefix(MODELS_KEY, STORES_PREFIX)
    ensures !HasPrefix(AGENTS_KEY, SHEET_PREFIX) && !HasPrefix(AGENTS_KEY, STORES_PREFIX)
  {
    assert MODELS_KEY[0] == 'p' && MODELS_KEY[10] == 'm';
    assert AGENTS_KEY[0] == 'p' && AGENTS_KEY[10] == 'a';
  }

  /** Keys of each family hold payloads of the matching shape. */
  predicate Fits(key: string, p: Payload)
  {
    && (HasPrefix(key, SHEET_PREFIX) ==> p.Rows?)
    && (HasPrefix(key, STORES_PREFIX) ==> p.Stores?)
    && (key == MODELS_KEY ==> p.Models?)
    && (key == AGENTS_KEY ==> p.Agents?)
  }

  ghost predicate Typed(st: CacheState<Payload>)
  {
    forall k :: k in st.entries ==> Fits(k, st.entries[k].data)
  }

  /** Storing a fitting payload keeps every key's payload fitting. */
  lemma TypedPut(st: CacheState<Payload>, key: string, p: Payload, ttl: int, now: int)
    requires st.Valid() && Typed(st) && Fits(key, p)
    ensures Typed(Put(st, key, p, ttl, now))
  {
    PutStores(st, key, p, ttl, now);
  }

  /** Deleting keeps every payload fitting; so do lazy eviction and cleanup. */
  lemma TypedRemove(st: CacheState<Payload>, key: string, now: int)
    requires st.Valid() && Typed(st)
    ensures Typed(Remove(st, key)) && Typed(Lookup(st, key, now).1) && Typed(Sweep(st, now))
  {
  }

  // ---------------------------------------------------------------------------
  // getSheetValues

  /**
   * `getSheetValues(name)` at time now: the cached rows while `sheet_<name>` is
   * live; otherwise one read, whose rows (or [] when the response has none)
   * are stored for CACHE_TTL; a failed read is passed on and stores nothing.
   */
  function SheetFetch(st: CacheState<Payload>, name: string, now: int, read: string -> SheetRead)
    : (r: (Result<seq<Row>>, CacheState<Payload>))
    requires st.Valid() && Typed(st)
    ensures r.1.Valid() && Typed(r.1)
  {
    var key := SheetKey(name);
    TypedRemove(st, key, now);
    var (hit, st1) := Lookup(st, key, now);
    if hit.Some? then
      (Ok(hit.value.rows), st1)
    else
      match read(name)
      case ReadFailed => (Err(ExternalServiceError), st1)
      case NoValues =>
        TypedPut(st1, key, Rows([]), CACHE_TTL, now);
        (Ok([]), Put(st1, key, Rows([]), CACHE_TTL, now))
      case Values(rows) =>
        TypedPut(st1, key, Rows(rows), CACHE_TTL, now);
        (Ok(rows), Put(st1, key, Rows(rows), CACHE_TTL, now))
  }

  /** The rows a read yields: `response.data.values || []`. */
  function ReadRows(r: SheetRead): Result<seq<Row>>
  {
    match r
    case Values(rows) => Ok(rows)
    case NoValues => Ok([])
    case ReadFailed => Err(ExternalServiceError)
  }

  /** A cache hit answers with the cached rows whatever the sheet would say, and changes nothing. */
  lemma SheetFetchHit(st: CacheState<Payload>, name: string, now: int, read1: string -> SheetRead, read2: string -> SheetRead)
    requires st.Valid() && Typed(st)
    requires SheetKey(name) in st.entries && st.entries[SheetKey(name)].LiveAt(now)
    ensures SheetFetch(st, name, now, read1) == SheetFetch(st, name, now, read2)
    ensures SheetFetch(st, name, now, read1) == (Ok(st.entries[SheetKey(name)].data.rows), st)
  {
    LookupHitIffLive(st, SheetKey(name), now);
  }

  /**
   * A miss reads the sheet once: its rows come back and are stored under
   * `sheet_<name>` for CACHE_TTL; a failure comes back as an error and the key
   * stays absent.
   */
  lemma SheetFetchMiss(st: CacheState<Payload>, name: string, now: int, read: string -> SheetRead)
    requires st.Valid() && Typed(st)
    requires Cold(st, SheetKey(name), now)
    ensures var (r, st2) := SheetFetch(st, name, now, read);
      && r == ReadRows(read(name))
      && (r.Ok? ==> SheetKey(name) in st2.entries && st2.entries[SheetKey(name)] == Entry(Rows(r.value), now, now + CACHE_TTL))
      && (r.Err? ==> SheetKey(name) !in st2.entries && st2 == Lookup(st, SheetKey(name), now).1)
  {
    var key := SheetKey(name);
    LookupHitIffLive(st, key, now);
    var st1 := Lookup(st, key, now).1;
    if read(name).Values? {
      PutStores(st1, key, Rows(read(name).rows), CACHE_TTL, now);
    } else if read(name).NoValues? {
      PutStores(st1, key, Rows([]), CACHE_TTL, now);
    }
  }

  /** key holds no live entry at now. */
  predicate Cold(st: CacheState<Payload>, key: string, now: int)
  {
    !(key in st.entries && st.entries[key].LiveAt(now))
  }

  /** A sheet read through the cache leaves every other key absent or as it was. */
  lemma SheetFetchOthers(st: CacheState<Payload>, name: string, now: int, read: string -> SheetRead)
    requires st.Valid() && Typed(st)
    ensures var st2 := SheetFetch(st, name, now, read).1;
      forall k :: k in st2.entries && k != SheetKey(name) ==> k in st.entries && st2.entries[k] == st.entries[k]
  {
    var key := SheetKey(name);
    LookupHitIffLive(st, key, now);
    var st1 := Lookup(st, key, now).1;
    if read(name).Values? {
      PutStores(st1, key, Rows(read(name).rows), CACHE_TTL, now);
    } else if read(name).NoValues? {
      PutStores(st1, key, Rows([]), CACHE_TTL, now);
    }
  }

  /**
   * What `getSheetValues(name)` answers at now: the cached rows while
   * `sheet_<name>` is live, the sheet's own answer otherwise.
   */
  function SheetAnswer(st: CacheState<Payload>, name: string, now: int, read: string -> SheetRead): Result<seq<Row>>
    requires Typed(st)
  {
    var key := SheetKey(name);
    if key in st.entries && st.entries[key].LiveAt(now) then Ok(st.entries[key].data.rows)
    else ReadRows(read(name))
  }

  /**
   * Warm or cold, a sheet read answers SheetAnswer, and a successful answer
   * is left live under `sheet_<name>`.
   */
  lemma SheetFetchAnswer(st: CacheState<Payload>, name: string, now: int, read: string -> SheetRead)
    requires st.Valid() && Typed(st)
    ensures var (r, st2) := SheetFetch(st, name, now, read);
      && r == SheetAnswer(st, name, now, read)
      && (r.Ok? ==> SheetKey(name) in st2.entries && st2.entries[SheetKey(name)].data == Rows(r.value)
                    && st2.entries[SheetKey(name)].LiveAt(now))
  {
    var key := SheetKey(name);
    if key in st.entries && st.entries[key].LiveAt(now) {
      SheetFetchHit(st, name, now, read, read);
    } else {
      SheetFetchMiss(st, name, now, read);
    }
  }

  /**
   * A sheet read that cannot evict (its sheet is live, or the Map holds fewer
   * than MAX_CACHE_SIZE keys) keeps every other entry as it was.
   */
  lemma SheetFetchKeeps(st: CacheState<Payload>, name: string, now: int, read: string -> SheetRead)
    requires st.Valid() && Typed(st)
    requires |st.order| < MAX_CACHE_SIZE || !Cold(st, SheetKey(name), now)
    ensures var st2 := SheetFetch(st, name, now, read).1;
      forall k :: k in st.entries && k != SheetKey(name) ==> k in st2.entries && st2.entries[k] == st.entries[k]
  {
    var key := SheetKey(name);
    LookupHitIffLive(st, key, now);
    var st1 := Lookup(st, key, now).1;
    if Cold(st, key, now) {
      if read(name).Values? {
        PutKeepsOthers(st1, key, Rows(read(name).rows), CACHE_TTL, now);
      } else if read(name).NoValues? {
        PutKeepsOthers(st1, key, Rows([]), CACHE_TTL, now);
      }
    }
  }

  /** `getSheetValues(name)` on the server's cache. */
  method GetSheetValues(cache: TtlCache<Payload>, name: string, now: int, read: string -> SheetRead)
    returns (r: Result<seq<Row>>)
    requires cache.Valid() && Typed(cache.State())
    modifies cache
    ensures cache.Valid() && Typed(cache.State())
    ensures (r, cache.State()) == SheetFetch(old(cache.State()), name, now, read)
  {
    var key := SheetKey(name);
    TypedRemove(cache.State(), key, now);
    var cached := cache.Get(key, now);
    if cached.Some? {
      return Ok(cached.value.rows);
    }
    match read(name)
    case ReadFailed =>
      r := Err(ExternalServiceError);
    case NoValues =>
      TypedPut(cache.State(), key, Rows([]), CACHE_TTL, now);
      cache.Set(key, Rows([]), CACHE_TTL, now);
      r := Ok([]);
    case Values(rows) =>
      TypedPut(cache.State(), key, Rows(rows), CACHE_TTL, now);
      cache.Set(key, Rows(rows), CACHE_TTL, now);
      r := Ok(rows);
  }

  // ---------------------------------------------------------------------------
  // POST /api/cache-refresh

  /** A `sheet` field that is present and not the empty string (a truthy value). */
  predicate Truthy(sheet: Option<string>)
  {
    sheet.Some? && sheet.value != ""
  }

  /** The refresh endpoint: delete one sheet's rows, or run a cleanup pass. */
  function Refresh(st: CacheState<Payload>, sheet: Option<string>, now: int): (r: CacheState<Payload>)
    requires st.Valid() && Typed(st)
    ensures r.Valid() && Typed(r)
  {
    TypedRemove(st, if Truthy(sheet) then SheetKey(sheet.value) else "", now);
    if Truthy(sheet) then Remove(st, SheetKey(sheet.value)) else Sweep(st, now)
  }

  /**
   * With a sheet name only `sheet_<name>` goes, live or not; without one only
   * expired entries go, so every live entry survives unchanged.
   */
  lemma RefreshEffects(st: CacheState<Payload>, sheet: Option<string>, now: int)
    requires st.Valid() && Typed(st)
    ensures var r := Refresh(st, sheet, now);
      && (Truthy(sheet) ==> r.entries == st.entries - {SheetKey(sheet.value)})
      && (!Truthy(sheet) ==>
            && (forall k :: k in st.entries && st.entries[k].LiveAt(now) ==> k in r.entries && r.entries[k] == st.entries[k])
            && (forall k :: k in r.entries ==> k in st.entries && st.entries[k].LiveAt(now)))
  {
    SweepExact(st, now);
  }

  /** `POST /api/cache-refresh` on the server's cache. */
  method CacheRefresh(cache: TtlCache<Payload>, sheet: Option<string>, now: int)
    requires cache.Valid() && Typed(cache.State())
    modifies cache
    ensures cache.Valid() && Typed(cache.State())
    ensures cache.State() == Refresh(old(cache.State()), sheet, now)
  {
    if Truthy(sheet) {
      cache.Delete(SheetKey(sheet.value));
    } else {
      var _ := cache.Cleanup(now);
    }
  }
}
