/**
 * `fetchData` in the browser: the choice of cache key, the cache lookup that
 * a timestamp bypasses, and the flattening of each store's
 * `inventory` (model → color → quantity) into `phoneData` rows with their
 * `phoneCount` total and the `hasInventory` flag.
 *
 * The HTTP request is a parameter: the parsed store array, or a failure.
 * Stores are read with the shape this function expects, which is not the
 * five-level tree the server builds; the two are not composed here.
 */
module ClientFetch {
  import opened Wrappers
  import opened Text
  import opened ClientCache

  /** What one model maps to: an object of color → quantity, or a value that is not an object. */
  datatype ColorData = Colors(quantities: seq<(string, int)>) | NotAnObject

  /** A store as received; `inventory` is None when missing or not an object, else its entries in order. */
  datatype ServerStore = ServerStore(name: string, inventory: Option<seq<(string, ColorData)>>)

  /** One `phoneData` row: store name (N), model (F), color (G) and quantity. */
  datatype PhoneItem = PhoneItem(storeName: string, model: string, color: string, quantity: int)

  /** The store with the three fields `fetchData` adds. */
  datatype ProcessedStore = ProcessedStore(store: ServerStore, phoneData: seq<PhoneItem>, phoneCount: int, hasInventory: bool)

  // ---------------------------------------------------------------------------
  // Flattening

  /** The rows of one model: its colors with a positive quantity, in order. */
  function ColorItems(name: string, model: string, colors: seq<(string, int)>): seq<PhoneItem>
  {
    if colors == [] then []
    else
      var n := |colors| - 1;
      ColorItems(name, model, colors[..n])
        + (if colors[n].1 > 0 then [PhoneItem(name, model, colors[n].0, colors[n].1)] else [])
  }

  /** The rows of an inventory: model by model, skipping values that are not objects. */
  function PhoneItems(name: string, models: seq<(string, ColorData)>): seq<PhoneItem>
  {
    if models == [] then []
    else
      var n := |models| - 1;
      PhoneItems(name, models[..n])
        + (match models[n].1
           case Colors(cs) => ColorItems(name, models[n].0, cs)
           case NotAnObject => [])
  }

  function Items(store: ServerStore): seq<PhoneItem>
  {
    if store.inventory.None? then [] else PhoneItems(store.name, store.inventory.value)
  }

  /** The `reduce` summing the quantities. */
  function PhoneCount(items: seq<PhoneItem>): int
  {
    if items == [] then 0 else PhoneCount(items[..|items| - 1]) + items[|items| - 1].quantity
  }

  /** The per-store step of `data.map(...)`. */
  function Process(store: ServerStore): ProcessedStore
  {
    var phoneData := Items(store);
    var phoneCount := PhoneCount(phoneData);
    ProcessedStore(store, phoneData, phoneCount, phoneCount > 0)
  }

  /**
   * Each store keeps its own record and position, carries its flattened
   * inventory with the summed quantity, and has inventory exactly when it
   * holds at least one phone row.
   */
  function ProcessAll(data: seq<ServerStore>): (r: seq<ProcessedStore>)
    ensures |r| == |data|
    ensures forall i :: 0 <= i < |data| ==>
      && r[i].store == data[i]
      && r[i].phoneData == Items(data[i])
      && r[i].phoneCount == PhoneCount(r[i].phoneData) && r[i].phoneCount >= 0
      && (r[i].hasInventory <==> r[i].phoneData != [])
  {
    ProcessFacts(data);
    seq(|data|, i requires 0 <= i < |data| => Process(data[i]))
  }

  lemma ProcessFacts(data: seq<ServerStore>)
    ensures forall i :: 0 <= i < |data| ==>
      (Process(data[i]).hasInventory <==> Process(data[i]).phoneData != []) && Process(data[i]).phoneCount >= 0
  {
    forall i | 0 <= i < |data| {
      HasInventoryIffRows(data[i]);
    }
  }

  /** The two nested `forEach` loops pushing into `phoneData`. */
  method FlattenInventory(store: ServerStore) returns (phoneData: seq<PhoneItem>)
    ensures phoneData == Items(store)
  {
    phoneData := [];
    if store.inventory.Some? {
      var models := store.inventory.value;
      for i := 0 to |models|
        invariant phoneData == PhoneItems(store.name, models[..i])
      {
        assert models[..i + 1][..i] == models[..i];
        var model := models[i].0;
        var colorData := models[i].1;
        if colorData.Colors? {
          var colors := colorData.quantities;
          ghost var before := phoneData;
          for j := 0 to |colors|
            invariant phoneData == before + ColorItems(store.name, model, colors[..j])
          {
            assert colors[..j + 1][..j] == colors[..j];
            var color := colors[j].0;
            var quantity := colors[j].1;
            if quantity > 0 {
              phoneData := phoneData + [PhoneItem(store.name, model, color, quantity)];
            }
          }
          assert colors[..|colors|] == colors;
        }
      }
      assert models[..|models|] == models;
    }
  }

  /** `data.map(...)` over the received stores. */
  method ProcessStores(data: seq<ServerStore>) returns (processed: seq<ProcessedStore>)
    ensures processed == ProcessAll(data)
  {
    processed := [];
    for i := 0 to |data|
      invariant processed == ProcessAll(data[..i])
    {
      var phoneData := FlattenInventory(data[i]);
      var phoneCount := PhoneCount(phoneData);
      processed := processed + [ProcessedStore(data[i], phoneData, phoneCount, phoneCount > 0)];
    }
    assert data[..|data|] == data;
  }

  // ---------------------------------------------------------------------------
  // What the flattening promises

  /** A model's rows are exactly its colors with a positive quantity. */
  lemma {:induction false} ColorItemsExact(name: string, model: string, colors: seq<(string, int)>, item: PhoneItem)
    ensures item in ColorItems(name, model, colors) <==>
      exists j :: 0 <= j < |colors| && colors[j].1 > 0 && item == PhoneItem(name, model, colors[j].0, colors[j].1)
  {
    if colors != [] {
      var n := |colors| - 1;
      ColorItemsExact(name, model, colors[..n], item);
      if exists j :: 0 <= j < |colors| && colors[j].1 > 0 && item == PhoneItem(name, model, colors[j].0, colors[j].1) {
        var j :| 0 <= j < |colors| && colors[j].1 > 0 && item == PhoneItem(name, model, colors[j].0, colors[j].1);
        if j < n {
          assert colors[..n][j] == colors[j];
        }
      }
    }
  }

  /**
   * `phoneData` holds one row per (model, color) whose quantity is positive,
   * for the models that map to an object, and nothing else.
   */
  lemma {:induction false} PhoneItemsExact(name: string, models: seq<(string, ColorData)>, item: PhoneItem)
    ensures item in PhoneItems(name, models) <==>
      exists i :: 0 <= i < |models| && models[i].1.Colors? && item in ColorItems(name, models[i].0, models[i].1.quantities)
  {
    if models != [] {
      var n := |models| - 1;
      PhoneItemsExact(name, models[..n], item);
      if exists i :: 0 <= i < |models| && models[i].1.Colors? && item in ColorItems(name, models[i].0, models[i].1.quantities) {
        var i :| 0 <= i < |models| && models[i].1.Colors? && item in ColorItems(name, models[i].0, models[i].1.quantities);
        if i < n {
          assert models[..n][i] == models[i];
        }
      }
    }
  }

  /** Every row carries a positive quantity. */
  lemma {:induction false} PhoneItemsPositive(name: string, models: seq<(string, ColorData)>)
    ensures forall k :: 0 <= k < |PhoneItems(name, models)| ==> PhoneItems(name, models)[k].quantity > 0
  {
    if models != [] {
      var n := |models| - 1;
      PhoneItemsPositive(name, models[..n]);
      if models[n].1.Colors? {
        ColorItemsPositive(name, models[n].0, models[n].1.quantities);
      }
    }
  }

  lemma {:induction false} ColorItemsPositive(name: string, model: string, colors: seq<(string, int)>)
    ensures forall k :: 0 <= k < |ColorItems(name, model, colors)| ==> ColorItems(name, model, colors)[k].quantity > 0
  {
    if colors != [] {
      ColorItemsPositive(name, model, colors[..|colors| - 1]);
    }
  }

  /** The count of rows with positive quantities is positive exactly when there is a row. */
  lemma {:induction false} PhoneCountPositive(items: seq<PhoneItem>)
    requires forall k :: 0 <= k < |items| ==> items[k].quantity > 0
    ensures PhoneCount(items) >= 0
    ensures PhoneCount(items) > 0 <==> items != []
  {
    if items != [] {
      PhoneCountPositive(items[..|items| - 1]);
    }
  }

  /** The total splits over any division of the rows (model by model, say). */
  lemma {:induction false} PhoneCountAppend(a: seq<PhoneItem>, b: seq<PhoneItem>)
    ensures PhoneCount(a + b) == PhoneCount(a) + PhoneCount(b)
  {
    if b != [] {
      var n := |b| - 1;
      assert (a + b)[..|a + b| - 1] == a + b[..n];
      PhoneCountAppend(a, b[..n]);
    } else {
      assert a + b == a;
    }
  }

  /** A processed store has inventory exactly when it has at least one `phoneData` row. */
  lemma HasInventoryIffRows(store: ServerStore)
    ensures Process(store).hasInventory <==> Process(store).phoneData != []
    ensures Process(store).phoneCount >= 0
  {
    if store.inventory.Some? {
      PhoneItemsPositive(store.name, store.inventory.value);
    }
    PhoneCountPositive(Items(store));
  }

  // ---------------------------------------------------------------------------
  // Cache key and the request

  const STORES_KEY_PREFIX: string := "stores_data_"

  /** The template-literal text of the boolean flag. */
  function FlagText(includeShipped: bool): string
  {
    if includeShipped then "true" else "false"
  }

  /** A timestamp argument that is present and truthy (not 0). */
  predicate Stamped(timestamp: Option<nat>)
  {
    timestamp.Some? && timestamp.value != 0
  }

  function StoresCacheKey(includeShipped: bool, timestamp: Option<nat>): string
  {
    if Stamped(timestamp) then STORES_KEY_PREFIX + FlagText(includeShipped) + "_" + NatToString(timestamp.value)
    else STORES_KEY_PREFIX + FlagText(includeShipped)
  }

  /**
   * Distinct requests use distinct keys: the key determines the flag and the
   * timestamp, so a stamped fetch never overwrites the plain key.
   */
  lemma StoresCacheKeyInjective(f1: bool, t1: Option<nat>, f2: bool, t2: Option<nat>)
    requires StoresCacheKey(f1, t1) == StoresCacheKey(f2, t2)
    ensures f1 == f2 && Stamped(t1) == Stamped(t2)
    ensures Stamped(t1) ==> t1.value == t2.value
  {
    var k := StoresCacheKey(f1, t1);
    var p := |STORES_KEY_PREFIX|;
    assert k[p] == StoresCacheKey(f2, t2)[p];
    assert k[p] == if f1 then 't' else 'f';
    assert StoresCacheKey(f2, t2)[p] == if f2 then 't' else 'f';
    var q := p + |FlagText(f1)|;
    if Stamped(t1) != Stamped(t2) {
      assert false;
    }
    if Stamped(t1) {
      assert NatToString(t1.value) == k[q + 1..];
      assert NatToString(t2.value) == StoresCacheKey(f2, t2)[q + 1..];
      NatToStringInjective(t1.value, t2.value);
    }
  }

  /** `fetchData(includeShipped, timestamp)` at now; response is the request's outcome. */
  function FetchSpec(st: ClientState<seq<ProcessedStore>>, includeShipped: bool, timestamp: Option<nat>, now: int,
                     response: Result<seq<ServerStore>>, storageOk: bool)
    : (r: (Result<seq<ProcessedStore>>, ClientState<seq<ProcessedStore>>))
    requires st.Valid()
    ensures r.1.Valid()
  {
    var key := StoresCacheKey(includeShipped, timestamp);
    var (cached, st1) := if Stamped(timestamp) then (None, st) else GetSpec(st, key, now);
    if cached.Some? then (Ok(cached.value), st1)
    else
      match response
      case Err(f) => (Err(f), st1)
      case Ok(data) =>
        var processed := ProcessAll(data);
        (Ok(processed), SetSpec(st1, key, processed, CLIENT_CACHE_TTL, now, storageOk))
  }

  method FetchData(cache: ClientCache<seq<ProcessedStore>>, includeShipped: bool, timestamp: Option<nat>, now: int,
                   response: Result<seq<ServerStore>>, storageOk: bool)
    returns (r: Result<seq<ProcessedStore>>)
    requires cache.Valid()
    modifies cache
    ensures cache.Valid()
    ensures (r, cache.State()) == FetchSpec(old(cache.State()), includeShipped, timestamp, now, response, storageOk)
  {
    var key := StoresCacheKey(includeShipped, timestamp);
    if !Stamped(timestamp) {
      var cachedData := cache.Get(key, now);
      if cachedData.Some? {
        return Ok(cachedData.value);
      }
    }
    if response.Err? {
      return Err(response.fault);
    }
    var processed := ProcessStores(response.value);
    cache.Set(key, processed, CLIENT_CACHE_TTL, now, storageOk);
    r := Ok(processed);
  }

  /**
   * With a timestamp the cache is not read: the answer is the processed
   * response whatever the cache holds, and it is stored under the stamped key.
   */
  lemma FetchStampedBypass(st: ClientState<seq<ProcessedStore>>, st': ClientState<seq<ProcessedStore>>,
                           includeShipped: bool, ts: nat, now: int, response: Result<seq<ServerStore>>, storageOk: bool)
    requires st.Valid() && st'.Valid() && ts != 0
    ensures var (r, st2) := FetchSpec(st, includeShipped, Some(ts), now, response, storageOk);
      && r == FetchSpec(st', includeShipped, Some(ts), now, response, storageOk).0
      && (response.Ok? ==> r == Ok(ProcessAll(response.value))
                           && st2.memory[StoresCacheKey(includeShipped, Some(ts))].data == ProcessAll(response.value))
      && (response.Err? ==> r.Err? && st2 == st)
  {
  }

  /** Without a timestamp a cached list is returned as it is, and the request plays no part. */
  lemma FetchCachedHit(st: ClientState<seq<ProcessedStore>>, includeShipped: bool, now: int,
                       response1: Result<seq<ServerStore>>, response2: Result<seq<ServerStore>>, storageOk: bool)
    requires st.Valid()
    requires GetSpec(st, StoresCacheKey(includeShipped, None), now).0.Some?
    ensures FetchSpec(st, includeShipped, None, now, response1, storageOk)
         == FetchSpec(st, includeShipped, None, now, response2, storageOk)
    ensures FetchSpec(st, includeShipped, None, now, response1, storageOk).0
         == Ok(GetSpec(st, StoresCacheKey(includeShipped, None), now).0.value)
  {
  }

  /** A plain fetch that went to the network is served from the cache by the next plain fetch within the TTL. */
  lemma FetchThenCached(st: ClientState<seq<ProcessedStore>>, includeShipped: bool, now: int, later: int,
                        data: seq<ServerStore>, response: Result<seq<ServerStore>>, storageOk: bool)
    requires st.Valid() && now <= later <= now + CLIENT_CACHE_TTL
    requires GetSpec(st, StoresCacheKey(includeShipped, None), now).0.None?
    ensures var st2 := FetchSpec(st, includeShipped, None, now, Ok(data), storageOk).1;
      FetchSpec(st2, includeShipped, None, later, response, storageOk).0 == Ok(ProcessAll(data))
  {
    var key := StoresCacheKey(includeShipped, None);
    var st1 := GetSpec(st, key, now).1;
    ClientGetAfterSet(st1, key, ProcessAll(data), CLIENT_CACHE_TTL, now, later, storageOk);
  }
}
