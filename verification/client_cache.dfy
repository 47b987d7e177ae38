/**
 * The browser's two-tier cache `clientCacheUtils`: an in-memory Map, backed by
 * localStorage under `cache_<key>`. A read tries memory first, then storage,
 * copying a live storage entry into memory; expired entries are dropped from
 * whichever tier they are found in. `cacheManager.getStatus` and `clearAll`
 * report on and empty the same two tiers.
 *
 * localStorage is a second map here; values this cache wrote are the entries
 * themselves (the JSON text round-trips to the same record), values the page
 * keeps under other keys are opaque text.
 */
module ClientCache {
  import opened Wrappers
  import opened Text
  import opened CacheEntry

  const CLIENT_CACHE_TTL: int := 5 * 60 * 1000
  const STORAGE_PREFIX: string := "cache_"

  /** The localStorage key of a cache key. */
  function StorageKey(key: string): (k: string)
    ensures HasPrefix(k, STORAGE_PREFIX) && |k| == |STORAGE_PREFIX| + |key|
  {
    assert (STORAGE_PREFIX + key)[..|STORAGE_PREFIX|] == STORAGE_PREFIX;
    STORAGE_PREFIX + key
  }

  /** Distinct cache keys have distinct storage keys. */
  lemma StorageKeyInjective(a: string, b: string)
    requires StorageKey(a) == StorageKey(b)
    ensures a == b
  {
    assert a == StorageKey(a)[|STORAGE_PREFIX|..];
    assert b == StorageKey(b)[|STORAGE_PREFIX|..];
  }

  /** A localStorage value: a record this cache wrote, or text some other part of the page keeps. */
  datatype Stored<V> = Item(entry: Entry<V>) | Foreign(text: string)

  datatype ClientState<V> = ClientState(memory: map<string, Entry<V>>, storage: map<string, Stored<V>>)
  {
    /** Every `cache_` key holds a record this cache wrote. */
    ghost predicate Valid()
    {
      forall k :: k in storage && HasPrefix(k, STORAGE_PREFIX) ==> storage[k].Item?
    }
  }

  /** The memory entries still live at now. */
  function LiveMemory<V>(memory: map<string, Entry<V>>, now: int): map<string, Entry<V>>
  {
    map k | k in memory && memory[k].LiveAt(now) :: memory[k]
  }

  /** The memory entries expired at now. */
  function ExpiredMemory<V>(memory: map<string, Entry<V>>, now: int): map<string, Entry<V>>
  {
    map k | k in memory && !memory[k].LiveAt(now) :: memory[k]
  }

  /** A storage key the cleanup removes: one of ours whose record has expired. */
  predicate Doomed<V>(storage: map<string, Stored<V>>, k: string, now: int)
  {
    k in storage && HasPrefix(k, STORAGE_PREFIX) && storage[k].Item? && !storage[k].entry.LiveAt(now)
  }

  // ---------------------------------------------------------------------------
  // The operations on values

  /** `set(key, data, ttl)` at now; storageOk is whether `localStorage.setItem` succeeded. */
  function SetSpec<V>(st: ClientState<V>, key: string, data: V, ttl: int, now: int, storageOk: bool): (r: ClientState<V>)
    requires st.Valid()
    ensures r.Valid()
  {
    var e := Fresh(data, ttl, now);
    ClientState(st.memory[key := e], if storageOk then st.storage[StorageKey(key) := Item(e)] else st.storage)
  }

  /** `get(key)` at now: the data found and the tiers afterwards. */
  function GetSpec<V>(st: ClientState<V>, key: string, now: int): (r: (Option<V>, ClientState<V>))
    requires st.Valid()
    ensures r.1.Valid()
  {
    if key in st.memory && st.memory[key].LiveAt(now) then (Some(st.memory[key].data), st)
    else
      var memory := st.memory - {key};
      var sk := StorageKey(key);
      if sk in st.storage then
        var item := st.storage[sk].entry;
        if item.LiveAt(now) then (Some(item.data), ClientState(memory[key := item], st.storage))
        else (None, ClientState(memory, st.storage - {sk}))
      else (None, ClientState(memory, st.storage))
  }

  /** `delete(key)`: both tiers lose the key. */
  function DeleteSpec<V>(st: ClientState<V>, key: string): (r: ClientState<V>)
    requires st.Valid()
    ensures r.Valid()
  {
    ClientState(st.memory - {key}, st.storage - {StorageKey(key)})
  }

  /** `cleanup()` at now. */
  function CleanupSpec<V>(st: ClientState<V>, now: int): (r: ClientState<V>)
    requires st.Valid()
    ensures r.Valid()
  {
    ClientState(LiveMemory(st.memory, now), map k | k in st.storage && !Doomed(st.storage, k, now) :: st.storage[k])
  }

  /** `cacheManager.clearAll()`. */
  function ClearAllSpec<V>(st: ClientState<V>): (r: ClientState<V>)
    requires st.Valid()
    ensures r.Valid()
  {
    ClientState(map[], map k | k in st.storage && !HasPrefix(k, STORAGE_PREFIX) :: st.storage[k])
  }

  /** `cacheManager.getStatus()`: memory totals and the number of `cache_` keys in storage. */
  datatype ClientStatus = ClientStatus(memoryTotal: nat, memoryValid: nat, memoryExpired: int, storageTotal: nat)

  function OwnKeys<V>(storage: map<string, Stored<V>>): set<string>
  {
    set k | k in storage && HasPrefix(k, STORAGE_PREFIX)
  }

  function StatusSpec<V>(st: ClientState<V>, now: int): ClientStatus
  {
    var valid := |LiveMemory(st.memory, now)|;
    ClientStatus(|st.memory|, valid, |st.memory| - valid, |OwnKeys(st.storage)|)
  }

  // ---------------------------------------------------------------------------
  // The cache object

  class ClientCache<V> {
    var memory: map<string, Entry<V>>
    var storage: map<string, Stored<V>>

    function State(): ClientState<V>
      reads this
    {
      ClientState(memory, storage)
    }

    ghost predicate Valid()
      reads this
    {
      State().Valid()
    }

    /** A page load: memory starts empty, localStorage holds what earlier visits left. */
    constructor (persisted: map<string, Stored<V>>)
      requires ClientState(map[], persisted).Valid()
      ensures Valid() && State() == ClientState(map[], persisted)
    {
      memory := map[];
      storage := persisted;
    }

    method Set(key: string, data: V, ttl: int, now: int, storageOk: bool)
      requires Valid()
      modifies this
      ensures Valid() && State() == SetSpec(old(State()), key, data, ttl, now, storageOk)
    {
      var e := Entry(data, now, now + ttl);
      memory := memory[key := e];
      if storageOk {
        storage := storage[StorageKey(key) := Item(e)];
      }
    }

    method Get(key: string, now: int) returns (r: Option<V>)
      requires Valid()
      modifies this
      ensures Valid() && (r, State()) == GetSpec(old(State()), key, now)
    {
      if key in memory {
        var memoryItem := memory[key];
        if now <= memoryItem.expiry {
          return Some(memoryItem.data);
        }
        memory := memory - {key};
      } else {
        assert memory - {key} == memory;
      }
      var sk := StorageKey(key);
      if sk in storage {
        var item := storage[sk].entry;
        if now <= item.expiry {
          memory := memory[key := item];
          return Some(item.data);
        }
        storage := storage - {sk};
      }
      return None;
    }

    method Delete(key: string)
      requires Valid()
      modifies this
      ensures Valid() && State() == DeleteSpec(old(State()), key)
    {
      memory := memory - {key};
      storage := storage - {StorageKey(key)};
    }

    /** Two passes: expired memory entries, then expired `cache_` items in storage. */
    method Cleanup(now: int)
      requires Valid()
      modifies this
      ensures Valid() && State() == CleanupSpec(old(State()), now)
    {
      ghost var m0 := memory;
      var todo := memory.Keys;
      while todo != {}
        invariant todo <= m0.Keys
        invariant memory == map k | k in m0 && (k in todo || m0[k].LiveAt(now)) :: m0[k]
        invariant storage == old(storage)
        decreases todo
      {
        var key :| key in todo;
        if now > memory[key].expiry {
          memory := memory - {key};
        }
        todo := todo - {key};
      }
      ghost var s0 := storage;
      var keys := storage.Keys;
      while keys != {}
        invariant keys <= s0.Keys
        invariant storage == map k | k in s0 && (k in keys || !Doomed(s0, k, now)) :: s0[k]
        invariant memory == LiveMemory(m0, now)
        decreases keys
      {
        var key :| key in keys;
        if HasPrefix(key, STORAGE_PREFIX) {
          var stored := storage[key];
          if now > stored.entry.expiry {
            storage := storage - {key};
          }
        }
        keys := keys - {key};
      }
    }

    /** Empties memory and removes every `cache_` key from storage. */
    method ClearAll()
      requires Valid()
      modifies this
      ensures Valid() && State() == ClearAllSpec(old(State()))
    {
      memory := map[];
      ghost var s0 := storage;
      var keys := storage.Keys;
      while keys != {}
        invariant keys <= s0.Keys
        invariant storage == map k | k in s0 && (k in keys || !HasPrefix(k, STORAGE_PREFIX)) :: s0[k]
        invariant memory == map[]
        decreases keys
      {
        var key :| key in keys;
        if HasPrefix(key, STORAGE_PREFIX) {
          storage := storage - {key};
        }
        keys := keys - {key};
      }
    }

    /** Counts the live memory entries and the `cache_` keys in storage. */
    method GetStatus(now: int) returns (status: ClientStatus)
      ensures status == StatusSpec(State(), now)
    {
      var validItems := LiveMemory(memory, now);
      var s := storage;
      var cacheCount := 0;
      var keys := s.Keys;
      while keys != {}
        invariant keys <= s.Keys
        invariant cacheCount == |OwnKeys(s) - keys|
        decreases keys
      {
        var key :| key in keys;
        OwnKeysStep(s, keys, key);
        if HasPrefix(key, STORAGE_PREFIX) {
          cacheCount := cacheCount + 1;
        }
        keys := keys - {key};
      }
      assert OwnKeys(s) - keys == OwnKeys(s);
      status := ClientStatus(|memory|, |validItems|, |memory| - |validItems|, cacheCount);
    }
  }

  /** One step of the counting loop of getStatus. */
  lemma OwnKeysStep<V>(s: map<string, Stored<V>>, keys: set<string>, key: string)
    requires key in keys && keys <= s.Keys
    ensures HasPrefix(key, STORAGE_PREFIX) ==> |OwnKeys(s) - (keys - {key})| == |OwnKeys(s) - keys| + 1
    ensures !HasPrefix(key, STORAGE_PREFIX) ==> OwnKeys(s) - (keys - {key}) == OwnKeys(s) - keys
  {
    if HasPrefix(key, STORAGE_PREFIX) {
      assert OwnKeys(s) - (keys - {key}) == (OwnKeys(s) - keys) + {key};
    }
  }

  // ---------------------------------------------------------------------------
  // Properties

  /** `set` writes one record to both tiers (to storage only when that succeeds). */
  lemma SetBothTiers<V>(st: ClientState<V>, key: string, data: V, ttl: int, now: int, storageOk: bool)
    requires st.Valid()
    ensures var r := SetSpec(st, key, data, ttl, now, storageOk);
      && r.memory[key] == Entry(data, now, now + ttl)
      && (storageOk ==> r.storage[StorageKey(key)] == Item(r.memory[key]))
      && (!storageOk ==> r.storage == st.storage)
      && (forall k :: k != key && k in st.memory ==> k in r.memory && r.memory[k] == st.memory[k])
  {
  }

  /**
   * Reading back: up to and including the expiry instant the data comes back
   * from memory; after it nothing comes back, and when both tiers were written
   * neither keeps the key.
   */
  lemma ClientGetAfterSet<V>(st: ClientState<V>, key: string, data: V, ttl: int, t0: int, now: int, storageOk: bool)
    requires st.Valid()
    ensures var st1 := SetSpec(st, key, data, ttl, t0, storageOk);
      var (r, st2) := GetSpec(st1, key, now);
      && (now <= t0 + ttl ==> r == Some(data) && st2 == st1)
      && (now > t0 + ttl && storageOk ==> r == None && key !in st2.memory && StorageKey(key) !in st2.storage)
  {
  }

  /** A live memory entry wins: storage is not consulted and nothing changes. */
  lemma GetMemoryFirst<V>(st: ClientState<V>, st': ClientState<V>, key: string, now: int)
    requires st.Valid() && st'.Valid() && st'.memory == st.memory
    requires key in st.memory && st.memory[key].LiveAt(now)
    ensures GetSpec(st, key, now) == (Some(st.memory[key].data), st)
    ensures GetSpec(st', key, now).0 == GetSpec(st, key, now).0
  {
  }

  /**
   * Without a live memory entry, a live storage record is returned and copied
   * into memory, so the next read at the same time is a memory hit.
   */
  lemma GetPromotes<V>(st: ClientState<V>, key: string, now: int)
    requires st.Valid()
    requires !(key in st.memory && st.memory[key].LiveAt(now))
    requires StorageKey(key) in st.storage && st.storage[StorageKey(key)].Item?
    requires st.storage[StorageKey(key)].entry.LiveAt(now)
    ensures var (r, st2) := GetSpec(st, key, now);
      && r == Some(st.storage[StorageKey(key)].entry.data)
      && st2.memory == st.memory[key := st.storage[StorageKey(key)].entry]
      && st2.storage == st.storage
      && GetSpec(st2, key, now) == (r, st2)
  {
  }

  /** A read that finds nothing leaves the key in neither tier. */
  lemma GetNoneClears<V>(st: ClientState<V>, key: string, now: int)
    requires st.Valid()
    ensures var (r, st2) := GetSpec(st, key, now);
      r.None? ==> key !in st2.memory && StorageKey(key) !in st2.storage
  {
  }

  /** A read changes only the entries of its own key. */
  lemma GetOthersUnchanged<V>(st: ClientState<V>, key: string, other: string, now: int)
    requires st.Valid() && other != key
    ensures var st2 := GetSpec(st, key, now).1;
      && (other in st2.memory <==> other in st.memory)
      && (other in st.memory ==> st2.memory[other] == st.memory[other])
      && (StorageKey(other) in st2.storage <==> StorageKey(other) in st.storage)
      && (StorageKey(other) in st.storage ==> st2.storage[StorageKey(other)] == st.storage[StorageKey(other)])
  {
    if StorageKey(other) == StorageKey(key) {
      StorageKeyInjective(other, key);
    }
  }

  /** After `delete(key)` a read of key finds nothing, and other keys read as before. */
  lemma DeleteForgets<V>(st: ClientState<V>, key: string, other: string, now: int)
    requires st.Valid() && other != key
    ensures GetSpec(DeleteSpec(st, key), key, now).0 == None
    ensures GetSpec(DeleteSpec(st, key), other, now).0 == GetSpec(st, other, now).0
  {
    if StorageKey(other) == StorageKey(key) {
      StorageKeyInjective(other, key);
    }
  }

  /**
   * Cleanup keeps exactly the live memory entries and removes exactly the
   * expired `cache_` records; every other storage key is untouched.
   */
  lemma CleanupExact<V>(st: ClientState<V>, now: int)
    requires st.Valid()
    ensures var r := CleanupSpec(st, now);
      && (forall k :: k in r.memory <==> k in st.memory && st.memory[k].LiveAt(now))
      && (forall k :: k in r.memory ==> r.memory[k] == st.memory[k])
      && (forall k :: k in r.storage <==> k in st.storage && !Doomed(st.storage, k, now))
      && (forall k :: k in r.storage ==> r.storage[k] == st.storage[k])
      && (forall k :: k in st.storage && !HasPrefix(k, STORAGE_PREFIX) ==> k in r.storage)
  {
  }

  /** Cleanup changes no read: every key reads the same before and after it. */
  lemma CleanupUnobservable<V>(st: ClientState<V>, key: string, now: int)
    requires st.Valid()
    ensures GetSpec(CleanupSpec(st, now), key, now).0 == GetSpec(st, key, now).0
  {
  }

  /** clearAll empties memory, removes every `cache_` key and keeps every other storage key. */
  lemma ClearAllExact<V>(st: ClientState<V>, key: string, now: int)
    requires st.Valid()
    ensures var r := ClearAllSpec(st);
      && r.memory == map[]
      && (forall k :: k in r.storage <==> k in st.storage && !HasPrefix(k, STORAGE_PREFIX))
      && GetSpec(r, key, now).0 == None
  {
  }

  /** The status counts split memory into its live and its expired entries. */
  lemma StatusPartition<V>(st: ClientState<V>, now: int)
    ensures var s := StatusSpec(st, now);
      && s.memoryValid == |LiveMemory(st.memory, now)|
      && s.memoryExpired == |ExpiredMemory(st.memory, now)|
      && s.memoryValid + s.memoryExpired == s.memoryTotal
  {
    var live := LiveMemory(st.memory, now).Keys;
    var dead := ExpiredMemory(st.memory, now).Keys;
    assert st.memory.Keys == live + dead;
    assert live * dead == {};
  }
}
