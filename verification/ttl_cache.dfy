/**
 * The server's in-memory cache (`cacheUtils` over the module-level `cache` Map):
 * string keys, expiring entries, at most MAX_CACHE_SIZE keys, and eviction of
 * the earliest-inserted key when an insertion goes over that bound. A JavaScript
 * Map remembers insertion order, and overwriting a key keeps its place; the
 * model keeps that order explicitly as `order`.
 *
 * CacheState and the functions on it say what each operation does; the class
 * TtlCache performs the same operations in place and is proved against them.
 */
module TtlCache {
  import opened Wrappers
  import opened CacheEntry

  const CACHE_TTL: int := 5 * 60 * 1000
  const MAX_CACHE_SIZE: nat := 100

  /** Every key occurs once. */
  predicate NoDuplicates(s: seq<string>)
  {
    s == [] || (s[0] !in s[1..] && NoDuplicates(s[1..]))
  }

  lemma NoDuplicatesParts(s: seq<string>)
    requires s != []
    ensures NoDuplicates(s) ==> s[0] !in s[1..] && NoDuplicates(s[1..])
  {
  }

  lemma {:induction false} AppendFresh(s: seq<string>, key: string)
    requires NoDuplicates(s) && key !in s
    ensures NoDuplicates(s + [key])
  {
    if s != [] {
      assert (s + [key])[1..] == s[1..] + [key];
      AppendFresh(s[1..], key);
    }
  }

  lemma {:induction false} NoDuplicatesSuffix(keys: seq<string>, i: nat)
    requires NoDuplicates(keys) && i < |keys|
    ensures keys[i] !in keys[i + 1..] && keys[i] !in keys[..i]
  {
    if i > 0 {
      NoDuplicatesSuffix(keys[1..], i - 1);
      assert keys[1..][i - 1 + 1..] == keys[i + 1..];
      assert keys[..i] == [keys[0]] + keys[1..][..i - 1];
    }
  }

  datatype CacheState<V> = CacheState(order: seq<string>, entries: map<string, Entry<V>>)
  {
    /** The Map's keys in insertion order, each once, and never more than the bound. */
    ghost predicate Valid()
    {
      && NoDuplicates(order)
      && (forall k :: k in entries <==> k in order)
      && |order| <= MAX_CACHE_SIZE
    }
  }

  /** The counts `status()` reports. */
  datatype CacheStatus = CacheStatus(total: int, valid: int, expired: int)

  // ---------------------------------------------------------------------------
  // Specification of each operation on the abstract state

  /** `set(key, data, ttl)` at time now. */
  function Put<V>(st: CacheState<V>, key: string, data: V, ttl: int, now: int): (r: CacheState<V>)
    requires st.Valid()
    ensures r.Valid()
  {
    var order1 := if key in st.entries then st.order else st.order + [key];
    var entries1 := st.entries[key := Fresh(data, ttl, now)];
    assert NoDuplicates(order1) by {
      if key !in st.entries { AppendFresh(st.order, key); }
    }
    if |order1| > MAX_CACHE_SIZE then
      NoDuplicatesParts(order1);
      assert forall k :: k in order1[1..] <==> k in order1 && k != order1[0] by {
        assert order1 == [order1[0]] + order1[1..];
      }
      CacheState(order1[1..], entries1 - {order1[0]})
    else
      CacheState(order1, entries1)
  }

  /** Removes key from the insertion order. */
  function Without(s: seq<string>, key: string): (r: seq<string>)
    ensures |r| <= |s|
  {
    if s == [] then []
    else if s[0] == key then Without(s[1..], key)
    else [s[0]] + Without(s[1..], key)
  }

  lemma {:induction false} WithoutMembers(s: seq<string>, key: string)
    ensures forall k :: k in Without(s, key) <==> k in s && k != key
    ensures NoDuplicates(s) ==> NoDuplicates(Without(s, key))
  {
    if s != [] {
      WithoutMembers(s[1..], key);
      NoDuplicatesParts(s);
      assert s == [s[0]] + s[1..];
    }
  }

  /** `delete(key)`. */
  function Remove<V>(st: CacheState<V>, key: string): (r: CacheState<V>)
    requires st.Valid()
    ensures r.Valid()
  {
    WithoutMembers(st.order, key);
    CacheState(Without(st.order, key), st.entries - {key})
  }

  /** `get(key)` at time now: the payload, and the state after lazy eviction. */
  function Lookup<V>(st: CacheState<V>, key: string, now: int): (r: (Option<V>, CacheState<V>))
    requires st.Valid()
    ensures r.1.Valid()
  {
    if key !in st.entries then (None, st)
    else if now > st.entries[key].expiry then (None, Remove(st, key))
    else (Some(st.entries[key].data), st)
  }

  /** The keys of `order` whose entries are still live at now, in order. */
  function LiveKeys<V>(order: seq<string>, entries: map<string, Entry<V>>, now: int): (r: seq<string>)
    ensures |r| <= |order|
  {
    if order == [] then []
    else
      var rest := LiveKeys(order[1..], entries, now);
      if order[0] in entries && entries[order[0]].LiveAt(now) then [order[0]] + rest else rest
  }

  lemma {:induction false} LiveKeysMembers<V>(order: seq<string>, entries: map<string, Entry<V>>, now: int)
    ensures forall k :: k in LiveKeys(order, entries, now) <==> k in order && k in entries && entries[k].LiveAt(now)
    ensures NoDuplicates(order) ==> NoDuplicates(LiveKeys(order, entries, now))
  {
    if order != [] {
      LiveKeysMembers(order[1..], entries, now);
      NoDuplicatesParts(order);
      assert order == [order[0]] + order[1..];
    }
  }

  /** `cleanup()` at time now. */
  function Sweep<V>(st: CacheState<V>, now: int): (r: CacheState<V>)
    requires st.Valid()
    ensures r.Valid()
  {
    LiveKeysMembers(st.order, st.entries, now);
    CacheState(LiveKeys(st.order, st.entries, now),
               map k | k in st.entries && st.entries[k].LiveAt(now) :: st.entries[k])
  }

  /** Number of keys of order whose entries are live at now. */
  function CountLive<V>(order: seq<string>, entries: map<string, Entry<V>>, now: int): (n: nat)
    ensures n <= |order|
  {
    if order == [] then 0
    else CountLive(order[1..], entries, now) + (if order[0] in entries && entries[order[0]].LiveAt(now) then 1 else 0)
  }

  /** Number of keys of order whose entries have expired by now. */
  function CountExpired<V>(order: seq<string>, entries: map<string, Entry<V>>, now: int): (n: nat)
  {
    if order == [] then 0
    else CountExpired(order[1..], entries, now) + (if order[0] in entries && now > entries[order[0]].expiry then 1 else 0)
  }

  /** `status()` at time now: `expired` is computed as `total - valid`, as the source does. */
  function Status<V>(st: CacheState<V>, now: int): (s: CacheStatus)
    requires st.Valid()
  {
    var valid := CountLive(st.order, st.entries, now);
    CacheStatus(|st.order|, valid, |st.order| - valid)
  }

  // ---------------------------------------------------------------------------
  // Properties

  /** A key just set holds exactly the new record; nothing else gains a key. */
  lemma PutStores<V>(st: CacheState<V>, key: string, data: V, ttl: int, now: int)
    requires st.Valid()
    ensures var r := Put(st, key, data, ttl, now);
      && key in r.entries && r.entries[key] == Entry(data, now, now + ttl)
      && forall k :: k in r.entries && k != key ==> k in st.entries && r.entries[k] == st.entries[k]
  {
    var order1 := if key in st.entries then st.order else st.order + [key];
    if |order1| > MAX_CACHE_SIZE {
      assert order1[|order1| - 1] == key;
      assert order1[0] != key;
    }
  }

  /** Overwriting a present key keeps its place in the order and evicts nothing. */
  lemma PutOverwriteKeepsOrder<V>(st: CacheState<V>, key: string, data: V, ttl: int, now: int)
    requires st.Valid() && key in st.entries
    ensures Put(st, key, data, ttl, now).order == st.order
    ensures Put(st, key, data, ttl, now).entries.Keys == st.entries.Keys
  {
  }

  /**
   * A new key goes to the end of the order; if the Map then holds more than
   * MAX_CACHE_SIZE keys, exactly the earliest-inserted key is evicted (FIFO,
   * not least-recently-used).
   */
  lemma PutNewKeyFifo<V>(st: CacheState<V>, key: string, data: V, ttl: int, now: int)
    requires st.Valid() && key !in st.entries
    ensures var r := Put(st, key, data, ttl, now);
      if |st.order| < MAX_CACHE_SIZE then
        r.order == st.order + [key] && r.entries.Keys == st.entries.Keys + {key}
      else
        && r.order == st.order[1..] + [key]
        && r.entries.Keys == st.entries.Keys - {st.order[0]} + {key}
        && st.order[0] !in r.entries
  {
    if |st.order| == MAX_CACHE_SIZE {
      assert (st.order + [key])[1..] == st.order[1..] + [key];
      assert st.order[0] != key;
    }
  }

  /**
   * `get` right after `set`: the stored payload up to and including the expiry
   * instant now == t0 + ttl; afterwards a miss that removes the key.
   */
  lemma GetAfterSet<V>(st: CacheState<V>, key: string, data: V, ttl: int, t0: int, now: int)
    requires st.Valid()
    ensures var s1 := Put(st, key, data, ttl, t0);
      var (r, s2) := Lookup(s1, key, now);
      && (now <= t0 + ttl ==> r == Some(data) && s2 == s1)
      && (now > t0 + ttl ==> r == None && key !in s2.entries && s2 == Remove(s1, key))
  {
    PutStores(st, key, data, ttl, t0);
  }

  /** Lookup answers a live entry with its payload and a missing or expired one with None. */
  lemma LookupHitIffLive<V>(st: CacheState<V>, key: string, now: int)
    requires st.Valid()
    ensures var (r, s2) := Lookup(st, key, now);
      && (r.Some? <==> key in st.entries && st.entries[key].LiveAt(now))
      && (r.Some? ==> r.value == st.entries[key].data && s2 == st)
      && (r.None? ==> key !in s2.entries
                      && s2.entries == st.entries - {key}
                      && s2.order == Without(st.order, key))
  {
    if key !in st.entries {
      WithoutAbsent(st.order, key);
    }
  }

  /**
   * A set that cannot evict (the key is already present, or the Map holds
   * fewer than MAX_CACHE_SIZE keys) keeps every other entry, and the order
   * grows by at most one key.
   */
  lemma PutKeepsOthers<V>(st: CacheState<V>, key: string, data: V, ttl: int, now: int)
    requires st.Valid() && (key in st.entries || |st.order| < MAX_CACHE_SIZE)
    ensures var r := Put(st, key, data, ttl, now);
      && (forall k :: k in st.entries && k != key ==> k in r.entries && r.entries[k] == st.entries[k])
      && |r.order| <= |st.order| + 1
  {
    PutStores(st, key, data, ttl, now);
    if key in st.entries {
      PutOverwriteKeepsOrder(st, key, data, ttl, now);
    } else {
      PutNewKeyFifo(st, key, data, ttl, now);
    }
  }

  /**
   * `cleanup` removes exactly the entries with now > expiry, leaves every other
   * entry's payload and expiry as they were, and keeps the survivors' order.
   */
  lemma SweepExact<V>(st: CacheState<V>, now: int)
    requires st.Valid()
    ensures var r := Sweep(st, now);
      && (forall k :: k in r.entries <==> k in st.entries && now <= st.entries[k].expiry)
      && (forall k :: k in r.entries ==> r.entries[k] == st.entries[k])
      && r.order == LiveKeys(st.order, st.entries, now)
  {
  }

  lemma {:induction false} CountsPartition<V>(order: seq<string>, entries: map<string, Entry<V>>, now: int)
    requires forall k :: k in order ==> k in entries
    ensures CountLive(order, entries, now) + CountExpired(order, entries, now) == |order|
  {
    if order != [] {
      CountsPartition(order[1..], entries, now);
    }
  }

  /**
   * `status()`: `total` is the number of keys, and `expired` (computed as
   * total - valid) is the number of entries whose expiry has passed.
   */
  lemma StatusCounts<V>(st: CacheState<V>, now: int)
    requires st.Valid()
    ensures var s := Status(st, now);
      && s.total == |st.order| == |st.entries|
      && s.valid + s.expired == s.total
      && 0 <= s.valid <= s.total
      && s.expired == CountExpired(st.order, st.entries, now)
  {
    CountsPartition(st.order, st.entries, now);
    DistinctKeysCount(st);
  }

  lemma {:induction false} DistinctKeysCount<V>(st: CacheState<V>)
    requires st.Valid()
    ensures |st.entries| == |st.order|
  {
    var keys := set k | k in st.order;
    assert st.entries.Keys == keys;
    SeqToSetSize(st.order);
  }

  lemma {:induction false} SeqToSetSize(s: seq<string>)
    requires NoDuplicates(s)
    ensures |set k | k in s| == |s|
  {
    if s != [] {
      SeqToSetSize(s[1..]);
      assert (set k | k in s) == (set k | k in s[1..]) + {s[0]};
      assert s[0] !in s[1..];
    }
  }

  // ---------------------------------------------------------------------------
  // The cache object

  class TtlCache<V> {
    /** The Map's keys, in insertion order. */
    var order: seq<string>
    /** The Map's records. */
    var entries: map<string, Entry<V>>

    function State(): CacheState<V>
      reads this
    {
      CacheState(order, entries)
    }

    ghost predicate Valid()
      reads this
    {
      State().Valid()
    }

    constructor ()
      ensures Valid() && State() == CacheState([], map[])
    {
      order := [];
      entries := map[];
    }

    /** `cacheUtils.set(key, data, ttl)` at time now. */
    method Set(key: string, data: V, ttl: int, now: int)
      requires Valid()
      modifies this
      ensures State() == Put(old(State()), key, data, ttl, now)
      ensures Valid()
    {
      if key !in entries {
        order := order + [key];
      }
      entries := entries[key := Entry(data, now, now + ttl)];
      if |order| > MAX_CACHE_SIZE {
        var firstKey := order[0];
        order := order[1..];
        entries := entries - {firstKey};
      }
    }

    /** `cacheUtils.get(key)` at time now: deletes the entry when it has expired. */
    method Get(key: string, now: int) returns (r: Option<V>)
      requires Valid()
      modifies this
      ensures Valid()
      ensures (r, State()) == Lookup(old(State()), key, now)
    {
      if key !in entries {
        return None;
      }
      var item := entries[key];
      if now > item.expiry {
        Delete(key);
        return None;
      }
      return Some(item.data);
    }

    /** `cacheUtils.delete(key)`. */
    method Delete(key: string)
      requires Valid()
      modifies this
      ensures Valid()
      ensures State() == Remove(old(State()), key)
    {
      WithoutMembers(order, key);
      MapDelete(key);
    }

    /** `Map.prototype.delete` on the underlying Map. */
    method MapDelete(key: string)
      modifies this
      ensures order == Without(old(order), key) && entries == old(entries) - {key}
    {
      order := Without(order, key);
      entries := entries - {key};
    }

    /** `cacheUtils.cleanup()` at time now: one pass over the entries, deleting the expired ones. */
    method Cleanup(now: int) returns (deletedCount: nat)
      requires Valid()
      modifies this
      ensures State() == Sweep(old(State()), now)
      ensures Valid()
      ensures deletedCount == |old(order)| - |order|
    {
      ghost var st0 := State();
      var keys := order;
      PassStart(st0, now);
      var i := 0;
      deletedCount := 0;
      while i < |keys|
        invariant 0 <= i <= |keys| && keys == st0.order
        invariant order == Pass(st0, i, now).order && entries == Pass(st0, i, now).entries
        invariant deletedCount + |order| == |keys|
      {
        var key := keys[i];
        PassStep(st0, i, now);
        if now > entries[key].expiry {
          MapDelete(key);
          deletedCount := deletedCount + 1;
        }
        i := i + 1;
      }
      PassEnd(st0, now);
      assert State() == Sweep(st0, now);
    }
  }

  /**
   * The state of a cleanup pass over st0 once the first i keys of its order
   * have been visited: the visited keys that are live, then the unvisited ones.
   */
  ghost function Pass<V>(st0: CacheState<V>, i: nat, now: int): CacheState<V>
    requires i <= |st0.order|
  {
    CacheState(LiveKeys(st0.order[..i], st0.entries, now) + st0.order[i..],
               Kept(st0.entries, st0.order[i..], now))
  }

  lemma PassStart<V>(st0: CacheState<V>, now: int)
    requires st0.Valid()
    ensures Pass(st0, 0, now) == st0
  {
    assert st0.order[..0] == [] && st0.order[0..] == st0.order;
    KeptAll(st0.entries, st0.order, now);
  }

  lemma PassEnd<V>(st0: CacheState<V>, now: int)
    requires st0.Valid()
    ensures Pass(st0, |st0.order|, now) == Sweep(st0, now)
  {
    assert st0.order[..|st0.order|] == st0.order;
    KeptNone(st0.entries, now);
  }

  /** Visiting the i-th key: an expired one is deleted, a live one kept. */
  lemma PassStep<V>(st0: CacheState<V>, i: nat, now: int)
    requires st0.Valid() && i < |st0.order|
    ensures var k := st0.order[i];
      var p := Pass(st0, i, now);
      var q := Pass(st0, i + 1, now);
      && k in p.entries && p.entries[k] == st0.entries[k]
      && q == (if now > st0.entries[k].expiry then CacheState(Without(p.order, k), p.entries - {k}) else p)
      && |q.order| == |p.order| - (if now > st0.entries[k].expiry then 1 else 0)
  {
    var keys := st0.order;
    var k := keys[i];
    CleanupOrderStep(keys, i, st0.entries, now);
    NoDuplicatesSuffix(keys, i);
    KeptStep(st0.entries, k, keys[i + 1..], now);
    assert keys[i..] == [k] + keys[i + 1..];
  }

  /** The records a cleanup pass still holds while `rest` is left to visit. */
  ghost function Kept<V>(entries0: map<string, Entry<V>>, rest: seq<string>, now: int): map<string, Entry<V>>
  {
    map k | k in entries0 && (k in rest || entries0[k].LiveAt(now)) :: entries0[k]
  }

  lemma KeptAll<V>(entries0: map<string, Entry<V>>, keys: seq<string>, now: int)
    requires forall k :: k in entries0 <==> k in keys
    ensures Kept(entries0, keys, now) == entries0
  {
  }

  lemma KeptNone<V>(entries0: map<string, Entry<V>>, now: int)
    ensures Kept(entries0, [], now) == map k | k in entries0 && entries0[k].LiveAt(now) :: entries0[k]
  {
  }

  lemma KeptStep<V>(entries0: map<string, Entry<V>>, key: string, rest: seq<string>, now: int)
    requires key in entries0 && key !in rest
    ensures key in Kept(entries0, [key] + rest, now) && Kept(entries0, [key] + rest, now)[key] == entries0[key]
    ensures Kept(entries0, rest, now)
         == if entries0[key].LiveAt(now) then Kept(entries0, [key] + rest, now)
            else Kept(entries0, [key] + rest, now) - {key}
  {
  }

  /** What visiting keys[i] does to the insertion order during a cleanup pass. */
  lemma CleanupOrderStep<V>(keys: seq<string>, i: nat, entries0: map<string, Entry<V>>, now: int)
    requires i < |keys| && NoDuplicates(keys)
    requires forall k :: k in keys ==> k in entries0
    ensures var done := LiveKeys(keys[..i], entries0, now);
      var key := keys[i];
      var done' := LiveKeys(keys[..i + 1], entries0, now);
      && (entries0[key].LiveAt(now) ==> done' + keys[i + 1..] == done + keys[i..] && |done'| == |done| + 1)
      && (!entries0[key].LiveAt(now) ==> done' + keys[i + 1..] == Without(done + keys[i..], key) && |done'| == |done|)
  {
    var key := keys[i];
    var done := LiveKeys(keys[..i], entries0, now);
    var rest := keys[i + 1..];
    LiveKeysAppend(keys[..i], key, entries0, now);
    assert keys[..i + 1] == keys[..i] + [key];
    NoDuplicatesSuffix(keys, i);
    LiveKeysMembers(keys[..i], entries0, now);
    assert keys[i..] == [key] + rest;
    assert done + keys[i..] == done + [key] + rest;
    if !entries0[key].LiveAt(now) {
      WithoutSplit(done, key, rest);
    }
  }

  lemma {:induction false} LiveKeysAppend<V>(s: seq<string>, k: string, entries: map<string, Entry<V>>, now: int)
    requires k in entries
    ensures LiveKeys(s + [k], entries, now)
         == LiveKeys(s, entries, now) + (if entries[k].LiveAt(now) then [k] else [])
  {
    if s != [] {
      assert (s + [k])[1..] == s[1..] + [k];
      LiveKeysAppend(s[1..], k, entries, now);
    }
  }

  /** Removing a key that occurs only between a and b. */
  lemma {:induction false} WithoutSplit(a: seq<string>, key: string, b: seq<string>)
    requires key !in a && key !in b
    ensures Without(a + [key] + b, key) == a + b
  {
    if a == [] {
      assert ([key] + b)[1..] == b;
      WithoutAbsent(b, key);
    } else {
      assert (a + [key] + b)[1..] == a[1..] + [key] + b;
      WithoutSplit(a[1..], key, b);
    }
  }

  lemma {:induction false} WithoutAbsent(s: seq<string>, key: string)
    requires key !in s
    ensures Without(s, key) == s
  {
    if s != [] {
      WithoutAbsent(s[1..], key);
    }
  }
}
