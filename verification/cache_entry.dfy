/**
 * The record both caches store under a key: `{ data, timestamp, ttl }`, where
 * the field the source calls `ttl` holds the absolute expiry time `now + ttl`.
 * Times are milliseconds since the epoch, passed in by the caller.
 */
module CacheEntry {

  datatype Entry<V> = Entry(data: V, timestamp: int, expiry: int)
  {
    /** The entry is still served at time now; the expiry instant itself is a hit. */
    predicate LiveAt(now: int) { now <= expiry }
  }

  /** The record `set(key, data, ttl)` writes at time now. */
  function Fresh<V>(data: V, ttl: int, now: int): (e: Entry<V>)
    ensures e.data == data && e.timestamp == now
    ensures e.LiveAt(now + ttl) && !e.LiveAt(now + ttl + 1)
  {
    Entry(data, now, now + ttl)
  }
}
