/**
 * The emergency-management dashboard's tiny time-to-live cache
 * (`CACHE`, `cache_get`, `cache_set` in em_impact_app/app.py). Each key maps
 * to an expiry time and a payload; a payload is served only strictly before
 * its expiry. The clock is an integer parameter (seconds).
 */
module TtlCache {
  import opened Wrappers

  /** `(expires_epoch, data)` */
  datatype Entry<D> = Entry(expires: int, data: D)

  /** `cache_set`'s default lifetime in seconds. */
  const DefaultTtl: int := 120

  /** What `cache_get(key)` returns at time `now`. */
  function Lookup<D>(entries: map<string, Entry<D>>, key: string, now: int): (r: Option<D>)
    ensures r.Some? <==> key in entries && now < entries[key].expires
    ensures r.Some? ==> r.value == entries[key].data
  {
    if key in entries && now < entries[key].expires then Some(entries[key].data) else None
  }

  /** The cache after `cache_set(key, data, ttl)` at time `now`. */
  function Store<D>(entries: map<string, Entry<D>>, key: string, data: D, ttl: int, now: int)
    : (m: map<string, Entry<D>>)
    ensures m.Keys == entries.Keys + {key}
    ensures m[key] == Entry(now + ttl, data)
    ensures forall k :: k in entries && k != key ==> m[k] == entries[k]
  {
    entries[key := Entry(now + ttl, data)]
  }

  /** A stored payload is served for exactly `ttl` seconds, whatever was there before. */
  lemma StoreThenLookup<D>(entries: map<string, Entry<D>>, key: string, data: D, ttl: int, now: int, t: int)
    ensures Lookup(Store(entries, key, data, ttl, now), key, t)
         == if t < now + ttl then Some(data) else None
  {
  }

  /** Storing under one key leaves every other key's answer as it was. */
  lemma StoreKeepsOthers<D>(entries: map<string, Entry<D>>, key: string, data: D, ttl: int, now: int,
                            other: string, t: int)
    requires other != key
    ensures Lookup(Store(entries, key, data, ttl, now), other, t) == Lookup(entries, other, t)
  {
  }

  /** Once an entry has expired it stays expired until it is stored again. */
  lemma ExpiryIsFinal<D>(entries: map<string, Entry<D>>, key: string, t1: int, t2: int)
    requires t1 <= t2 && Lookup(entries, key, t1) == None
    ensures Lookup(entries, key, t2) == None
  {
  }

  /** The dictionary `CACHE` as an object. */
  class Cache<D> {
    var entries: map<string, Entry<D>>

    constructor ()
      ensures entries == map[]
    {
      entries := map[];
    }

    /** `cache_get(key)` at time `now`: a read that changes nothing. */
    method Get(key: string, now: int) returns (r: Option<D>)
      ensures r.Some? <==> key in entries && now < entries[key].expires
      ensures r.Some? ==> r.value == entries[key].data
    {
      var rec := if key in entries then Some(entries[key]) else None;
      if rec.None? {
        return None;
      }
      r := if now < rec.value.expires then Some(rec.value.data) else None;
    }

    /** `cache_set(key, data, ttl)` at time `now`. */
    method Set(key: string, data: D, ttl: int, now: int)
      modifies this
      ensures entries == Store(old(entries), key, data, ttl, now)
    {
      entries := entries[key := Entry(now + ttl, data)];
    }
  }
}
