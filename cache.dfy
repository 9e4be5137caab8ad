/** The PSR-16 `CacheInterface` the services read through, as a map from key
    strings to stored values with an absolute expiry time, and an integer
    clock. An entry is there for `has` and `get` while the clock is before
    its expiry. */
module CacheStore {
  import opened Wrappers

  /** A stored value and the time from which it is expired. */
  datatype Entry<V> = Entry(value: V, expiry: int)

  /** Whether `key` holds an unexpired entry at time `now`. */
  predicate Live<V>(entries: map<string, Entry<V>>, now: int, key: string)
  {
    key in entries && now < entries[key].expiry
  }

  /** The entries whose key is not in `keys`. */
  function Without<V>(entries: map<string, Entry<V>>, keys: set<string>): (r: map<string, Entry<V>>)
    ensures forall k :: k in r <==> k in entries && k !in keys
    ensures forall k :: k in r ==> r[k] == entries[k]
  {
    map k | k in entries && k !in keys :: entries[k]
  }

  /** An entry written at `t0` with a positive `ttl` is live exactly until
      `t0 + ttl`, so long as nothing writes or deletes that key again. */
  lemma TtlBoundsLife<V>(entries: map<string, Entry<V>>, key: string, value: V, t0: int, ttl: int, now: int)
    requires ttl > 0
    ensures Live(entries[key := Entry(value, t0 + ttl)], now, key) <==> now < t0 + ttl
  {
  }

  /** Time passing only ends entries: what is live later was live before. */
  lemma LiveEarlier<V>(entries: map<string, Entry<V>>, now: int, later: int, key: string)
    requires now <= later
    ensures Live(entries, later, key) ==> Live(entries, now, key)
  {
  }

  class Cache<V> {
    var entries: map<string, Entry<V>>
    /** The current time, in seconds. */
    var now: int

    constructor (now: int)
      ensures entries == map[] && this.now == now
    {
      entries := map[];
      this.now := now;
    }

    /** `has($key)`. */
    function Has(key: string): (b: bool)
      reads this
      ensures b <==> Live(entries, now, key)
    {
      key in entries && now < entries[key].expiry
    }

    /** `get($key)`: the stored value while live, otherwise the default
        (null). */
    function Get(key: string): (r: Option<V>)
      reads this
      ensures r.Some? <==> Live(entries, now, key)
      ensures r.Some? ==> r.value == entries[key].value
    {
      if Has(key) then Some(entries[key].value) else None
    }

    /** `set($key, $value, $ttl)`: stores the value until `now + ttl`; a ttl
        of zero or less deletes the key, as PSR-16 prescribes. */
    method Set(key: string, value: V, ttl: int)
      modifies this
      ensures ttl > 0 ==> entries == old(entries)[key := Entry(value, old(now) + ttl)]
      ensures ttl <= 0 ==> entries == Without(old(entries), {key})
      ensures now == old(now)
    {
      if ttl > 0 {
        entries := entries[key := Entry(value, now + ttl)];
      } else {
        entries := Without(entries, {key});
      }
    }

    /** `delete($key)`. */
    method Delete(key: string)
      modifies this
      ensures entries == Without(old(entries), {key})
      ensures now == old(now)
    {
      entries := Without(entries, {key});
    }

    /** `deleteMultiple($keys)`. */
    method DeleteMultiple(keys: seq<string>)
      modifies this
      ensures entries == Without(old(entries), set k | k in keys)
      ensures now == old(now)
    {
      entries := Without(entries, set k | k in keys);
    }

    /** The clock moves forward by `seconds`. */
    method Advance(seconds: nat)
      modifies this
      ensures now == old(now) + seconds
      ensures entries == old(entries)
    {
      now := now + seconds;
    }
  }
}
