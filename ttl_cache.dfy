/** The orders service's in-memory cache with a time-to-live
    (orders/orders.py:70-83): one process-wide dictionary from a string key to
    the pair (expiry time, value). `time.time()` is passed in as `now`. The key
    type is a parameter: the service spells its keys as strings, see
    OrdersFetch.KeyText. */
module TtlCache {
  import opened Text

  /** The pair `(expiry, value)` that `cache_set` stores. */
  datatype Entry<V> = Entry(expiry: int, value: V)

  /** The `ttl` that `cache_set` uses when none is given. */
  const DefaultTtl: int := 30

  /** The dictionary after `cache_set(key, value, ttl)` at time `now`. */
  function Stored<K, V>(m: map<K, Entry<V>>, key: K, value: V, ttl: int, now: int): map<K, Entry<V>> {
    m[key := Entry(now + ttl, value)]
  }

  /** What `cache_get(key)` at time `now` returns (None for Python's None) and
      the dictionary it leaves behind: an expired entry is deleted. */
  function Fetch<K, V>(m: map<K, Entry<V>>, key: K, now: int): (Option<V>, map<K, Entry<V>>) {
    if key !in m then (None, m)
    else if now > m[key].expiry then (None, m - {key})
    else (Some(m[key].value), m)
  }

  /** The cache itself: `_cache` and the two functions that use it. */
  class Cache<K(==), V> {
    var entries: map<K, Entry<V>>

    constructor ()
      ensures entries == map[]
    {
      entries := map[];
    }

    /** `cache_set(key, value, ttl)`. */
    method Set(key: K, value: V, ttl: int, now: int)
      modifies this
      ensures entries == Stored(old(entries), key, value, ttl, now)
    {
      entries := entries[key := Entry(now + ttl, value)];
    }

    /** `cache_get(key)`. */
    method Get(key: K, now: int) returns (r: Option<V>)
      modifies this
      ensures r == Fetch(old(entries), key, now).0
      ensures entries == Fetch(old(entries), key, now).1
    {
      if key !in entries {
        return None;
      }
      var e := entries[key];
      if now > e.expiry {
        entries := entries - {key};
        return None;
      }
      r := Some(e.value);
    }
  }

  // ---- Properties of the two operations ----

  /** A value set at time `t` is returned by every read up to `t + ttl`, and the
      read leaves the dictionary as the write left it. */
  lemma GetAfterSet<K, V>(m: map<K, Entry<V>>, key: K, value: V, ttl: int, t: int, now: int)
    requires now <= t + ttl
    ensures Fetch(Stored(m, key, value, ttl, t), key, now) == (Some(value), Stored(m, key, value, ttl, t))
  {
  }

  /** After the time to live, the read misses and removes the key. */
  lemma GetAfterExpiry<K, V>(m: map<K, Entry<V>>, key: K, value: V, ttl: int, t: int, now: int)
    requires now > t + ttl
    ensures Fetch(Stored(m, key, value, ttl, t), key, now) == (None, m - {key})
  {
    assert Stored(m, key, value, ttl, t) - {key} == m - {key};
  }

  /** A write touches only its own key: reads of every other key see the old dictionary. */
  lemma SetOnlyTouchesKey<K, V>(m: map<K, Entry<V>>, key: K, other: K, value: V, ttl: int, t: int, now: int)
    requires other != key
    ensures Fetch(Stored(m, key, value, ttl, t), other, now).0 == Fetch(m, other, now).0
  {
  }

  /** A read never adds or changes an entry; it removes at most its own key. */
  lemma GetOnlyRemoves<K, V>(m: map<K, Entry<V>>, key: K, now: int)
    ensures var m' := Fetch(m, key, now).1;
      m'.Keys <= m.Keys && m.Keys - m'.Keys <= {key} &&
      forall k :: k in m' ==> m'[k] == m[k]
  {
  }
}
