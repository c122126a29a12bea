/** The plain time-to-live cache: a map from key to (data, timestamp, ttl), where an
    expired entry is dropped when it is next read or at a cleanup. */
module TtlCache {
  import opened Wrappers
  import opened Expiry

  datatype Entry<T> = Entry(data: T, timestamp: int, ttl: int)

  datatype Cache<T> = Cache(entries: map<string, Entry<T>>, defaultTtl: int)

  /** A cache and the answer a read gave. */
  datatype Lookup<T> = Lookup(cache: Cache<T>, value: Option<T>)

  /** A cache and the boolean a call returned. */
  datatype Answer<T> = Answer(cache: Cache<T>, holds: bool)

  function New<T>(defaultTtl: int): (c: Cache<T>)
    ensures c.entries == map[] && c.defaultTtl == defaultTtl
  {
    Cache(map[], defaultTtl)
  }

  predicate Live<T>(c: Cache<T>, key: string, now: int) {
    key in c.entries && !Expired(c.entries[key].timestamp, c.entries[key].ttl, now)
  }

  /** `set`: the entry is stamped with `now` and its effective time to live, replacing
      any earlier one; no other key is touched. */
  function Set<T>(c: Cache<T>, key: string, data: T, ttl: Option<int>, now: int): (r: Cache<T>)
    ensures r.defaultTtl == c.defaultTtl
    ensures key in r.entries && r.entries[key].data == data && r.entries[key].timestamp == now
    ensures ttl.Some? && ttl.value != 0 ==> r.entries[key].ttl == ttl.value
    ensures ttl.None? || ttl.value == 0 ==> r.entries[key].ttl == c.defaultTtl
    ensures forall k :: k != key ==> (k in r.entries <==> k in c.entries)
    ensures forall k :: k != key && k in c.entries ==> r.entries[k] == c.entries[k]
  {
    c.(entries := c.entries[key := Entry(data, now, EffectiveTtl(ttl, c.defaultTtl))])
  }

  /** `get`: the data while the entry is live; an expired entry is deleted and reads as
      missing. */
  function Get<T>(c: Cache<T>, key: string, now: int): (r: Lookup<T>)
    ensures r.value.Some? <==> Live(c, key, now)
    ensures r.value.Some? ==> r.value.value == c.entries[key].data
    ensures Live(c, key, now) || key !in c.entries ==> r.cache == c
    ensures key in c.entries && !Live(c, key, now) ==> r.cache == c.(entries := c.entries - {key})
  {
    if key !in c.entries then Lookup(c, None)
    else
      var e := c.entries[key];
      if Expired(e.timestamp, e.ttl, now) then Lookup(c.(entries := c.entries - {key}), None)
      else Lookup(c, Some(e.data))
  }

  /** `has`: whether the entry is live; like `get`, it deletes an expired entry. */
  function Has<T>(c: Cache<T>, key: string, now: int): (r: Answer<T>)
    ensures r.holds <==> Live(c, key, now)
    ensures r.cache.entries.Keys == if key in c.entries && !r.holds then c.entries.Keys - {key} else c.entries.Keys
  {
    if key !in c.entries then Answer(c, false)
    else
      var e := c.entries[key];
      if Expired(e.timestamp, e.ttl, now) then Answer(c.(entries := c.entries - {key}), false)
      else Answer(c, true)
  }

  /** `has` and `get` agree on liveness and leave the same cache behind. */
  lemma HasAgreesWithGet<T>(c: Cache<T>, key: string, now: int)
    ensures Has(c, key, now).holds == Get(c, key, now).value.Some?
    ensures Has(c, key, now).cache == Get(c, key, now).cache
  {
  }

  /** A value just set reads back until its deadline, and not after it. */
  lemma GetAfterSet<T>(c: Cache<T>, key: string, data: T, ttl: int, now: int, later: int)
    requires ttl > 0 && now <= later
    ensures Get(Set(c, key, data, Some(ttl), now), key, later).value == (if later - now <= ttl then Some(data) else None)
  {
  }

  /** `delete`: reports whether the key was stored, expired or not, and removes it. */
  function Delete<T>(c: Cache<T>, key: string): (r: Answer<T>)
    ensures r.holds <==> key in c.entries
    ensures key !in r.cache.entries
    ensures forall k :: k != key ==> (k in r.cache.entries <==> k in c.entries)
    ensures forall k :: k in r.cache.entries ==> r.cache.entries[k] == c.entries[k]
  {
    Answer(c.(entries := c.entries - {key}), key in c.entries)
  }

  function Clear<T>(c: Cache<T>): (r: Cache<T>)
    ensures r.entries == map[] && r.defaultTtl == c.defaultTtl
  {
    c.(entries := map[])
  }

  /** `size`: every stored entry, expired ones included: at any time, the live entries
      and the expired ones together. */
  function Size<T>(c: Cache<T>): (r: nat)
    ensures forall now :: r == |ExpiredKeys(c, now)| + |LiveKeys(c, now)|
  {
    SizeSplits(c);
    |c.entries|
  }

  function LiveKeys<T>(c: Cache<T>, now: int): set<string> {
    set k | k in c.entries && !Expired(c.entries[k].timestamp, c.entries[k].ttl, now)
  }

  lemma SizeSplits<T>(c: Cache<T>)
    ensures forall now :: |c.entries| == |ExpiredKeys(c, now)| + |LiveKeys(c, now)|
  {
    forall now ensures |c.entries| == |ExpiredKeys(c, now)| + |LiveKeys(c, now)| {
      var gone, live := ExpiredKeys(c, now), LiveKeys(c, now);
      assert c.entries.Keys == gone + live;
      assert gone * live == {};
    }
  }

  /** Setting a fresh key grows the size by one, however short its life; setting a
      stored key keeps the size. */
  lemma SizeCountsExpired<T>(c: Cache<T>, key: string, data: T, ttl: Option<int>, now: int, later: int)
    ensures Size(Set(c, key, data, ttl, now)) == Size(c) + (if key in c.entries then 0 else 1)
    ensures Live(Set(c, key, data, ttl, now), key, later) || Size(Set(c, key, data, ttl, now)) > 0
  {
    var r := Set(c, key, data, ttl, now);
    if key in c.entries {
      assert r.entries.Keys == c.entries.Keys;
    } else {
      assert r.entries.Keys == c.entries.Keys + {key};
    }
  }

  function ExpiredKeys<T>(c: Cache<T>, now: int): set<string> {
    set k | k in c.entries && Expired(c.entries[k].timestamp, c.entries[k].ttl, now)
  }

  /** `cleanup`: removes exactly the expired entries and returns how many it removed;
      afterwards every entry is live at `now`. */
  method Cleanup<T>(c: Cache<T>, now: int) returns (r: Cache<T>, cleaned: nat)
    ensures r.defaultTtl == c.defaultTtl
    ensures forall k :: k in r.entries <==> k in c.entries && k !in ExpiredKeys(c, now)
    ensures forall k :: k in r.entries ==> r.entries[k] == c.entries[k] && Live(r, k, now)
    ensures cleaned == |ExpiredKeys(c, now)|
    ensures cleaned + |r.entries| == |c.entries|
  {
    var todo := c.entries.Keys;
    var kept := c.entries;
    cleaned := 0;
    ghost var gone: set<string> := {};
    while todo != {}
      invariant todo <= c.entries.Keys && gone <= ExpiredKeys(c, now)
      invariant forall k :: k in ExpiredKeys(c, now) ==> k in todo || k in gone
      invariant forall k :: k in gone ==> k !in todo
      invariant forall k :: k in kept <==> k in c.entries && k !in gone
      invariant forall k :: k in kept ==> kept[k] == c.entries[k]
      invariant cleaned == |gone|
      invariant |kept.Keys| + cleaned == |c.entries.Keys|
      decreases todo
    {
      var k :| k in todo;
      var e := c.entries[k];
      if Expired(e.timestamp, e.ttl, now) {
        assert kept.Keys - {k} == (kept - {k}).Keys;
        kept := kept - {k};
        gone := gone + {k};
        cleaned := cleaned + 1;
      }
      todo := todo - {k};
    }
    assert gone == ExpiredKeys(c, now);
    r := c.(entries := kept);
    assert |kept| == |kept.Keys|;
    assert |c.entries| == |c.entries.Keys|;
  }
}
