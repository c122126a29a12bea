/** The least-recently-used cache with per-entry time to live. The source keeps a
    doubly linked list beside a key-to-node map; here the list is the sequence of keys
    from most to least recently used (head first, tail last). */
module LruCache {
  import opened Wrappers
  import opened Expiry
  import opened Catalog

  const DefaultCapacity := 100

  /** Keys are strings, as at every use of the cache. */
  datatype Node<V> = Node(value: V, timestamp: int, ttl: int)

  datatype Lru<V> = Lru(
    capacity: int,
    defaultTtl: int,
    nodes: map<string, Node<V>>,
    order: seq<string>,
    hits: nat,
    misses: nat)

  /** The recency list and the map hold the same keys, each once. */
  ghost predicate Valid<V>(c: Lru<V>) {
    Distinct(c.order) && forall k :: k in c.order <==> k in c.nodes
  }

  /** The cache holds no more entries than its capacity. */
  predicate Bounded<V>(c: Lru<V>) {
    |c.nodes| <= c.capacity
  }

  /** A cache and the answer a read gave. */
  datatype Fetched<V> = Fetched(cache: Lru<V>, value: Option<V>)

  /** A cache and the boolean a call returned. */
  datatype Answer<V> = Answer(cache: Lru<V>, holds: bool)

  function New<V>(capacity: int, defaultTtl: int): (c: Lru<V>)
    ensures Valid(c) && |c.nodes| == 0 && c.hits == 0 && c.misses == 0
    ensures capacity >= 0 ==> Bounded(c)
  {
    Lru(capacity, defaultTtl, map[], [], 0, 0)
  }

  /** A distinct recency list is exactly as long as the map is large. */
  lemma {:induction false} SizeMatchesOrder<V>(c: Lru<V>)
    requires Valid(c)
    ensures |c.nodes| == |c.order|
  {
    DistinctCard(c.order);
    assert c.nodes.Keys == set x | x in c.order;
  }

  /** `removeNode` followed by `cache.delete`. */
  function Unlink<V>(c: Lru<V>, key: string): (r: Lru<V>)
    requires Valid(c)
    ensures Valid(r)
    ensures r.nodes == c.nodes - {key} && r.order == Without(c.order, key)
    ensures r.capacity == c.capacity && r.defaultTtl == c.defaultTtl && r.hits == c.hits && r.misses == c.misses
  {
    c.(nodes := c.nodes - {key}, order := Without(c.order, key))
  }

  /** `evictLRU`: unlinks the tail, if there is one. */
  function EvictLru<V>(c: Lru<V>): (r: Lru<V>)
    requires Valid(c)
    ensures Valid(r)
    ensures |c.order| > 0 ==> r.order == c.order[..|c.order| - 1]
    ensures |c.order| > 0 ==> r.nodes == c.nodes - {c.order[|c.order| - 1]}
    ensures |c.order| == 0 ==> r == c
  {
    if |c.order| == 0 then c
    else
      var tail := c.order[|c.order| - 1];
      assert c.order == c.order[..|c.order| - 1] + [tail];
      WithoutLast(c.order[..|c.order| - 1], tail);
      Unlink(c, tail)
  }

  lemma {:induction false} WithoutLast(s: seq<string>, k: string)
    requires k !in s
    ensures Without(s + [k], k) == s
    decreases |s|
  {
    if |s| == 0 {
      assert [k][1..] == [];
    } else {
      assert (s + [k])[1..] == s[1..] + [k];
      WithoutLast(s[1..], k);
      assert s == [s[0]] + s[1..];
    }
  }

  /** `set`: the key moves to the front with a front node, and only when the cache is
      then over capacity is the tail evicted; the counters are untouched. */
  function Set<V>(c: Lru<V>, key: string, value: V, ttl: Option<int>, now: int): (r: Lru<V>)
    requires Valid(c)
    ensures Valid(r)
    ensures r.capacity == c.capacity && r.defaultTtl == c.defaultTtl && r.hits == c.hits && r.misses == c.misses
    ensures var front := [key] + Without(c.order, key);
      && (r.order == front <==> |front| <= c.capacity)
      && (r.order != front ==> r.order == front[..|front| - 1])
    ensures forall k :: k in r.nodes ==> (k == key || k in c.nodes)
    ensures forall k :: k in r.nodes && k != key ==> r.nodes[k] == c.nodes[k]
    ensures key in r.nodes ==> r.nodes[key] == Node(value, now, EffectiveTtl(ttl, c.defaultTtl))
    ensures c.capacity >= 1 ==> key in r.nodes && r.order[0] == key
    ensures Bounded(c) ==> Bounded(r)
  {
    PlaceOrder(c, key, value, ttl, now);
    PlaceNodes(c, key, value, ttl, now);
    Place(c, key, value, ttl, now)
  }

  /** The key at the front with a fresh node, then the tail evicted when over capacity. */
  function Place<V>(c: Lru<V>, key: string, value: V, ttl: Option<int>, now: int): (r: Lru<V>)
    requires Valid(c)
    ensures Valid(r)
  {
    var base := Unlink(c, key);
    var added := base.(nodes := base.nodes[key := Node(value, now, EffectiveTtl(ttl, c.defaultTtl))],
                       order := [key] + base.order);
    assert Valid(added);
    if |added.nodes| > c.capacity then EvictLru(added) else added
  }

  lemma PlaceOrder<V>(c: Lru<V>, key: string, value: V, ttl: Option<int>, now: int)
    requires Valid(c)
    ensures var r, front := Place(c, key, value, ttl, now), [key] + Without(c.order, key);
      && r.capacity == c.capacity && r.defaultTtl == c.defaultTtl && r.hits == c.hits && r.misses == c.misses
      && (r.order == front <==> |front| <= c.capacity)
      && (r.order != front ==> r.order == front[..|front| - 1])
      && (c.capacity >= 1 ==> key in r.nodes && r.order[0] == key)
      && (Bounded(c) ==> Bounded(r))
  {
    var base := Unlink(c, key);
    var front := [key] + Without(c.order, key);
    var added := base.(nodes := base.nodes[key := Node(value, now, EffectiveTtl(ttl, c.defaultTtl))],
                       order := front);
    assert Valid(added);
    SizeMatchesOrder(added);
    SizeMatchesOrder(c);
    assert |front| <= |c.order| + 1;
    if |added.nodes| > c.capacity {
      PlaceEvicts(c, added, front);
    }
  }

  /** Over capacity, the front-moved list loses its tail. */
  lemma PlaceEvicts<V>(c: Lru<V>, added: Lru<V>, front: seq<string>)
    requires Valid(c) && Valid(added) && added.order == front && |front| > 0 && front[0] in added.nodes
    requires added.capacity == c.capacity && added.defaultTtl == c.defaultTtl
    requires added.hits == c.hits && added.misses == c.misses
    requires |added.nodes| == |front| > c.capacity && |front| <= |c.nodes| + 1
    ensures var r := EvictLru(added);
      && r.capacity == c.capacity && r.defaultTtl == c.defaultTtl && r.hits == c.hits && r.misses == c.misses
      && r.order == front[..|front| - 1] && r.order != front
      && (c.capacity >= 1 ==> front[0] in r.nodes && r.order[0] == front[0])
      && (Bounded(c) ==> Bounded(r))
  {
    var r := EvictLru(added);
    SizeMatchesOrder(r);
    assert |r.order| == |front| - 1;
    if c.capacity >= 1 {
      assert r.order[0] == front[0];
      assert front[0] in r.order;
    }
  }

  lemma PlaceNodes<V>(c: Lru<V>, key: string, value: V, ttl: Option<int>, now: int)
    requires Valid(c)
    ensures var r := Place(c, key, value, ttl, now);
      && (forall k :: k in r.nodes ==> (k == key || k in c.nodes))
      && (forall k :: k in r.nodes && k != key ==> r.nodes[k] == c.nodes[k])
      && (key in r.nodes ==> r.nodes[key] == Node(value, now, EffectiveTtl(ttl, c.defaultTtl)))
  {
  }

  /** Setting a stored key in a cache within capacity evicts nothing else: the key's
      node is replaced and it becomes the most recent. */
  lemma SetStoredKeyEvictsNothing<V>(c: Lru<V>, key: string, value: V, ttl: Option<int>, now: int)
    requires Valid(c) && Bounded(c) && key in c.nodes
    ensures Set(c, key, value, ttl, now).order == [key] + Without(c.order, key)
    ensures Set(c, key, value, ttl, now).nodes == c.nodes[key := Node(value, now, EffectiveTtl(ttl, c.defaultTtl))]
  {
    SetStoredOrder(c, key, value, ttl, now);
    var r := Set(c, key, value, ttl, now);
    ReplacedNode(c.nodes, c.order, r.nodes, r.order, key, Node(value, now, EffectiveTtl(ttl, c.defaultTtl)));
  }

  /** A map whose keys are those of a front-moved list, and which agrees with the old map
      off the moved key, is the old map with that key's node replaced. */
  lemma ReplacedNode<V>(old_: map<string, Node<V>>, oldOrder: seq<string>, new_: map<string, Node<V>>, newOrder: seq<string>,
                        key: string, node: Node<V>)
    requires forall k :: k in old_ <==> k in oldOrder
    requires forall k :: k in new_ <==> k in newOrder
    requires newOrder == [key] + Without(oldOrder, key) && key in old_
    requires forall k :: k in new_ && k != key ==> new_[k] == old_[k]
    requires key in new_ ==> new_[key] == node
    ensures new_ == old_[key := node]
  {
    var m := old_[key := node];
    assert forall k :: k in new_ <==> k in m by {
      forall k ensures k in new_ <==> k in m {
        assert k in newOrder <==> k == key || k in Without(oldOrder, key);
      }
    }
    SameMaps(new_, m);
  }

  /** The order part: the front list fits, so nothing is evicted. */
  lemma SetStoredOrder<V>(c: Lru<V>, key: string, value: V, ttl: Option<int>, now: int)
    requires Valid(c) && Bounded(c) && key in c.nodes
    ensures Set(c, key, value, ttl, now).order == [key] + Without(c.order, key)
  {
    SizeMatchesOrder(c);
    var front := [key] + Without(c.order, key);
    assert |front| == |c.order|;
  }

  lemma SameMaps<V>(a: map<string, V>, b: map<string, V>)
    requires forall k :: k in a <==> k in b
    requires forall k :: k in a ==> a[k] == b[k]
    ensures a == b
  {
  }

  /** `moveToFront`: nothing to do when the key is already the head. */
  function MoveToFront(order: seq<string>, key: string): (r: seq<string>)
    requires Distinct(order) && key in order
    ensures r == [key] + Without(order, key)
  {
    if order[0] == key then order else [key] + Without(order, key)
  }

  /** `get`: a missing key or an expired entry is a miss, and the expired entry is
      unlinked; a live entry is a hit and becomes the most recent. */
  function Get<V>(c: Lru<V>, key: string, now: int): (r: Fetched<V>)
    requires Valid(c)
    ensures Valid(r.cache)
    ensures r.cache.capacity == c.capacity && r.cache.defaultTtl == c.defaultTtl
    ensures r.cache.hits + r.cache.misses == c.hits + c.misses + 1
    ensures key !in c.nodes ==> r.value.None? && r.cache == c.(misses := c.misses + 1)
    ensures key in c.nodes && Expired(c.nodes[key].timestamp, c.nodes[key].ttl, now) ==>
      && r.value.None? && r.cache.misses == c.misses + 1
      && r.cache.nodes == c.nodes - {key} && r.cache.order == Without(c.order, key)
    ensures key in c.nodes && !Expired(c.nodes[key].timestamp, c.nodes[key].ttl, now) ==>
      && r.value == Some(c.nodes[key].value) && r.cache.hits == c.hits + 1
      && r.cache.nodes == c.nodes && r.cache.order == [key] + Without(c.order, key)
    ensures |r.cache.nodes| <= |c.nodes|
  {
    if key !in c.nodes then Fetched(c.(misses := c.misses + 1), None)
    else
      var node := c.nodes[key];
      if Expired(node.timestamp, node.ttl, now) then
        var u := Unlink(c, key);
        assert u.nodes.Keys <= c.nodes.Keys;
        Fetched(u.(misses := c.misses + 1), None)
      else
        var moved := c.(order := MoveToFront(c.order, key), hits := c.hits + 1);
        Fetched(moved, Some(node.value))
  }

  /** `has`: whether the entry is live. It never counts a hit or a miss and never
      changes the recency of what stays, but it unlinks an expired entry. */
  function Has<V>(c: Lru<V>, key: string, now: int): (r: Answer<V>)
    requires Valid(c)
    ensures Valid(r.cache)
    ensures r.holds <==> key in c.nodes && !Expired(c.nodes[key].timestamp, c.nodes[key].ttl, now)
    ensures r.cache.hits == c.hits && r.cache.misses == c.misses
    ensures r.cache.order == Without(c.order, key) || r.cache.order == c.order
    ensures r.holds || key !in c.nodes ==> r.cache == c
    ensures |r.cache.nodes| <= |c.nodes|
  {
    if key !in c.nodes then Answer(c, false)
    else
      var node := c.nodes[key];
      if Expired(node.timestamp, node.ttl, now) then
        var u := Unlink(c, key);
        assert u.nodes.Keys <= c.nodes.Keys;
        Answer(u, false)
      else Answer(c, true)
  }

  /** `has` and `get` agree on whether a key is live. */
  lemma HasAgreesWithGet<V>(c: Lru<V>, key: string, now: int)
    requires Valid(c)
    ensures Has(c, key, now).holds <==> Get(c, key, now).value.Some?
  {
  }

  /** `delete`: true exactly when the key was stored; it is unlinked and nothing else
      changes. */
  function Delete<V>(c: Lru<V>, key: string): (r: Answer<V>)
    requires Valid(c)
    ensures Valid(r.cache)
    ensures r.holds <==> key in c.nodes
    ensures key !in r.cache.nodes
    ensures forall k :: k != key ==> (k in r.cache.nodes <==> k in c.nodes)
    ensures r.cache.order == Without(c.order, key)
    ensures r.cache.hits == c.hits && r.cache.misses == c.misses && r.cache.capacity == c.capacity
    ensures |r.cache.nodes| <= |c.nodes|
  {
    var u := Unlink(c, key);
    assert u.nodes.Keys <= c.nodes.Keys;
    Answer(u, key in c.nodes)
  }

  /** `clear`: no entries and both counters back at zero. */
  function Clear<V>(c: Lru<V>): (r: Lru<V>)
    ensures Valid(r) && |r.nodes| == 0 && r.hits == 0 && r.misses == 0
    ensures r.capacity == c.capacity && r.defaultTtl == c.defaultTtl
  {
    Lru(c.capacity, c.defaultTtl, map[], [], 0, 0)
  }

  /** `getStats` without the hit rate. */
  datatype Stats = Stats(size: nat, capacity: int, hits: nat, misses: nat)

  /** The size reported is the length of the recency list, never above the capacity
      of a bounded cache, and the counters are the cache's own. */
  function GetStats<V>(c: Lru<V>): (r: Stats)
    ensures Valid(c) ==> r.size == |c.order|
    ensures Bounded(c) ==> r.size <= r.capacity
    ensures r.capacity == c.capacity && r.hits == c.hits && r.misses == c.misses
  {
    ValidSizeMatchesOrder(c);
    Stats(|c.nodes|, c.capacity, c.hits, c.misses)
  }

  lemma ValidSizeMatchesOrder<V>(c: Lru<V>)
    ensures Valid(c) ==> |c.nodes| == |c.order|
  {
    if Valid(c) {
      SizeMatchesOrder(c);
    }
  }

  /** `mget`: a `get` per key, in order. */
  function MGet<V>(c: Lru<V>, keys: seq<string>, now: int): (r: (Lru<V>, seq<Option<V>>))
    requires Valid(c)
    ensures Valid(r.0) && |r.1| == |keys|
    ensures r.0.hits + r.0.misses == c.hits + c.misses + |keys|
    ensures r.0.capacity == c.capacity && r.0.defaultTtl == c.defaultTtl
    ensures |r.0.nodes| <= |c.nodes|
    ensures forall i :: 0 <= i < |keys| ==> r.1[i] == Get(c, keys[i], now).value
    decreases |keys|
  {
    if |keys| == 0 then (c, [])
    else
      var first := Get(c, keys[0], now);
      var rest := MGet(first.cache, keys[1..], now);
      forall i | 0 < i < |keys|
        ensures rest.1[i - 1] == Get(c, keys[i], now).value
      {
        GetAfterGet(c, keys[0], keys[i], now);
      }
      (rest.0, [first.value] + rest.1)
  }

  /** A read only drops entries that have expired and moves the read one to the front,
      so a later read at the same time answers as it would have on the earlier cache:
      the values `mget` returns do not depend on the order of the keys. */
  lemma GetAfterGet<V>(c: Lru<V>, first: string, key: string, now: int)
    requires Valid(c)
    ensures Get(Get(c, first, now).cache, key, now).value == Get(c, key, now).value
  {
    var d := Get(c, first, now).cache;
    assert key in d.nodes ==> key in c.nodes && d.nodes[key] == c.nodes[key];
    assert key in c.nodes && !Expired(c.nodes[key].timestamp, c.nodes[key].ttl, now) ==> key in d.nodes;
  }

  /** The keys an `mset` call writes, in order. */
  function SetKeys<V>(entries: seq<(string, V, Option<int>)>): (r: seq<string>)
    ensures |r| == |entries| && forall i :: 0 <= i < |entries| ==> r[i] == entries[i].0
  {
    if |entries| == 0 then [] else [entries[0].0] + SetKeys(entries[1..])
  }

  /** `mset`: a `set` per entry, in order. The last entry ends up most recent with its
      value; a key no entry writes keeps its value until it is evicted; and when the
      capacity has room for every entry nothing is evicted. */
  function MSet<V>(c: Lru<V>, entries: seq<(string, V, Option<int>)>, now: int): (r: Lru<V>)
    requires Valid(c)
    ensures Valid(r)
    ensures r.hits == c.hits && r.misses == c.misses
    ensures r.capacity == c.capacity && r.defaultTtl == c.defaultTtl
    ensures Bounded(c) ==> Bounded(r)
    ensures forall k :: k in r.nodes ==> k in c.nodes || k in SetKeys(entries)
    ensures forall k :: k in r.nodes && k !in SetKeys(entries) ==> r.nodes[k] == c.nodes[k]
    ensures c.capacity >= 1 && |entries| > 0 ==>
      var e := entries[|entries| - 1];
      && e.0 in r.nodes && r.order[0] == e.0
      && r.nodes[e.0] == Node(e.1, now, EffectiveTtl(e.2, c.defaultTtl))
    ensures |r.order| <= |c.order| + |entries|
    ensures |c.order| + |entries| <= c.capacity ==> forall k :: k in c.nodes ==> k in r.nodes
    decreases |entries|, 1
  {
    if |entries| == 0 then c
    else
      MSetStepKeys(c, entries, now);
      MSetStepLast(c, entries, now);
      MSetStepRoom(c, entries, now);
      MSet(Set(c, entries[0].0, entries[0].1, entries[0].2, now), entries[1..], now)
  }

  /** After the first `set` of `mset`: keys come from the cache or the entries, and a key
      no entry writes keeps its value. */
  lemma MSetStepKeys<V>(c: Lru<V>, entries: seq<(string, V, Option<int>)>, now: int)
    requires Valid(c) && |entries| > 0
    ensures var r := MSet(Set(c, entries[0].0, entries[0].1, entries[0].2, now), entries[1..], now);
      && (forall k :: k in r.nodes ==> k in c.nodes || k in SetKeys(entries))
      && (forall k :: k in r.nodes && k !in SetKeys(entries) ==> r.nodes[k] == c.nodes[k])
    decreases |entries|, 0
  {
    assert SetKeys(entries) == [entries[0].0] + SetKeys(entries[1..]);
  }

  /** After the first `set` of `mset`: the last entry is the most recent one. */
  lemma MSetStepLast<V>(c: Lru<V>, entries: seq<(string, V, Option<int>)>, now: int)
    requires Valid(c) && |entries| > 0
    ensures var r := MSet(Set(c, entries[0].0, entries[0].1, entries[0].2, now), entries[1..], now);
      c.capacity >= 1 ==>
        var last := entries[|entries| - 1];
        && last.0 in r.nodes && r.order[0] == last.0
        && r.nodes[last.0] == Node(last.1, now, EffectiveTtl(last.2, c.defaultTtl))
    decreases |entries|, 0
  {
    var rest := entries[1..];
    if |rest| > 0 {
      assert entries[|entries| - 1] == rest[|rest| - 1];
    }
  }

  /** After the first `set` of `mset`: the recency list grows by at most one per entry,
      and with room for every entry no key is evicted. */
  lemma MSetStepRoom<V>(c: Lru<V>, entries: seq<(string, V, Option<int>)>, now: int)
    requires Valid(c) && |entries| > 0
    ensures var r := MSet(Set(c, entries[0].0, entries[0].1, entries[0].2, now), entries[1..], now);
      && |r.order| <= |c.order| + |entries|
      && (|c.order| + |entries| <= c.capacity ==> forall k :: k in c.nodes ==> k in r.nodes)
    decreases |entries|, 0
  {
    var e := entries[0];
    var c1 := Set(c, e.0, e.1, e.2, now);
    var r := MSet(c1, entries[1..], now);
    var front := [e.0] + Without(c.order, e.0);
    assert |c1.order| <= |c.order| + 1 by {
      assert |Without(c.order, e.0)| <= |c.order|;
    }
    if |c.order| + |entries| <= c.capacity {
      assert c1.order == front;
      forall k | k in c.nodes ensures k in r.nodes {
        assert k in c.order;
        assert k in front;
        assert k in c1.nodes;
      }
    }
  }

  /** One call on the cache, with the clock reading it would see. */
  datatype Op<V> =
    | SetOp(key: string, value: V, ttl: Option<int>)
    | GetOp(key: string)
    | HasOp(key: string)
    | DeleteOp(key: string)
    | ClearOp
    | MGetOp(keys: seq<string>)
    | MSetOp(entries: seq<(string, V, Option<int>)>)

  function Apply<V>(c: Lru<V>, op: Op<V>, now: int): (r: Lru<V>)
    requires Valid(c)
    ensures Valid(r) && r.capacity == c.capacity
    ensures Bounded(c) ==> Bounded(r)
    ensures op.ClearOp? ==> r.hits + r.misses == 0
    ensures !op.ClearOp? ==> r.hits + r.misses == c.hits + c.misses + Lookups(op)
  {
    match op
    case SetOp(k, v, t) => Set(c, k, v, t, now)
    case GetOp(k) => Get(c, k, now).cache
    case HasOp(k) => Has(c, k, now).cache
    case DeleteOp(k) => Delete(c, k).cache
    case ClearOp => Clear(c)
    case MGetOp(ks) => MGet(c, ks, now).0
    case MSetOp(es) => MSet(c, es, now)
  }

  /** The calls in order, each at its own time. */
  function Run<V>(c: Lru<V>, ops: seq<(Op<V>, int)>): (r: Lru<V>)
    requires Valid(c)
    ensures Valid(r) && r.capacity == c.capacity
    decreases |ops|
  {
    if |ops| == 0 then c
    else
      var last := ops[|ops| - 1];
      Apply(Run(c, ops[..|ops| - 1]), last.0, last.1)
  }

  /** How many `get` calls an operation makes. */
  function Lookups<V>(op: Op<V>): nat {
    match op
    case GetOp(_) => 1
    case MGetOp(ks) => |ks|
    case _ => 0
  }

  predicate Cleared<V>(ops: seq<(Op<V>, int)>)
    decreases |ops|
  {
    |ops| > 0 && (ops[|ops| - 1].0.ClearOp? || Cleared(ops[..|ops| - 1]))
  }

  /** The `get` calls after the last `clear`. */
  function LookupsSinceClear<V>(ops: seq<(Op<V>, int)>): nat
    decreases |ops|
  {
    if |ops| == 0 then 0
    else if ops[|ops| - 1].0.ClearOp? then 0
    else LookupsSinceClear(ops[..|ops| - 1]) + Lookups(ops[|ops| - 1].0)
  }

  /** hits + misses counts the `get` calls since the last `clear` (an `mget` counts one
      per key), on top of the starting counters when there was no `clear`. */
  lemma {:induction false} CountersCountLookups<V>(c: Lru<V>, ops: seq<(Op<V>, int)>)
    requires Valid(c)
    ensures Run(c, ops).hits + Run(c, ops).misses ==
      (if Cleared(ops) then 0 else c.hits + c.misses) + LookupsSinceClear(ops)
    decreases |ops|
  {
    if |ops| > 0 {
      CountersCountLookups(c, ops[..|ops| - 1]);
    }
  }

  /** Every run of calls keeps the cache within its capacity. */
  lemma {:induction false} RunStaysBounded<V>(c: Lru<V>, ops: seq<(Op<V>, int)>)
    requires Valid(c) && Bounded(c)
    ensures Bounded(Run(c, ops))
    decreases |ops|
  {
    if |ops| > 0 {
      RunStaysBounded(c, ops[..|ops| - 1]);
    }
  }
}
