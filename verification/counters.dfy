/** Counters kept in a plain object (`counts[key] = (counts[key] || 0) + 1`): the
    entries in insertion order, which is the order `Object.entries` reports. */
module Counters {
  import opened Catalog

  type Counts = seq<(string, nat)>

  function Keys(c: Counts): (r: seq<string>)
    ensures |r| == |c| && forall i :: 0 <= i < |c| ==> r[i] == c[i].0
  {
    seq(|c|, i requires 0 <= i < |c| => c[i].0)
  }

  /** `counts[key] || 0`. */
  function Count(c: Counts, key: string): nat
    decreases |c|
  {
    if |c| == 0 then 0
    else if c[0].0 == key then c[0].1
    else Count(c[1..], key)
  }

  /** A key never counted reads 0. */
  lemma {:induction false} CountAbsent(c: Counts, key: string)
    requires key !in Keys(c)
    ensures Count(c, key) == 0
    decreases |c|
  {
    if |c| > 0 {
      assert c[0].0 == Keys(c)[0];
      assert key !in Keys(c[1..]) by {
        assert forall i :: 0 <= i < |c| - 1 ==> Keys(c[1..])[i] == Keys(c)[i + 1];
      }
      CountAbsent(c[1..], key);
    }
  }

  /** One more for `key`. */
  function Bump(c: Counts, key: string): (r: Counts)
    ensures Count(r, key) == Count(c, key) + 1
    ensures forall k :: k != key ==> Count(r, k) == Count(c, k)
    decreases |c|
  {
    if |c| == 0 then [(key, 1)]
    else if c[0].0 == key then [(key, c[0].1 + 1)] + c[1..]
    else
      var rest := Bump(c[1..], key);
      assert ([c[0]] + rest)[1..] == rest;
      [c[0]] + rest
  }

  lemma KeysCons(x: (string, nat), c: Counts)
    ensures Keys([x] + c) == [x.0] + Keys(c)
  {
    assert forall i :: 1 <= i < |c| + 1 ==> ([x] + c)[i] == c[i - 1];
  }

  /** Bumping the first key keeps the key list. */
  lemma BumpHead(c: Counts, key: string)
    requires |c| > 0 && c[0].0 == key
    ensures Keys(Bump(c, key)) == Keys(c) && key in Keys(c)
  {
    var x := (key, c[0].1 + 1);
    assert Bump(c, key) == [x] + c[1..];
    KeysCons(x, c[1..]);
    assert Keys(c) == [key] + Keys(c[1..]) by {
      assert c == [c[0]] + c[1..];
      KeysCons(c[0], c[1..]);
    }
  }

  /** Bumping a later key keeps the first key in front of the rest's keys. */
  lemma BumpPast(c: Counts, key: string)
    requires |c| > 0 && c[0].0 != key
    ensures Keys(Bump(c, key)) == [c[0].0] + Keys(Bump(c[1..], key))
    ensures Keys(c) == [c[0].0] + Keys(c[1..])
    ensures key in Keys(c) <==> key in Keys(c[1..])
  {
    assert c == [c[0]] + c[1..];
    KeysCons(c[0], c[1..]);
    KeysCons(c[0], Bump(c[1..], key));
  }

  /** A new key is appended and a known key keeps its place. */
  lemma {:induction false} BumpShape(c: Counts, key: string)
    ensures Keys(Bump(c, key)) == if key in Keys(c) then Keys(c) else Keys(c) + [key]
    decreases |c|
  {
    if |c| == 0 {
      assert Keys(Bump(c, key)) == [key];
    } else if c[0].0 == key {
      BumpHead(c, key);
    } else {
      BumpPast(c, key);
      BumpShape(c[1..], key);
      var t := Keys(c[1..]);
      assert [c[0].0] + (t + [key]) == ([c[0].0] + t) + [key];
    }
  }

  /** A new key is appended, a known key keeps its place, and no key is repeated. */
  lemma BumpKeys(c: Counts, key: string)
    ensures key in Keys(c) ==> Keys(Bump(c, key)) == Keys(c)
    ensures key !in Keys(c) ==> Keys(Bump(c, key)) == Keys(c) + [key]
    ensures Distinct(Keys(c)) ==> Distinct(Keys(Bump(c, key)))
  {
    BumpShape(c, key);
    var ks := Keys(c);
    if key !in ks && Distinct(ks) {
      var r := ks + [key];
      forall i, j | 0 <= i < j < |r| ensures r[i] != r[j] {
        assert r[i] == ks[i];
        if j < |ks| {
          assert r[j] == ks[j];
        } else {
          assert ks[i] in ks;
        }
      }
    }
  }

  /** The sum of all counts. */
  function Total(c: Counts): nat
    decreases |c|
  {
    if |c| == 0 then 0 else c[0].1 + Total(c[1..])
  }

  /** Bumping any key adds exactly one to the total. */
  lemma {:induction false} TotalBump(c: Counts, key: string)
    ensures Total(Bump(c, key)) == Total(c) + 1
    decreases |c|
  {
    if |c| > 0 && c[0].0 != key {
      TotalBump(c[1..], key);
      assert Bump(c, key)[1..] == Bump(c[1..], key);
    } else if |c| == 0 {
      assert Total([(key, 1)]) == 1 + Total([]);
    }
  }
}
