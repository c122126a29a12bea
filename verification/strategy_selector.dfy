/** The usage metrics the workflows record: a count per strategy key, an error count,
    and the most used strategies. The selection-time average is left out (it halves a
    floating-point number). */
module StrategySelector {
  import opened Catalog
  import opened Counters

  datatype Metrics = Metrics(usage: Counts, errorCount: nat)

  const Initial := Metrics([], 0)

  /** Every key appears once, with the positive count its recordings gave it. */
  ghost predicate Valid(m: Metrics) {
    Distinct(Keys(m.usage)) && forall i :: 0 <= i < |m.usage| ==> m.usage[i].1 > 0
  }

  /** `recordStrategyUsage`: one more use of the key, starting from 0. */
  function RecordUsage(m: Metrics, key: string): (r: Metrics)
    ensures Count(r.usage, key) == Count(m.usage, key) + 1
    ensures forall k :: k != key ==> Count(r.usage, k) == Count(m.usage, k)
    ensures r.errorCount == m.errorCount
    ensures Total(r.usage) == Total(m.usage) + 1
  {
    TotalBump(m.usage, key);
    m.(usage := Bump(m.usage, key))
  }

  lemma {:induction false} BumpPositive(c: Counts, key: string)
    requires forall i :: 0 <= i < |c| ==> c[i].1 > 0
    ensures forall i :: 0 <= i < |Bump(c, key)| ==> Bump(c, key)[i].1 > 0
    decreases |c|
  {
    if |c| > 0 && c[0].0 != key {
      BumpPositive(c[1..], key);
      assert Bump(c, key) == [c[0]] + Bump(c[1..], key);
    }
  }

  lemma RecordUsageKeepsValid(m: Metrics, key: string)
    requires Valid(m)
    ensures Valid(RecordUsage(m, key))
  {
    BumpKeys(m.usage, key);
    BumpPositive(m.usage, key);
  }

  /** `recordError`. */
  function RecordError(m: Metrics): (r: Metrics)
    ensures r.errorCount == m.errorCount + 1 && r.usage == m.usage
  {
    m.(errorCount := m.errorCount + 1)
  }

  /** `resetMetrics`: no usage and no errors. */
  function Reset(m: Metrics): (r: Metrics)
    ensures r.usage == [] && r.errorCount == 0 && Valid(r)
  {
    Initial
  }

  predicate Descending(s: seq<(string, nat)>) {
    forall i, j :: 0 <= i < j < |s| ==> s[i].1 >= s[j].1
  }

  /** Places `x` after every entry counted at least as often, which keeps entries with
      equal counts in their original order. */
  function Insert(x: (string, nat), s: seq<(string, nat)>): (r: seq<(string, nat)>)
    ensures multiset(r) == multiset(s) + multiset{x}
    ensures |r| == |s| + 1
    ensures r[0] == x || (|s| > 0 && r[0] == s[0])
    ensures Descending(s) ==> Descending(r)
    decreases |s|
  {
    if |s| == 0 then [x]
    else if s[0].1 >= x.1 then
      var rest := Insert(x, s[1..]);
      assert s == [s[0]] + s[1..];
      DescendingTail(s);
      if Descending(s) then
        ConsDescending(s[0], rest);
        [s[0]] + rest
      else [s[0]] + rest
    else
      if Descending(s) then
        ConsDescending(x, s);
        [x] + s
      else [x] + s
  }

  lemma DescendingTail(s: seq<(string, nat)>)
    requires |s| > 0
    ensures Descending(s) ==> Descending(s[1..]) && (|s| == 1 || s[0].1 >= s[1].1)
  {
  }

  /** An element counted at least as often as the head may go in front. */
  lemma ConsDescending(x: (string, nat), s: seq<(string, nat)>)
    requires Descending(s) && (|s| == 0 || x.1 >= s[0].1)
    ensures Descending([x] + s)
  {
    var r := [x] + s;
    forall i, j | 0 <= i < j < |r| ensures r[i].1 >= r[j].1 {
      if i > 0 {
        assert r[i] == s[i - 1] && r[j] == s[j - 1];
      } else {
        assert r[j] == s[j - 1];
      }
    }
  }

  /** `sort(([, a], [, b]) => b - a)`: a stable sort by count, highest first. */
  function SortByUsage(s: seq<(string, nat)>): (r: seq<(string, nat)>)
    ensures multiset(r) == multiset(s) && |r| == |s|
    ensures Descending(r)
    decreases |s|
  {
    if |s| == 0 then []
    else
      assert s == s[..|s| - 1] + [s[|s| - 1]];
      Insert(s[|s| - 1], SortByUsage(s[..|s| - 1]))
  }

  /** `slice(0, limit)`: where the slice ends; a negative limit counts back from the end. */
  function SliceEnd(length: nat, limit: int): (e: nat)
    ensures e <= length
    ensures limit >= 0 ==> e == if limit < length then limit else length
    ensures limit < 0 ==> e == if length + limit > 0 then length + limit else 0
  {
    if limit >= 0 then (if limit < length then limit else length)
    else if length + limit > 0 then length + limit else 0
  }

  datatype Ranked = Ranked(strategy: string, usage: nat)

  /** The `(key, count)` pairs a ranking lists. */
  function Pairs(r: seq<Ranked>): (p: seq<(string, nat)>)
    ensures |p| == |r| && forall i :: 0 <= i < |r| ==> p[i] == (r[i].strategy, r[i].usage)
  {
    seq(|r|, i requires 0 <= i < |r| => (r[i].strategy, r[i].usage))
  }

  /** `map(([strategy, usage]) => ({ strategy, usage }))`. */
  function Rank(ps: seq<(string, nat)>): (r: seq<Ranked>)
    ensures Pairs(r) == ps
  {
    var r := seq(|ps|, i requires 0 <= i < |ps| => Ranked(ps[i].0, ps[i].1));
    assert Pairs(r) == ps;
    r
  }

  /** `getTopStrategies(limit)` (the caller's `limit` defaults to 5): the most used
      keys with their counts, highest first, as many as the limit allows. Every entry
      left out is counted no more often than the last one listed. */
  function TopStrategies(m: Metrics, limit: int): (r: seq<Ranked>)
    ensures limit >= 0 ==> |r| == if limit < |m.usage| then limit else |m.usage|
    ensures forall i, j :: 0 <= i < j < |r| ==> r[i].usage >= r[j].usage
    ensures forall i :: 0 <= i < |r| ==> (r[i].strategy, r[i].usage) in m.usage
    ensures multiset(Pairs(r)) <= multiset(m.usage)
    ensures |r| > 0 ==> forall p :: p in m.usage && p !in Pairs(r) ==> p.1 <= r[|r| - 1].usage
  {
    Cut(m.usage, SortByUsage(m.usage), limit)
  }

  /** `slice(0, limit)` of the sorted counts, ranked. */
  function Cut(s: seq<(string, nat)>, sorted: seq<(string, nat)>, limit: int): (r: seq<Ranked>)
    requires multiset(sorted) == multiset(s) && Descending(sorted)
    ensures |r| == SliceEnd(|s|, limit)
    ensures forall i, j :: 0 <= i < j < |r| ==> r[i].usage >= r[j].usage
    ensures forall i :: 0 <= i < |r| ==> (r[i].strategy, r[i].usage) in s
    ensures multiset(Pairs(r)) <= multiset(s)
    ensures |r| > 0 ==> forall p :: p in s && p !in Pairs(r) ==> p.1 <= r[|r| - 1].usage
  {
    assert |sorted| == |s| by { assert |multiset(sorted)| == |multiset(s)|; }
    var n := SliceEnd(|sorted|, limit);
    SortedPrefix(s, sorted, n);
    RankFacts(s, sorted[..n]);
    Rank(sorted[..n])
  }

  /** What a descending selection from `s` gives once ranked. */
  lemma RankFacts(s: seq<(string, nat)>, top: seq<(string, nat)>)
    requires Descending(top) && forall i :: 0 <= i < |top| ==> top[i] in s
    ensures var r := Rank(top);
      |r| == |top| &&
      (forall i, j :: 0 <= i < j < |r| ==> r[i].usage >= r[j].usage) &&
      (forall i :: 0 <= i < |r| ==> (r[i].strategy, r[i].usage) in s) &&
      (|r| > 0 ==> r[|r| - 1].usage == top[|top| - 1].1)
  {
    var r := Rank(top);
    assert Pairs(r) == top;
    forall i | 0 <= i < |r| ensures (r[i].strategy, r[i].usage) in s {
      assert Pairs(r)[i] == top[i];
    }
    forall i, j | 0 <= i < j < |r| ensures r[i].usage >= r[j].usage {
      assert Pairs(r)[i] == top[i] && Pairs(r)[j] == top[j];
    }
    if |r| > 0 {
      assert Pairs(r)[|r| - 1] == top[|top| - 1];
    }
  }

  /** A prefix of a descending permutation of `s` is descending and draws on `s`, and
      the entries of `s` it leaves out count no more than its last element. */
  lemma SortedPrefix(s: seq<(string, nat)>, sorted: seq<(string, nat)>, n: nat)
    requires multiset(sorted) == multiset(s) && Descending(sorted) && n <= |sorted|
    ensures Descending(sorted[..n])
    ensures forall i :: 0 <= i < n ==> sorted[..n][i] in s
    ensures multiset(sorted[..n]) <= multiset(s)
    ensures n > 0 ==> forall p :: p in s && p !in sorted[..n] ==> p.1 <= sorted[n - 1].1
  {
    PrefixIn(s, sorted, n);
    assert sorted == sorted[..n] + sorted[n..];
    if n > 0 {
      forall p | p in s && p !in sorted[..n]
        ensures p.1 <= sorted[n - 1].1
      {
        assert p in multiset(sorted);
        var j :| 0 <= j < |sorted| && sorted[j] == p;
        if j < n {
          assert sorted[..n][j] == p;
        }
      }
    }
  }

  lemma PrefixIn(s: seq<(string, nat)>, sorted: seq<(string, nat)>, n: nat)
    requires multiset(sorted) == multiset(s) && n <= |sorted|
    ensures forall i :: 0 <= i < n ==> sorted[..n][i] in s
  {
    forall i | 0 <= i < n ensures sorted[..n][i] in s {
      assert sorted[i] in multiset(sorted);
    }
  }

  /** Under `Valid`, no key is listed twice. */
  lemma TopStrategiesDistinct(m: Metrics, limit: int)
    requires Valid(m)
    ensures var r := TopStrategies(m, limit);
      forall i, j :: 0 <= i < j < |r| ==> r[i].strategy != r[j].strategy
  {
    var r := TopStrategies(m, limit);
    DrawnOnce(Pairs(r), m.usage);
  }

  /** Pairs drawn from counts with distinct keys have distinct keys. */
  lemma DrawnOnce(ps: seq<(string, nat)>, c: Counts)
    requires Distinct(Keys(c)) && multiset(ps) <= multiset(c)
    ensures forall i, j :: 0 <= i < j < |ps| ==> ps[i].0 != ps[j].0
  {
    forall i, j | 0 <= i < j < |ps|
      ensures ps[i].0 != ps[j].0
    {
      assert ps[i] in multiset(c) && ps[j] in multiset(c);
      SameKeySamePair(c, ps[i], ps[j]);
      RepeatCounted(ps, i, j);
      OnceEach(c, ps[i]);
    }
  }

  lemma SameKeySamePair(c: Counts, p: (string, nat), q: (string, nat))
    requires Distinct(Keys(c)) && p in c && q in c
    ensures p.0 == q.0 ==> p == q
  {
    var a :| 0 <= a < |c| && c[a] == p;
    var b :| 0 <= b < |c| && c[b] == q;
    assert Keys(c)[a] == p.0 && Keys(c)[b] == q.0;
  }

  /** An element at two positions occurs at least twice. */
  lemma RepeatCounted<T>(s: seq<T>, i: nat, j: nat)
    requires i < j < |s|
    ensures s[i] == s[j] ==> multiset(s)[s[i]] >= 2
  {
    assert s == s[..j] + [s[j]] + s[j + 1..];
    assert s[..j][i] == s[i];
    assert multiset(s[..j])[s[i]] >= 1;
  }

  /** With distinct keys, every pair occurs at most once. */
  lemma {:induction false} OnceEach(c: Counts, p: (string, nat))
    requires Distinct(Keys(c))
    ensures multiset(c)[p] <= 1
    decreases |c|
  {
    if |c| > 0 {
      assert c == [c[0]] + c[1..];
      assert Distinct(Keys(c[1..])) by {
        assert forall i :: 0 <= i < |c| - 1 ==> Keys(c[1..])[i] == Keys(c)[i + 1];
      }
      OnceEach(c[1..], p);
      assert c[0] == p ==> p !in c[1..] by {
        forall i | 0 <= i < |c[1..]| ensures c[0] == p ==> c[1..][i] != p {
          assert Keys(c)[0] != Keys(c)[i + 1];
        }
      }
    }
  }

  /** With a limit covering every key, the ranking lists each key once with its count. */
  lemma TopStrategiesComplete(m: Metrics, limit: int, key: string)
    requires Valid(m) && limit >= |m.usage| && key in Keys(m.usage)
    ensures exists i :: (0 <= i < |TopStrategies(m, limit)| &&
                         TopStrategies(m, limit)[i] == Ranked(key, Count(m.usage, key)))
  {
    var j :| 0 <= j < |m.usage| && m.usage[j].0 == key;
    CountAt(m.usage, j);
    assert TopStrategies(m, limit) == Cut(m.usage, SortByUsage(m.usage), limit);
    CutComplete(m.usage, SortByUsage(m.usage), limit, m.usage[j]);
  }

  /** A limit covering every entry lists every entry. */
  lemma CutComplete(s: seq<(string, nat)>, sorted: seq<(string, nat)>, limit: int, p: (string, nat))
    requires multiset(sorted) == multiset(s) && Descending(sorted)
    requires limit >= |s| && p in s
    ensures exists i :: 0 <= i < |Cut(s, sorted, limit)| && Cut(s, sorted, limit)[i] == Ranked(p.0, p.1)
  {
    var r := Cut(s, sorted, limit);
    assert |sorted| == |s| by { assert |multiset(sorted)| == |multiset(s)|; }
    assert sorted[..|sorted|] == sorted;
    assert p in multiset(s);
    var i :| 0 <= i < |Pairs(r)| && Pairs(r)[i] == p;
    assert r[i] == Ranked(p.0, p.1);
  }

  /** With distinct keys, the count of a key is the one at its entry. */
  lemma {:induction false} CountAt(c: Counts, j: nat)
    requires Distinct(Keys(c)) && j < |c|
    ensures Count(c, c[j].0) == c[j].1
    decreases |c|
  {
    if j > 0 {
      assert Keys(c)[0] != Keys(c)[j];
      assert Distinct(Keys(c[1..])) by {
        assert forall i :: 0 <= i < |c| - 1 ==> Keys(c[1..])[i] == Keys(c)[i + 1];
      }
      CountAt(c[1..], j - 1);
    }
  }
}
