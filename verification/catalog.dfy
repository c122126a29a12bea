/** The strategy catalog: an insertion-ordered map from key to strategy record
    (a Python dict in the Python server, a JavaScript Map in the TypeScript one),
    its lookups and projections, and loading as a fold over the strategy files. */
module Catalog {
  import opened Wrappers
  import opened Json

  /** One strategy, with the fields both record shapes declare. */
  datatype Strategy = Strategy(
    key: string,
    name: string,
    description: string,
    examples: seq<string>,
    template: string)

  /** Strategies in insertion order; a well-formed catalog has distinct keys. */
  type Catalog = seq<Strategy>

  /** The key list in insertion order (`get_strategy_names`, `getStrategyNames`). */
  function Names(c: Catalog): (r: seq<string>)
  {
    seq(|c|, i requires 0 <= i < |c| => c[i].key)
  }

  /** A key is listed exactly when some stored record carries it. */
  lemma NamesAreKeys(c: Catalog, k: string)
    ensures k in Names(c) <==> exists s :: s in c && s.key == k
  {
    if k in Names(c) {
      var i :| 0 <= i < |c| && Names(c)[i] == k;
      assert c[i] in c;
    }
    if exists s :: s in c && s.key == k {
      var s :| s in c && s.key == k;
      var i :| 0 <= i < |c| && c[i] == s;
      assert Names(c)[i] == k;
    }
  }

  predicate Distinct<T(==)>(s: seq<T>) {
    forall i, j :: 0 <= i < j < |s| ==> s[i] != s[j]
  }

  /** The position where `x` first occurs in `s`. */
  function FirstIndex(s: seq<string>, x: string): (i: nat)
    requires x in s
    ensures i < |s| && s[i] == x && x !in s[..i]
  {
    if s[0] == x then 0
    else
      var i := FirstIndex(s[1..], x);
      assert s[..i + 1] == [s[0]] + s[1..][..i];
      i + 1
  }

  /** A position holding `x` with no `x` before it is the first one. */
  lemma FirstIndexUnique(s: seq<string>, x: string, k: nat)
    requires k < |s| && s[k] == x && x !in s[..k]
    ensures FirstIndex(s, x) == k
  {
  }

  /** Appending an element does not move the first occurrence of an earlier one. */
  lemma FirstIndexAppend(t: seq<string>, x: string, y: string)
    requires y in t
    ensures y in t + [x] && FirstIndex(t + [x], y) == FirstIndex(t, y)
  {
    var k := FirstIndex(t, y);
    assert (t + [x])[..k] == t[..k];
    FirstIndexUnique(t + [x], y, k);
  }

  /** `list(dict.fromkeys(s))` / `[...new Set(s)]`: each element once, at its first
      position. */
  function Dedup(s: seq<string>): (r: seq<string>)
    ensures Distinct(r)
    ensures forall x :: x in r <==> x in s
    ensures |r| <= |s|
    ensures |s| > 0 ==> |r| > 0 && r[0] == s[0]
    decreases |s|
  {
    if |s| == 0 then []
    else
      var t := s[..|s| - 1];
      var prior := Dedup(t);
      assert s == t + [s[|s| - 1]];
      assert forall x :: x in s <==> x in t || x == s[|s| - 1];
      if s[|s| - 1] in prior then prior else prior + [s[|s| - 1]]
  }

  /** The elements kept come in the order of their first positions. */
  lemma {:induction false} DedupOrder(s: seq<string>)
    ensures forall i, j :: 0 <= i < j < |Dedup(s)| ==> FirstIndex(s, Dedup(s)[i]) < FirstIndex(s, Dedup(s)[j])
    decreases |s|
  {
    if |s| > 0 {
      var t := s[..|s| - 1];
      DedupOrder(t);
      assert s == t + [s[|s| - 1]];
      DedupStep(t, s[|s| - 1], Dedup(t));
    }
  }

  /** Three elements deduplicated, case by case. */
  lemma DedupThree(a: string, b: string, d: string)
    ensures Dedup([a, b, d]) ==
      if b == a then (if d == a then [a] else [a, d])
      else if d == a || d == b then [a, b]
      else [a, b, d]
  {
    assert [a, b, d][..2] == [a, b];
    assert [a, b][..1] == [a];
    assert [a][..0] == [];
  }

  /** The inductive step of `Dedup`'s order: first positions in `t` carry over to
      `t + [x]`, and a new `x` comes after all of them. */
  lemma DedupStep(t: seq<string>, x: string, prior: seq<string>)
    requires forall y :: y in prior <==> y in t
    requires forall i, j :: 0 <= i < j < |prior| ==> FirstIndex(t, prior[i]) < FirstIndex(t, prior[j])
    ensures var r := if x in prior then prior else prior + [x];
      forall i, j :: 0 <= i < j < |r| ==> FirstIndex(t + [x], r[i]) < FirstIndex(t + [x], r[j])
  {
    var r := if x in prior then prior else prior + [x];
    forall i, j | 0 <= i < j < |r|
      ensures FirstIndex(t + [x], r[i]) < FirstIndex(t + [x], r[j])
    {
      assert prior[i] in prior;
      FirstIndexAppend(t, x, prior[i]);
      if j < |prior| {
        assert prior[j] in prior;
        FirstIndexAppend(t, x, prior[j]);
      } else {
        assert r[j] == x && x !in t;
        assert (t + [x])[..|t|] == t;
        FirstIndexUnique(t + [x], x, |t|);
      }
    }
  }

  /** The list with every `k` dropped (`removeNode` on a recency list). */
  function Without(s: seq<string>, k: string): (r: seq<string>)
    ensures forall x :: x in r <==> x in s && x != k
    ensures Distinct(s) ==> Distinct(r)
    ensures Distinct(s) && k in s ==> |r| == |s| - 1
    ensures k !in s ==> r == s
    decreases |s|
  {
    if |s| == 0 then []
    else if s[0] == k then Without(s[1..], k)
    else
      var rest := Without(s[1..], k);
      assert Distinct(s) ==> Distinct(s[1..]) && s[0] !in s[1..];
      assert forall i :: 0 < i < |[s[0]] + rest| ==> ([s[0]] + rest)[i] == rest[i - 1];
      [s[0]] + rest
  }

  /** A list without repeats has as many elements as it has members. */
  lemma {:induction false} DistinctCard(s: seq<string>)
    requires Distinct(s)
    ensures |set x | x in s| == |s|
    decreases |s|
  {
    if |s| > 0 {
      var t := s[..|s| - 1];
      assert Distinct(t);
      DistinctCard(t);
      assert (set x | x in s) == (set x | x in t) + {s[|s| - 1]};
      assert s[|s| - 1] !in t;
    } else {
      assert (set x | x in s) == {};
    }
  }

  /** `s[:n]` / `s.slice(0, n)`: the first `n` elements, or all of them. */
  function Take<T>(s: seq<T>, n: nat): (r: seq<T>)
    ensures |r| <= n && |r| <= |s| && r == s[..|r|]
    ensures |r| == n || |r| == |s|
  {
    if |s| <= n then s else s[..n]
  }

  /** The marker a template's user prompt replaces. */
  const Placeholder := "[Insert initial prompt here]"

  /** The levels a strategy's complexity and time investment may take. */
  const Levels := ["Low", "Medium", "High", "Medium-High"]

  predicate Valid(c: Catalog) {
    Distinct(Names(c))
  }

  function IndexOf(c: Catalog, k: string): (r: Option<nat>)
    ensures r.Some? ==> r.value < |c| && c[r.value].key == k
    ensures r.None? <==> k !in Names(c)
    decreases |c|
  {
    assert |c| > 0 ==> Names(c) == [c[0].key] + Names(c[1..]);
    if |c| == 0 then None
    else if c[0].key == k then Some(0)
    else match IndexOf(c[1..], k)
      case Some(i) => Some(i + 1)
      case None => None
  }

  /** `strategies.get(key)`: the strategy stored under `key`, or nothing. */
  function Get(c: Catalog, k: string): (r: Option<Strategy>)
    ensures r.Some? <==> k in Names(c)
    ensures r.Some? ==> r.value in c && r.value.key == k
  {
    match IndexOf(c, k)
    case Some(i) => Some(c[i])
    case None => None
  }

  lemma GetUnique(c: Catalog, i: nat)
    requires Valid(c) && i < |c|
    ensures Get(c, c[i].key) == Some(c[i])
  {
    assert Names(c)[i] == c[i].key;
    var j := IndexOf(c, c[i].key).value;
    assert Names(c)[i] == Names(c)[j];
  }

  /** The candidates the catalog knows, in the order given. */
  function KnownKeys(c: Catalog, ks: seq<string>): (r: seq<string>)
    ensures forall k :: k in r <==> k in ks && Get(c, k).Some?
    ensures |r| <= |ks|
    decreases |ks|
  {
    if |ks| == 0 then []
    else (if Get(c, ks[0]).Some? then [ks[0]] else []) + KnownKeys(c, ks[1..])
  }

  /** Keeping the known candidates keeps their order of first appearance. */
  lemma {:induction false} KnownKeysOrder(c: Catalog, ks: seq<string>, x: string, y: string)
    requires x in KnownKeys(c, ks) && y in KnownKeys(c, ks)
    requires FirstIndex(KnownKeys(c, ks), x) < FirstIndex(KnownKeys(c, ks), y)
    ensures FirstIndex(ks, x) < FirstIndex(ks, y)
    decreases |ks|
  {
    var known := KnownKeys(c, ks);
    var rest := KnownKeys(c, ks[1..]);
    if ks[0] == x {
    } else if ks[0] == y {
      assert false;
    } else {
      assert x in rest && y in rest;
      if Get(c, ks[0]).Some? {
        assert known == [ks[0]] + rest && known[1..] == rest;
      } else {
        assert known == rest;
      }
      KnownKeysOrder(c, ks[1..], x, y);
    }
  }

  /** `strategies[key] = s` / `strategies.set(key, s)`: a present key is overwritten
      in place, a new key goes to the end. */
  function Put(c: Catalog, s: Strategy): (r: Catalog)
    ensures s.key in Names(c) ==> |r| == |c| && Names(r) == Names(c)
    ensures s.key !in Names(c) ==> Names(r) == Names(c) + [s.key]
    ensures s in r
  {
    match IndexOf(c, s.key)
    case Some(i) =>
      assert forall j :: 0 <= j < |c| ==> c[i := s][j].key == c[j].key;
      assert Names(c[i := s]) == Names(c);
      c[i := s]
    case None => assert Names(c + [s]) == Names(c) + [s.key]; c + [s]
  }

  /** After `Put`, the new key maps to the new record and every other key is unchanged. */
  lemma PutGet(c: Catalog, s: Strategy, k: string)
    requires Valid(c)
    ensures Valid(Put(c, s))
    ensures Get(Put(c, s), k) == if k == s.key then Some(s) else Get(c, k)
  {
    var r := Put(c, s);
    if s.key !in Names(c) {
      assert Names(r) == Names(c) + [s.key];
      assert r[|c|] == s;
      GetUnique(r, |c|);
      if k != s.key && k in Names(c) {
        var i := IndexOf(c, k).value;
        assert r[i] == c[i];
        GetUnique(c, i);
        GetUnique(r, i);
      }
    } else {
      var i := IndexOf(c, s.key).value;
      assert r[i] == s;
      GetUnique(r, i);
      if k != s.key && k in Names(c) {
        var j := IndexOf(c, k).value;
        assert r[j] == c[j];
        GetUnique(c, j);
        GetUnique(r, j);
      }
    }
  }

  /** The `(key, name, description)` listing (`list_strategies`, `listStrategies`). */
  datatype Summary = Summary(key: string, name: string, description: string)

  function List(c: Catalog): (r: seq<Summary>)
    ensures |r| == |c|
    ensures forall i :: 0 <= i < |c| ==> r[i] == Summary(c[i].key, c[i].name, c[i].description)
  {
    seq(|c|, i requires 0 <= i < |c| => Summary(c[i].key, c[i].name, c[i].description))
  }

  /** The listing has the catalog's key set, and each entry agrees with `Get`. */
  lemma ListAgreesWithGet(c: Catalog, k: string)
    requires Valid(c)
    ensures (exists i :: 0 <= i < |List(c)| && List(c)[i].key == k) <==> Get(c, k).Some?
    ensures forall i :: 0 <= i < |List(c)| && List(c)[i].key == k ==>
      Get(c, k).Some? && List(c)[i].name == Get(c, k).value.name &&
      List(c)[i].description == Get(c, k).value.description
  {
    var l := List(c);
    forall i | 0 <= i < |l| && l[i].key == k
      ensures Get(c, k).Some? && l[i].name == Get(c, k).value.name &&
              l[i].description == Get(c, k).value.description
    {
      GetUnique(c, i);
    }
    if Get(c, k).Some? {
      var i := IndexOf(c, k).value;
      assert l[i].key == k;
    }
  }

  /** `get_strategy_examples`: one `(example, key)` pair per example, in catalog order
      and then example order. */
  function Examples(c: Catalog): seq<(string, string)>
    decreases |c|
  {
    if |c| == 0 then []
    else
      seq(|c[0].examples|, i requires 0 <= i < |c[0].examples| => (c[0].examples[i], c[0].key))
      + Examples(c[1..])
  }

  function ExampleTotal(c: Catalog): nat
    decreases |c|
  {
    if |c| == 0 then 0 else |c[0].examples| + ExampleTotal(c[1..])
  }

  /** A pair is listed exactly when its strategy holds that example; there is one pair
      per example. */
  lemma {:induction false} ExamplesExact(c: Catalog, e: string, k: string)
    ensures (e, k) in Examples(c) <==> exists i :: 0 <= i < |c| && c[i].key == k && e in c[i].examples
    ensures |Examples(c)| == ExampleTotal(c)
    decreases |c|
  {
    if |c| > 0 {
      ExamplesExact(c[1..], e, k);
      var head := seq(|c[0].examples|, i requires 0 <= i < |c[0].examples| => (c[0].examples[i], c[0].key));
      assert Examples(c) == head + Examples(c[1..]);
      if (e, k) in head {
        assert c[0].key == k && e in c[0].examples;
      }
      if c[0].key == k && e in c[0].examples {
        var j :| 0 <= j < |c[0].examples| && c[0].examples[j] == e;
        assert head[j] == (e, k);
      }
      if exists i :: 0 <= i < |c| && c[i].key == k && e in c[i].examples {
        var i :| 0 <= i < |c| && c[i].key == k && e in c[i].examples;
        if i > 0 {
          assert c[1..][i - 1] == c[i];
        }
      }
      if exists i :: 0 <= i < |c[1..]| && c[1..][i].key == k && e in c[1..][i].examples {
        var i :| 0 <= i < |c[1..]| && c[1..][i].key == k && e in c[1..][i].examples;
        assert c[i + 1] == c[1..][i];
      }
    }
  }

  /** A directory entry: its file name and the parsed content, `None` when reading or
      parsing failed. */
  datatype File = File(name: string, data: Option<Json>)

  /** Loading: each file is turned into a record by `build` (`None` when the file is
      skipped: filtered out, unreadable, or rejected), and records are stored in file
      order. */
  function LoadAll(files: seq<File>, build: File -> Option<Strategy>): Catalog
    decreases |files|
  {
    if |files| == 0 then []
    else
      var c := LoadAll(files[..|files| - 1], build);
      match build(files[|files| - 1])
      case Some(s) => Put(c, s)
      case None => c
  }

  lemma {:induction false} LoadAllValid(files: seq<File>, build: File -> Option<Strategy>)
    ensures Valid(LoadAll(files, build))
    decreases |files|
  {
    if |files| > 0 {
      var c := LoadAll(files[..|files| - 1], build);
      LoadAllValid(files[..|files| - 1], build);
      match build(files[|files| - 1])
      case Some(s) => PutGet(c, s, s.key);
      case None =>
    }
  }

  /** A file that yields no record changes nothing, wherever it stands: loading carries
      on after a failure. */
  lemma {:induction false} LoadAllSkips(pre: seq<File>, f: File, post: seq<File>, build: File -> Option<Strategy>)
    requires build(f).None?
    ensures LoadAll(pre + [f] + post, build) == LoadAll(pre + post, build)
    decreases |post|
  {
    if |post| == 0 {
      assert (pre + [f] + post)[..|pre + [f] + post| - 1] == pre;
      assert pre + post == pre;
    } else {
      var post' := post[..|post| - 1];
      LoadAllSkips(pre, f, post', build);
      assert (pre + [f] + post)[..|pre + [f] + post| - 1] == pre + [f] + post';
      assert (pre + post)[..|pre + post| - 1] == pre + post';
    }
  }

  /** File `i` yields a record with key `k`. */
  predicate Yields(files: seq<File>, build: File -> Option<Strategy>, i: int, k: string) {
    0 <= i < |files| && build(files[i]).Some? && build(files[i]).value.key == k
  }

  /** What the last file does to the record stored under `k`. */
  lemma LoadAllLast(files: seq<File>, build: File -> Option<Strategy>, k: string)
    requires |files| > 0
    ensures Yields(files, build, |files| - 1, k) ==> Get(LoadAll(files, build), k) == build(files[|files| - 1])
    ensures !Yields(files, build, |files| - 1, k) ==>
      Get(LoadAll(files, build), k) == Get(LoadAll(files[..|files| - 1], build), k)
  {
    var c := LoadAll(files[..|files| - 1], build);
    LoadAllValid(files[..|files| - 1], build);
    match build(files[|files| - 1])
    case Some(s) => PutGet(c, s, k);
    case None =>
  }

  /** Dropping the last file keeps the other files' indices. */
  lemma YieldsInit(files: seq<File>, build: File -> Option<Strategy>, k: string)
    requires |files| > 0
    ensures forall i :: 0 <= i < |files| - 1 ==> (Yields(files[..|files| - 1], build, i, k) <==> Yields(files, build, i, k))
    ensures forall i :: 0 <= i < |files| - 1 ==> files[..|files| - 1][i] == files[i]
  {
  }

  /** A key is loaded exactly when some file yields a record with that key, and the record
      stored is the one from the last such file. */
  lemma {:induction false} LoadAllGet(files: seq<File>, build: File -> Option<Strategy>, k: string)
    ensures Get(LoadAll(files, build), k).Some? <==> exists i :: Yields(files, build, i, k)
    ensures Get(LoadAll(files, build), k).Some? ==>
      exists i :: 0 <= i < |files| && build(files[i]) == Get(LoadAll(files, build), k) &&
                  forall j :: i < j < |files| ==> !Yields(files, build, j, k)
    decreases |files|
  {
    if |files| > 0 {
      var init := files[..|files| - 1];
      var last := |files| - 1;
      LoadAllGet(init, build, k);
      LoadAllLast(files, build, k);
      YieldsInit(files, build, k);
      if Yields(files, build, last, k) {
        assert build(files[last]) == Get(LoadAll(files, build), k);
      } else {
        if exists i :: Yields(files, build, i, k) {
          var i :| Yields(files, build, i, k);
          assert Yields(init, build, i, k);
        }
        if Get(LoadAll(files, build), k).Some? {
          var h :| Yields(init, build, h, k);
          assert Yields(files, build, h, k);
          var i :| 0 <= i < |init| && build(init[i]) == Get(LoadAll(init, build), k) &&
                   forall j :: i < j < |init| ==> !Yields(init, build, j, k);
          assert build(files[i]) == Get(LoadAll(files, build), k);
        }
      }
    }
  }
}
