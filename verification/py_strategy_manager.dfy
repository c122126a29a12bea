/** The Python strategy manager's loader (src/core/strategy_manager.py): the directory's
    `*.json` files in sorted order, key = the file's stem, `dict.get` defaults, records
    validated by the pydantic `StrategyInfo` model, failing files skipped. */
module PyStrategyManager {
  import opened Wrappers
  import opened Json
  import opened Text
  import opened Catalog

  /** Code-point order on names, which is how `sorted` orders paths of one directory. */
  predicate NameLe(a: string, b: string)
    decreases |a|
  {
    |a| == 0 || (|b| > 0 && (a[0] < b[0] || (a[0] == b[0] && NameLe(a[1..], b[1..]))))
  }

  lemma {:induction false} NameLeTotal(a: string, b: string)
    ensures NameLe(a, b) || NameLe(b, a)
    decreases |a|
  {
    if |a| > 0 && |b| > 0 && a[0] == b[0] {
      NameLeTotal(a[1..], b[1..]);
    }
  }

  predicate SortedByName(fs: seq<File>) {
    forall i :: 0 <= i < |fs| - 1 ==> NameLe(fs[i].name, fs[i + 1].name)
  }

  function Insert(f: File, fs: seq<File>): (r: seq<File>)
    requires SortedByName(fs)
    ensures SortedByName(r)
    ensures multiset(r) == multiset(fs) + multiset{f}
    ensures |r| == |fs| + 1 && (r[0] == f || (|fs| > 0 && r[0] == fs[0]))
    decreases |fs|
  {
    if |fs| == 0 then [f]
    else if NameLe(f.name, fs[0].name) then [f] + fs
    else
      NameLeTotal(f.name, fs[0].name);
      var rest := Insert(f, fs[1..]);
      assert fs == [fs[0]] + fs[1..];
      [fs[0]] + rest
  }

  /** `sorted(...)` of the directory listing. */
  function SortByName(fs: seq<File>): (r: seq<File>)
    ensures SortedByName(r)
    ensures multiset(r) == multiset(fs)
    decreases |fs|
  {
    if |fs| == 0 then []
    else
      assert fs == fs[..|fs| - 1] + [fs[|fs| - 1]];
      Insert(fs[|fs| - 1], SortByName(fs[..|fs| - 1]))
  }

  /** The glob `*.json`. */
  predicate IsJsonName(name: string) {
    |name| >= 5 && name[|name| - 5..] == ".json"
  }

  /** `Path.stem` of a name matched by the glob: the text before the final ".json",
      except for the bare name ".json", whose stem is the whole name. */
  function Stem(name: string): (stem: string)
    requires IsJsonName(name)
    ensures |name| > 5 ==> stem + ".json" == name
    ensures |name| == 5 ==> stem == name
  {
    if |name| > 5 then name[..|name| - 5] else name
  }

  /** `data.get(field, default)` that pydantic accepts for a `str` field. */
  function StrField(fields: seq<(string, Json)>, field: string, default: string): Option<string> {
    match Field(fields, field).GetOr(JStr(default))
    case JStr(s) => Some(s)
    case _ => None
  }

  /** The record built from one parsed file. A non-object (`data.get` fails) or a field
      of the wrong type (pydantic rejects it) gives `None`. */
  function Record(key: string, data: Json): (r: Option<Strategy>)
    ensures r.Some? ==> r.value.key == key && data.JObj?
    ensures r.Some? && Field(data.fields, "name").None? ==> r.value.name == key
    ensures r.Some? && Field(data.fields, "description").None? ==> r.value.description == ""
    ensures r.Some? && Field(data.fields, "examples").None? ==> r.value.examples == []
    ensures r.Some? && Field(data.fields, "template").None? ==> r.value.template == ""
    ensures r.Some? && Field(data.fields, "name").Some? ==> Field(data.fields, "name") == Some(JStr(r.value.name))
    ensures r.Some? && Field(data.fields, "description").Some? ==>
      Field(data.fields, "description") == Some(JStr(r.value.description))
    ensures r.Some? && Field(data.fields, "template").Some? ==>
      Field(data.fields, "template") == Some(JStr(r.value.template))
    ensures r.Some? && Field(data.fields, "examples").Some? ==>
      IsStringArray(Field(data.fields, "examples").value) && r.value.examples == Strings(Field(data.fields, "examples").value)
    ensures r.Some? <==> (data.JObj? && StrField(data.fields, "name", key).Some? &&
                          StrField(data.fields, "description", "").Some? &&
                          StrField(data.fields, "template", "").Some? &&
                          IsStringArray(Field(data.fields, "examples").GetOr(JArr([]))))
  {
    match data
    case JObj(fs) =>
      var name := StrField(fs, "name", key);
      var description := StrField(fs, "description", "");
      var template := StrField(fs, "template", "");
      var examples := Field(fs, "examples").GetOr(JArr([]));
      if name.Some? && description.Some? && template.Some? && IsStringArray(examples) then
        Some(Strategy(key, name.value, description.value, Strings(examples), template.value))
      else None
    case _ => None
  }

  /** One directory entry: matched by the glob, read and parsed, then validated. */
  function Build(f: File): Option<Strategy> {
    if IsJsonName(f.name) && f.data.Some? then Record(Stem(f.name), f.data.value) else None
  }

  /** `load_strategies`: `None` stands for a missing directory. */
  function Load(dir: string, listing: Option<seq<File>>): (r: Result<Catalog, string>)
    ensures r.Failure? <==> listing.None?
    ensures r.Failure? ==> r.error == "Strategies directory not found: " + dir
    ensures r.Success? ==> Valid(r.value)
  {
    match listing
    case None => Failure("Strategies directory not found: " + dir)
    case Some(fs) =>
      LoadAllValid(SortByName(fs), Build);
      Success(LoadAll(SortByName(fs), Build))
  }

  /** A key is loaded exactly when some listed file produces a record with that key
      (which record wins among several is `LoadAllGet`'s statement, in sorted order). */
  lemma LoadGet(dir: string, fs: seq<File>, k: string)
    ensures Get(Load(dir, Some(fs)).value, k).Some? <==>
      exists f :: f in fs && Build(f).Some? && Build(f).value.key == k
  {
    var sorted := SortByName(fs);
    LoadAllGet(sorted, Build, k);
    if exists f :: f in fs && Build(f).Some? && Build(f).value.key == k {
      var f :| f in fs && Build(f).Some? && Build(f).value.key == k;
      SameMembers(fs, sorted, f);
      var i :| 0 <= i < |sorted| && sorted[i] == f;
      assert Yields(sorted, Build, i, k);
    }
    if exists i :: Yields(sorted, Build, i, k) {
      var i :| Yields(sorted, Build, i, k);
      SameMembers(fs, sorted, sorted[i]);
    }
  }

  lemma SameMembers(fs: seq<File>, gs: seq<File>, f: File)
    requires multiset(fs) == multiset(gs)
    ensures f in fs <==> f in gs
  {
    assert f in fs <==> f in multiset(fs);
    assert f in gs <==> f in multiset(gs);
  }

  /** Loading does not depend on the order the directory lists its files. */
  lemma LoadIgnoresListingOrder(dir: string, fs: seq<File>, gs: seq<File>)
    requires multiset(fs) == multiset(gs)
    requires forall i, j :: 0 <= i < j < |fs| ==> fs[i].name != fs[j].name
    ensures Load(dir, Some(fs)) == Load(dir, Some(gs))
  {
    var a := SortByName(fs);
    var b := SortByName(gs);
    DistinctNamesKept(fs, a);
    SortedUnique(a, b);
  }

  lemma {:induction false} TwiceInMultiset(s: seq<File>, x: File)
    requires multiset(s)[x] >= 2
    ensures exists p, q :: 0 <= p < q < |s| && s[p] == x && s[q] == x
    decreases |s|
  {
    var n := |s| - 1;
    assert s == s[..n] + [s[n]];
    assert multiset(s) == multiset(s[..n]) + multiset{s[n]};
    if multiset(s[..n])[x] >= 2 {
      TwiceInMultiset(s[..n], x);
      var p, q :| 0 <= p < q < |s[..n]| && s[..n][p] == x && s[..n][q] == x;
      assert s[p] == x && s[q] == x;
    } else {
      assert s[n] == x && x in multiset(s[..n]);
      var p :| 0 <= p < n && s[..n][p] == x;
      assert s[p] == x;
    }
  }

  /** Rearranging files keeps their names distinct. */
  lemma DistinctNamesKept(fs: seq<File>, a: seq<File>)
    requires multiset(fs) == multiset(a)
    requires forall i, j :: 0 <= i < j < |fs| ==> fs[i].name != fs[j].name
    ensures forall i, j :: 0 <= i < j < |a| ==> a[i].name != a[j].name
  {
    forall i, j | 0 <= i < j < |a|
      ensures a[i].name != a[j].name
    {
      if a[i] == a[j] {
        assert a == a[..j] + a[j..];
        assert a[i] in multiset(a[..j]) by { assert a[..j][i] == a[i]; }
        assert a[j] in multiset(a[j..]) by { assert a[j..][0] == a[j]; }
        assert multiset(a) == multiset(a[..j]) + multiset(a[j..]);
        assert multiset(fs)[a[i]] >= 2;
        TwiceInMultiset(fs, a[i]);
      } else {
        assert a[i] in multiset(fs) && a[j] in multiset(fs);
        var p :| 0 <= p < |fs| && fs[p] == a[i];
        var q :| 0 <= q < |fs| && fs[q] == a[j];
        assert p != q;
      }
    }
  }

  lemma {:induction false} NameLeAntisymmetric(a: string, b: string)
    requires NameLe(a, b) && NameLe(b, a)
    ensures a == b
    decreases |a|
  {
    if |a| > 0 {
      NameLeAntisymmetric(a[1..], b[1..]);
      assert a == [a[0]] + a[1..] && b == [b[0]] + b[1..];
    }
  }

  lemma {:induction false} NameLeTransitive(a: string, b: string, c: string)
    requires NameLe(a, b) && NameLe(b, c)
    ensures NameLe(a, c)
    decreases |a|
  {
    if |a| > 0 && a[0] == b[0] && b[0] == c[0] {
      NameLeTransitive(a[1..], b[1..], c[1..]);
    }
  }

  lemma {:induction false} SortedHeadLeast(s: seq<File>, i: nat)
    requires SortedByName(s) && i < |s|
    ensures NameLe(s[0].name, s[i].name)
    decreases i
  {
    if i == 0 {
      NameLeReflexive(s[0].name);
    } else {
      SortedHeadLeast(s, i - 1);
      NameLeTransitive(s[0].name, s[i - 1].name, s[i].name);
    }
  }

  lemma {:induction false} NameLeReflexive(a: string)
    ensures NameLe(a, a)
    decreases |a|
  {
    if |a| > 0 {
      NameLeReflexive(a[1..]);
    }
  }

  lemma SortedHeadsEqual(a: seq<File>, b: seq<File>)
    requires SortedByName(a) && SortedByName(b) && multiset(a) == multiset(b) && |a| > 0
    requires forall i, j :: 0 <= i < j < |a| ==> a[i].name != a[j].name
    ensures |b| > 0 && a[0] == b[0]
  {
    assert a[0] in multiset(b);
    var i :| 0 <= i < |b| && b[i] == a[0];
    assert b[0] in multiset(a);
    var j :| 0 <= j < |a| && a[j] == b[0];
    SortedHeadLeast(b, i);
    SortedHeadLeast(a, j);
    NameLeAntisymmetric(a[0].name, b[0].name);
  }

  lemma TailMultiset(a: seq<File>)
    requires |a| > 0
    ensures multiset(a[1..]) == multiset(a) - multiset{a[0]}
  {
    assert a == [a[0]] + a[1..];
  }

  /** Two sorted arrangements of the same files with distinct names are identical. */
  lemma {:induction false} SortedUnique(a: seq<File>, b: seq<File>)
    requires SortedByName(a) && SortedByName(b) && multiset(a) == multiset(b)
    requires forall i, j :: 0 <= i < j < |a| ==> a[i].name != a[j].name
    ensures a == b
    decreases |a|
  {
    assert |a| == |multiset(a)| == |multiset(b)| == |b|;
    if |a| > 0 {
      SortedHeadsEqual(a, b);
      TailMultiset(a);
      TailMultiset(b);
      SortedUnique(a[1..], b[1..]);
      assert a == [a[0]] + a[1..] && b == [b[0]] + b[1..];
    }
  }
}
