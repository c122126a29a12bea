/** The in-memory strategy collections: named, described lists of strategy keys, kept
    in an object whose key order is the creation order. Every change is a transition
    from one state to the next, or the error it throws. */
module Collections {
  import opened Wrappers
  import opened Json
  import opened Catalog

  datatype Collection = Collection(name: string, description: string, strategies: seq<string>)

  /** The collections by key, with the keys in enumeration order. */
  datatype State = State(order: seq<string>, table: map<string, Collection>)

  ghost predicate Valid(s: State) {
    Distinct(s.order) && forall k :: k in s.order <==> k in s.table
  }

  /** No collection lists a strategy twice. */
  ghost predicate NoRepeats(s: State) {
    forall k :: k in s.table ==> Distinct(s.table[k].strategies)
  }

  const Empty := State([], map[])

  lemma EmptyIsValid()
    ensures Valid(Empty) && NoRepeats(Empty)
  {
  }

  function NotFound(key: string): string {
    "Collection '" + key + "' not found"
  }

  /** `getCollection`. */
  function Get(s: State, key: string): (r: Option<Collection>)
    ensures r.Some? <==> key in s.table
    ensures r.Some? ==> r.value == s.table[key]
  {
    if key in s.table then Some(s.table[key]) else None
  }

  /** `getCollectionStrategies`: a copy of the list, or none for an unknown key. */
  function Strategies(s: State, key: string): (r: seq<string>)
    ensures key !in s.table ==> r == []
    ensures key in s.table ==> r == s.table[key].strategies
  {
    if key in s.table then s.table[key].strategies else []
  }

  /** `createCollection`: a new, empty collection at the end; an existing key throws. */
  function Create(s: State, key: string, name: string, description: string): (r: Result<State, string>)
    requires Valid(s)
    ensures r.Failure? <==> key in s.table
    ensures r.Failure? ==> r.error == "Collection '" + key + "' already exists"
    ensures r.Success? ==> Valid(r.value) && r.value.order == s.order + [key]
    ensures r.Success? ==> r.value.table == s.table[key := Collection(name, description, [])]
    ensures r.Success? && NoRepeats(s) ==> NoRepeats(r.value)
  {
    if key in s.table then Failure("Collection '" + key + "' already exists")
    else
      var r := State(s.order + [key], s.table[key := Collection(name, description, [])]);
      assert Distinct(r.order) by {
        assert forall i :: 0 <= i < |s.order| ==> r.order[i] == s.order[i];
      }
      Success(r)
  }

  /** The state with one collection's list replaced. */
  function WithStrategies(s: State, key: string, strategies: seq<string>): (r: State)
    requires key in s.table
    ensures Valid(s) ==> Valid(r)
    ensures r.order == s.order && r.table.Keys == s.table.Keys
    ensures r.table[key] == s.table[key].(strategies := strategies)
    ensures forall k :: k in s.table && k != key ==> r.table[k] == s.table[k]
  {
    s.(table := s.table[key := s.table[key].(strategies := strategies)])
  }

  /** `addStrategyToCollection`: appends the strategy unless the collection already
      lists it; an unknown collection throws. */
  function Add(s: State, key: string, strategy: string): (r: Result<State, string>)
    requires Valid(s)
    ensures r.Failure? <==> key !in s.table
    ensures r.Failure? ==> r.error == NotFound(key)
    ensures r.Success? ==> Valid(r.value) && r.value.order == s.order && r.value.table.Keys == s.table.Keys
    ensures r.Success? ==> strategy in r.value.table[key].strategies
    ensures r.Success? && strategy in s.table[key].strategies ==> r.value == s
    ensures r.Success? && strategy !in s.table[key].strategies ==>
      r.value.table[key].strategies == s.table[key].strategies + [strategy]
    ensures r.Success? ==> forall k :: k in s.table ==>
      r.value.table[k].name == s.table[k].name && r.value.table[k].description == s.table[k].description
    ensures r.Success? ==> forall k :: k in s.table && k != key ==> r.value.table[k] == s.table[k]
    ensures r.Success? && NoRepeats(s) ==> NoRepeats(r.value)
  {
    if key !in s.table then Failure(NotFound(key))
    else
      var list := s.table[key].strategies;
      if strategy in list then Success(s)
      else
        var grown := list + [strategy];
        assert Distinct(list) ==> Distinct(grown) by {
          assert forall i :: 0 <= i < |list| ==> grown[i] == list[i];
        }
        Success(WithStrategies(s, key, grown))
  }

  /** Adding the same strategy twice is adding it once. */
  lemma AddIsIdempotent(s: State, key: string, strategy: string)
    requires Valid(s) && key in s.table
    ensures Add(Add(s, key, strategy).value, key, strategy) == Add(s, key, strategy)
  {
  }

  /** `indexOf`: the first position of `x`, or -1. */
  function IndexOf(s: seq<string>, x: string): (i: int)
    ensures -1 <= i < |s|
    ensures i == -1 <==> x !in s
    ensures i >= 0 ==> s[i] == x && x !in s[..i]
    decreases |s|
  {
    if |s| == 0 then -1
    else if s[0] == x then 0
    else
      var j := IndexOf(s[1..], x);
      assert j >= 0 ==> s[..j + 1] == [s[0]] + s[1..][..j];
      if j == -1 then -1 else j + 1
  }

  /** `splice(i, 1)`. */
  function SpliceOut(s: seq<string>, i: nat): (r: seq<string>)
    requires i < |s|
    ensures |r| == |s| - 1
    ensures forall j :: 0 <= j < |r| ==> r[j] == if j < i then s[j] else s[j + 1]
  {
    s[..i] + s[i + 1..]
  }

  /** Splicing out of a list without repeats leaves one without repeats, and without
      the element spliced out. */
  lemma SpliceOutDistinct(s: seq<string>, i: nat)
    requires Distinct(s) && i < |s|
    ensures Distinct(SpliceOut(s, i)) && s[i] !in SpliceOut(s, i)
  {
    var r := SpliceOut(s, i);
    forall a, b | 0 <= a < b < |r|
      ensures r[a] != r[b]
    {
      var a' := if a < i then a else a + 1;
      var b' := if b < i then b else b + 1;
      assert r[a] == s[a'] && r[b] == s[b'] && a' < b';
    }
    forall j | 0 <= j < |r|
      ensures r[j] != s[i]
    {
      var j' := if j < i then j else j + 1;
      assert r[j] == s[j'] && j' != i;
    }
  }

  /** `removeStrategyFromCollection`: splices out the first occurrence of the strategy,
      if any; an unknown collection throws. */
  function Remove(s: State, key: string, strategy: string): (r: Result<State, string>)
    requires Valid(s)
    ensures r.Failure? <==> key !in s.table
    ensures r.Failure? ==> r.error == NotFound(key)
    ensures r.Success? ==> Valid(r.value) && r.value.order == s.order && r.value.table.Keys == s.table.Keys
    ensures r.Success? && strategy !in s.table[key].strategies ==> r.value == s
    ensures r.Success? && strategy in s.table[key].strategies ==>
      var i := IndexOf(s.table[key].strategies, strategy);
      r.value.table[key].strategies == SpliceOut(s.table[key].strategies, i)
    ensures r.Success? ==> forall k :: k in s.table && k != key ==> r.value.table[k] == s.table[k]
  {
    if key !in s.table then Failure(NotFound(key))
    else
      var list := s.table[key].strategies;
      var i := IndexOf(list, strategy);
      if i > -1 then Success(WithStrategies(s, key, SpliceOut(list, i)))
      else Success(s)
  }

  /** Removing keeps every list free of repeats, and the strategy is then gone from
      the collection. */
  lemma RemoveKeepsNoRepeats(s: State, key: string, strategy: string)
    requires Valid(s) && NoRepeats(s) && key in s.table
    ensures NoRepeats(Remove(s, key, strategy).value)
    ensures strategy !in Remove(s, key, strategy).value.table[key].strategies
  {
    var list := s.table[key].strategies;
    var i := IndexOf(list, strategy);
    if i > -1 {
      SpliceOutDistinct(list, i);
    }
  }

  /** Removing a strategy that adding has just appended restores the collection. */
  lemma RemoveUndoesAdd(s: State, key: string, strategy: string)
    requires Valid(s) && key in s.table && strategy !in s.table[key].strategies
    ensures Remove(Add(s, key, strategy).value, key, strategy) == Success(s)
  {
    var list := s.table[key].strategies;
    var a := Add(s, key, strategy).value;
    assert a.table[key].strategies == list + [strategy];
    assert IndexOf(list + [strategy], strategy) == |list| by {
      assert (list + [strategy])[..|list|] == list;
    }
    assert SpliceOut(list + [strategy], |list|) == list;
    var r := Remove(a, key, strategy).value;
    assert r.table == s.table;
  }

  /** `deleteCollection`: only that key disappears; an unknown key throws. */
  function Delete(s: State, key: string): (r: Result<State, string>)
    requires Valid(s)
    ensures r.Failure? <==> key !in s.table
    ensures r.Failure? ==> r.error == NotFound(key)
    ensures r.Success? ==> Valid(r.value) && r.value.table == s.table - {key} && r.value.order == Without(s.order, key)
    ensures r.Success? && NoRepeats(s) ==> NoRepeats(r.value)
  {
    if key !in s.table then Failure(NotFound(key))
    else Success(State(Without(s.order, key), s.table - {key}))
  }

  /** `updateCollection`: changes the name and the description that are given, never
      the strategies; an unknown key throws. */
  function Update(s: State, key: string, name: Option<string>, description: Option<string>): (r: Result<State, string>)
    requires Valid(s)
    ensures r.Failure? <==> key !in s.table
    ensures r.Failure? ==> r.error == NotFound(key)
    ensures r.Success? ==> Valid(r.value) && r.value.order == s.order && r.value.table.Keys == s.table.Keys
    ensures r.Success? ==> r.value.table[key].strategies == s.table[key].strategies
    ensures r.Success? ==> r.value.table[key].name == name.GetOr(s.table[key].name)
    ensures r.Success? ==> r.value.table[key].description == description.GetOr(s.table[key].description)
    ensures r.Success? ==> forall k :: k in s.table && k != key ==> r.value.table[k] == s.table[k]
    ensures r.Success? && NoRepeats(s) ==> NoRepeats(r.value)
  {
    if key !in s.table then Failure(NotFound(key))
    else
      var old_ := s.table[key];
      var c := Collection(name.GetOr(old_.name), description.GetOr(old_.description), old_.strategies);
      Success(s.(table := s.table[key := c]))
  }

  /** A collection as a JSON object. */
  function CollectionJson(c: Collection): Json {
    JObj([("name", JStr(c.name)), ("description", JStr(c.description)),
          ("strategies", JArr(seq(|c.strategies|, i requires 0 <= i < |c.strategies| => JStr(c.strategies[i]))))])
  }

  /** The collection a JSON value describes, if it has that shape. */
  function CollectionOf(v: Json): Option<Collection> {
    if !v.JObj? then None
    else
      match (Field(v.fields, "name"), Field(v.fields, "description"), Field(v.fields, "strategies"))
      case (Some(JStr(n)), Some(JStr(d)), Some(list)) =>
        if IsStringArray(list) then Some(Collection(n, d, Strings(list))) else None
      case _ => None
  }

  lemma CollectionRoundTrip(c: Collection)
    ensures CollectionOf(CollectionJson(c)) == Some(c)
  {
    var j := CollectionJson(c);
    assert Field(j.fields, "strategies") == Some(j.fields[2].1);
    assert Field(j.fields, "description") == Some(JStr(c.description)) by {
      assert j.fields[..2][..1] == [("name", JStr(c.name))];
      assert "description" != "strategies";
    }
    assert Field(j.fields, "name") == Some(JStr(c.name)) by {
      assert "name" != "strategies" && "name" != "description";
      assert j.fields[..2] == [j.fields[0], j.fields[1]];
      assert j.fields[..2][..1] == [j.fields[0]];
    }
    assert Strings(j.fields[2].1) == c.strategies;
  }

  function EncodeFields(order: seq<string>, table: map<string, Collection>): (r: seq<(string, Json)>)
    requires forall k :: k in order ==> k in table
    ensures |r| == |order| && forall i :: 0 <= i < |r| ==> r[i] == (order[i], CollectionJson(table[order[i]]))
  {
    seq(|order|, i requires 0 <= i < |order| => (order[i], CollectionJson(table[order[i]])))
  }

  /** The collections an object's fields describe, in field order; a repeated key keeps
      its first position and its last value, as `JSON.parse` does. */
  function DecodeFields(fields: seq<(string, Json)>): (r: Option<State>)
    ensures r.Some? ==> Valid(r.value)
    decreases |fields|
  {
    if |fields| == 0 then Some(Empty)
    else
      var prior := DecodeFields(fields[..|fields| - 1]);
      var k := fields[|fields| - 1].0;
      var c := CollectionOf(fields[|fields| - 1].1);
      if prior.None? || c.None? then None
      else
        var s := prior.value;
        Some(State(if k in s.table then s.order else s.order + [k], s.table[k := c.value]))
  }

  /** `exportCollections`: the state as the plain JSON value a stringify-and-parse
      copy yields, a document with the one field "collections", from which importing
      restores the state exactly. */
  function Export(s: State): (r: Json)
    requires Valid(s)
    ensures r.JObj? && |r.fields| == 1 && r.fields[0].0 == "collections"
    ensures Import(r) == Some(s)
  {
    ImportEncoded(s);
    JObj([("collections", JObj(EncodeFields(s.order, s.table)))])
  }

  lemma ImportEncoded(s: State)
    requires Valid(s)
    ensures Import(JObj([("collections", JObj(EncodeFields(s.order, s.table)))])) == Some(s)
  {
    DecodeEncoded(s.order, s.table);
    var p := Pick(s.order, s.table);
    assert p.Keys == s.table.Keys;
    assert p == s.table;
  }

  /** `importCollections`: the state a collections document describes; `None` for a
      value that is not one, because it is not an object, its "collections" field is
      missing or not an object, or some collection in it is malformed. */
  function Import(config: Json): (r: Option<State>)
    ensures !config.JObj? ==> r.None?
    ensures config.JObj? && !(Field(config.fields, "collections").Some? && Field(config.fields, "collections").value.JObj?) ==>
      r.None?
    ensures r.Some? ==> Valid(r.value)
  {
    if !config.JObj? then None
    else
      match Field(config.fields, "collections")
      case Some(JObj(cs)) => DecodeFields(cs)
      case _ => None
  }

  /** The table restricted to the listed keys. */
  function Pick(order: seq<string>, table: map<string, Collection>): (r: map<string, Collection>)
    requires forall k :: k in order ==> k in table
    ensures forall k :: k in r <==> k in order
    ensures forall k :: k in r ==> r[k] == table[k]
    decreases |order|
  {
    if |order| == 0 then map[]
    else Pick(order[..|order| - 1], table)[order[|order| - 1] := table[order[|order| - 1]]]
  }

  /** The encoding of a non-empty order ends with its last collection. */
  lemma EncodeLast(order: seq<string>, table: map<string, Collection>)
    requires |order| > 0 && forall k :: k in order ==> k in table
    ensures var fields := EncodeFields(order, table);
            fields[..|fields| - 1] == EncodeFields(order[..|order| - 1], table) &&
            fields[|fields| - 1] == (order[|order| - 1], CollectionJson(table[order[|order| - 1]]))
  {
  }

  /** In a list without repeats the last key is not among the earlier ones. */
  lemma LastIsNew(order: seq<string>, table: map<string, Collection>)
    requires |order| > 0 && Distinct(order) && forall k :: k in order ==> k in table
    ensures Distinct(order[..|order| - 1])
    ensures order[|order| - 1] !in Pick(order[..|order| - 1], table)
  {
  }

  lemma {:induction false} DecodeEncoded(order: seq<string>, table: map<string, Collection>)
    requires Distinct(order) && forall k :: k in order ==> k in table
    ensures DecodeFields(EncodeFields(order, table)) == Some(State(order, Pick(order, table)))
    decreases |order|
  {
    if |order| > 0 {
      LastIsNew(order, table);
      DecodeEncoded(order[..|order| - 1], table);
      DecodeLast(order, table);
    }
  }

  lemma LastSplit(s: seq<string>)
    requires |s| > 0
    ensures s == s[..|s| - 1] + [s[|s| - 1]]
  {
  }

  /** The inductive step of `DecodeEncoded`: decoding the last field appends its key. */
  lemma DecodeLast(order: seq<string>, table: map<string, Collection>)
    requires |order| > 0 && forall k :: k in order ==> k in table
    requires var prefix := order[..|order| - 1];
             order[|order| - 1] !in Pick(prefix, table) &&
             DecodeFields(EncodeFields(prefix, table)) == Some(State(prefix, Pick(prefix, table)))
    ensures DecodeFields(EncodeFields(order, table)) == Some(State(order, Pick(order, table)))
  {
    var prefix := order[..|order| - 1];
    var k := order[|order| - 1];
    LastSplit(order);
    EncodeLast(order, table);
    DecodeStep(EncodeFields(order, table), k, table[k], State(prefix, Pick(prefix, table)));
    assert Pick(order, table) == Pick(prefix, table)[k := table[k]];
  }

  /** Decoding one more field, for a key not seen before, appends that collection. */
  lemma DecodeStep(fields: seq<(string, Json)>, k: string, c: Collection, prior: State)
    requires |fields| > 0 && DecodeFields(fields[..|fields| - 1]) == Some(prior)
    requires fields[|fields| - 1] == (k, CollectionJson(c)) && k !in prior.table
    ensures DecodeFields(fields) == Some(State(prior.order + [k], prior.table[k := c]))
  {
    CollectionRoundTrip(c);
  }

  /** `getCollectionNames`: the keys in enumeration order, each once. */
  function Names(s: State): (r: seq<string>)
    requires Valid(s)
    ensures Distinct(r) && forall k :: k in r <==> k in s.table
  {
    s.order
  }
}
