/** The TypeScript strategy manager's loader (src/strategy-manager.ts and its compiled
    twin src/strategy-manager.js): names ending in ".json" in listing order, key = the
    name with its first ".json" removed, `||` defaults, failing files skipped. */
module TsStrategyManager {
  import opened Wrappers
  import opened Json
  import opened Text
  import opened Catalog

  /** `file.endsWith('.json')`. */
  predicate EndsWithJson(name: string) {
    |name| >= 5 && name[|name| - 5..] == ".json"
  }

  /** `file.replace('.json', '')`: only the first occurrence goes. */
  function Key(name: string): string {
    ReplaceFirst(name, ".json", "")
  }

  /** A name whose only ".json" is its suffix loses exactly that suffix. */
  lemma KeyOfPlainName(name: string)
    requires EndsWithJson(name) && !Contains(name[..|name| - 1], ".json")
    ensures Key(name) + ".json" == name
  {
    var i := |name| - 5;
    assert OccursAt(name, ".json", i);
    forall j | 0 <= j < i
      ensures !OccursAt(name, ".json", j)
    {
      if OccursAt(name, ".json", j) {
        assert name[..|name| - 1][j..j + 5] == name[j..j + 5];
        assert OccursAt(name[..|name| - 1], ".json", j);
        ContainsIffOccurs(name[..|name| - 1], ".json");
      }
    }
    ReplaceFirstAt(name, ".json", "", i);
  }

  /** A name with an earlier ".json" keeps its real suffix: "v1.json.json" gets the key
      "v1.json". */
  lemma KeyOfDoubledName()
    ensures Key("v1.json.json") == "v1.json"
  {
    var name := "v1.json.json";
    assert OccursAt(name, ".json", 2);
    assert !OccursAt(name, ".json", 0) && !OccursAt(name, ".json", 1);
    ReplaceFirstAt(name, ".json", "", 2);
  }

  /** `data.field || default` for a string field. */
  function StrOr(fields: seq<(string, Json)>, field: string, default: string): (r: string)
    ensures Truthy(Field(fields, field)) && Field(fields, field).value.JStr? ==>
      r == Field(fields, field).value.s
    ensures !Truthy(Field(fields, field)) ==> r == default
  {
    var v := Field(fields, field);
    if Truthy(v) && v.value.JStr? then v.value.s else default
  }

  /** The record the source's declared types allow: every truthy name, description or
      template is a string and a truthy examples value is an array of strings. */
  predicate WellTyped(data: Json) {
    data.JObj? ==>
      (forall f :: f in ["name", "description", "template"] && Truthy(Field(data.fields, f)) ==>
        Field(data.fields, f).value.JStr?) &&
      (Truthy(Field(data.fields, "examples")) ==> IsStringArray(Field(data.fields, "examples").value))
  }

  /** The record built from one parsed file; `null` content makes `data.name` throw. */
  function Record(key: string, data: Json): (r: Option<Strategy>)
    ensures r.None? <==> data.JNull?
    ensures r.Some? ==> r.value.key == key
    ensures r.Some? && !data.JObj? ==> r.value == Strategy(key, key, "", [], "")
    ensures r.Some? && data.JObj? && WellTyped(data) ==>
      (r.value.name == key <==>
         !Truthy(Field(data.fields, "name")) || Field(data.fields, "name") == Some(JStr(key)))
    ensures r.Some? && data.JObj? && WellTyped(data) ==>
      var name, description, template, examples :=
        Field(data.fields, "name"), Field(data.fields, "description"),
        Field(data.fields, "template"), Field(data.fields, "examples");
      r.value.name == (if Truthy(name) then name.value.s else key) &&
      r.value.description == (if Truthy(description) then description.value.s else "") &&
      r.value.template == (if Truthy(template) then template.value.s else "") &&
      r.value.examples == (if Truthy(examples) then Strings(examples.value) else [])
  {
    match data
    case JNull => None
    case JObj(fs) =>
      var examples := Field(fs, "examples");
      Some(Strategy(
        key,
        StrOr(fs, "name", key),
        StrOr(fs, "description", ""),
        if Truthy(examples) && IsStringArray(examples.value) then Strings(examples.value) else [],
        StrOr(fs, "template", "")))
    case _ => Some(Strategy(key, key, "", [], ""))
  }

  function Build(f: File): Option<Strategy> {
    if EndsWithJson(f.name) && f.data.Some? then Record(Key(f.name), f.data.value) else None
  }

  /** `loadStrategies`: `None` stands for a directory that cannot be read. */
  function Load(dir: string, listing: Option<seq<File>>): (r: Result<Catalog, string>)
    requires listing.Some? ==> forall f :: f in listing.value && f.data.Some? ==> WellTyped(f.data.value)
    ensures r.Failure? <==> listing.None?
    ensures r.Failure? ==> r.error == "Strategies directory not found: " + dir
    ensures r.Success? ==> Valid(r.value)
  {
    match listing
    case None => Failure("Strategies directory not found: " + dir)
    case Some(fs) =>
      LoadAllValid(fs, Build);
      Success(LoadAll(fs, Build))
  }

  /** A key is loaded exactly when a listed ".json" file with parseable, non-null content
      has that key; the record kept is that of the last such file in listing order. */
  lemma LoadGet(dir: string, fs: seq<File>, k: string)
    requires forall f :: f in fs && f.data.Some? ==> WellTyped(f.data.value)
    ensures Get(Load(dir, Some(fs)).value, k).Some? <==>
      exists i :: 0 <= i < |fs| && EndsWithJson(fs[i].name) && Key(fs[i].name) == k &&
                  fs[i].data.Some? && !fs[i].data.value.JNull?
    ensures Get(Load(dir, Some(fs)).value, k).Some? ==>
      exists i :: 0 <= i < |fs| && Build(fs[i]) == Get(Load(dir, Some(fs)).value, k) &&
                  forall j :: i < j < |fs| ==> Build(fs[j]).None? || Build(fs[j]).value.key != k
  {
    LoadAllGet(fs, Build, k);
    forall i | 0 <= i < |fs|
      ensures Yields(fs, Build, i, k) <==>
        EndsWithJson(fs[i].name) && Key(fs[i].name) == k && fs[i].data.Some? && !fs[i].data.value.JNull?
    {
    }
  }
}
