/** The recursive schema checker for strategy files and category metadata: a parsed
    JSON value against a small JSON-Schema-like description, collecting one message per
    problem. A property check that reaches `in` on `null` throws, and the top level turns
    the throw into a final "Validation failed" message. */
module SchemaValidator {
  import opened Wrappers
  import opened Text
  import opened Json
  import Catalog

  /** A schema: an omitted `minLength` is 0 (falsy, so unchecked); an omitted
      `required` list is empty; `hasProperties` says whether `properties` is given, and
      `properties` lists them in declaration order. */
  datatype Schema = Schema(
    typ: string,
    minLength: nat,
    choices: Option<seq<string>>,
    items: Option<Schema>,
    required: seq<string>,
    hasProperties: bool,
    properties: seq<(string, Schema)>)

  function Leaf(typ: string): Schema {
    Schema(typ, 0, None, None, [], false, [])
  }

  function StringArray(): Schema {
    Schema("array", 0, None, Some(Leaf("string")), [], false, [])
  }

  const StrategySchema := Schema("object", 0, None, None, ["name", "template"], true, [
    ("name", Schema("string", 1, None, None, [], false, [])),
    ("description", Leaf("string")),
    ("examples", StringArray()),
    ("template", Schema("string", 1, None, None, [], false, [])),
    ("complexity", Schema("string", 0, Some(Catalog.Levels), None, [], false, [])),
    ("time_investment", Schema("string", 0, Some(Catalog.Levels), None, [], false, [])),
    ("triggers", StringArray()),
    ("best_for", StringArray())])

  const StrategyEntrySchema := Schema("object", 0, None, None, ["key", "name", "description"], true, [
    ("key", Schema("string", 1, None, None, [], false, [])),
    ("name", Schema("string", 1, None, None, [], false, [])),
    ("description", Schema("string", 1, None, None, [], false, [])),
    ("best_for", StringArray()),
    ("complexity", Leaf("string")),
    ("time_investment", Leaf("string")),
    ("triggers", StringArray()),
    ("output_focus", Leaf("string"))])

  const CategoryMetadataSchema := Schema("object", 0, None, None, ["category", "description"], true, [
    ("category", Schema("string", 1, None, None, [], false, [])),
    ("description", Schema("string", 1, None, None, [], false, [])),
    ("use_cases", StringArray()),
    ("strategies", Schema("array", 0, None, Some(StrategyEntrySchema), [], false, []))])

  /** `Array.isArray(v) ? 'array' : typeof v`. */
  function ActualType(v: Json): string {
    if v.JArr? then "array" else TypeOf(v)
  }

  /** The `in` operator on an object or an array (own properties only). */
  predicate HasProperty(v: Json, key: string) {
    match v
    case JObj(fs) => Field(fs, key).Some?
    case JArr(items) => key == "length" || exists i | 0 <= i < |items| :: key == NatToString(i)
    case _ => false
  }

  /** The engine's message for `key in null`. */
  function InNullMessage(key: string): string {
    "Cannot use 'in' operator to search for '" + key + "' in null"
  }

  /** The messages of one property check, or what it threw. */
  datatype Check = Done(errors: seq<string>) | Threw(message: string)

  function Then(a: Check, b: Check): (r: Check)
    ensures a.Threw? ==> r == a
    ensures a.Done? && b.Threw? ==> r == b
    ensures a.Done? && b.Done? ==> r == Done(a.errors + b.errors)
  {
    if a.Threw? then a else if b.Threw? then b else Done(a.errors + b.errors)
  }

  function MissingMessage(context: string, field: string): string {
    context + " missing required field: " + field
  }

  /** One message per required field the value lacks, in the listed order. */
  function Missing(v: Json, required: seq<string>, context: string): (r: seq<string>)
    ensures |r| <= |required|
    ensures forall f :: f in required && !HasProperty(v, f) ==> MissingMessage(context, f) in r
    ensures forall i :: 0 <= i < |r| ==>
      exists f :: f in required && !HasProperty(v, f) && r[i] == MissingMessage(context, f)
    decreases |required|
  {
    if |required| == 0 then []
    else
      (if HasProperty(v, required[0]) then [] else [MissingMessage(context, required[0])])
      + Missing(v, required[1..], context)
  }

  /** `validateProperty`. */
  function CheckValue(v: Json, s: Schema, context: string): (r: Check)
    ensures ActualType(v) != s.typ ==> r == Done([context + " expected " + s.typ + ", got " + ActualType(v)])
    decreases s, 2, 0
  {
    if ActualType(v) != s.typ then Done([context + " expected " + s.typ + ", got " + ActualType(v)])
    else
      var stringErrors :=
        if s.typ == "string" then
          (if s.minLength > 0 && |v.s| < s.minLength
           then [context + " must be at least " + NatToString(s.minLength) + " characters long"] else [])
          + (if s.choices.Some? && v.s !in s.choices.value
             then [context + " must be one of: " + Join(s.choices.value, ", ")] else [])
        else [];
      var arrayErrors :=
        if s.typ == "array" && s.items.Some? then CheckItems(v.items, 0, s.items.value, context) else Done([]);
      var objectErrors :=
        if s.typ == "object" && s.hasProperties then
          if v.JNull? then
            if |s.required| > 0 then Threw(InNullMessage(s.required[0]))
            else if |s.properties| > 0 then Threw(InNullMessage(s.properties[0].0))
            else Done([])
          else Then(Done(Missing(v, s.required, context)), CheckProperties(v, s.properties, s, context))
        else Done([]);
      Then(Then(Done(stringErrors), arrayErrors), objectErrors)
  }

  /** The context of an array item: `context[i]`. */
  function ItemContext(context: string, i: nat): string {
    context + "[" + NatToString(i) + "]"
  }

  /** `value.forEach` over the items from index `i`, each under `context[i]`. */
  function CheckItems(items: seq<Json>, i: nat, item: Schema, context: string): Check
    requires i <= |items|
    decreases item, 3, |items| - i
  {
    if i == |items| then Done([])
    else Then(CheckValue(items[i], item, ItemContext(context, i)), CheckItems(items, i + 1, item, context))
  }

  /** The declared properties the value has, checked in declaration order; the others
      are ignored. */
  function CheckProperties(v: Json, props: seq<(string, Schema)>, parent: Schema, context: string): Check
    requires forall i :: 0 <= i < |props| ==> props[i].1 < parent
    decreases parent, 1, |props|
  {
    if |props| == 0 then Done([])
    else
      var (name, s) := props[0];
      var first :=
        if HasProperty(v, name) && v.JObj? then CheckValue(Field(v.fields, name).value, s, context + "." + name)
        else Done([]);
      Then(first, CheckProperties(v, props[1..], parent, context))
  }

  datatype Verdict = Verdict(valid: bool, errors: seq<string>)

  /** The top-level property loop: each completed check's messages are kept even if a
      later one throws, in which case the loop stops there. */
  function TopProperties(data: Json, props: seq<(string, Schema)>, context: string): (r: (seq<string>, Option<string>))
    decreases |props|
  {
    if |props| == 0 then ([], None)
    else
      var (name, s) := props[0];
      var first :=
        if HasProperty(data, name) && data.JObj? then CheckValue(Field(data.fields, name).value, s, context + "." + name)
        else Done([]);
      match first
      case Threw(m) => ([], Some(m))
      case Done(es) =>
        var rest := TopProperties(data, props[1..], context);
        (es + rest.0, rest.1)
  }

  /** `validate`: a non-object (or null) value gets exactly one message; otherwise the
      missing required fields, then the present declared properties, and a thrown check
      ends the list with "Validation failed". Valid exactly when there is no message. */
  function Validate(data: Json, s: Schema, context: string): (r: Verdict)
    ensures r.valid <==> |r.errors| == 0
    ensures s.typ == "object" && (TypeOf(data) != "object" || data.JNull?) ==> r.errors == [context + " must be an object"]
  {
    if s.typ == "object" && (TypeOf(data) != "object" || data.JNull?) then Verdict(false, [context + " must be an object"])
    else
      var missing := Missing(data, s.required, context);
      var checked := if s.hasProperties then TopProperties(data, s.properties, context) else ([], None);
      var errors := missing + checked.0 + (if checked.1.Some? then ["Validation failed: " + checked.1.value] else []);
      Verdict(|errors| == 0, errors)
  }

  /** Two objects that agree on every field a schema names. */
  predicate AgreeOn(a: seq<(string, Json)>, b: seq<(string, Json)>, s: Schema) {
    (forall f :: f in s.required ==> Field(a, f) == Field(b, f)) &&
    (forall i :: 0 <= i < |s.properties| ==> Field(a, s.properties[i].0) == Field(b, s.properties[i].0))
  }

  lemma {:induction false} MissingAgrees(a: seq<(string, Json)>, b: seq<(string, Json)>, required: seq<string>, context: string)
    requires forall f :: f in required ==> Field(a, f) == Field(b, f)
    ensures Missing(JObj(a), required, context) == Missing(JObj(b), required, context)
    decreases |required|
  {
    if |required| > 0 {
      MissingAgrees(a, b, required[1..], context);
    }
  }

  lemma {:induction false} TopPropertiesAgree(a: seq<(string, Json)>, b: seq<(string, Json)>,
                                              props: seq<(string, Schema)>, context: string)
    requires forall i :: 0 <= i < |props| ==> Field(a, props[i].0) == Field(b, props[i].0)
    ensures TopProperties(JObj(a), props, context) == TopProperties(JObj(b), props, context)
    decreases |props|
  {
    if |props| > 0 {
      TopPropertiesAgree(a, b, props[1..], context);
    }
  }

  /** Only the fields a schema names matter: objects that agree on them get the same
      verdict, so extra fields are ignored. */
  lemma OnlyNamedFieldsMatter(a: seq<(string, Json)>, b: seq<(string, Json)>, s: Schema, context: string)
    requires AgreeOn(a, b, s)
    ensures Validate(JObj(a), s, context) == Validate(JObj(b), s, context)
  {
    MissingAgrees(a, b, s.required, context);
    TopPropertiesAgree(a, b, s.properties, context);
  }

  /** Appending an undeclared field leaves the verdict as it was. */
  lemma ExtraFieldIgnored(fs: seq<(string, Json)>, k: string, v: Json, s: Schema, context: string)
    requires k !in s.required && forall i :: 0 <= i < |s.properties| ==> s.properties[i].0 != k
    ensures Validate(JObj(fs + [(k, v)]), s, context) == Validate(JObj(fs), s, context)
  {
    var ext := fs + [(k, v)];
    assert ext[..|ext| - 1] == fs;
    OnlyNamedFieldsMatter(ext, fs, s, context);
  }

  /** Every absent required field of an object is reported, and makes it invalid. */
  lemma MissingFieldsReported(data: Json, s: Schema, context: string, f: string)
    requires data.JObj? && f in s.required && !HasProperty(data, f)
    ensures MissingMessage(context, f) in Validate(data, s, context).errors
    ensures !Validate(data, s, context).valid
  {
  }

  /** An object schema without property rules accepts exactly the objects that carry
      every required field. */
  lemma RequiredOnly(data: Json, s: Schema, context: string)
    requires s.typ == "object" && !s.hasProperties && data.JObj?
    ensures Validate(data, s, context).valid <==> forall f :: f in s.required ==> HasProperty(data, f)
  {
    if forall f :: f in s.required ==> HasProperty(data, f) {
      NothingMissing(data, s.required, context);
    }
  }

  lemma {:induction false} NothingMissing(v: Json, required: seq<string>, context: string)
    requires forall f :: f in required ==> HasProperty(v, f)
    ensures Missing(v, required, context) == []
    decreases |required|
  {
    if |required| > 0 {
      assert required[0] in required;
      NothingMissing(v, required[1..], context);
    }
  }

  lemma ThenClean(a: Check, b: Check)
    ensures Then(a, b) == Done([]) <==> a == Done([]) && b == Done([])
  {
  }

  /** One array item passes its check. */
  predicate ItemPasses(items: seq<Json>, j: nat, item: Schema, context: string)
    requires j < |items|
  {
    CheckValue(items[j], item, ItemContext(context, j)) == Done([])
  }

  /** The items of an array pass exactly when each item passes on its own. */
  lemma {:induction false} ItemsElementwise(items: seq<Json>, i: nat, item: Schema, context: string)
    requires i <= |items|
    ensures CheckItems(items, i, item, context) == Done([]) <==>
      forall j :: i <= j < |items| ==> ItemPasses(items, j, item, context)
    decreases |items| - i
  {
    if i < |items| {
      var first := CheckValue(items[i], item, ItemContext(context, i));
      var rest := CheckItems(items, i + 1, item, context);
      assert CheckItems(items, i, item, context) == Then(first, rest);
      ItemsElementwise(items, i + 1, item, context);
      ThenClean(first, rest);
      assert first == Done([]) <==> ItemPasses(items, i, item, context);
      if CheckItems(items, i, item, context) == Done([]) {
        forall j | i <= j < |items| ensures ItemPasses(items, j, item, context) {
          if j > i {
            assert ItemPasses(items, j, item, context);
          }
        }
      }
      if forall j :: i <= j < |items| ==> ItemPasses(items, j, item, context) {
        assert ItemPasses(items, i, item, context);
      }
    } else {
      assert CheckItems(items, i, item, context) == Done([]);
    }
  }

  /** When every present declared property passes, the property loop adds nothing. */
  lemma {:induction false} TopClean(data: Json, props: seq<(string, Schema)>, context: string)
    requires data.JObj?
    requires forall i :: 0 <= i < |props| && HasProperty(data, props[i].0) ==>
      CheckValue(Field(data.fields, props[i].0).value, props[i].1, context + "." + props[i].0) == Done([])
    ensures TopProperties(data, props, context) == ([], None)
    decreases |props|
  {
    if |props| > 0 {
      var (name, s) := props[0];
      if HasProperty(data, name) {
        assert CheckValue(Field(data.fields, name).value, s, context + "." + name) == Done([]);
      }
      assert forall i :: 1 <= i < |props| ==> props[1..][i - 1] == props[i];
      TopClean(data, props[1..], context);
      var first :=
        if HasProperty(data, name) && data.JObj? then CheckValue(Field(data.fields, name).value, s, context + "." + name)
        else Done([]);
      assert first == Done([]);
      assert TopProperties(data, props[1..], context) == ([], None);
      assert TopProperties(data, props, context).1 == None;
      assert TopProperties(data, props, context).0 == [];
    }
  }

  /** A key that occurs once reads its value. */
  lemma FieldAt(fields: seq<(string, Json)>, i: nat, k: string)
    requires i < |fields| && fields[i].0 == k
    requires forall j :: 0 <= j < |fields| && j != i ==> fields[j].0 != k
    ensures Field(fields, k) == Some(fields[i].1)
  {
  }

  /** The smallest strategy file: a non-empty name and template and nothing else. */
  lemma MinimalStrategyValid(name: string, template: string)
    requires |name| > 0 && |template| > 0
    ensures Validate(JObj([("name", JStr(name)), ("template", JStr(template))]), StrategySchema, "Strategy").valid
  {
    var data := JObj([("name", JStr(name)), ("template", JStr(template))]);
    MinimalFieldsPresent(name, template);
    MinimalPropertiesClean(name, template);
    ValidWhenClean(data, StrategySchema, "Strategy");
  }

  lemma MinimalFieldsPresent(name: string, template: string)
    ensures forall f :: f in StrategySchema.required ==>
      HasProperty(JObj([("name", JStr(name)), ("template", JStr(template))]), f)
  {
    var fs := [("name", JStr(name)), ("template", JStr(template))];
    assert Field(fs, "name") == Some(JStr(name));
    assert Field(fs, "template") == Some(JStr(template));
  }

  lemma MinimalPropertiesClean(name: string, template: string)
    requires |name| > 0 && |template| > 0
    ensures var fs := [("name", JStr(name)), ("template", JStr(template))];
      var props := StrategySchema.properties;
      forall i :: 0 <= i < |props| && HasProperty(JObj(fs), props[i].0) ==>
        CheckValue(Field(fs, props[i].0).value, props[i].1, "Strategy." + props[i].0) == Done([])
  {
    var fs := [("name", JStr(name)), ("template", JStr(template))];
    var props := StrategySchema.properties;
    forall i | 0 <= i < |props| && HasProperty(JObj(fs), props[i].0)
      ensures CheckValue(Field(fs, props[i].0).value, props[i].1, "Strategy." + props[i].0) == Done([])
    {
      assert props[i].0 == "name" || props[i].0 == "template";
      if props[i].0 == "name" {
        assert i == 0;
        LongEnoughString(name, 1, "Strategy.name");
      } else {
        assert i == 3;
        LongEnoughString(template, 1, "Strategy.template");
      }
    }
  }

  /** An object that has every required field and passes every present property's
      check is valid. */
  lemma ValidWhenClean(data: Json, s: Schema, context: string)
    requires s.typ == "object" && data.JObj? && s.hasProperties
    requires forall f :: f in s.required ==> HasProperty(data, f)
    requires forall i :: 0 <= i < |s.properties| && HasProperty(data, s.properties[i].0) ==>
      CheckValue(Field(data.fields, s.properties[i].0).value, s.properties[i].1, context + "." + s.properties[i].0) == Done([])
    ensures Validate(data, s, context).valid
  {
    NothingMissing(data, s.required, context);
    TopClean(data, s.properties, context);
  }

  /** A string at least as long as a plain string schema asks passes it. */
  lemma LongEnoughString(v: string, min: nat, context: string)
    requires |v| >= min
    ensures CheckValue(JStr(v), Schema("string", min, None, None, [], false, []), context) == Done([])
  {
  }

  /** A category file whose strategy list is `[null]`. */
  function NullEntryMeta(category: string, description: string): Json {
    JObj([("category", JStr(category)), ("description", JStr(description)), ("strategies", JArr([JNull]))])
  }

  /** A `null` entry in a category's strategy list makes the entry check throw on its
      first required field, which ends the messages with "Validation failed". */
  lemma NullStrategyEntryFails(category: string, description: string)
    requires |category| > 0 && |description| > 0
    ensures Validate(JObj([("category", JStr(category)), ("description", JStr(description)), ("strategies", JArr([JNull]))]),
                     CategoryMetadataSchema, "Metadata").errors
            == ["Validation failed: " + InNullMessage("key")]
  {
    var data := NullEntryMeta(category, description);
    NullEntryFields(category, description);
    NothingMissing(data, CategoryMetadataSchema.required, "Metadata");
    NullEntryTop(category, description);
  }

  /** Where the fields of that file are found. */
  lemma NullEntryFields(category: string, description: string)
    ensures var fs := NullEntryMeta(category, description).fields;
      Field(fs, "category") == Some(JStr(category)) && Field(fs, "description") == Some(JStr(description)) &&
      Field(fs, "strategies") == Some(JArr([JNull])) && Field(fs, "use_cases") == None
  {
    var fs := NullEntryMeta(category, description).fields;
    FieldAt(fs, 0, "category");
    FieldAt(fs, 1, "description");
    FieldAt(fs, 2, "strategies");
  }

  /** The property loop over that file passes the two strings and throws at the list. */
  lemma NullEntryTop(category: string, description: string)
    requires |category| > 0 && |description| > 0
    ensures TopProperties(NullEntryMeta(category, description), CategoryMetadataSchema.properties, "Metadata")
            == ([], Some(InNullMessage("key")))
  {
    var data := NullEntryMeta(category, description);
    var props := CategoryMetadataSchema.properties;
    var m := InNullMessage("key");
    NullEntryFields(category, description);
    NullEntryTail(category, description);
    assert CheckValue(JStr(description), props[1].1, "Metadata.description") == Done([]);
    assert TopProperties(data, props[1..], "Metadata") == ([], Some(m));
    assert CheckValue(JStr(category), props[0].1, "Metadata.category") == Done([]);
  }

  /** From `use_cases` on: absent, then the throwing list. */
  lemma NullEntryTail(category: string, description: string)
    ensures TopProperties(NullEntryMeta(category, description), CategoryMetadataSchema.properties[2..], "Metadata")
            == ([], Some(InNullMessage("key")))
  {
    var data := NullEntryMeta(category, description);
    var props := CategoryMetadataSchema.properties;
    NullEntryFields(category, description);
    NullListThrows();
    assert props[2..][1..] == props[3..] && props[3..][1..] == [];
    assert !HasProperty(data, "use_cases");
    assert TopProperties(data, props[3..], "Metadata") == ([], Some(InNullMessage("key")));
  }

  /** The strategy list `[null]` throws on the entry's first required field. */
  lemma NullListThrows()
    ensures CheckValue(JArr([JNull]), CategoryMetadataSchema.properties[3].1, "Metadata.strategies")
            == Threw(InNullMessage("key"))
  {
    var entry := CheckValue(JNull, StrategyEntrySchema, "Metadata.strategies[0]");
    assert entry == Threw(InNullMessage("key"));
    assert CheckItems([JNull], 0, StrategyEntrySchema, "Metadata.strategies") == entry;
  }
}
