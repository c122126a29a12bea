/** The declarative argument schemas of the TypeScript server and the two helpers that
    apply them. A schema is a list of field rules; parsing an object keeps the declared
    fields (filling defaults) and drops the rest, and a rejection names the paths of the
    failing fields, the top level as the empty path. */
module ValidationSchemas {
  import opened Wrappers
  import opened Text
  import opened Json
  import Catalog
  import Workflow

  /** A character of the strategy-key pattern `^[a-zA-Z0-9_-]+$`. */
  predicate KeyChar(c: char) {
    ('a' <= c <= 'z') || ('A' <= c <= 'Z') || ('0' <= c <= '9') || c == '_' || c == '-'
  }

  predicate ValidKey(s: string) {
    |s| > 0 && forall i :: 0 <= i < |s| ==> KeyChar(s[i])
  }

  /** What one field's value must be. `Str(0)` is a plain string. */
  datatype Rule =
    | Str(min: nat)
    | Key
    | OneOf(values: seq<string>)
    | StringList(min: nat)
    | KeyList
    | Template
    | Exactly(literal: string)
    | StringOrNumber
    | Anything

  predicate Accepts(rule: Rule, v: Json) {
    match rule
    case Str(min) => v.JStr? && |v.s| >= min
    case Key => v.JStr? && ValidKey(v.s)
    case OneOf(values) => v.JStr? && v.s in values
    case StringList(min) => IsStringArray(v) && |v.items| >= min
    case KeyList => v.JArr? && forall i :: 0 <= i < |v.items| ==> v.items[i].JStr? && ValidKey(v.items[i].s)
    case Template => v.JStr? && |v.s| >= 50 && Contains(v.s, Catalog.Placeholder)
    case Exactly(literal) => v == JStr(literal)
    case StringOrNumber => v.JStr? || v.JNum?
    case Anything => true
  }

  /** Whether an absent field is an error, allowed, or replaced by a default. */
  datatype Presence = Required | Optional | Default(value: Json)

  datatype Spec = Spec(name: string, rule: Rule, presence: Presence)

  function SpecNames(specs: seq<Spec>): (r: seq<string>)
    ensures |r| == |specs| && forall i :: 0 <= i < |specs| ==> r[i] == specs[i].name
  {
    if |specs| == 0 then [] else [specs[0].name] + SpecNames(specs[1..])
  }

  /** One declared field of an object passes its rule (a JSON `null` is a value, not an
      absence). */
  predicate FieldOk(fields: seq<(string, Json)>, spec: Spec) {
    match Field(fields, spec.name)
    case None => !spec.presence.Required?
    case Some(v) => Accepts(spec.rule, v)
  }

  /** The names of the failing fields, in declaration order. */
  function Failing(specs: seq<Spec>, fields: seq<(string, Json)>): (r: seq<string>)
    ensures |r| == 0 <==> forall i :: 0 <= i < |specs| ==> FieldOk(fields, specs[i])
    ensures forall i :: 0 <= i < |specs| && !FieldOk(fields, specs[i]) ==> specs[i].name in r
    ensures forall k :: 0 <= k < |r| ==> (exists i :: 0 <= i < |specs| && !FieldOk(fields, specs[i]) && r[k] == specs[i].name)
    decreases |specs|
  {
    if |specs| == 0 then []
    else
      var rest := Failing(specs[1..], fields);
      assert forall i :: 1 <= i < |specs| ==> specs[1..][i - 1] == specs[i];
      if FieldOk(fields, specs[0]) then rest else [specs[0].name] + rest
  }

  /** What the parsed object holds under a declared field. */
  function Resolved(fields: seq<(string, Json)>, spec: Spec): Option<Json> {
    match Field(fields, spec.name)
    case Some(v) => Some(v)
    case None => if spec.presence.Default? then Some(spec.presence.value) else None
  }

  /** The parsed object's fields: the declared ones, in declaration order. */
  function Output(specs: seq<Spec>, fields: seq<(string, Json)>): (r: seq<(string, Json)>)
    ensures forall k :: 0 <= k < |r| ==> r[k].0 in SpecNames(specs)
    decreases |specs|
  {
    if |specs| == 0 then []
    else
      var head := match Resolved(fields, specs[0]) case Some(v) => [(specs[0].name, v)] case None => [];
      head + Output(specs[1..], fields)
  }

  /** `schema.safeParse(input)`: an object whose declared fields all pass is accepted
      and reduced to its declared fields; anything else is rejected with the failing
      paths. */
  function Parse(specs: seq<Spec>, input: Json): (r: Result<Json, seq<string>>)
    ensures r.Success? <==> input.JObj? && forall i :: 0 <= i < |specs| ==> FieldOk(input.fields, specs[i])
    ensures !input.JObj? ==> r == Failure([""])
    ensures input.JObj? && r.Failure? ==> r.error == Failing(specs, input.fields)
    ensures r.Success? ==> r.value.JObj?
  {
    if !input.JObj? then Failure([""])
    else
      var bad := Failing(specs, input.fields);
      if |bad| > 0 then Failure(bad) else Success(JObj(Output(specs, input.fields)))
  }

  const NonEmpty := Str(1)
  const UserPrompt := Spec("user_prompt", NonEmpty, Required)
  const CollectionActions := ["create", "delete", "add_strategy", "remove_strategy", "update"]
  const Sources := ["all", "built-in", "custom"]

  const GetStrategyDetailsSchema := [Spec("strategy", Key, Required)]
  const ManageCollectionSchema := [
    Spec("action", OneOf(CollectionActions), Required),
    Spec("collection", Key, Required),
    Spec("name", Str(0), Optional),
    Spec("description", Str(0), Optional),
    Spec("strategy", Key, Optional)]

  const UserPromptSchema := [UserPrompt]
  const AutoRefineSchema := [UserPrompt, Spec("source", OneOf(Sources), Optional), Spec("collection", Str(0), Optional)]
  const CompareRefinementsSchema := [UserPrompt, Spec("strategies", Str(0), Optional)]
  const ExecuteRefinementSchema := [Spec("metaprompt_results", NonEmpty, Required), Spec("original_prompt", NonEmpty, Required)]
  const Step2GetStrategiesSchema := [Spec("category_name", NonEmpty, Required), UserPrompt]
  const Step3ExecuteStrategySchema := [Spec("strategy_key", Key, Required), UserPrompt]

  const CustomStrategySchema := [
    Spec("name", NonEmpty, Required),
    Spec("description", Str(10), Required),
    Spec("template", Template, Required),
    Spec("examples", StringList(1), Required),
    Spec("complexity", OneOf(Catalog.Levels), Default(JStr("Medium"))),
    Spec("timeInvestment", OneOf(Catalog.Levels), Default(JStr("Medium"))),
    Spec("triggers", StringList(0), Optional),
    Spec("bestFor", StringList(0), Optional),
    Spec("customCategory", Str(0), Optional)]

  const CategoryMetadataSchema := [Spec("description", Str(0), Required), Spec("use_cases", StringList(1), Required)]

  const CollectionSchema := [
    Spec("name", NonEmpty, Required),
    Spec("description", NonEmpty, Required),
    Spec("strategies", KeyList, Required),
    Spec("created", Str(0), Optional),
    Spec("updated", Str(0), Optional)]

  const McpRequestSchema := [
    Spec("jsonrpc", Exactly("2.0"), Optional),
    Spec("id", StringOrNumber, Required),
    Spec("method", Str(0), Required),
    Spec("params", Anything, Optional)]

  const ToolNames := ["list_strategies", "get_strategy_details", "discover_strategies", "get_performance_metrics",
                      "health_check", "list_custom_strategies", "list_collections", "manage_collection"]

  /** The tool schema table; six tools take no arguments. */
  function ToolSchema(tool: string): (r: Option<seq<Spec>>)
    ensures r.Some? <==> tool in ToolNames
  {
    if tool == "get_strategy_details" then Some(GetStrategyDetailsSchema)
    else if tool == "manage_collection" then Some(ManageCollectionSchema)
    else if tool in ToolNames then Some([])
    else None
  }

  const PromptNames := ["auto_refine", "compare_refinements", "prepare_refinement", "execute_refinement",
                        "step1_get_categories", "step2_get_strategies", "step3_execute_strategy"]

  function PromptSchema(prompt: string): (r: Option<seq<Spec>>)
    ensures r.Some? <==> prompt in PromptNames
  {
    match prompt
    case "auto_refine" => Some(AutoRefineSchema)
    case "compare_refinements" => Some(CompareRefinementsSchema)
    case "prepare_refinement" => Some(UserPromptSchema)
    case "execute_refinement" => Some(ExecuteRefinementSchema)
    case "step1_get_categories" => Some(UserPromptSchema)
    case "step2_get_strategies" => Some(Step2GetStrategiesSchema)
    case "step3_execute_strategy" => Some(Step3ExecuteStrategySchema)
    case _ => None
  }

  /** Why a call was refused. `Invalid` carries the failing paths; `wrapped` says the
      message is prefixed with "Validation failed: " rather than being the parser's own. */
  datatype Rejection = UnknownTool(tool: string) | UnknownPrompt(prompt: string) | Invalid(paths: seq<string>, wrapped: bool)

  /** The thrown message, given the parser's own text for an invalid input. */
  function Message(r: Rejection, parserText: string): string {
    match r
    case UnknownTool(t) => "Unknown tool: " + t
    case UnknownPrompt(p) => "Unknown prompt: " + p
    case Invalid(_, wrapped) => if wrapped then "Validation failed: " + parserText else parserText
  }

  /** `validateToolInput`. */
  function ValidateToolInput(tool: string, input: Json): (r: Result<Json, Rejection>)
    ensures r == Failure(UnknownTool(tool)) <==> tool !in ToolNames
    ensures tool in ToolNames ==>
      (r.Success? <==> input.JObj? && forall i :: 0 <= i < |ToolSchema(tool).value| ==> FieldOk(input.fields, ToolSchema(tool).value[i]))
    ensures r.Failure? && tool in ToolNames ==> r.error.Invalid? && r.error.wrapped
  {
    match ToolSchema(tool)
    case None => Failure(UnknownTool(tool))
    case Some(specs) =>
      match Parse(specs, input)
      case Success(data) => Success(data)
      case Failure(paths) => Failure(Invalid(paths, true))
  }

  /** `validatePromptArgs`: any `refine_with_` name is checked only for its user prompt,
      and its rejection is the parser's own error. */
  function ValidatePromptArgs(prompt: string, args: Json): (r: Result<Json, Rejection>)
    ensures IsPrefix(Workflow.RefinePrefix, prompt) ==> r.Failure? ==> r.error.Invalid? && !r.error.wrapped
    ensures !IsPrefix(Workflow.RefinePrefix, prompt) ==> (r == Failure(UnknownPrompt(prompt)) <==> prompt !in PromptNames)
    ensures !IsPrefix(Workflow.RefinePrefix, prompt) && r.Failure? && r.error.Invalid? ==> r.error.wrapped
  {
    if IsPrefix(Workflow.RefinePrefix, prompt) then
      match Parse(UserPromptSchema, args)
      case Success(data) => Success(data)
      case Failure(paths) => Failure(Invalid(paths, false))
    else
      match PromptSchema(prompt)
      case None => Failure(UnknownPrompt(prompt))
      case Some(specs) =>
        match Parse(specs, args)
        case Success(data) => Success(data)
        case Failure(paths) => Failure(Invalid(paths, true))
  }

  /** Two field lists that read the same under every declared name parse alike. */
  lemma {:induction false} SameLookups(specs: seq<Spec>, a: seq<(string, Json)>, b: seq<(string, Json)>)
    requires forall i :: 0 <= i < |specs| ==> Field(a, specs[i].name) == Field(b, specs[i].name)
    ensures Failing(specs, a) == Failing(specs, b)
    ensures Output(specs, a) == Output(specs, b)
  {
    SameFailing(specs, a, b);
    SameOutput(specs, a, b);
  }

  lemma {:induction false} SameFailing(specs: seq<Spec>, a: seq<(string, Json)>, b: seq<(string, Json)>)
    requires forall i :: 0 <= i < |specs| ==> Field(a, specs[i].name) == Field(b, specs[i].name)
    ensures Failing(specs, a) == Failing(specs, b)
    decreases |specs|
  {
    if |specs| > 0 {
      SameLookupsTail(specs, a, b);
      SameFailing(specs[1..], a, b);
      assert Field(a, specs[0].name) == Field(b, specs[0].name);
    }
  }

  lemma {:induction false} SameOutput(specs: seq<Spec>, a: seq<(string, Json)>, b: seq<(string, Json)>)
    requires forall i :: 0 <= i < |specs| ==> Field(a, specs[i].name) == Field(b, specs[i].name)
    ensures Output(specs, a) == Output(specs, b)
    decreases |specs|
  {
    if |specs| > 0 {
      SameLookupsTail(specs, a, b);
      SameOutput(specs[1..], a, b);
      assert Field(a, specs[0].name) == Field(b, specs[0].name);
    }
  }

  lemma SameLookupsTail(specs: seq<Spec>, a: seq<(string, Json)>, b: seq<(string, Json)>)
    requires |specs| > 0
    requires forall i :: 0 <= i < |specs| ==> Field(a, specs[i].name) == Field(b, specs[i].name)
    ensures forall i :: 0 <= i < |specs[1..]| ==> Field(a, specs[1..][i].name) == Field(b, specs[1..][i].name)
  {
    forall i | 0 <= i < |specs[1..]|
      ensures Field(a, specs[1..][i].name) == Field(b, specs[1..][i].name)
    {
      assert specs[1..][i] == specs[i + 1];
    }
  }

  /** Undeclared fields are ignored: adding one changes neither the verdict nor the
      parsed object. */
  lemma ExtraFieldIgnored(specs: seq<Spec>, fields: seq<(string, Json)>, k: string, v: Json)
    requires k !in SpecNames(specs)
    ensures Parse(specs, JObj(fields + [(k, v)])) == Parse(specs, JObj(fields))
  {
    forall i | 0 <= i < |specs|
      ensures Field(fields + [(k, v)], specs[i].name) == Field(fields, specs[i].name)
    {
      FieldConcat(fields, [(k, v)], specs[i].name);
    }
    SameLookups(specs, fields + [(k, v)], fields);
  }

  /** The parsed object reads a declared field whose name no other field shares as the
      input does, or as its default. */
  lemma {:induction false} OutputAt(specs: seq<Spec>, fields: seq<(string, Json)>, i: nat)
    requires i < |specs|
    requires forall j :: 0 <= j < |specs| && j != i ==> specs[j].name != specs[i].name
    ensures Field(Output(specs, fields), specs[i].name) == Resolved(fields, specs[i])
    decreases |specs|
  {
    var n := specs[i].name;
    OutputCons(specs, fields, n);
    forall j | 0 <= j < |specs| - 1 ensures specs[1..][j] == specs[j + 1] { }
    if i == 0 {
      OutputMissing(specs[1..], fields, n);
    } else {
      OutputAt(specs[1..], fields, i - 1);
    }
  }

  /** The parsed object's first field comes from the first declared field, and a later
      field of the same name wins. */
  lemma OutputCons(specs: seq<Spec>, fields: seq<(string, Json)>, n: string)
    requires |specs| > 0
    ensures var rest := Field(Output(specs[1..], fields), n);
      Field(Output(specs, fields), n) ==
        if rest.Some? then rest else if specs[0].name == n then Resolved(fields, specs[0]) else None
  {
    var head := match Resolved(fields, specs[0]) case Some(v) => [(specs[0].name, v)] case None => [];
    FieldConcat(head, Output(specs[1..], fields), n);
  }

  /** A name no spec declares is absent from the parsed object. */
  lemma OutputMissing(specs: seq<Spec>, fields: seq<(string, Json)>, n: string)
    requires forall j :: 0 <= j < |specs| ==> specs[j].name != n
    ensures Field(Output(specs, fields), n).None?
  {
    var r := Output(specs, fields);
    forall k | 0 <= k < |r| ensures r[k].0 != n {
      var names := SpecNames(specs);
      var j :| 0 <= j < |names| && names[j] == r[k].0;
    }
  }

  /** Every default passes its own field's rule. */
  predicate DefaultsPass(specs: seq<Spec>) {
    forall i :: 0 <= i < |specs| && specs[i].presence.Default? ==> Accepts(specs[i].rule, specs[i].presence.value)
  }

  lemma {:induction false} SameResolved(specs: seq<Spec>, a: seq<(string, Json)>, b: seq<(string, Json)>)
    requires forall i :: 0 <= i < |specs| ==> Resolved(a, specs[i]) == Resolved(b, specs[i])
    ensures Output(specs, a) == Output(specs, b)
    decreases |specs|
  {
    if |specs| > 0 {
      assert forall i :: 1 <= i < |specs| ==> specs[1..][i - 1] == specs[i];
      SameResolved(specs[1..], a, b);
    }
  }

  /** Parsing is idempotent: the parsed object parses to itself. */
  lemma ParseIdempotent(specs: seq<Spec>, input: Json)
    requires Catalog.Distinct(SpecNames(specs)) && DefaultsPass(specs)
    requires Parse(specs, input).Success?
    ensures Parse(specs, Parse(specs, input).value) == Parse(specs, input)
  {
    var fields := input.fields;
    var out := Output(specs, fields);
    forall i | 0 <= i < |specs|
      ensures Field(out, specs[i].name) == Resolved(fields, specs[i])
      ensures FieldOk(out, specs[i])
      ensures Resolved(out, specs[i]) == Resolved(fields, specs[i])
    {
      forall j | 0 <= j < |specs| && j != i ensures specs[j].name != specs[i].name {
        assert SpecNames(specs)[j] != SpecNames(specs)[i];
      }
      OutputAt(specs, fields, i);
      assert FieldOk(fields, specs[i]);
    }
    SameResolved(specs, out, fields);
  }

  /** A string of at least `n` characters under `key`. */
  predicate TextAtLeast(fields: seq<(string, Json)>, key: string, n: nat) {
    Field(fields, key).Some? && Field(fields, key).value.JStr? && |Field(fields, key).value.s| >= n
  }

  /** A non-empty string under `key`. */
  predicate FilledText(fields: seq<(string, Json)>, key: string) {
    TextAtLeast(fields, key, 1)
  }

  /** Nothing under `key`, or a string. */
  predicate NoneOrText(fields: seq<(string, Json)>, key: string) {
    Field(fields, key).None? || Field(fields, key).value.JStr?
  }

  /** Nothing under `key`, or a level name. */
  predicate NoneOrLevel(fields: seq<(string, Json)>, key: string) {
    Field(fields, key).None? || (Field(fields, key).value.JStr? && Field(fields, key).value.s in Catalog.Levels)
  }

  /** Nothing under `key`, or an array of strings. */
  predicate NoneOrStrings(fields: seq<(string, Json)>, key: string) {
    Field(fields, key).None? || IsStringArray(Field(fields, key).value)
  }

  /** Any `refine_with_` prompt needs exactly a non-empty user prompt, and passes on only
      that field. */
  lemma RefineWithNeedsOnlyUserPrompt(prompt: string, args: Json)
    requires IsPrefix(Workflow.RefinePrefix, prompt)
    ensures ValidatePromptArgs(prompt, args).Success? <==> args.JObj? && FilledText(args.fields, "user_prompt")
    ensures ValidatePromptArgs(prompt, args).Success? ==>
      ValidatePromptArgs(prompt, args).value == JObj([("user_prompt", Field(args.fields, "user_prompt").value)])
  {
    if args.JObj? && FilledText(args.fields, "user_prompt") {
      var v := Field(args.fields, "user_prompt").value;
      assert Output(UserPromptSchema, args.fields) == [("user_prompt", v)] + Output([], args.fields);
    }
  }

  /** `execute_refinement` needs both the metaprompt results and the original prompt. */
  lemma ExecuteRefinementNeedsBoth(args: Json)
    ensures ValidatePromptArgs("execute_refinement", args).Success? <==>
      args.JObj? && FilledText(args.fields, "metaprompt_results") && FilledText(args.fields, "original_prompt")
  {
    assert !IsPrefix(Workflow.RefinePrefix, "execute_refinement") by {
      assert "execute_refinement"[0] != Workflow.RefinePrefix[0];
    }
    if args.JObj? {
      var S := ExecuteRefinementSchema;
      assert (forall i :: 0 <= i < |S| ==> FieldOk(args.fields, S[i])) <==>
        FieldOk(args.fields, S[0]) && FieldOk(args.fields, S[1]);
    }
  }

  /** `manage_collection` needs one of the five actions and a valid collection key; a
      strategy, when given, must be a valid key too. */
  lemma ManageCollectionRule(input: Json)
    ensures ValidateToolInput("manage_collection", input).Success? <==>
      input.JObj? &&
      (var fs := input.fields;
       (Field(fs, "action").Some? && Field(fs, "action").value.JStr? && Field(fs, "action").value.s in CollectionActions) &&
       (Field(fs, "collection").Some? && Field(fs, "collection").value.JStr? && ValidKey(Field(fs, "collection").value.s)) &&
       NoneOrText(fs, "name") && NoneOrText(fs, "description") &&
       (Field(fs, "strategy").None? || (Field(fs, "strategy").value.JStr? && ValidKey(Field(fs, "strategy").value.s))))
  {
    if input.JObj? {
      var S := ManageCollectionSchema;
      assert (forall i :: 0 <= i < |S| ==> FieldOk(input.fields, S[i])) <==>
        FieldOk(input.fields, S[0]) && FieldOk(input.fields, S[1]) && FieldOk(input.fields, S[2]) &&
        FieldOk(input.fields, S[3]) && FieldOk(input.fields, S[4]);
    }
  }

  /** A custom strategy: a non-empty name, a description of at least 10 characters, a
      template of at least 50 characters holding the placeholder, at least one example,
      and levels (when given) from the four. */
  lemma CustomStrategyRule(input: Json)
    ensures Parse(CustomStrategySchema, input).Success? <==>
      input.JObj? &&
      (var fs := input.fields;
       FilledText(fs, "name") && TextAtLeast(fs, "description", 10) &&
       TextAtLeast(fs, "template", 50) && Contains(Field(fs, "template").value.s, Catalog.Placeholder) &&
       (Field(fs, "examples").Some? && IsStringArray(Field(fs, "examples").value) && |Field(fs, "examples").value.items| >= 1) &&
       NoneOrLevel(fs, "complexity") && NoneOrLevel(fs, "timeInvestment") &&
       NoneOrStrings(fs, "triggers") && NoneOrStrings(fs, "bestFor") && NoneOrText(fs, "customCategory"))
  {
    if input.JObj? {
      var fs := input.fields;
      NineFields(fs, CustomStrategySchema);
      CustomRequiredFields(fs);
      CustomOptionalFields(fs);
    }
  }

  /** Every field of a nine-field schema is accepted exactly when each one is. */
  lemma NineFields(fs: seq<(string, Json)>, S: seq<Spec>)
    requires |S| == 9
    ensures (forall i :: 0 <= i < |S| ==> FieldOk(fs, S[i])) <==>
      FieldOk(fs, S[0]) && FieldOk(fs, S[1]) && FieldOk(fs, S[2]) && FieldOk(fs, S[3]) && FieldOk(fs, S[4]) &&
      FieldOk(fs, S[5]) && FieldOk(fs, S[6]) && FieldOk(fs, S[7]) && FieldOk(fs, S[8])
  {
    if FieldOk(fs, S[0]) && FieldOk(fs, S[1]) && FieldOk(fs, S[2]) && FieldOk(fs, S[3]) && FieldOk(fs, S[4]) &&
       FieldOk(fs, S[5]) && FieldOk(fs, S[6]) && FieldOk(fs, S[7]) && FieldOk(fs, S[8]) {
      forall i | 0 <= i < |S| ensures FieldOk(fs, S[i]) {
        assert i in {0, 1, 2, 3, 4, 5, 6, 7, 8};
      }
    }
  }

  lemma CustomRequiredFields(fs: seq<(string, Json)>)
    ensures FieldOk(fs, CustomStrategySchema[0]) <==> FilledText(fs, "name")
    ensures FieldOk(fs, CustomStrategySchema[1]) <==> TextAtLeast(fs, "description", 10)
    ensures FieldOk(fs, CustomStrategySchema[2]) <==>
      TextAtLeast(fs, "template", 50) && Contains(Field(fs, "template").value.s, Catalog.Placeholder)
    ensures FieldOk(fs, CustomStrategySchema[3]) <==>
      Field(fs, "examples").Some? && IsStringArray(Field(fs, "examples").value) && |Field(fs, "examples").value.items| >= 1
  {
  }

  lemma CustomOptionalFields(fs: seq<(string, Json)>)
    ensures FieldOk(fs, CustomStrategySchema[4]) <==> NoneOrLevel(fs, "complexity")
    ensures FieldOk(fs, CustomStrategySchema[5]) <==> NoneOrLevel(fs, "timeInvestment")
    ensures FieldOk(fs, CustomStrategySchema[6]) <==> NoneOrStrings(fs, "triggers")
    ensures FieldOk(fs, CustomStrategySchema[7]) <==> NoneOrStrings(fs, "bestFor")
    ensures FieldOk(fs, CustomStrategySchema[8]) <==> NoneOrText(fs, "customCategory")
  {
  }

  /** A custom strategy that gives no complexity is parsed with complexity "Medium". */
  lemma CustomStrategyDefaultsComplexity(input: Json)
    requires Parse(CustomStrategySchema, input).Success? && Field(input.fields, "complexity").None?
    ensures Field(Parse(CustomStrategySchema, input).value.fields, "complexity") == Some(JStr("Medium"))
  {
    var S := CustomStrategySchema;
    OutputAt(S, input.fields, 4);
  }
}
