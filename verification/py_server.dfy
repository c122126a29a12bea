/** The standalone Python MCP server (src/server.py): its own six-rule auto-selection,
    the one-bonus suitability and length-based complexity of `compare_strategies`, the
    error record of `refine_prompt`, and `handle_call_tool`, which turns every exception
    into "Error: ..." text. The catalog is the dictionary read from the metaprompt file,
    or the one-entry fallback when that file cannot be read. */
module PyServer {
  import opened Wrappers
  import opened Text
  import opened Catalog
  import opened Selection
  import opened ArgMax

  /** The f-string every decision of `auto_select_strategy` gives as its reason. */
  function ReasonFor(k: string): string {
    "Based on prompt analysis, '" + k + "' strategy is recommended"
  }

  /** The `if … elif … else` chain, in source order: the word-count test sits between
      the keyword rules for "math" and for "physics". */
  const Rules: seq<Rule> := [
    Rule(AnyOf(["story", "creative", "narrative"]), "star", ReasonFor("star")),
    Rule(AnyOf(["code", "technical", "implement"]), "verse", ReasonFor("verse")),
    Rule(AnyOf(["math", "proof", "theorem"]), "math", ReasonFor("math")),
    Rule(FewerWords(10), "morphosis", ReasonFor("morphosis")),
    Rule(AnyOf(["analyze", "compare", "evaluate"]), "physics", ReasonFor("physics"))
  ]

  const Default := Choice("star", ReasonFor("star"))

  /** The keys the chain can recommend. */
  const Recommendable: set<string> := {"star", "verse", "math", "morphosis", "physics"}

  /** `"verse" if recommended != "verse" else "star"`. */
  function Alternative(recommended: string): (a: string)
    ensures a != recommended
    ensures a == "verse" || a == "star"
  {
    if recommended != "verse" then "verse" else "star"
  }

  /** The detected type: only "story" and "code" are looked for. */
  function DetectType(promptLower: string): (t: string)
    ensures t == "creative" || t == "technical" || t == "general"
    ensures t == "creative" <==> Contains(promptLower, "story")
    ensures t == "technical" <==> !Contains(promptLower, "story") && Contains(promptLower, "code")
  {
    if Contains(promptLower, "story") then "creative"
    else if Contains(promptLower, "code") then "technical"
    else "general"
  }

  /** The dictionary `auto_select_strategy` returns. */
  datatype AutoSelection = AutoSelection(
    recommended: string,
    strategyName: string,
    reason: string,
    alternative: string,
    wordCount: nat,
    detectedType: string)

  /** `str(KeyError(k))` for a string key without quotes in it. */
  function KeyErrorText(k: string): string {
    "'" + k + "'"
  }

  /** `auto_select_strategy(prompt)`: the name is read as `metaprompts[recommended]["name"]`,
      so a recommendation the catalog lacks raises `KeyError`. */
  function AutoSelect(c: Catalog, prompt: string): (r: Result<AutoSelection, string>)
    ensures var d := Decide(Rules, Default, Lower(prompt), PyWordCount(prompt));
      && (r.Failure? <==> Get(c, d.key).None?)
      && (r.Failure? ==> r.error == KeyErrorText(d.key))
      && (r.Success? ==>
            && r.value.recommended == d.key
            && r.value.strategyName == Get(c, d.key).value.name
            && r.value.reason == ReasonFor(d.key)
            && r.value.alternative == Alternative(d.key)
            && r.value.wordCount == PyWordCount(prompt)
            && r.value.detectedType == DetectType(Lower(prompt)))
  {
    var lower := Lower(prompt);
    var words := PyWordCount(prompt);
    var d := Decide(Rules, Default, lower, words);
    match Get(c, d.key)
    case None => Failure(KeyErrorText(d.key))
    case Some(s) => Success(AutoSelection(d.key, s.name, d.reason, Alternative(d.key), words, DetectType(lower)))
  }

  /** Whatever the prompt, the decision is one of five keys and its reason names it. */
  lemma DecisionIsRecommendable(text: string, words: nat)
    ensures Decide(Rules, Default, text, words).key in Recommendable
    ensures Decide(Rules, Default, text, words).reason == ReasonFor(Decide(Rules, Default, text, words).key)
  {
    var d := Decide(Rules, Default, text, words);
    if d != Default {
      var i :| 0 <= i < |Rules| && d == Choice(Rules[i].key, Rules[i].reason);
    }
  }

  /** A short prompt with none of the first three rules' keywords goes to "morphosis",
      even when it asks to analyze, compare or evaluate. */
  lemma ShortPromptBeatsAnalysis(text: string, words: nat)
    requires words < 10
    requires forall i :: 0 <= i < 3 ==> !HasKeywords(text, Rules[i].cond.keywords)
    ensures Decide(Rules, Default, text, words).key == "morphosis"
  {
    assert !Holds(Rules[0].cond, text, words);
    assert !Holds(Rules[1].cond, text, words);
    assert !Holds(Rules[2].cond, text, words);
    assert Holds(Rules[3].cond, text, words);
  }

  /** The catalog used when the metaprompt file cannot be loaded. */
  const Fallback: Catalog := [
    Strategy("simple", "Simple Refinement", "Basic prompt improvement", [],
             "Improve this prompt: " + Placeholder)
  ]

  /** Against the fallback catalog auto-selection always raises: none of the five keys
      it can recommend is "simple". */
  lemma FallbackSelectionFails(prompt: string)
    ensures AutoSelect(Fallback, prompt).Failure?
    ensures exists k :: k in Recommendable && AutoSelect(Fallback, prompt).error == KeyErrorText(k)
  {
    var d := Decide(Rules, Default, Lower(prompt), PyWordCount(prompt));
    DecisionIsRecommendable(Lower(prompt), PyWordCount(prompt));
    assert Names(Fallback) == ["simple"];
    assert d.key !in Names(Fallback);
  }

  /** `_assess_suitability`: at most one bonus applies, chosen by the strategy key. */
  function Suitability(prompt: string, key: string): (s: int)
    ensures s == 50 || s == 70 || s == 80 || s == 90
    ensures s == 70 <==> key == "star" && PyWordCount(prompt) > 20
    ensures s == 80 <==> key == "morphosis" && PyWordCount(prompt) < 10
    ensures s == 90 <==> key == "math" && HasKeywords(Lower(prompt), ["math", "proof", "equation"])
  {
    var words := PyWordCount(prompt);
    var score :=
      if key == "star" && words > 20 then 50 + 20
      else if key == "morphosis" && words < 10 then 50 + 30
      else if key == "math" && HasKeywords(Lower(prompt), ["math", "proof", "equation"]) then 50 + 40
      else 50;
    if score < 100 then score else 100
  }

  /** Any strategy other than these three always scores the base. */
  lemma OtherStrategiesScoreBase(prompt: string, key: string)
    requires key != "star" && key != "morphosis" && key != "math"
    ensures Suitability(prompt, key) == 50
  {
  }

  /** `_assess_complexity`: a class of the template's length in characters. */
  function Complexity(template: string): (c: string)
    ensures c == "low" || c == "medium" || c == "high"
    ensures c == "low" <==> |template| < 1000
    ensures c == "high" <==> |template| >= 3000
  {
    if |template| < 1000 then "low" else if |template| < 3000 then "medium" else "high"
  }

  /** One value of the `comparisons` dictionary, with its key. */
  datatype Row = Row(key: string, name: string, description: string, suitability: int, complexity: string)

  datatype ServerComparison = ServerComparison(prompt: string, rows: seq<Row>, recommendation: string)

  function RowFor(c: Catalog, prompt: string, k: string): (r: Row)
    requires Get(c, k).Some?
    ensures r.key == k
  {
    var s := Get(c, k).value;
    Row(k, s.name, s.description, Suitability(prompt, k), Complexity(s.template))
  }

  function RowKeys(rows: seq<Row>): (r: seq<string>)
    ensures |r| == |rows| && forall i :: 0 <= i < |rows| ==> r[i] == rows[i].key
  {
    seq(|rows|, i requires 0 <= i < |rows| => rows[i].key)
  }

  function RowScores(rows: seq<Row>): (r: seq<int>)
    ensures |r| == |rows| && forall i :: 0 <= i < |rows| ==> r[i] == rows[i].suitability
  {
    seq(|rows|, i requires 0 <= i < |rows| => rows[i].suitability)
  }

  /** The rows of the `comparisons` dictionary. A repeated key rewrites its entry with
      the same value, so the rows are the known keys, each once, in order of first
      appearance. */
  function Rows(c: Catalog, prompt: string, ks: seq<string>): (rows: seq<Row>)
    ensures Distinct(RowKeys(rows))
    ensures forall k :: k in RowKeys(rows) <==> k in ks && Get(c, k).Some?
    ensures forall i :: 0 <= i < |rows| ==> Get(c, rows[i].key).Some? && rows[i] == RowFor(c, prompt, rows[i].key)
  {
    var keys := Dedup(KnownKeys(c, ks));
    var rows := seq(|keys|, i requires 0 <= i < |keys| => RowFor(c, prompt, keys[i]));
    RowsKeyed(c, prompt, keys, rows);
    rows
  }

  /** The rows follow the order in which their keys first appear in the list. */
  lemma RowsInListOrder(c: Catalog, prompt: string, ks: seq<string>)
    ensures var rows := Rows(c, prompt, ks);
      forall i, j :: 0 <= i < j < |rows| ==>
        rows[i].key in ks && rows[j].key in ks && FirstIndex(ks, rows[i].key) < FirstIndex(ks, rows[j].key)
  {
    var rows := Rows(c, prompt, ks);
    var keys := Dedup(KnownKeys(c, ks));
    RowsKeyed(c, prompt, keys, rows);
    DedupOrder(KnownKeys(c, ks));
    forall i, j | 0 <= i < j < |rows|
      ensures rows[i].key in ks && rows[j].key in ks && FirstIndex(ks, rows[i].key) < FirstIndex(ks, rows[j].key)
    {
      assert rows[i].key == keys[i] && rows[j].key == keys[j];
      KnownKeysOrder(c, ks, keys[i], keys[j]);
    }
  }

  /** Rows built one per key carry those keys, in order. */
  lemma RowsKeyed(c: Catalog, prompt: string, keys: seq<string>, rows: seq<Row>)
    requires forall i :: 0 <= i < |keys| ==> Get(c, keys[i]).Some?
    requires |rows| == |keys| && forall i :: 0 <= i < |keys| ==> rows[i] == RowFor(c, prompt, keys[i])
    ensures RowKeys(rows) == keys
  {
  }

  /** There are no rows exactly when no listed key is known. */
  lemma NoRowsIffUnknown(c: Catalog, prompt: string, ks: seq<string>)
    ensures (forall k :: k in ks ==> Get(c, k).None?) <==> |Rows(c, prompt, ks)| == 0
  {
    var rows := Rows(c, prompt, ks);
    forall k | k in ks && Get(c, k).Some? ensures |rows| > 0 {
      KnownKeyHasRow(c, prompt, ks, k);
    }
    if |rows| > 0 {
      assert rows[0].key in RowKeys(rows);
    }
  }

  lemma KnownKeyHasRow(c: Catalog, prompt: string, ks: seq<string>, k: string)
    requires k in ks && Get(c, k).Some?
    ensures |Rows(c, prompt, ks)| > 0
  {
    assert k in RowKeys(Rows(c, prompt, ks));
  }

  /** `compare_strategies(prompt, strategies)`: `max` over the rows keeps the first
      maximum and raises on none. */
  function Compare(c: Catalog, prompt: string, ks: seq<string>): (r: Result<ServerComparison, string>)
    ensures r.Failure? <==> forall k :: k in ks ==> Get(c, k).None?
    ensures r.Failure? ==> r.error == "max() arg is an empty sequence"
    ensures r.Success? ==>
      && r.value.prompt == prompt && r.value.rows == Rows(c, prompt, ks)
      && r.value.recommendation in ks
      && var rows := r.value.rows;
      exists i :: (0 <= i < |rows| && rows[i].key == r.value.recommendation &&
        (forall j :: 0 <= j < |rows| ==> rows[j].suitability <= rows[i].suitability) &&
        (forall j :: 0 <= j < i ==> rows[j].suitability < rows[i].suitability))
  {
    var rows := Rows(c, prompt, ks);
    NoRowsIffUnknown(c, prompt, ks);
    RowsListed(c, prompt, ks);
    Best(prompt, rows)
  }

  /** `max` over rows already built. */
  function Best(prompt: string, rows: seq<Row>): (r: Result<ServerComparison, string>)
    ensures r.Failure? <==> |rows| == 0
    ensures r.Failure? ==> r.error == "max() arg is an empty sequence"
    ensures r.Success? ==>
      && r.value.prompt == prompt && r.value.rows == rows
      && exists i :: (0 <= i < |rows| && rows[i].key == r.value.recommendation &&
        (forall j :: 0 <= j < |rows| ==> rows[j].suitability <= rows[i].suitability) &&
        (forall j :: 0 <= j < i ==> rows[j].suitability < rows[i].suitability))
  {
    if |rows| == 0 then
      Failure("max() arg is an empty sequence")
    else
      var best := FirstMax(RowScores(rows));
      BestRow(rows);
      Success(ServerComparison(prompt, rows, rows[best].key))
  }

  /** Every row's key is one of the listed keys. */
  lemma RowsListed(c: Catalog, prompt: string, ks: seq<string>)
    ensures forall i :: 0 <= i < |Rows(c, prompt, ks)| ==> Rows(c, prompt, ks)[i].key in ks
  {
    var rows := Rows(c, prompt, ks);
    forall i | 0 <= i < |rows| ensures rows[i].key in ks {
      assert rows[i].key == RowKeys(rows)[i];
    }
  }

  /** The first maximum of the scores is a row no other outscores and every earlier row
      scores below. */
  lemma BestRow(rows: seq<Row>)
    requires |rows| > 0
    ensures var b := FirstMax(RowScores(rows));
      b < |rows| &&
      (forall j :: 0 <= j < |rows| ==> rows[j].suitability <= rows[b].suitability) &&
      (forall j :: 0 <= j < b ==> rows[j].suitability < rows[b].suitability)
  {
    var scores := RowScores(rows);
    var b := FirstMax(scores);
    forall j | 0 <= j < |rows| ensures rows[j].suitability <= rows[b].suitability {
      assert scores[j] <= scores[b];
    }
    forall j | 0 <= j < b ensures rows[j].suitability < rows[b].suitability {
      assert scores[j] < scores[b];
    }
  }

  /** With no list given every catalog key is a candidate, so comparison fails exactly on
      an empty catalog. */
  lemma CompareAllKeys(c: Catalog, prompt: string)
    ensures Compare(c, prompt, Names(c)).Failure? <==> |c| == 0
  {
    if |c| > 0 {
      assert Names(c)[0] in Names(c);
    }
  }

  /** The fixed `expected_json_format` record, as ordered `(field, description)` pairs. */
  const ExpectedFormat: seq<(string, string)> := [
    ("initial_prompt_evaluation", "Evaluation with strengths and weaknesses"),
    ("refined_prompt", "The refined version of the prompt"),
    ("explanation_of_refinements", "Detailed explanation of improvements")
  ]

  const UsageHint := "Copy the instruction_for_cursor to Cursor and ask it to process this metaprompt"

  /** What `refine_prompt` returns: an error record, or the filled template with the
      fields the client is to produce. */
  datatype RefineReply =
    | UnknownStrategy(error: string)
    | Instruction(strategyUsed: string, strategyName: string, strategyDescription: string,
                  instruction: string, expectedFormat: seq<(string, string)>, usageHint: string)

  /** `refine_prompt(prompt, strategy)`: an unknown key is answered, not raised. */
  function Refine(c: Catalog, prompt: string, key: string): (r: RefineReply)
    ensures r.UnknownStrategy? <==> Get(c, key).None?
    ensures r.UnknownStrategy? ==> r.error == "Unknown strategy: " + key
    ensures r.Instruction? ==>
      var s := Get(c, key).value;
      && r.strategyUsed == key && r.strategyName == s.name
      && r.strategyDescription == s.description
      && r.instruction == Join(Split(s.template, Placeholder), prompt)
      && (Contains(s.template, Placeholder) ==> Contains(r.instruction, prompt))
      && (!Contains(s.template, Placeholder) ==> r.instruction == s.template)
      && |r.expectedFormat| == 3
      && r.expectedFormat[0].0 == "initial_prompt_evaluation"
      && r.expectedFormat[1].0 == "refined_prompt"
      && r.expectedFormat[2].0 == "explanation_of_refinements"
  {
    match Get(c, key)
    case None => UnknownStrategy("Unknown strategy: " + key)
    case Some(s) =>
      ReplaceAllCases(s.template, Placeholder, prompt);
      Instruction(key, s.name, s.description, ReplaceAll(s.template, Placeholder, prompt),
                  ExpectedFormat, UsageHint)
  }

  /** The fallback template holds the placeholder once, so refining against the fallback
      catalog always embeds the prompt. */
  lemma FallbackRefineEmbedsPrompt(prompt: string)
    ensures Refine(Fallback, prompt, "simple").Instruction?
    ensures Contains(Refine(Fallback, prompt, "simple").instruction, prompt)
  {
    FallbackHoldsSimple();
    FallbackTemplateHasPlaceholder();
  }

  /** The fallback catalog holds "simple" and nothing else. */
  lemma FallbackHoldsSimple()
    ensures Names(Fallback) == ["simple"]
    ensures Get(Fallback, "simple") == Some(Fallback[0])
  {
  }

  lemma FallbackTemplateHasPlaceholder()
    ensures Contains(Fallback[0].template, Placeholder)
  {
    var lead := "Improve this prompt: ";
    var t := lead + Placeholder;
    assert t[|lead|..|lead| + |Placeholder|] == Placeholder;
    assert OccursAt(t, Placeholder, |lead|);
    ContainsIffOccurs(t, Placeholder);
  }

  /** One value of the `list_strategies` dictionary, with its key. */
  datatype Listing = Listing(key: string, name: string, description: string, examples: seq<string>)

  function ListStrategies(c: Catalog): (r: seq<Listing>)
    ensures |r| == |c|
    ensures forall i :: 0 <= i < |c| ==> r[i] == Listing(c[i].key, c[i].name, c[i].description, c[i].examples)
  {
    seq(|c|, i requires 0 <= i < |c| => Listing(c[i].key, c[i].name, c[i].description, c[i].examples))
  }

  /** On a catalog with distinct keys, the listing entry for a key is what `Get` finds. */
  lemma ListingAgreesWithGet(c: Catalog, i: nat)
    requires Valid(c) && i < |c|
    ensures var s := Get(c, ListStrategies(c)[i].key);
      s.Some? && ListStrategies(c)[i] == Listing(s.value.key, s.value.name, s.value.description, s.value.examples)
  {
    GetUnique(c, i);
  }

  /** The tool arguments the handler reads; `None` is an absent key. */
  datatype Args = Args(prompt: Option<string>, strategy: Option<string>, strategies: Option<seq<string>>)

  /** What the handler sends back: a result it serialises with `json.dumps`, or the text
      of an exception. */
  datatype Reply =
    | Refined(refine: RefineReply)
    | Selected(selection: AutoSelection)
    | Listed(listing: seq<Listing>)
    | Compared(comparison: ServerComparison)
    | Said(message: string)
    | Error(text: string)

  /** `handle_call_tool(name, arguments)`: arguments are read with `[]` in source order,
      so the first absent one raises `KeyError`; every exception becomes
      "Error: " + its text. */
  function CallTool(c: Catalog, name: string, args: Args): (r: Reply)
    ensures name !in {"refine_prompt", "auto_select_strategy", "list_strategies", "compare_strategies"} ==>
      r == Said("Unknown tool: " + name)
    ensures name in {"refine_prompt", "auto_select_strategy", "compare_strategies"} && args.prompt.None? ==>
      r == Error("Error: " + KeyErrorText("prompt"))
    ensures name == "refine_prompt" && args.prompt.Some? ==>
      r == (if args.strategy.None? then Error("Error: " + KeyErrorText("strategy"))
            else Refined(Refine(c, args.prompt.value, args.strategy.value)))
    ensures name == "auto_select_strategy" && args.prompt.Some? ==>
      (r.Error? <==> AutoSelect(c, args.prompt.value).Failure?) &&
      (r.Error? ==> r.text == "Error: " + AutoSelect(c, args.prompt.value).error) &&
      (r.Selected? ==> r.selection == AutoSelect(c, args.prompt.value).value)
    ensures name == "list_strategies" ==> r == Listed(ListStrategies(c))
    ensures name == "compare_strategies" && args.prompt.Some? ==>
      var ks := args.strategies.GetOr(Names(c));
      (r.Error? || r.Compared?) &&
      (r.Error? <==> Compare(c, args.prompt.value, ks).Failure?) &&
      (r.Compared? ==> r.comparison == Compare(c, args.prompt.value, ks).value)
    ensures r.Error? ==> IsPrefix("Error: ", r.text)
  {
    if name == "refine_prompt" then
      match args.prompt
      case None => Error("Error: " + KeyErrorText("prompt"))
      case Some(p) =>
        match args.strategy
        case None => Error("Error: " + KeyErrorText("strategy"))
        case Some(k) => Refined(Refine(c, p, k))
    else if name == "auto_select_strategy" then
      match args.prompt
      case None => Error("Error: " + KeyErrorText("prompt"))
      case Some(p) =>
        match AutoSelect(c, p)
        case Failure(e) => Error("Error: " + e)
        case Success(sel) => Selected(sel)
    else if name == "list_strategies" then
      Listed(ListStrategies(c))
    else if name == "compare_strategies" then
      match args.prompt
      case None => Error("Error: " + KeyErrorText("prompt"))
      case Some(p) =>
        match Compare(c, p, args.strategies.GetOr(Names(c)))
        case Failure(e) => Error("Error: " + e)
        case Success(cmp) => Compared(cmp)
    else
      Said("Unknown tool: " + name)
  }

  /** A server that fell back to the one-entry catalog answers every auto-selection with
      the `KeyError` text of the recommended key. */
  lemma FallbackAutoSelectToolErrors(prompt: string)
    ensures CallTool(Fallback, "auto_select_strategy", Args(Some(prompt), None, None)).Error?
  {
    FallbackSelectionFails(prompt);
  }

  /** With no list given, comparison on the fallback catalog recommends "simple". */
  lemma FallbackCompareRecommendsSimple(prompt: string)
    ensures var r := CallTool(Fallback, "compare_strategies", Args(Some(prompt), None, None));
      r.Compared? && r.comparison.recommendation == "simple"
  {
    FallbackCompare(prompt);
  }

  lemma FallbackCompare(prompt: string)
    ensures Compare(Fallback, prompt, Names(Fallback)).Success?
    ensures Compare(Fallback, prompt, Names(Fallback)).value.recommendation == "simple"
  {
    FallbackHoldsSimple();
    assert "simple" in Names(Fallback);
  }
}
