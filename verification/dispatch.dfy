/** The prompt and tool dispatch of the TypeScript MCP server (src/index.ts): the five
    prompts (`auto_refine`, `refine_with_<key>`, `compare_refinements`,
    `prepare_refinement`, `execute_refinement`) and the three tools (`list_strategies`,
    `get_strategy_details`, `discover_strategies`). Every prompt answer is one user
    message; as in module `Workflow`, a body records what is interpolated into the fixed
    text. Unlike the workflow factory, this path puts the auto-selection of
    `TsRefiner` in front of the templates and does not de-duplicate candidates. */
module Dispatch {
  import opened Wrappers
  import opened Text
  import opened Catalog
  import opened JsSubstitution
  import opened Workflow
  import TsRefiner

  /** What each prompt answer interpolates into its fixed text. */
  datatype PromptBody =
    | AutoRefinePrompt(strategyName: string, reason: string, metaprompt: string)
    | RefineWithPrompt(strategyName: string, description: string, metaprompt: string)
    | ComparePrompt(userPrompt: string, shown: seq<Info>)
    | PreparePrompt(strategyName: string, reason: string, alternativeName: string, metaprompt: string, userPrompt: string)
    | ExecutePrompt(originalPrompt: string, results: string)

  /** `handleAutoRefine`: the recommended strategy must be in the catalog. */
  function AutoRefine(c: Catalog, userPrompt: string): (r: Result<PromptBody, string>)
    ensures var sel := TsRefiner.AutoSelect(c, userPrompt);
      && (r.Failure? <==> Get(c, sel.recommended).None?)
      && (r.Failure? ==> r.error == "Strategy '" + sel.recommended + "' not found")
      && (r.Success? ==> r.value == AutoRefinePrompt(Get(c, sel.recommended).value.name, sel.reason,
                                                   Substitute(Get(c, sel.recommended).value.template, userPrompt)))
  {
    var sel := TsRefiner.AutoSelect(c, userPrompt);
    match Get(c, sel.recommended)
    case None => Failure("Strategy '" + sel.recommended + "' not found")
    case Some(s) => Success(AutoRefinePrompt(s.name, sel.reason, Substitute(s.template, userPrompt)))
  }

  /** `handleRefineWith`: the key is the rest of the name; an empty key is simply not
      found. */
  function RefineWith(c: Catalog, name: string, userPrompt: string): (r: Result<PromptBody, string>)
    requires IsPrefix(RefinePrefix, name)
    ensures var key := name[|RefinePrefix|..];
      && (r.Failure? <==> Get(c, key).None?)
      && (r.Failure? ==> r.error == "Strategy '" + key + "' not found")
      && (r.Success? ==> r.value == RefineWithPrompt(Get(c, key).value.name, Get(c, key).value.description,
                                                   Substitute(Get(c, key).value.template, userPrompt)))
  {
    PrefixRouteKey(name);
    var key := ReplaceFirst(name, RefinePrefix, "");
    match Get(c, key)
    case None => Failure("Strategy '" + key + "' not found")
    case Some(s) => Success(RefineWithPrompt(s.name, s.description, Substitute(s.template, userPrompt)))
  }

  function InfoKeys(r: seq<Info>): (ks: seq<string>)
    ensures |ks| == |r| && forall i :: 0 <= i < |r| ==> ks[i] == r[i].key
  {
    seq(|r|, i requires 0 <= i < |r| => r[i].key)
  }

  /** The strategies a comparison shows: each known key, in order, repeats included. */
  function Shown(c: Catalog, ks: seq<string>): (r: seq<Info>)
    ensures |r| <= |ks|
    ensures forall i :: 0 <= i < |r| ==> (Get(c, r[i].key).Some? &&
      r[i] == Info(r[i].key, Get(c, r[i].key).value.name, Get(c, r[i].key).value.description))
    ensures forall k :: k in InfoKeys(r) <==> k in ks && Get(c, k).Some?
    ensures InfoKeys(r) == KnownKeys(c, ks)
    decreases |ks|
  {
    if |ks| == 0 then []
    else
      var rest := Shown(c, ks[1..]);
      match Get(c, ks[0])
      case Some(s) =>
        var x := Info(ks[0], s.name, s.description);
        InfoKeysCons(x, rest);
        [x] + rest
      case None => rest
  }

  lemma InfoKeysCons(x: Info, rest: seq<Info>)
    ensures InfoKeys([x] + rest) == [x.key] + InfoKeys(rest)
    ensures forall i :: 1 <= i < |[x] + rest| ==> ([x] + rest)[i] == rest[i - 1]
  {
    assert InfoKeys([x] + rest) == [x.key] + InfoKeys(rest);
  }

  /** The candidates before the cap: the explicit list, or the recommendation, its
      alternative and "physics" as they are. */
  function Candidates(c: Catalog, userPrompt: string, args: Args): (ks: seq<string>)
    ensures Given(args, "strategies") ==> ks == Pieces(args["strategies"])
    ensures !Given(args, "strategies") ==>
      ks == DefaultCandidates(TsRefiner.AutoSelect(c, userPrompt))
  {
    if Given(args, "strategies") then Pieces(args["strategies"])
    else DefaultCandidates(TsRefiner.AutoSelect(c, userPrompt))
  }

  /** The default candidates: the recommendation, its alternative and "physics", with
      no de-duplication. */
  function DefaultCandidates(sel: TsRefiner.AutoSelection): (ks: seq<string>)
    ensures |ks| == 3 && ks[0] == sel.recommended && ks[1] == sel.alternative && ks[2] == "physics"
  {
    [sel.recommended, sel.alternative, "physics"]
  }

  /** `handleCompareRefinements`: only the first three candidates are looked at. */
  function CompareRefinements(c: Catalog, userPrompt: string, args: Args): (r: PromptBody)
    ensures r.ComparePrompt? && r.userPrompt == userPrompt
    ensures |r.shown| <= 3
    ensures forall k :: k in InfoKeys(r.shown) <==> k in Take(Candidates(c, userPrompt, args), 3) && Get(c, k).Some?
    ensures InfoKeys(r.shown) == KnownKeys(c, Take(Candidates(c, userPrompt, args), 3))
  {
    ComparePrompt(userPrompt, Shown(c, Take(Candidates(c, userPrompt, args), 3)))
  }

  /** A repeated known key is shown at each of its positions. */
  lemma ShownKeepsRepeats(c: Catalog, k: string, other: string)
    requires Get(c, k).Some?
    ensures var shown := Shown(c, [k, other, k]);
      |shown| >= 2 && shown[0].key == k && shown[|shown| - 1].key == k
  {
    var s := Get(c, k).value;
    assert [k, other, k][1..] == [other, k];
    assert [other, k][1..] == [k];
    assert [k][1..] == [];
    assert Shown(c, [k]) == [Info(k, s.name, s.description)];
  }

  lemma RepeatShown(c: Catalog, ks: seq<string>, k: string, other: string)
    requires Get(c, k).Some? && ks == [k, other, k]
    ensures var shown := Shown(c, ks);
      |shown| >= 2 && shown[0].key == k && shown[|shown| - 1].key == k
  {
    ShownKeepsRepeats(c, k, other);
  }

  /** When the selection recommends "physics" and the catalog knows it, the default
      candidates show it twice: the list is not de-duplicated, unlike the Python
      comparison's. */
  lemma PhysicsShownTwice(c: Catalog, sel: TsRefiner.AutoSelection)
    requires sel.recommended == "physics"
    requires Get(c, "physics").Some?
    ensures var shown := Shown(c, Take(DefaultCandidates(sel), 3));
      |shown| >= 2 && shown[0].key == "physics" && shown[|shown| - 1].key == "physics"
  {
    var ks := DefaultCandidates(sel);
    TakeWhole(ks, 3);
    ThreeOf(ks, sel.recommended, sel.alternative, "physics");
    RepeatShown(c, ks, "physics", sel.alternative);
  }

  lemma TakeWhole(s: seq<string>, n: nat)
    requires |s| <= n
    ensures Take(s, n) == s
  {
  }

  lemma ThreeOf(s: seq<string>, a: string, b: string, d: string)
    requires |s| == 3 && s[0] == a && s[1] == b && s[2] == d
    ensures s == [a, b, d]
  {
  }

  /** `handlePrepareRefinement`. */
  function Prepare(c: Catalog, userPrompt: string): (r: Result<PromptBody, string>)
    ensures var sel := TsRefiner.AutoSelect(c, userPrompt);
      && (r.Failure? <==> Get(c, sel.recommended).None?)
      && (r.Failure? ==> r.error == "Strategy '" + sel.recommended + "' not found")
      && (r.Success? ==> r.value == PreparePrompt(Get(c, sel.recommended).value.name, sel.reason, sel.alternativeName,
                                                Substitute(Get(c, sel.recommended).value.template, userPrompt),
                                                userPrompt))
  {
    var sel := TsRefiner.AutoSelect(c, userPrompt);
    match Get(c, sel.recommended)
    case None => Failure("Strategy '" + sel.recommended + "' not found")
    case Some(s) => Success(PreparePrompt(s.name, sel.reason, sel.alternativeName, Substitute(s.template, userPrompt), userPrompt))
  }

  /** `handleExecuteRefinement(args.metaprompt_results, args.original_prompt || userPrompt)`:
      the results are required. */
  function ExecuteRefinement(args: Args, userPrompt: string): (r: Result<PromptBody, string>)
    ensures r.Failure? <==> !Given(args, "metaprompt_results")
    ensures r.Failure? ==> r.error == "metaprompt_results is required for execute_refinement"
    ensures r.Success? ==> r.value == ExecutePrompt(ArgOr(args, "original_prompt", userPrompt), args["metaprompt_results"])
  {
    if !Given(args, "metaprompt_results") then Failure("metaprompt_results is required for execute_refinement")
    else Success(ExecutePrompt(ArgOr(args, "original_prompt", userPrompt), args["metaprompt_results"]))
  }

  /** The `GetPrompt` handler: the user prompt defaults before dispatch, and the names
      are tested in source order. */
  function GetPrompt(c: Catalog, name: string, args: Args): (r: Result<PromptBody, string>)
    ensures name == "auto_refine" ==> r == AutoRefine(c, UserPrompt(args))
    ensures IsPrefix(RefinePrefix, name) ==> r == RefineWith(c, name, UserPrompt(args))
    ensures name == "compare_refinements" ==> r == Success(CompareRefinements(c, UserPrompt(args), args))
    ensures name == "prepare_refinement" ==> r == Prepare(c, UserPrompt(args))
    ensures name == "execute_refinement" ==> r == ExecuteRefinement(args, UserPrompt(args))
    ensures (name !in {"auto_refine", "compare_refinements", "prepare_refinement", "execute_refinement"} &&
             !IsPrefix(RefinePrefix, name)) ==> r == Failure("Unknown prompt: " + name)
  {
    var userPrompt := UserPrompt(args);
    FixedNamesNotRefine(name);
    if name == "auto_refine" then AutoRefine(c, userPrompt)
    else if IsPrefix(RefinePrefix, name) then RefineWith(c, name, userPrompt)
    else if name == "compare_refinements" then Success(CompareRefinements(c, userPrompt, args))
    else if name == "prepare_refinement" then Prepare(c, userPrompt)
    else if name == "execute_refinement" then ExecuteRefinement(args, userPrompt)
    else Failure("Unknown prompt: " + name)
  }

  /** No fixed prompt name starts with the `refine_with_` prefix. */
  lemma FixedNamesNotRefine(name: string)
    ensures name in {"auto_refine", "compare_refinements", "prepare_refinement", "execute_refinement"} ==>
      !IsPrefix(RefinePrefix, name)
  {
    assert "auto_refine"[0] != RefinePrefix[0] && "compare_refinements"[0] != RefinePrefix[0];
    assert "prepare_refinement"[0] != RefinePrefix[0] && "execute_refinement"[0] != RefinePrefix[0];
  }

  /** Without an original prompt, the executed refinement quotes the user prompt or its
      default here, where the workflow factory says the original was not provided. */
  lemma ExecuteFallbacksDiffer(c: Catalog, cats: Categories, results: string)
    requires results != ""
    ensures var args := map["metaprompt_results" := results];
      && GetPrompt(c, "execute_refinement", args) == Success(ExecutePrompt(DefaultUserPrompt, results))
      && HandleWorkflow(c, cats, "execute_refinement", args) ==
           Success(CreateResponse(Workflow.ExecuteText(DefaultOriginalPrompt, results)))
  {
    ExecuteFallbackPrompt(c, results);
    ExecuteFallbackWorkflow(c, cats, results);
  }

  lemma ExecuteFallbackPrompt(c: Catalog, results: string)
    requires results != ""
    ensures GetPrompt(c, "execute_refinement", map["metaprompt_results" := results]) ==
      Success(ExecutePrompt(DefaultUserPrompt, results))
  {
    var args := map["metaprompt_results" := results];
    assert !Given(args, "user_prompt");
    assert "execute_refinement"[0] != RefinePrefix[0];
    assert !IsPrefix(RefinePrefix, "execute_refinement");
  }

  lemma ExecuteFallbackWorkflow(c: Catalog, cats: Categories, results: string)
    requires results != ""
    ensures HandleWorkflow(c, cats, "execute_refinement", map["metaprompt_results" := results]) ==
      Success(CreateResponse(Workflow.ExecuteText(DefaultOriginalPrompt, results)))
  {
    var args := map["metaprompt_results" := results];
    assert !Given(args, "original_prompt") && !Given(args, "user_prompt");
    assert "execute_refinement"[0] != RefinePrefix[0];
    assert RouteOf("execute_refinement") == ExecuteStep;
  }

  /** The bare prefix is looked up as the empty key, so it fails with "not found" rather
      than with the workflow factory's missing-argument error. */
  lemma BarePrefixNotFound(c: Catalog, args: Args)
    requires Get(c, "").None?
    ensures GetPrompt(c, RefinePrefix, args) == Failure("Strategy '' not found")
  {
    assert IsPrefix(RefinePrefix, RefinePrefix);
    assert RefinePrefix[|RefinePrefix|..] == "";
    assert "Strategy '" + "" + "' not found" == "Strategy '' not found";
  }

  /** One value of the `list_strategies` object, with its key. */
  datatype ListEntry = ListEntry(key: string, name: string, description: string, promptName: string, examples: seq<string>)

  datatype Details = Details(key: string, name: string, description: string, examples: seq<string>,
                             promptName: string, templatePreview: string)

  datatype ToolReply =
    | Listing(entries: seq<ListEntry>)
    | StrategyDetails(details: Details)
    | DetailsError(error: string)
    | Discovery(totalStrategies: nat)

  /** `handleListStrategies`: each strategy with its prompt name and at most two
      examples. */
  function ListStrategies(c: Catalog): (r: seq<ListEntry>)
    ensures |r| == |c|
    ensures forall i :: 0 <= i < |c| ==>
      && r[i].key == c[i].key && r[i].name == c[i].name && r[i].description == c[i].description
      && r[i].promptName == RefinePrefix + c[i].key
      && r[i].examples == c[i].examples[..if |c[i].examples| < 2 then |c[i].examples| else 2]
  {
    seq(|c|, i requires 0 <= i < |c| =>
      ListEntry(c[i].key, c[i].name, c[i].description, RefinePrefix + c[i].key, Take(c[i].examples, 2)))
  }

  /** Every listed prompt name routes back to its own strategy. */
  lemma ListedPromptNamesRoute(c: Catalog, i: nat, args: Args)
    requires Valid(c) && i < |c|
    ensures GetPrompt(c, ListStrategies(c)[i].promptName, args).Success?
  {
    var name := RefinePrefix + c[i].key;
    assert IsPrefix(RefinePrefix, name);
    assert name[|RefinePrefix|..] == c[i].key;
    GetUnique(c, i);
    assert name[0] == 'r';
    assert name != "auto_refine" && name != "compare_refinements" && name != "prepare_refinement";
    assert name != "execute_refinement";
  }

  /** `template_preview`: the first 200 characters and "..." when longer. */
  function Preview(t: string): (p: string)
    ensures |t| <= 200 ==> p == t
    ensures |t| > 200 ==> |p| == 203 && IsPrefix(p[..200], t) && p[200..] == "..."
    ensures |p| <= 203
  {
    if |t| > 200 then t[..200] + "..." else t
  }

  /** The `CallTool` handler. */
  function CallTool(c: Catalog, name: string, args: Args): (r: Result<ToolReply, string>)
    ensures name == "list_strategies" ==> r == Success(Listing(ListStrategies(c)))
    ensures name == "get_strategy_details" && !Given(args, "strategy") ==>
      r == Failure("Strategy parameter is required")
    ensures name == "get_strategy_details" && Given(args, "strategy") ==>
      var k := args["strategy"];
      && r.Success?
      && (r.value.DetailsError? <==> Get(c, k).None?)
      && (r.value.DetailsError? ==> r.value.error == "Strategy '" + k + "' not found")
      && (r.value.StrategyDetails? ==>
            var s := Get(c, k).value;
            r.value.details == Details(k, s.name, s.description, s.examples, RefinePrefix + k, Preview(s.template)))
    ensures name == "discover_strategies" ==> r == Success(Discovery(|Names(c)|))
    ensures name !in {"list_strategies", "get_strategy_details", "discover_strategies"} ==>
      r == Failure("Unknown tool: " + name)
  {
    if name == "list_strategies" then Success(Listing(ListStrategies(c)))
    else if name == "get_strategy_details" then
      if !Given(args, "strategy") then Failure("Strategy parameter is required")
      else
        var k := args["strategy"];
        match Get(c, k)
        case None => Success(DetailsError("Strategy '" + k + "' not found"))
        case Some(s) =>
          Success(StrategyDetails(Details(k, s.name, s.description, s.examples, RefinePrefix + k, Preview(s.template))))
    else if name == "discover_strategies" then Success(Discovery(|Names(c)|))
    else Failure("Unknown tool: " + name)
  }
}
