/** The prompt workflows of the TypeScript server (src/workflow-factory.ts): eight
    registered names, the `refine_with_<key>` prefix route, the step methods of the
    two- and three-step handlers, their argument checks, and the one-message response
    each produces. The fixed prose around the interpolated values is not modelled; a
    response body records what is interpolated into it. The category metadata is
    produced by code outside this model and enters as a parameter. */
module Workflow {
  import opened Wrappers
  import opened Text
  import opened Catalog
  import opened JsSubstitution

  /** Prompt arguments; a missing key is absent from the map. */
  type Args = map<string, string>

  /** `args[k]` is truthy: present and non-empty. */
  predicate Given(args: Args, k: string) {
    k in args && args[k] != ""
  }

  /** `args[k] || d`. */
  function ArgOr(args: Args, k: string, d: string): (r: string)
    ensures Given(args, k) ==> r == args[k]
    ensures !Given(args, k) ==> r == d
  {
    if Given(args, k) then args[k] else d
  }

  const DefaultUserPrompt := "[User prompt will be inserted here]"
  const DefaultOriginalPrompt := "[Original prompt not provided]"

  function UserPrompt(args: Args): (p: string)
    ensures p != ""
    ensures Given(args, "user_prompt") ==> p == args["user_prompt"]
    ensures !Given(args, "user_prompt") ==> p == DefaultUserPrompt
  {
    ArgOr(args, "user_prompt", DefaultUserPrompt)
  }

  /** One entry of the category metadata: its display name, description and the
      serialised strategy list shown to the model. */
  datatype Category = Category(category: string, description: string, strategies: string)

  type Categories = map<string, Category>

  /** A strategy as the comparison prompt shows it. */
  datatype Info = Info(key: string, name: string, description: string)

  /** What each response interpolates into its fixed text. */
  datatype Body =
    | AutoRefineText(userPrompt: string)
    | RefineWithText(strategyName: string, description: string, metaprompt: string)
    | CompareAllText(userPrompt: string)
    | CompareSelectedText(userPrompt: string, info: seq<Info>)
    | PrepareText(userPrompt: string)
    | ExecuteText(originalPrompt: string, results: string)
    | Step1Text(userPrompt: string)
    | Step2Text(categoryName: string, userPrompt: string, meta: Category)
    | Step3Text(strategyName: string, description: string, userPrompt: string, metaprompt: string)

  datatype Message = Message(role: string, body: Body)

  datatype Response = Response(messages: seq<Message>)

  /** `createResponse(text)`: a single message from the user. */
  function CreateResponse(b: Body): (r: Response)
    ensures |r.messages| == 1 && r.messages[0].role == "user" && r.messages[0].body == b
  {
    Response([Message("user", b)])
  }

  /** `RefineWithHandler.handle`. */
  function RefineWith(c: Catalog, args: Args): (r: Result<Response, string>)
    ensures !Given(args, "strategy_key") ==> r == Failure("strategy_key is required for RefineWithHandler")
    ensures Given(args, "strategy_key") && Get(c, args["strategy_key"]).None? ==>
      r == Failure("Strategy '" + args["strategy_key"] + "' not found")
    ensures r.Success? <==> Given(args, "strategy_key") && Get(c, args["strategy_key"]).Some?
    ensures r.Success? ==>
      var s := Get(c, args["strategy_key"]).value;
      r.value == CreateResponse(RefineWithText(s.name, s.description, Substitute(s.template, UserPrompt(args))))
  {
    if !Given(args, "strategy_key") then Failure("strategy_key is required for RefineWithHandler")
    else
      var key := args["strategy_key"];
      match Get(c, key)
      case None => Failure("Strategy '" + key + "' not found")
      case Some(s) => Success(CreateResponse(RefineWithText(s.name, s.description, Substitute(s.template, UserPrompt(args)))))
  }

  /** `strategies.split(',').map(s => s.trim())`. */
  function Pieces(strategies: string): (ks: seq<string>)
    ensures |ks| == |Split(strategies, ",")| >= 1
    ensures forall i :: 0 <= i < |ks| ==> ks[i] == Trim(Split(strategies, ",")[i])
  {
    var pieces := Split(strategies, ",");
    seq(|pieces|, i requires 0 <= i < |pieces| => Trim(pieces[i]))
  }

  /** The keys of an explicit comparison list: only the first five pieces are kept. */
  function ListedKeys(strategies: string): (ks: seq<string>)
    ensures 1 <= |ks| <= 5 && |ks| <= |Pieces(strategies)| && ks == Pieces(strategies)[..|ks|]
    ensures |ks| == 5 || |ks| == |Split(strategies, ",")|
  {
    Take(Pieces(strategies), 5)
  }

  /** The `strategyInfo` object: the listed keys the catalog knows, each once, at its
      first position. */
  function SelectedInfo(c: Catalog, ks: seq<string>): (info: seq<Info>)
    ensures |info| <= |ks|
    ensures forall i :: 0 <= i < |info| ==> (Get(c, info[i].key).Some? &&
      info[i] == Info(info[i].key, Get(c, info[i].key).value.name, Get(c, info[i].key).value.description))
    ensures forall k :: (exists i :: 0 <= i < |info| && info[i].key == k) <==> k in ks && Get(c, k).Some?
    ensures forall i, j :: 0 <= i < j < |info| ==> info[i].key != info[j].key
  {
    var keys := Dedup(KnownKeys(c, ks));
    var info := seq(|keys|, i requires 0 <= i < |keys| =>
      Info(keys[i], Get(c, keys[i]).value.name, Get(c, keys[i]).value.description));
    assert forall k :: (exists i :: 0 <= i < |info| && info[i].key == k) <==> k in keys by {
      forall k | k in keys ensures exists i :: 0 <= i < |info| && info[i].key == k {
        var i :| 0 <= i < |keys| && keys[i] == k;
        assert info[i].key == k;
      }
    }
    info
  }

  /** The entries of `strategyInfo` follow the first positions of their keys in the list,
      the order in which the object gained its properties. */
  lemma SelectedInfoInListOrder(c: Catalog, ks: seq<string>)
    ensures var info := SelectedInfo(c, ks);
      forall i, j :: 0 <= i < j < |info| ==>
        info[i].key in ks && info[j].key in ks && FirstIndex(ks, info[i].key) < FirstIndex(ks, info[j].key)
  {
    var info := SelectedInfo(c, ks);
    var keys := Dedup(KnownKeys(c, ks));
    assert |info| == |keys| && forall i :: 0 <= i < |info| ==> info[i].key == keys[i];
    DedupOrder(KnownKeys(c, ks));
    forall i, j | 0 <= i < j < |info|
      ensures info[i].key in ks && info[j].key in ks && FirstIndex(ks, info[i].key) < FirstIndex(ks, info[j].key)
    {
      KnownKeysOrder(c, ks, keys[i], keys[j]);
    }
  }

  /** `CompareRefinementsHandler.handle`: with a list, the known ones among its first
      five keys are shown (none known still gives a comparison prompt); without one, the
      whole category metadata is offered. */
  function Compare(c: Catalog, args: Args): (r: Response)
    ensures !Given(args, "strategies") ==> r == CreateResponse(CompareAllText(UserPrompt(args)))
    ensures Given(args, "strategies") ==>
      r == CreateResponse(CompareSelectedText(UserPrompt(args), SelectedInfo(c, ListedKeys(args["strategies"]))))
    ensures Given(args, "strategies") ==> |r.messages[0].body.info| <= 5
  {
    if Given(args, "strategies") then
      CreateResponse(CompareSelectedText(UserPrompt(args), SelectedInfo(c, ListedKeys(args["strategies"]))))
    else
      CreateResponse(CompareAllText(UserPrompt(args)))
  }

  /** `handleExecuteRefinement`: the results are required; the original prompt falls
      back to the user prompt and then to a fixed marker. */
  function Execute(args: Args): (r: Result<Response, string>)
    ensures r.Failure? <==> !Given(args, "metaprompt_results")
    ensures r.Failure? ==> r.error == "metaprompt_results is required for execute_refinement"
    ensures r.Success? ==> r.value == CreateResponse(ExecuteText(
      ArgOr(args, "original_prompt", ArgOr(args, "user_prompt", DefaultOriginalPrompt)),
      args["metaprompt_results"]))
  {
    if !Given(args, "metaprompt_results") then Failure("metaprompt_results is required for execute_refinement")
    else
      var original := ArgOr(args, "original_prompt", ArgOr(args, "user_prompt", DefaultOriginalPrompt));
      Success(CreateResponse(ExecuteText(original, args["metaprompt_results"])))
  }

  /** `handleStep2GetStrategies`. */
  function Step2(cats: Categories, args: Args): (r: Result<Response, string>)
    ensures !Given(args, "category_name") ==> r == Failure("category_name is required for step2_get_strategies")
    ensures Given(args, "category_name") && args["category_name"] !in cats ==>
      r == Failure("Category '" + args["category_name"] + "' not found")
    ensures r.Success? <==> Given(args, "category_name") && args["category_name"] in cats
    ensures r.Success? ==>
      r.value == CreateResponse(Step2Text(args["category_name"], UserPrompt(args), cats[args["category_name"]]))
  {
    if !Given(args, "category_name") then Failure("category_name is required for step2_get_strategies")
    else
      var name := args["category_name"];
      if name !in cats then Failure("Category '" + name + "' not found")
      else Success(CreateResponse(Step2Text(name, UserPrompt(args), cats[name])))
  }

  /** `handleStep3ExecuteStrategy`: the checks of `RefineWith` with its own message. */
  function Step3(c: Catalog, args: Args): (r: Result<Response, string>)
    ensures !Given(args, "strategy_key") ==> r == Failure("strategy_key is required for step3_execute_strategy")
    ensures Given(args, "strategy_key") && Get(c, args["strategy_key"]).None? ==>
      r == Failure("Strategy '" + args["strategy_key"] + "' not found")
    ensures r.Success? <==> Given(args, "strategy_key") && Get(c, args["strategy_key"]).Some?
    ensures r.Success? ==>
      var s := Get(c, args["strategy_key"]).value;
      var p := UserPrompt(args);
      r.value == CreateResponse(Step3Text(s.name, s.description, p, Substitute(s.template, p)))
  {
    if !Given(args, "strategy_key") then Failure("strategy_key is required for step3_execute_strategy")
    else
      var key := args["strategy_key"];
      match Get(c, key)
      case None => Failure("Strategy '" + key + "' not found")
      case Some(s) =>
        var p := UserPrompt(args);
        Success(CreateResponse(Step3Text(s.name, s.description, p, Substitute(s.template, p))))
  }

  /** The handler objects the factory registers. */
  datatype Handler = AutoRefineHandler | RefineWithHandler | CompareHandler | TwoStepHandler | ThreeStepHandler

  /** The registrations, in insertion order. */
  const Registered: seq<(string, Handler)> := [
    ("auto_refine", AutoRefineHandler),
    ("refine_with", RefineWithHandler),
    ("compare_refinements", CompareHandler),
    ("prepare_refinement", TwoStepHandler),
    ("execute_refinement", TwoStepHandler),
    ("step1_get_categories", ThreeStepHandler),
    ("step2_get_strategies", ThreeStepHandler),
    ("step3_execute_strategy", ThreeStepHandler)
  ]

  /** `handlers.get(name)`. */
  function HandlerOf(name: string): (h: Option<Handler>)
    ensures h.Some? <==> exists i :: 0 <= i < |Registered| && Registered[i].0 == name
    ensures h.Some? ==> exists i :: 0 <= i < |Registered| && Registered[i] == (name, h.value)
  {
    match name
    case "auto_refine" => assert Registered[0] == (name, AutoRefineHandler); Some(AutoRefineHandler)
    case "refine_with" => assert Registered[1] == (name, RefineWithHandler); Some(RefineWithHandler)
    case "compare_refinements" => assert Registered[2] == (name, CompareHandler); Some(CompareHandler)
    case "prepare_refinement" => assert Registered[3] == (name, TwoStepHandler); Some(TwoStepHandler)
    case "execute_refinement" => assert Registered[4] == (name, TwoStepHandler); Some(TwoStepHandler)
    case "step1_get_categories" => assert Registered[5] == (name, ThreeStepHandler); Some(ThreeStepHandler)
    case "step2_get_strategies" => assert Registered[6] == (name, ThreeStepHandler); Some(ThreeStepHandler)
    case "step3_execute_strategy" => assert Registered[7] == (name, ThreeStepHandler); Some(ThreeStepHandler)
    case _ => None
  }

  /** `getAvailableWorkflows()`: the registered names in insertion order. */
  function AvailableWorkflows(): (ns: seq<string>)
    ensures |ns| == |Registered| && forall i :: 0 <= i < |ns| ==> ns[i] == Registered[i].0
  {
    seq(|Registered|, i requires 0 <= i < |Registered| => Registered[i].0)
  }

  /** Where `handleWorkflow` sends a name, in the order it tests them. */
  datatype Route =
    | RefineWithKey(key: string)
    | Prepare
    | ExecuteStep
    | Step1
    | Step2Route
    | Step3Route
    | Generic(handler: Handler)
    | UnknownWorkflow

  const RefinePrefix := "refine_with_"

  function RouteOf(name: string): Route {
    if IsPrefix(RefinePrefix, name) then RefineWithKey(ReplaceFirst(name, RefinePrefix, ""))
    else if name == "prepare_refinement" then Prepare
    else if name == "execute_refinement" then ExecuteStep
    else if name == "step1_get_categories" then Step1
    else if name == "step2_get_strategies" then Step2Route
    else if name == "step3_execute_strategy" then Step3Route
    else match HandlerOf(name)
      case Some(h) => Generic(h)
      case None => UnknownWorkflow
  }

  /** The prefix route passes on exactly the rest of the name: `replace` removes the
      first occurrence, which is the prefix itself. */
  lemma PrefixRouteKey(name: string)
    requires IsPrefix(RefinePrefix, name)
    ensures RouteOf(name) == RefineWithKey(name[|RefinePrefix|..])
  {
    assert OccursAt(name, RefinePrefix, 0);
    ReplaceFirstAt(name, RefinePrefix, "", 0);
    assert name[..0] == "";
  }

  /** The step handlers' generic `handle`, which throws, is never reached: every name
      registered for them is routed to its step method first. */
  lemma GenericRouteAvoidsStepHandlers(name: string)
    ensures RouteOf(name).Generic? ==>
      RouteOf(name).handler in {AutoRefineHandler, RefineWithHandler, CompareHandler}
  {
  }

  /** Exactly the registered names and the prefixed names are routed somewhere. */
  lemma UnknownIffUnregistered(name: string)
    ensures RouteOf(name) == UnknownWorkflow <==> !IsPrefix(RefinePrefix, name) && name !in AvailableWorkflows()
  {
    var ns := AvailableWorkflows();
    if name in ns {
      var i :| 0 <= i < |ns| && ns[i] == name;
      assert Registered[i].0 == name;
    }
    if HandlerOf(name).Some? {
      var i :| 0 <= i < |Registered| && Registered[i].0 == name;
      assert ns[i] == name;
    }
  }

  /** `handle(args)` of each handler object. */
  function Handle(h: Handler, c: Catalog, args: Args): (r: Result<Response, string>)
    ensures h == TwoStepHandler ==> r == Failure("TwoStepWorkflowHandler requires specific step methods")
    ensures h == ThreeStepHandler ==> r == Failure("ThreeStepWorkflowHandler requires specific step methods")
    ensures h == RefineWithHandler ==> r == RefineWith(c, args)
    ensures h == AutoRefineHandler ==> r == Success(CreateResponse(AutoRefineText(UserPrompt(args))))
    ensures h == CompareHandler ==> r == Success(Compare(c, args))
  {
    match h
    case AutoRefineHandler => Success(CreateResponse(AutoRefineText(UserPrompt(args))))
    case RefineWithHandler => RefineWith(c, args)
    case CompareHandler => Success(Compare(c, args))
    case TwoStepHandler => Failure("TwoStepWorkflowHandler requires specific step methods")
    case ThreeStepHandler => Failure("ThreeStepWorkflowHandler requires specific step methods")
  }

  /** `handleWorkflow(name, args)`. */
  function HandleWorkflow(c: Catalog, cats: Categories, name: string, args: Args): (r: Result<Response, string>)
    ensures RouteOf(name) == UnknownWorkflow ==> r == Failure("Unknown workflow: " + name)
    ensures r.Success? ==> |r.value.messages| == 1 && r.value.messages[0].role == "user"
  {
    match RouteOf(name)
    case RefineWithKey(k) => RefineWith(c, args["strategy_key" := k])
    case Prepare => Success(CreateResponse(PrepareText(UserPrompt(args))))
    case ExecuteStep => Execute(args)
    case Step1 => Success(CreateResponse(Step1Text(UserPrompt(args))))
    case Step2Route => Step2(cats, args)
    case Step3Route => Step3(c, args)
    case Generic(h) => Handle(h, c, args)
    case UnknownWorkflow => Failure("Unknown workflow: " + name)
  }

  /** `refine_with_<key>` refines with `<key>` whatever `strategy_key` the arguments
      carry. */
  lemma PrefixOverridesArgument(c: Catalog, cats: Categories, key: string, args: Args)
    requires key != ""
    ensures HandleWorkflow(c, cats, RefinePrefix + key, args) ==
      RefineWith(c, args["strategy_key" := key])
    ensures HandleWorkflow(c, cats, RefinePrefix + key, args).Success? <==> Get(c, key).Some?
  {
    var name := RefinePrefix + key;
    assert IsPrefix(RefinePrefix, name);
    PrefixRouteKey(name);
    assert name[|RefinePrefix|..] == key;
  }

  /** The bare prefix routes an empty key, which fails the required-argument check even
      when the arguments name a strategy. */
  lemma BarePrefixFails(c: Catalog, cats: Categories, args: Args)
    ensures HandleWorkflow(c, cats, RefinePrefix, args) == Failure("strategy_key is required for RefineWithHandler")
  {
    assert IsPrefix(RefinePrefix, RefinePrefix);
    PrefixRouteKey(RefinePrefix);
    assert RefinePrefix[|RefinePrefix|..] == "";
  }

  /** The registered name "refine_with" takes its key from the arguments instead. */
  lemma RegisteredRefineWithUsesArgument(c: Catalog, cats: Categories, args: Args)
    ensures HandleWorkflow(c, cats, "refine_with", args) == RefineWith(c, args)
  {
    assert !IsPrefix(RefinePrefix, "refine_with");
  }
}
