/** The Python core's `PromptRefiner` (src/core/prompt_refiner.py): the eight-rule
    auto-selection list with its alternatives table and detected-type classifier, the
    strategy-fit scorer, the comparison of candidate strategies and the construction of
    a refinement request. Text is matched after ASCII lower-casing and words are counted
    as `len(prompt.split())`. */
module CoreRefiner {
  import opened Wrappers
  import opened Text
  import opened Catalog
  import opened Selection
  import opened Scoring

  /** The decision list of `auto_select_strategy`, in source order. */
  const Rules: seq<Rule> := [
    Rule(AnyOf(["story", "creative", "narrative", "fiction"]), "star",
         "Comprehensive approach ideal for creative and narrative tasks"),
    Rule(AnyOf(["code", "programming", "technical", "implement", "function"]), "verse",
         "Structured approach excellent for technical and coding tasks"),
    Rule(AnyOf(["math", "proof", "equation", "theorem", "formula"]), "math",
         "Specialized approach for mathematical and formal reasoning"),
    Rule(AnyOf(["analyze", "compare", "evaluate", "scientific"]), "physics",
         "Balanced analytical approach for scientific analysis"),
    Rule(AnyOf(["optimize", "improve", "enhance", "refine"]), "bolism",
         "Optimization-focused approach for improvement tasks"),
    Rule(FewerWords(15), "morphosis", "Simple and efficient approach for short prompts"),
    Rule(MoreWords(50), "star", "Comprehensive approach for complex, detailed prompts")
  ]

  /** The `else` branch. */
  const Default := Choice("done", "Well-rounded approach with role-playing and advanced techniques")

  /** The `alternatives` dictionary. */
  function Alternatives(k: string): Option<string> {
    match k
    case "star" => Some("verse")
    case "verse" => Some("physics")
    case "math" => Some("arpe")
    case "physics" => Some("verse")
    case "morphosis" => Some("phor")
    case "done" => Some("star")
    case "bolism" => Some("touille")
    case "arpe" => Some("math")
    case "phor" => Some("morphosis")
    case "touille" => Some("done")
    case _ => None
  }

  /** `alternatives.get(key, "star")`. */
  function AlternativeOf(k: string): (a: string)
    ensures a == Alternatives(k).GetOr("star")
  {
    match Alternatives(k)
    case Some(a) => a
    case None => "star"
  }

  /** `_detect_prompt_type`: a classifier independent of the decision list. */
  function DetectType(promptLower: string): (t: string)
    ensures t in {"creative", "technical", "mathematical", "analytical", "general"}
    ensures t == "creative" <==> HasKeywords(promptLower, ["story", "creative", "narrative"])
    ensures t == "general" <==>
      !HasKeywords(promptLower, ["story", "creative", "narrative"]) &&
      !HasKeywords(promptLower, ["code", "programming", "technical"]) &&
      !HasKeywords(promptLower, ["math", "proof", "equation"]) &&
      !HasKeywords(promptLower, ["analyze", "scientific", "research"])
    ensures t == "technical" <==>
      !HasKeywords(promptLower, ["story", "creative", "narrative"]) &&
      HasKeywords(promptLower, ["code", "programming", "technical"])
    ensures t == "mathematical" <==>
      !HasKeywords(promptLower, ["story", "creative", "narrative"]) &&
      !HasKeywords(promptLower, ["code", "programming", "technical"]) &&
      HasKeywords(promptLower, ["math", "proof", "equation"])
    ensures t == "analytical" <==>
      !HasKeywords(promptLower, ["story", "creative", "narrative"]) &&
      !HasKeywords(promptLower, ["code", "programming", "technical"]) &&
      !HasKeywords(promptLower, ["math", "proof", "equation"]) &&
      HasKeywords(promptLower, ["analyze", "scientific", "research"])
  {
    if HasKeywords(promptLower, ["story", "creative", "narrative"]) then "creative"
    else if HasKeywords(promptLower, ["code", "programming", "technical"]) then "technical"
    else if HasKeywords(promptLower, ["math", "proof", "equation"]) then "mathematical"
    else if HasKeywords(promptLower, ["analyze", "scientific", "research"]) then "analytical"
    else "general"
  }

  /** The dictionary `auto_select_strategy` returns. */
  datatype AutoSelection = AutoSelection(
    userQuery: string,
    recommended: string,
    strategyName: string,
    reason: string,
    alternative: string,
    alternativeName: string,
    wordCount: nat,
    detectedType: string)

  /** The strategy's name when the catalog has it, the key otherwise. */
  function NameOr(c: Catalog, k: string): (n: string)
    ensures Get(c, k).Some? ==> n == Get(c, k).value.name
    ensures Get(c, k).None? ==> n == k
  {
    match Get(c, k)
    case Some(s) => s.name
    case None => k
  }

  function AutoSelect(c: Catalog, prompt: string): (r: AutoSelection)
    ensures r.userQuery == prompt && r.wordCount == PyWordCount(prompt)
    ensures Choice(r.recommended, r.reason) == Decide(Rules, Default, Lower(prompt), PyWordCount(prompt))
    ensures r.alternative == AlternativeOf(r.recommended)
    ensures r.strategyName == NameOr(c, r.recommended)
    ensures r.alternativeName == NameOr(c, r.alternative)
    ensures r.detectedType == DetectType(Lower(prompt))
  {
    var lower := Lower(prompt);
    var words := PyWordCount(prompt);
    var choice := Decide(Rules, Default, lower, words);
    var alternative := AlternativeOf(choice.key);
    AutoSelection(prompt, choice.key, NameOr(c, choice.key), choice.reason,
                  alternative, NameOr(c, alternative), words, DetectType(lower))
  }

  /** Every key the list can recommend has a table entry other than itself. */
  lemma AlternativesCoverRules()
    ensures AlternativesCover(Rules, Default, Alternatives)
  {
  }

  /** So the alternative is never the recommendation and the `"star"` fallback of
      `.get` is never taken. */
  lemma AlternativeDiffers(c: Catalog, prompt: string)
    ensures Alternatives(AutoSelect(c, prompt).recommended).Some?
    ensures AutoSelect(c, prompt).alternative != AutoSelect(c, prompt).recommended
  {
    AlternativesCoverRules();
    CoveredDecisionHasAlternative(Rules, Default, Alternatives, Lower(prompt), PyWordCount(prompt));
  }

  /** An empty (or all-whitespace) prompt has no words, holds no keyword and is sent to
      "morphosis". */
  lemma EmptyPromptSelectsMorphosis(c: Catalog)
    ensures AutoSelect(c, "").recommended == "morphosis"
    ensures AutoSelect(c, "").wordCount == 0
  {
    EmptyPromptBasics();
    NoKeywordRuleHoldsOnEmpty();
    DecidedBy(Rules, Default, "", 0, 5);
  }

  lemma EmptyPromptBasics()
    ensures Lower("") == "" && PyWordCount("") == 0
  {
  }

  /** The five keyword rules all fail on the empty text. */
  lemma NoKeywordRuleHoldsOnEmpty()
    ensures forall i :: 0 <= i < 5 ==> !Holds(Rules[i].cond, "", 0)
    ensures Holds(Rules[5].cond, "", 0)
  {
    forall i | 0 <= i < 5
      ensures !Holds(Rules[i].cond, "", 0)
    {
      NoKeywordInEmpty(Rules[i].cond, 0);
    }
  }

  /** A prompt holding only "fiction" is creative to the decision list but "general" to
      the classifier, whose creative keywords omit "fiction". */
  lemma FictionIsStarButGeneral(c: Catalog)
    ensures AutoSelect(c, "fiction").recommended == "star"
    ensures AutoSelect(c, "fiction").detectedType == "general"
  {
    FictionIsStar(c);
    FictionIsGeneral(c);
  }

  lemma FictionIsStar(c: Catalog)
    ensures AutoSelect(c, "fiction").recommended == "star"
  {
    FictionIsLower();
    FictionDecision(PyWordCount("fiction"));
  }

  lemma FictionIsGeneral(c: Catalog)
    ensures AutoSelect(c, "fiction").detectedType == "general"
  {
    FictionIsLower();
    FictionNotCreative();
    FictionNotTechnical();
    FictionNotMathematical();
    FictionNotAnalytical();
  }

  lemma FictionIsLower()
    ensures Lower("fiction") == "fiction"
  {
  }

  lemma FictionDecision(words: nat)
    ensures Decide(Rules, Default, "fiction", words).key == "star"
  {
    var l := "fiction";
    assert Contains(l, Rules[0].cond.keywords[3]) by {
      assert OccursAt(l, "fiction", 0);
      ContainsIffOccurs(l, "fiction");
    }
  }

  lemma FictionNotCreative()
    ensures !HasKeywords("fiction", ["story", "creative", "narrative"])
  {
    AbsentFromFiction("story", 0);
    AbsentFromFiction("creative", 1);
    AbsentFromFiction("narrative", 2);
  }

  lemma FictionNotTechnical()
    ensures !HasKeywords("fiction", ["code", "programming", "technical"])
  {
    AbsentFromFiction("code", 2);
    AbsentFromFiction("programming", 0);
    AbsentFromFiction("technical", 1);
  }

  lemma FictionNotMathematical()
    ensures !HasKeywords("fiction", ["math", "proof", "equation"])
  {
    AbsentFromFiction("math", 0);
    AbsentFromFiction("proof", 0);
    AbsentFromFiction("equation", 0);
  }

  lemma FictionNotAnalytical()
    ensures !HasKeywords("fiction", ["analyze", "scientific", "research"])
  {
    AbsentFromFiction("analyze", 0);
    AbsentFromFiction("scientific", 0);
    AbsentFromFiction("research", 1);
  }

  /** A word with a letter that "fiction" lacks is not in "fiction". */
  lemma AbsentFromFiction(k: string, j: nat)
    requires j < |k| && k[j] !in {'f', 'i', 'c', 't', 'o', 'n'}
    ensures !Contains("fiction", k)
  {
    var l := "fiction";
    assert l[0] == 'f' && l[1] == 'i' && l[2] == 'c' && l[3] == 't' && l[4] == 'i' && l[5] == 'o' && l[6] == 'n';
    AbsentChar(l, k, j);
  }

  /** The six bonuses of `_score_strategy_fit`, in source order. */
  const Bonuses: seq<Bonus> := [
    Bonus(DescAny(["creative", "story"]), PromptAny(["story", "creative", "narrative", "fiction"]),
          20, "creative focus"),
    Bonus(DescAny(["technical", "code"]), PromptAny(["code", "technical", "programming", "algorithm"]),
          20, "technical expertise"),
    Bonus(DescAny(["math"]), PromptAny(["math", "equation", "proof", "theorem"]),
          30, "mathematical reasoning"),
    Bonus(DescAny(["scientific"]), PromptAny(["scientific", "research", "hypothesis", "experiment"]),
          20, "scientific approach"),
    Bonus(DescAny(["comprehensive", "multi-stage"]), WordsAbove(30), 15, "handles complex prompts"),
    Bonus(DescAny(["simple", "quick"]), WordsBelow(20), 15, "efficient for simple tasks")
  ]

  /** `_score_strategy_fit(prompt, strategy)`. */
  function Fit(prompt: string, s: Strategy): (r: Score)
    ensures Base <= r.suitability <= 100 && |r.strengths| > 0
    ensures r.complexity == Complexity(PyWordCount(prompt))
    ensures r.suitability == Base <==> r.strengths == [GeneralPurpose]
    ensures forall x :: x in r.strengths ==>
      x == GeneralPurpose ||
      exists b :: b in Bonuses && b.strength == x && Applies(b, s.key, Lower(s.description), Lower(prompt), PyWordCount(prompt))
    ensures r == Rate(Bonuses, s.key, s.description, prompt, PyWordCount(prompt))
  {
    Rate(Bonuses, s.key, s.description, prompt, PyWordCount(prompt))
  }

  /** The candidates when no keys are given: the recommendation, its alternative and
      "physics", each once, at most three. */
  function DefaultCandidates(recommended: string, alternative: string): (ks: seq<string>)
    ensures Distinct(ks) && 1 <= |ks| <= 3 && ks[0] == recommended
    ensures forall k :: k in ks <==> k in {recommended, alternative, "physics"}
    ensures recommended != alternative ==> |ks| >= 2
    ensures ks ==
      if recommended == alternative then
        (if recommended == "physics" then [recommended] else [recommended, "physics"])
      else if alternative == "physics" || recommended == "physics" then [recommended, alternative]
      else [recommended, alternative, "physics"]
  {
    DedupThree(recommended, alternative, "physics");
    CandidateShapes(recommended, alternative);
    Take(Dedup([recommended, alternative, "physics"]), 3)
  }

  /** The three shapes the default candidates take. */
  lemma CandidateShapes(recommended: string, alternative: string)
    ensures var ks :=
      if recommended == alternative then
        (if recommended == "physics" then [recommended] else [recommended, "physics"])
      else if alternative == "physics" || recommended == "physics" then [recommended, alternative]
      else [recommended, alternative, "physics"];
      Distinct(ks) && 1 <= |ks| <= 3 && ks[0] == recommended &&
      (forall k :: k in ks <==> k in {recommended, alternative, "physics"}) &&
      (recommended != alternative ==> |ks| >= 2)
  {
  }

  /** The rating the comparison loop applies to each candidate. */
  function Rating(prompt: string): (rate: Strategy -> Score)
    ensures forall s :: rate(s) == Fit(prompt, s)
  {
    s => Fit(prompt, s)
  }

  /** The comparison loop and `max` over an explicit candidate list. */
  function CompareKeys(c: Catalog, prompt: string, ks: seq<string>): (r: Result<Comparison, string>)
    ensures r.Failure? <==> forall k :: k in ks ==> Get(c, k).None?
    ensures r.Success? ==> r.value.recommendation in ks && Get(c, r.value.recommendation).Some?
    ensures r.Success? ==> Distinct(EntryKeys(r.value.comparisons))
    ensures r.Success? ==> forall e :: e in r.value.comparisons ==>
      Get(c, e.key).Some? && e.name == Get(c, e.key).value.name && e.score == Fit(prompt, Get(c, e.key).value)
    ensures r.Success? ==>
      var cs := r.value.comparisons;
      exists i :: (0 <= i < |cs| && cs[i].key == r.value.recommendation &&
        (forall j :: 0 <= j < |cs| ==> cs[j].score.suitability <= cs[i].score.suitability) &&
        (forall j :: 0 <= j < i ==> cs[j].score.suitability < cs[i].score.suitability) &&
        r.value.reasoning == Reasoning(cs[i]))
  {
    var es := Collect(c, ks, Rating(prompt));
    assert |es| == 0 <==> |EntryKeys(es)| == 0;
    Recommend(prompt, es, true)
  }
  /** The recommended strategy fits the prompt at least as well as every known candidate. */
  lemma CompareKeysPicksBestFit(c: Catalog, prompt: string, ks: seq<string>)
    ensures var r := CompareKeys(c, prompt, ks);
      r.Success? ==> forall k :: k in ks && Get(c, k).Some? ==>
        Fit(prompt, Get(c, k).value).suitability <= Fit(prompt, Get(c, r.value.recommendation).value).suitability
  {
    RecommendedRatesBest(c, prompt, ks, Rating(prompt), true);
  }


  /** `compare_strategies(prompt, strategy_keys)`: `None` stands for omitted keys. */
  function Compare(c: Catalog, prompt: string, keys: Option<seq<string>>): (r: Result<Comparison, string>)
    ensures keys.Some? ==> r == CompareKeys(c, prompt, keys.value)
    ensures keys.None? ==>
      var sel := AutoSelect(c, prompt);
      r == CompareKeys(c, prompt, DefaultCandidates(sel.recommended, sel.alternative))
  {
    match keys
    case Some(ks) => CompareKeys(c, prompt, ks)
    case None =>
      var sel := AutoSelect(c, prompt);
      CompareKeys(c, prompt, DefaultCandidates(sel.recommended, sel.alternative))
  }

  /** The record `refine_prompt` returns: the model's three answer fields are left empty
      and the prompt is substituted into the template for the client to process. */
  datatype RefineResult = RefineResult(
    strategyKey: string,
    strategyName: string,
    strategyDescription: string,
    initialPromptEvaluation: string,
    refinedPrompt: string,
    explanationOfRefinements: string,
    metaprompt: string)

  /** `refine_prompt(prompt, key)`: an unknown key raises `ValueError`. */
  function Refine(c: Catalog, prompt: string, key: string): (r: Result<RefineResult, string>)
    ensures r.Failure? <==> Get(c, key).None?
    ensures r.Failure? ==> r.error == "Strategy '" + key + "' not found"
    ensures r.Success? ==>
      var s := Get(c, key).value;
      && r.value.strategyKey == key && r.value.strategyName == s.name
      && r.value.strategyDescription == s.description
      && r.value.initialPromptEvaluation == "" && r.value.refinedPrompt == ""
      && r.value.explanationOfRefinements == ""
      && r.value.metaprompt == Join(Split(s.template, Placeholder), prompt)
      && (Contains(s.template, Placeholder) ==> Contains(r.value.metaprompt, prompt))
      && (!Contains(s.template, Placeholder) ==> r.value.metaprompt == s.template)
  {
    match Get(c, key)
    case None => Failure("Strategy '" + key + "' not found")
    case Some(s) =>
      ReplaceAllCases(s.template, Placeholder, prompt);
      Success(RefineResult(key, s.name, s.description, "", "", "",
                           ReplaceAll(s.template, Placeholder, prompt)))
  }
}
