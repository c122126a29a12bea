/** The TypeScript `PromptRefiner` (src/prompt-refiner.ts): a forty-one-rule
    auto-selection list, a forty-four-entry alternatives table, the strategy-fit scorer
    with four key-or-description gated bonuses ahead of the six generic ones, and the
    comparison whose `reduce` keeps the last maximum. Words are counted as
    `prompt.split(/\s+/).length`. */
module TsRefiner {
  import opened Wrappers
  import opened Text
  import opened Catalog
  import opened Selection
  import opened Scoring
  import CoreRefiner

  /** The decision list of `autoSelectStrategy`, in source order; each rule is preceded
      by its index and the line of src/prompt-refiner.ts it transcribes. */
  function Rules(): seq<Rule> {
    seq(41, i requires 0 <= i < 41 => RuleAt(i))
  }

  function RuleAt(i: int): Rule {
    match i
    case 0 => // line 15
      Rule(AnyOf(["assumption", "assume", "suppose", "expect", "implicit", "given that"]),
      "assumption_detector",
      "Systematically challenge hidden assumptions to reveal better solutions")
    case 1 => // line 18
      Rule(AnyOf(["decision", "choice", "alternative", "option", "should we", "vs", "versus"]),
      "devils_advocate",
      "Generate counterarguments to test decision robustness")
    case 2 => // line 21
      Rule(AnyOf(["consequences", "impact", "effects", "ripple", "cascade", "downstream"]),
      "ripple_effect",
      "Analyze cascading effects across systems and time")
    case 3 => // line 24
      Rule(AnyOf(["stakeholder", "perspective", "viewpoint", "different", "various", "multiple views"]),
      "perspective_multiplier",
      "Examine problem through multiple stakeholder lenses")
    case 4 => // line 27
      Rule(AnyOf(["evidence", "proof", "data", "validate", "verify", "support", "basis"]),
      "evidence_seeker",
      "Demand concrete evidence before accepting claims")
    case 5 => // line 30
      Rule(AnyOf(["pattern", "similar", "recurring", "repeated", "trend", "common"]),
      "pattern_recognizer",
      "Identify patterns and anti-patterns for better solutions")
    case 6 => // line 33
      Rule(AnyOf(["why", "root cause", "underlying", "fundamental", "source", "origin"]),
      "root_cause_analyzer",
      "Drill down to fundamental causes rather than symptoms")
    case 7 => // line 36
      Rule(AnyOf(["constraint", "limitation", "bound", "restrict", "cannot", "impossible"]),
      "constraint_identifier",
      "Map and challenge constraints to expand solution space")
    case 8 => // line 39
      Rule(AnyOf(["paradox", "contradiction", "both", "conflicting", "opposing", "tension"]),
      "paradox_navigator",
      "Resolve contradictory requirements through creative synthesis")
    case 9 => // line 42
      Rule(AnyOf(["tradeoff", "sacrifice", "cost", "benefit", "exchange", "compromise"]),
      "tradeoff_tracker",
      "Make all tradeoffs explicit including hidden costs")
    case 10 => // line 45
      Rule(AnyOf(["context", "broader", "bigger picture", "scope", "system", "holistic"]),
      "context_expander",
      "Expand context to prevent local optimization problems")
    case 11 => // line 48
      Rule(AnyOf(["vague", "unclear", "ambiguous", "specific", "precise", "clarify"]),
      "precision_questioner",
      "Transform vague requirements into precise specifications")
    case 12 => // line 51
      Rule(AnyOf(["future", "long-term", "maintainability", "evolution", "years", "legacy"]),
      "time_capsule_test",
      "Project decisions across time horizons for durability")
    case 13 => // line 56
      Rule(AnyOf(["template", "boilerplate", "starter", "scaffold", "foundation", "begin"]),
      "start_from_template",
      "Leverage proven templates for faster, better foundations")
    case 14 => // line 59
      Rule(AnyOf(["agent", "assistant", "ai help", "copilot", "pair", "collaborate"]),
      "use_agent_mode",
      "Optimize AI-assisted development workflow")
    case 15 => // line 62
      Rule(AnyOf(["test", "tdd", "testing", "spec", "behavior", "should"]),
      "write_tests_first",
      "Test-driven development for clarity and quality")
    case 16 => // line 65
      Rule(AnyOf(["file", "large", "complex", "modular", "organize", "structure"]),
      "keep_files_small",
      "Maintain modular, readable code through size constraints")
    case 17 => // line 68
      Rule(AnyOf(["local", "test", "frequently", "feedback", "quick", "iteration"]),
      "run_locally_test_frequently",
      "Establish rapid feedback loops for continuous validation")
    case 18 => // line 71
      Rule(AnyOf(["pattern", "convention", "consistent", "style", "existing", "follow"]),
      "follow_existing_patterns",
      "Maintain consistency by following established patterns")
    case 19 => // line 74
      Rule(AnyOf(["delete", "remove", "cleanup", "dead code", "unused", "simplify"]),
      "delete_aggressively",
      "Remove unnecessary complexity and dead code")
    case 20 => // line 77
      Rule(AnyOf(["small", "incremental", "deploy", "ship", "release", "gradual"]),
      "ship_small_changes",
      "Deploy small, safe increments for faster feedback")
    case 21 => // line 80
      Rule(AnyOf(["collaborate", "team", "together", "share", "communicate", "align"]),
      "collaborate_early_often",
      "Engage stakeholders throughout development")
    case 22 => // line 83
      Rule(AnyOf(["refactor", "improve", "clean", "quality", "technical debt", "maintainability"]),
      "refactor_continuously",
      "Improve code structure as part of regular development")
    case 23 => // line 86
      Rule(AnyOf(["document", "why", "intent", "decision", "rationale", "purpose"]),
      "document_intent",
      "Document why decisions were made, not how code works")
    case 24 => // line 91
      Rule(AnyOf(["thinking", "cognitive", "bias", "assumption", "meta", "recursive", "self-reflection"]),
      "metacognitive",
      "Meta-cognitive reflection for examining thinking processes and cognitive biases")
    case 25 => // line 94
      Rule(AnyOf(["attack", "defend", "secure", "vulnerability", "stress test", "robust", "adversarial"]),
      "adversarial",
      "Adversarial red-blue team approach for stress-testing and fortification")
    case 26 => // line 97
      Rule(AnyOf(["scale", "pattern", "recursive", "self-similar", "fractal", "hierarchy", "decomposition"]),
      "fractal",
      "Fractal recursive decomposition for scale-invariant problem solving")
    case 27 => // line 100
      Rule(AnyOf(["uncertainty", "multiple", "parallel", "probability", "quantum", "superposition", "ambiguous"]),
      "quantum",
      "Quantum superposition thinking for navigating uncertainty and parallel possibilities")
    case 28 => // line 103
      Rule(AnyOf(["time", "timeline", "historical", "future", "past", "temporal", "causality", "evolution"]),
      "temporal",
      "Temporal multi-timeline analysis for time-aware problem solving")
    case 29 => // line 106
      Rule(AnyOf(["combine", "synthesis", "fusion", "innovation", "cross-domain", "disparate", "creative fusion"]),
      "synthesis",
      "Synthesis fusion engine for combining disparate concepts and breakthrough innovation")
    case 30 => // line 109
      Rule(AnyOf(["story", "creative", "narrative", "fiction"]),
      "star",
      "Comprehensive approach ideal for creative and narrative tasks")
    case 31 => // line 112
      Rule(AnyOf(["architecture", "system design", "microservices", "scalability", "enterprise"]),
      "architect",
      "Specialized approach for software architecture and system design")
    case 32 => // line 115
      Rule(AnyOf(["review", "code review", "quality", "security issues", "standards", "best practices"]),
      "reviewer",
      "Comprehensive code review and quality assurance framework")
    case 33 => // line 118
      Rule(AnyOf(["iterative", "testing", "development cycle", "feedback", "refactor"]),
      "boomerang",
      "Iterative development approach with continuous improvement cycles")
    case 34 => // line 121
      Rule(AnyOf(["devops", "ci/cd", "deployment", "infrastructure", "docker", "kubernetes"]),
      "devops",
      "DevOps and infrastructure automation approach")
    case 35 => // line 124
      Rule(AnyOf(["code", "programming", "technical", "implement", "function", "api", "database"]),
      "boomerang",
      "Iterative development approach perfect for complex coding tasks")
    case 36 => // line 127
      Rule(AnyOf(["math", "proof", "equation", "theorem", "formula"]),
      "math",
      "Specialized approach for mathematical and formal reasoning")
    case 37 => // line 130
      Rule(AnyOf(["analyze", "compare", "evaluate", "scientific"]),
      "physics",
      "Balanced analytical approach for scientific analysis")
    case 38 => // line 133
      Rule(AnyOf(["optimize", "improve", "enhance", "refine"]),
      "bolism",
      "Optimization-focused approach for improvement tasks")
    case 39 => // line 136
      Rule(FewerWords(15), "morphosis", "Simple and efficient approach for short prompts")
    case 40 => // line 139
      Rule(MoreWords(50), "star", "Comprehensive approach for complex, detailed prompts")
    case _ => Rule(AnyOf([]), "", "")
  }

  /** The final `else`. */
  const Default := Choice("done", "Well-rounded approach with role-playing and advanced techniques")

  /** The `alternatives` object literal. */
  function Alternatives(k: string): Option<string> {
    match k
    case "assumption_detector" => Some("devils_advocate")
    case "devils_advocate" => Some("assumption_detector")
    case "ripple_effect" => Some("context_expander")
    case "perspective_multiplier" => Some("evidence_seeker")
    case "evidence_seeker" => Some("precision_questioner")
    case "pattern_recognizer" => Some("root_cause_analyzer")
    case "root_cause_analyzer" => Some("pattern_recognizer")
    case "constraint_identifier" => Some("paradox_navigator")
    case "paradox_navigator" => Some("constraint_identifier")
    case "tradeoff_tracker" => Some("time_capsule_test")
    case "context_expander" => Some("ripple_effect")
    case "precision_questioner" => Some("evidence_seeker")
    case "time_capsule_test" => Some("tradeoff_tracker")
    case "start_from_template" => Some("follow_existing_patterns")
    case "use_agent_mode" => Some("collaborate_early_often")
    case "write_tests_first" => Some("run_locally_test_frequently")
    case "keep_files_small" => Some("refactor_continuously")
    case "run_locally_test_frequently" => Some("write_tests_first")
    case "follow_existing_patterns" => Some("start_from_template")
    case "delete_aggressively" => Some("refactor_continuously")
    case "ship_small_changes" => Some("run_locally_test_frequently")
    case "collaborate_early_often" => Some("use_agent_mode")
    case "refactor_continuously" => Some("keep_files_small")
    case "document_intent" => Some("follow_existing_patterns")
    case "star" => Some("verse")
    case "verse" => Some("physics")
    case "math" => Some("arpe")
    case "physics" => Some("verse")
    case "morphosis" => Some("phor")
    case "done" => Some("star")
    case "bolism" => Some("touille")
    case "arpe" => Some("math")
    case "phor" => Some("morphosis")
    case "touille" => Some("done")
    case "architect" => Some("devops")
    case "boomerang" => Some("reviewer")
    case "reviewer" => Some("boomerang")
    case "devops" => Some("architect")
    case "metacognitive" => Some("adversarial")
    case "adversarial" => Some("fractal")
    case "fractal" => Some("quantum")
    case "quantum" => Some("temporal")
    case "temporal" => Some("synthesis")
    case "synthesis" => Some("metacognitive")
    case _ => None
  }

  /** `alternatives[key] || "star"`. */
  function AlternativeOf(k: string): (a: string)
    ensures Alternatives(k).Some? && Alternatives(k).value != "" ==> a == Alternatives(k).value
    ensures Alternatives(k).None? || Alternatives(k).value == "" ==> a == "star"
  {
    match Alternatives(k)
    case Some(a) => if a != "" then a else "star"
    case None => "star"
  }

  /** `strategy?.name || key`: an unknown key or an empty name gives the key. */
  function NameOr(c: Catalog, k: string): (n: string)
    ensures Get(c, k).Some? && Get(c, k).value.name != "" ==> n == Get(c, k).value.name
    ensures Get(c, k).None? || Get(c, k).value.name == "" ==> n == k
  {
    match Get(c, k)
    case Some(s) => if s.name != "" then s.name else k
    case None => k
  }

  /** The object `autoSelectStrategy` returns. */
  datatype AutoSelection = AutoSelection(
    userQuery: string,
    recommended: string,
    strategyName: string,
    reason: string,
    alternative: string,
    alternativeName: string,
    wordCount: nat,
    detectedType: string)

  function AutoSelect(c: Catalog, prompt: string): (r: AutoSelection)
    ensures r.userQuery == prompt && r.wordCount == JsWordCount(prompt) && r.wordCount >= 1
    ensures Choice(r.recommended, r.reason) == Decide(Rules(), Default, Lower(prompt), JsWordCount(prompt))
    ensures r.alternative == AlternativeOf(r.recommended)
    ensures r.strategyName == NameOr(c, r.recommended)
    ensures r.alternativeName == NameOr(c, r.alternative)
    ensures r.detectedType == CoreRefiner.DetectType(Lower(prompt))
  {
    var lower := Lower(prompt);
    var words := JsWordCount(prompt);
    var choice := Decide(Rules(), Default, lower, words);
    var alternative := AlternativeOf(choice.key);
    AutoSelection(prompt, choice.key, NameOr(c, choice.key), choice.reason,
                  alternative, NameOr(c, alternative), words, CoreRefiner.DetectType(lower))
  }

  /** The keys the rules name. */
  const RecommendableKeys: set<string> := {
    "adversarial", "architect", "assumption_detector", "bolism",
    "boomerang", "collaborate_early_often", "constraint_identifier", "context_expander",
    "delete_aggressively", "devils_advocate", "devops", "document_intent",
    "evidence_seeker", "follow_existing_patterns", "fractal", "keep_files_small",
    "math", "metacognitive", "morphosis", "paradox_navigator", "pattern_recognizer",
    "perspective_multiplier", "physics", "precision_questioner", "quantum",
    "refactor_continuously", "reviewer", "ripple_effect", "root_cause_analyzer",
    "run_locally_test_frequently", "ship_small_changes", "star", "start_from_template",
    "synthesis", "temporal", "time_capsule_test", "tradeoff_tracker",
    "use_agent_mode", "write_tests_first"
  }

  lemma RuleKeysRecommendable()
    ensures forall i :: 0 <= i < |Rules()| ==> Rules()[i].key in RecommendableKeys
  {
  }

  lemma RecommendableKeysCovered()
    ensures forall k :: k in RecommendableKeys + {Default.key} ==>
      Alternatives(k).Some? && Alternatives(k).value != k && Alternatives(k).value != ""
  {
  }

  /** Every key the list can recommend has a non-empty table entry other than itself. */
  lemma AlternativesCoverRules()
    ensures AlternativesCover(Rules(), Default, Alternatives)
  {
    RuleKeysRecommendable();
    RecommendableKeysCovered();
  }

  /** So the alternative always comes from the table and differs from the
      recommendation: the `|| "star"` fallback is never taken. */
  lemma AlternativeDiffers(c: Catalog, prompt: string)
    ensures Alternatives(AutoSelect(c, prompt).recommended).Some?
    ensures AutoSelect(c, prompt).alternative == Alternatives(AutoSelect(c, prompt).recommended).value
    ensures AutoSelect(c, prompt).alternative != AutoSelect(c, prompt).recommended
  {
    var d := Decide(Rules(), Default, Lower(prompt), JsWordCount(prompt));
    RuleKeysRecommendable();
    RecommendableKeysCovered();
    assert d.key in RecommendableKeys + {Default.key};
  }

  /** The text is decided by rule `i` or an earlier one. */
  predicate DecidedWithin(text: string, words: nat, i: nat) {
    FirstMatch(Rules(), text, words).Some? && FirstMatch(Rules(), text, words).value <= i
  }

  /** The keywords the shadowing lemmas below rely on, at their places in the list (one
      small lemma per use keeps each proof's view of the list small). */
  lemma AssumptionKeyword()
    ensures Rules()[0].cond.AnyOf? && "assumption" in Rules()[0].cond.keywords
  {
    KeywordAt(0, 0, "assumption");
  }

  lemma PatternKeyword()
    ensures Rules()[5].cond.AnyOf? && "pattern" in Rules()[5].cond.keywords
  {
    KeywordAt(5, 0, "pattern");
  }

  lemma TestKeyword()
    ensures Rules()[15].cond.AnyOf? && "test" in Rules()[15].cond.keywords
  {
    KeywordAt(15, 0, "test");
  }

  lemma DataKeyword()
    ensures Rules()[4].cond.AnyOf? && "data" in Rules()[4].cond.keywords
  {
    KeywordAt(4, 2, "data");
  }

  lemma DatabaseKeyword()
    ensures Rules()[35].cond.AnyOf? && "database" in Rules()[35].cond.keywords
  {
    KeywordAt(35, 6, "database");
  }

  lemma SystemKeyword()
    ensures Rules()[10].cond.AnyOf? && "system" in Rules()[10].cond.keywords
  {
    KeywordAt(10, 4, "system");
  }

  lemma SystemDesignKeyword()
    ensures Rules()[31].cond.AnyOf? && "system design" in Rules()[31].cond.keywords
  {
    KeywordAt(31, 1, "system design");
  }

  /** Keyword `j` of rule `i` is `k`. */
  lemma KeywordAt(i: nat, j: nat, k: string)
    requires i < 41 && RuleAt(i).cond.AnyOf? && j < |RuleAt(i).cond.keywords| && RuleAt(i).cond.keywords[j] == k
    ensures Rules()[i].cond.AnyOf? && k in Rules()[i].cond.keywords
  {
    assert Rules()[i] == RuleAt(i);
  }

  /** The later keywords that hold an earlier one. */
  lemma NestedKeywords()
    ensures Contains("test", "test") && Contains("stress test", "test") && Contains("testing", "test")
    ensures Contains("database", "data") && Contains("system design", "system")
  {
    var stress := "stress test";
    assert stress[7..11] == "test";
    OccursContained(stress, "test", 7);
    assert IsPrefix("test", "testing");
    assert IsPrefix("data", "database");
    assert IsPrefix("system", "system design");
  }

  lemma OccursContained(s: string, k: string, i: int)
    requires OccursAt(s, k, i)
    ensures Contains(s, k)
  {
    ContainsIffOccurs(s, k);
  }

  /** "pattern" belongs to rule 5 (line 30), so it never selects rule 18 (line 71) or
      rule 26 (line 97), which list it again. */
  lemma PatternShadowed(text: string, words: nat)
    requires Contains(text, "pattern")
    ensures DecidedWithin(text, words, 5)
  {
    PatternKeyword();
    KeywordDecidesByRule(Rules(), text, words, 5, "pattern");
  }

  /** "test" belongs to rule 15 (line 62), so neither rule 17 (line 68) through "test",
      rule 25 (line 94) through "stress test" nor rule 33 (line 118) through "testing"
      can be selected by those keywords. */
  lemma TestShadowed(text: string, words: nat, later: string)
    requires later in {"test", "stress test", "testing"}
    requires Contains(text, later)
    ensures DecidedWithin(text, words, 15)
  {
    NestedKeywords();
    ContainsTransitive(text, later, "test");
    TestKeyword();
    KeywordDecidesByRule(Rules(), text, words, 15, "test");
  }

  /** "assumption" belongs to rule 0 (line 15), so it never selects rule 24 (line 91). */
  lemma AssumptionShadowed(text: string, words: nat)
    requires Contains(text, "assumption")
    ensures DecidedWithin(text, words, 0)
  {
    AssumptionKeyword();
    KeywordDecidesByRule(Rules(), text, words, 0, "assumption");
  }

  /** "data" (rule 4, line 27) is inside "database" (rule 35, line 124), and "system"
      (rule 10, line 45) inside "system design" (rule 31, line 112). */
  lemma ContainedKeywordsShadowed(text: string, words: nat)
    ensures Contains(text, "database") ==> DecidedWithin(text, words, 4)
    ensures Contains(text, "system design") ==> DecidedWithin(text, words, 10)
  {
    if Contains(text, "database") {
      DatabaseShadowed(text, words);
    }
    if Contains(text, "system design") {
      SystemDesignShadowed(text, words);
    }
  }

  lemma DatabaseShadowed(text: string, words: nat)
    requires Contains(text, "database")
    ensures DecidedWithin(text, words, 4)
  {
    NestedKeywords();
    DataKeyword();
    DatabaseKeyword();
    ShadowedKeyword(Rules(), 4, 35, "data", "database", text, words);
  }

  lemma SystemDesignShadowed(text: string, words: nat)
    requires Contains(text, "system design")
    ensures DecidedWithin(text, words, 10)
  {
    NestedKeywords();
    SystemKeyword();
    SystemDesignKeyword();
    ShadowedKeyword(Rules(), 10, 31, "system", "system design", text, words);
  }

  /** The four bonuses gated on the strategy's key or description (lines 287-313). */
  const GatedBonuses: seq<Bonus> := [
    Bonus(KeyOrDesc("architect", "architecture"),
          PromptAny(["architecture", "system design", "microservices", "scalability", "design"]),
          35, "architecture specialization"),
    Bonus(KeyOrDesc("boomerang", "iterative"),
          PromptAny(["testing", "refactor", "iterative", "development", "api", "build"]),
          30, "iterative development"),
    Bonus(KeyOrDesc("reviewer", "review"),
          PromptAny(["review", "code review", "quality", "security", "standards"]),
          35, "code review expertise"),
    Bonus(KeyOrDesc("devops", "devops"),
          PromptAny(["devops", "ci/cd", "pipeline", "deployment", "infrastructure", "docker"]),
          35, "devops specialization")
  ]

  /** The scorer's bonuses: the gated ones, then the six the Python core also has. */
  const Bonuses: seq<Bonus> := GatedBonuses + CoreRefiner.Bonuses

  /** `scoreStrategyFit(prompt, strategy)`. */
  function Fit(prompt: string, s: Strategy): (r: Score)
    ensures Base <= r.suitability <= 100 && |r.strengths| > 0
    ensures r.complexity == Complexity(JsWordCount(prompt))
    ensures r.suitability == Base <==> r.strengths == [GeneralPurpose]
    ensures forall x :: x in r.strengths ==>
      x == GeneralPurpose ||
      exists b :: b in Bonuses && b.strength == x && Applies(b, s.key, Lower(s.description), Lower(prompt), JsWordCount(prompt))
    ensures r == Rate(Bonuses, s.key, s.description, prompt, JsWordCount(prompt))
  {
    Rate(Bonuses, s.key, s.description, prompt, JsWordCount(prompt))
  }

  /** Against the Python scorer on a prompt both count the same number of words: the
      TypeScript suitability is never lower, and it is the same score whenever no gated
      bonus applies. */
  lemma FitExtendsPython(prompt: string, s: Strategy)
    requires JsWordCount(prompt) == PyWordCount(prompt)
    ensures Fit(prompt, s).suitability >= CoreRefiner.Fit(prompt, s).suitability
    ensures Applied(GatedBonuses, s.key, Lower(s.description), Lower(prompt), JsWordCount(prompt)) == [] ==>
      Fit(prompt, s) == CoreRefiner.Fit(prompt, s)
  {
    RateWithExtraBonuses(GatedBonuses, CoreRefiner.Bonuses, s.key, s.description, prompt, JsWordCount(prompt));
  }

  /** The rating the comparison loop applies to each candidate. */
  function Rating(prompt: string): (rate: Strategy -> Score)
    ensures forall s :: rate(s) == Fit(prompt, s)
  {
    s => Fit(prompt, s)
  }

  /** The comparison loop and the `reduce` over an explicit candidate list: the last
      key of maximal suitability wins. */
  function CompareKeys(c: Catalog, prompt: string, ks: seq<string>): (r: Result<Comparison, string>)
    ensures r.Failure? <==> forall k :: k in ks ==> Get(c, k).None?
    ensures r.Success? ==> r.value.recommendation in ks && Get(c, r.value.recommendation).Some?
    ensures r.Success? ==> Distinct(EntryKeys(r.value.comparisons))
    ensures r.Success? ==> forall e :: e in r.value.comparisons ==>
      Get(c, e.key).Some? && e.name == Get(c, e.key).value.name && e.score == Fit(prompt, Get(c, e.key).value)
    ensures r.Success? ==>
      var cs := r.value.comparisons;
      exists i :: (0 <= i < |cs| && cs[i].key == r.value.recommendation &&
        (forall j :: 0 <= j < |cs| ==> cs[j].score.suitability <= cs[i].score.suitability) &&
        (forall j :: i < j < |cs| ==> cs[j].score.suitability < cs[i].score.suitability) &&
        r.value.reasoning == Reasoning(cs[i]))
  {
    var es := Collect(c, ks, Rating(prompt));
    assert |es| == 0 <==> |EntryKeys(es)| == 0;
    Recommend(prompt, es, false)
  }
  /** The recommended strategy fits the prompt at least as well as every known candidate. */
  lemma CompareKeysPicksBestFit(c: Catalog, prompt: string, ks: seq<string>)
    ensures var r := CompareKeys(c, prompt, ks);
      r.Success? ==> forall k :: k in ks && Get(c, k).Some? ==>
        Fit(prompt, Get(c, k).value).suitability <= Fit(prompt, Get(c, r.value.recommendation).value).suitability
  {
    RecommendedRatesBest(c, prompt, ks, Rating(prompt), false);
  }


  /** `compareStrategies(prompt, strategyKeys)`: `None` stands for an omitted list; an
      explicit list, even an empty one, is used as given, neither deduplicated nor cut. */
  function Compare(c: Catalog, prompt: string, keys: Option<seq<string>>): (r: Result<Comparison, string>)
    ensures keys.Some? ==> r == CompareKeys(c, prompt, keys.value)
    ensures keys.None? ==>
      var sel := AutoSelect(c, prompt);
      r == CompareKeys(c, prompt, CoreRefiner.DefaultCandidates(sel.recommended, sel.alternative))
  {
    match keys
    case Some(ks) => CompareKeys(c, prompt, ks)
    case None =>
      var sel := AutoSelect(c, prompt);
      CompareKeys(c, prompt, CoreRefiner.DefaultCandidates(sel.recommended, sel.alternative))
  }
}
