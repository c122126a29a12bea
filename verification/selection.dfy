/** The shape shared by the three auto-selection heuristics: an ordered decision list
    whose first satisfied rule names the strategy, a default for when none is, and
    lookup tables written as ordered `(key, value)` pairs. */
module Selection {
  import opened Wrappers
  import opened Text

  /** `any(k in text for k in keywords)` / `keywords.some(k => text.includes(k))`. */
  predicate HasKeywords(text: string, keywords: seq<string>) {
    exists i :: 0 <= i < |keywords| && Contains(text, keywords[i])
  }

  /** What a rule tests: a keyword, or the word count against a bound. */
  datatype Cond =
    | AnyOf(keywords: seq<string>)
    | FewerWords(limit: nat)
    | MoreWords(limit: nat)

  datatype Rule = Rule(cond: Cond, key: string, reason: string)

  /** A decision: the strategy key and the reason given for it. */
  datatype Choice = Choice(key: string, reason: string)

  predicate Holds(c: Cond, text: string, words: nat) {
    match c
    case AnyOf(ks) => HasKeywords(text, ks)
    case FewerWords(n) => words < n
    case MoreWords(n) => words > n
  }

  /** The index of the first rule that holds. */
  function FirstMatch(rules: seq<Rule>, text: string, words: nat): (r: Option<nat>)
    ensures r.Some? ==> r.value < |rules| && Holds(rules[r.value].cond, text, words)
    ensures r.Some? ==> forall j :: 0 <= j < r.value ==> !Holds(rules[j].cond, text, words)
    ensures r.None? ==> forall j :: 0 <= j < |rules| ==> !Holds(rules[j].cond, text, words)
    decreases |rules|
  {
    if |rules| == 0 then None
    else if Holds(rules[0].cond, text, words) then Some(0)
    else match FirstMatch(rules[1..], text, words)
      case Some(i) => Some(i + 1)
      case None => None
  }

  /** The `if … elif … else` chain: the first rule that holds decides, else the default. */
  function Decide(rules: seq<Rule>, default: Choice, text: string, words: nat): (c: Choice)
    ensures c == default || exists i :: 0 <= i < |rules| && c == Choice(rules[i].key, rules[i].reason)
    ensures forall i ::
      (0 <= i < |rules| && Holds(rules[i].cond, text, words) &&
       forall j :: 0 <= j < i ==> !Holds(rules[j].cond, text, words)) ==>
      c == Choice(rules[i].key, rules[i].reason)
    ensures (forall j :: 0 <= j < |rules| ==> !Holds(rules[j].cond, text, words)) ==> c == default
  {
    match FirstMatch(rules, text, words)
    case Some(i) => Choice(rules[i].key, rules[i].reason)
    case None => default
  }

  /** A keyword of rule `i` present in the text means a rule no later than `i` decides. */
  lemma KeywordDecidesByRule(rules: seq<Rule>, text: string, words: nat, i: nat, k: string)
    requires i < |rules| && rules[i].cond.AnyOf? && k in rules[i].cond.keywords
    requires Contains(text, k)
    ensures FirstMatch(rules, text, words).Some? && FirstMatch(rules, text, words).value <= i
  {
    var j :| 0 <= j < |rules[i].cond.keywords| && rules[i].cond.keywords[j] == k;
    assert Holds(rules[i].cond, text, words);
  }

  /** Shadowing: a keyword of a later rule `j` that contains a keyword of an earlier rule
      `i` can never be what selects rule `j`, since any text holding it holds the
      earlier keyword too. */
  lemma ShadowedKeyword(rules: seq<Rule>, i: nat, j: nat, earlier: string, later: string,
                        text: string, words: nat)
    requires i < j < |rules| && rules[i].cond.AnyOf? && rules[j].cond.AnyOf?
    requires earlier in rules[i].cond.keywords && later in rules[j].cond.keywords
    requires Contains(later, earlier)
    requires Contains(text, later)
    ensures FirstMatch(rules, text, words).Some? && FirstMatch(rules, text, words).value <= i < j
  {
    ContainsTransitive(text, later, earlier);
    KeywordDecidesByRule(rules, text, words, i, earlier);
  }

  /** Rule `i` decides when it holds and no earlier rule does. */
  lemma DecidedBy(rules: seq<Rule>, default: Choice, text: string, words: nat, i: nat)
    requires i < |rules| && Holds(rules[i].cond, text, words)
    requires forall j :: 0 <= j < i ==> !Holds(rules[j].cond, text, words)
    ensures FirstMatch(rules, text, words) == Some(i)
    ensures Decide(rules, default, text, words) == Choice(rules[i].key, rules[i].reason)
  {
  }

  /** Empty text holds no non-empty keyword. */
  lemma NoKeywordInEmpty(c: Cond, words: nat)
    requires c.AnyOf? && forall j :: 0 <= j < |c.keywords| ==> |c.keywords[j]| > 0
    ensures !Holds(c, "", words)
  {
    forall j | 0 <= j < |c.keywords| ensures !Contains("", c.keywords[j]) { }
  }

  /** A rule none of whose keywords can select it. */
  predicate Unreachable(rules: seq<Rule>, j: nat)
    requires j < |rules| && rules[j].cond.AnyOf?
  {
    forall k :: k in rules[j].cond.keywords ==>
      exists i :: 0 <= i < j && rules[i].cond.AnyOf? &&
                  exists e :: e in rules[i].cond.keywords && Contains(k, e)
  }

  /** Such a rule is never the first match, whatever the text. */
  lemma UnreachableNeverDecides(rules: seq<Rule>, j: nat, text: string, words: nat)
    requires j < |rules| && rules[j].cond.AnyOf? && Unreachable(rules, j)
    ensures FirstMatch(rules, text, words) != Some(j)
  {
    if FirstMatch(rules, text, words) == Some(j) {
      var ks := rules[j].cond.keywords;
      assert Holds(rules[j].cond, text, words);
      assert HasKeywords(text, ks);
      var m :| 0 <= m < |ks| && Contains(text, ks[m]);
      assert ks[m] in rules[j].cond.keywords;
      var i :| 0 <= i < j && rules[i].cond.AnyOf? &&
               exists e :: e in rules[i].cond.keywords && Contains(ks[m], e);
      var e :| e in rules[i].cond.keywords && Contains(ks[m], e);
      ShadowedKeyword(rules, i, j, e, ks[m], text, words);
    }
  }

  /** Every rule key and the default key have a table entry that differs from them. */
  predicate AlternativesCover(rules: seq<Rule>, default: Choice, table: string -> Option<string>) {
    (forall i :: 0 <= i < |rules| ==>
      table(rules[i].key).Some? && table(rules[i].key).value != rules[i].key) &&
    table(default.key).Some? && table(default.key).value != default.key
  }

  /** When the table covers the list, whatever the text, the decision has an entry
      naming a different strategy, so a lookup fallback is never taken. */
  lemma CoveredDecisionHasAlternative(rules: seq<Rule>, default: Choice, table: string -> Option<string>,
                                      text: string, words: nat)
    requires AlternativesCover(rules, default, table)
    ensures var c := Decide(rules, default, text, words);
      table(c.key).Some? && table(c.key).value != c.key
  {
    var c := Decide(rules, default, text, words);
    if c != default {
      var i :| 0 <= i < |rules| && c == Choice(rules[i].key, rules[i].reason);
    }
  }
}
