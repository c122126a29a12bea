/** The strategy-fit scorer shared in shape by the Python core and the TypeScript
    refiner: a base suitability of 50, bonuses gated on the strategy and tested on the
    prompt, a clamp at 100, a word-count complexity and a "general purpose" fallback
    strength; and the comparison table built from a list of candidate keys. */
module Scoring {
  import opened Wrappers
  import opened Text
  import opened Selection
  import opened Catalog
  import opened ArgMax

  /** Which strategies a bonus applies to: a description mentioning one of the words, or
      (TypeScript only) the strategy with this key or a description mentioning `word`. */
  datatype Gate =
    | DescAny(words: seq<string>)
    | KeyOrDesc(key: string, word: string)

  /** What the prompt must show for the bonus. */
  datatype Test =
    | PromptAny(keywords: seq<string>)
    | WordsAbove(limit: nat)
    | WordsBelow(limit: nat)

  datatype Bonus = Bonus(gate: Gate, test: Test, points: nat, strength: string)

  datatype Score = Score(suitability: int, complexity: int, strengths: seq<string>)

  const Base := 50
  const GeneralPurpose := "general purpose"

  predicate Opens(g: Gate, key: string, descLower: string) {
    match g
    case DescAny(ws) => HasKeywords(descLower, ws)
    case KeyOrDesc(k, w) => key == k || Contains(descLower, w)
  }

  predicate Passes(t: Test, promptLower: string, words: nat) {
    match t
    case PromptAny(ks) => HasKeywords(promptLower, ks)
    case WordsAbove(n) => words > n
    case WordsBelow(n) => words < n
  }

  predicate Applies(b: Bonus, key: string, descLower: string, promptLower: string, words: nat) {
    Opens(b.gate, key, descLower) && Passes(b.test, promptLower, words)
  }

  /** The bonuses that apply, in the order the scorer checks them. */
  function Applied(bs: seq<Bonus>, key: string, descLower: string, promptLower: string, words: nat): (r: seq<Bonus>)
    ensures forall b :: b in r <==> b in bs && Applies(b, key, descLower, promptLower, words)
    ensures |r| <= |bs|
    decreases |bs|
  {
    if |bs| == 0 then []
    else
      (if Applies(bs[0], key, descLower, promptLower, words) then [bs[0]] else [])
      + Applied(bs[1..], key, descLower, promptLower, words)
  }

  function Points(bs: seq<Bonus>): nat
    decreases |bs|
  {
    if |bs| == 0 then 0 else bs[0].points + Points(bs[1..])
  }

  function StrengthsOf(bs: seq<Bonus>): (r: seq<string>)
    ensures |r| == |bs| && forall i :: 0 <= i < |bs| ==> r[i] == bs[i].strength
  {
    seq(|bs|, i requires 0 <= i < |bs| => bs[i].strength)
  }

  /** Complexity from the word count alone: above 50 words 80, below 20 words 30,
      otherwise 50. */
  function Complexity(words: nat): (c: int)
    ensures c == 30 || c == 50 || c == 80
    ensures (c == 80 <==> words > 50) && (c == 30 <==> words < 20)
  {
    if words > 50 then 80 else if words < 20 then 30 else 50
  }

  lemma {:induction false} AppliedAppend(a: seq<Bonus>, b: seq<Bonus>, key: string, descLower: string,
                                         promptLower: string, words: nat)
    ensures Applied(a + b, key, descLower, promptLower, words) ==
            Applied(a, key, descLower, promptLower, words) + Applied(b, key, descLower, promptLower, words)
    decreases |a|
  {
    if |a| > 0 {
      assert (a + b)[1..] == a[1..] + b;
      AppliedAppend(a[1..], b, key, descLower, promptLower, words);
    } else {
      assert a + b == b;
    }
  }

  lemma {:induction false} PointsAppend(a: seq<Bonus>, b: seq<Bonus>)
    ensures Points(a + b) == Points(a) + Points(b)
    decreases |a|
  {
    if |a| > 0 {
      assert (a + b)[1..] == a[1..] + b;
      PointsAppend(a[1..], b);
    } else {
      assert a + b == b;
    }
  }

  /** Every bonus is worth something and is named by a real strength. */
  predicate WellFormed(bs: seq<Bonus>) {
    forall i :: 0 <= i < |bs| ==> bs[i].points > 0 && bs[i].strength != GeneralPurpose
  }

  lemma {:induction false} PointsPositive(bs: seq<Bonus>)
    requires WellFormed(bs)
    ensures Points(bs) == 0 <==> |bs| == 0
    decreases |bs|
  {
    if |bs| > 0 {
      assert WellFormed(bs[1..]) by {
        forall i | 0 <= i < |bs[1..]|
          ensures bs[1..][i].points > 0 && bs[1..][i].strength != GeneralPurpose
        {
          assert bs[1..][i] == bs[i + 1];
        }
      }
      PointsPositive(bs[1..]);
    }
  }

  lemma {:induction false} AppliedWellFormed(bs: seq<Bonus>, key: string, descLower: string, promptLower: string, words: nat)
    requires WellFormed(bs)
    ensures WellFormed(Applied(bs, key, descLower, promptLower, words))
  {
    var r := Applied(bs, key, descLower, promptLower, words);
    forall i | 0 <= i < |r|
      ensures r[i].points > 0 && r[i].strength != GeneralPurpose
    {
      assert r[i] in r;
      var j :| 0 <= j < |bs| && bs[j] == r[i];
    }
  }

  /** The score: suitability is the base plus the applied bonuses, clamped to 100; the
      strengths are those of the applied bonuses, or "general purpose" if none apply. */
  function Rate(bs: seq<Bonus>, key: string, description: string, prompt: string, words: nat): (s: Score)
    requires WellFormed(bs)
    ensures Base <= s.suitability <= 100
    ensures |s.strengths| > 0
    ensures s.suitability == Base <==> s.strengths == [GeneralPurpose]
    ensures s.complexity == Complexity(words)
    ensures forall x :: x in s.strengths ==>
      x == GeneralPurpose || exists b :: b in bs && b.strength == x && Applies(b, key, Lower(description), Lower(prompt), words)
    ensures var applied := Applied(bs, key, Lower(description), Lower(prompt), words);
      s.suitability == (if Base + Points(applied) < 100 then Base + Points(applied) else 100) &&
      s.strengths == (if applied == [] then [GeneralPurpose] else StrengthsOf(applied))
  {
    var applied := Applied(bs, key, Lower(description), Lower(prompt), words);
    AppliedWellFormed(bs, key, Lower(description), Lower(prompt), words);
    PointsPositive(applied);
    var total := Base + Points(applied);
    var strengths := StrengthsOf(applied);
    assert |applied| > 0 ==> strengths[0] != GeneralPurpose;
    Score(
      if total < 100 then total else 100,
      Complexity(words),
      if |strengths| == 0 then [GeneralPurpose] else strengths)
  }

  /** Putting bonuses `g` ahead of `bs` never lowers the suitability, and changes
      nothing when none of `g` applies. */
  lemma RateWithExtraBonuses(g: seq<Bonus>, bs: seq<Bonus>, key: string, description: string,
                             prompt: string, words: nat)
    requires WellFormed(g + bs) && WellFormed(bs)
    ensures Rate(g + bs, key, description, prompt, words).suitability >=
            Rate(bs, key, description, prompt, words).suitability
    ensures Applied(g, key, Lower(description), Lower(prompt), words) == [] ==>
      Rate(g + bs, key, description, prompt, words) == Rate(bs, key, description, prompt, words)
  {
    var d, p := Lower(description), Lower(prompt);
    AppliedAppend(g, bs, key, d, p, words);
    PointsAppend(Applied(g, key, d, p, words), Applied(bs, key, d, p, words));
    if Applied(g, key, d, p, words) == [] {
      assert [] + Applied(bs, key, d, p, words) == Applied(bs, key, d, p, words);
    }
  }

  /** A bonus that applies, put ahead of the others, adds its points (below the cap)
      and its strength comes first; one that does not apply changes nothing. */
  lemma {:induction false} RateOneMore(g: Bonus, bs: seq<Bonus>, key: string, description: string,
                                       prompt: string, words: nat)
    requires WellFormed([g] + bs) && WellFormed(bs)
    ensures var before, after := Rate(bs, key, description, prompt, words), Rate([g] + bs, key, description, prompt, words);
      if Applies(g, key, Lower(description), Lower(prompt), words) then
        after.strengths[0] == g.strength &&
        (before.suitability + g.points < 100 ==> after.suitability == before.suitability + g.points) &&
        (before.suitability + g.points >= 100 ==> after.suitability == 100)
      else after == before
  {
    var d, p := Lower(description), Lower(prompt);
    assert ([g] + bs)[0] == g && ([g] + bs)[1..] == bs;
    var rest := Applied(bs, key, d, p, words);
    if Applies(g, key, d, p, words) {
      assert Applied([g] + bs, key, d, p, words) == [g] + rest;
      assert Points([g] + rest) == g.points + Points(rest) by {
        assert ([g] + rest)[0] == g && ([g] + rest)[1..] == rest;
      }
      AppliedWellFormed(bs, key, d, p, words);
      PointsPositive(rest);
    } else {
      assert Applied([g] + bs, key, d, p, words) == [] + rest;
      assert [] + rest == rest;
    }
  }

  /** One row of a comparison: the candidate key, its strategy name and its score. */
  datatype Entry = Entry(key: string, name: string, score: Score)

  function EntryKeys(es: seq<Entry>): (r: seq<string>)
    ensures |r| == |es| && forall i :: 0 <= i < |es| ==> r[i] == es[i].key
  {
    seq(|es|, i requires 0 <= i < |es| => es[i].key)
  }

  /** `comparisons[key] = …` on an insertion-ordered dictionary or object. */
  function PutEntry(es: seq<Entry>, e: Entry): (r: seq<Entry>)
    ensures e in r
    ensures forall x :: x in r ==> x == e || x in es
    ensures forall x :: x in es && x.key != e.key ==> x in r
    ensures e.key in EntryKeys(es) ==> EntryKeys(r) == EntryKeys(es)
    ensures e.key !in EntryKeys(es) ==> EntryKeys(r) == EntryKeys(es) + [e.key]
    decreases |es|
  {
    if |es| == 0 then [e]
    else if es[0].key == e.key then
      SameKeyUpdate(es, e);
      es[0 := e]
    else
      var rest := PutEntry(es[1..], e);
      EntryKeysCons(es[0], es[1..]);
      EntryKeysCons(es[0], rest);
      assert [es[0]] + es[1..] == es;
      [es[0]] + rest
  }

  lemma EntryKeysCons(x: Entry, xs: seq<Entry>)
    ensures EntryKeys([x] + xs) == [x.key] + EntryKeys(xs)
  {
  }

  /** Overwriting the first entry with one of the same key keeps the keys. */
  lemma SameKeyUpdate(es: seq<Entry>, e: Entry)
    requires |es| > 0 && es[0].key == e.key
    ensures e in es[0 := e] && EntryKeys(es[0 := e]) == EntryKeys(es)
  {
    assert es[0 := e][0] == e;
  }

  /** The comparison loop: each candidate the catalog knows is scored, unknown ones are
      skipped, and a repeated key keeps its first position. */
  function Collect(c: Catalog, keys: seq<string>, rate: Strategy -> Score): (es: seq<Entry>)
    ensures Distinct(EntryKeys(es))
    ensures forall k :: k in EntryKeys(es) <==> k in keys && Get(c, k).Some?
    ensures forall x :: x in es ==>
      Get(c, x.key).Some? && x == Entry(x.key, Get(c, x.key).value.name, rate(Get(c, x.key).value))
    decreases |keys|
  {
    if |keys| == 0 then []
    else
      var prior := Collect(c, keys[..|keys| - 1], rate);
      var k := keys[|keys| - 1];
      assert keys == keys[..|keys| - 1] + [k];
      match Get(c, k)
      case Some(s) => PutEntry(prior, Entry(k, s.name, rate(s)))
      case None => prior
  }

  function Suitabilities(es: seq<Entry>): (r: seq<int>)
    ensures |r| == |es| && forall i :: 0 <= i < |es| ==> r[i] == es[i].score.suitability
  {
    seq(|es|, i requires 0 <= i < |es| => es[i].score.suitability)
  }

  /** The text after "due to its": the strengths joined by ", ". */
  function Reasoning(e: Entry): string {
    "Based on the analysis, '" + e.name + "' is the best fit due to its " + Join(e.score.strengths, ", ")
  }

  datatype Comparison = Comparison(prompt: string, comparisons: seq<Entry>, recommendation: string, reasoning: string)

  /** The recommendation over the collected rows, or the crash of `max`/`reduce` on none.
      `firstMax` selects Python's rule, otherwise the TypeScript one. The Python message
      is the wording of CPython 3.11 and earlier (3.12 reworded it); the TypeScript one
      is the V8 TypeError of `reduce` with no initial value. */
  function Recommend(prompt: string, es: seq<Entry>, firstMax: bool): (r: Result<Comparison, string>)
    ensures r.Failure? <==> |es| == 0
    ensures r.Failure? ==>
      r.error == if firstMax then "max() arg is an empty sequence" else "Reduce of empty array with no initial value"
    ensures r.Success? ==> r.value.recommendation in EntryKeys(es) && r.value.comparisons == es
    ensures r.Success? ==>
      exists i :: (0 <= i < |es| && r.value.recommendation == es[i].key &&
        (forall j :: 0 <= j < |es| ==> es[j].score.suitability <= es[i].score.suitability) &&
        (firstMax ==> forall j :: 0 <= j < i ==> es[j].score.suitability < es[i].score.suitability) &&
        (!firstMax ==> forall j :: i < j < |es| ==> es[j].score.suitability < es[i].score.suitability) &&
        r.value.reasoning == Reasoning(es[i]))
  {
    if |es| == 0 then
      Failure(if firstMax then "max() arg is an empty sequence" else "Reduce of empty array with no initial value")
    else
      var scores := Suitabilities(es);
      var i := if firstMax then FirstMax(scores) else LastMax(scores);
      Success(Comparison(prompt, es, es[i].key, Reasoning(es[i])))
  }

  /** An entry of maximal suitability in a collected comparison belongs to a known
      candidate whose rating is not below that of any other known candidate. */
  lemma MaxEntryRatesBest(c: Catalog, keys: seq<string>, rate: Strategy -> Score, es: seq<Entry>, i: nat)
    requires forall k :: k in EntryKeys(es) <==> k in keys && Get(c, k).Some?
    requires forall x :: x in es ==>
      Get(c, x.key).Some? && x == Entry(x.key, Get(c, x.key).value.name, rate(Get(c, x.key).value))
    requires i < |es| && forall j :: 0 <= j < |es| ==> es[j].score.suitability <= es[i].score.suitability
    ensures Get(c, es[i].key).Some?
    ensures forall k :: k in keys && Get(c, k).Some? ==>
      rate(Get(c, k).value).suitability <= rate(Get(c, es[i].key).value).suitability
  {
    assert es[i] in es;
    forall k | k in keys && Get(c, k).Some?
      ensures rate(Get(c, k).value).suitability <= rate(Get(c, es[i].key).value).suitability
    {
      assert k in EntryKeys(es);
      var j :| 0 <= j < |es| && EntryKeys(es)[j] == k;
      assert es[j] in es;
    }
  }

  /** The recommended key rates at least as well as every known candidate. */
  lemma RecommendedRatesBest(c: Catalog, prompt: string, ks: seq<string>, rate: Strategy -> Score, firstMax: bool)
    ensures var r := Recommend(prompt, Collect(c, ks, rate), firstMax);
      r.Success? ==> Get(c, r.value.recommendation).Some? && forall k :: k in ks && Get(c, k).Some? ==>
        rate(Get(c, k).value).suitability <= rate(Get(c, r.value.recommendation).value).suitability
  {
    var es := Collect(c, ks, rate);
    if |es| > 0 {
      var i := if firstMax then FirstMax(Suitabilities(es)) else LastMax(Suitabilities(es));
      MaxEntryRatesBest(c, ks, rate, es, i);
    }
  }
}
