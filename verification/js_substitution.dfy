/** Substituting the user's prompt into a template on the TypeScript side:
    `template.replace('[Insert initial prompt here]', userPrompt)`. With a string
    pattern JavaScript replaces the first occurrence only, but it still reads the
    replacement through GetSubstitution (section 22.1.3.19.1 of ECMA-262), so `$$`,
    `$&`, `` $` `` and `$'` in the user's prompt are expanded rather than copied. */
module JsSubstitution {
  import opened Text
  import opened Catalog

  /** GetSubstitution for a string pattern (no capture groups): `$$` is a dollar, `$&`
      the matched text, `` $` `` the text before the match, `$'` the text after it;
      any other `$` stands for itself. */
  function Expand(x: string, matched: string, before: string, after: string): string
    decreases |x|
  {
    if |x| == 0 then ""
    else if x[0] == '$' && |x| >= 2 && x[1] == '$' then "$" + Expand(x[2..], matched, before, after)
    else if x[0] == '$' && |x| >= 2 && x[1] == '&' then matched + Expand(x[2..], matched, before, after)
    else if x[0] == '$' && |x| >= 2 && x[1] == '`' then before + Expand(x[2..], matched, before, after)
    else if x[0] == '$' && |x| >= 2 && x[1] == '\'' then after + Expand(x[2..], matched, before, after)
    else [x[0]] + Expand(x[1..], matched, before, after)
  }

  predicate NoDollar(x: string) {
    forall i :: 0 <= i < |x| ==> x[i] != '$'
  }

  /** A replacement without `$` is copied as it is. */
  lemma {:induction false} ExpandWithoutDollar(x: string, matched: string, before: string, after: string)
    requires NoDollar(x)
    ensures Expand(x, matched, before, after) == x
    decreases |x|
  {
    if |x| > 0 {
      assert x[0] != '$';
      assert NoDollar(x[1..]) by {
        forall i | 0 <= i < |x[1..]| ensures x[1..][i] != '$' {
          assert x[1..][i] == x[i + 1];
        }
      }
      ExpandWithoutDollar(x[1..], matched, before, after);
      assert x == [x[0]] + x[1..];
    }
  }

  /** `s.replace(p, x)` as JavaScript evaluates it: the first occurrence of `p` is
      replaced by the expansion of `x`. */
  function JsReplace(s: string, p: string, x: string): (r: string)
    requires |p| > 0
    ensures !Contains(s, p) ==> r == s
    ensures Contains(s, p) ==>
      exists i :: OccursAt(s, p, i) && (forall j :: 0 <= j < i ==> !OccursAt(s, p, j)) &&
        r == s[..i] + Expand(x, p, s[..i], s[i + |p|..]) + s[i + |p|..]
  {
    var parts := Split(s, p);
    NoOccurrenceIffNotContains(s, p);
    if |parts| == 1 then s
    else
      var after := Join(parts[1..], p);
      SplitFirst(s, p);
      assert OccursAt(s, p, |parts[0]|);
      parts[0] + Expand(x, p, parts[0], after) + after
  }

  /** A prompt without `$` is inserted literally: JavaScript agrees with the
      first-occurrence replacement. */
  lemma JsReplaceWithoutDollar(s: string, p: string, x: string)
    requires |p| > 0 && NoDollar(x)
    ensures JsReplace(s, p, x) == ReplaceFirst(s, p, x)
  {
    ReplaceFirstIsHeadJoin(s, p, x);
    var parts := Split(s, p);
    if |parts| > 1 {
      ExpandWithoutDollar(x, p, parts[0], Join(parts[1..], p));
    }
  }

  /** The prompt "$&" is replaced by the matched placeholder itself: a template holding
      the placeholder comes back unchanged and the prompt is lost, whereas a literal
      first-occurrence replacement puts "$&" in the placeholder's place. */
  lemma DollarAmpersandKeepsTemplate(t: string, p: string)
    requires |p| > 0 && |p| != 2 && Contains(t, p)
    ensures JsReplace(t, p, "$&") == t
    ensures ReplaceFirst(t, p, "$&") != t
  {
    DollarAmpersandRestores(t, p);
    DollarAmpersandLiteral(t, p);
  }

  lemma DollarAmpersandRestores(t: string, p: string)
    requires |p| > 0 && Contains(t, p)
    ensures JsReplace(t, p, "$&") == t
  {
    NoOccurrenceIffNotContains(t, p);
    var i := JsReplaceAtFirst(t, p, "$&");
    ExpandMatched(p, t[..i], t[i + |p|..]);
    Reassemble(t, p, i, JsReplace(t, p, "$&"));
  }

  lemma Reassemble(t: string, p: string, i: int, r: string)
    requires OccursAt(t, p, i) && r == t[..i] + p + t[i + |p|..]
    ensures r == t
  {
    assert t == t[..i] + t[i..i + |p|] + t[i + |p|..];
  }

  lemma ExpandMatched(matched: string, before: string, after: string)
    ensures Expand("$&", matched, before, after) == matched
  {
    assert Expand("$&", matched, before, after) == matched + Expand("", matched, before, after);
  }

  /** Where `p` occurs, the replacement sits at the first occurrence `i`. */
  lemma JsReplaceAtFirst(s: string, p: string, x: string) returns (i: nat)
    requires |p| > 0 && |Split(s, p)| > 1
    ensures OccursAt(s, p, i)
    ensures JsReplace(s, p, x) == s[..i] + Expand(x, p, s[..i], s[i + |p|..]) + s[i + |p|..]
  {
    SplitFirst(s, p);
    i := |Split(s, p)[0]|;
  }

  lemma DollarAmpersandLiteral(t: string, p: string)
    requires |p| > 0 && |p| != 2 && Contains(t, p)
    ensures ReplaceFirst(t, p, "$&") != t
  {
    var parts := Split(t, p);
    NoOccurrenceIffNotContains(t, p);
    var after := Join(parts[1..], p);
    JoinSplit(t, p);
    assert Join(parts, p) == parts[0] + p + after;
    ReplaceFirstIsHeadJoin(t, p, "$&");
    assert |ReplaceFirst(t, p, "$&")| != |t|;
  }

  /** The same on the real placeholder: a user prompt of "$&" never reaches the
      rendered template. */
  lemma PromptDollarAmpersandIsLost(template: string)
    requires Contains(template, Placeholder)
    ensures JsReplace(template, Placeholder, "$&") == template
    ensures Substitute(template, "$&") != template
  {
    DollarAmpersandKeepsTemplate(template, Placeholder);
  }

  /** The substitution the templates are meant to receive: the first placeholder is
      replaced by the prompt taken literally. */
  function Substitute(template: string, prompt: string): (r: string)
    ensures Contains(template, Placeholder) ==> Contains(r, prompt)
    ensures !Contains(template, Placeholder) ==> r == template
    ensures NoDollar(prompt) ==> r == JsReplace(template, Placeholder, prompt)
  {
    ReplaceFirstCases(template, Placeholder, prompt);
    assert NoDollar(prompt) ==>
      ReplaceFirst(template, Placeholder, prompt) == JsReplace(template, Placeholder, prompt) by {
      if NoDollar(prompt) {
        JsReplaceWithoutDollar(template, Placeholder, prompt);
      }
    }
    ReplaceFirst(template, Placeholder, prompt)
  }
}
