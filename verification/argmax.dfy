/** Choosing the best-scored candidate. Python's `max(..., key=...)` keeps the first
    maximum; the TypeScript `reduce((a, b) => s[a] > s[b] ? a : b)` replaces the
    running best unless it is strictly greater, so it ends on the last maximum. Both fail
    on an empty sequence, which callers model as an error. */
module ArgMax {

  /** Python's `max`: a later candidate replaces the best only when strictly greater. */
  function FirstMax(s: seq<int>): (r: nat)
    requires |s| > 0
    ensures r < |s|
    ensures forall j :: 0 <= j < |s| ==> s[j] <= s[r]
    ensures forall j :: 0 <= j < r ==> s[j] < s[r]
    decreases |s|
  {
    if |s| == 1 then 0
    else
      var best := FirstMax(s[..|s| - 1]);
      if s[|s| - 1] > s[best] then |s| - 1 else best
  }

  /** The TypeScript `reduce` with `>`: the running best survives only when strictly
      greater than the next candidate. */
  function LastMax(s: seq<int>): (r: nat)
    requires |s| > 0
    ensures r < |s|
    ensures forall j :: 0 <= j < |s| ==> s[j] <= s[r]
    ensures forall j :: r < j < |s| ==> s[j] < s[r]
    decreases |s|
  {
    if |s| == 1 then 0
    else
      var acc := LastMax(s[..|s| - 1]);
      if s[acc] > s[|s| - 1] then acc else |s| - 1
  }

  /** The two rules pick the same candidate exactly when the maximum is attained once. */
  lemma FirstMaxIsLastMaxIffUnique(s: seq<int>)
    requires |s| > 0
    ensures FirstMax(s) == LastMax(s) <==>
      forall j :: 0 <= j < |s| && s[j] == s[FirstMax(s)] ==> j == FirstMax(s)
  {
  }

  /** On a tie between the first two of two candidates Python keeps the first and the
      TypeScript `reduce` the second. */
  lemma TieBreaksDiffer(a: int)
    ensures FirstMax([a, a]) == 0 && LastMax([a, a]) == 1
  {
    assert [a, a][..1] == [a];
  }
}
