/** String primitives the source relies on, written out so that their edge cases are
    explicit: ASCII lower-casing, substring containment, the two languages' whitespace
    classes and word counts, `split`/`join`, `replace` (all occurrences, as Python's
    `str.replace`; first occurrence, as JavaScript's `String.prototype.replace` with a
    string pattern) and JavaScript's `trim`. */
module Text {

  /** Lower-casing restricted to ASCII: 'A'..'Z' map to 'a'..'z', every other
      character is unchanged. */
  function LowerChar(c: char): char {
    if 'A' <= c <= 'Z' then (c as int + 32) as char else c
  }

  function Lower(s: string): (r: string)
    ensures |r| == |s|
    ensures forall i :: 0 <= i < |s| ==> r[i] == LowerChar(s[i])
  {
    if |s| == 0 then "" else [LowerChar(s[0])] + Lower(s[1..])
  }

  lemma LowerAppend(a: string, b: string)
    ensures Lower(a + b) == Lower(a) + Lower(b)
  {
    assert forall i :: 0 <= i < |a + b| ==> Lower(a + b)[i] == (Lower(a) + Lower(b))[i];
  }

  predicate IsLowerAscii(s: string) {
    forall i :: 0 <= i < |s| ==> !('A' <= s[i] <= 'Z')
  }

  lemma LowerIsLower(s: string)
    ensures IsLowerAscii(Lower(s))
    ensures Lower(Lower(s)) == Lower(s)
  {
    var l := Lower(s);
    assert forall i :: 0 <= i < |l| ==> LowerChar(l[i]) == l[i];
  }

  predicate IsPrefix(p: string, s: string) {
    |p| <= |s| && s[..|p|] == p
  }

  /** `k in s` in Python, `s.includes(k)` in JavaScript: a left-to-right scan. */
  predicate Contains(s: string, k: string)
    decreases |s|
  {
    IsPrefix(k, s) || (|s| > 0 && Contains(s[1..], k))
  }

  /** `k` occurs in `s` starting at index `i`. */
  predicate OccursAt(s: string, k: string, i: int) {
    0 <= i && i + |k| <= |s| && s[i..i + |k|] == k
  }

  /** The scan finds `k` exactly when `k` occurs at some index. */
  lemma {:induction false} ContainsIffOccurs(s: string, k: string)
    ensures Contains(s, k) <==> exists i :: OccursAt(s, k, i)
    decreases |s|
  {
    if IsPrefix(k, s) {
      assert OccursAt(s, k, 0);
    } else if |s| == 0 {
    } else {
      ContainsIffOccurs(s[1..], k);
      if Contains(s[1..], k) {
        var i :| OccursAt(s[1..], k, i);
        assert s[1..][i..i + |k|] == s[i + 1..i + 1 + |k|];
        assert OccursAt(s, k, i + 1);
      }
      if exists i :: OccursAt(s, k, i) {
        var i :| OccursAt(s, k, i);
        assert s[1..][i - 1..i - 1 + |k|] == s[i..i + |k|];
        assert OccursAt(s[1..], k, i - 1);
      }
    }
  }

  /** Containment is transitive: text holding `b`, where `b` holds `c`, holds `c`. */
  lemma ContainsTransitive(a: string, b: string, c: string)
    requires Contains(a, b) && Contains(b, c)
    ensures Contains(a, c)
  {
    ContainsIffOccurs(a, b);
    ContainsIffOccurs(b, c);
    var i :| OccursAt(a, b, i);
    var j :| OccursAt(b, c, j);
    forall n | 0 <= n < |c|
      ensures a[i + j + n] == c[n]
    {
      assert a[i + j + n] == b[j + n];
    }
    assert a[i + j..i + j + |c|] == c;
    assert OccursAt(a, c, i + j);
    ContainsIffOccurs(a, c);
  }

  lemma ContainsPrefix(s: string, k: string, rest: string)
    ensures Contains(k + rest, k)
  {
    assert (k + rest)[..|k|] == k;
  }

  /** A keyword holding a character the text lacks does not occur in it. */
  lemma AbsentChar(s: string, k: string, j: nat)
    requires j < |k|
    requires forall i :: 0 <= i < |s| ==> s[i] != k[j]
    ensures !Contains(s, k)
  {
    ContainsIffOccurs(s, k);
  }

  lemma OccursAtIndex(s: string, k: string, i: int, p: int)
    ensures OccursAt(s, k, i) && i <= p < i + |k| ==> k[p - i] == s[p]
  {
    if OccursAt(s, k, i) && i <= p < i + |k| {
      assert s[i..i + |k|][p - i] == s[p];
    }
  }

  /** An occurrence of a keyword free of the separator `c` lies on one side of it. */
  lemma ContainsAcrossSeparator(a: string, b: string, k: string, c: char)
    requires forall j :: 0 <= j < |k| ==> k[j] != c
    ensures Contains(a + [c] + b, k) ==> Contains(a, k) || Contains(b, k)
  {
    var s := a + [c] + b;
    ContainsIffOccurs(s, k);
    if Contains(s, k) {
      var i :| OccursAt(s, k, i);
      if i + |k| <= |a| {
        OccursLeftOfSeparator(a, b, k, c, i);
        ContainsIffOccurs(a, k);
      } else if i > |a| {
        OccursRightOfSeparator(a, b, k, c, i);
        ContainsIffOccurs(b, k);
      } else {
        OccursAtIndex(s, k, i, |a|);
        assert false;
      }
    }
  }

  lemma OccursLeftOfSeparator(a: string, b: string, k: string, c: char, i: int)
    requires OccursAt(a + [c] + b, k, i) && i + |k| <= |a|
    ensures OccursAt(a, k, i)
  {
    var s := a + [c] + b;
    assert s[i..i + |k|] == a[i..i + |k|];
  }

  lemma OccursRightOfSeparator(a: string, b: string, k: string, c: char, i: int)
    requires OccursAt(a + [c] + b, k, i) && i > |a|
    ensures OccursAt(b, k, i - |a| - 1)
  {
    var s := a + [c] + b;
    var u, w := s[i..i + |k|], b[i - |a| - 1..i - |a| - 1 + |k|];
    forall x | 0 <= x < |k| ensures u[x] == w[x] {
      assert u[x] == s[i + x];
    }
    assert u == w;
  }

  /** Whitespace as Python's `str.split()` and `str.isspace()` see it. */
  predicate PySpace(c: char) {
    c == '\t' || c == '\n' || c == '\U{000B}' || c == '\U{000C}' || c == '\r'
    || ('\U{001C}' <= c <= '\U{001F}') || c == ' ' || c == '\U{0085}' || c == '\U{00A0}'
    || c == '\U{1680}' || ('\U{2000}' <= c <= '\U{200A}') || c == '\U{2028}'
    || c == '\U{2029}' || c == '\U{202F}' || c == '\U{205F}' || c == '\U{3000}'
  }

  /** Whitespace as JavaScript's `\s` and `String.prototype.trim` see it
      (WhiteSpace and LineTerminator of the ECMAScript grammar). */
  predicate JsSpace(c: char) {
    c == '\t' || c == '\n' || c == '\U{000B}' || c == '\U{000C}' || c == '\r' || c == ' '
    || c == '\U{00A0}' || c == '\U{1680}' || ('\U{2000}' <= c <= '\U{200A}')
    || c == '\U{2028}' || c == '\U{2029}' || c == '\U{202F}' || c == '\U{205F}'
    || c == '\U{3000}' || c == '\U{FEFF}'
  }

  /** Number of maximal runs of consecutive characters satisfying `inRun`. */
  function Runs(s: string, inRun: char -> bool): nat
    decreases |s|
  {
    if |s| == 0 then 0
    else
      Runs(s[..|s| - 1], inRun)
      + (if inRun(s[|s| - 1]) && (|s| == 1 || !inRun(s[|s| - 2])) then 1 else 0)
  }

  /** `len(s.split())`: the number of maximal runs of non-whitespace. */
  function PyWordCount(s: string): nat {
    Runs(s, c => !PySpace(c))
  }

  /** `s.split(/\s+/).length`: one piece more than there are whitespace runs. */
  function JsWordCount(s: string): nat {
    1 + Runs(s, JsSpace)
  }

  function Ind(b: bool): nat {
    if b then 1 else 0
  }

  /** Runs of `p` and runs of its complement alternate, so their counts differ by
      what the first and the last character are. */
  lemma {:induction false} RunsComplement(s: string, p: char -> bool, q: char -> bool)
    requires |s| > 0
    requires forall i :: 0 <= i < |s| ==> q(s[i]) == !p(s[i])
    ensures Runs(s, p) + 1 == Runs(s, q) + Ind(p(s[0])) + Ind(p(s[|s| - 1]))
    decreases |s|
  {
    if |s| > 1 {
      var s' := s[..|s| - 1];
      assert s'[0] == s[0];
      assert s'[|s'| - 1] == s[|s| - 2];
      RunsComplement(s', p, q);
    }
  }

  /** The JavaScript count exceeds the Python count by one for the empty string and
      otherwise by one per whitespace edge, wherever the two whitespace classes agree. */
  lemma JsVersusPyWordCount(s: string)
    requires forall i :: 0 <= i < |s| ==> PySpace(s[i]) == JsSpace(s[i])
    ensures |s| == 0 ==> PyWordCount(s) == 0 && JsWordCount(s) == 1
    ensures |s| > 0 ==>
      JsWordCount(s) == PyWordCount(s) + Ind(JsSpace(s[0])) + Ind(JsSpace(s[|s| - 1]))
  {
    if |s| > 0 {
      RunsComplement(s, JsSpace, c => !PySpace(c));
    }
  }

  /** `s.split(sep)` with a non-empty separator string (Python and JavaScript agree):
      a left-to-right scan cutting at non-overlapping occurrences of `sep`. */
  function Split(s: string, sep: string): (parts: seq<string>)
    requires |sep| > 0
    ensures |parts| >= 1
    decreases |s|
  {
    if IsPrefix(sep, s) then [""] + Split(s[|sep|..], sep)
    else if |s| == 0 then [""]
    else
      var rest := Split(s[1..], sep);
      [[s[0]] + rest[0]] + rest[1..]
  }

  /** `sep.join(parts)` / `parts.join(sep)`. */
  function Join(parts: seq<string>, sep: string): string
    decreases |parts|
  {
    if |parts| == 0 then ""
    else if |parts| == 1 then parts[0]
    else parts[0] + sep + Join(parts[1..], sep)
  }

  lemma JoinConsHead(c: string, p0: string, ps: seq<string>, sep: string)
    ensures Join([c + p0] + ps, sep) == c + Join([p0] + ps, sep)
  {
    if |ps| > 0 {
      assert ([c + p0] + ps)[1..] == ps;
      assert ([p0] + ps)[1..] == ps;
    }
  }

  lemma JoinEmptyHead(ps: seq<string>, sep: string)
    requires |ps| > 0
    ensures Join([""] + ps, sep) == sep + Join(ps, sep)
  {
    assert ([""] + ps)[1..] == ps;
  }

  /** Splitting and re-joining with the same separator gives back the text. */
  lemma {:induction false} JoinSplit(s: string, sep: string)
    requires |sep| > 0
    ensures Join(Split(s, sep), sep) == s
    decreases |s|
  {
    if IsPrefix(sep, s) {
      var r := Split(s[|sep|..], sep);
      JoinSplit(s[|sep|..], sep);
      assert ([""] + r)[1..] == r;
      assert s == sep + s[|sep|..];
    } else if |s| > 0 {
      var rest := Split(s[1..], sep);
      JoinSplit(s[1..], sep);
      JoinConsHead([s[0]], rest[0], rest[1..], sep);
      assert [rest[0]] + rest[1..] == rest;
      assert s == [s[0]] + s[1..];
    }
  }

  /** Python's `s.replace(p, x)`: every non-overlapping occurrence, left to right. */
  function ReplaceAll(s: string, p: string, x: string): string
    requires |p| > 0
    decreases |s|
  {
    if IsPrefix(p, s) then x + ReplaceAll(s[|p|..], p, x)
    else if |s| == 0 then ""
    else [s[0]] + ReplaceAll(s[1..], p, x)
  }

  /** JavaScript's `s.replace(p, x)` with a string pattern: the first occurrence only,
      with the replacement taken literally (see `JsReplace` in module `JsSubstitution`
      for the `$`-patterns JavaScript actually expands). */
  function ReplaceFirst(s: string, p: string, x: string): string
    requires |p| > 0
    decreases |s|
  {
    if IsPrefix(p, s) then x + s[|p|..]
    else if |s| == 0 then ""
    else [s[0]] + ReplaceFirst(s[1..], p, x)
  }

  /** The first-occurrence replacement cuts at the leftmost occurrence. */
  lemma {:induction false} ReplaceFirstAt(s: string, p: string, x: string, i: nat)
    requires |p| > 0 && OccursAt(s, p, i)
    requires forall j :: 0 <= j < i ==> !OccursAt(s, p, j)
    ensures ReplaceFirst(s, p, x) == s[..i] + x + s[i + |p|..]
    decreases i
  {
    if i == 0 {
      assert s[..|p|] == p;
    } else {
      assert !OccursAt(s, p, 0);
      assert s[..|p|] != p by { assert s[..|p|] == s[0..|p|]; }
      forall j | 0 <= j < i - 1
        ensures !OccursAt(s[1..], p, j)
      {
        assert !OccursAt(s, p, j + 1);
        assert s[1..][j..j + |p|] == s[j + 1..j + 1 + |p|];
      }
      assert s[1..][i - 1..i - 1 + |p|] == s[i..i + |p|];
      ReplaceFirstAt(s[1..], p, x, i - 1);
      assert s[1..][..i - 1] == s[1..i];
      assert s[1..][i - 1 + |p|..] == s[i + |p|..];
      assert [s[0]] + s[1..i] == s[..i];
    }
  }

  /** Replacing every occurrence is the same as splitting on `p` and joining with `x`. */
  lemma {:induction false} ReplaceAllIsJoinSplit(s: string, p: string, x: string)
    requires |p| > 0
    ensures ReplaceAll(s, p, x) == Join(Split(s, p), x)
    decreases |s|
  {
    if IsPrefix(p, s) {
      ReplaceAllIsJoinSplit(s[|p|..], p, x);
      JoinEmptyHead(Split(s[|p|..], p), x);
    } else if |s| > 0 {
      var rest := Split(s[1..], p);
      ReplaceAllIsJoinSplit(s[1..], p, x);
      JoinConsHead([s[0]], rest[0], rest[1..], x);
      assert [rest[0]] + rest[1..] == rest;
    }
  }

  /** Replacing the first occurrence keeps every later separator in place. */
  lemma {:induction false} ReplaceFirstIsHeadJoin(s: string, p: string, x: string)
    requires |p| > 0
    ensures var parts := Split(s, p);
      ReplaceFirst(s, p, x) == if |parts| == 1 then s else parts[0] + x + Join(parts[1..], p)
    decreases |s|
  {
    if IsPrefix(p, s) {
      ReplaceFirstHeadAtPrefix(s, p, x);
    } else if |s| > 0 {
      ReplaceFirstIsHeadJoin(s[1..], p, x);
      ReplaceFirstHeadStep(s, p, x);
    }
  }

  lemma ReplaceFirstHeadAtPrefix(s: string, p: string, x: string)
    requires |p| > 0 && IsPrefix(p, s)
    ensures var parts := Split(s, p);
      ReplaceFirst(s, p, x) == if |parts| == 1 then s else parts[0] + x + Join(parts[1..], p)
  {
    var r := Split(s[|p|..], p);
    assert Split(s, p) == [""] + r;
    JoinSplit(s[|p|..], p);
    assert ([""] + r)[1..] == r;
  }

  lemma ReplaceFirstHeadStep(s: string, p: string, x: string)
    requires |p| > 0 && !IsPrefix(p, s) && |s| > 0
    requires var parts := Split(s[1..], p);
      ReplaceFirst(s[1..], p, x) == if |parts| == 1 then s[1..] else parts[0] + x + Join(parts[1..], p)
    ensures var parts := Split(s, p);
      ReplaceFirst(s, p, x) == if |parts| == 1 then s else parts[0] + x + Join(parts[1..], p)
  {
    var rest := Split(s[1..], p);
    assert Split(s, p) == [[s[0]] + rest[0]] + rest[1..];
    ConsHeadShape(s[0], rest);
    assert ReplaceFirst(s, p, x) == [s[0]] + ReplaceFirst(s[1..], p, x);
    if |rest| == 1 {
      assert s == [s[0]] + s[1..];
    } else {
      ConsAssoc(s[0], rest[0], x, Join(rest[1..], p));
    }
  }

  /** When `sep` occurs, the first part runs up to its leftmost occurrence and the
      remaining parts re-join to the text after it. */
  lemma {:induction false} SplitFirst(s: string, sep: string)
    requires |sep| > 0 && |Split(s, sep)| > 1
    ensures var parts := Split(s, sep); var i := |parts[0]|;
      OccursAt(s, sep, i) && (forall j :: 0 <= j < i ==> !OccursAt(s, sep, j)) &&
      parts[0] == s[..i] && Join(parts[1..], sep) == s[i + |sep|..]
    decreases |s|
  {
    if IsPrefix(sep, s) {
      var r := Split(s[|sep|..], sep);
      assert ([""] + r)[1..] == r;
      JoinSplit(s[|sep|..], sep);
    } else {
      var rest := Split(s[1..], sep);
      assert |s| > 0;
      ConsHeadShape(s[0], rest);
      SplitFirst(s[1..], sep);
      SplitFirstStep(s, sep, rest[0], Join(rest[1..], sep));
    }
  }

  /** One character in front: the leftmost occurrence moves one to the right. */
  lemma SplitFirstStep(s: string, sep: string, head: string, after: string)
    requires |s| > 0 && |sep| > 0 && !IsPrefix(sep, s)
    requires var k := |head|;
      OccursAt(s[1..], sep, k) && (forall j :: 0 <= j < k ==> !OccursAt(s[1..], sep, j)) &&
      head == s[1..][..k] && after == s[1..][k + |sep|..]
    ensures var i := |head| + 1;
      OccursAt(s, sep, i) && (forall j :: 0 <= j < i ==> !OccursAt(s, sep, j)) &&
      [s[0]] + head == s[..i] && after == s[i + |sep|..]
  {
    var k := |head|;
    assert s[1..][k..k + |sep|] == s[k + 1..k + 1 + |sep|];
    assert s[1..][k + |sep|..] == s[k + 1 + |sep|..];
    assert [s[0]] + s[1..][..k] == s[..k + 1];
    forall j | 0 <= j < k + 1
      ensures !OccursAt(s, sep, j)
    {
      if j == 0 {
        assert s[0..|sep|] == s[..|sep|];
      } else {
        assert !OccursAt(s[1..], sep, j - 1);
        assert s[1..][j - 1..j - 1 + |sep|] == s[j..j + |sep|];
      }
    }
  }

  lemma ConsHeadShape(c: char, rest: seq<string>)
    requires |rest| > 0
    ensures var parts := [[c] + rest[0]] + rest[1..];
      |parts| == |rest| && parts[0] == [c] + rest[0] && parts[1..] == rest[1..]
  {
  }

  lemma ConsAssoc(c: char, a: string, x: string, j: string)
    ensures [c] + (a + x + j) == ([c] + a) + x + j
  {
  }

  /** The number of non-overlapping occurrences the scan finds. */
  function Occurrences(s: string, p: string): nat
    requires |p| > 0
  {
    |Split(s, p)| - 1
  }

  lemma {:induction false} NoOccurrenceIffNotContains(s: string, p: string)
    requires |p| > 0
    ensures Occurrences(s, p) == 0 <==> !Contains(s, p)
    decreases |s|
  {
    if !IsPrefix(p, s) && |s| > 0 {
      NoOccurrenceIffNotContains(s[1..], p);
    }
  }

  function Sum(parts: seq<string>): nat {
    if |parts| == 0 then 0 else |parts[0]| + Sum(parts[1..])
  }

  lemma {:induction false} JoinLength(parts: seq<string>, sep: string)
    requires |parts| > 0
    ensures |Join(parts, sep)| == Sum(parts) + (|parts| - 1) * |sep|
    decreases |parts|
  {
    if |parts| > 1 {
      JoinLength(parts[1..], sep);
    }
  }

  /** The all-occurrences and first-occurrence replacements agree exactly when the
      pattern occurs at most once (for a replacement of a different length). */
  lemma ReplaceFirstVersusAll(s: string, p: string, x: string)
    requires |p| > 0
    ensures Occurrences(s, p) <= 1 ==> ReplaceFirst(s, p, x) == ReplaceAll(s, p, x)
    ensures Occurrences(s, p) >= 2 && |x| != |p| ==> ReplaceFirst(s, p, x) != ReplaceAll(s, p, x)
  {
    var parts := Split(s, p);
    ReplaceFirstIsHeadJoin(s, p, x);
    ReplaceAllIsJoinSplit(s, p, x);
    if |parts| == 1 {
      JoinSplit(s, p);
    } else if |parts| >= 3 && |x| != |p| {
      ReplaceLengths(parts, p, x);
    }
  }

  lemma ReplaceLengths(parts: seq<string>, p: string, x: string)
    requires |parts| >= 3 && |x| != |p|
    ensures |Join(parts, x)| != |parts[0] + x + Join(parts[1..], p)|
  {
    var n := |parts|;
    var tail := Sum(parts[1..]);
    JoinLength(parts, x);
    JoinLength(parts[1..], p);
    assert |Join(parts, x)| == |parts[0]| + tail + (n - 1) * |x|;
    assert |parts[0] + x + Join(parts[1..], p)| == |parts[0]| + tail + (|x| + (n - 2) * |p|);
    MulDiffers(n - 2, |x|, |p|);
  }

  lemma MulDiffers(k: nat, a: nat, b: nat)
    requires k > 0 && a != b
    ensures (k + 1) * a != a + k * b
  {
    assert (k + 1) * a == a + k * a;
    if a < b {
      assert k * a < k * b;
    } else {
      assert k * a > k * b;
    }
  }

  /** When the pattern occurs, the replacement text appears in the result. */
  lemma ReplaceAllContainsReplacement(s: string, p: string, x: string)
    requires |p| > 0 && Contains(s, p)
    ensures Contains(ReplaceAll(s, p, x), x)
  {
    NoOccurrenceIffNotContains(s, p);
    ReplaceAllIsJoinSplit(s, p, x);
    var parts := Split(s, p);
    var r := Join(parts, x);
    assert r == parts[0] + x + Join(parts[1..], x);
    assert r[|parts[0]|..|parts[0]| + |x|] == x;
    assert OccursAt(r, x, |parts[0]|);
    ContainsIffOccurs(r, x);
  }

  /** The first-occurrence replacement also inserts the replacement text. */
  lemma ReplaceFirstContainsReplacement(s: string, p: string, x: string)
    requires |p| > 0 && Contains(s, p)
    ensures Contains(ReplaceFirst(s, p, x), x)
  {
    NoOccurrenceIffNotContains(s, p);
    ReplaceFirstIsHeadJoin(s, p, x);
    var parts := Split(s, p);
    var r := ReplaceFirst(s, p, x);
    assert r[|parts[0]|..|parts[0]| + |x|] == x;
    assert OccursAt(r, x, |parts[0]|);
    ContainsIffOccurs(r, x);
  }

  /** Without an occurrence, both replacements leave the text unchanged. */
  lemma ReplaceWithoutOccurrence(s: string, p: string, x: string)
    requires |p| > 0 && !Contains(s, p)
    ensures ReplaceAll(s, p, x) == s && ReplaceFirst(s, p, x) == s
  {
    NoOccurrenceIffNotContains(s, p);
    ReplaceAllIsJoinSplit(s, p, x);
    ReplaceFirstIsHeadJoin(s, p, x);
  }

  /** What `ReplaceAll` promises in one place: it is split-and-join, the replacement
      appears when the pattern did, and a text without the pattern is unchanged. */
  lemma ReplaceAllCases(s: string, p: string, x: string)
    requires |p| > 0
    ensures ReplaceAll(s, p, x) == Join(Split(s, p), x)
    ensures Contains(s, p) ==> Contains(ReplaceAll(s, p, x), x)
    ensures !Contains(s, p) ==> ReplaceAll(s, p, x) == s
  {
    ReplaceAllIsJoinSplit(s, p, x);
    if Contains(s, p) {
      ReplaceAllContainsReplacement(s, p, x);
    } else {
      ReplaceWithoutOccurrence(s, p, x);
    }
  }

  /** The same for `ReplaceFirst`, with the text before the first occurrence kept. */
  lemma ReplaceFirstCases(s: string, p: string, x: string)
    requires |p| > 0
    ensures Contains(s, p) ==> Contains(ReplaceFirst(s, p, x), x)
    ensures !Contains(s, p) ==> ReplaceFirst(s, p, x) == s
  {
    if Contains(s, p) {
      ReplaceFirstContainsReplacement(s, p, x);
    } else {
      ReplaceWithoutOccurrence(s, p, x);
    }
  }

  /** JavaScript's `trim`: strips `JsSpace` characters from both ends. */
  function TrimStart(s: string): (r: string)
    ensures |r| <= |s| && r == s[|s| - |r|..]
    ensures r == "" || !JsSpace(r[0])
    ensures forall i :: 0 <= i < |s| - |r| ==> JsSpace(s[i])
    decreases |s|
  {
    if |s| > 0 && JsSpace(s[0]) then TrimStart(s[1..]) else s
  }

  function TrimEnd(s: string): (r: string)
    ensures |r| <= |s| && r == s[..|r|]
    ensures r == "" || !JsSpace(r[|r| - 1])
    ensures forall i :: |r| <= i < |s| ==> JsSpace(s[i])
    decreases |s|
  {
    if |s| > 0 && JsSpace(s[|s| - 1]) then TrimEnd(s[..|s| - 1]) else s
  }

  function Trim(s: string): (r: string)
    ensures r == "" || (!JsSpace(r[0]) && !JsSpace(r[|r| - 1]))
    ensures Contains(s, r)
  {
    var t := TrimStart(s);
    var r := TrimEnd(t);
    assert OccursAt(s, r, |s| - |t|);
    ContainsIffOccurs(s, r);
    r
  }

  const Digits: string := "0123456789"

  /** Decimal rendering of a natural number, as `String(n)` gives it. */
  function NatToString(n: nat): (r: string)
    ensures |r| > 0
    ensures forall i :: 0 <= i < |r| ==> r[i] in Digits
    decreases n
  {
    if n < 10 then [Digits[n]] else NatToString(n / 10) + [Digits[n % 10]]
  }

  function IntToString(i: int): string {
    if i < 0 then "-" + NatToString(-i) else NatToString(i)
  }
}
