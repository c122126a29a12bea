/** How the web UI picks the strategy to run after `auto_refine`: a structured reply's
    recommended key wins; otherwise the name after "SELECTED STRATEGY:" in the reply text
    is turned into a key-like slug; 'arpe' is the fallback. */
module UiApi {
  import opened Wrappers
  import opened Text
  import opened Json
  import ValidationSchemas

  const DefaultKey := "arpe"

  /** The marker the reply text is searched for, case-insensitively. */
  const Header := "selected strategy:"

  /** A character the slug keeps: `[a-z0-9]`. */
  predicate SlugChar(c: char) {
    ('a' <= c <= 'z') || ('0' <= c <= '9')
  }

  predicate NoDoubleUnderscore(t: string) {
    forall i :: 0 <= i < |t| - 1 ==> !(t[i] == '_' && t[i + 1] == '_')
  }

  /** What a slug looks like: `[a-z0-9_]` only, no "__", no "_" at either end. */
  predicate SlugShaped(t: string) {
    (forall i :: 0 <= i < |t| ==> SlugChar(t[i]) || t[i] == '_') &&
    NoDoubleUnderscore(t) &&
    (t == "" || (t[0] != '_' && t[|t| - 1] != '_'))
  }

  /** Drops a leading run of characters the slug does not keep. */
  function SkipOthers(s: string): (r: string)
    ensures |r| <= |s| && r == s[|s| - |r|..]
    ensures r == "" || SlugChar(r[0])
    decreases |s|
  {
    if |s| > 0 && !SlugChar(s[0]) then SkipOthers(s[1..]) else s
  }

  /** `.replace(/[^a-z0-9]+/g, '_')`: every maximal run of other characters becomes one
      underscore. */
  function Collapse(s: string): (r: string)
    ensures |s| == 0 <==> |r| == 0
    ensures |s| > 0 ==> r[0] == (if SlugChar(s[0]) then s[0] else '_')
    ensures forall i :: 0 <= i < |r| ==> SlugChar(r[i]) || r[i] == '_'
    ensures NoDoubleUnderscore(r)
    decreases |s|
  {
    if |s| == 0 then ""
    else if SlugChar(s[0]) then [s[0]] + Collapse(s[1..])
    else
      var rest := Collapse(SkipOthers(s[1..]));
      assert rest == "" || SlugChar(rest[0]);
      "_" + rest
  }

  /** `.replace(/^_|_$/g, '')`: one leading and one trailing underscore go. */
  function StripEdges(t: string): (r: string)
    ensures r == t || (|t| > 0 && (r == t[1..] || r == t[..|t| - 1])) || (|t| >= 2 && r == t[1..|t| - 1])
    ensures NoDoubleUnderscore(t) ==> r == "" || (r[0] != '_' && r[|r| - 1] != '_')
  {
    var t1 := if |t| > 0 && t[0] == '_' then t[1..] else t;
    if |t1| > 0 && t1[|t1| - 1] == '_' then t1[..|t1| - 1] else t1
  }

  /** The slug of a strategy name: lower-cased, runs of other characters collapsed to
      "_", edge underscores removed. */
  function Slug(name: string): (r: string)
    ensures SlugShaped(r)
  {
    var c := Collapse(Lower(name));
    var r := StripEdges(c);
    assert forall i :: 0 <= i < |r| ==> SlugChar(r[i]) || r[i] == '_' by {
      if |c| > 0 {
        assert forall i :: 0 <= i < |c| ==> SlugChar(c[i]) || c[i] == '_';
      }
    }
    assert NoDoubleUnderscore(r) by {
      if |c| > 0 {
        assert NoDoubleUnderscore(c);
      }
    }
    r
  }

  /** A slug-shaped string is its own slug, and only those are. */
  lemma SlugFixedPoint(t: string)
    ensures Slug(t) == t <==> SlugShaped(t)
  {
    if SlugShaped(t) {
      assert Lower(t) == t;
      CollapseKeepsShaped(t);
    }
  }

  lemma {:induction false} CollapseKeepsShaped(t: string)
    requires forall i :: 0 <= i < |t| ==> SlugChar(t[i]) || t[i] == '_'
    requires NoDoubleUnderscore(t)
    ensures Collapse(t) == t
    decreases |t|
  {
    if |t| > 0 {
      if SlugChar(t[0]) {
        CollapseKeepsShaped(t[1..]);
      } else {
        assert |t| == 1 || SlugChar(t[1]);
        assert SkipOthers(t[1..]) == t[1..];
        CollapseKeepsShaped(t[1..]);
      }
    }
  }

  /** Slugging twice changes nothing more. */
  lemma SlugIdempotent(name: string)
    ensures Slug(Slug(name)) == Slug(name)
  {
    SlugFixedPoint(Slug(name));
  }

  /** The key derived from a name, falling back to 'arpe' when the slug is empty. */
  function KeyFromName(name: string): (r: string)
    ensures ValidationSchemas.ValidKey(r)
    ensures Slug(name) != "" ==> r == Slug(name)
    ensures Slug(name) == "" ==> r == DefaultKey
  {
    var k := Slug(name);
    if k == "" then DefaultKey else k
  }

  /** The header starts at index `i`. */
  predicate HeaderAt(content: string, i: int) {
    0 <= i && i + |Header| <= |content| && Lower(content[i..i + |Header|]) == Header
  }

  /** The first header at or after `from`. */
  function FindHeader(content: string, from: nat): (r: Option<nat>)
    ensures r.Some? ==> from <= r.value && HeaderAt(content, r.value) &&
                        forall j :: from <= j < r.value ==> !HeaderAt(content, j)
    ensures r.None? ==> forall j :: from <= j ==> !HeaderAt(content, j)
    decreases |content| - from
  {
    if from + |Header| > |content| then None
    else if HeaderAt(content, from) then Some(from)
    else FindHeader(content, from + 1)
  }

  /** The text up to the first newline. */
  function TakeLine(s: string): (r: string)
    ensures IsPrefix(r, s) && '\n' !in r
    ensures |r| < |s| ==> s[|r|] == '\n'
  {
    if |s| == 0 || s[0] == '\n' then "" else [s[0]] + TakeLine(s[1..])
  }

  /** The strategy name `/SELECTED STRATEGY:\s*([^\n]+)/i` captures, trimmed. When only
      whitespace follows the header the capture is a single whitespace character, which
      trims to ""; when only newlines follow it, there is no match. */
  function SelectedName(content: string): (r: Option<string>)
    ensures (forall j :: !HeaderAt(content, j)) ==> r.None?
  {
    match FindHeader(content, 0)
    case None => None
    case Some(i) =>
      var rest := content[i + |Header|..];
      var after := TrimStart(rest);
      if after != "" then Some(Trim(TakeLine(after)))
      else if exists j | 0 <= j < |rest| :: rest[j] != '\n' then Some("")
      else None
  }

  /** `recommendedKey` after an `auto_refine` reply: the structured recommendation's `key`
      when there is one (the value is read as is, possibly absent); otherwise a key
      derived from the reply text, or 'arpe'. */
  function RecommendedKey(recommended: Option<Json>, content: string): (r: Option<Json>)
    ensures Truthy(recommended) && recommended.value.JObj? ==> r == Field(recommended.value.fields, "key")
    ensures Truthy(recommended) && !recommended.value.JObj? ==> r.None?
    ensures !Truthy(recommended) ==> r.Some? && r.value.JStr? && ValidationSchemas.ValidKey(r.value.s)
    ensures !Truthy(recommended) && SelectedName(content).None? ==> r == Some(JStr(DefaultKey))
  {
    if Truthy(recommended) then
      if recommended.value.JObj? then Field(recommended.value.fields, "key") else None
    else
      match SelectedName(content)
      case None => Some(JStr(DefaultKey))
      case Some(name) => Some(JStr(KeyFromName(name)))
  }

  /** The structured key wins whatever the reply text says. */
  lemma StructuredKeyWins(fields: seq<(string, Json)>, key: string, content: string, other: string)
    requires Field(fields, "key") == Some(JStr(key))
    ensures RecommendedKey(Some(JObj(fields)), content) == Some(JStr(key))
    ensures RecommendedKey(Some(JObj(fields)), content) == RecommendedKey(Some(JObj(fields)), other)
  {
  }

  /** Reply text without the header gives 'arpe'. */
  lemma NoHeaderGivesDefault(content: string)
    requires forall j :: !HeaderAt(content, j)
    ensures RecommendedKey(None, content) == Some(JStr(DefaultKey))
  {
  }

  /** Case does not matter to the slug. */
  lemma SlugIgnoresCase(name: string)
    ensures Slug(Lower(name)) == Slug(name)
  {
    LowerIsLower(name);
  }

  /** A name that already is a slug-shaped key names itself. */
  lemma KeyNamesItself(key: string)
    requires SlugShaped(key) && key != ""
    ensures KeyFromName(key) == key
  {
    SlugFixedPoint(key);
  }
}
