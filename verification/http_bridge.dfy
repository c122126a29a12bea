/** The HTTP bridge between the web UI and the stdio server: newline framing of the
    server's output, the table of pending request ids, the normalisation and enrichment
    of the strategy list, the search filter, the parsing of a refinement reply, and the
    order in which routes are matched. `JSON.parse` is a parameter; the child process,
    timers and sockets are not modelled. */
module HttpBridge {
  import opened Wrappers
  import opened Text
  import opened Json
  import Catalog

  // ---------------------------------------------------------------------------
  // Framing

  /** Every piece of a split on "\n" is newline-free. */
  lemma {:induction false} SplitLinesHaveNoNewline(s: string)
    ensures forall i :: 0 <= i < |Split(s, "\n")| ==> '\n' !in Split(s, "\n")[i]
    decreases |s|
  {
    if IsPrefix("\n", s) {
      SplitLinesHaveNoNewline(s[1..]);
      var r := Split(s[1..], "\n");
      assert Split(s, "\n") == [""] + r;
    } else if |s| > 0 {
      SplitLinesHaveNoNewline(s[1..]);
      assert s[..1] != "\n";
      var rest := Split(s[1..], "\n");
      assert Split(s, "\n") == [[s[0]] + rest[0]] + rest[1..];
      forall i | 0 <= i < |Split(s, "\n")| ensures '\n' !in Split(s, "\n")[i] {
        if i > 0 {
          assert Split(s, "\n")[i] == rest[i];
        }
      }
    }
  }

  /** Splitting a joined text: the pieces of the first part except its last, then the
      pieces of that last piece followed by the second part. */
  lemma {:induction false} SplitAppend(x: string, y: string)
    ensures var p := Split(x, "\n");
            Split(x + y, "\n") == p[..|p| - 1] + Split(p[|p| - 1] + y, "\n")
    decreases |x|
  {
    if IsPrefix("\n", x) {
      SplitAppend(x[1..], y);
      SplitAppendAtNewline(x, y);
    } else if |x| == 0 {
      assert x + y == y;
      assert Split(x, "\n") == [""];
    } else {
      SplitAppend(x[1..], y);
      SplitAppendAtChar(x, y);
    }
  }

  /** `SplitAppend`'s statement for one pair. */
  predicate SplitsAppend(x: string, y: string) {
    var p := Split(x, "\n");
    Split(x + y, "\n") == p[..|p| - 1] + Split(p[|p| - 1] + y, "\n")
  }

  /** A text opening with a newline splits into "" and the pieces of the rest. */
  lemma SplitAtNewline(s: string)
    requires IsPrefix("\n", s)
    ensures Split(s, "\n") == [""] + Split(s[1..], "\n")
  {
  }

  /** A text opening with another character glues it to the first piece of the rest. */
  lemma SplitAtChar(s: string)
    requires |s| > 0 && !IsPrefix("\n", s)
    ensures var r := Split(s[1..], "\n"); Split(s, "\n") == [[s[0]] + r[0]] + r[1..]
  {
  }

  lemma SplitAppendAtNewline(x: string, y: string)
    requires IsPrefix("\n", x) && SplitsAppend(x[1..], y)
    ensures SplitsAppend(x, y)
  {
    var q := Split(x[1..], "\n");
    assert (x + y)[..1] == x[..1];
    assert (x + y)[1..] == x[1..] + y;
    SplitAtNewline(x);
    SplitAtNewline(x + y);
    var p := Split(x, "\n");
    assert p[..|p| - 1] == [""] + q[..|q| - 1];
    assert p[|p| - 1] == q[|q| - 1];
  }

  lemma SplitAppendAtChar(x: string, y: string)
    requires |x| > 0 && !IsPrefix("\n", x) && SplitsAppend(x[1..], y)
    ensures SplitsAppend(x, y)
  {
    var q := Split(x[1..], "\n");
    var r := Split(x[1..] + y, "\n");
    assert (x + y)[..1] == x[..1];
    assert (x + y)[1..] == x[1..] + y;
    SplitAtChar(x);
    SplitAtChar(x + y);
    if |q| == 1 {
      SplitAppendOnePiece(x, y);
    } else {
      SplitAppendManyPieces(x, y);
    }
  }

  lemma SplitAppendOnePiece(x: string, y: string)
    requires |x| > 0 && !IsPrefix("\n", x) && SplitsAppend(x[1..], y)
    requires |Split(x[1..], "\n")| == 1
    requires var r := Split(x[1..] + y, "\n"); Split(x + y, "\n") == [[x[0]] + r[0]] + r[1..]
    requires var q := Split(x[1..], "\n"); Split(x, "\n") == [[x[0]] + q[0]] + q[1..]
    ensures SplitsAppend(x, y)
  {
    var q := Split(x[1..], "\n");
    var t := q[0] + y;
    assert [x[0]] + q[0] + y == [x[0]] + t;
    assert ([x[0]] + t)[..1] == [x[0]];
    assert ([x[0]] + t)[1..] == t;
    SplitAtChar([x[0]] + t);
  }

  lemma SplitAppendManyPieces(x: string, y: string)
    requires |x| > 0 && SplitsAppend(x[1..], y) && |Split(x[1..], "\n")| > 1
    requires var r := Split(x[1..] + y, "\n"); Split(x + y, "\n") == [[x[0]] + r[0]] + r[1..]
    requires var q := Split(x[1..], "\n"); Split(x, "\n") == [[x[0]] + q[0]] + q[1..]
    ensures SplitsAppend(x, y)
  {
    var q := Split(x[1..], "\n");
    PiecesShape([x[0]], q, Split(q[|q| - 1] + y, "\n"), Split(x[1..] + y, "\n"), Split(x, "\n"));
  }

  /** The list reasoning behind `SplitAppendManyPieces`, on plain sequences. */
  lemma PiecesShape(a: string, q: seq<string>, tail: seq<string>, r: seq<string>, p: seq<string>)
    requires |q| > 1 && r == q[..|q| - 1] + tail && p == [a + q[0]] + q[1..]
    ensures [a + r[0]] + r[1..] == p[..|p| - 1] + tail && p[|p| - 1] == q[|q| - 1]
  {
    assert r[0] == q[0];
    assert r[1..] == q[1..|q| - 1] + tail;
    assert p[..|p| - 1] == [a + q[0]] + q[1..|q| - 1];
  }

  /** The complete lines a chunk finishes, and what is kept for the next chunk. */
  datatype Frame = Frame(lines: seq<string>, buffer: string)

  /** `buffer += chunk; lines = buffer.split('\n'); buffer = lines.pop()`. */
  function Cut(buffer: string, chunk: string): (r: Frame)
    ensures '\n' !in r.buffer
    ensures forall i :: 0 <= i < |r.lines| ==> '\n' !in r.lines[i]
    ensures Join(r.lines + [r.buffer], "\n") == buffer + chunk
  {
    var parts := Split(buffer + chunk, "\n");
    SplitLinesHaveNoNewline(buffer + chunk);
    JoinSplit(buffer + chunk, "\n");
    assert parts[..|parts| - 1] + [parts[|parts| - 1]] == parts;
    Frame(parts[..|parts| - 1], parts[|parts| - 1])
  }

  /** Chunk boundaries do not matter: two chunks in a row give the same lines and the
      same kept text as their concatenation. */
  lemma ChunkBoundaries(buffer: string, c1: string, c2: string)
    ensures Cut(buffer, c1).lines + Cut(Cut(buffer, c1).buffer, c2).lines == Cut(buffer, c1 + c2).lines
    ensures Cut(Cut(buffer, c1).buffer, c2).buffer == Cut(buffer, c1 + c2).buffer
  {
    var p := Split(buffer + c1, "\n");
    var q := Split(p[|p| - 1] + c2, "\n");
    assert Split(buffer + (c1 + c2), "\n") == p[..|p| - 1] + q by {
      SplitAppend(buffer + c1, c2);
      assert buffer + (c1 + c2) == (buffer + c1) + c2;
    }
    InitLastOfConcat(p[..|p| - 1], q);
  }

  /** All but the last element, and the last, of a concatenation ending in a non-empty part. */
  lemma InitLastOfConcat<T>(a: seq<T>, b: seq<T>)
    requires |b| > 0
    ensures (a + b)[..|a + b| - 1] == a + b[..|b| - 1] && (a + b)[|a + b| - 1] == b[|b| - 1]
  {
  }

  /** The messages a run of complete lines yields: blank lines are skipped and a line
      `parse` rejects is dropped. */
  function Messages(lines: seq<string>, parse: string -> Option<Json>): (r: seq<Json>)
    ensures |r| <= |lines|
    decreases |lines|
  {
    if |lines| == 0 then []
    else
      var last := lines[|lines| - 1];
      var m := if Trim(last) != "" && parse(last).Some? then [parse(last).value] else [];
      Messages(lines[..|lines| - 1], parse) + m
  }

  lemma {:induction false} MessagesAppend(a: seq<string>, b: seq<string>, parse: string -> Option<Json>)
    ensures Messages(a + b, parse) == Messages(a, parse) + Messages(b, parse)
    decreases |b|
  {
    if |b| == 0 {
      assert a + b == a;
    } else {
      assert (a + b)[..|a + b| - 1] == a + b[..|b| - 1];
      MessagesAppend(a, b[..|b| - 1], parse);
    }
  }

  /** A blank line or an unparsable one adds no message. */
  lemma SkippedLine(lines: seq<string>, line: string, parse: string -> Option<Json>)
    requires Trim(line) == "" || parse(line).None?
    ensures Messages(lines + [line], parse) == Messages(lines, parse)
  {
    assert (lines + [line])[..|lines|] == lines;
  }

  // ---------------------------------------------------------------------------
  // Pending requests

  /** The kept text, the last id handed out, and the ids awaiting a reply. */
  datatype Bridge = Bridge(buffer: string, lastId: nat, pending: set<int>)

  const Initial := Bridge("", 0, {})

  predicate Valid(b: Bridge) {
    '\n' !in b.buffer && forall id :: id in b.pending ==> 1 <= id <= b.lastId
  }

  /** What the bridge observes: a request written (or refused because the process is
      not there), a reply settling a request, a timeout removing one. */
  datatype Outcome =
    | Sent(id: int)
    | NotConnected(id: int)
    | Resolved(id: int, result: Option<Json>)
    | Rejected(id: int, message: string)
    | TimedOut(id: int)

  predicate Settles(o: Outcome) {
    o.Resolved? || o.Rejected? || o.TimedOut?
  }

  /** `sendMCPRequest`: the next id is registered as pending whether or not the process
      can be written to; a refused request stays pending until its timeout. */
  function Send(b: Bridge, connected: bool): (r: (Bridge, seq<Outcome>))
    ensures r.0.lastId == b.lastId + 1 && r.0.pending == b.pending + {b.lastId + 1} && r.0.buffer == b.buffer
    ensures r.1 == [if connected then Sent(b.lastId + 1) else NotConnected(b.lastId + 1)]
  {
    var id := b.lastId + 1;
    (b.(lastId := id, pending := b.pending + {id}), [if connected then Sent(id) else NotConnected(id)])
  }

  /** The message of `new Error(x)`: "" for an absent `x`, otherwise `String(x)`. */
  function ErrorMessage(error: Json): string {
    if error.JObj? && Field(error.fields, "message").Some? then JsString(Field(error.fields, "message").value) else ""
  }

  /** `handleMCPResponse`: a reply acts only when its numeric id is pending, which it then
      no longer is; a truthy `error` rejects, anything else resolves with `result`. A
      value that is not an object has no `id` (for `null`, reading it throws and the
      line's handler swallows the error). */
  function Handle(b: Bridge, msg: Json): (r: (Bridge, seq<Outcome>))
    ensures var id := if msg.JObj? then Field(msg.fields, "id") else None;
            var acts := id.Some? && id.value.JNum? && id.value.n != 0 && id.value.n in b.pending;
            (acts ==> r.0 == b.(pending := b.pending - {id.value.n}) && |r.1| == 1 && r.1[0].id == id.value.n && Settles(r.1[0])) &&
            (!acts ==> r == (b, []))
  {
    var id := if msg.JObj? then Field(msg.fields, "id") else None;
    if Truthy(id) && id.value.JNum? && id.value.n in b.pending then
      var n := id.value.n;
      var error := Field(msg.fields, "error");
      var o := if Truthy(error) then Rejected(n, ErrorMessage(error.value)) else Resolved(n, Field(msg.fields, "result"));
      (b.(pending := b.pending - {n}), [o])
    else (b, [])
  }

  function HandleAll(b: Bridge, msgs: seq<Json>): (r: (Bridge, seq<Outcome>))
    ensures r.0.lastId == b.lastId && r.0.buffer == b.buffer && r.0.pending <= b.pending
    decreases |msgs|
  {
    if |msgs| == 0 then (b, [])
    else
      var r1 := Handle(b, msgs[0]);
      var r2 := HandleAll(r1.0, msgs[1..]);
      (r2.0, r1.1 + r2.1)
  }

  /** A stdout chunk: frame it, then handle every message it completes, in order. */
  function OnData(b: Bridge, chunk: string, parse: string -> Option<Json>): (r: (Bridge, seq<Outcome>))
    ensures r.0.buffer == Cut(b.buffer, chunk).buffer && r.0.lastId == b.lastId && r.0.pending <= b.pending
  {
    var f := Cut(b.buffer, chunk);
    HandleAll(b.(buffer := f.buffer), Messages(f.lines, parse))
  }

  /** The 30-second timer of a request: it removes the id if it is still pending. */
  function Expire(b: Bridge, id: int): (r: (Bridge, seq<Outcome>))
    ensures id in b.pending ==> r == (b.(pending := b.pending - {id}), [TimedOut(id)])
    ensures id !in b.pending ==> r == (b, [])
  {
    if id in b.pending then (b.(pending := b.pending - {id}), [TimedOut(id)]) else (b, [])
  }

  datatype Event = Request(connected: bool) | Output(chunk: string) | Timer(id: int)

  function Step(b: Bridge, e: Event, parse: string -> Option<Json>): (Bridge, seq<Outcome>) {
    match e
    case Request(connected) => Send(b, connected)
    case Output(chunk) => OnData(b, chunk, parse)
    case Timer(id) => Expire(b, id)
  }

  function Run(b: Bridge, events: seq<Event>, parse: string -> Option<Json>): (Bridge, seq<Outcome>)
    decreases |events|
  {
    if |events| == 0 then (b, [])
    else
      var r1 := Step(b, events[0], parse);
      var r2 := Run(r1.0, events[1..], parse);
      (r2.0, r1.1 + r2.1)
  }

  /** The ids of the outcomes that settle a request, in order. */
  function SettledIds(os: seq<Outcome>): seq<int> {
    if |os| == 0 then [] else (if Settles(os[0]) then [os[0].id] else []) + SettledIds(os[1..])
  }

  /** The ids handed out, in order. */
  function SentIds(os: seq<Outcome>): seq<int> {
    if |os| == 0 then [] else (if os[0].Sent? || os[0].NotConnected? then [os[0].id] else []) + SentIds(os[1..])
  }

  /** The ids from `lo` up to but excluding `hi`. */
  function Range(lo: int, hi: int): (r: seq<int>)
    ensures |r| == if lo < hi then hi - lo else 0
    ensures forall i :: 0 <= i < |r| ==> r[i] == lo + i
    decreases hi - lo
  {
    if lo >= hi then [] else [lo] + Range(lo + 1, hi)
  }

  lemma {:induction false} SettledAppend(a: seq<Outcome>, b: seq<Outcome>)
    ensures SettledIds(a + b) == SettledIds(a) + SettledIds(b)
    decreases |a|
  {
    if |a| == 0 {
      assert a + b == b;
    } else {
      assert (a + b)[0] == a[0];
      assert (a + b)[1..] == a[1..] + b;
      var h := if Settles(a[0]) then [a[0].id] else [];
      assert SettledIds(a + b) == h + SettledIds(a[1..] + b);
      SettledAppend(a[1..], b);
      assert h + (SettledIds(a[1..]) + SettledIds(b)) == (h + SettledIds(a[1..])) + SettledIds(b);
    }
  }

  lemma {:induction false} SentAppend(a: seq<Outcome>, b: seq<Outcome>)
    ensures SentIds(a + b) == SentIds(a) + SentIds(b)
    decreases |a|
  {
    if |a| == 0 {
      assert a + b == b;
    } else {
      assert (a + b)[0] == a[0];
      assert (a + b)[1..] == a[1..] + b;
      var h := if a[0].Sent? || a[0].NotConnected? then [a[0].id] else [];
      assert SentIds(a + b) == h + SentIds(a[1..] + b);
      SentAppend(a[1..], b);
      assert h + (SentIds(a[1..]) + SentIds(b)) == (h + SentIds(a[1..])) + SentIds(b);
    }
  }

  lemma IdsAppend(a: seq<Outcome>, b: seq<Outcome>)
    ensures SettledIds(a + b) == SettledIds(a) + SettledIds(b)
    ensures SentIds(a + b) == SentIds(a) + SentIds(b)
  {
    SettledAppend(a, b);
    SentAppend(a, b);
  }

  /** Across a stretch from `b1` to `b2`: the settled ids are distinct, each was pending
      at the start or handed out during the stretch, none is pending at the end, and
      nothing pending at the end was settled earlier. */
  ghost predicate Accounted(os: seq<Outcome>, b1: Bridge, b2: Bridge) {
    Catalog.Distinct(SettledIds(os)) &&
    b1.lastId <= b2.lastId &&
    (forall x :: x in SettledIds(os) ==> (x in b1.pending || b1.lastId < x <= b2.lastId) && x !in b2.pending) &&
    (forall x :: x in b2.pending ==> x in b1.pending || b1.lastId < x)
  }

  lemma DistinctConcat(s1: seq<int>, s2: seq<int>)
    requires Catalog.Distinct(s1) && Catalog.Distinct(s2)
    requires forall x :: x in s1 ==> x !in s2
    ensures Catalog.Distinct(s1 + s2)
  {
    forall i, j | 0 <= i < j < |s1 + s2| ensures (s1 + s2)[i] != (s1 + s2)[j] {
      if j < |s1| {
        assert (s1 + s2)[i] == s1[i] && (s1 + s2)[j] == s1[j];
      } else if i >= |s1| {
        assert (s1 + s2)[i] == s2[i - |s1|] && (s1 + s2)[j] == s2[j - |s1|];
      } else {
        assert (s1 + s2)[i] == s1[i] && (s1 + s2)[j] == s2[j - |s1|];
        assert s1[i] in s1 && s2[j - |s1|] in s2;
      }
    }
  }

  /** Two stretches in a row account for their joined outcomes. */
  lemma AccountedCompose(o1: seq<Outcome>, o2: seq<Outcome>, b0: Bridge, b1: Bridge, b2: Bridge)
    requires Valid(b0) && Valid(b1)
    requires Accounted(o1, b0, b1) && Accounted(o2, b1, b2)
    ensures Accounted(o1 + o2, b0, b2)
  {
    IdsAppend(o1, o2);
    var s1 := SettledIds(o1);
    var s2 := SettledIds(o2);
    forall x | x in s1 ensures x !in s2 && x !in b2.pending {
      assert x !in b1.pending && x <= b1.lastId;
    }
    DistinctConcat(s1, s2);
  }

  /** Handling replies settles pending ids only, each once, and removes exactly those. */
  lemma {:induction false} HandleAllSettles(b: Bridge, msgs: seq<Json>)
    requires Valid(b)
    ensures SentIds(HandleAll(b, msgs).1) == []
    ensures Accounted(HandleAll(b, msgs).1, b, HandleAll(b, msgs).0)
    decreases |msgs|
  {
    if |msgs| > 0 {
      var r1 := Handle(b, msgs[0]);
      var r2 := HandleAll(r1.0, msgs[1..]);
      HandleAllSettles(r1.0, msgs[1..]);
      IdsAppend(r1.1, r2.1);
      assert HandleAll(b, msgs) == (r2.0, r1.1 + r2.1);
      if |r1.1| == 1 {
        assert SettledIds(r1.1) == [r1.1[0].id];
        assert SentIds(r1.1) == [];
      }
      assert Accounted(r1.1, b, r1.0);
      AccountedCompose(r1.1, r2.1, b, r1.0, r2.0);
    }
  }

  lemma {:induction false} RangeConcat(lo: int, mid: int, hi: int)
    requires lo <= mid <= hi
    ensures Range(lo, mid) + Range(mid, hi) == Range(lo, hi)
    decreases mid - lo
  {
    if lo < mid {
      RangeConcat(lo + 1, mid, hi);
    }
  }

  /** A stretch from `b` ending in `r.0` with outcomes `r.1` keeps the bridge valid, hands
      out ids consecutively after `b`'s last one, and accounts for what it settles. */
  ghost predicate Sound(b: Bridge, r: (Bridge, seq<Outcome>)) {
    Valid(r.0) &&
    SentIds(r.1) == Range(b.lastId + 1, r.0.lastId + 1) &&
    Accounted(r.1, b, r.0)
  }

  /** Two sound stretches in a row make a sound stretch. */
  lemma SoundCompose(b: Bridge, r1: (Bridge, seq<Outcome>), r2: (Bridge, seq<Outcome>))
    requires Valid(b) && Sound(b, r1) && Sound(r1.0, r2)
    ensures Sound(b, (r2.0, r1.1 + r2.1))
  {
    IdsAppend(r1.1, r2.1);
    RangeConcat(b.lastId + 1, r1.0.lastId + 1, r2.0.lastId + 1);
    AccountedCompose(r1.1, r2.1, b, r1.0, r2.0);
  }

  /** One event keeps the bridge valid; a request takes the next id, and replies and
      timers settle only pending ids. */
  lemma StepFacts(b: Bridge, e: Event, parse: string -> Option<Json>)
    requires Valid(b)
    ensures Sound(b, Step(b, e, parse))
  {
    match e
    case Request(connected) => SendSound(b, connected);
    case Output(chunk) => OnDataSound(b, chunk, parse);
    case Timer(id) => ExpireSound(b, id);
  }

  lemma SendSound(b: Bridge, connected: bool)
    requires Valid(b)
    ensures Sound(b, Send(b, connected))
  {
    var r := Send(b, connected);
    assert Range(b.lastId + 1, b.lastId + 2) == [b.lastId + 1];
    assert SentIds(r.1) == [b.lastId + 1];
    assert SettledIds(r.1) == [];
  }

  lemma OnDataSound(b: Bridge, chunk: string, parse: string -> Option<Json>)
    requires Valid(b)
    ensures Sound(b, OnData(b, chunk, parse))
  {
    var f := Cut(b.buffer, chunk);
    var b' := b.(buffer := f.buffer);
    var msgs := Messages(f.lines, parse);
    var r := HandleAll(b', msgs);
    assert OnData(b, chunk, parse) == r;
    HandleAllSettles(b', msgs);
    AccountedRebase(r.1, b', b, r.0);
    assert Range(b.lastId + 1, b.lastId + 1) == [];
  }

  /** Accounting only looks at the starting bridge's ids, not at its kept text. */
  lemma AccountedRebase(os: seq<Outcome>, b1: Bridge, b1': Bridge, b2: Bridge)
    requires Accounted(os, b1, b2) && b1'.pending == b1.pending && b1'.lastId == b1.lastId
    ensures Accounted(os, b1', b2)
  {
  }

  lemma ExpireSound(b: Bridge, id: int)
    requires Valid(b)
    ensures Sound(b, Expire(b, id))
  {
    if id in b.pending {
      assert SettledIds([TimedOut(id)]) == [id];
      assert SentIds([TimedOut(id)]) == [];
    }
    assert Range(b.lastId + 1, b.lastId + 1) == [];
  }

  /** Over any run from a valid bridge: ids are handed out consecutively from the last
      one, and every settled id was pending or handed out during the run, is settled
      once, and is not pending afterwards. */
  lemma {:induction false} RunFacts(b: Bridge, events: seq<Event>, parse: string -> Option<Json>)
    requires Valid(b)
    ensures Sound(b, Run(b, events, parse))
    decreases |events|
  {
    if |events| > 0 {
      var r1 := Step(b, events[0], parse);
      var r2 := Run(r1.0, events[1..], parse);
      StepFacts(b, events[0], parse);
      RunFacts(r1.0, events[1..], parse);
      SoundCompose(b, r1, r2);
    } else {
      assert Range(b.lastId + 1, b.lastId + 1) == [];
    }
  }

  // ---------------------------------------------------------------------------
  // Strategy lists

  /** `Object.entries` of parsed fields: each distinct key once, at its first position,
      with the value that reads for it (the last one written). */
  function Entries(fields: seq<(string, Json)>): (r: seq<(string, Json)>)
    ensures Catalog.Distinct(seq(|r|, i requires 0 <= i < |r| => r[i].0))
    ensures forall k :: (exists i :: 0 <= i < |r| && r[i].0 == k) <==> Field(fields, k).Some?
    ensures forall i :: 0 <= i < |r| ==> Field(fields, r[i].0) == Some(r[i].1)
  {
    var ks := Catalog.Dedup(KeysOf(fields));
    KeysOfRead(fields);
    var r := seq(|ks|, i requires 0 <= i < |ks| => (ks[i], Field(fields, ks[i]).value));
    FirstsOf(ks, r);
    r
  }

  /** The keys of a field list, in order, repeats included. */
  function KeysOf(fields: seq<(string, Json)>): (ks: seq<string>)
    ensures |ks| == |fields| && forall i :: 0 <= i < |fields| ==> ks[i] == fields[i].0
  {
    seq(|fields|, i requires 0 <= i < |fields| => fields[i].0)
  }

  /** A key is listed exactly when reading it finds a value. */
  lemma KeysOfRead(fields: seq<(string, Json)>)
    ensures forall k :: k in KeysOf(fields) <==> Field(fields, k).Some?
  {
    var names := KeysOf(fields);
    forall k ensures k in names <==> Field(fields, k).Some? {
      if k in names {
        var i :| 0 <= i < |names| && names[i] == k;
        assert fields[i].0 == k;
      }
      if Field(fields, k).Some? {
        var i :| 0 <= i < |fields| && fields[i].0 == k;
        assert names[i] == k;
      }
    }
  }

  /** Pairs whose first components are `ks`, in order. */
  lemma FirstsOf(ks: seq<string>, r: seq<(string, Json)>)
    requires |r| == |ks| && forall i :: 0 <= i < |r| ==> r[i].0 == ks[i]
    ensures seq(|r|, i requires 0 <= i < |r| => r[i].0) == ks
    ensures forall k :: (exists i :: 0 <= i < |r| && r[i].0 == k) <==> k in ks
  {
    forall k ensures (exists i :: 0 <= i < |r| && r[i].0 == k) <==> k in ks {
      if k in ks {
        var i :| 0 <= i < |ks| && ks[i] == k;
        assert r[i].0 == k;
      }
    }
  }

  /** `v.k` on a parsed value that is not `null`: only objects carry the properties read
      here. */
  function Get(v: Json, k: string): Option<Json> {
    if v.JObj? then Field(v.fields, k) else None
  }

  /** The own enumerable properties `{...v}` copies: an object's entries, an array's or a
      string's indexed elements, nothing for other values. */
  function Spread(v: Json): seq<(string, Json)> {
    match v
    case JObj(fields) => Entries(fields)
    case JArr(items) => seq(|items|, i requires 0 <= i < |items| => (NatToString(i), items[i]))
    case JStr(s) => seq(|s|, i requires 0 <= i < |s| => (NatToString(i), JStr([s[i]])))
    case _ => []
  }

  const Uncategorized := "uncategorized"

  /** `s.category || s.customCategory || 'uncategorized'`. */
  function CategoryOf(s: Json): (r: Json)
    ensures Truthy(Some(r))
    ensures Some(r) == Get(s, "category") || Some(r) == Get(s, "customCategory") || r == JStr(Uncategorized)
  {
    if Truthy(Get(s, "category")) then Get(s, "category").value
    else if Truthy(Get(s, "customCategory")) then Get(s, "customCategory").value
    else JStr(Uncategorized)
  }

  /** `{...strategy, id: key, key: key, category: …}` for one entry of an object of
      strategies; reading `category` of a `null` strategy throws (None). */
  function FromEntry(key: string, v: Json): (r: Option<Json>)
    ensures r.None? <==> v.JNull?
    ensures r.Some? ==> (
      r.value.JObj? &&
      Field(r.value.fields, "id") == Some(JStr(key)) &&
      Field(r.value.fields, "key") == Some(JStr(key)) &&
      Field(r.value.fields, "category") == Some(CategoryOf(v)) &&
      forall k :: k != "id" && k != "key" && k != "category" ==> Field(r.value.fields, k) == Field(Spread(v), k))
  {
    if v.JNull? then None
    else Some(JObj(Assign(Assign(Assign(Spread(v), "id", JStr(key)), "key", JStr(key)), "category", CategoryOf(v))))
  }

  /** The entries mapped through `FromEntry`; one `null` value makes the whole map throw. */
  function FromEntries(es: seq<(string, Json)>): (r: Option<seq<Json>>)
    ensures r.Some? <==> forall i :: 0 <= i < |es| ==> !es[i].1.JNull?
    ensures r.Some? ==> |r.value| == |es| && forall i :: 0 <= i < |es| ==> FromEntry(es[i].0, es[i].1) == Some(r.value[i])
  {
    if forall i :: 0 <= i < |es| ==> !es[i].1.JNull? then
      Some(seq(|es|, i requires 0 <= i < |es| && !es[i].1.JNull? => FromEntry(es[i].0, es[i].1).value))
    else None
  }

  /** A list reply's text as a strategy list: an array is taken as it is; a truthy
      `strategies` array is taken, a truthy `strategies` object or else the object itself
      becomes one strategy per entry; everything that throws (a parse failure, a `null`
      being read) or does not fit gives the empty list. */
  function Normalize(parsed: Option<Json>): (r: seq<Json>)
    ensures parsed.Some? && parsed.value.JArr? ==> r == parsed.value.items
    ensures parsed.None? || parsed.value.JNull? || parsed.value.JStr? || parsed.value.JNum? || parsed.value.JBool? ==> r == []
  {
    match parsed
    case None => []
    case Some(JArr(items)) => items
    case Some(JObj(fields)) =>
      var s := Field(fields, "strategies");
      if Truthy(s) then
        if s.value.JArr? then s.value.items
        else if s.value.JObj? then FromEntries(Entries(s.value.fields)).GetOr([])
        else []
      else FromEntries(Entries(fields)).GetOr([])
    case Some(_) => []
  }

  /** The object whose entries become strategies, if the reply has that shape. */
  function EntrySource(parsed: Json): Option<seq<(string, Json)>> {
    if !parsed.JObj? then None
    else
      var s := Field(parsed.fields, "strategies");
      if !Truthy(s) then Some(parsed.fields)
      else if s.value.JObj? then Some(s.value.fields)
      else None
  }

  /** From an object of strategies without `null` values, each entry becomes one strategy
      in entry order, whose `id` and `key` are the entry's key, whose `category` falls back
      to 'uncategorized', and which keeps every other property of the entry's value. */
  lemma NormalizeEntries(parsed: Json, i: nat)
    requires EntrySource(parsed).Some?
    requires var es := Entries(EntrySource(parsed).value);
             i < |es| && forall j :: 0 <= j < |es| ==> !es[j].1.JNull?
    ensures var es := Entries(EntrySource(parsed).value);
            var r := Normalize(Some(parsed));
            |r| == |es| && r[i].JObj? &&
            Field(r[i].fields, "id") == Some(JStr(es[i].0)) &&
            Field(r[i].fields, "key") == Some(JStr(es[i].0)) &&
            Truthy(Field(r[i].fields, "category")) &&
            forall k :: k != "id" && k != "key" && k != "category" ==> Field(r[i].fields, k) == Field(Spread(es[i].1), k)
  {
    var es := Entries(EntrySource(parsed).value);
    assert FromEntry(es[i].0, es[i].1) == Some(Normalize(Some(parsed))[i]);
  }

  /** One `null` strategy in an object of strategies empties the whole list. */
  lemma NullEntryEmptiesList(parsed: Json, i: nat)
    requires EntrySource(parsed).Some?
    requires var es := Entries(EntrySource(parsed).value);
             i < |es| && es[i].1.JNull?
    ensures Normalize(Some(parsed)) == []
  {
  }

  /** Drops a leading run of whitespace. */
  function SkipSpace(s: string): (r: string)
    ensures |r| <= |s| && r == s[|s| - |r|..]
    ensures r == "" || !JsSpace(r[0])
    decreases |s|
  {
    if |s| > 0 && JsSpace(s[0]) then SkipSpace(s[1..]) else s
  }

  /** `.replace(/\s+/g, '-')`: every maximal run of whitespace becomes one dash. */
  function Dashes(s: string): (r: string)
    ensures forall i :: 0 <= i < |r| ==> !JsSpace(r[i])
    ensures |r| <= |s| && (|s| > 0 <==> |r| > 0)
    decreases |s|
  {
    if |s| == 0 then ""
    else if JsSpace(s[0]) then "-" + Dashes(SkipSpace(s[1..]))
    else [s[0]] + Dashes(s[1..])
  }

  /** Text without whitespace is left as it is, so dashing twice changes nothing more. */
  lemma {:induction false} DashesKeepsPlain(s: string)
    requires forall i :: 0 <= i < |s| ==> !JsSpace(s[i])
    ensures Dashes(s) == s
    decreases |s|
  {
    if |s| > 0 {
      DashesKeepsPlain(s[1..]);
    }
  }

  /** What the web UI receives for one strategy. */
  datatype Card = Card(id: Json, name: Json, description: Json, category: Json, content: Json, examples: seq<Json>)

  const UnnamedStrategy := "Unnamed Strategy"
  const NoDescription := "No description available"

  /** `a || b` on two property reads, `undefined` when both are falsy and `b` is absent. */
  function Or(a: Option<Json>, b: Json): Json {
    if Truthy(a) then a.value else b
  }

  /** The `id` made up when a strategy has neither `id` nor `key`: the lower-cased
      "category/name", whitespace runs turned into dashes. */
  function MadeUpId(s: Json): (r: string)
    ensures |r| > 0 && forall i :: 0 <= i < |r| ==> !JsSpace(r[i])
  {
    var category := if Truthy(Get(s, "category")) then JsString(Get(s, "category").value) else Uncategorized;
    var name := if Get(s, "name").Some? then JsString(Get(s, "name").value) else "undefined";
    Dashes(Lower(category + "/" + name))
  }

  /** One strategy as the list and search routes return it. Every field but `content`
      is filled: `id`, `name`, `description` and `category` are truthy, `examples` is a
      list; a truthy field of the strategy is kept as it is. Reading a `null` strategy
      throws (None). */
  function Enrich(s: Json): (r: Option<Card>)
    ensures r.None? <==> s.JNull?
    ensures r.Some? ==> Truthy(Some(r.value.id)) && Truthy(Some(r.value.name)) &&
                        Truthy(Some(r.value.description)) && Truthy(Some(r.value.category))
    ensures r.Some? && Truthy(Get(s, "id")) ==> r.value.id == Get(s, "id").value
    ensures r.Some? && Truthy(Get(s, "name")) ==> r.value.name == Get(s, "name").value
    ensures r.Some? && Truthy(Get(s, "description")) ==> r.value.description == Get(s, "description").value
    ensures r.Some? && Truthy(Get(s, "category")) ==> r.value.category == Get(s, "category").value
    ensures r.Some? && Truthy(Get(s, "content")) ==> r.value.content == Get(s, "content").value
  {
    if s.JNull? then None
    else
      var examples := Get(s, "examples");
      Some(Card(
        Or(Get(s, "id"), Or(Get(s, "key"), JStr(MadeUpId(s)))),
        Or(Get(s, "name"), JStr(UnnamedStrategy)),
        Or(Get(s, "description"), JStr(NoDescription)),
        CategoryOf(s),
        Or(Get(s, "content"), s),
        if examples.Some? && examples.value.JArr? then examples.value.items
        else if Truthy(examples) then [examples.value]
        else []))
  }

  /** A card as the JSON object it is sent as. */
  function CardFields(c: Card): seq<(string, Json)> {
    [("id", c.id), ("name", c.name), ("description", c.description), ("category", c.category),
     ("content", c.content), ("examples", JArr(c.examples))]
  }

  /** A card whose `content` is truthy comes back unchanged when enriched again. */
  lemma EnrichStable(c: Card)
    requires Truthy(Some(c.id)) && Truthy(Some(c.name)) && Truthy(Some(c.description))
    requires Truthy(Some(c.category)) && Truthy(Some(c.content))
    ensures Enrich(JObj(CardFields(c))) == Some(c)
  {
    CardReadsLate(c);
    CardReadsEarly(c);
  }

  /** The card's last three fields read back from its JSON object. */
  lemma CardReadsLate(c: Card)
    ensures Field(CardFields(c), "examples") == Some(JArr(c.examples))
    ensures Field(CardFields(c), "content") == Some(c.content)
    ensures Field(CardFields(c), "category") == Some(c.category)
  {
    var f4 := [("id", c.id), ("name", c.name), ("description", c.description), ("category", c.category)];
    var f5 := f4 + [("content", c.content)];
    assert f5 + [("examples", JArr(c.examples))] == CardFields(c);
    assert "category" != "examples" by {
      assert "category"[0] != "examples"[0];
    }
    FieldSkip(f5, "examples", JArr(c.examples), "content");
    FieldSkip(f5, "examples", JArr(c.examples), "category");
    FieldSkip(f4, "content", c.content, "category");
  }

  /** The card's first three fields read back from its JSON object. */
  lemma CardReadsEarly(c: Card)
    ensures Field(CardFields(c), "description") == Some(c.description)
    ensures Field(CardFields(c), "name") == Some(c.name)
    ensures Field(CardFields(c), "id") == Some(c.id)
  {
    var f1 := [("id", c.id)];
    var f2 := f1 + [("name", c.name)];
    var f3 := f2 + [("description", c.description)];
    var f4 := f3 + [("category", c.category)];
    var f5 := f4 + [("content", c.content)];
    assert f5 + [("examples", JArr(c.examples))] == CardFields(c);
    FieldSkip(f5, "examples", JArr(c.examples), "description");
    FieldSkip(f4, "content", c.content, "description");
    FieldSkip(f3, "category", c.category, "description");
    FieldSkip(f5, "examples", JArr(c.examples), "name");
    FieldSkip(f4, "content", c.content, "name");
    FieldSkip(f3, "category", c.category, "name");
    FieldSkip(f2, "description", c.description, "name");
    FieldSkip(f5, "examples", JArr(c.examples), "id");
    FieldSkip(f4, "content", c.content, "id");
    FieldSkip(f3, "category", c.category, "id");
    FieldSkip(f2, "description", c.description, "id");
    FieldSkip(f1, "name", c.name, "id");
  }

  /** A key other than the last one reads from the fields before it. */
  lemma FieldSkip(fields: seq<(string, Json)>, k2: string, v: Json, k: string)
    requires k != k2
    ensures Field(fields + [(k2, v)], k) == Field(fields, k)
  {
    assert (fields + [(k2, v)])[..|fields|] == fields;
  }

  /** Every strategy enriched; one `null` makes the whole map throw. */
  function EnrichAll(ss: seq<Json>): (r: Option<seq<Card>>)
    ensures r.Some? <==> forall i :: 0 <= i < |ss| ==> !ss[i].JNull?
    ensures r.Some? ==> |r.value| == |ss| && forall i :: 0 <= i < |ss| ==> Enrich(ss[i]) == Some(r.value[i])
    decreases |ss|
  {
    if |ss| == 0 then Some([])
    else
      match Enrich(ss[0])
      case None => None
      case Some(c) =>
        match EnrichAll(ss[1..])
        case None => None
        case Some(cs) => Some([c] + cs)
  }

  /** The reply text of a list call (`'{}'` when it is missing or empty), parsed. */
  function Parsed(text: string, parse: string -> Option<Json>): Option<Json> {
    if text == "" then Some(JObj([])) else parse(text)
  }

  /** `GET /strategies`: the normalised list, enriched; a `null` strategy is a failure. */
  function ListStrategies(text: string, parse: string -> Option<Json>): (r: Result<seq<Card>, string>)
    ensures r.Failure? ==> r.error == "Failed to list strategies"
    ensures r.Success? ==> |r.value| == |Normalize(Parsed(text, parse))|
    ensures var ns := Normalize(Parsed(text, parse));
      && (r.Success? <==> forall i :: 0 <= i < |ns| ==> !ns[i].JNull?)
      && (r.Success? ==> forall i :: 0 <= i < |ns| ==> Enrich(ns[i]) == Some(r.value[i]))
  {
    match EnrichAll(Normalize(Parsed(text, parse)))
    case None => Failure("Failed to list strategies")
    case Some(cards) => Success(cards)
  }

  // ---------------------------------------------------------------------------
  // Search

  /** `req.query.q?.toLowerCase() || ''`. */
  function Query(q: Option<string>): (r: string)
    ensures IsLowerAscii(r)
    ensures q.None? ==> r == ""
  {
    match q
    case None => ""
    case Some(t) => LowerIsLower(t); Lower(t)
  }

  /** `s[k].toLowerCase().includes(query)`; reading it from a value that is not a string
      throws (None). */
  function Mentions(s: Json, k: string, query: string): (r: Option<bool>)
    ensures r.Some? <==> Get(s, k).Some? && Get(s, k).value.JStr?
  {
    var v := Get(s, k);
    if v.Some? && v.value.JStr? then Some(Contains(Lower(v.value.s), query)) else None
  }

  /** The search test on one strategy, short-circuiting from name to description to
      category; None when a property it reaches is not a string. */
  function Hits(s: Json, query: string): (r: Option<bool>)
    ensures r == Some(true) <==>
      Mentions(s, "name", query) == Some(true) ||
      (Mentions(s, "name", query) == Some(false) && Mentions(s, "description", query) == Some(true)) ||
      (Mentions(s, "name", query) == Some(false) && Mentions(s, "description", query) == Some(false) &&
       Mentions(s, "category", query) == Some(true))
    ensures r.None? <==>
      Mentions(s, "name", query).None? ||
      (Mentions(s, "name", query) == Some(false) && Mentions(s, "description", query).None?) ||
      (Mentions(s, "name", query) == Some(false) && Mentions(s, "description", query) == Some(false) &&
       Mentions(s, "category", query).None?)
  {
    match Mentions(s, "name", query)
    case None => None
    case Some(true) => Some(true)
    case Some(false) =>
      match Mentions(s, "description", query)
      case None => None
      case Some(true) => Some(true)
      case Some(false) => Mentions(s, "category", query)
  }

  /** `strategies.filter(...)`: the strategies the test accepts, in order; the whole
      filter throws when the test throws on any of them. */
  function Filter(ss: seq<Json>, query: string): (r: Option<seq<Json>>)
    ensures r.Some? <==> forall i :: 0 <= i < |ss| ==> Hits(ss[i], query).Some?
    ensures r.Some? ==> forall x :: x in r.value <==> x in ss && Hits(x, query) == Some(true)
    ensures r.Some? ==> |r.value| <= |ss|
    decreases |ss|
  {
    if |ss| == 0 then Some([])
    else
      match Hits(ss[0], query)
      case None => None
      case Some(hit) =>
        match Filter(ss[1..], query)
        case None => None
        case Some(rest) =>
          assert forall x :: x in ss <==> x == ss[0] || x in ss[1..];
          Some(if hit then [ss[0]] + rest else rest)
  }

  /** `filter` on a list with a first strategy: that strategy's test, then the rest. */
  lemma FilterCons(x: Json, rest: seq<Json>, query: string)
    ensures Filter([x] + rest, query) ==
      match Hits(x, query)
      case None => None
      case Some(hit) =>
        match Filter(rest, query)
        case None => None
        case Some(kept) => Some(if hit then [x] + kept else kept)
  {
    assert ([x] + rest)[0] == x;
    assert ([x] + rest)[1..] == rest;
  }

  /** Filtering a joined list filters each part and joins the results, so the kept
      strategies stay in list order; a throw in either part throws. */
  lemma {:induction false} FilterAppend(a: seq<Json>, b: seq<Json>, query: string)
    ensures Filter(a + b, query) ==
      if Filter(a, query).Some? && Filter(b, query).Some? then Some(Filter(a, query).value + Filter(b, query).value)
      else None
    decreases |a|
  {
    if |a| == 0 {
      assert a + b == b;
      assert Filter(a, query) == Some([]);
      if Filter(b, query).Some? {
        assert [] + Filter(b, query).value == Filter(b, query).value;
      }
    } else {
      var x, tail := a[0], a[1..];
      assert a == [x] + tail;
      assert a + b == [x] + (tail + b);
      FilterCons(x, tail + b, query);
      FilterCons(x, tail, query);
      FilterAppend(tail, b, query);
      var fa, fb := Filter(tail, query), Filter(b, query);
      match Hits(x, query)
      case None =>
      case Some(hit) =>
        if fa.Some? && fb.Some? {
          assert Filter(tail + b, query) == Some(fa.value + fb.value);
          if hit {
            ConsAppend(x, fa.value, fb.value);
          }
        } else {
          assert Filter(tail + b, query).None?;
        }
    }
  }

  lemma ConsAppend<T>(x: T, p: seq<T>, q: seq<T>)
    ensures [x] + (p + q) == ([x] + p) + q
  {
  }

  /** One strategy is kept exactly when the test accepts it. */
  lemma FilterOne(s: Json, query: string)
    ensures Filter([s], query) ==
      match Hits(s, query)
      case None => None
      case Some(hit) => Some(if hit then [s] else [])
  {
    assert [s] == [s] + [];
    FilterCons(s, [], query);
    assert Filter([], query) == Some([]);
  }

  /** With an empty query every strategy whose name is a string is kept, in order. */
  lemma {:induction false} EmptyQueryKeepsAll(ss: seq<Json>)
    requires forall i :: 0 <= i < |ss| ==> Get(ss[i], "name").Some? && Get(ss[i], "name").value.JStr?
    ensures Filter(ss, Query(None)) == Some(ss)
    decreases |ss|
  {
    if |ss| > 0 {
      HitsEmptyQuery(ss[0]);
      assert forall i :: 0 <= i < |ss[1..]| ==> Get(ss[1..][i], "name").Some? && Get(ss[1..][i], "name").value.JStr? by {
        forall i | 0 <= i < |ss[1..]| ensures ss[1..][i] == ss[i + 1] {}
      }
      EmptyQueryKeepsAll(ss[1..]);
      FilterKeepsHit(ss, Query(None));
    }
  }

  /** A hit followed by a fully kept tail keeps the whole list. */
  lemma FilterKeepsHit(ss: seq<Json>, query: string)
    requires |ss| > 0 && Hits(ss[0], query) == Some(true) && Filter(ss[1..], query) == Some(ss[1..])
    ensures Filter(ss, query) == Some(ss)
  {
    assert [ss[0]] + ss[1..] == ss;
  }

  /** The empty query is in every string name. */
  lemma HitsEmptyQuery(s: Json)
    requires Get(s, "name").Some? && Get(s, "name").value.JStr?
    ensures Hits(s, "") == Some(true)
  {
    assert IsPrefix("", Lower(Get(s, "name").value.s));
  }

  /** A strategy whose name, description and category are strings is found exactly when
      one of them contains the query, ignoring case. */
  lemma SearchMatches(s: Json, q: string, name: string, description: string, category: string)
    requires Get(s, "name") == Some(JStr(name))
    requires Get(s, "description") == Some(JStr(description))
    requires Get(s, "category") == Some(JStr(category))
    ensures Hits(s, Query(Some(q))) == Some(
      Contains(Lower(name), Lower(q)) || Contains(Lower(description), Lower(q)) || Contains(Lower(category), Lower(q)))
  {
  }

  /** `GET /strategies/search`: the normalised list filtered by the query, then enriched. */
  function SearchStrategies(text: string, q: Option<string>, parse: string -> Option<Json>): (r: Result<seq<Card>, string>)
    ensures r.Failure? ==> r.error == "Failed to search strategies"
    ensures r.Success? <==> Filter(Normalize(Parsed(text, parse)), Query(q)).Some?
    ensures r.Success? ==> var kept := Filter(Normalize(Parsed(text, parse)), Query(q)).value;
      |r.value| == |kept| && forall i :: 0 <= i < |kept| ==> Enrich(kept[i]) == Some(r.value[i])
  {
    match Filter(Normalize(Parsed(text, parse)), Query(q))
    case None => Failure("Failed to search strategies")
    case Some(kept) =>
      assert forall i :: 0 <= i < |kept| ==> !kept[i].JNull? by {
        forall i | 0 <= i < |kept| ensures !kept[i].JNull? {
          assert kept[i] in kept;
        }
      }
      match EnrichAll(kept)
      case None => Failure("Failed to search strategies")
      case Some(cards) => Success(cards)
  }

  // ---------------------------------------------------------------------------
  // Refinement replies

  const DefaultEvaluation := "#### Original prompt analysis\n- Analyzing prompt structure and clarity"
  const DefaultExplanation := "#### Refinement Explanation\n- Applied strategy-specific improvements"
  const SectionBreak := "\n\n"

  /** Phrases that mark a reply as a prompt already written for the model to run. */
  const ClaudeMarkers := ["You are about to", "Your task is to", "<prompt>", "Please process"]

  /** The reply `POST /refine-with-strategy` sends. The first three kinds carry fixed
      evaluation and explanation texts; a sectioned reply carries its own. */
  datatype Reply =
    | Processed(output: string)
    | TemplateShown(shown: string)
    | ClaudeReady(text: string)
    | Sections(evaluation: Json, refined: Json, explanation: Json)

  predicate ClaudeFormat(content: string) {
    exists m | m in ClaudeMarkers :: Contains(content, m)
  }

  /** `sections[i] || fallback`. */
  function Section(sections: seq<string>, i: nat, fallback: string): string {
    if i < |sections| && sections[i] != "" then sections[i] else fallback
  }

  /** The reply to a `prompts/get` result whose first message has text `content`.
      `template` says whether the template processor is configured and recognises the
      text; `processed` is what it returned, None when it threw. Otherwise a reply with
      a marker phrase is passed on as it is, and any other is cut at blank lines into
      evaluation, refined prompt and explanation, with fixed fallbacks and the user's
      prompt standing in for missing or empty sections. */
  function PromptReply(content: string, prompt: string, template: bool, processed: Option<string>): (r: Reply)
    ensures template && processed.Some? ==> r == Processed(processed.value)
    ensures template && processed.None? ==> r == TemplateShown(content)
    ensures !template && ClaudeFormat(content) ==> r == ClaudeReady(content)
    ensures !template && !ClaudeFormat(content) ==> r.Sections? && r.evaluation.JStr? && r.refined.JStr? && r.explanation.JStr?
  {
    if template then
      if processed.Some? then Processed(processed.value) else TemplateShown(content)
    else if ClaudeFormat(content) then ClaudeReady(content)
    else
      var sections := Split(content, SectionBreak);
      Sections(JStr(Section(sections, 0, DefaultEvaluation)),
               JStr(Section(sections, 1, prompt)),
               JStr(Section(sections, 2, DefaultExplanation)))
  }

  /** `Join` of a non-empty list starts with its first element. */
  lemma JoinStartsWithHead(parts: seq<string>, sep: string)
    requires |parts| > 0
    ensures IsPrefix(parts[0], Join(parts, sep))
  {
  }

  /** When the first three blank-line sections of a plain reply are non-empty, the reply
      text begins with exactly those three sections, separated by blank lines. */
  lemma SectionsRoundTrip(content: string, prompt: string)
    requires !ClaudeFormat(content)
    requires var sections := Split(content, SectionBreak);
             |sections| >= 3 && sections[0] != "" && sections[1] != "" && sections[2] != ""
    ensures var r := PromptReply(content, prompt, false, None);
            IsPrefix(r.evaluation.s + SectionBreak + r.refined.s + SectionBreak + r.explanation.s, content)
  {
    var sections := Split(content, SectionBreak);
    JoinSplit(content, SectionBreak);
    JoinStartsWithHead(sections[2..], SectionBreak);
    assert Join(sections, SectionBreak) == sections[0] + SectionBreak + (sections[1] + SectionBreak + Join(sections[2..], SectionBreak)) by {
      assert sections[1..][1..] == sections[2..];
    }
  }

  /** Splitting text that holds no separator gives the text alone. */
  lemma {:induction false} SplitWithoutSeparator(s: string, sep: string)
    requires |sep| > 0 && !Contains(s, sep)
    ensures Split(s, sep) == [s]
    decreases |s|
  {
    if |s| > 0 {
      SplitWithoutSeparator(s[1..], sep);
      assert [s[0]] + s[1..] == s;
    }
  }

  /** A plain reply without a blank line becomes the evaluation, and the refined prompt
      is the user's own. */
  lemma NoBreakKeepsPrompt(content: string, prompt: string)
    requires !ClaudeFormat(content) && !Contains(content, SectionBreak) && content != ""
    ensures PromptReply(content, prompt, false, None) == Sections(JStr(content), JStr(prompt), JStr(DefaultExplanation))
  {
    SplitWithoutSeparator(content, SectionBreak);
  }

  /** The reply to a `tools/call` result whose first item has text `content`: the same
      template and marker cases; otherwise the text is parsed and its snake_case or
      camelCase fields are used with the same fallbacks, and text that does not parse
      (or parses to `null`) is the refined prompt itself, or the user's prompt when empty. */
  function ToolReply(content: string, prompt: string, template: bool, processed: Option<string>,
                     parse: string -> Option<Json>): (r: Reply)
    ensures template || ClaudeFormat(content) ==> r == PromptReply(content, prompt, template, processed)
    ensures !template && !ClaudeFormat(content) && (parse(content).None? || parse(content).value.JNull?) ==>
              r == Sections(JStr(DefaultEvaluation), JStr(if content != "" then content else prompt), JStr(DefaultExplanation))
    ensures !template && !ClaudeFormat(content) && parse(content).Some? && !parse(content).value.JNull? ==>
              r.Sections? && Truthy(Some(r.refined)) == (Truthy(Get(parse(content).value, "refined_prompt")) ||
                Truthy(Get(parse(content).value, "refinedPrompt")) || prompt != "")
  {
    if template || ClaudeFormat(content) then PromptReply(content, prompt, template, processed)
    else
      match parse(content)
      case Some(v) =>
        if v.JNull? then Sections(JStr(DefaultEvaluation), JStr(if content != "" then content else prompt), JStr(DefaultExplanation))
        else
          Sections(Or(Get(v, "initial_prompt_evaluation"), Or(Get(v, "initialPromptEvaluation"), JStr(DefaultEvaluation))),
                   Or(Get(v, "refined_prompt"), Or(Get(v, "refinedPrompt"), JStr(prompt))),
                   Or(Get(v, "explanation_of_refinements"), Or(Get(v, "explanationOfRefinements"), JStr(DefaultExplanation))))
      case None => Sections(JStr(DefaultEvaluation), JStr(if content != "" then content else prompt), JStr(DefaultExplanation))
  }

  // ---------------------------------------------------------------------------
  // Route matching

  /** A path pattern segment: a literal word, or a `:name` parameter. */
  datatype Segment = Word(word: string) | Param

  datatype Handler =
    | Health | ListAll | GetOne | Refine | Search | Metrics | ListCollections
    | SaveCollection | McpPrompt | AutomaticMetaprompt | RefineWithStrategy | ApplyPrompt

  datatype Route = Route(verb: string, pattern: seq<Segment>, handler: Handler)

  /** A request for path segments `segs` matches a route: same verb and segment count,
      literal words compared without regard to case, parameters non-empty. */
  predicate Matches(route: Route, verb: string, segs: seq<string>) {
    route.verb == verb && |route.pattern| == |segs| &&
    forall i :: 0 <= i < |segs| ==> SegmentMatches(route.pattern[i], segs[i])
  }

  predicate SegmentMatches(p: Segment, seg: string) {
    if p.Word? then Lower(seg) == p.word else seg != ""
  }

  /** The handler of the first route, in registration order, that matches. */
  function Dispatch(routes: seq<Route>, verb: string, segs: seq<string>): (r: Option<Handler>)
    ensures r.None? <==> forall i :: 0 <= i < |routes| ==> !Matches(routes[i], verb, segs)
    ensures r.Some? ==> exists i :: 0 <= i < |routes| && Matches(routes[i], verb, segs) && routes[i].handler == r.value &&
                                    forall j :: 0 <= j < i ==> !Matches(routes[j], verb, segs)
    decreases |routes|
  {
    if |routes| == 0 then None
    else if Matches(routes[0], verb, segs) then Some(routes[0].handler)
    else
      var r := Dispatch(routes[1..], verb, segs);
      assert forall j :: 1 <= j < |routes| ==> routes[j] == routes[1..][j - 1];
      r
  }

  /** The routes in the order the bridge registers them. */
  const Routes := [
    Route("GET", [Word("health")], Health),
    Route("GET", [Word("strategies")], ListAll),
    Route("GET", [Word("strategies"), Param], GetOne),
    Route("POST", [Word("refine")], Refine),
    Route("GET", [Word("strategies"), Word("search")], Search),
    Route("GET", [Word("metrics")], Metrics),
    Route("GET", [Word("collections")], ListCollections),
    Route("POST", [Word("collections")], SaveCollection),
    Route("POST", [Word("mcp"), Word("prompt")], McpPrompt),
    Route("POST", [Word("automatic-metaprompt")], AutomaticMetaprompt),
    Route("POST", [Word("refine-with-strategy")], RefineWithStrategy),
    Route("POST", [Word("apply-prompt")], ApplyPrompt)]

  /** As registered, no request ever reaches the search handler: every path it would
      match is taken first by `/strategies/:id`, which looks up a strategy named
      "search". */
  lemma SearchShadowed(verb: string, segs: seq<string>)
    ensures Dispatch(Routes, verb, segs) != Some(Search)
  {
    if Matches(Routes[4], verb, segs) {
      IdRouteCoversSearch(verb, segs);
      DispatchPrefix(Routes, verb, segs, 3);
      EarlyRoutesDoNotSearch(verb, segs);
    } else {
      OnlyOneSearchRoute();
    }
  }

  /** A path the search route matches is matched by the `:id` route too. */
  lemma IdRouteCoversSearch(verb: string, segs: seq<string>)
    requires Matches(Routes[4], verb, segs)
    ensures Matches(Routes[2], verb, segs)
  {
    assert SegmentMatches(Routes[4].pattern[0], segs[0]);
    assert SegmentMatches(Routes[4].pattern[1], segs[1]);
  }

  /** The first three routes lead elsewhere. */
  lemma EarlyRoutesDoNotSearch(verb: string, segs: seq<string>)
    ensures Dispatch(Routes[..3], verb, segs) != Some(Search)
  {
    assert Routes[..3] == [Routes[0], Routes[1], Routes[2]];
  }

  /** The search handler is registered once. */
  lemma OnlyOneSearchRoute()
    ensures forall i :: 0 <= i < |Routes| && i != 4 ==> Routes[i].handler != Search
  {
  }

  /** When a route among the first `n` matches, the later ones play no part. */
  lemma {:induction false} DispatchPrefix(routes: seq<Route>, verb: string, segs: seq<string>, n: nat)
    requires n <= |routes| && exists i :: 0 <= i < n && Matches(routes[i], verb, segs)
    ensures Dispatch(routes, verb, segs) == Dispatch(routes[..n], verb, segs)
    decreases n
  {
    if !Matches(routes[0], verb, segs) {
      assert routes[..n][1..] == routes[1..][..n - 1];
      var i :| 0 <= i < n && Matches(routes[i], verb, segs);
      assert routes[1..][i - 1] == routes[i];
      DispatchPrefix(routes[1..], verb, segs, n - 1);
    }
  }

  /** The intended order: the literal search path before the parameterised one. */
  const FixedRoutes := [
    Route("GET", [Word("health")], Health),
    Route("GET", [Word("strategies")], ListAll),
    Route("GET", [Word("strategies"), Word("search")], Search),
    Route("GET", [Word("strategies"), Param], GetOne),
    Route("POST", [Word("refine")], Refine),
    Route("GET", [Word("metrics")], Metrics),
    Route("GET", [Word("collections")], ListCollections),
    Route("POST", [Word("collections")], SaveCollection),
    Route("POST", [Word("mcp"), Word("prompt")], McpPrompt),
    Route("POST", [Word("automatic-metaprompt")], AutomaticMetaprompt),
    Route("POST", [Word("refine-with-strategy")], RefineWithStrategy),
    Route("POST", [Word("apply-prompt")], ApplyPrompt)]

  /** In the intended order `GET /strategies/search` reaches the search handler, and any
      other single id still reaches the lookup. */
  lemma SearchReached(segs: seq<string>)
    requires |segs| == 2 && Lower(segs[0]) == "strategies" && segs[1] != ""
    ensures Lower(segs[1]) == "search" ==> Dispatch(FixedRoutes, "GET", segs) == Some(Search)
    ensures Lower(segs[1]) != "search" ==> Dispatch(FixedRoutes, "GET", segs) == Some(GetOne)
  {
    assert !Matches(FixedRoutes[0], "GET", segs);
    assert !Matches(FixedRoutes[1], "GET", segs);
    if Lower(segs[1]) == "search" {
      assert Matches(FixedRoutes[2], "GET", segs);
    } else {
      assert !Matches(FixedRoutes[2], "GET", segs);
      assert Matches(FixedRoutes[3], "GET", segs);
    }
  }
}
