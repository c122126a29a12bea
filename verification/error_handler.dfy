/** The error handler: turns anything thrown into an error of the taxonomy, counts it
    by code and by severity, logs it on the channel its severity selects, then
    recovers, suppresses or rethrows. Recoveries are functions from the error to what
    they resolve or throw; whether the environment is production is a parameter. */
module ErrorHandler {
  import opened Wrappers
  import opened Json
  import opened Counters
  import opened Errors

  datatype Metrics = Metrics(total: nat, byCode: Counts, bySeverity: Counts, lastError: Option<BaseError>)

  const NoMetrics := Metrics(0, [], [], None)

  /** What a recovery does: resolve with a value, or throw. */
  datatype Recovered = Resolved(value: Json) | Threw(message: string)

  datatype Handler = Handler(metrics: Metrics, recoveries: map<Code, BaseError -> Recovered>, suppress: bool)

  const Fresh := Handler(NoMetrics, map[], false)

  datatype Channel = ErrorLog | WarnLog | InfoLog

  datatype LogLine = LogLine(channel: Channel, text: string)

  /** How `handle` ends: with the recovery's value, with `undefined`, or by throwing. */
  datatype Outcome = Recovery(value: Json) | Suppressed | Rethrown(error: BaseError)

  datatype Handled = Handled(handler: Handler, logs: seq<LogLine>, outcome: Outcome)

  /** The counters agree: each count by code and by severity sums to the total. */
  predicate Consistent(m: Metrics) {
    Total(m.byCode) == m.total && Total(m.bySeverity) == m.total
  }

  /** `normalizeError`: an error of the taxonomy as it is; a plain error becomes an
      UNKNOWN_ERROR with its name and stack in the context and itself as the cause;
      any other value becomes an UNKNOWN_ERROR with its string form as the message. */
  function Normalize(thrown: Thrown): (e: BaseError)
    ensures thrown.Raised? ==> e == thrown.error
    ensures !thrown.Raised? ==> e.kind == Base && e.code == UnknownError
    ensures thrown.Plain? ==> e.message == thrown.message && e.cause == Some(Cause(thrown.name, thrown.message))
    ensures thrown.Plain? ==> e.context == [("originalError", JStr(thrown.name)), ("stack", JStr(thrown.stack))]
    ensures thrown.Other? ==> e.message == JsString(thrown.value) && e.cause.None?
    ensures thrown.Other? ==> e.context == [("originalValue", thrown.value)]
  {
    match thrown
    case Raised(err) => err
    case Plain(name, message, stack) =>
      Make(Base, message, UnknownError, [("originalError", JStr(name)), ("stack", JStr(stack))], Some(Cause(name, message)))
    case Other(v) => Make(Base, JsString(v), UnknownError, [("originalValue", v)], None)
  }

  /** Normalizing twice is normalizing once. */
  lemma NormalizeIdempotent(thrown: Thrown)
    ensures Normalize(Raised(Normalize(thrown))) == Normalize(thrown)
  {
  }

  /** A normalized plain error or value is MEDIUM: its context names no severity. */
  lemma NormalizedSeverity(thrown: Thrown)
    requires !thrown.Raised?
    ensures Normalize(thrown).severity == Medium
  {
    var ctx := Normalize(thrown).context;
    if thrown.Plain? {
      assert ctx[..1] == [ctx[0]];
      assert "severity" != "stack" && "severity" != "originalError";
    } else {
      assert "severity" != "originalValue";
    }
    assert Field(ctx, "severity").None?;
  }

  /** `updateMetrics`: one more error in total, under its code and under its severity. */
  function UpdateMetrics(m: Metrics, e: BaseError): (r: Metrics)
    ensures r.total == m.total + 1 && r.lastError == Some(e)
    ensures Count(r.byCode, CodeName(e.code)) == Count(m.byCode, CodeName(e.code)) + 1
    ensures Count(r.bySeverity, SeverityName(e.severity)) == Count(m.bySeverity, SeverityName(e.severity)) + 1
    ensures Consistent(m) ==> Consistent(r)
  {
    TotalBump(m.byCode, CodeName(e.code));
    TotalBump(m.bySeverity, SeverityName(e.severity));
    Metrics(m.total + 1, Bump(m.byCode, CodeName(e.code)), Bump(m.bySeverity, SeverityName(e.severity)), Some(e))
  }

  /** `logError`: CRITICAL and HIGH go to the error channel, CRITICAL with a prefix;
      MEDIUM is a warning and LOW is information. */
  function LogOf(e: BaseError): (l: LogLine)
    ensures l.channel == ErrorLog <==> e.severity == Critical || e.severity == High
    ensures l.channel == WarnLog <==> e.severity == Medium
    ensures l.channel == InfoLog <==> e.severity == Low
    ensures l.text == if e.severity == Critical then "CRITICAL: " + e.message else e.message
  {
    match e.severity
    case Critical => LogLine(ErrorLog, "CRITICAL: " + e.message)
    case High => LogLine(ErrorLog, e.message)
    case Medium => LogLine(WarnLog, e.message)
    case Low => LogLine(InfoLog, e.message)
  }

  /** `handle`: the error is counted and logged first; a registered recovery that
      resolves decides the outcome; otherwise, after logging a failed recovery, the
      error is suppressed only when suppression is on in production, and rethrown in
      every other case. */
  function Handle(h: Handler, thrown: Thrown, production: bool): (r: Handled)
    ensures var e := Normalize(thrown);
      && r.handler == h.(metrics := UpdateMetrics(h.metrics, e))
      && |r.logs| >= 1 && r.logs[0] == LogOf(e)
      && (r.outcome.Recovery? <==> e.code in h.recoveries && h.recoveries[e.code](e).Resolved?)
      && (r.outcome.Recovery? ==> r.outcome.value == h.recoveries[e.code](e).value)
      && (r.outcome.Suppressed? <==> !r.outcome.Recovery? && h.suppress && production)
      && (r.outcome.Rethrown? ==> r.outcome.error == e)
  {
    var e := Normalize(thrown);
    var counted := h.(metrics := UpdateMetrics(h.metrics, e));
    var logged := [LogOf(e)];
    var afterRecovery :=
      if e.code in h.recoveries && h.recoveries[e.code](e).Threw? then
        logged + [LogLine(ErrorLog, "Recovery strategy failed")]
      else logged;
    if e.code in h.recoveries && h.recoveries[e.code](e).Resolved? then
      Handled(counted, logged, Recovery(h.recoveries[e.code](e).value))
    else if h.suppress && production then
      Handled(counted, afterRecovery + [LogLine(InfoLog, "Error suppressed in production")], Suppressed)
    else
      Handled(counted, afterRecovery, Rethrown(e))
  }

  /** Handling keeps the counters consistent, whatever the outcome. */
  lemma HandleKeepsConsistent(h: Handler, thrown: Thrown, production: bool)
    requires Consistent(h.metrics)
    ensures Consistent(Handle(h, thrown, production).handler.metrics)
    ensures Handle(h, thrown, production).handler.metrics.total == h.metrics.total + 1
  {
  }

  /** A sequence of handled errors, each with its production flag. */
  function HandleAll(h: Handler, thrown: seq<(Thrown, bool)>): (r: Handler)
    ensures r.recoveries == h.recoveries && r.suppress == h.suppress
    decreases |thrown|
  {
    if |thrown| == 0 then h
    else HandleAll(Handle(h, thrown[0].0, thrown[0].1).handler, thrown[1..])
  }

  /** After a reset, the total is the number of errors handled, and the counts by code
      and by severity each sum to it. */
  lemma {:induction false} TotalCountsHandled(h: Handler, thrown: seq<(Thrown, bool)>)
    requires Consistent(h.metrics)
    ensures HandleAll(h, thrown).metrics.total == h.metrics.total + |thrown|
    ensures Consistent(HandleAll(h, thrown).metrics)
    decreases |thrown|
  {
    if |thrown| > 0 {
      HandleKeepsConsistent(h, thrown[0].0, thrown[0].1);
      TotalCountsHandled(Handle(h, thrown[0].0, thrown[0].1).handler, thrown[1..]);
    }
  }

  /** `registerRecovery`: a later registration for the same code replaces the earlier. */
  function Register(h: Handler, code: Code, recovery: BaseError -> Recovered): (r: Handler)
    ensures r.recoveries.Keys == h.recoveries.Keys + {code} && r.recoveries[code] == recovery
    ensures forall c :: c in h.recoveries && c != code ==> r.recoveries[c] == h.recoveries[c]
    ensures r.metrics == h.metrics && r.suppress == h.suppress
  {
    h.(recoveries := h.recoveries[code := recovery])
  }

  /** `resetMetrics`: every counter back to zero. */
  function ResetMetrics(h: Handler): (r: Handler)
    ensures r.metrics.total == 0 && r.metrics.byCode == [] && r.metrics.bySeverity == [] && Consistent(r.metrics)
    ensures r.recoveries == h.recoveries && r.suppress == h.suppress
  {
    h.(metrics := NoMetrics)
  }

  function SetSuppress(h: Handler, suppress: bool): (r: Handler)
    ensures r.suppress == suppress && r.metrics == h.metrics && r.recoveries == h.recoveries
  {
    h.(suppress := suppress)
  }

  /** `handleError`: what the wrapped operation threw, as the error passed on to
      `handle` (no cause and no stack, the caller's context). */
  function OperationError(thrown: Thrown, ctx: Context): (e: BaseError)
    ensures thrown.Raised? ==> e == thrown.error
    ensures thrown.Plain? ==> e == Make(Base, thrown.message, UnknownError, ctx, None)
    ensures thrown.Other? ==> e == Make(Base, JsString(thrown.value), UnknownError, ctx, None)
  {
    match thrown
    case Raised(err) => err
    case Plain(_, message, _) => Make(Base, message, UnknownError, ctx, None)
    case Other(v) => Make(Base, JsString(v), UnknownError, ctx, None)
  }
}
