/** The error taxonomy: codes, severities, the error subclasses and the severity each
    one fixes, the factory and wrapper functions, and the JSON form of an error with
    its context sanitized. The construction time is left to the caller (`ToJson`
    takes its ISO rendering). */
module Errors {
  import opened Wrappers
  import opened Text
  import opened Json

  datatype Code =
    | UnknownError | ValidationError | McpProtocolError | StrategyNotFound | StrategyError
    | WorkflowError | CacheError | CacheCapacityExceeded | TimeoutError | RateLimitError
    | ConfigurationError | PermissionError

  /** The string value of each code. */
  function CodeName(c: Code): string {
    match c
    case UnknownError => "UNKNOWN_ERROR"
    case ValidationError => "VALIDATION_ERROR"
    case McpProtocolError => "MCP_PROTOCOL_ERROR"
    case StrategyNotFound => "STRATEGY_NOT_FOUND"
    case StrategyError => "STRATEGY_ERROR"
    case WorkflowError => "WORKFLOW_ERROR"
    case CacheError => "CACHE_ERROR"
    case CacheCapacityExceeded => "CACHE_CAPACITY_EXCEEDED"
    case TimeoutError => "TIMEOUT_ERROR"
    case RateLimitError => "RATE_LIMIT_ERROR"
    case ConfigurationError => "CONFIGURATION_ERROR"
    case PermissionError => "PERMISSION_ERROR"
  }

  datatype Severity = Low | Medium | High | Critical

  function SeverityName(s: Severity): string {
    match s
    case Low => "LOW"
    case Medium => "MEDIUM"
    case High => "HIGH"
    case Critical => "CRITICAL"
  }

  /** The severity a context string names, if any. */
  function SeverityNamed(s: string): (r: Option<Severity>)
    ensures r.Some? ==> SeverityName(r.value) == s
  {
    match s
    case "LOW" => Some(Low)
    case "MEDIUM" => Some(Medium)
    case "HIGH" => Some(High)
    case "CRITICAL" => Some(Critical)
    case _ => None
  }

  lemma SeverityNamesRoundTrip(s: Severity)
    ensures SeverityNamed(SeverityName(s)) == Some(s)
  {
  }

  /** Which class constructed the error; its `name` is the class name. */
  datatype Kind = Base | Validation | McpProtocol | Strategy | Cache | Timeout | Configuration

  function KindName(k: Kind): string {
    match k
    case Base => "BaseError"
    case Validation => "ValidationError"
    case McpProtocol => "MCPProtocolError"
    case Strategy => "StrategyError"
    case Cache => "CacheError"
    case Timeout => "TimeoutError"
    case Configuration => "ConfigurationError"
  }

  /** An error context: an object's entries in enumeration order. */
  type Context = seq<(string, Json)>

  /** The plain `Error` an error was wrapped around. */
  datatype Cause = Cause(name: string, message: string)

  datatype BaseError = BaseError(
    kind: Kind,
    message: string,
    code: Code,
    context: Context,
    severity: Severity,
    cause: Option<Cause>)

  /** Something thrown: one of these errors, a plain `Error`, or any other value. */
  datatype Thrown =
    | Raised(error: BaseError)
    | Plain(name: string, message: string, stack: string)
    | Other(value: Json)

  /** `context.severity || MEDIUM`. */
  function SeverityOf(ctx: Context): (s: Severity)
    ensures (match Field(ctx, "severity")
             case Some(JStr(n)) => SeverityNamed(n).Some? ==> s == SeverityNamed(n).value
             case _ => s == Medium)
  {
    match Field(ctx, "severity")
    case Some(JStr(n)) => SeverityNamed(n).GetOr(Medium)
    case _ => Medium
  }

  /** The `BaseError` constructor: the severity comes from the context. */
  function Make(kind: Kind, message: string, code: Code, ctx: Context, cause: Option<Cause>): (e: BaseError)
    ensures e.kind == kind && e.message == message && e.code == code && e.context == ctx && e.cause == cause
  {
    BaseError(kind, message, code, ctx, SeverityOf(ctx), cause)
  }

  /** The subclasses that pin their severity write it into the context first. */
  function WithSeverity(ctx: Context, s: Severity): (r: Context)
    ensures SeverityOf(r) == s
  {
    var r := Assign(ctx, "severity", JStr(SeverityName(s)));
    SeverityNamesRoundTrip(s);
    r
  }

  /** `new TimeoutError(message, timeout, context)`: always HIGH. */
  function TimeoutOf(message: string, timeout: int, ctx: Context): (e: BaseError)
    ensures e.kind == Timeout && e.code == TimeoutError && e.severity == High
    ensures Field(e.context, "timeout") == Some(JNum(timeout))
  {
    Make(Timeout, message, TimeoutError, WithSeverity(Assign(ctx, "timeout", JNum(timeout)), High), None)
  }

  /** `createError`: five codes have their own class, the others make a `BaseError`
      carrying the code; only the protocol and configuration errors override the
      caller's severity. */
  function Create(code: Code, message: string, ctx: Context): (e: BaseError)
    ensures e.code == code && e.message == message && e.cause.None?
    ensures e.kind == match code
      case ValidationError => Validation
      case McpProtocolError => McpProtocol
      case StrategyError => Strategy
      case CacheError => Cache
      case ConfigurationError => Configuration
      case _ => Base
    ensures code == McpProtocolError ==> e.severity == High
    ensures code == ConfigurationError ==> e.severity == Critical
    ensures code != McpProtocolError && code != ConfigurationError ==> e.severity == SeverityOf(ctx) && e.context == ctx
  {
    match code
    case ValidationError => Make(Validation, message, code, ctx, None)
    case McpProtocolError => Make(McpProtocol, message, code, WithSeverity(ctx, High), None)
    case StrategyError => Make(Strategy, message, code, ctx, None)
    case CacheError => Make(Cache, message, code, ctx, None)
    case ConfigurationError => Make(Configuration, message, code, WithSeverity(ctx, Critical), None)
    case _ => Make(Base, message, code, ctx, None)
  }

  /** A caller asking for LOW still gets HIGH from the protocol and timeout errors and
      CRITICAL from the configuration error, but LOW from the others. */
  lemma PinnedSeverities(message: string, timeout: int)
    ensures Create(McpProtocolError, message, [("severity", JStr("LOW"))]).severity == High
    ensures TimeoutOf(message, timeout, [("severity", JStr("LOW"))]).severity == High
    ensures Create(ConfigurationError, message, [("severity", JStr("LOW"))]).severity == Critical
    ensures Create(CacheError, message, [("severity", JStr("LOW"))]).severity == Low
  {
    LowRequested();
  }

  lemma LowRequested()
    ensures SeverityOf([("severity", JStr("LOW"))]) == Low
  {
    var ctx: Context := [("severity", JStr("LOW"))];
    assert Field(ctx, "severity") == Some(JStr("LOW"));
    assert SeverityNamed(SeverityName(Low)) == Some(Low);
  }

  /** `wrapError`: one of these errors passes through unchanged; anything else becomes a
      `BaseError` with the given code, keeping a plain error as the cause. */
  function Wrap(thrown: Thrown, code: Code, ctx: Context): (e: BaseError)
    ensures thrown.Raised? ==> e == thrown.error
    ensures thrown.Plain? ==> e == Make(Base, thrown.message, code, ctx, Some(Cause(thrown.name, thrown.message)))
    ensures thrown.Other? ==> e.kind == Base && e.code == code && e.cause.None? && e.message == JsString(thrown.value)
  {
    match thrown
    case Raised(err) => err
    case Plain(name, message, _) => Make(Base, message, code, ctx, Some(Cause(name, message)))
    case Other(v) => Make(Base, JsString(v), code, ctx, None)
  }

  /** Wrapping is idempotent: a wrapped error wraps to itself. */
  lemma WrapIdempotent(thrown: Thrown, code: Code, other: Code, ctx: Context)
    ensures Wrap(Raised(Wrap(thrown, code, ctx)), other, ctx) == Wrap(thrown, code, ctx)
  {
  }

  /** A key naming a password, token or secret, in any letter case. */
  predicate Sensitive(key: string) {
    var k := Lower(key);
    Contains(k, "password") || Contains(k, "token") || Contains(k, "secret")
  }

  const Redacted := "[REDACTED]"

  /** One context value as `sanitizeContext` writes it: redacted under a sensitive
      key, objects and arrays cut to the first 100 characters of their JSON text plus
      "...", anything else as it is. `JSON.stringify` is the `stringify` parameter. */
  function SanitizeValue(key: string, v: Json, stringify: Json -> string): (r: Json)
    ensures !r.JObj? && !r.JArr?
    ensures Sensitive(key) ==> r == JStr(Redacted)
    ensures !Sensitive(key) && !v.JObj? && !v.JArr? ==> r == v
    ensures !Sensitive(key) && (v.JObj? || v.JArr?) ==> r.JStr? && 3 <= |r.s| <= 103 && IsPrefix(r.s[..|r.s| - 3], stringify(v))
    ensures !Sensitive(key) && (v.JObj? || v.JArr?) ==>
      |r.s| == (if |stringify(v)| < 100 then |stringify(v)| else 100) + 3 && r.s[|r.s| - 3..] == "..."
  {
    if Sensitive(key) then JStr(Redacted)
    else if v.JObj? || v.JArr? then
      var text := stringify(v);
      var cut := if |text| < 100 then text else text[..100];
      var s := cut + "...";
      assert s[..|s| - 3] == cut && s[|s| - 3..] == "...";
      JStr(s)
    else v
  }

  /** `sanitizeContext`: the same keys in the same order, each value sanitized. */
  function Sanitize(ctx: Context, stringify: Json -> string): (r: Context)
    ensures |r| == |ctx|
    ensures forall i :: 0 <= i < |r| ==> r[i] == (ctx[i].0, SanitizeValue(ctx[i].0, ctx[i].1, stringify))
  {
    seq(|ctx|, i requires 0 <= i < |ctx| => (ctx[i].0, SanitizeValue(ctx[i].0, ctx[i].1, stringify)))
  }

  /** Sanitizing a sanitized context changes nothing, and no sensitive key keeps its
      value. */
  lemma SanitizeIdempotent(ctx: Context, stringify: Json -> string)
    ensures Sanitize(Sanitize(ctx, stringify), stringify) == Sanitize(ctx, stringify)
    ensures forall i :: 0 <= i < |ctx| && Sensitive(ctx[i].0) ==> Sanitize(ctx, stringify)[i].1 == JStr(Redacted)
  {
  }

  const JsonFieldNames := ["name", "message", "code", "severity", "timestamp", "context"]

  /** `toJSON`: exactly the name, message, code, severity, timestamp and sanitized
      context, in that order; neither the stack nor the cause. */
  function ToJson(e: BaseError, timestamp: string, stringify: Json -> string): (r: Json)
    ensures r.JObj? && |r.fields| == |JsonFieldNames|
    ensures forall i :: 0 <= i < |r.fields| ==> r.fields[i].0 == JsonFieldNames[i]
    ensures r.fields[0].1 == JStr(KindName(e.kind)) && r.fields[1].1 == JStr(e.message)
    ensures r.fields[2].1 == JStr(CodeName(e.code)) && r.fields[3].1 == JStr(SeverityName(e.severity))
    ensures r.fields[5].1 == JObj(Sanitize(e.context, stringify))
  {
    JObj([("name", JStr(KindName(e.kind))), ("message", JStr(e.message)),
          ("code", JStr(CodeName(e.code))), ("severity", JStr(SeverityName(e.severity))),
          ("timestamp", JStr(timestamp)), ("context", JObj(Sanitize(e.context, stringify)))])
  }

  /** The JSON form carries no stack and no cause. */
  lemma ToJsonOmitsStackAndCause()
    ensures "stack" !in JsonFieldNames && "cause" !in JsonFieldNames
  {
    assert "stack"[1] == 't' && "cause"[0] == 'c';
  }
}
