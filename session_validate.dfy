/**
 * app/api/shared/session/validate/route.ts: checks the encrypted session
 * cookie and asks the validator Lambda whether the session's entity may use
 * this module. The module number is configured either as digits or as the
 * name of a parameter-store entry, which is looked up once per process.
 */
module SessionValidate {
  import opened Text
  import opened Js
  import opened Http
  import RateLimiter
  import Session

  const FallbackModule := "11"
  const InvalidDigits := "__INVALID_DIGITS__"

  /** `/^\d+$/.test(s)`: one or more ASCII digits and nothing else. */
  predicate IsDigitsOnly(s: string)
  {
    s != "" && AllDigits(s)
  }

  /** Every rendering of a natural number passes, and white space, signs and paths do not. */
  lemma DigitsOnlyCases(n: nat)
    ensures IsDigitsOnly(NatToString(n))
    ensures !IsDigitsOnly("") && !IsDigitsOnly(" 11") && !IsDigitsOnly("-1") && !IsDigitsOnly("/jef/module")
  {
    assert !IsDigit(' ') && !IsDigit('-') && !IsDigit('/');
    assert " 11"[0] == ' ' && "-1"[0] == '-' && "/jef/module"[0] == '/';
  }

  /** `asStr(r?.Parameter?.Value)`, or "" when the lookup throws. */
  function LookupValue(reply: SsmReply): (v: string)
    ensures IsTrimmed(v)
  {
    match reply
    case SsmFailed => ""
    case SsmValue(v) => if v.Some? then Trim(v.value) else ""
  }

  /**
   * The module number `getModuleNumber` settles on for the configured
   * source `src` when the parameter lookup resolved to `resolved`.
   */
  function ResolveModuleNumber(src: string, resolved: string): (m: string)
    ensures m == FallbackModule || m == InvalidDigits || IsDigitsOnly(m)
    ensures Trim(src) == "" ==> m == FallbackModule
    ensures IsDigitsOnly(Trim(src)) ==> m == Trim(src)
    ensures Trim(src) != "" && !IsDigitsOnly(Trim(src)) ==>
      (Trim(resolved) == "" ==> m == FallbackModule)
      && (Trim(resolved) != "" && !IsDigitsOnly(Trim(resolved)) ==> m == InvalidDigits)
      && (IsDigitsOnly(Trim(resolved)) ==> m == Trim(resolved))
  {
    var s := Trim(src);
    if s == "" then FallbackModule
    else if IsDigitsOnly(s) then s
    else
      var r := Trim(resolved);
      if r == "" then FallbackModule
      else if !IsDigitsOnly(r) then InvalidDigits
      else r
  }

  /** `{ session_number, entity_number, employee_number }` */
  datatype PayloadOut = PayloadOut(sessionNumber: string, entityNumber: string, employeeNumber: string)

  function EmptyPayload(): PayloadOut
  {
    PayloadOut("", "", "")
  }

  /** The JSON body and headers `resp(...)` builds. */
  datatype CheckResponse = CheckResponse(
    status: int,
    cookieExists: bool,
    isValid: string,
    message: string,
    moduleNumber: string,
    elapsedTime: string,
    payload: PayloadOut,
    headers: map<string, string>)

  /** `resp(...)`: `is_valid` as the text "true"/"false" and `cache-control: no-store` on every answer. */
  function Resp(cookieExists: bool, isValid: bool, message: string, moduleNumber: string, elapsedMs: int,
                payload: PayloadOut, status: int, extraHeaders: map<string, string>): (r: CheckResponse)
    requires "cache-control" !in extraHeaders
    ensures r.isValid == "true" || r.isValid == "false"
    ensures "cache-control" in r.headers && r.headers["cache-control"] == "no-store"
  {
    CheckResponse(status, cookieExists, if isValid then "true" else "false", message, moduleNumber,
      IntToString(elapsedMs) + "ms", payload, map["cache-control" := "no-store"] + extraHeaders)
  }

  /** The validator's verdict as `invokeLambda` reads it. */
  datatype Verdict = Verdict(isValid: bool, message: string)

  /** The object whose `is_valid` counts: a string `body` that parses to an object replaces the outer one. */
  function FinalObject(lib: Lib, data: Value): Value
  {
    var inner := if IsObject(data) && Get(data, "body").Str? then ParseOrNull(lib, Get(data, "body").s) else Null;
    if IsObject(inner) then inner else data
  }

  /**
   * `invokeLambda` once the invocation returned: a `FunctionError`, an empty
   * payload or a payload that is not JSON make the verdict false; otherwise
   * `is_valid` is the truthiness of the final object's `is_valid`.
   */
  function ReadVerdict(lib: Lib, functionError: string, payload: string): (v: Verdict)
    ensures functionError != "" || Trim(payload) == "" || lib.parse(Trim(payload)).None? ==> !v.isValid
    ensures functionError == "" && Trim(payload) != "" && lib.parse(Trim(payload)).Some? ==>
      v.isValid == Truthy(Get(FinalObject(lib, lib.parse(Trim(payload)).value), "is_valid"))
  {
    var raw := Trim(payload);
    if functionError != "" then Verdict(false, if raw != "" then "Lambda error: " + raw else "Lambda error.")
    else if raw == "" then Verdict(false, "Empty lambda response.")
    else
      match lib.parse(raw)
      case None => Verdict(false, "Invalid lambda JSON response.")
      case Some(data) =>
        var final := FinalObject(lib, data);
        Verdict(Truthy(Get(final, "is_valid")), AsStr(Get(final, "message")))
  }

  /** An API-Gateway-style reply whose `body` is JSON text for an object is judged by that inner object. */
  lemma VerdictUnwrapsStringBody(lib: Lib, payload: string, inner: Value)
    requires Trim(payload) != ""
    requires lib.parse(Trim(payload)).Some? && IsObject(lib.parse(Trim(payload)).value)
    requires Get(lib.parse(Trim(payload)).value, "body").Str?
    requires lib.parse(Get(lib.parse(Trim(payload)).value, "body").s) == Some(inner) && IsObject(inner)
    ensures ReadVerdict(lib, "", payload).isValid == Truthy(Get(inner, "is_valid"))
  {
  }

  /**
   * The `GET` answer once the rate limit, the module number, the cookie's
   * token, what `readSession` resolved to and the validator invocation are
   * known. `source` is the configured `MODULE_NUMBER`.
   */
  function Answer(lib: Lib, rate: RateLimiter.RateResult, source: string, moduleNumber: string,
                  token: string, session: Option<Session.SessionPayload>, inv: Invocation, elapsedMs: int): (r: CheckResponse)
  {
    if !rate.allowed then
      Resp(false, false, "Too many requests. Please slow down.", FallbackModule, elapsedMs, EmptyPayload(), 429,
        map["Retry-After" := RateLimiter.RetryAfterHeader(rate)])
    else if moduleNumber == InvalidDigits then
      Resp(true, false, "module_number must contain digits only.", Trim(source), elapsedMs, EmptyPayload(), 400, map[])
    else if Trim(token) == "" then
      Resp(false, false, "Session cookie not found.", moduleNumber, elapsedMs, EmptyPayload(), 401, map[])
    else if session.None? || session.value.entityNumber == "" || session.value.employeeNumber == "" then
      Resp(true, false, "Session token is invalid or expired.", moduleNumber, elapsedMs, EmptyPayload(), 401, map[])
    else
      var p := PayloadOut("", Trim(session.value.entityNumber), Trim(session.value.employeeNumber));
      match inv
      case Threw(msg) =>
        Resp(true, false, "Server error: " + (if Trim(msg) != "" then Trim(msg) else "Unknown error"),
          moduleNumber, elapsedMs, EmptyPayload(), 500, map[])
      case Returned(_, fe, payload) =>
        var v := ReadVerdict(lib, fe, payload);
        if !v.isValid then
          Resp(true, false, if v.message != "" then v.message else "Entity/module validation failed.",
            moduleNumber, elapsedMs, p, 403, map[])
        else
          Resp(true, true, if v.message != "" then v.message else "Session and module are valid.",
            moduleNumber, elapsedMs, p, 200, map[])
  }

  /**
   * The statuses come in a fixed order: 429 when rate-limited, 400 for a
   * module number that is not digits, 401 with no cookie, 401 for a session
   * without both numbers, 500 when the invocation throws, else 403 or 200 by
   * the validator's verdict.
   */
  lemma {:induction false} StatusChain(lib: Lib, rate: RateLimiter.RateResult, source: string, moduleNumber: string,
                                       token: string, session: Option<Session.SessionPayload>, inv: Invocation, elapsedMs: int)
    ensures var r := Answer(lib, rate, source, moduleNumber, token, session, inv, elapsedMs);
      var signedIn := session.Some? && session.value.entityNumber != "" && session.value.employeeNumber != "";
      && (r.status == 429 <==> !rate.allowed)
      && (r.status == 400 <==> rate.allowed && moduleNumber == InvalidDigits)
      && (r.status == 401 <==> rate.allowed && moduleNumber != InvalidDigits && (Trim(token) == "" || !signedIn))
      && (r.status == 500 <==> rate.allowed && moduleNumber != InvalidDigits && Trim(token) != "" && signedIn && inv.Threw?)
      && (r.status == 200 <==>
            (rate.allowed && moduleNumber != InvalidDigits && Trim(token) != "" && signedIn
             && inv.Returned? && ReadVerdict(lib, inv.functionError, inv.payload).isValid))
      && (r.status in {429, 400, 401, 403, 500, 200})
  {
  }

  /**
   * Only the 403 and 200 answers echo the session's numbers, trimmed and
   * with an empty `session_number`; every other answer carries the empty
   * payload. `is_valid` is "true" exactly on 200.
   */
  lemma {:induction false} PayloadOnlyWhenValidated(lib: Lib, rate: RateLimiter.RateResult, source: string, moduleNumber: string,
                                                   token: string, session: Option<Session.SessionPayload>, inv: Invocation, elapsedMs: int)
    ensures var r := Answer(lib, rate, source, moduleNumber, token, session, inv, elapsedMs);
      && (r.status != 403 && r.status != 200 ==> r.payload == EmptyPayload())
      && (r.status == 403 || r.status == 200 ==>
            session.Some? && r.payload == PayloadOut("", Trim(session.value.entityNumber), Trim(session.value.employeeNumber)))
      && (r.isValid == "true" <==> r.status == 200)
      && r.headers["cache-control"] == "no-store"
      && r.payload.sessionNumber == ""
  {
  }

  /**
   * The route's module-level state: `moduleNumberPromise`, set on the first
   * lookup and never cleared (None until then; afterwards the value it
   * resolved to). `lookups` counts calls to the parameter store.
   */
  class ModuleNumberSource {
    var promise: Option<string>
    ghost var lookups: nat

    constructor()
      ensures promise.None? && lookups == 0
    {
      promise := None;
      lookups := 0;
    }

    /** `getModuleNumber()`: digits are used as given; any other source is a parameter name looked up once. */
    method GetModuleNumber(source: string, store: string -> SsmReply) returns (m: string)
      modifies this
      ensures var src := Trim(source);
        if src == "" || IsDigitsOnly(src) then
          m == ResolveModuleNumber(source, "") && promise == old(promise) && lookups == old(lookups)
        else
          && promise == (if old(promise).Some? then old(promise) else Some(LookupValue(store(src))))
          && lookups == old(lookups) + (if old(promise).Some? then 0 else 1)
          && m == ResolveModuleNumber(source, promise.value)
    {
      var src := Trim(source);
      if src == "" {
        return FallbackModule;
      }
      if IsDigitsOnly(src) {
        return src;
      }
      if promise.None? {
        promise := Some(LookupValue(store(src)));
        lookups := lookups + 1;
      }
      var resolved := Trim(promise.value);
      if resolved == "" {
        m := FallbackModule;
      } else if !IsDigitsOnly(resolved) {
        m := InvalidDigits;
      } else {
        m := resolved;
      }
    }

    /** `GET(req)`: the module number is resolved only for requests that got past the rate limit. */
    method Get(lib: Lib, rate: RateLimiter.RateResult, source: string, store: string -> SsmReply,
               cookies: map<string, string>, session: Option<Session.SessionPayload>, inv: Invocation, elapsedMs: int)
      returns (r: CheckResponse)
      modifies this
      ensures !rate.allowed ==>
        && r == Resp(false, false, "Too many requests. Please slow down.", FallbackModule, elapsedMs, EmptyPayload(), 429,
                     map["Retry-After" := RateLimiter.RetryAfterHeader(rate)])
        && promise == old(promise) && lookups == old(lookups)
      ensures rate.allowed ==>
        var src := Trim(source);
        var p := if src == "" || IsDigitsOnly(src) || old(promise).Some? then old(promise) else Some(LookupValue(store(src)));
        && promise == p
        && r == Answer(lib, rate, source, ResolveModuleNumber(source, if p.Some? then p.value else ""),
                       Session.EnvStr(Session.CookieValue(cookies, Session.CookieName)), session, inv, elapsedMs)
    {
      if !rate.allowed {
        r := Answer(lib, rate, source, "", "", session, inv, elapsedMs);
        return;
      }
      var m := GetModuleNumber(source, store);
      r := Answer(lib, rate, source, m, Session.EnvStr(Session.CookieValue(cookies, Session.CookieName)), session, inv, elapsedMs);
    }
  }

  /** Once the lookup has run, a failed or empty answer sticks: later calls give "11" without asking again. */
  method FailedLookupSticks(src: ModuleNumberSource, source: string, store: string -> SsmReply, later: string -> SsmReply)
    returns (first: string, second: string)
    requires src.promise.None?
    requires Trim(source) != "" && !IsDigitsOnly(Trim(source))
    requires LookupValue(store(Trim(source))) == ""
    modifies src
    ensures first == FallbackModule && second == FallbackModule
    ensures src.lookups == old(src.lookups) + 1
  {
    first := src.GetModuleNumber(source, store);
    second := src.GetModuleNumber(source, later);
  }
}
