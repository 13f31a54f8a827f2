/**
 * app/api/shared/validate-session/route.ts: the older session check over a
 * signed JWT in the `jef_jwt_session` cookie (HMAC secret from
 * `JEF_IAM_JWT_SECRET`), which also reports how long ago the token was
 * issued.
 */
module ValidateSession {
  import opened Text
  import opened Js
  import opened Http
  import RateLimiter
  import SessionValidate

  const CookieName := "jef_jwt_session"

  /** `getJwtSecret()`: the trimmed secret text, or None when it is blank. */
  function JwtSecret(env: Option<string>): (s: Option<string>)
    ensures s.Some? ==> s.value != "" && IsTrimmed(s.value)
    ensures s.None? <==> env.None? || IsBlank(env.value)
  {
    var t := Trim(if env.Some? then env.value else "");
    if t == "" then None else Some(t)
  }

  /** `String(MODULE_NUMBER || "11").trim()` */
  function ModuleNumber(env: Option<string>): (m: string)
    ensures env.None? || env.value == "" ==> m == "11"
    ensures env.Some? && env.value != "" ==> m == Trim(env.value)
  {
    Trim(if env.Some? && env.value != "" then env.value else "11")
  }

  /** `${count} ${unit}${count === 1 ? "" : "s"} ago` */
  function Phrase(count: nat, unit: string): (r: string)
    ensures StartsWith(r, NatToString(count) + " " + unit)
  {
    NatToString(count) + " " + unit + (if count == 1 then "" else "s") + " ago"
  }

  /** The humanised text for a difference of `diff` whole seconds. */
  function Elapsed(diff: nat): string
  {
    if diff < 60 then "just now"
    else
      var mins := diff / 60;
      if mins < 60 then Phrase(mins, "minute")
      else
        var hrs := mins / 60;
        if hrs < 24 then Phrase(hrs, "hour")
        else Phrase(hrs / 24, "day")
  }

  /**
   * `humanizeElapsedFromIat(iat)` at the instant `nowMs`: "" unless `iat` is
   * a finite positive number; a future `iat` counts as no time at all.
   */
  function Humanize(lib: Lib, iat: Value, nowMs: int): (r: string)
    ensures var n := ToNumber(lib, iat); !n.Finite? || n.r <= 0.0 ==> r == ""
  {
    var n := ToNumber(lib, iat);
    if !n.Finite? || n.r <= 0.0 then ""
    else
      var diff := nowMs / 1000 - Floor(n.r);
      Elapsed(if diff < 0 then 0 else diff)
  }

  /** An issue time in the future (or within the current second) reads "just now". */
  lemma FutureIatIsJustNow(lib: Lib, iat: Value, nowMs: int)
    requires ToNumber(lib, iat).Finite? && ToNumber(lib, iat).r > 0.0
    requires Floor(ToNumber(lib, iat).r) >= nowMs / 1000
    ensures Humanize(lib, iat, nowMs) == "just now"
  {
  }

  /**
   * The buckets, by floor division of the whole seconds elapsed: under a
   * minute "just now", under an hour whole minutes, under a day whole
   * hours, else whole days; the count shown is always at least 1.
   */
  lemma {:induction false} ElapsedBuckets(diff: nat)
    ensures diff < 60 ==> Elapsed(diff) == "just now"
    ensures 60 <= diff < 3600 ==> 1 <= diff / 60 < 60 && Elapsed(diff) == Phrase(diff / 60, "minute")
    ensures 3600 <= diff < 86400 ==> 1 <= diff / 3600 < 24 && Elapsed(diff) == Phrase(diff / 3600, "hour")
    ensures 86400 <= diff ==> 1 <= diff / 86400 && Elapsed(diff) == Phrase(diff / 86400, "day")
  {
    assert diff / 60 / 60 == diff / 3600;
    assert diff / 60 / 60 / 24 == diff / 86400;
  }

  /** The unit word is singular exactly when its count is 1: "1 hour ago" but "2 hours ago". */
  lemma SingularExactlyAtOne(count: nat, unit: string)
    requires unit != [] && unit[|unit| - 1] != 's'
    ensures var r := Phrase(count, unit); EndsWith(r, "s ago") <==> count != 1
  {
    var r := Phrase(count, unit);
    var head := NatToString(count) + " " + unit;
    if count == 1 {
      assert r == head + " ago";
      assert r[|r| - 5] == unit[|unit| - 1];
      assert r[|r| - 5..][0] != "s ago"[0];
    } else {
      assert r == head + "s ago";
      assert r[|r| - 5..] == "s ago";
    }
  }

  /** The route's answers: the 429 carries only a message and a `Retry-After` header. */
  datatype Reply =
    | TooManyRequests(retryAfter: string)
    | Checked(status: int, cookieExists: bool, isValid: string, message: string, moduleNumber: string,
              elapsedTime: string, payload: SessionValidate.PayloadOut)

  /** `resp(...)` */
  function Resp(cookieExists: bool, isValid: bool, message: string, moduleNumber: string, elapsed: string,
                payload: SessionValidate.PayloadOut, status: int): (r: Reply)
    ensures r.Checked? && (r.isValid == "true" <==> isValid) && (r.isValid == "false" <==> !isValid)
  {
    Checked(status, cookieExists, if isValid then "true" else "false", message, moduleNumber, elapsed, payload)
  }

  /** `String(raw.<name> ?? "").trim()` */
  function Claim(lib: Lib, claims: map<string, Value>, name: string): (r: string)
    ensures IsTrimmed(r)
    ensures name !in claims ==> r == ""
  {
    Trim(JsString(lib, Coalesce(Get(Obj(claims), name), Str(""))))
  }

  /** The three numbers the verified token carries. */
  function PayloadOf(lib: Lib, claims: map<string, Value>): SessionValidate.PayloadOut
  {
    SessionValidate.PayloadOut(Claim(lib, claims, "session_number"), Claim(lib, claims, "entity_number"), Claim(lib, claims, "employee_number"))
  }

  predicate Complete(p: SessionValidate.PayloadOut)
  {
    p.sessionNumber != "" && p.entityNumber != "" && p.employeeNumber != ""
  }

  /**
   * `invokeLambda` of this route once the invocation returned: no unwrapping
   * of a `body`; `is_valid` is the truthiness of the parsed `is_valid`.
   */
  function ReadVerdict(lib: Lib, functionError: string, payload: string): (v: SessionValidate.Verdict)
    ensures functionError != "" || Trim(payload) == "" || lib.parse(Trim(payload)).None? ==> !v.isValid
    ensures functionError == "" && Trim(payload) != "" && lib.parse(Trim(payload)).Some? ==>
      v.isValid == Truthy(Get(lib.parse(Trim(payload)).value, "is_valid"))
  {
    var raw := Trim(payload);
    if functionError != "" then SessionValidate.Verdict(false, if raw != "" then "Lambda error: " + raw else "Lambda error.")
    else if raw == "" then SessionValidate.Verdict(false, "Empty lambda response.")
    else
      match lib.parse(raw)
      case None => SessionValidate.Verdict(false, "Invalid lambda JSON response.")
      case Some(data) => SessionValidate.Verdict(Truthy(Get(data, "is_valid")), JsString(lib, Or(Get(data, "message"), Str(""))))
  }

  /** The rest of `GET` once the token verified with the claims `claims`. */
  function AfterVerify(lib: Lib, m: string, claims: map<string, Value>, inv: Invocation, nowMs: int): (r: Reply)
    ensures r.Checked? && r.cookieExists && r.moduleNumber == m
    ensures !Complete(PayloadOf(lib, claims)) ==> r.status == 401
    ensures Complete(PayloadOf(lib, claims)) && inv.Threw? ==> r.status == 500 && r.payload == SessionValidate.EmptyPayload()
    ensures Complete(PayloadOf(lib, claims)) && inv.Returned? ==>
      r.status == (if ReadVerdict(lib, inv.functionError, inv.payload).isValid then 200 else 403)
    ensures r.status != 500 ==>
      r.payload == PayloadOf(lib, claims) && r.elapsedTime == Humanize(lib, Get(Obj(claims), "iat"), nowMs)
  {
    var p := PayloadOf(lib, claims);
    var elapsed := Humanize(lib, Get(Obj(claims), "iat"), nowMs);
    if !Complete(p) then Resp(true, false, "Session token payload is missing required fields.", m, elapsed, p, 401)
    else
      match inv
      case Threw(msg) =>
        Resp(true, false, "Server error: " + (if msg != "" then msg else "Unknown error"), m, "", SessionValidate.EmptyPayload(), 500)
      case Returned(_, fe, payload) =>
        var v := ReadVerdict(lib, fe, payload);
        if !v.isValid then Resp(true, false, if v.message != "" then v.message else "Entity/module validation failed.", m, elapsed, p, 403)
        else Resp(true, true, if v.message != "" then v.message else "Session and module are valid.", m, elapsed, p, 200)
  }

  /**
   * `GET(req)`. `cookie` is the raw `jef_jwt_session` value, `jwtVerify`
   * answers the claims of a token signed with the secret (None when it
   * throws) and `inv` is what the validator invocation returned.
   */
  function Answer(lib: Lib, rate: RateLimiter.RateResult, moduleEnv: Option<string>, secretEnv: Option<string>,
                  cookie: Option<string>, jwtVerify: (string, string) -> Option<map<string, Value>>,
                  inv: Invocation, nowMs: int): (r: Reply)
  {
    if !rate.allowed then TooManyRequests(RateLimiter.RetryAfterHeader(rate))
    else
      var m := ModuleNumber(moduleEnv);
      var empty := SessionValidate.EmptyPayload();
      if cookie.None? || cookie.value == "" then Resp(false, false, "Session cookie not found.", m, "", empty, 401)
      else if JwtSecret(secretEnv).None? then Resp(true, false, "JWT secret is not configured.", m, "", empty, 500)
      else
        match jwtVerify(cookie.value, JwtSecret(secretEnv).value)
        case None => Resp(true, false, "Session token is invalid or expired.", m, "", empty, 401)
        case Some(claims) => AfterVerify(lib, m, claims, inv, nowMs)
  }

  /**
   * The status order up to the token check: 429, then 401 for a missing
   * cookie (before the secret is looked at), 500 for a blank secret, 401
   * for a token that does not verify.
   */
  lemma {:induction false} StatusBeforeVerify(lib: Lib, rate: RateLimiter.RateResult, moduleEnv: Option<string>, secretEnv: Option<string>,
                                              cookie: Option<string>, jwtVerify: (string, string) -> Option<map<string, Value>>,
                                              inv: Invocation, nowMs: int)
    ensures var r := Answer(lib, rate, moduleEnv, secretEnv, cookie, jwtVerify, inv, nowMs);
      var hasCookie := cookie.Some? && cookie.value != "";
      && (r.TooManyRequests? <==> !rate.allowed)
      && (rate.allowed && !hasCookie ==> r.status == 401 && !r.cookieExists)
      && (rate.allowed && hasCookie && JwtSecret(secretEnv).None? ==> r.status == 500 && r.message == "JWT secret is not configured.")
      && (rate.allowed && hasCookie && JwtSecret(secretEnv).Some? && jwtVerify(cookie.value, JwtSecret(secretEnv).value).None? ==>
            r.status == 401 && r.payload == SessionValidate.EmptyPayload() && r.elapsedTime == "")
  {
    var r := Answer(lib, rate, moduleEnv, secretEnv, cookie, jwtVerify, inv, nowMs);
    if rate.allowed && cookie.Some? && cookie.value != "" && JwtSecret(secretEnv).Some? {
      var c := jwtVerify(cookie.value, JwtSecret(secretEnv).value);
      if c.None? {
        assert r.status == 401;
      }
    }
  }

  /**
   * Past a verified token: 401 when a number is missing, 500 for a failed
   * invocation, else 403 or 200 by the validator's verdict; every answer
   * but the 500 echoes the token's numbers and elapsed time, and
   * `module_number` is the configured one, "11" by default.
   */
  lemma {:induction false} StatusAfterVerify(lib: Lib, rate: RateLimiter.RateResult, moduleEnv: Option<string>, secretEnv: Option<string>,
                                             cookie: Option<string>, jwtVerify: (string, string) -> Option<map<string, Value>>,
                                             inv: Invocation, nowMs: int)
    requires rate.allowed && cookie.Some? && cookie.value != "" && JwtSecret(secretEnv).Some?
    requires jwtVerify(cookie.value, JwtSecret(secretEnv).value).Some?
    ensures var r := Answer(lib, rate, moduleEnv, secretEnv, cookie, jwtVerify, inv, nowMs);
      var claims := jwtVerify(cookie.value, JwtSecret(secretEnv).value).value;
      var signedIn := Complete(PayloadOf(lib, claims));
      && r.Checked? && r.moduleNumber == ModuleNumber(moduleEnv)
      && (!signedIn ==> r.status == 401)
      && (signedIn && inv.Threw? ==> r.status == 500)
      && (signedIn && inv.Returned? ==>
            r.status == (if ReadVerdict(lib, inv.functionError, inv.payload).isValid then 200 else 403))
      && (r.status != 500 ==> r.payload == PayloadOf(lib, claims) && r.elapsedTime == Humanize(lib, Get(Obj(claims), "iat"), nowMs))
  {
    var c := jwtVerify(cookie.value, JwtSecret(secretEnv).value);
    assert Answer(lib, rate, moduleEnv, secretEnv, cookie, jwtVerify, inv, nowMs) == AfterVerify(lib, ModuleNumber(moduleEnv), c.value, inv, nowMs);
  }
}
