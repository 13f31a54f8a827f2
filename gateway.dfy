/**
 * proxy.ts: the access gateway run before every matched page request. It
 * lets the access-denied page through, sends visitors without a usable
 * session cookie to the login site, and asks the validator Lambda whether
 * the session's entity may use this module.
 */
module Gateway {
  import opened Text
  import opened Js
  import opened Http
  import Session

  const CookieNameBase := "jef_jwe_session"
  const CookieNameSecure := "__Secure-jef_jwe_session"
  const CookieNameHost := "__Host-jef_jwe_session"
  const DefaultLoginUrl := "https://login.jefoffice.com/"
  const AccessDeniedPath := "/shared/access-denied"

  /** `(process.env.LOGIN_URL || default).trim()` */
  function LoginUrl(env: Option<string>): string
  {
    Trim(if env.Some? && env.value != "" then env.value else DefaultLoginUrl)
  }

  /** `(process.env.MODULE_NUMBER || "").trim()` */
  function ModuleNumber(env: Option<string>): (m: string)
    ensures IsTrimmed(m)
  {
    Trim(if env.Some? then env.value else "")
  }

  /** `asStr(req.cookies.get(name)?.value)` */
  function CookieText(cookies: map<string, string>, name: string): (r: string)
    ensures IsTrimmed(r)
  {
    if name in cookies then Trim(cookies[name]) else ""
  }

  /** `getToken`: the first of the three cookie names with a non-blank value, trimmed, else "". */
  function GetToken(cookies: map<string, string>): (t: string)
    ensures IsTrimmed(t)
    ensures t == "" <==> CookieText(cookies, CookieNameBase) == "" && CookieText(cookies, CookieNameSecure) == "" && CookieText(cookies, CookieNameHost) == ""
    ensures CookieText(cookies, CookieNameBase) != "" ==> t == CookieText(cookies, CookieNameBase)
    ensures CookieText(cookies, CookieNameBase) == "" && CookieText(cookies, CookieNameSecure) != "" ==> t == CookieText(cookies, CookieNameSecure)
    ensures CookieText(cookies, CookieNameBase) == "" && CookieText(cookies, CookieNameSecure) == "" ==> t == CookieText(cookies, CookieNameHost)
  {
    var a := CookieText(cookies, CookieNameBase);
    var b := CookieText(cookies, CookieNameSecure);
    var c := CookieText(cookies, CookieNameHost);
    if a != "" then a else if b != "" then b else if c != "" then c else ""
  }

  /**
   * `readBody`: the payload object of a Lambda reply. An absent `body`
   * leaves the object itself, an object `body` is taken as is, a string
   * `body` is parsed (kept as `_raw_body` when that is not an object), and
   * any other `body` is kept as `_raw_body` text.
   */
  function ReadBody(lib: Lib, raw: Value): (r: Value)
    ensures IsObject(r) || r.Null?
    ensures Nullish(Get(raw, "body")) ==> r == SafeObj(raw)
  {
    var obj := SafeObj(raw);
    var body := Get(obj, "body");
    if Nullish(body) then obj
    else if TypeofObject(body) then body
    else if body.Str? then
      var parsed := ParseOrNull(lib, body.s);
      if IsObject(parsed) then parsed else Obj(map["_raw_body" := body])
    else Obj(map["_raw_body" := Str(JsString(lib, body))])
  }

  /** An object wrapped as the JSON text of an API-Gateway-style `body` comes back out unchanged. */
  lemma ReadBodyUnwrapsJsonBody(lib: Lib, v: Value, outer: map<string, Value>)
    requires IsObject(v)
    requires lib.parse(lib.stringify(v)) == Some(v)
    ensures ReadBody(lib, Obj(outer["body" := Str(lib.stringify(v))])) == v
  {
  }

  /** An object `body` is the payload; an object without `body` is its own payload. */
  lemma ReadBodyObjectCases(lib: Lib, v: Value, outer: map<string, Value>)
    requires IsObject(v)
    ensures ReadBody(lib, Obj(outer["body" := v])) == v
    ensures v.Obj? && "body" !in v.props ==> ReadBody(lib, v) == v
  {
  }

  /** A string `body` that is not JSON for an object is kept verbatim under `_raw_body`. */
  lemma ReadBodyKeepsRawText(lib: Lib, s: string, outer: map<string, Value>)
    requires lib.parse(s).None? || !IsObject(lib.parse(s).value)
    ensures ReadBody(lib, Obj(outer["body" := Str(s)])) == Obj(map["_raw_body" := Str(s)])
  {
  }

  /** `b.is_allowed === true || b.is_valid === true`: only the boolean `true` counts. */
  predicate AllowedFlag(b: Value)
  {
    Get(b, "is_allowed") == Bool(true) || Get(b, "is_valid") == Bool(true)
  }

  /** The `is_allowed` of `invokeValidate` for the reply text `raw`. */
  predicate IsAllowed(lib: Lib, raw: string)
  {
    var top := ParseOrNull(lib, raw);
    AllowedFlag(SafeObj(ReadBody(lib, Coalesce(top, Str(raw)))))
  }

  /** Truthy look-alikes such as the string "true" or the number 1 do not allow access. */
  lemma TruthyIsNotTrue(lib: Lib, raw: string, flag: Value)
    requires flag != Bool(true)
    requires lib.parse(raw) == Some(Obj(map["is_allowed" := flag, "is_valid" := flag]))
    ensures !IsAllowed(lib, raw)
  {
  }

  /** What the gateway answers. */
  datatype Decision =
    | Next
    | RedirectToLogin(loginUrl: string, returnTo: string)
    | RedirectToAccessDenied

  /** The outside calls the gateway makes, in order. */
  datatype Effect = ReadCookies | Decrypt(token: string) | InvokeValidator(entityNumber: string, moduleNumber: string)

  datatype Outcome = Outcome(decision: Decision, effects: seq<Effect>)

  datatype Request = Request(pathname: string, href: string, cookies: map<string, string>)

  /** The entity number read from what `decrypt` resolved to (`asStr(payload?.entity_number)`). */
  function EntityOf(p: Option<Session.SessionPayload>): (e: string)
    ensures IsTrimmed(e)
  {
    if p.Some? then Trim(p.value.entityNumber) else ""
  }

  /** The validator's answer as the gateway uses it: a throw or a `FunctionError` deny, else `is_allowed`. */
  predicate ValidatorAllows(lib: Lib, inv: Invocation)
  {
    inv.Returned? && inv.functionError == "" && IsAllowed(lib, inv.payload)
  }

  /**
   * `proxy(request)`, given the module number and login URL of the
   * deployment, what `decrypt` answers for a token and what the validator
   * Lambda answers for an entity and module.
   */
  function Proxy(lib: Lib, moduleNumber: string, loginUrl: string, req: Request,
                 decrypt: string -> Option<Session.SessionPayload>,
                 invoke: (string, string) -> Invocation): (o: Outcome)
  {
    if StartsWith(req.pathname, AccessDeniedPath) then Outcome(Next, [])
    else
      var token := GetToken(req.cookies);
      if token == "" then Outcome(RedirectToLogin(loginUrl, req.href), [ReadCookies])
      else
        var entity := EntityOf(decrypt(token));
        if entity == "" then Outcome(RedirectToLogin(loginUrl, req.href), [ReadCookies, Decrypt(token)])
        else if moduleNumber == "" then Outcome(RedirectToAccessDenied, [ReadCookies, Decrypt(token)])
        else
          var effects := [ReadCookies, Decrypt(token), InvokeValidator(entity, moduleNumber)];
          if ValidatorAllows(lib, invoke(entity, moduleNumber)) then Outcome(Next, effects)
          else Outcome(RedirectToAccessDenied, effects)
  }

  /** The access-denied page (and anything below it) is let through before any cookie, decryption or Lambda call. */
  lemma AccessDeniedPathPasses(lib: Lib, moduleNumber: string, loginUrl: string, req: Request,
                               decrypt: string -> Option<Session.SessionPayload>, invoke: (string, string) -> Invocation)
    requires StartsWith(req.pathname, AccessDeniedPath)
    ensures Proxy(lib, moduleNumber, loginUrl, req, decrypt, invoke) == Outcome(Next, [])
  {
  }

  /** No token, or a session without an entity number, goes to the login site with the full request URL as `return_to`, before any Lambda call. */
  lemma NoSessionRedirectsToLogin(lib: Lib, moduleNumber: string, loginUrl: string, req: Request,
                                  decrypt: string -> Option<Session.SessionPayload>, invoke: (string, string) -> Invocation)
    requires !StartsWith(req.pathname, AccessDeniedPath)
    requires GetToken(req.cookies) == "" || EntityOf(decrypt(GetToken(req.cookies))) == ""
    ensures var o := Proxy(lib, moduleNumber, loginUrl, req, decrypt, invoke);
      o.decision == RedirectToLogin(loginUrl, req.href)
      && forall e :: e in o.effects ==> !e.InvokeValidator?
  {
  }

  /**
   * The gateway lets a request through exactly when it is for the
   * access-denied page, or the session has an entity number, a module
   * number is configured and the validator answered without a
   * `FunctionError` and with `is_allowed`; every other outcome is a redirect.
   */
  lemma PassesExactlyWhenAllowed(lib: Lib, moduleNumber: string, loginUrl: string, req: Request,
                                 decrypt: string -> Option<Session.SessionPayload>, invoke: (string, string) -> Invocation)
    ensures var token := GetToken(req.cookies);
      var entity := EntityOf(decrypt(token));
      Proxy(lib, moduleNumber, loginUrl, req, decrypt, invoke).decision == Next
      <==>
      StartsWith(req.pathname, AccessDeniedPath)
      || (token != "" && entity != "" && moduleNumber != "" && ValidatorAllows(lib, invoke(entity, moduleNumber)))
  {
  }

  /** With no module number configured, a signed-in request is always sent to access-denied, never let through. */
  lemma MissingModuleNumberDenies(lib: Lib, loginUrl: string, req: Request,
                                  decrypt: string -> Option<Session.SessionPayload>, invoke: (string, string) -> Invocation)
    requires !StartsWith(req.pathname, AccessDeniedPath)
    requires GetToken(req.cookies) != "" && EntityOf(decrypt(GetToken(req.cookies))) != ""
    ensures Proxy(lib, "", loginUrl, req, decrypt, invoke).decision == RedirectToAccessDenied
  {
  }

  /** A Lambda `FunctionError` or a failed invocation sends a signed-in request to access-denied. */
  lemma ValidatorFailureDenies(lib: Lib, moduleNumber: string, loginUrl: string, req: Request,
                               decrypt: string -> Option<Session.SessionPayload>, invoke: (string, string) -> Invocation)
    requires !StartsWith(req.pathname, AccessDeniedPath)
    requires GetToken(req.cookies) != "" && moduleNumber != ""
    requires var entity := EntityOf(decrypt(GetToken(req.cookies)));
      entity != "" && (invoke(entity, moduleNumber).Threw? || invoke(entity, moduleNumber).functionError != "")
    ensures Proxy(lib, moduleNumber, loginUrl, req, decrypt, invoke).decision == RedirectToAccessDenied
  {
  }
}
