/**
 * app/api/shared/proxy/route.ts: answers whether the session cookie names
 * this deployment's module. Its key is the environment value itself read
 * as base64url, with no parameter store and no cache, and every answer is
 * an HTTP 200.
 */
module ProxyRoute {
  import opened Text
  import opened Js
  import Session

  /** `getSecretKey()` of this route: the trimmed env value as base64url, exactly 32 bytes; None where it throws. */
  function Base64UrlKey(lib: Lib, env: Option<string>): (k: Option<Session.Key>)
    ensures k.Some? ==> |k.value| == 32
    ensures k.Some? <==>
      Session.EnvStr(env) != "" && lib.base64UrlDecode(Session.EnvStr(env)).Some?
      && |lib.base64UrlDecode(Session.EnvStr(env)).value| == 32
    ensures k.Some? ==> k == lib.base64UrlDecode(Session.EnvStr(env))
  {
    var secret := Session.EnvStr(env);
    if secret == "" then None
    else
      match lib.base64UrlDecode(secret)
      case None => None
      case Some(key) => if |key| == 32 then Some(key) else None
  }

  /** `toStr`: a non-blank string trimmed, a number through `String`, anything else undefined (None). */
  function ToStr(lib: Lib, v: Value): (r: Option<string>)
    ensures v.Str? ==> (r.Some? <==> !IsBlank(v.s)) && (r.Some? ==> r.value == Trim(v.s))
    ensures v.Num? ==> r == Some(lib.numberToString(v.n))
    ensures !v.Str? && !v.Num? ==> r.None?
  {
    match v
    case Str(s) => if Trim(s) != "" then Some(Trim(s)) else None
    case Num(n) => Some(lib.numberToString(n))
    case _ => None
  }

  /** The JSON answer `{ is_valid, message }`. */
  datatype Probe = Probe(isValid: bool, message: string)

  /**
   * `GET()`: the module number must be configured (checked before the
   * cookie), the cookie present, the key and the decryption good, and the
   * token's `module_number` equal to the configured one.
   */
  function Answer(lib: Lib, c: Session.Cipher, moduleEnv: Option<string>, secretEnv: Option<string>,
                  cookies: map<string, string>, nowMs: int): (r: Probe)
    ensures Session.EnvStr(moduleEnv) == "" ==> r == Probe(false, "Missing env MODULE_NUMBER")
    ensures Session.EnvStr(moduleEnv) != "" && Session.EnvStr(Session.CookieValue(cookies, Session.CookieName)) == "" ==>
      r == Probe(false, "No session cookie")
  {
    var expected := Session.EnvStr(moduleEnv);
    var token := Session.EnvStr(Session.CookieValue(cookies, Session.CookieName));
    if expected == "" then Probe(false, "Missing env MODULE_NUMBER")
    else if token == "" then Probe(false, "No session cookie")
    else
      var key := Base64UrlKey(lib, secretEnv);
      if key.None? then Probe(false, "Invalid or expired session")
      else
        match Session.JwtDecrypt(c, key.value, token, nowMs, Session.ClockToleranceSec)
        case None => Probe(false, "Invalid or expired session")
        case Some(claims) =>
          var m := ToStr(lib, Get(claims, "module_number"));
          if m.None? then Probe(false, "Session missing module_number")
          else if m.value != expected then Probe(false, "Module not allowed")
          else Probe(true, "OK")
  }

  /** `is_valid` is true exactly when every step succeeds and the token's module equals the configured one. */
  lemma {:induction false} ValidExactlyWhenModuleMatches(lib: Lib, c: Session.Cipher, moduleEnv: Option<string>, secretEnv: Option<string>,
                                                         cookies: map<string, string>, nowMs: int)
    ensures var expected := Session.EnvStr(moduleEnv);
      var token := Session.EnvStr(Session.CookieValue(cookies, Session.CookieName));
      var key := Base64UrlKey(lib, secretEnv);
      var claims := if key.Some? then Session.JwtDecrypt(c, key.value, token, nowMs, Session.ClockToleranceSec) else None;
      Answer(lib, c, moduleEnv, secretEnv, cookies, nowMs).isValid
      <==>
      expected != "" && token != "" && claims.Some? && ToStr(lib, Get(claims.value, "module_number")) == Some(expected)
  {
  }

  /** A numeric `module_number` claim matches when its `String` rendering is the configured text. */
  lemma NumericModuleClaim(lib: Lib, c: Session.Cipher, key: Session.Key, moduleEnv: Option<string>, secretEnv: Option<string>,
                           cookies: map<string, string>, nowMs: int, n: real)
    requires Base64UrlKey(lib, secretEnv) == Some(key)
    requires var token := Session.EnvStr(Session.CookieValue(cookies, Session.CookieName));
      token != "" && Session.JwtDecrypt(c, key, token, nowMs, Session.ClockToleranceSec).Some?
      && Get(Session.JwtDecrypt(c, key, token, nowMs, Session.ClockToleranceSec).value, "module_number") == Num(n)
    requires Session.EnvStr(moduleEnv) != "" && lib.numberToString(n) == Session.EnvStr(moduleEnv)
    ensures Answer(lib, c, moduleEnv, secretEnv, cookies, nowMs) == Probe(true, "OK")
  {
  }
}
