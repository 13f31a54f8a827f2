/**
 * app/api/shared/session/read/route.ts: reports the two numbers of the
 * session cookie, decrypted with the base64url key from the environment.
 */
module SessionRead {
  import opened Text
  import opened Js
  import Session
  import ProxyRoute

  /** This route's `toStr`: only a non-blank string counts, trimmed; numbers are undefined (None). */
  function ToStr(v: Value): (r: Option<string>)
    ensures r.Some? <==> v.Str? && !IsBlank(v.s)
    ensures r.Some? ==> r.value == Trim(v.s) && r.value != ""
  {
    if v.Str? && Trim(v.s) != "" then Some(Trim(v.s)) else None
  }

  /** `{ entity_number, employee_number }`, either of which may be undefined. */
  datatype Numbers = Numbers(entityNumber: Option<string>, employeeNumber: Option<string>)

  /** The JSON answer `{ exists, message, session }`. */
  datatype ReadReply = ReadReply(sessionExists: bool, message: string, session: Option<Numbers>)

  /** `GET()` */
  function Answer(lib: Lib, c: Session.Cipher, secretEnv: Option<string>, cookies: map<string, string>, nowMs: int): (r: ReadReply)
    ensures r.sessionExists <==> r.session.Some?
    ensures Session.EnvStr(Session.CookieValue(cookies, Session.CookieName)) == "" ==>
      r == ReadReply(false, "No session cookie", None)
  {
    var token := Session.EnvStr(Session.CookieValue(cookies, Session.CookieName));
    if token == "" then ReadReply(false, "No session cookie", None)
    else
      var key := ProxyRoute.Base64UrlKey(lib, secretEnv);
      if key.None? then ReadReply(false, "Invalid or expired session", None)
      else
        match Session.JwtDecrypt(c, key.value, token, nowMs, Session.ClockToleranceSec)
        case None => ReadReply(false, "Invalid or expired session", None)
        case Some(claims) =>
          ReadReply(true, "OK", Some(Numbers(ToStr(Get(claims, "entity_number")), ToStr(Get(claims, "employee_number")))))
  }

  /**
   * `exists` (`sessionExists`) holds exactly when there is a token, the key decodes and the
   * token decrypts in date, even if it carries neither number; the numbers
   * are then the claims read through `toStr`.
   */
  lemma {:induction false} ExistsExactlyWhenDecrypted(lib: Lib, c: Session.Cipher, secretEnv: Option<string>,
                                                      cookies: map<string, string>, nowMs: int)
    ensures var token := Session.EnvStr(Session.CookieValue(cookies, Session.CookieName));
      var key := ProxyRoute.Base64UrlKey(lib, secretEnv);
      var claims := if token != "" && key.Some? then Session.JwtDecrypt(c, key.value, token, nowMs, Session.ClockToleranceSec) else None;
      var r := Answer(lib, c, secretEnv, cookies, nowMs);
      && (r.sessionExists <==> claims.Some?)
      && (claims.None? ==> r.session.None? && r.message != "OK")
      && (claims.Some? ==> r.session == Some(Numbers(ToStr(Get(claims.value, "entity_number")), ToStr(Get(claims.value, "employee_number")))))
  {
  }

  /** A numeric claim is dropped: unlike the proxy route's `toStr`, numbers do not count here. */
  lemma NumberClaimIsUndefined(lib: Lib, n: real)
    ensures ToStr(Num(n)).None?
    ensures ProxyRoute.ToStr(lib, Num(n)).Some?
  {
  }
}
