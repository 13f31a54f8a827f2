/**
 * lib/constant.ts: reads the session cookie for the Lambda adapter routes.
 * It accepts the cookie under three names, keeps its own copy of the key
 * cache (one that answers null instead of throwing) and also exposes an
 * optional `session_number`.
 */
module Constant {
  import opened Text
  import opened Js
  import opened Http
  import opened Session

  const BaseCookie := "jef_jwe_session"
  const SecureCookie := "__Secure-jef_jwe_session"
  const HostCookie := "__Host-jef_jwe_session"

  /** `asStr(cookieStore.get(name)?.value)` */
  function CookieText(cookies: map<string, string>, name: string): (r: string)
    ensures IsTrimmed(r)
  {
    EnvStr(CookieValue(cookies, name))
  }

  /** The token: the first of the three cookie names whose value is not blank, trimmed; "" when none is. */
  function TokenFromCookies(cookies: map<string, string>): (t: string)
    ensures IsTrimmed(t)
    ensures t == "" <==> CookieText(cookies, BaseCookie) == "" && CookieText(cookies, SecureCookie) == "" && CookieText(cookies, HostCookie) == ""
    ensures CookieText(cookies, BaseCookie) != "" ==> t == CookieText(cookies, BaseCookie)
    ensures CookieText(cookies, BaseCookie) == "" && CookieText(cookies, SecureCookie) != "" ==> t == CookieText(cookies, SecureCookie)
    ensures CookieText(cookies, BaseCookie) == "" && CookieText(cookies, SecureCookie) == "" ==> t == CookieText(cookies, HostCookie)
  {
    var a := CookieText(cookies, BaseCookie);
    var b := CookieText(cookies, SecureCookie);
    if a != "" then a else if b != "" then b else CookieText(cookies, HostCookie)
  }

  /** The session as this module reports it; `session_number` only when it is not blank. */
  datatype SessionRecord = SessionRecord(entityNumber: string, employeeNumber: string, sessionNumber: Option<string>)

  /** The record built from a decrypted claims set; only string claims count (`asStr`). */
  function RecordOf(claims: Value): (r: Option<SessionRecord>)
    ensures r.Some? <==> AsStr(Get(claims, "entity_number")) != "" && AsStr(Get(claims, "employee_number")) != ""
    ensures r.Some? ==>
      && r.value.entityNumber == AsStr(Get(claims, "entity_number"))
      && r.value.employeeNumber == AsStr(Get(claims, "employee_number"))
      && (r.value.sessionNumber.Some? <==> AsStr(Get(claims, "session_number")) != "")
      && (r.value.sessionNumber.Some? ==> r.value.sessionNumber.value == AsStr(Get(claims, "session_number")))
  {
    var raw := if Truthy(claims) then claims else Obj(map[]);
    var entity := AsStr(Get(raw, "entity_number"));
    var employee := AsStr(Get(raw, "employee_number"));
    var session := AsStr(Get(raw, "session_number"));
    if entity == "" || employee == "" then None
    else Some(SessionRecord(entity, employee, if session != "" then Some(session) else None))
  }

  /**
   * `readSessionPayloadFromCookie()` once the key lookup answered `key`: no
   * token, no key, a token that does not open or is out of date, or a blank
   * number all give null.
   */
  function ReadWithKey(c: Cipher, key: Option<Key>, token: string, nowMs: int): (r: Option<SessionRecord>)
    ensures token == "" || key.None? ==> r.None?
  {
    if token == "" || key.None? then None
    else
      match JwtDecrypt(c, key.value, token, nowMs, ClockToleranceSec)
      case None => None
      case Some(claims) => RecordOf(claims)
  }

  /** The two decoders disagree on numeric claims: lib/session.ts reads them through `String`, this module drops them. */
  lemma NumericEntityClaimDiffers(lib: Lib, claims: Value, n: real)
    requires claims.Obj? && Get(claims, "entity_number") == Num(n) && n != 0.0
    requires !IsBlank(lib.numberToString(n))
    requires ClaimText(lib, Get(claims, "employee_number")) != "" && Get(claims, "employee_number").Str?
    ensures PayloadOf(lib, claims).Some?
    ensures RecordOf(claims).None?
  {
  }

  /** `s?.entity_number || ""` */
  function EntityNumberOf(s: Option<SessionRecord>): string
  {
    if s.Some? then s.value.entityNumber else ""
  }

  /** `s?.employee_number || ""` */
  function EmployeeNumberOf(s: Option<SessionRecord>): string
  {
    if s.Some? then s.value.employeeNumber else ""
  }

  /** `s?.session_number || ""` */
  function SessionNumberOf(s: Option<SessionRecord>): string
  {
    if s.Some? && s.value.sessionNumber.Some? then s.value.sessionNumber.value else ""
  }

  /** The getters answer "" exactly when there is no usable session, and otherwise a trimmed non-empty number. */
  lemma GettersOfRead(c: Cipher, key: Option<Key>, token: string, nowMs: int)
    ensures var s := ReadWithKey(c, key, token, nowMs);
      && (EntityNumberOf(s) == "" <==> s.None?)
      && (EmployeeNumberOf(s) == "" <==> s.None?)
      && IsTrimmed(EntityNumberOf(s)) && IsTrimmed(EmployeeNumberOf(s)) && IsTrimmed(SessionNumberOf(s))
  {
    var s := ReadWithKey(c, key, token, nowMs);
    if s.Some? {
      var claims := JwtDecrypt(c, key.value, token, nowMs, ClockToleranceSec).value;
      assert s == RecordOf(claims);
    }
  }

  /** What the cache holds after a session read: unchanged without a token, else the key the lookup resolved to. */
  function CachedAfterRead(cached: Option<Key>, lib: Lib, paramEnv: Option<string>, store: string -> SsmReply, cookies: map<string, string>): Option<Key>
  {
    if TokenFromCookies(cookies) == "" then cached else KeyAfter(cached, lib, paramEnv, store)
  }

  /**
   * The module-level `_keyPromise` of lib/constant.ts: like lib/session.ts
   * it keeps a success and forgets a failure, but it reports a failure as
   * null instead of throwing.
   */
  class ConstantKeys {
    var cached: Option<Key>
    ghost var lookups: nat

    ghost predicate Valid()
      reads this
    {
      cached.Some? ==> |cached.value| == 32
    }

    constructor()
      ensures cached.None? && lookups == 0 && Valid()
    {
      cached := None;
      lookups := 0;
    }

    /** `getSecretKey()`: the cached key, else a fresh lookup; null (None) on any failure. */
    method GetSecretKey(lib: Lib, paramEnv: Option<string>, store: string -> SsmReply) returns (r: Option<Key>)
      requires Valid()
      modifies this
      ensures Valid()
      ensures old(cached).Some? ==> r == old(cached) && cached == old(cached) && lookups == old(lookups)
      ensures old(cached).None? ==> var f := FetchKey(lib, paramEnv, store);
        && r == (if f.Ok? then Some(f.value) else None)
        && cached == r
        && lookups == old(lookups) + (if EnvStr(paramEnv) != "" then 1 else 0)
      ensures r.Some? ==> |r.value| == 32
    {
      if cached.Some? {
        return cached;
      }
      if EnvStr(paramEnv) != "" {
        lookups := lookups + 1;
      }
      var f := FetchKey(lib, paramEnv, store);
      if f.Ok? {
        r := Some(f.value);
      } else {
        r := None;
      }
      cached := r;
    }

    /** `readSessionPayloadFromCookie()`: with no token the key is not looked up at all. */
    method ReadSessionPayload(lib: Lib, paramEnv: Option<string>, store: string -> SsmReply, c: Cipher, cookies: map<string, string>, nowMs: int)
      returns (r: Option<SessionRecord>)
      requires Valid()
      modifies this
      ensures Valid()
      ensures TokenFromCookies(cookies) == "" ==> r.None? && cached == old(cached) && lookups == old(lookups)
      ensures r == ReadWithKey(c, KeyAfter(old(cached), lib, paramEnv, store), TokenFromCookies(cookies), nowMs)
      ensures cached == CachedAfterRead(old(cached), lib, paramEnv, store, cookies)
    {
      var token := TokenFromCookies(cookies);
      if token == "" {
        return None;
      }
      var key := GetSecretKey(lib, paramEnv, store);
      r := ReadWithKey(c, key, token, nowMs);
    }

    /** `getEntityNumberFromCookie()` */
    method GetEntityNumber(lib: Lib, paramEnv: Option<string>, store: string -> SsmReply, c: Cipher, cookies: map<string, string>, nowMs: int)
      returns (entity: string)
      requires Valid()
      modifies this
      ensures Valid()
      ensures IsTrimmed(entity)
      ensures TokenFromCookies(cookies) == "" ==> entity == ""
      ensures entity == EntityNumberOf(ReadWithKey(c, KeyAfter(old(cached), lib, paramEnv, store), TokenFromCookies(cookies), nowMs))
      ensures cached == CachedAfterRead(old(cached), lib, paramEnv, store, cookies)
    {
      var s := ReadSessionPayload(lib, paramEnv, store, c, cookies, nowMs);
      entity := EntityNumberOf(s);
    }

    /** `getEmployeeNumberFromCookie()` */
    method GetEmployeeNumber(lib: Lib, paramEnv: Option<string>, store: string -> SsmReply, c: Cipher, cookies: map<string, string>, nowMs: int)
      returns (employee: string)
      requires Valid()
      modifies this
      ensures Valid()
      ensures IsTrimmed(employee)
      ensures TokenFromCookies(cookies) == "" ==> employee == ""
      ensures employee == EmployeeNumberOf(ReadWithKey(c, KeyAfter(old(cached), lib, paramEnv, store), TokenFromCookies(cookies), nowMs))
      ensures cached == CachedAfterRead(old(cached), lib, paramEnv, store, cookies)
    {
      var s := ReadSessionPayload(lib, paramEnv, store, c, cookies, nowMs);
      employee := EmployeeNumberOf(s);
    }

    /** `getSessionNumberFromCookie()` */
    method GetSessionNumber(lib: Lib, paramEnv: Option<string>, store: string -> SsmReply, c: Cipher, cookies: map<string, string>, nowMs: int)
      returns (session: string)
      requires Valid()
      modifies this
      ensures Valid()
      ensures IsTrimmed(session)
      ensures TokenFromCookies(cookies) == "" ==> session == ""
      ensures session == SessionNumberOf(ReadWithKey(c, KeyAfter(old(cached), lib, paramEnv, store), TokenFromCookies(cookies), nowMs))
      ensures cached == CachedAfterRead(old(cached), lib, paramEnv, store, cookies)
    {
      var s := ReadSessionPayload(lib, paramEnv, store, c, cookies, nowMs);
      session := SessionNumberOf(s);
    }
  }
}
