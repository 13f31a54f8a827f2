/**
 * lib/session.ts: the encrypted session cookie. The key is a 32-byte value
 * fetched once from the parameter store and kept; the token is a JWT
 * encrypted as a compact JWE (alg "dir", enc "A256GCM") that carries the
 * entity and employee numbers for seven days.
 */
module Session {
  import opened Text
  import opened Js
  import opened Http

  const CookieName := "jef_jwe_session"
  /** Seven days in milliseconds. */
  const TtlMs: int := 7 * 24 * 60 * 60 * 1000
  /** `clockTolerance: 10` seconds when the claims are checked. */
  const ClockToleranceSec: int := 10

  type Key = seq<byte>

  /** Why a key could not be had; each of these is a thrown Error in the source. */
  datatype KeyError =
    | MissingEnv
    | SsmError
    | EmptyParameter
    | EmptySecret
    | InvalidKeyLength(base64UrlLength: Option<nat>)

  /** `process.env[name]` read through `asStr`. */
  function EnvStr(e: Option<string>): (r: string)
    ensures IsTrimmed(r)
  {
    if e.Some? then Trim(e.value) else ""
  }

  /**
   * `decode32ByteKey`: the trimmed secret read as base64url, else as base64,
   * whichever gives exactly 32 bytes; otherwise an error that reports the
   * base64url length when that decoding succeeded.
   */
  function Decode32ByteKey(lib: Lib, secret: string): (r: Result<Key, KeyError>)
    ensures r.Ok? ==> |r.value| == 32
    ensures IsBlank(secret) <==> r == Err(EmptySecret)
    ensures !IsBlank(secret) ==>
      var s := Trim(secret);
      var url := lib.base64UrlDecode(s);
      && (url.Some? && |url.value| == 32 ==> r == Ok(url.value))
      && (r.Ok? <==> (url.Some? && |url.value| == 32) || |lib.base64Decode(s)| == 32)
      && (!(url.Some? && |url.value| == 32) && |lib.base64Decode(s)| == 32 ==> r == Ok(lib.base64Decode(s)))
      && (r.Err? ==> r == Err(InvalidKeyLength(if url.Some? then Some(|url.value|) else None)))
  {
    var s := Trim(secret);
    if s == "" then Err(EmptySecret)
    else
      var url := lib.base64UrlDecode(s);
      if url.Some? && |url.value| == 32 then Ok(url.value)
      else if |lib.base64Decode(s)| == 32 then Ok(lib.base64Decode(s))
      else Err(InvalidKeyLength(if url.Some? then Some(|url.value|) else None))
  }

  /**
   * The body of the promise `getSecretKey` stores: the parameter name from
   * the environment, the parameter store's value for it, and that value
   * decoded as a key.
   */
  function FetchKey(lib: Lib, paramEnv: Option<string>, store: string -> SsmReply): (r: Result<Key, KeyError>)
    ensures r.Ok? ==> |r.value| == 32
    ensures EnvStr(paramEnv) == "" ==> r == Err(MissingEnv)
    ensures EnvStr(paramEnv) != "" && store(EnvStr(paramEnv)).SsmFailed? ==> r == Err(SsmError)
    ensures EnvStr(paramEnv) != "" && store(EnvStr(paramEnv)).SsmValue? && EnvStr(store(EnvStr(paramEnv)).value) == "" ==>
      r == Err(EmptyParameter)
    ensures EnvStr(paramEnv) != "" && store(EnvStr(paramEnv)).SsmValue? && EnvStr(store(EnvStr(paramEnv)).value) != "" ==>
      r == Decode32ByteKey(lib, EnvStr(store(EnvStr(paramEnv)).value))
  {
    var name := EnvStr(paramEnv);
    if name == "" then Err(MissingEnv)
    else
      match store(name)
      case SsmFailed => Err(SsmError)
      case SsmValue(v) =>
        var value := EnvStr(v);
        if value == "" then Err(EmptyParameter) else Decode32ByteKey(lib, value)
  }

  /** A parameter whose value decodes to a 32-byte key yields that key. */
  lemma FetchKeyFromStore(lib: Lib, paramEnv: Option<string>, store: string -> SsmReply, value: string)
    requires EnvStr(paramEnv) != ""
    requires store(EnvStr(paramEnv)) == SsmValue(Some(value))
    requires !IsBlank(value)
    ensures FetchKey(lib, paramEnv, store) == Decode32ByteKey(lib, value)
  {
    TrimIdempotent(value);
  }

  /**
   * The cipher behind `EncryptJWT(...).encrypt(key)` and `jwtDecrypt(token, key)`:
   * `seal` yields the compact token for a claims set, `open` recovers the
   * claims set or fails (None) on a wrong key or tampered token.
   */
  datatype Cipher = Cipher(seal: (Key, Value) -> string, open: (Key, string) -> Option<Value>)

  /**
   * What authenticated encryption gives: opening with the sealing key
   * recovers the claims, and a sealed token is non-empty text without
   * surrounding white space.
   */
  ghost predicate Authenticated(c: Cipher)
  {
    forall k: Key, v: Value ::
      c.open(k, c.seal(k, v)) == Some(v) && c.seal(k, v) != "" && IsTrimmed(c.seal(k, v))
  }

  /** A numeric claim, if present, must be a number. */
  predicate NumericOrAbsent(claims: Value, name: string)
  {
    Get(claims, name).Undefined? || Get(claims, name).Num?
  }

  /**
   * The claim checks `jwtDecrypt` makes at `nowSec` with a tolerance:
   * the claims set is an object, `iat`, `nbf` and `exp` are numbers when
   * present, `nbf` is not later than now + tolerance and `exp` is later than
   * now - tolerance (section 4.1.4 and 4.1.5 of RFC 7519).
   */
  predicate ClaimsTimely(claims: Value, nowSec: int, toleranceSec: int)
  {
    && claims.Obj?
    && NumericOrAbsent(claims, "iat")
    && NumericOrAbsent(claims, "nbf")
    && NumericOrAbsent(claims, "exp")
    && (Get(claims, "nbf").Num? ==> Get(claims, "nbf").n <= (nowSec + toleranceSec) as real)
    && (Get(claims, "exp").Num? ==> Get(claims, "exp").n > (nowSec - toleranceSec) as real)
  }

  /** `jwtDecrypt(token, key, { clockTolerance })` at `nowMs`: the claims, or None where it throws. */
  function JwtDecrypt(c: Cipher, key: Key, token: string, nowMs: int, toleranceSec: int): (r: Option<Value>)
    ensures r.Some? ==> c.open(key, token) == r && ClaimsTimely(r.value, nowMs / 1000, toleranceSec)
  {
    match c.open(key, token)
    case None => None
    case Some(claims) => if ClaimsTimely(claims, nowMs / 1000, toleranceSec) then Some(claims) else None
  }

  datatype SessionPayload = SessionPayload(entityNumber: string, employeeNumber: string)

  /** `payload.x ? String(payload.x).trim() : ""` */
  function ClaimText(lib: Lib, v: Value): (r: string)
    ensures IsTrimmed(r)
    ensures v.Str? ==> r == Trim(v.s)
    ensures !Truthy(v) ==> r == ""
  {
    if Truthy(v) then Trim(JsString(lib, v)) else ""
  }

  /** The payload `decrypt` returns for a decrypted claims set: both numbers, trimmed and non-empty. */
  function PayloadOf(lib: Lib, claims: Value): (r: Option<SessionPayload>)
    ensures r.Some? ==>
      && r.value.entityNumber == ClaimText(lib, Get(claims, "entity_number")) != ""
      && r.value.employeeNumber == ClaimText(lib, Get(claims, "employee_number")) != ""
    ensures r.None? ==>
      ClaimText(lib, Get(claims, "entity_number")) == "" || ClaimText(lib, Get(claims, "employee_number")) == ""
  {
    var entity := ClaimText(lib, Get(claims, "entity_number"));
    var employee := ClaimText(lib, Get(claims, "employee_number"));
    if entity == "" || employee == "" then None else Some(SessionPayload(entity, employee))
  }

  /**
   * `decrypt(token)` once the key lookup has produced `key`: a blank token,
   * a missing key, a token that does not open or whose claims are out of
   * date, or a blank number all give None; nothing throws.
   */
  function DecryptWith(lib: Lib, c: Cipher, key: Result<Key, KeyError>, token: Option<string>, nowMs: int): (r: Option<SessionPayload>)
    ensures EnvStr(token) == "" || key.Err? ==> r.None?
    ensures r.Some? ==> IsTrimmed(r.value.entityNumber) && IsTrimmed(r.value.employeeNumber)
  {
    var t := EnvStr(token);
    if t == "" then None
    else if key.Err? then None
    else
      match JwtDecrypt(c, key.value, t, nowMs, ClockToleranceSec)
      case None => None
      case Some(claims) => PayloadOf(lib, claims)
  }

  /** The claims `encrypt` seals at `nowMs`: the payload plus `iat` and `exp` (seven days later), in seconds. */
  function EncryptClaims(payload: map<string, Value>, nowMs: int): (claims: Value)
    ensures claims.Obj? && claims.props.Keys == payload.Keys + {"iat", "exp"}
    ensures Get(claims, "iat") == Num((nowMs / 1000) as real)
    ensures Get(claims, "exp") == Num(((nowMs + TtlMs) / 1000) as real)
    ensures forall k :: k in payload && k != "iat" && k != "exp" ==> Get(claims, k) == payload[k]
  {
    Obj(payload["iat" := Num((nowMs / 1000) as real)]["exp" := Num(((nowMs + TtlMs) / 1000) as real)])
  }

  /** `createSession` seals exactly the two numbers it is given. */
  function SessionClaims(p: SessionPayload): map<string, Value>
  {
    map["entity_number" := Str(p.entityNumber), "employee_number" := Str(p.employeeNumber)]
  }

  /**
   * A token created at `createdMs` for non-blank numbers decrypts, at any
   * later time before the seven days are over, to those numbers trimmed.
   */
  lemma {:induction false} CreateThenDecrypt(lib: Lib, c: Cipher, key: Key, p: SessionPayload, createdMs: int, nowMs: int)
    requires Authenticated(c)
    requires !IsBlank(p.entityNumber) && !IsBlank(p.employeeNumber)
    requires createdMs <= nowMs < createdMs + TtlMs
    ensures DecryptWith(lib, c, Ok(key), Some(c.seal(key, EncryptClaims(SessionClaims(p), createdMs))), nowMs)
      == Some(SessionPayload(Trim(p.entityNumber), Trim(p.employeeNumber)))
  {
    var claims := EncryptClaims(SessionClaims(p), createdMs);
    var token := c.seal(key, claims);
    assert c.open(key, token) == Some(claims) && token != "" && IsTrimmed(token);
    TrimOfTrimmed(token);
    assert nowMs / 1000 <= (createdMs + TtlMs) / 1000;
    assert ClaimsTimely(claims, nowMs / 1000, ClockToleranceSec);
    assert Get(claims, "entity_number") == Str(p.entityNumber);
    assert Get(claims, "employee_number") == Str(p.employeeNumber);
  }

  /** Eleven seconds past the seven days (the tolerance is ten) the same token no longer decrypts. */
  lemma {:induction false} ExpiredTokenRejected(lib: Lib, c: Cipher, key: Key, p: SessionPayload, createdMs: int, nowMs: int)
    requires Authenticated(c)
    requires nowMs >= createdMs + TtlMs + 11000
    ensures DecryptWith(lib, c, Ok(key), Some(c.seal(key, EncryptClaims(SessionClaims(p), createdMs))), nowMs).None?
  {
    var claims := EncryptClaims(SessionClaims(p), createdMs);
    var token := c.seal(key, claims);
    assert c.open(key, token) == Some(claims) && IsTrimmed(token);
    TrimOfTrimmed(token);
    assert (createdMs + TtlMs) / 1000 + 11 <= nowMs / 1000;
    assert !ClaimsTimely(claims, nowMs / 1000, ClockToleranceSec);
  }

  /** The deployment settings the cookie attributes depend on. */
  datatype CookieConfig = CookieConfig(nodeEnv: Option<string>, cookieDomainEnv: Option<string>)

  /** `IS_DEV`: anything but NODE_ENV "production". */
  predicate IsDev(cfg: CookieConfig)
  {
    cfg.nodeEnv != Some("production")
  }

  /** `COOKIE_DOMAIN`, trimmed. */
  function CookieDomain(cfg: CookieConfig): string
  {
    Trim(if cfg.cookieDomainEnv.Some? then cfg.cookieDomainEnv.value else "")
  }

  /** One `cookieStore.set(name, value, options)`. */
  datatype CookieWrite = CookieWrite(
    name: string, value: string,
    httpOnly: bool, secure: bool, sameSite: string, path: string,
    expiresMs: int, maxAge: Option<int>, domain: Option<string>)

  /** `domainOpt`: the domain only in production and only when configured. */
  function DomainOption(cfg: CookieConfig): (d: Option<string>)
    ensures d.Some? <==> !IsDev(cfg) && CookieDomain(cfg) != ""
    ensures d.Some? ==> d.value == CookieDomain(cfg)
  {
    if !IsDev(cfg) && CookieDomain(cfg) != "" then Some(CookieDomain(cfg)) else None
  }

  /** The cookie `createSession` writes at `nowMs`. */
  function SessionCookie(cfg: CookieConfig, token: string, nowMs: int): CookieWrite
  {
    CookieWrite(CookieName, token, true, !IsDev(cfg), "lax", "/", nowMs + TtlMs, None, DomainOption(cfg))
  }

  /** The cookie `deleteSession` writes: empty, expired at the epoch, max-age 0. */
  function DeletionCookie(cfg: CookieConfig): CookieWrite
  {
    CookieWrite(CookieName, "", true, !IsDev(cfg), "lax", "/", 0, Some(0), DomainOption(cfg))
  }

  /**
   * Creating and deleting write the same cookie with the same scope, so a
   * delete always replaces what a create wrote: same name, path, domain,
   * `httpOnly`, `sameSite` lax and `secure` outside development; the
   * delete's value is empty and already expired.
   */
  lemma DeleteMatchesCreate(cfg: CookieConfig, token: string, nowMs: int)
    ensures var a := SessionCookie(cfg, token, nowMs);
      var d := DeletionCookie(cfg);
      && a.name == d.name == CookieName
      && a.path == d.path == "/" && a.domain == d.domain
      && a.httpOnly && d.httpOnly && a.sameSite == d.sameSite == "lax"
      && a.secure == d.secure == (cfg.nodeEnv == Some("production"))
      && a.value == token && a.expiresMs == nowMs + TtlMs && a.maxAge.None?
      && d.value == "" && d.expiresMs == 0 && d.maxAge == Some(0)
  {
  }

  /** The cookie jar of the request: name to value. */
  function CookieValue(cookies: map<string, string>, name: string): Option<string>
  {
    if name in cookies then Some(cookies[name]) else None
  }

  /** The key `getSecretKey` hands out when its cache holds `cached`. */
  function KeyOutcome(cached: Option<Key>, lib: Lib, paramEnv: Option<string>, store: string -> SsmReply): Result<Key, KeyError>
  {
    if cached.Some? then Ok(cached.value) else FetchKey(lib, paramEnv, store)
  }

  /** What the key cache holds once `getSecretKey` has settled: the key it resolved to, or nothing after a failure. */
  function KeyAfter(cached: Option<Key>, lib: Lib, paramEnv: Option<string>, store: string -> SsmReply): (r: Option<Key>)
    ensures cached.Some? ==> r == cached
    ensures r.Some? <==> KeyOutcome(cached, lib, paramEnv, store).Ok?
  {
    var k := KeyOutcome(cached, lib, paramEnv, store);
    if k.Ok? then Some(k.value) else None
  }

  /**
   * The module-level `_keyPromise` of lib/session.ts and the operations
   * that go through it. A successful lookup is kept for the life of the
   * process; a failed one is forgotten and its error rethrown. `lookups`
   * counts calls to the parameter store.
   */
  class SessionKeys {
    var cached: Option<Key>
    ghost var lookups: nat

    ghost predicate Valid()
      reads this
    {
      cached.Some? ==> |cached.value| == 32
    }

    constructor()
      ensures cached.None? && lookups == 0 && Valid()
    {
      cached := None;
      lookups := 0;
    }

    /** `getSecretKey()` */
    method GetSecretKey(lib: Lib, paramEnv: Option<string>, store: string -> SsmReply) returns (r: Result<Key, KeyError>)
      requires Valid()
      modifies this
      ensures Valid()
      ensures r == KeyOutcome(old(cached), lib, paramEnv, store)
      ensures old(cached).Some? ==> cached == old(cached) && lookups == old(lookups)
      ensures old(cached).None? ==> cached == (if r.Ok? then Some(r.value) else None)
      ensures old(cached).None? ==> lookups == old(lookups) + (if EnvStr(paramEnv) != "" then 1 else 0)
    {
      if cached.Some? {
        return Ok(cached.value);
      }
      if EnvStr(paramEnv) != "" {
        lookups := lookups + 1;
      }
      r := FetchKey(lib, paramEnv, store);
      if r.Ok? {
        cached := Some(r.value);
      } else {
        cached := None;
      }
    }

    /** `decrypt(token)` at `nowMs`: a blank token is refused before the key is looked at. */
    method Decrypt(lib: Lib, paramEnv: Option<string>, store: string -> SsmReply, c: Cipher, token: Option<string>, nowMs: int)
      returns (r: Option<SessionPayload>)
      requires Valid()
      modifies this
      ensures Valid()
      ensures EnvStr(token) == "" ==> r.None? && cached == old(cached) && lookups == old(lookups)
      ensures EnvStr(token) != "" ==> cached == KeyAfter(old(cached), lib, paramEnv, store)
      ensures r == DecryptWith(lib, c, KeyOutcome(old(cached), lib, paramEnv, store), token, nowMs)
    {
      if EnvStr(token) == "" {
        return None;
      }
      var key := GetSecretKey(lib, paramEnv, store);
      r := DecryptWith(lib, c, key, token, nowMs);
    }

    /** `createSession(payload)` at `nowMs`: seals the two numbers and writes the cookie, or rethrows the key error. */
    method CreateSession(lib: Lib, paramEnv: Option<string>, store: string -> SsmReply, c: Cipher, cfg: CookieConfig, p: SessionPayload, nowMs: int)
      returns (r: Result<CookieWrite, KeyError>)
      requires Valid()
      modifies this
      ensures Valid()
      ensures var key := KeyOutcome(old(cached), lib, paramEnv, store);
        && (key.Err? ==> r == Err(key.error))
        && (key.Ok? ==> r == Ok(SessionCookie(cfg, c.seal(key.value, EncryptClaims(SessionClaims(p), nowMs)), nowMs)))
      ensures cached == KeyAfter(old(cached), lib, paramEnv, store)
    {
      var key := GetSecretKey(lib, paramEnv, store);
      if key.Err? {
        return Err(key.error);
      }
      var token := c.seal(key.value, EncryptClaims(SessionClaims(p), nowMs));
      r := Ok(SessionCookie(cfg, token, nowMs));
    }

    /** `readSession()`: decrypts the value of the `jef_jwe_session` cookie. */
    method ReadSession(lib: Lib, paramEnv: Option<string>, store: string -> SsmReply, c: Cipher, cookies: map<string, string>, nowMs: int)
      returns (r: Option<SessionPayload>)
      requires Valid()
      modifies this
      ensures Valid()
      ensures r == DecryptWith(lib, c, KeyOutcome(old(cached), lib, paramEnv, store), CookieValue(cookies, CookieName), nowMs)
      ensures cached == (if EnvStr(CookieValue(cookies, CookieName)) == "" then old(cached) else KeyAfter(old(cached), lib, paramEnv, store))
    {
      r := Decrypt(lib, paramEnv, store, c, CookieValue(cookies, CookieName), nowMs);
    }
  }

  /**
   * Two lookups in a row: once the first succeeded, the second returns the
   * same key without asking the parameter store again (whatever it would
   * now answer); after a failure the second asks again.
   */
  method KeyIsFetchedOnce(keys: SessionKeys, lib: Lib, paramEnv: Option<string>, store: string -> SsmReply, later: string -> SsmReply)
    returns (first: Result<Key, KeyError>, second: Result<Key, KeyError>)
    requires keys.Valid() && keys.cached.None?
    modifies keys
    ensures first == FetchKey(lib, paramEnv, store)
    ensures first.Ok? ==> second == first && keys.lookups == old(keys.lookups) + 1
    ensures first.Err? ==> second == FetchKey(lib, paramEnv, later)
  {
    first := keys.GetSecretKey(lib, paramEnv, store);
    second := keys.GetSecretKey(lib, paramEnv, later);
  }
}
