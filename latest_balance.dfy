/**
 * app/api/ledgers/get-latest-balance-by-account-number/route.ts: the
 * latest balance of the session's account, as the balance Lambda reports
 * it, unwrapped from a proxy response when there is one.
 */
module LatestBalance {
  import opened Text
  import opened Js
  import opened Http
  import RateLimiter

  /** `{ exists: false, message, reference_date_name: "", latest_balance: 0 }`, the shape of the 401 and the 500. */
  function Zeroed(message: string): (v: Value)
    ensures v.Obj? && Get(v, "exists") == Bool(false) && Get(v, "latest_balance") == Num(0.0)
    ensures Get(v, "reference_date_name") == Str("") && Get(v, "message") == Str(message)
  {
    Obj(map["exists" := Bool(false), "message" := Str(message), "reference_date_name" := Str(""), "latest_balance" := Num(0.0)])
  }

  /**
   * `out`: the parsed reply (`{_raw: raw}` when it is empty, null or not
   * JSON), replaced by the parse of its string `body` when that parse is
   * truthy.
   */
  function Out(lib: Lib, raw: string): (out: Value)
  {
    var parsed := if raw != "" then ParseOrNull(lib, raw) else Null;
    var out := Coalesce(parsed, Obj(map["_raw" := Str(raw)]));
    if IsObject(out) && Get(out, "body").Str? && Truthy(ParseOrNull(lib, Get(out, "body").s)) then
      ParseOrNull(lib, Get(out, "body").s)
    else out
  }

  /** The fallbacks and the unwrapping of `Out`. */
  lemma {:induction false} OutCases(lib: Lib, raw: string)
    ensures raw == "" ==> Out(lib, raw) == Obj(map["_raw" := Str("")])
    ensures raw != "" && lib.parse(raw).None? ==> Out(lib, raw) == Obj(map["_raw" := Str(raw)])
    ensures raw != "" && lib.parse(raw).Some? && !Nullish(lib.parse(raw).value) ==>
      var p := lib.parse(raw).value;
      Out(lib, raw) == (if IsObject(p) && Get(p, "body").Str? && Truthy(ParseOrNull(lib, Get(p, "body").s))
                        then ParseOrNull(lib, Get(p, "body").s) else p)
  {
    if raw == "" {
      assert Get(Obj(map["_raw" := Str("")]), "body") == Undefined;
    } else if lib.parse(raw).None? {
      assert Get(Obj(map["_raw" := Str(raw)]), "body") == Undefined;
    }
  }

  /** A string `body` that does not parse to something truthy leaves the outer object in place. */
  lemma FalsyBodyKeepsOuter(lib: Lib, raw: string, props: map<string, Value>, bodyText: string)
    requires raw != "" && lib.parse(raw) == Some(Obj(props["body" := Str(bodyText)]))
    requires lib.parse(bodyText).None? || lib.parse(bodyText) == Some(Null) || lib.parse(bodyText) == Some(Bool(false))
    ensures Out(lib, raw) == Obj(props["body" := Str(bodyText)])
  {
    var p := Obj(props["body" := Str(bodyText)]);
    assert Get(p, "body") == Str(bodyText);
  }

  /** `GET(req)`: `entity` is what `getEntityNumberFromCookie()` resolved to, `inv` the Lambda's outcome. */
  function Answer(lib: Lib, rate: RateLimiter.RateResult, entity: string, inv: Invocation): (r: Reply)
  {
    if !rate.allowed then TooManyRequests(RateLimiter.RetryAfterHeader(rate))
    else if Trim(entity) == "" then Json(401, Zeroed("Unauthorized: missing session entity_number"))
    else
      match inv
      case Threw(msg) =>
        Json(500, Obj(Zeroed("Internal server error").props["error" := Str(if msg != "" then msg else "Error")]))
      case Returned(_, _, raw) => Json(200, Out(lib, raw))
  }

  /**
   * 429, then 401 with the zeroed record for a blank entity, 500 with the
   * zeroed record when the invocation throws, and otherwise always 200 with
   * `Out`: a `FunctionError` changes nothing.
   */
  lemma {:induction false} StatusChain(lib: Lib, rate: RateLimiter.RateResult, entity: string, inv: Invocation)
    ensures var r := Answer(lib, rate, entity, inv);
      && r.Reply?
      && (!rate.allowed ==> r == TooManyRequests(RateLimiter.RetryAfterHeader(rate)))
      && (rate.allowed && IsBlank(entity) ==> r == Json(401, Zeroed("Unauthorized: missing session entity_number")))
      && (rate.allowed && !IsBlank(entity) && inv.Threw? ==>
            r.status == 500 && Get(r.body, "exists") == Bool(false) && Get(r.body, "latest_balance") == Num(0.0))
      && (rate.allowed && !IsBlank(entity) && inv.Returned? ==> r == Json(200, Out(lib, inv.payload)))
  {
    if rate.allowed && !IsBlank(entity) && inv.Threw? {
      var z := Zeroed("Internal server error");
      var e := Str(if inv.message != "" then inv.message else "Error");
      assert Answer(lib, rate, entity, inv) == Json(500, Obj(z.props["error" := e]));
      assert Get(Obj(z.props["error" := e]), "exists") == Get(z, "exists");
      assert Get(Obj(z.props["error" := e]), "latest_balance") == Get(z, "latest_balance");
    }
  }
}
