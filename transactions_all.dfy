/**
 * app/api/transactions/get-all-by-account-number/route.ts: the
 * transactions of the session's account, relayed from the transactions
 * Lambda and unwrapped from a proxy response when there is one.
 */
module TransactionsAll {
  import opened Text
  import opened Js
  import opened Http
  import RateLimiter

  /**
   * `unwrapApiGatewayLike`: an object whose `body` is a string is replaced
   * by that string parsed, unless the parse fails or is null; anything else
   * is returned unchanged.
   */
  function UnwrapApiGatewayLike(lib: Lib, x: Value): (r: Value)
    ensures !IsObject(x) ==> r == x
    ensures IsObject(x) && !Get(x, "body").Str? ==> r == x
    ensures IsObject(x) && Get(x, "body").Str? && !Nullish(ParseOrNull(lib, Get(x, "body").s)) ==>
      r == ParseOrNull(lib, Get(x, "body").s)
    ensures IsObject(x) && Get(x, "body").Str? && Nullish(ParseOrNull(lib, Get(x, "body").s)) ==> r == x
    ensures Nullish(r) ==> Nullish(x)
  {
    if !Truthy(x) || !TypeofObject(x) then x
    else if Get(x, "body").Str? then Coalesce(ParseOrNull(lib, Get(x, "body").s), x)
    else x
  }

  /** `outer ?? raw`: the parsed reply, or its text. */
  function Outer(lib: Lib, raw: string): (v: Value)
    ensures !Nullish(v)
  {
    Coalesce(ParseOrNull(lib, raw), Str(raw))
  }

  /** `GET(req)`: `entity` is what `getEntityNumberFromCookie()` resolved to, `inv` the Lambda's outcome. */
  function Answer(lib: Lib, rate: RateLimiter.RateResult, entity: string, inv: Invocation): (r: Reply)
  {
    if !rate.allowed then TooManyRequests(RateLimiter.RetryAfterHeader(rate))
    else if Trim(entity) == "" then Json(401, Obj(map["message" := Str("Unauthorized.")]))
    else
      match inv
      case Threw(msg) =>
        Json(500, Obj(map["message" := Str("Invoke failed."), "error" := Str(if Trim(msg) != "" then Trim(msg) else "Unknown error")]))
      case Returned(_, fe, raw) =>
        var parsed := UnwrapApiGatewayLike(lib, Outer(lib, raw));
        if fe != "" then
          Json(502, Obj(map["message" := Str("Lambda error."), "function_error" := Str(fe), "raw" := Outer(lib, raw)]))
        else
          Json(200, Coalesce(parsed, Obj(map["message" := Str("OK"), "raw" := Outer(lib, raw)])))
  }

  /**
   * 429, 401 for a blank entity, 500 when the invocation throws, 502 on a
   * `FunctionError` carrying the reply as it came, else 200 with the
   * unwrapped reply (the `{message: "OK"}` fallback never applies: the
   * reply or its text is never nullish).
   */
  lemma {:induction false} StatusChain(lib: Lib, rate: RateLimiter.RateResult, entity: string, inv: Invocation)
    ensures var r := Answer(lib, rate, entity, inv);
      && r.Reply?
      && (r.status == 429 <==> !rate.allowed)
      && (r.status == 401 <==> rate.allowed && IsBlank(entity))
      && (r.status == 500 <==> rate.allowed && !IsBlank(entity) && inv.Threw?)
      && (r.status == 502 <==> rate.allowed && !IsBlank(entity) && inv.Returned? && inv.functionError != "")
      && (r.status == 502 ==> Get(r.body, "raw") == Outer(lib, inv.payload))
      && (r.status == 200 <==> rate.allowed && !IsBlank(entity) && inv.Returned? && inv.functionError == "")
      && (r.status == 200 ==> r.body == UnwrapApiGatewayLike(lib, Outer(lib, inv.payload)))
  {
    var r := Answer(lib, rate, entity, inv);
    if rate.allowed && !IsBlank(entity) && inv.Returned? && inv.functionError != "" {
      var fields := map["message" := Str("Lambda error."), "function_error" := Str(inv.functionError), "raw" := Outer(lib, inv.payload)];
      assert r == Json(502, Obj(fields));
      assert fields["raw"] == Outer(lib, inv.payload);
    }
  }

  /** A proxy reply whose `body` holds JSON text is answered with that JSON. */
  lemma ProxyBodyIsUnwrapped(lib: Lib, raw: string, props: map<string, Value>, bodyText: string, inner: Value)
    requires lib.parse(raw) == Some(Obj(props["body" := Str(bodyText)]))
    requires lib.parse(bodyText) == Some(inner) && !Nullish(inner)
    ensures UnwrapApiGatewayLike(lib, Outer(lib, raw)) == inner
  {
    assert Outer(lib, raw) == Obj(props["body" := Str(bodyText)]);
    assert Get(Outer(lib, raw), "body") == Str(bodyText);
  }
}
