/**
 * app/api/wallets/get-all-ledgers-by-entity-number/route.ts: the ledgers
 * of every wallet of the session's entity, relayed from the wallets
 * Lambda.
 */
module WalletLedgers {
  import opened Text
  import opened Js
  import opened Http
  import RateLimiter

  /** What `invokeLambda` returns: the proxy response it unwrapped, if any, and the `data`. */
  datatype Invoked = Invoked(functionError: string, lambdaResponse: Option<Value>, data: Value)

  /** An object with a `body` key: the shape of an API Gateway proxy response. */
  predicate HasBody(outer: Value)
  {
    outer.Obj? && "body" in outer.props
  }

  /**
   * `invokeLambda`'s extraction: for an outer object with a `body` key,
   * `data` is the parsed body text, else the body value, else the text;
   * otherwise it is the parsed reply, else the reply text.
   */
  function Extract(lib: Lib, fe: string, raw: string): (r: Invoked)
    ensures r.functionError == fe
    ensures var outer := if raw != "" then ParseOrNull(lib, raw) else Null;
      && (r.lambdaResponse.Some? <==> HasBody(outer))
      && (HasBody(outer) ==>
            && r.lambdaResponse == Some(outer)
            && (outer.props["body"].Str? && outer.props["body"].s != "" && !Nullish(ParseOrNull(lib, outer.props["body"].s)) ==>
                  r.data == ParseOrNull(lib, outer.props["body"].s))
            && (outer.props["body"].Str? && Nullish(ParseOrNull(lib, outer.props["body"].s)) ==> r.data == outer.props["body"]))
      && (!HasBody(outer) ==> r.data == Coalesce(outer, Str(raw)))
    ensures !Nullish(r.data)
  {
    var outer := if raw != "" then ParseOrNull(lib, raw) else Null;
    if Truthy(outer) && TypeofObject(outer) && HasKey(outer, "body") == Some(true) then
      var bodyVal := Get(outer, "body");
      var bodyStr := if bodyVal.Str? then bodyVal.s else lib.stringify(Coalesce(bodyVal, Str("")));
      var parsedBody := if bodyStr != "" then ParseOrNull(lib, bodyStr) else Null;
      Invoked(fe, Some(outer), Coalesce(Coalesce(parsedBody, bodyVal), Str(bodyStr)))
    else
      Invoked(fe, None, Coalesce(outer, Str(raw)))
  }

  /** The 502 message: `data.message` as text when `data` is an object holding one, else "Lambda error.". */
  function ErrorMessage(lib: Lib, data: Value): (m: string)
    ensures !(data.Obj? && "message" in data.props) ==> m == "Lambda error."
    ensures data.Obj? && "message" in data.props ==> m == JsString(lib, data.props["message"])
  {
    if TypeofObject(data) && Truthy(data) && HasKey(data, "message") == Some(true) then JsString(lib, Get(data, "message"))
    else "Lambda error."
  }

  /** `appStatus`: the unwrapped response's numeric `statusCode`, else 200. */
  function AppStatus(lambdaResponse: Option<Value>): (n: real)
    ensures lambdaResponse.Some? && Get(lambdaResponse.value, "statusCode").Num? ==> n == Get(lambdaResponse.value, "statusCode").n
    ensures !(lambdaResponse.Some? && Get(lambdaResponse.value, "statusCode").Num?) ==> n == 200.0
  {
    if lambdaResponse.Some? && Truthy(lambdaResponse.value) && TypeofObject(lambdaResponse.value)
       && Get(lambdaResponse.value, "statusCode").Num?
    then Get(lambdaResponse.value, "statusCode").n
    else 200.0
  }

  function Message(exists_: bool, message: string): Value
  {
    Obj(map["exists" := Bool(exists_), "message" := Str(message)])
  }

  /**
   * `GET(req)`: `entity` is what `getEntityNumberFromCookie()` resolved to
   * and `inv` the Lambda's outcome; `errors` holds the messages of the
   * exceptions the response constructor raises for a status it refuses
   * (outside 200..599, or the null-body 204, 205 and 304).
   */
  function Answer(lib: Lib, rate: RateLimiter.RateResult, entity: string, inv: Invocation, errors: StatusErrors): (r: Reply)
  {
    if !rate.allowed then
      Reply(429, Message(false, "Too many requests. Please slow down."), map["Retry-After" := RateLimiter.RetryAfterHeader(rate)])
    else if Trim(entity) == "" then Json(401, Message(false, "Unauthorized: missing session entity_number."))
    else
      match inv
      case Threw(msg) => Json(500, Message(false, if msg != "" then msg else "Server error."))
      case Returned(_, fe, raw) =>
        var out := Extract(lib, fe, raw);
        if out.functionError != "" then Json(502, Message(false, ErrorMessage(lib, out.data)))
        else
          match ResponseStatus(Finite(AppStatus(out.lambdaResponse)))
          case None =>
            var m := StatusErrorMessage(errors, Finite(AppStatus(out.lambdaResponse)));
            Json(500, Message(false, if m != "" then m else "Server error."))
          case Some(status) =>
            Json(status, Coalesce(out.data, Obj(map["exists" := Bool(false), "message" := Str("Empty response."), "ledgers" := Arr([])])))
  }

  /**
   * 429, 401 for a blank entity, 500 with the thrown message for a throw, 502 with the Lambda's
   * message on a `FunctionError`; otherwise the data (never nullish, so the
   * "Empty response." default never applies) with the proxy response's
   * numeric `statusCode`, or 200; a status the response constructor
   * refuses (outside 200..599, or 204, 205 or 304) is caught as 500 with
   * the exception's message.
   */
  lemma {:induction false} StatusChain(lib: Lib, rate: RateLimiter.RateResult, entity: string, inv: Invocation, errors: StatusErrors)
    ensures var r := Answer(lib, rate, entity, inv, errors);
      && r.Reply?
      && (!rate.allowed ==>
            r == Reply(429, Message(false, "Too many requests. Please slow down."),
                       map["Retry-After" := RateLimiter.RetryAfterHeader(rate)]))
      && (rate.allowed && IsBlank(entity) ==> r == Json(401, Message(false, "Unauthorized: missing session entity_number.")))
      && (rate.allowed && !IsBlank(entity) && inv.Threw? ==>
            r == Json(500, Message(false, if inv.message != "" then inv.message else "Server error.")))
      && (rate.allowed && !IsBlank(entity) && inv.Returned? ==>
            var out := Extract(lib, inv.functionError, inv.payload);
            && (inv.functionError != "" ==> r == Json(502, Message(false, ErrorMessage(lib, out.data))))
            && (inv.functionError == "" && ResponseStatus(Finite(AppStatus(out.lambdaResponse))).Some? ==>
                  r == Json(ResponseStatus(Finite(AppStatus(out.lambdaResponse))).value, out.data))
            && (inv.functionError == "" && ResponseStatus(Finite(AppStatus(out.lambdaResponse))).None? ==>
                  var m := StatusErrorMessage(errors, Finite(AppStatus(out.lambdaResponse)));
                  r == Json(500, Message(false, if m != "" then m else "Server error."))))
  {
  }

  /**
   * A proxy response `{"statusCode": k, "body": "<json>"}` with `k` in
   * 200..599 is answered with `k` and the parsed body; 204, 205 and 304 are
   * excluded, since the reply always has a body (`NullBodyStatusIs500`).
   */
  lemma ProxyStatusAndBody(lib: Lib, rate: RateLimiter.RateResult, entity: string, raw: string, bodyText: string, inner: Value, k: int,
                           errors: StatusErrors)
    requires rate.allowed && !IsBlank(entity) && 200 <= k <= 599 && !NullBodyStatus(k) && raw != ""
    requires lib.parse(raw) == Some(Obj(map["statusCode" := Num(k as real), "body" := Str(bodyText)]))
    requires bodyText != "" && lib.parse(bodyText) == Some(inner) && !Nullish(inner)
    ensures Answer(lib, rate, entity, Returned(None, "", raw), errors) == Json(k, inner)
  {
    var outer := Obj(map["statusCode" := Num(k as real), "body" := Str(bodyText)]);
    assert HasBody(outer);
    assert Get(outer, "statusCode") == Num(k as real);
    assert Extract(lib, "", raw) == Invoked("", Some(outer), inner);
    ResponseStatusKeepsValid(k);
  }

  /** A proxy response `{"statusCode": 204, "body": "<json>"}` (or 205, 304) is answered 500 with the constructor's TypeError message. */
  lemma NullBodyStatusIs500(lib: Lib, rate: RateLimiter.RateResult, entity: string, raw: string, bodyText: string, inner: Value,
                            k: int, errors: StatusErrors)
    requires rate.allowed && !IsBlank(entity) && NullBodyStatus(k) && raw != ""
    requires lib.parse(raw) == Some(Obj(map["statusCode" := Num(k as real), "body" := Str(bodyText)]))
    requires bodyText != "" && lib.parse(bodyText) == Some(inner) && !Nullish(inner)
    ensures Answer(lib, rate, entity, Returned(None, "", raw), errors)
      == Json(500, Message(false, if errors.nullBody != "" then errors.nullBody else "Server error."))
  {
    var outer := Obj(map["statusCode" := Num(k as real), "body" := Str(bodyText)]);
    assert HasBody(outer);
    assert Get(outer, "statusCode") == Num(k as real);
    assert Extract(lib, "", raw) == Invoked("", Some(outer), inner);
    NullBodyStatusRejected(k, errors);
  }
}
