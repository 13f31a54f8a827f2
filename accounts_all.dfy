/**
 * app/api/accounts/get-all/route.ts: relays the accounts Lambda's list,
 * passing a Lambda proxy response through with its own status.
 */
module AccountsAll {
  import opened Text
  import opened Js
  import opened Http
  import RateLimiter

  /** `data`: null for an empty reply, `{raw: text}` for one that is not JSON. */
  function Data(lib: Lib, text: string): (d: Value)
    ensures text == "" ==> d == Null
    ensures text != "" && lib.parse(text).None? ==> d == Obj(map["raw" := Str(text)])
  {
    if text == "" then Null
    else
      match lib.parse(text)
      case None => Obj(map["raw" := Str(text)])
      case Some(v) => v
  }

  /** A Lambda proxy response: an object with a numeric `statusCode` and a `body` key. */
  predicate ProxyShaped(data: Value)
  {
    data.Obj? && Get(data, "statusCode").Num? && "body" in data.props
  }

  /** The relayed body: the `body` text parsed, or the text itself when it is not JSON. */
  function ProxyBody(lib: Lib, data: Value): Value
    requires ProxyShaped(data)
  {
    var body := data.props["body"];
    var bodyText := if body.Str? then body.s else lib.stringify(Coalesce(body, Str("")));
    match lib.parse(bodyText)
    case Some(v) => v
    case None => Str(bodyText)
  }

  /** The `x-lambda-*` headers the model keeps: the Lambda status and, when present, its `FunctionError`. */
  function LambdaHeaders(statusCode: int, fe: string): (h: map<string, string>)
    ensures "x-lambda-function-error" in h <==> fe != ""
  {
    map["x-lambda-status" := IntToString(statusCode)] + (if fe != "" then map["x-lambda-function-error" := fe] else map[])
  }

  /**
   * `GET(req)`. `errors` holds the messages of the exceptions the response
   * constructor throws for a status it refuses (outside 200..599, or a
   * null-body status); the `catch` answers those with 500.
   */
  function Answer(lib: Lib, rate: RateLimiter.RateResult, inv: Invocation, errors: StatusErrors): (r: Reply)
  {
    if !rate.allowed then TooManyRequests(RateLimiter.RetryAfterHeader(rate))
    else
      match inv
      case Threw(msg) => Json(500, Obj(map["ok" := Bool(false), "message" := Str(if msg != "" then msg else "Error")]))
      case Returned(sc, fe, payload) =>
        var statusCode := if sc.Some? then sc.value else 0;
        var data := Data(lib, payload);
        if ProxyShaped(data) then
          match ResponseStatus(Finite(Get(data, "statusCode").n))
          case None => Json(500, Obj(map["ok" := Bool(false), "message" := Str(StatusErrorMessage(errors, Finite(Get(data, "statusCode").n)))]))
          case Some(status) => Reply(status, ProxyBody(lib, data), LambdaHeaders(statusCode, fe))
        else
          Reply(if fe != "" then 502 else 200,
            Obj(map["ok" := Bool(fe == ""),
                    "lambda" := Obj(map["statusCode" := Num(statusCode as real), "functionError" := if fe != "" then Str(fe) else Null]),
                    "data" := data]),
            LambdaHeaders(statusCode, fe))
  }

  /**
   * A proxy-shaped reply is relayed with its own `statusCode` as the HTTP
   * status when the response constructor accepts it, a `FunctionError`
   * only adding a header; a status it refuses (outside 200..599, or 204,
   * 205 or 304) is caught and answered 500 with the exception's message;
   * any other reply gets 502 exactly on a `FunctionError`, else 200; a
   * throw gives 500.
   */
  lemma {:induction false} StatusMapping(lib: Lib, rate: RateLimiter.RateResult, inv: Invocation, errors: StatusErrors)
    ensures var r := Answer(lib, rate, inv, errors);
      && r.Reply?
      && (!rate.allowed ==> r == TooManyRequests(RateLimiter.RetryAfterHeader(rate)))
      && (rate.allowed && inv.Threw? ==> r.status == 500)
      && (rate.allowed && inv.Returned? ==>
            var data := Data(lib, inv.payload);
            && (ProxyShaped(data) && ResponseStatus(Finite(Get(data, "statusCode").n)).Some? ==>
                  r.status == ResponseStatus(Finite(Get(data, "statusCode").n)).value
                  && r.body == ProxyBody(lib, data)
                  && ("x-lambda-function-error" in r.headers <==> inv.functionError != ""))
            && (ProxyShaped(data) && ResponseStatus(Finite(Get(data, "statusCode").n)).None? ==>
                  r == Json(500, Obj(map["ok" := Bool(false),
                                         "message" := Str(StatusErrorMessage(errors, Finite(Get(data, "statusCode").n)))])))
            && (!ProxyShaped(data) ==> r.status == (if inv.functionError != "" then 502 else 200)))
  {
  }

  /** A proxy reply `{"statusCode": 404, "body": "..."}` is answered with 404 even when the Lambda reports a `FunctionError`. */
  lemma ProxyStatusWinsOverFunctionError(lib: Lib, rate: RateLimiter.RateResult, sc: Option<int>, fe: string, payload: string,
                                         errors: StatusErrors, props: map<string, Value>)
    requires rate.allowed && payload != ""
    requires "body" in props && lib.parse(payload) == Some(Obj(props["statusCode" := Num(404.0)]))
    ensures Answer(lib, rate, Returned(sc, fe, payload), errors).status == 404
  {
    ResponseStatusKeepsValid(404);
    var data := Obj(props["statusCode" := Num(404.0)]);
    assert Get(data, "statusCode") == Num(404.0);
    assert ProxyShaped(data);
  }

  /** A proxy reply `{"statusCode": 204, "body": "..."}` cannot be relayed: the constructor's TypeError is caught and answered 500. */
  lemma NullBodyProxyStatusIs500(lib: Lib, rate: RateLimiter.RateResult, sc: Option<int>, fe: string, payload: string,
                                 errors: StatusErrors, props: map<string, Value>)
    requires rate.allowed && payload != ""
    requires "body" in props && lib.parse(payload) == Some(Obj(props["statusCode" := Num(204.0)]))
    ensures Answer(lib, rate, Returned(sc, fe, payload), errors)
      == Json(500, Obj(map["ok" := Bool(false), "message" := Str(errors.nullBody)]))
  {
    NullBodyStatusRejected(204, errors);
    var data := Obj(props["statusCode" := Num(204.0)]);
    assert Get(data, "statusCode") == Num(204.0);
    assert ProxyShaped(data);
  }
}
