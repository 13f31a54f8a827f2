/**
 * app/api/ledgers/get-all-by-account-number/route.ts: the ledger entries
 * of the session's account, relayed from the ledgers Lambda; a Lambda
 * proxy response is unwrapped and answered with its own status.
 */
module LedgersAll {
  import opened Text
  import opened Js
  import opened Http
  import RateLimiter

  /** A JavaScript number as JSON writes it: non-finite numbers become `null`. */
  function NumberValue(n: Number): Value
  {
    if n.Finite? then Num(n.r) else Null
  }

  /** The inner value and the inner text `decodeApiGwBody` yields for a proxy-like object. */
  datatype Decoded = Decoded(inner: Value, innerRaw: string)

  /**
   * `decodeApiGwBody`: a non-string `body` is the inner value (`null` when
   * absent); a string `body` is first base64-decoded when
   * `isBase64Encoded` is truthy, then parsed (`null` when empty or not
   * JSON).
   */
  function DecodeApiGwBody(lib: Lib, outer: Value): (d: Decoded)
    ensures !IsObject(outer) ==> d == Decoded(Null, "")
    ensures IsObject(outer) && !Get(outer, "body").Str? ==>
      d.inner == Coalesce(Get(outer, "body"), Null) && (!Truthy(Get(outer, "body")) ==> d.innerRaw == "")
    ensures IsObject(outer) && Get(outer, "body").Str? ==>
      var bodyText := if Truthy(Get(outer, "isBase64Encoded")) then lib.base64ToUtf8(Get(outer, "body").s) else Get(outer, "body").s;
      d.innerRaw == bodyText && (bodyText == "" ==> d.inner == Null) && (bodyText != "" ==> d.inner == ParseOrNull(lib, bodyText))
  {
    if !IsObject(outer) then Decoded(Null, "")
    else
      var isB64 := Truthy(Get(outer, "isBase64Encoded"));
      var body := Get(outer, "body");
      if !body.Str? then Decoded(Coalesce(body, Null), if Truthy(body) then lib.stringify(body) else "")
      else
        var bodyText := if isB64 then lib.base64ToUtf8(body.s) else body.s;
        Decoded(if bodyText != "" then ParseOrNull(lib, bodyText) else Null, bodyText)
  }

  /** `looksLikeProxy`: a numeric `statusCode`, or a defined `body`; `in` throws (None) on a primitive. */
  function LooksLikeProxy(outer: Value): (r: Option<bool>)
    ensures IsObject(outer) <==> r.Some?
    ensures r == Some(true) <==> Get(outer, "statusCode").Num? || (outer.Obj? && "body" in outer.props && !outer.props["body"].Undefined?)
  {
    if Get(outer, "statusCode").Num? then Some(true)
    else
      match HasKey(outer, "body")
      case None => None
      case Some(has) => Some(has && !Get(outer, "body").Undefined?)
  }

  /** `Number(outer.statusCode) || 200` */
  function LambdaStatus(lib: Lib, outer: Value): (n: Number)
    ensures n != NaN && n != Finite(0.0)
    ensures Get(outer, "statusCode").Num? && Get(outer, "statusCode").n != 0.0 ==> n == Finite(Get(outer, "statusCode").n)
  {
    var n := ToNumber(lib, Get(outer, "statusCode"));
    if n.NaN? || n == Finite(0.0) then Finite(200.0) else n
  }

  const NoStore: map<string, string> := map["cache-control" := "no-store"]

  /**
   * `GET(req)`: `entity` is what `getEntityNumberFromCookie()` resolved to
   * and `inv` the Lambda's outcome. `errors` holds the messages of the
   * exceptions the response constructor raises for a status it refuses
   * (outside 200..599, or the null-body 204, 205 and 304), and `inError`
   * the message of the TypeError `"body" in outer` raises on a primitive.
   */
  function Answer(lib: Lib, rate: RateLimiter.RateResult, entity: string, inv: Invocation,
                  errors: StatusErrors, inError: string): (r: Reply)
  {
    if !rate.allowed then TooManyRequests(RateLimiter.RetryAfterHeader(rate))
    else if Trim(entity) == "" then Json(401, Obj(map["message" := Str("Missing entity_number in session.")]))
    else
      match inv
      case Threw(msg) => Failed(if Trim(msg) != "" then Trim(msg) else "Error")
      case Returned(_, fe, raw) => Relayed(lib, Trim(fe), raw, errors, inError)
  }

  /** The answer once the Lambda returned `raw` with the (trimmed) `FunctionError` `fe`. */
  function Relayed(lib: Lib, fe: string, raw: string, errors: StatusErrors, inError: string): (r: Reply)
    ensures r.Reply?
  {
    var outer := if raw != "" then ParseOrNull(lib, raw) else Null;
    if !Truthy(outer) then
      Reply(502, Obj(map["message" := Str("Unexpected lambda response (not JSON)."),
                         "function_error" := if fe != "" then Str(fe) else Null, "raw" := Str(raw)]), NoStore)
    else if fe != "" then
      Reply(502, Obj(map["message" := Str("Lambda error."), "function_error" := Str(fe),
                         "response" := outer, "raw" := Str(raw)]), NoStore)
    else
      match LooksLikeProxy(outer)
      case None => Failed(inError)
      case Some(proxy) =>
        if !proxy then Reply(200, outer, NoStore)
        else Unwrapped(lib, outer, errors)
  }

  /** The 500 the handler's `catch` answers with. */
  function Failed(error: string): (r: Reply)
    ensures r.Reply? && r.status == 500
  {
    Reply(500, Obj(map["message" := Str("Failed to invoke lambda."), "error" := Str(error)]), NoStore)
  }

  /** The answer for a proxy-like object: its inner value with the Lambda's status, or 502 when there is none. */
  function Unwrapped(lib: Lib, outer: Value, errors: StatusErrors): (r: Reply)
    ensures r.Reply?
  {
    var lambdaStatus := LambdaStatus(lib, outer);
    var d := DecodeApiGwBody(lib, outer);
    if d.inner.Null? then
      Reply(502, Obj(map["message" := Str("Unexpected lambda body format."), "statusCode" := NumberValue(lambdaStatus),
                         "body" := Or(Or(Str(d.innerRaw), Get(outer, "body")), Null)]), NoStore)
    else
      match ResponseStatus(lambdaStatus)
      case None => Failed(StatusErrorMessage(errors, lambdaStatus))
      case Some(status) => Reply(status, d.inner, NoStore)
  }

  /** 429, then 401 for a blank entity, then 500 for a throw; otherwise the Lambda's reply decides. */
  lemma {:induction false} StatusChain(lib: Lib, rate: RateLimiter.RateResult, entity: string, inv: Invocation,
                                       errors: StatusErrors, inError: string)
    ensures var r := Answer(lib, rate, entity, inv, errors, inError);
      && r.Reply?
      && (!rate.allowed ==> r == TooManyRequests(RateLimiter.RetryAfterHeader(rate)))
      && (rate.allowed && IsBlank(entity) ==> r == Json(401, Obj(map["message" := Str("Missing entity_number in session.")])))
      && (rate.allowed && !IsBlank(entity) && inv.Threw? ==> r.status == 500)
      && (rate.allowed && !IsBlank(entity) && inv.Returned? ==>
            r == Relayed(lib, Trim(inv.functionError), inv.payload, errors, inError))
  {
  }

  /**
   * An empty or non-JSON (falsy) reply is 502 before a `FunctionError`
   * is; an object that does not look like a proxy response is relayed with
   * 200; a proxy-like one is `Unwrapped`; a primitive makes `in` throw.
   */
  lemma {:induction false} RelayedCases(lib: Lib, fe: string, raw: string, errors: StatusErrors, inError: string)
    ensures var r := Relayed(lib, fe, raw, errors, inError);
      var outer := if raw != "" then ParseOrNull(lib, raw) else Null;
      && (!Truthy(outer) ==> r.status == 502 && Get(r.body, "message") == Str("Unexpected lambda response (not JSON)."))
      && (Truthy(outer) && fe != "" ==> r.status == 502 && Get(r.body, "response") == outer)
      && (Truthy(outer) && fe == "" ==>
            && (LooksLikeProxy(outer) == Some(false) ==> r == Reply(200, outer, NoStore))
            && (LooksLikeProxy(outer) == Some(true) ==> r == Unwrapped(lib, outer, errors))
            && (LooksLikeProxy(outer).None? ==> r == Failed(inError)))
  {
    var r := Relayed(lib, fe, raw, errors, inError);
    var outer := if raw != "" then ParseOrNull(lib, raw) else Null;
    if !Truthy(outer) {
      var fields := map["message" := Str("Unexpected lambda response (not JSON)."),
                        "function_error" := if fe != "" then Str(fe) else Null, "raw" := Str(raw)];
      assert r == Reply(502, Obj(fields), NoStore);
      assert fields["message"] == Str("Unexpected lambda response (not JSON).");
    } else if fe != "" {
      var fields := map["message" := Str("Lambda error."), "function_error" := Str(fe), "response" := outer, "raw" := Str(raw)];
      assert r == Reply(502, Obj(fields), NoStore);
      assert fields["response"] == outer;
    }
  }

  /**
   * A proxy-like object with an inner value is answered with that value
   * and the Lambda's status (200 when `statusCode` is 0 or not a number)
   * when the response constructor accepts it, and otherwise the `catch`
   * answers 500 with the constructor's exception message; with no inner
   * value it is 502, never a relayed body.
   */
  lemma {:induction false} UnwrappedStatus(lib: Lib, outer: Value, errors: StatusErrors)
    ensures var r := Unwrapped(lib, outer, errors);
      var d := DecodeApiGwBody(lib, outer);
      && (d.inner.Null? ==> r.status == 502 && Get(r.body, "message") == Str("Unexpected lambda body format."))
      && (!d.inner.Null? && ResponseStatus(LambdaStatus(lib, outer)).Some? ==>
            r == Reply(ResponseStatus(LambdaStatus(lib, outer)).value, d.inner, NoStore))
      && (!d.inner.Null? && ResponseStatus(LambdaStatus(lib, outer)).None? ==>
            r == Failed(StatusErrorMessage(errors, LambdaStatus(lib, outer))))
  {
    var r := Unwrapped(lib, outer, errors);
    var d := DecodeApiGwBody(lib, outer);
    if d.inner.Null? {
      var fields := map["message" := Str("Unexpected lambda body format."), "statusCode" := NumberValue(LambdaStatus(lib, outer)),
                        "body" := Or(Or(Str(d.innerRaw), Get(outer, "body")), Null)];
      assert r == Reply(502, Obj(fields), NoStore);
      assert fields["message"] == Str("Unexpected lambda body format.");
    }
  }

  /** A proxy response `{"statusCode": 0, "body": "<json>"}` is answered with 200 and the parsed body. */
  lemma ZeroStatusCodeMeans200(lib: Lib, bodyText: string, inner: Value, errors: StatusErrors)
    requires bodyText != "" && lib.parse(bodyText) == Some(inner) && !inner.Null?
    ensures var outer := Obj(map["statusCode" := Num(0.0), "body" := Str(bodyText)]);
      Unwrapped(lib, outer, errors) == Reply(200, inner, NoStore)
  {
    var outer := Obj(map["statusCode" := Num(0.0), "body" := Str(bodyText)]);
    assert Get(outer, "statusCode") == Num(0.0);
    assert Get(outer, "isBase64Encoded") == Undefined;
    assert LambdaStatus(lib, outer) == Finite(200.0);
    ResponseStatusKeepsValid(200);
    assert DecodeApiGwBody(lib, outer) == Decoded(inner, bodyText);
  }

  /** A proxy response `{"statusCode": 204, "body": "<json>"}` (or 205, 304) cannot be relayed: the constructor's TypeError is caught as 500. */
  lemma NullBodyStatusIs500(lib: Lib, bodyText: string, inner: Value, errors: StatusErrors, k: int)
    requires bodyText != "" && lib.parse(bodyText) == Some(inner) && !inner.Null? && NullBodyStatus(k)
    ensures var outer := Obj(map["statusCode" := Num(k as real), "body" := Str(bodyText)]);
      Unwrapped(lib, outer, errors) == Failed(errors.nullBody)
  {
    var outer := Obj(map["statusCode" := Num(k as real), "body" := Str(bodyText)]);
    assert Get(outer, "statusCode") == Num(k as real);
    assert Get(outer, "isBase64Encoded") == Undefined;
    assert LambdaStatus(lib, outer) == Finite(k as real);
    NullBodyStatusRejected(k, errors);
    assert DecodeApiGwBody(lib, outer) == Decoded(inner, bodyText);
  }
}
