/**
 * app/api/shared/proxy/validate-entity-number-and-module-number/route.ts:
 * forwards the `module_number` and `entity_number` query parameters to the
 * validator Lambda and reports its reply, unwrapped, under HTTP 200.
 */
module ValidateEntity {
  import opened Text
  import opened Js
  import opened Http
  import RateLimiter

  /**
   * `unwrapLambdaBody`: an object with a `body` key yields its string
   * `body` parsed (`{_raw: body}` when that fails or is null), or its object
   * `body`; anything else is returned as it is.
   */
  function UnwrapLambdaBody(lib: Lib, obj: Value): (r: Value)
    ensures !(obj.Obj? && "body" in obj.props) ==> r == obj
    ensures obj.Obj? && "body" in obj.props && obj.props["body"].Str? ==>
      var parsed := ParseOrNull(lib, obj.props["body"].s);
      r == (if Nullish(parsed) then Obj(map["_raw" := obj.props["body"]]) else parsed)
    ensures obj.Obj? && "body" in obj.props && IsObject(obj.props["body"]) ==> r == obj.props["body"]
    ensures obj.Obj? && "body" in obj.props && !obj.props["body"].Str? && !IsObject(obj.props["body"]) ==> r == obj
  {
    if obj.Obj? && "body" in obj.props then
      var body := obj.props["body"];
      if body.Str? then Coalesce(ParseOrNull(lib, body.s), Obj(map["_raw" := body]))
      else if IsObject(body) then body
      else obj
    else obj
  }

  /** `ok`: no `FunctionError` and a 2xx `StatusCode`. */
  predicate Ok(statusCode: int, functionError: string)
  {
    functionError == "" && 200 <= statusCode < 300
  }

  /** The `data` field for the reply text: `{}` when empty, `{_raw}` when not JSON, else unwrapped. */
  function Data(lib: Lib, payload: string): Value
  {
    var rawText := Trim(payload);
    var parsedTop := if rawText != "" then ParseOrNull(lib, rawText) else Obj(map[]);
    Coalesce(UnwrapLambdaBody(lib, Coalesce(parsedTop, Obj(map["_raw" := Str(rawText)]))), Obj(map[]))
  }

  /** An empty reply is `{}`; a reply that is not JSON is kept as `{_raw: text}`. */
  lemma DataFallbacks(lib: Lib, payload: string)
    ensures Trim(payload) == "" ==> Data(lib, payload) == Obj(map[])
    ensures Trim(payload) != "" && lib.parse(Trim(payload)).None? ==> Data(lib, payload) == Obj(map["_raw" := Str(Trim(payload))])
  {
  }

  /** `GET(req)`: the two query parameters as `searchParams.get` gives them (None when absent). */
  function Answer(lib: Lib, rate: RateLimiter.RateResult, moduleParam: Option<string>, entityParam: Option<string>,
                  inv: Invocation): (r: Reply)
  {
    if !rate.allowed then TooManyRequests(RateLimiter.RetryAfterHeader(rate))
    else
      var m := AsStr(if moduleParam.Some? then Str(moduleParam.value) else Null);
      var e := AsStr(if entityParam.Some? then Str(entityParam.value) else Null);
      if m == "" || e == "" then
        Json(400, Obj(map["ok" := Bool(false), "message" := Str("Missing required query params: module_number, entity_number")]))
      else
        match inv
        case Threw(msg) => Json(500, Obj(map["ok" := Bool(false), "message" := Str("Invoke failed"), "error" := Str(msg)]))
        case Returned(sc, fe, payload) =>
          var statusCode := if sc.Some? then sc.value else 0;
          Json(200, Obj(map[
            "ok" := Bool(Ok(statusCode, fe)),
            "status_code" := Num(statusCode as real),
            "function_error" := if fe != "" then Str(fe) else Null,
            "data" := Data(lib, payload)]))
  }

  /**
   * The statuses: 429 first, 400 unless both parameters are non-blank, 500
   * when the invocation throws, and otherwise always 200 with `ok` true
   * exactly for a 2xx `StatusCode` without `FunctionError`.
   */
  lemma {:induction false} StatusAndOk(lib: Lib, rate: RateLimiter.RateResult, moduleParam: Option<string>, entityParam: Option<string>,
                                       inv: Invocation)
    ensures var r := Answer(lib, rate, moduleParam, entityParam, inv);
      var given := moduleParam.Some? && !IsBlank(moduleParam.value) && entityParam.Some? && !IsBlank(entityParam.value);
      && r.Reply?
      && (r.status == 429 <==> !rate.allowed)
      && (r.status == 400 <==> rate.allowed && !given)
      && (r.status == 500 <==> rate.allowed && given && inv.Threw?)
      && (r.status == 200 <==> rate.allowed && given && inv.Returned?)
      && (r.status == 200 ==>
            Get(r.body, "ok") == Bool(Ok(if inv.statusCode.Some? then inv.statusCode.value else 0, inv.functionError))
            && Get(r.body, "data") == Data(lib, inv.payload))
  {
    var r := Answer(lib, rate, moduleParam, entityParam, inv);
    if rate.allowed {
      var m := AsStr(if moduleParam.Some? then Str(moduleParam.value) else Null);
      var e := AsStr(if entityParam.Some? then Str(entityParam.value) else Null);
      assert m == "" <==> moduleParam.None? || IsBlank(moduleParam.value);
      assert e == "" <==> entityParam.None? || IsBlank(entityParam.value);
      if m != "" && e != "" && inv.Returned? {
        var statusCode := if inv.statusCode.Some? then inv.statusCode.value else 0;
        var fields := map[
          "ok" := Bool(Ok(statusCode, inv.functionError)),
          "status_code" := Num(statusCode as real),
          "function_error" := if inv.functionError != "" then Str(inv.functionError) else Null,
          "data" := Data(lib, inv.payload)];
        assert r == Json(200, Obj(fields));
        assert fields["ok"] == Bool(Ok(statusCode, inv.functionError));
      }
    }
  }
}
