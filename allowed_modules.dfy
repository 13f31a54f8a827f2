/**
 * app/api/shared/get-allowed-modules-by-entity-number/route.ts: lists the
 * modules the signed-in entity may open, as the IAM Lambda reports them,
 * reshaped into a fixed record.
 */
module AllowedModules {
  import opened Text
  import opened Js
  import opened Http
  import RateLimiter
  import Gateway
  import Lists

  datatype AllowedModule = AllowedModule(moduleNumber: string, name: string, description: string, href: string)

  /** The response body `ApiResp`. */
  datatype ModulesResp = ModulesResp(exists_: bool, message: string, allowedModules: seq<AllowedModule>, serverTime: string)

  /** `EMPTY` with the message replaced. */
  function Empty(message: string): ModulesResp
  {
    ModulesResp(false, message, [], "")
  }

  /** `.filter((x) => x && typeof x === "object")`, keeping order. */
  function Objects(xs: seq<Value>): (r: seq<Value>)
    ensures |r| <= |xs|
    ensures forall i :: 0 <= i < |r| ==> IsObject(r[i])
    ensures forall x :: x in xs && IsObject(x) ==> x in r
    ensures forall x :: x in r ==> x in xs
  {
    var r := Lists.Filter(IsObject, xs);
    assert forall i :: 0 <= i < |r| ==> r[i] in r;
    r
  }

  /** A filter of an already filtered list keeps it. */
  lemma ObjectsOfObjects(xs: seq<Value>)
    requires forall i :: 0 <= i < |xs| ==> IsObject(xs[i])
    ensures Objects(xs) == xs
  {
    Lists.FilterAll(IsObject, xs);
  }

  /** One entry of `allowed_modules`, every field a trimmed string or "". */
  function ModuleOf(x: Value): (m: AllowedModule)
    ensures IsTrimmed(m.moduleNumber) && IsTrimmed(m.name) && IsTrimmed(m.description) && IsTrimmed(m.href)
  {
    AllowedModule(AsStr(Get(x, "module_number")), AsStr(Get(x, "name")), AsStr(Get(x, "description")), AsStr(Get(x, "href")))
  }

  /**
   * `normalizeResp`: `exists` is the truthiness of `b.exists`, a
   * non-array `allowed_modules` counts as empty, non-object entries are
   * dropped and the rest reshaped in order.
   */
  function Normalize(body: Value): (r: ModulesResp)
    ensures r.exists_ <==> Truthy(Get(SafeObj(body), "exists"))
    ensures !Get(SafeObj(body), "allowed_modules").Arr? ==> r.allowedModules == []
    ensures Get(SafeObj(body), "allowed_modules").Arr? ==>
      var objs := Objects(Get(SafeObj(body), "allowed_modules").items);
      |r.allowedModules| == |objs| <= |Get(SafeObj(body), "allowed_modules").items|
      && forall i :: 0 <= i < |objs| ==> r.allowedModules[i] == ModuleOf(objs[i])
    ensures IsTrimmed(r.message) && IsTrimmed(r.serverTime)
  {
    var b := SafeObj(body);
    var list := Get(b, "allowed_modules");
    var objs := if list.Arr? then Objects(list.items) else [];
    ModulesResp(Truthy(Get(b, "exists")), AsStr(Get(b, "message")),
      seq(|objs|, i requires 0 <= i < |objs| => ModuleOf(objs[i])), AsStr(Get(b, "server_time")))
  }

  /** The answer: a status and a body (the 429 keeps its own shape). */
  datatype Answered = Limited(retryAfter: string) | Modules(status: int, body: ModulesResp)

  /**
   * `GET(req)`: `entity` is what `getEntityNumberFromCookie()` resolved to
   * and `inv` what the IAM Lambda returned.
   */
  function Answer(lib: Lib, rate: RateLimiter.RateResult, entity: string, inv: Invocation): (r: Answered)
  {
    if !rate.allowed then Limited(RateLimiter.RetryAfterHeader(rate))
    else if Trim(entity) == "" then Modules(401, Empty("Missing entity_number (cookie)"))
    else
      match inv
      case Threw(msg) => Modules(500, Empty(if msg != "" then msg else "Error"))
      case Returned(_, fe, payload) =>
        var body := Normalize(Gateway.ReadBody(lib, ParseOrNull(lib, payload)));
        if fe != "" then Modules(502, body.(exists_ := false, message := "Lambda FunctionError"))
        else Modules(200, body)
  }

  /**
   * 429 when rate-limited, 401 with the empty record for a blank entity,
   * 500 when the invocation throws, 502 with `exists` false on a
   * `FunctionError` (the modules still listed), else 200 with the
   * normalised reply.
   */
  lemma {:induction false} StatusMapping(lib: Lib, rate: RateLimiter.RateResult, entity: string, inv: Invocation)
    ensures var r := Answer(lib, rate, entity, inv);
      && (r.Limited? <==> !rate.allowed)
      && (rate.allowed && IsBlank(entity) ==> r == Modules(401, Empty("Missing entity_number (cookie)")))
      && (rate.allowed && !IsBlank(entity) && inv.Threw? ==> r.status == 500 && r.body.allowedModules == [])
      && (rate.allowed && !IsBlank(entity) && inv.Returned? ==>
            var body := Normalize(Gateway.ReadBody(lib, ParseOrNull(lib, inv.payload)));
            && r.body.allowedModules == body.allowedModules
            && (inv.functionError != "" ==> r.status == 502 && !r.body.exists_ && r.body.message == "Lambda FunctionError")
            && (inv.functionError == "" ==> r == Modules(200, body)))
  {
  }

  /** A reply `{"statusCode":200,"body":"<json>"}` is read through its inner object. */
  lemma UnwrappedReplyIsNormalised(lib: Lib, payload: string, inner: map<string, Value>, outer: map<string, Value>)
    requires lib.parse(lib.stringify(Obj(inner))) == Some(Obj(inner))
    requires lib.parse(payload) == Some(Obj(outer["body" := Str(lib.stringify(Obj(inner)))]))
    ensures Normalize(Gateway.ReadBody(lib, ParseOrNull(lib, payload))) == Normalize(Obj(inner))
  {
    Gateway.ReadBodyUnwrapsJsonBody(lib, Obj(inner), outer);
  }
}
