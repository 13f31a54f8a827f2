/**
 * app/api/shared/get-login-details/route.ts: the entity's name and address
 * and the user's name for the header, read from two Lambdas.
 */
module LoginDetails {
  import opened Text
  import opened Js
  import opened Http
  import RateLimiter

  /** `decodeLambdaPayload`: the parsed reply text, or `{_non_json_payload: text}`. */
  function DecodePayload(lib: Lib, text: string): (r: Value)
    ensures lib.parse(text).None? || lib.parse(text) == Some(Null) ==> r == Obj(map["_non_json_payload" := Str(text)])
    ensures lib.parse(text).Some? && !Nullish(lib.parse(text).value) ==> r == lib.parse(text).value
  {
    Coalesce(ParseOrNull(lib, text), Obj(map["_non_json_payload" := Str(text)]))
  }

  /**
   * `unwrapCommon`: a string `body` is parsed (`{_non_json_body, _raw}`
   * when that fails), an object `body` is taken, else an object `response`
   * is taken, else the value itself.
   */
  function UnwrapCommon(lib: Lib, body: Value): (r: Value)
    ensures !IsObject(body) ==> r == body
    ensures var inner := Get(body, "body");
      IsObject(body) && inner.Str? ==>
        r == Coalesce(ParseOrNull(lib, inner.s), Obj(map["_non_json_body" := inner, "_raw" := body]))
    ensures var inner := Get(body, "body");
      IsObject(body) && IsObject(inner) ==> r == inner
    ensures var inner := Get(body, "body");
      IsObject(body) && !inner.Str? && !IsObject(inner) ==>
        r == (if IsObject(Get(body, "response")) then Get(body, "response") else body)
  {
    if !IsObject(body) then body
    else
      var inner := Get(body, "body");
      if body.Obj? && "body" in body.props && inner.Str? then
        Coalesce(ParseOrNull(lib, inner.s), Obj(map["_non_json_body" := inner, "_raw" := body]))
      else if body.Obj? && "body" in body.props && IsObject(inner) then inner
      else if IsObject(Get(body, "response")) then Get(body, "response")
      else body
  }

  /** `asStr(a) || asStr(b) || ""` */
  function FirstText(a: Value, b: Value): (r: string)
    ensures IsTrimmed(r)
    ensures AsStr(a) != "" ==> r == AsStr(a)
    ensures AsStr(a) == "" ==> r == AsStr(b)
  {
    if AsStr(a) != "" then AsStr(a) else AsStr(b)
  }

  /** The object the entity fields are read from: `entBody.entity` when that is an object, else `entBody`. */
  function EntityObject(entBody: Value): (r: Value)
    ensures IsObject(entBody) && IsObject(Get(entBody, "entity")) ==> r == Get(entBody, "entity")
    ensures !IsObject(Get(entBody, "entity")) ==> Get(r, "name") == Get(entBody, "name")
  {
    var e := if IsObject(entBody) && IsObject(Get(entBody, "entity")) then Get(entBody, "entity") else entBody;
    Or(e, Obj(map[]))
  }

  datatype Details = Details(entityName: string, entityAddress: string, username: string)

  datatype Answered = Limited(retryAfter: string) | Answered(status: int, details: Details) | Uncaught

  /**
   * `GET(req)`: `entity` and `employee` are what the cookie getters
   * resolved to; `ent` and `usr` what the entity and user Lambdas returned.
   * A throwing invocation is not caught.
   */
  function Answer(lib: Lib, rate: RateLimiter.RateResult, entity: string, employee: string,
                  ent: Invocation, usr: Invocation): (r: Answered)
  {
    if !rate.allowed then Limited(RateLimiter.RetryAfterHeader(rate))
    else if entity == "" || employee == "" then Answered(401, Details("", "", ""))
    else if ent.Threw? || usr.Threw? then Uncaught
    else
      var entBody := Or(UnwrapCommon(lib, DecodePayload(lib, ent.payload)), Obj(map[]));
      var entityObj := EntityObject(entBody);
      var usrBody := Or(UnwrapCommon(lib, DecodePayload(lib, usr.payload)), Obj(map[]));
      Answered(200, Details(
        FirstText(Get(entityObj, "business_name"), Get(entityObj, "name")),
        FirstText(Get(entityObj, "location"), Get(entityObj, "address")),
        FirstText(Get(usrBody, "user"), Get(usrBody, "username"))))
  }

  /**
   * Past the 401 check the answer is always 200 (or the uncaught throw):
   * a `FunctionError` changes nothing, and the fields are read in their
   * order of precedence from the unwrapped replies.
   */
  lemma {:induction false} AlwaysOkOnceSignedIn(lib: Lib, rate: RateLimiter.RateResult, entity: string, employee: string,
                                                ent: Invocation, usr: Invocation)
    ensures var r := Answer(lib, rate, entity, employee, ent, usr);
      && (r.Limited? <==> !rate.allowed)
      && (rate.allowed && (entity == "" || employee == "") ==> r == Answered(401, Details("", "", "")))
      && (rate.allowed && entity != "" && employee != "" ==>
            (r.Uncaught? <==> ent.Threw? || usr.Threw?)
            && (r.Answered? ==> r.status == 200))
  {
  }

  /** A user reply `{"user": "..."}` names the user, whatever the other fields are. */
  lemma UserFromPlainReply(lib: Lib, rate: RateLimiter.RateResult, entity: string, employee: string,
                           ent: Invocation, usr: Invocation, who: string)
    requires rate.allowed && entity != "" && employee != "" && ent.Returned? && usr.Returned?
    requires !IsBlank(who) && lib.parse(usr.payload) == Some(Obj(map["user" := Str(who)]))
    ensures Answer(lib, rate, entity, employee, ent, usr).details.username == Trim(who)
  {
    var usrBody := Obj(map["user" := Str(who)]);
    assert Get(usrBody, "body").Undefined? && Get(usrBody, "response").Undefined?;
    assert UnwrapCommon(lib, DecodePayload(lib, usr.payload)) == usrBody;
    assert Get(usrBody, "user") == Str(who);
    assert Or(usrBody, Obj(map[])) == usrBody;
    var r := Answer(lib, rate, entity, employee, ent, usr);
    assert r.details.username == FirstText(Get(usrBody, "user"), Get(usrBody, "username"));
  }

  /** An entity reply without `body`, `response` or `entity` is read directly, and a non-blank `business_name` wins over `name`. */
  lemma BusinessNameWins(lib: Lib, rate: RateLimiter.RateResult, entity: string, employee: string,
                         ent: Invocation, usr: Invocation, business: string, entityProps: map<string, Value>)
    requires rate.allowed && entity != "" && employee != "" && ent.Returned? && usr.Returned?
    requires "body" !in entityProps && "response" !in entityProps && "entity" !in entityProps
    requires !IsBlank(business) && lib.parse(ent.payload) == Some(Obj(entityProps["business_name" := Str(business)]))
    ensures Answer(lib, rate, entity, employee, ent, usr).details.entityName == Trim(business)
  {
    var entBody := Obj(entityProps["business_name" := Str(business)]);
    assert Get(entBody, "body").Undefined? && Get(entBody, "response").Undefined? && Get(entBody, "entity").Undefined?;
    assert UnwrapCommon(lib, DecodePayload(lib, ent.payload)) == entBody;
    assert EntityObject(entBody) == entBody;
    assert Get(entBody, "business_name") == Str(business);
  }
}
