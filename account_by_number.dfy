/**
 * app/api/accounts/get-by-account-number/route.ts: looks up the account
 * whose number is the session's entity number and reshapes the accounts
 * Lambda's reply into a fixed record.
 */
module AccountByNumber {
  import opened Text
  import opened Js
  import opened Http
  import RateLimiter
  import SenderDetails

  /** The response body: always `exists`, `message` and the two account fields. */
  datatype AccountResp = AccountResp(exists_: bool, message: string, accountNumber: string, accountName: string)

  /** The object `normalize` reads: an object-typed `body` (`null` included) in place of the outer object, `{}` for a non-object. */
  function Selected(out: Value): (b: Value)
    ensures IsObject(b)
    ensures var o := SafeObj(out);
      b == SafeObj(if TypeofObject(Get(o, "body")) then Get(o, "body") else o)
  {
    var o := SafeObj(out);
    SafeObj(if TypeofObject(Get(o, "body")) then Get(o, "body") else o)
  }

  /**
   * `normalize`: `exists` only from a boolean; `message` from a string,
   * else a default that follows `exists`; account fields trimmed strings
   * or "".
   */
  function Normalize(out: Value): (r: AccountResp)
    ensures var b := Selected(out);
      && (r.exists_ <==> Get(b, "exists") == Bool(true))
      && (Get(b, "message").Str? ==> r.message == Get(b, "message").s)
      && (!Get(b, "message").Str? ==> r.message == (if r.exists_ then "Account found." else "Account not found."))
      && (IsObject(Get(b, "account")) ==>
            r.accountNumber == AsStr(Get(Get(b, "account"), "account_number"))
            && r.accountName == AsStr(Get(Get(b, "account"), "account_name")))
      && (!IsObject(Get(b, "account")) ==> r.accountNumber == "" && r.accountName == "")
    ensures IsTrimmed(r.accountNumber) && IsTrimmed(r.accountName)
  {
    var b := Selected(out);
    var exists_ := if Get(b, "exists").Bool? then Get(b, "exists").b else false;
    var message := if Get(b, "message").Str? then Get(b, "message").s else if exists_ then "Account found." else "Account not found.";
    var acc := if IsObject(Get(b, "account")) then Get(b, "account") else Obj(map[]);
    AccountResp(exists_, message, AsStr(Get(acc, "account_number")), AsStr(Get(acc, "account_name")))
  }

  /** The reply parsed, with a string `body` parsed in place. */
  function ParsedOut(lib: Lib, text: string): Value
  {
    var out := SenderDetails.SafeJsonParse(lib, text);
    if out.Obj? && "body" in out.props && out.props["body"].Str? then
      Obj(out.props["body" := SenderDetails.SafeJsonParse(lib, out.props["body"].s)])
    else out
  }

  /** A string `body` that parses is replaced by the parsed value. */
  lemma StringBodyParsedInPlace(lib: Lib, text: string, outer: map<string, Value>, bodyText: string, parsed: Value)
    requires !IsBlank(text) && lib.parse(Trim(text)) == Some(Obj(outer["body" := Str(bodyText)]))
    requires !IsBlank(bodyText) && lib.parse(Trim(bodyText)) == Some(parsed)
    ensures ParsedOut(lib, text) == Obj(outer["body" := parsed])
  {
    assert SenderDetails.SafeJsonParse(lib, text) == Obj(outer["body" := Str(bodyText)]);
    assert SenderDetails.SafeJsonParse(lib, bodyText) == parsed;
  }

  /** `{"statusCode":200,"body":"<json>"}` is read through its inner object. */
  lemma ApiGatewayReplyUnwrapped(lib: Lib, text: string, outer: map<string, Value>, inner: map<string, Value>, bodyText: string)
    requires !IsBlank(text) && lib.parse(Trim(text)) == Some(Obj(outer["body" := Str(bodyText)]))
    requires !IsBlank(bodyText) && lib.parse(Trim(bodyText)) == Some(Obj(inner))
    requires "body" !in inner
    ensures Normalize(ParsedOut(lib, text)) == Normalize(Obj(inner))
  {
    StringBodyParsedInPlace(lib, text, outer, bodyText, Obj(inner));
    var unwrapped := Obj(outer["body" := Obj(inner)]);
    assert Get(unwrapped, "body") == Obj(inner);
    assert Selected(unwrapped) == Obj(inner);
    assert Get(Obj(inner), "body") == Undefined;
    assert Selected(Obj(inner)) == Obj(inner);
  }

  datatype Answered = Answered(status: int, body: AccountResp, retryAfter: Option<string>)

  /** `GET(req)`: `entity` is what `getEntityNumberFromCookie()` resolved to, `inv` the Lambda's outcome. */
  function Answer(lib: Lib, rate: RateLimiter.RateResult, entity: string, inv: Invocation): (r: Answered)
  {
    if !rate.allowed then
      Answered(429, AccountResp(false, "Too many requests. Please slow down.", "", ""), Some(RateLimiter.RetryAfterHeader(rate)))
    else if Trim(entity) == "" then
      Answered(401, AccountResp(false, "Unauthorized. Missing session entity_number.", "", ""), None)
    else
      match inv
      case Threw(msg) => Answered(500, AccountResp(false, if msg != "" then msg else "Invoke failed.", "", ""), None)
      case Returned(_, fe, payload) =>
        if fe != "" then Answered(502, AccountResp(false, "Lambda returned an error.", "", ""), None)
        else Answered(200, Normalize(ParsedOut(lib, payload)), None)
  }

  /**
   * 429 when rate-limited, 401 for a blank entity, 500 when the invocation
   * throws, 502 with `exists` false on `FunctionError`, else 200 with the
   * normalised reply; only a 200 can report `exists`.
   */
  lemma {:induction false} StatusMapping(lib: Lib, rate: RateLimiter.RateResult, entity: string, inv: Invocation)
    ensures var r := Answer(lib, rate, entity, inv);
      && (r.status == 429 <==> !rate.allowed)
      && (r.status == 401 <==> rate.allowed && IsBlank(entity))
      && (r.status == 500 <==> rate.allowed && !IsBlank(entity) && inv.Threw?)
      && (r.status == 502 <==> rate.allowed && !IsBlank(entity) && inv.Returned? && inv.functionError != "")
      && (r.status == 200 <==> rate.allowed && !IsBlank(entity) && inv.Returned? && inv.functionError == "")
      && (r.status == 200 ==> r.body == Normalize(ParsedOut(lib, inv.payload)))
      && (r.body.exists_ ==> r.status == 200)
  {
  }
}
