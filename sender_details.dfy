/**
 * app/api/sender/get-sender-details/route.ts: the paying account and
 * employee for the payment form, read from the accounts and users Lambdas,
 * with the cookie's numbers as fallbacks.
 */
module SenderDetails {
  import opened Text
  import opened Js
  import opened Http
  import RateLimiter

  /** This route's `safeJsonParse`: blank text is `{}`, text that is not JSON is `{raw: t}`. */
  function SafeJsonParse(lib: Lib, text: string): (r: Value)
    ensures IsBlank(text) ==> r == Obj(map[])
    ensures !IsBlank(text) && lib.parse(Trim(text)).None? ==> r == Obj(map["raw" := Str(Trim(text))])
    ensures !IsBlank(text) && lib.parse(Trim(text)).Some? ==> r == lib.parse(Trim(text)).value
  {
    var t := Trim(text);
    if t == "" then Obj(map[])
    else
      match lib.parse(t)
      case None => Obj(map["raw" := Str(t)])
      case Some(v) => v
  }

  /** `unwrapBody`: a `body` (parsed when it is text) that is an object, else the outer object (`{}` for a non-object). */
  function UnwrapBody(lib: Lib, out: Value): (r: Value)
    ensures IsObject(r)
    ensures var o := SafeObj(out);
      var body := if Get(o, "body").Str? then SafeJsonParse(lib, Get(o, "body").s) else Get(o, "body");
      r == (if IsObject(body) then body else o)
  {
    var o := SafeObj(out);
    var body := if Get(o, "body").Str? then SafeJsonParse(lib, Get(o, "body").s) else Get(o, "body");
    if IsObject(body) then body else o
  }

  datatype Account = Account(accountNumber: string, accountName: string)

  /** `pickAccount`: the trimmed string fields of an object `account`, "" otherwise. */
  function PickAccount(lib: Lib, out: Value): (a: Account)
    ensures IsTrimmed(a.accountNumber) && IsTrimmed(a.accountName)
    ensures !IsObject(Get(UnwrapBody(lib, out), "account")) ==> a == Account("", "")
  {
    var b := UnwrapBody(lib, out);
    var acc := if IsObject(Get(b, "account")) then Get(b, "account") else Obj(map[]);
    Account(AsStr(Get(acc, "account_number")), AsStr(Get(acc, "account_name")))
  }

  datatype User = User(employeeNumber: string, employeeName: string)

  /**
   * `pickUser`: from `{user: {employee_number, employee_name}}` or
   * `{user: "name"}`; a blank number falls back to the given one.
   */
  function PickUser(lib: Lib, out: Value, fallback: string): (u: User)
    ensures var user := Get(UnwrapBody(lib, out), "user");
      && (IsObject(user) && AsStr(Get(user, "employee_number")) != "" ==> u.employeeNumber == AsStr(Get(user, "employee_number")))
      && (!IsObject(user) || AsStr(Get(user, "employee_number")) == "" ==> u.employeeNumber == fallback)
      && (IsObject(user) && AsStr(Get(user, "employee_name")) != "" ==> u.employeeName == AsStr(Get(user, "employee_name")))
      && (user.Str? ==> u.employeeName == Trim(user.s))
      && (!user.Str? && (!IsObject(user) || AsStr(Get(user, "employee_name")) == "") ==> u.employeeName == "")
  {
    var user := Get(UnwrapBody(lib, out), "user");
    var number := if IsObject(user) then AsStr(Get(user, "employee_number")) else "";
    var name := if IsObject(user) then AsStr(Get(user, "employee_name")) else "";
    User(if number != "" then number else fallback, if name != "" then name else if user.Str? then Trim(user.s) else "")
  }

  /** The response body: always these four strings. */
  datatype Sender = Sender(accountName: string, accountNumber: string, employeeName: string, employeeNumber: string)

  function EmptySender(): Sender
  {
    Sender("", "", "", "")
  }

  /** A status, the body and the `Retry-After` header of a 429. */
  datatype Answered = Answered(status: int, body: Sender, retryAfter: Option<string>)

  /**
   * `GET(req)`: `entity` and `employee` are what the cookie getters
   * resolved to (the entity number is used as the account number); `acc`
   * and `usr` what the two Lambdas returned.
   */
  function Answer(lib: Lib, rate: RateLimiter.RateResult, entity: string, employee: string,
                  acc: Invocation, usr: Invocation): (r: Answered)
  {
    var accountNumber := Trim(entity);
    var employeeNumber := Trim(employee);
    if !rate.allowed then Answered(429, EmptySender(), Some(RateLimiter.RetryAfterHeader(rate)))
    else if accountNumber == "" || employeeNumber == "" then Answered(401, EmptySender(), None)
    else if acc.Threw? || usr.Threw? then Answered(500, EmptySender(), None)
    else if acc.functionError != "" || usr.functionError != "" then Answered(502, EmptySender(), None)
    else
      var a := PickAccount(lib, SafeJsonParse(lib, acc.payload));
      var u := PickUser(lib, SafeJsonParse(lib, usr.payload), employeeNumber);
      Answered(200, Sender(a.accountName,
        if a.accountNumber != "" then a.accountNumber else accountNumber,
        u.employeeName,
        if u.employeeNumber != "" then u.employeeNumber else employeeNumber), None)
  }

  /**
   * 429, 401, 500 and 502 (either Lambda's `FunctionError`) all carry the
   * all-empty body; a 200 always has non-blank account and employee
   * numbers, the cookie's when the Lambdas leave them blank.
   */
  lemma {:induction false} StatusAndFallbacks(lib: Lib, rate: RateLimiter.RateResult, entity: string, employee: string,
                                              acc: Invocation, usr: Invocation)
    ensures var r := Answer(lib, rate, entity, employee, acc, usr);
      && (r.status != 200 ==> r.body == EmptySender())
      && (r.status == 429 <==> !rate.allowed)
      && (r.status == 401 <==> rate.allowed && (IsBlank(entity) || IsBlank(employee)))
      && (r.status == 502 <==> rate.allowed && !IsBlank(entity) && !IsBlank(employee) && acc.Returned? && usr.Returned?
                               && (acc.functionError != "" || usr.functionError != ""))
      && (r.status == 200 ==> r.body.accountNumber != "" && r.body.employeeNumber != "")
      && (r.status == 200 && PickAccount(lib, SafeJsonParse(lib, acc.payload)).accountNumber == "" ==>
            r.body.accountNumber == Trim(entity))
  {
  }
}
