/**
 * app/api/ledgers/sqs-create-one/route.ts: validates a ledger entry posted
 * by the payment form and hands it to the ledger-creating Lambda.
 */
module LedgerCreate {
  import opened Text
  import opened Js
  import opened Http
  import RateLimiter

  /**
   * `asNum`: a finite number is kept (every `Value.Num` is finite; the
   * Infinity `JSON.parse` gives for `1e400`, which `asNum` turns into null,
   * is not representable), a string that is not blank and reads as a finite
   * number gives that number; anything else is null (None).
   */
  function AsNum(lib: Lib, v: Value): (r: Option<real>)
    ensures v.Num? ==> r == Some(v.n)
    ensures v.Str? && IsBlank(v.s) ==> r.None?
    ensures v.Str? && !IsBlank(v.s) ==> (r.Some? <==> lib.stringToNumber(Trim(v.s)).Finite?)
    ensures r.Some? && v.Str? ==> lib.stringToNumber(Trim(v.s)) == Finite(r.value)
    ensures !v.Num? && !v.Str? ==> r.None?
  {
    match v
    case Num(n) => Some(n)
    case Str(s) =>
      var t := Trim(s);
      if t == "" then None
      else if lib.stringToNumber(t).Finite? then Some(lib.stringToNumber(t).r)
      else None
    case _ => None
  }

  /** The nine validated fields, strings trimmed. */
  datatype LedgerPayload = LedgerPayload(
    creatorAccountNumber: string,
    senderAccountNumber: string,
    senderAccountName: string,
    receiverAccountNumber: string,
    receiverAccountName: string,
    description: string,
    amount: real,
    createdBy: string,
    transactionId: string)

  /** The fields read from the posted body: `asStr` of the strings, `asNum` of `amount`. */
  datatype Posted = Posted(
    creatorAccountNumber: string,
    senderAccountNumber: string,
    senderAccountName: string,
    receiverAccountNumber: string,
    receiverAccountName: string,
    description: string,
    amount: Option<real>,
    createdBy: string,
    transactionId: string)

  function Read(lib: Lib, body: Value): (f: Posted)
    ensures f.creatorAccountNumber == AsStr(Get(body, "creator_account_number"))
    ensures f.description == AsStr(Get(body, "description"))
    ensures f.amount == AsNum(lib, Get(body, "amount"))
    ensures f.transactionId == AsStr(Get(body, "transaction_id"))
  {
    Posted(AsStr(Get(body, "creator_account_number")), AsStr(Get(body, "sender_account_number")),
      AsStr(Get(body, "sender_account_name")), AsStr(Get(body, "receiver_account_number")),
      AsStr(Get(body, "receiver_account_name")), AsStr(Get(body, "description")),
      AsNum(lib, Get(body, "amount")), AsStr(Get(body, "created_by")), AsStr(Get(body, "transaction_id")))
  }

  /**
   * The guard clauses of `POST`, in their order: the first field that is
   * blank (or, for `amount`, not a number) is reported.
   */
  function Validate(f: Posted): Result<LedgerPayload, string>
  {
    if f.creatorAccountNumber == "" then Err("Missing creator_account_number")
    else if f.senderAccountNumber == "" then Err("Missing sender_account_number")
    else if f.senderAccountName == "" then Err("Missing sender_account_name")
    else if f.receiverAccountNumber == "" then Err("Missing receiver_account_number")
    else if f.receiverAccountName == "" then Err("Missing receiver_account_name")
    else if f.description == "" then Err("Missing description")
    else if f.amount.None? then Err("Missing/invalid amount")
    else if f.createdBy == "" then Err("Missing created_by")
    else if f.transactionId == "" then Err("Missing transaction_id")
    else Ok(LedgerPayload(f.creatorAccountNumber, f.senderAccountNumber, f.senderAccountName, f.receiverAccountNumber,
                          f.receiverAccountName, f.description, f.amount.value, f.createdBy, f.transactionId))
  }

  /** One requirement on the posted body and the message reported when it fails. */
  datatype Check = Check(passes: bool, message: string)

  /** The requirements, listed independently of the guard clauses, in the order they are meant to run. */
  function Checks(f: Posted): seq<Check>
  {
    [ Check(f.creatorAccountNumber != "", "Missing creator_account_number"),
      Check(f.senderAccountNumber != "", "Missing sender_account_number"),
      Check(f.senderAccountName != "", "Missing sender_account_name"),
      Check(f.receiverAccountNumber != "", "Missing receiver_account_number"),
      Check(f.receiverAccountName != "", "Missing receiver_account_name"),
      Check(f.description != "", "Missing description"),
      Check(f.amount.Some?, "Missing/invalid amount"),
      Check(f.createdBy != "", "Missing created_by"),
      Check(f.transactionId != "", "Missing transaction_id") ]
  }

  /** The message of the first failing check, if any. */
  function FirstFailure(checks: seq<Check>): (r: Option<string>)
    ensures r.None? <==> forall i :: 0 <= i < |checks| ==> checks[i].passes
  {
    if checks == [] then None
    else if !checks[0].passes then Some(checks[0].message)
    else
      assert forall i :: 1 <= i < |checks| ==> checks[i] == checks[1..][i - 1];
      FirstFailure(checks[1..])
  }

  /** When check `i` is the first to fail, its message is the one reported. */
  lemma {:induction false} FirstFailureIs(checks: seq<Check>, i: nat)
    requires i < |checks| && !checks[i].passes
    requires forall j :: 0 <= j < i ==> checks[j].passes
    ensures FirstFailure(checks) == Some(checks[i].message)
  {
    if i > 0 {
      FirstFailureIs(checks[1..], i - 1);
    }
  }

  /** The guard clauses pass exactly when every requirement holds. */
  lemma {:induction false} ValidatePassesAllChecks(f: Posted)
    ensures Validate(f).Ok? <==> FirstFailure(Checks(f)).None?
  {
    var c := Checks(f);
    if Validate(f).Ok? {
      assert |c| == 9;
      assert c[0].passes && c[1].passes && c[2].passes && c[3].passes && c[4].passes
          && c[5].passes && c[6].passes && c[7].passes && c[8].passes;
    } else {
      ValidateReportsFirstFailure(f);
    }
  }

  /** The guard clauses report exactly the first failing requirement. */
  lemma {:induction false} ValidateReportsFirstFailure(f: Posted)
    requires Validate(f).Err?
    ensures FirstFailure(Checks(f)) == Some(Validate(f).error)
  {
    var c := Checks(f);
    if f.creatorAccountNumber == "" { FirstFailureIs(c, 0); }
    else if f.senderAccountNumber == "" { FirstFailureIs(c, 1); }
    else if f.senderAccountName == "" { FirstFailureIs(c, 2); }
    else if f.receiverAccountNumber == "" { FirstFailureIs(c, 3); }
    else if f.receiverAccountName == "" { FirstFailureIs(c, 4); }
    else if f.description == "" { FirstFailureIs(c, 5); }
    else if f.amount.None? { FirstFailureIs(c, 6); }
    else if f.createdBy == "" { FirstFailureIs(c, 7); }
    else { FirstFailureIs(c, 8); }
  }

  /** The Lambda payload: exactly the nine validated fields. */
  function PayloadValue(p: LedgerPayload): (v: Value)
    ensures v.Obj? && v.props.Keys == {"creator_account_number", "sender_account_number", "sender_account_name",
      "receiver_account_number", "receiver_account_name", "description", "amount", "created_by", "transaction_id"}
  {
    Obj(map[
      "creator_account_number" := Str(p.creatorAccountNumber),
      "sender_account_number" := Str(p.senderAccountNumber),
      "sender_account_name" := Str(p.senderAccountName),
      "receiver_account_number" := Str(p.receiverAccountNumber),
      "receiver_account_name" := Str(p.receiverAccountName),
      "description" := Str(p.description),
      "amount" := Num(p.amount),
      "created_by" := Str(p.createdBy),
      "transaction_id" := Str(p.transactionId)])
  }

  /** A validated payload carries non-blank copies of the fields as read, and the amount `asNum` gave. */
  lemma ValidatedFieldsAreTheInputs(f: Posted)
    requires Validate(f).Ok?
    ensures var p := Validate(f).value;
      && p.creatorAccountNumber == f.creatorAccountNumber != ""
      && p.senderAccountNumber == f.senderAccountNumber != ""
      && p.senderAccountName == f.senderAccountName != ""
      && p.receiverAccountNumber == f.receiverAccountNumber != ""
      && p.receiverAccountName == f.receiverAccountName != ""
      && p.description == f.description != ""
      && Some(p.amount) == f.amount
      && p.createdBy == f.createdBy != ""
      && p.transactionId == f.transactionId != ""
  {
  }

  /** `httpStatus`: 502 on a `FunctionError` or a `StatusCode` outside 200..299, else 200. */
  function HttpStatus(statusCode: int, functionError: string): (s: int)
    ensures s == 200 <==> functionError == "" && 200 <= statusCode < 300
    ensures s == 200 || s == 502
  {
    if functionError != "" then 502 else if 200 <= statusCode < 300 then 200 else 502
  }

  /** The Lambda's reply text as `response`: `{}` when empty, the text itself when not JSON. */
  function LambdaBody(lib: Lib, raw: string): Value
  {
    if raw == "" then Obj(map[])
    else
      match lib.parse(raw)
      case Some(v) => v
      case None => Str(raw)
  }

  /** The reply once the posted entry is valid: `inv` is the Lambda's outcome. */
  function Relay(lib: Lib, inv: Invocation): (r: Reply)
  {
    match inv
    case Threw(msg) => Json(500, Obj(map["ok" := Bool(false), "message" := Str(if msg != "" then msg else "Server error")]))
    case Returned(sc, fe, raw) =>
      var statusCode := if sc.Some? then sc.value else 0;
      var status := HttpStatus(statusCode, fe);
      Json(status, Obj(map[
        "ok" := Bool(status == 200),
        "lambda" := Obj(map["StatusCode" := Num(statusCode as real), "FunctionError" := if fe != "" then Str(fe) else Null]),
        "response" := LambdaBody(lib, raw)]))
  }

  /** `POST(req)`: `requestText` is the request body, `inv` the Lambda's outcome. */
  function Answer(lib: Lib, rate: RateLimiter.RateResult, requestText: string, inv: Invocation): (r: Reply)
  {
    if !rate.allowed then TooManyRequests(RateLimiter.RetryAfterHeader(rate))
    else
      match Validate(Read(lib, ParseOrNull(lib, requestText)))
      case Err(m) => Json(400, Obj(map["ok" := Bool(false), "message" := Str(m)]))
      case Ok(_) => Relay(lib, inv)
  }

  /**
   * 429 first; 400 with the first failing requirement's message; past
   * validation, the Lambda's outcome decides.
   */
  lemma {:induction false} StatusBeforeLambda(lib: Lib, rate: RateLimiter.RateResult, requestText: string, inv: Invocation)
    ensures var r := Answer(lib, rate, requestText, inv);
      var f := Read(lib, ParseOrNull(lib, requestText));
      && r.Reply?
      && (r.status == 429 <==> !rate.allowed)
      && (r.status == 400 <==> rate.allowed && FirstFailure(Checks(f)).Some?)
      && (r.status == 400 ==> Get(r.body, "message") == Str(FirstFailure(Checks(f)).value))
      && (rate.allowed && FirstFailure(Checks(f)).None? ==> r == Relay(lib, inv))
  {
    var r := Answer(lib, rate, requestText, inv);
    var f := Read(lib, ParseOrNull(lib, requestText));
    ValidatePassesAllChecks(f);
    if rate.allowed {
      match Validate(f)
      case Err(m) =>
        ValidateReportsFirstFailure(f);
        var fields := map["ok" := Bool(false), "message" := Str(m)];
        assert r == Json(400, Obj(fields));
        assert fields["message"] == Str(m);
      case Ok(_) =>
    }
  }

  /**
   * Past validation: 500 when the invocation throws, else `httpStatus`,
   * with `ok` true exactly for 200 and the Lambda's reply as `response`.
   */
  lemma {:induction false} RelayStatus(lib: Lib, inv: Invocation)
    ensures var r := Relay(lib, inv);
      && r.Reply?
      && (inv.Threw? ==> r.status == 500)
      && (inv.Returned? ==>
            var statusCode := if inv.statusCode.Some? then inv.statusCode.value else 0;
            && r.status == HttpStatus(statusCode, inv.functionError)
            && Get(r.body, "ok") == Bool(r.status == 200)
            && Get(r.body, "response") == LambdaBody(lib, inv.payload))
  {
    if inv.Returned? {
      var r := Relay(lib, inv);
      var fe := inv.functionError;
      var statusCode := if inv.statusCode.Some? then inv.statusCode.value else 0;
      var status := HttpStatus(statusCode, fe);
      var fields := map[
        "ok" := Bool(status == 200),
        "lambda" := Obj(map["StatusCode" := Num(statusCode as real), "FunctionError" := if fe != "" then Str(fe) else Null]),
        "response" := LambdaBody(lib, inv.payload)];
      assert r == Json(status, Obj(fields));
      assert fields["ok"] == Bool(status == 200);
      assert fields["response"] == LambdaBody(lib, inv.payload);
    }
  }

  /** A body that is not JSON is read as null and fails the first check. */
  lemma UnparsableBodyMissesCreator(lib: Lib, rate: RateLimiter.RateResult, requestText: string, inv: Invocation)
    requires rate.allowed && lib.parse(requestText).None?
    ensures Answer(lib, rate, requestText, inv) == Json(400, Obj(map["ok" := Bool(false), "message" := Str("Missing creator_account_number")]))
  {
  }
}
