/**
 * app/api/transactions/sqs-create-one/route.ts: validates a transaction
 * posted by the payment form and sends it, wrapped as an API Gateway v2
 * event, to the transaction-creating Lambda.
 */
module TransactionCreate {
  import opened Text
  import opened Js
  import opened Http
  import RateLimiter

  /** `s.replace(/,/g, "")` */
  function RemoveCommas(s: string): (r: string)
    ensures |r| <= |s|
    ensures forall i :: 0 <= i < |r| ==> r[i] != ','
    ensures forall c :: c in s && c != ',' ==> c in r
  {
    if s == [] then []
    else (if s[0] == ',' then [] else [s[0]]) + RemoveCommas(s[1..])
  }

  /**
   * `asNum` as written: a number is kept; a string has its commas removed
   * and is trimmed, and `Number` of that is kept when finite; anything else
   * is NaN.
   */
  function AsNumAsWritten(lib: Lib, v: Value): (r: Number)
    ensures v.Num? ==> r == Finite(v.n)
    ensures v.Str? && lib.stringToNumber(Trim(RemoveCommas(v.s))).Finite? ==> r == lib.stringToNumber(Trim(RemoveCommas(v.s)))
    ensures !v.Num? && !(v.Str? && lib.stringToNumber(Trim(RemoveCommas(v.s))).Finite?) ==> r == NaN
  {
    match v
    case Num(n) => Finite(n)
    case Str(s) =>
      var n := lib.stringToNumber(Trim(RemoveCommas(s)));
      if n.Finite? then n else NaN
    case _ => NaN
  }

  /**
   * A blank amount, or one of commas only, is read as `Number("")`, which
   * is 0: the "Missing/invalid: amount" guard lets it through.
   */
  lemma BlankAmountAcceptedAsWritten(lib: Lib)
    requires Lawful(lib)
    ensures AsNumAsWritten(lib, Str("")) == Finite(0.0)
    ensures AsNumAsWritten(lib, Str(" , ")) == Finite(0.0)
  {
    assert RemoveCommas(" , ") == "  ";
    assert Trim("  ") == "";
  }

  /**
   * `asNum` with the blank case the ledger route's `asNum` already has: a
   * string that is blank once its commas are removed is NaN.
   */
  function AsNum(lib: Lib, v: Value): (r: Number)
    ensures v.Num? ==> r == Finite(v.n)
    ensures v.Str? && IsBlank(RemoveCommas(v.s)) ==> r == NaN
    ensures v.Str? && !IsBlank(RemoveCommas(v.s)) ==> r == AsNumAsWritten(lib, v)
    ensures !v.Num? && !v.Str? ==> r == NaN
  {
    if v.Str? && Trim(RemoveCommas(v.s)) == "" then NaN else AsNumAsWritten(lib, v)
  }

  /** Only a number or a string holding one gives a finite amount; a blank string never does. */
  lemma FiniteAmountIsGiven(lib: Lib, v: Value)
    requires AsNum(lib, v).Finite?
    ensures v.Num? || (v.Str? && !IsBlank(RemoveCommas(v.s)) && lib.stringToNumber(Trim(RemoveCommas(v.s))) == AsNum(lib, v))
  {
  }

  /** `required`, in its order. */
  const Required: seq<string> := ["account_number", "sender_account_number", "sender_account_name",
    "receiver_account_number", "receiver_account_name", "description", "transaction_id", "created_by"]

  /** The string fields of `payload`, each `asStr` of the posted value. */
  function Strings(body: Value): (m: map<string, string>)
    ensures m.Keys == set k | k in Required
    ensures forall k :: k in m ==> m[k] == AsStr(Get(body, k))
  {
    map k | k in Required :: AsStr(Get(body, k))
  }

  /** The `for (const k of required)` loop: the first key whose field is empty. */
  function FirstMissing(keys: seq<string>, fields: map<string, string>): (r: Option<string>)
    requires forall i :: 0 <= i < |keys| ==> keys[i] in fields
    ensures r.None? <==> forall i :: 0 <= i < |keys| ==> fields[keys[i]] != ""
    ensures r.Some? ==> exists i :: 0 <= i < |keys| && keys[i] == r.value && fields[r.value] == ""
                                    && forall j :: 0 <= j < i ==> fields[keys[j]] != ""
  {
    if keys == [] then None
    else if fields[keys[0]] == "" then Some(keys[0])
    else
      var rest := FirstMissing(keys[1..], fields);
      assert forall i :: 1 <= i < |keys| ==> keys[i] == keys[1..][i - 1];
      if rest.Some? then
        ghost var k :| 0 <= k < |keys[1..]| && keys[1..][k] == rest.value && fields[rest.value] == ""
                       && forall j :: 0 <= j < k ==> fields[keys[1..][j]] != "";
        assert keys[k + 1] == rest.value && forall j :: 0 <= j < k + 1 ==> fields[keys[j]] != "";
        rest
      else rest
  }

  /** The Lambda payload: the eight strings and the amount. */
  function PayloadValue(fields: map<string, string>, amount: real): (v: Value)
    requires forall k :: k in Required ==> k in fields
    ensures v.Obj? && v.props.Keys == (set k | k in Required) + {"amount"}
    ensures forall k :: k in Required ==> v.props[k] == Str(fields[k])
    ensures v.props["amount"] == Num(amount)
  {
    Obj((map k | k in Required :: Str(fields[k]))["amount" := Num(amount)])
  }

  /** `event`: an API Gateway v2 `POST /` request whose body is the payload's JSON text. */
  function Event(lib: Lib, payload: Value): Value
  {
    Obj(map[
      "version" := Str("2.0"),
      "routeKey" := Str("POST /"),
      "rawPath" := Str("/"),
      "headers" := Obj(map["content-type" := Str("application/json")]),
      "isBase64Encoded" := Bool(false),
      "body" := Str(lib.stringify(payload))])
  }

  /** A Lambda that parses the event's body reads back the payload, as a `POST /` request that is not base64-encoded. */
  lemma EventCarriesPayload(lib: Lib, payload: Value)
    requires lib.parse(lib.stringify(payload)) == Some(payload)
    ensures var e := Event(lib, payload);
      && Get(e, "body").Str? && lib.parse(Get(e, "body").s) == Some(payload)
      && Get(e, "routeKey") == Str("POST /") && Get(e, "isBase64Encoded") == Bool(false)
  {
  }

  /** The status, the body's `is_sent` and `message`, and the extra headers the route answers with. */
  datatype Sent = Sent(status: int, isSent: bool, message: string, headers: map<string, string>)

  /** `String(x || "OK")` */
  function MessageOr(lib: Lib, x: Value): (m: string)
    ensures !Truthy(x) ==> m == "OK"
  {
    JsString(lib, Or(x, Str("OK")))
  }

  /**
   * The reply for a Lambda output text: an API Gateway style output gives
   * its own status, unless the response constructor refuses it (outside
   * 200..599, or the null-body 204, 205 or 304), in which case the
   * exception is caught as 502; an `is_sent` output gives 200 or 502 by its
   * truthiness, any other output 200. `errors` holds the constructor's
   * exception messages.
   */
  function Classify(lib: Lib, raw: string, errors: StatusErrors): (r: Sent)
  {
    var out := if raw == "" then Obj(map[]) else match lib.parse(raw) case Some(v) => v case None => Obj(map["raw" := Str(raw)]);
    if out.Obj? && "statusCode" in out.props then
      var n := ToNumber(lib, Or(out.props["statusCode"], Num(200.0)));
      var b0 := Get(out, "body");
      var b := if b0.Str? then (match lib.parse(b0.s) case Some(v) => v case None => b0) else b0;
      match ResponseStatus(n)
      case None =>
        var m := StatusErrorMessage(errors, n);
        Sent(502, false, if m != "" then m else "Lambda invoke failed", map[])
      case Some(status) => Sent(status, n.Finite? && 200.0 <= n.r < 300.0, MessageOr(lib, Get(b, "message")), map[])
    else if out.Obj? && "is_sent" in out.props then
      var sent := Truthy(out.props["is_sent"]);
      Sent(if sent then 200 else 502, sent, MessageOr(lib, Get(out, "message")), map[])
    else Sent(200, true, "OK", map[])
  }

  /**
   * An API Gateway style output answers with its `statusCode` (200 when
   * falsy), `is_sent` exactly when that number lies in [200, 300); an
   * `is_sent` output answers 200 with `is_sent` true or 502 with it false;
   * anything else is sent.
   */
  lemma {:induction false} ClassifyShapes(lib: Lib, raw: string, errors: StatusErrors)
    ensures var r := Classify(lib, raw, errors);
      var out := if raw == "" then Obj(map[]) else match lib.parse(raw) case Some(v) => v case None => Obj(map["raw" := Str(raw)]);
      && (out.Obj? && "statusCode" in out.props ==>
            var n := ToNumber(lib, Or(out.props["statusCode"], Num(200.0)));
            && (ResponseStatus(n).Some? ==> r.status == ResponseStatus(n).value && (r.isSent <==> n.Finite? && 200.0 <= n.r < 300.0))
            && (ResponseStatus(n).None? ==>
                  var m := StatusErrorMessage(errors, n);
                  r == Sent(502, false, if m != "" then m else "Lambda invoke failed", map[])))
      && (out.Obj? && "statusCode" !in out.props && "is_sent" in out.props ==>
            (r.isSent <==> Truthy(out.props["is_sent"])) && r.status == (if r.isSent then 200 else 502))
      && (!(out.Obj? && ("statusCode" in out.props || "is_sent" in out.props)) ==> r == Sent(200, true, "OK", map[]))
  {
  }

  /**
   * A Lambda answering `{"statusCode": k, ...}` with a status `k` in
   * 200..599 gets `k`, `is_sent` exactly for 2xx; the null-body statuses
   * 204, 205 and 304 are excluded, because the JSON reply always has a
   * body (see `NullBodyStatusIs502`).
   */
  lemma IntegralStatusRelayed(lib: Lib, raw: string, errors: StatusErrors, props: map<string, Value>, k: int)
    requires raw != "" && 200 <= k <= 599 && !NullBodyStatus(k) && lib.parse(raw) == Some(Obj(props["statusCode" := Num(k as real)]))
    ensures Classify(lib, raw, errors).status == k
    ensures Classify(lib, raw, errors).isSent <==> 200 <= k < 300
  {
    ResponseStatusKeepsValid(k);
    ClassifyShapes(lib, raw, errors);
    var out := Obj(props["statusCode" := Num(k as real)]);
    assert Or(out.props["statusCode"], Num(200.0)) == Num(k as real);
  }

  /** A Lambda answering `{"statusCode": 204, ...}` (or 205, 304) gets 502 with `is_sent` false and the constructor's TypeError message. */
  lemma NullBodyStatusIs502(lib: Lib, raw: string, errors: StatusErrors, props: map<string, Value>, k: int)
    requires raw != "" && NullBodyStatus(k) && lib.parse(raw) == Some(Obj(props["statusCode" := Num(k as real)]))
    ensures Classify(lib, raw, errors)
      == Sent(502, false, if errors.nullBody != "" then errors.nullBody else "Lambda invoke failed", map[])
  {
    NullBodyStatusRejected(k, errors);
    ClassifyShapes(lib, raw, errors);
    var out := Obj(props["statusCode" := Num(k as real)]);
    assert Or(out.props["statusCode"], Num(200.0)) == Num(k as real);
  }

  /** The string fields and the amount, once the body is valid JSON. */
  datatype Posted = Posted(fields: map<string, string>, amount: Number)

  function Read(lib: Lib, body: Value): (p: Posted)
    ensures p.fields == Strings(body) && p.amount == AsNum(lib, Get(body, "amount"))
  {
    Posted(Strings(body), AsNum(lib, Get(body, "amount")))
  }

  /** The 400 message for a posted body, None when it passes: the string fields in order, then the amount. */
  function Problem(p: Posted): (m: Option<string>)
    requires p.fields.Keys == set k | k in Required
  {
    match FirstMissing(Required, p.fields)
    case Some(k) => Some("Missing: " + k)
    case None => if !p.amount.Finite? then Some("Missing/invalid: amount") else None
  }

  /** `POST(req)`: `requestText` is the request body, `inv` the Lambda's outcome. */
  function Answer(lib: Lib, rate: RateLimiter.RateResult, requestText: string, inv: Invocation, errors: StatusErrors): (r: Sent)
  {
    if !rate.allowed then Sent(429, false, "Too many requests.", map["Retry-After" := RateLimiter.RetryAfterHeader(rate)])
    else
      match lib.parse(requestText)
      case None => Sent(400, false, "Invalid JSON.", map[])
      case Some(body) =>
        match Problem(Read(lib, body))
        case Some(m) => Sent(400, false, m, map[])
        case None =>
          match inv
          case Threw(msg) => Sent(502, false, if msg != "" then msg else "Lambda invoke failed", map[])
          case Returned(_, _, raw) => Classify(lib, raw, errors)
  }

  /** What is sent to the Lambda, when anything is: the event around the validated payload. */
  function Request(lib: Lib, rate: RateLimiter.RateResult, requestText: string): (e: Option<Value>)
  {
    if !rate.allowed then None
    else
      match lib.parse(requestText)
      case None => None
      case Some(body) =>
        var p := Read(lib, body);
        if Problem(p).Some? then None
        else Some(Event(lib, PayloadValue(p.fields, p.amount.r)))
  }

  /**
   * The first blank string field, in the order of `required`, is reported;
   * the amount is looked at only when all of them are present, and a blank
   * amount is reported then.
   */
  lemma {:induction false} ProblemOrder(lib: Lib, body: Value)
    ensures var p := Read(lib, body);
      && (Problem(p).None? <==> (forall k :: k in Required ==> AsStr(Get(body, k)) != "") && p.amount.Finite?)
      && (FirstMissing(Required, p.fields).Some? ==> Problem(p) == Some("Missing: " + FirstMissing(Required, p.fields).value))
      && (FirstMissing(Required, p.fields).None? && Get(body, "amount").Str? && IsBlank(RemoveCommas(Get(body, "amount").s)) ==>
            Problem(p) == Some("Missing/invalid: amount"))
  {
    var p := Read(lib, body);
    if FirstMissing(Required, p.fields).None? {
      assert forall k :: k in Required ==> AsStr(Get(body, k)) != "" by {
        forall k | k in Required
          ensures AsStr(Get(body, k)) != ""
        {
          var i :| 0 <= i < |Required| && Required[i] == k;
          assert p.fields[Required[i]] != "";
        }
      }
    } else {
      var k := FirstMissing(Required, p.fields).value;
      assert k in Required && AsStr(Get(body, k)) == "";
    }
  }

  /**
   * With every string field present and the amount posted as "", the route
   * as written (reading the amount with `AsNumAsWritten`) finds no problem
   * and goes on to the Lambda, while the corrected reading reports the amount.
   */
  lemma BlankAmountPassesGuardAsWritten(lib: Lib, body: Value)
    requires Lawful(lib)
    requires forall k :: k in Required ==> AsStr(Get(body, k)) != ""
    requires Get(body, "amount") == Str("")
    ensures Problem(Posted(Strings(body), AsNumAsWritten(lib, Get(body, "amount")))).None?
    ensures Problem(Read(lib, body)) == Some("Missing/invalid: amount")
  {
    BlankAmountAcceptedAsWritten(lib);
    assert FirstMissing(Required, Strings(body)).None? by {
      assert forall i :: 0 <= i < |Required| ==> Required[i] in Required;
    }
  }

  /**
   * 429 first, then invalid JSON, then the body's first problem, each a
   * 400; a request reaches the Lambda exactly when none applies.
   */
  lemma {:induction false} StatusOrder(lib: Lib, rate: RateLimiter.RateResult, requestText: string, inv: Invocation, errors: StatusErrors)
    ensures var r := Answer(lib, rate, requestText, inv, errors);
      && (!rate.allowed ==> r == Sent(429, false, "Too many requests.", map["Retry-After" := RateLimiter.RetryAfterHeader(rate)]))
      && (rate.allowed && lib.parse(requestText).None? ==> r == Sent(400, false, "Invalid JSON.", map[]))
      && (rate.allowed && lib.parse(requestText).Some? && Problem(Read(lib, lib.parse(requestText).value)).Some? ==>
            r == Sent(400, false, Problem(Read(lib, lib.parse(requestText).value)).value, map[]))
      && (Request(lib, rate, requestText).Some? <==>
            rate.allowed && lib.parse(requestText).Some? && Problem(Read(lib, lib.parse(requestText).value)).None?)
      && (Request(lib, rate, requestText).Some? && inv.Threw? ==> r.status == 502 && !r.isSent)
  {
  }

  /** A validated payload holds exactly the eight trimmed strings and the finite amount. */
  lemma PayloadIsTheValidatedFields(lib: Lib, rate: RateLimiter.RateResult, requestText: string)
    requires Request(lib, rate, requestText).Some?
    ensures var body := lib.parse(requestText).value;
      exists amount: real :: Request(lib, rate, requestText) == Some(Event(lib, PayloadValue(Strings(body), amount)))
                            && AsNum(lib, Get(body, "amount")) == Finite(amount)
  {
    var body := lib.parse(requestText).value;
    var p := Read(lib, body);
    assert Request(lib, rate, requestText) == Some(Event(lib, PayloadValue(Strings(body), p.amount.r)));
  }
}
