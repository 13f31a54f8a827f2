/**
 * What the route handlers exchange with the outside: the JSON response they
 * build, a Lambda invocation's outcome and an SSM parameter lookup.
 */
module Http {
  import opened Js

  /**
   * A route's answer: `NextResponse.json(body, { status, headers })`, or an
   * exception the handler does not catch (the framework then answers 500).
   */
  datatype Reply =
    | Reply(status: int, body: Value, headers: map<string, string>)
    | Unhandled

  /**
   * `lambda.send(new InvokeCommand(...))`: it throws, or it yields the
   * `StatusCode`, the `FunctionError` ("" when absent) and the payload bytes
   * decoded as UTF-8 text ("" when absent).
   */
  datatype Invocation =
    | Threw(message: string)
    | Returned(statusCode: Option<int>, functionError: string, payload: string)

  /** `ssm.send(new GetParameterCommand(...))`: it throws, or yields `Parameter?.Value`. */
  datatype SsmReply = SsmFailed | SsmValue(value: Option<string>)

  /** The answer every rate-limited route gives: `{ message }`, status 429 and a `Retry-After` header. */
  function TooManyRequests(retryAfter: string): (r: Reply)
    ensures r.Reply? && r.status == 429 && r.headers == map["Retry-After" := retryAfter]
  {
    Reply(429, Obj(map["message" := Str("Too many requests. Please slow down.")]), map["Retry-After" := retryAfter])
  }

  /** `NextResponse.json(body, { status })` with no extra headers. */
  function Json(status: int, body: Value): (r: Reply)
    ensures r.Reply? && r.status == status && r.body == body && r.headers == map[]
  {
    Reply(status, body, map[])
  }

  /**
   * The messages of the two exceptions the response constructor can throw
   * for a status: the RangeError for one outside 200..599 and the TypeError
   * for a null-body status given together with a body.
   */
  datatype StatusErrors = StatusErrors(range: string, nullBody: string)

  /** The statuses a response may not carry a body with. */
  predicate NullBodyStatus(s: int)
  {
    s == 204 || s == 205 || s == 304
  }

  /** WebIDL's unsigned-short conversion of a status: NaN and infinities become 0, the rest is truncated modulo 2^16. */
  function StatusShort(n: Number): (s: int)
    ensures 0 <= s < 65536
  {
    if n.Finite? then Truncate(n.r) % 65536 else 0
  }

  /**
   * The status of `NextResponse.json(body, { status: n })`: the body is
   * always present (JSON text), so the constructor throws (None) unless the
   * converted status lies in 200..599 and is not a null-body status.
   */
  function ResponseStatus(n: Number): (r: Option<int>)
    ensures r.Some? <==> 200 <= StatusShort(n) <= 599 && !NullBodyStatus(StatusShort(n))
    ensures r.Some? ==> r.value == StatusShort(n)
  {
    var s := StatusShort(n);
    if 200 <= s <= 599 && !NullBodyStatus(s) then Some(s) else None
  }

  /** The message of the exception a refused status raises: the TypeError for a null-body status, else the RangeError. */
  function StatusErrorMessage(errors: StatusErrors, n: Number): (m: string)
    ensures NullBodyStatus(StatusShort(n)) ==> m == errors.nullBody
    ensures !NullBodyStatus(StatusShort(n)) ==> m == errors.range
  {
    if NullBodyStatus(StatusShort(n)) then errors.nullBody else errors.range
  }

  /** An integral status in 200..599 that may carry a body is used as given. */
  lemma ResponseStatusKeepsValid(k: int)
    requires 200 <= k <= 599 && !NullBodyStatus(k)
    ensures ResponseStatus(Finite(k as real)) == Some(k)
  {
    assert Truncate(k as real) == k;
  }

  /** Integral statuses outside 200..599 (below 2^16) make the constructor throw its RangeError. */
  lemma ResponseStatusRejects(k: int, errors: StatusErrors)
    requires 0 <= k < 65536 && !(200 <= k <= 599)
    ensures ResponseStatus(Finite(k as real)) == None
    ensures StatusErrorMessage(errors, Finite(k as real)) == errors.range
  {
    assert Truncate(k as real) == k;
  }

  /** 204, 205 and 304 make the constructor throw its TypeError, because a JSON body is always present. */
  lemma NullBodyStatusRejected(k: int, errors: StatusErrors)
    requires NullBodyStatus(k)
    ensures ResponseStatus(Finite(k as real)) == None
    ensures StatusErrorMessage(errors, Finite(k as real)) == errors.nullBody
  {
    assert Truncate(k as real) == k;
  }
}
