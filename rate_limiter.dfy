/**
 * lib/rateLimiter.ts: a process-wide limiter of 2 points per 1-second window
 * per client key, and the `{ allowed, remaining, retryAfter }` record every
 * route checks before doing any work.
 */
module RateLimiter {
  import opened Text
  import opened Js

  /** `points: 2` (the "5 requests" remark beside it in the source is stale). */
  const Points: nat := 2
  /** `duration: 1` second. */
  const DurationMs: nat := 1000

  /** The part of `x-forwarded-for` before its first comma. */
  function FirstForwarded(header: string): string
  {
    Split(header, ',')[0]
  }

  /**
   * The client key: the trimmed first element of `x-forwarded-for`, else a
   * non-empty `req.ip`, else "anonymous".
   */
  function ClientKey(forwardedFor: Option<string>, ip: Option<string>): (key: string)
    ensures key != ""
  {
    var first := if forwardedFor.Some? then Trim(FirstForwarded(forwardedFor.value)) else "";
    if first != "" then first
    else if ip.Some? && ip.value != "" then ip.value
    else "anonymous"
  }

  /** A forwarded-for header whose first element is not blank decides the key: that element, trimmed, with no comma in it. */
  lemma ClientKeyFromForwarded(header: string, ip: Option<string>)
    requires !IsBlank(FirstForwarded(header))
    ensures var key := ClientKey(Some(header), ip);
      && IsTrimmed(key) && ',' !in key
      && StartsWith(header, FirstForwarded(header))
      && (|FirstForwarded(header)| == |header| || header[|FirstForwarded(header)|] == ',')
  {
    SplitFirstPart(header, ',');
    TrimKeepsAbsent(FirstForwarded(header), ',');
  }

  /** Without a usable forwarded-for element or ip the key is the shared "anonymous" bucket. */
  lemma ClientKeyAnonymous(forwardedFor: Option<string>, ip: Option<string>)
    requires forwardedFor.None? || IsBlank(FirstForwarded(forwardedFor.value))
    requires ip.None? || ip.value == ""
    ensures ClientKey(forwardedFor, ip) == "anonymous"
  {
  }

  /** One key's fixed window: when it ends and how many points were consumed in it. */
  datatype Window = Window(expiresAtMs: int, consumed: nat)

  /** What `limiter.consume(key)` does: resolves, rejects with a limiter result, or throws something else. */
  datatype ConsumeOutcome =
    | Admitted(remainingPoints: nat)
    | Rejected(msBeforeNext: int)
    | Failed

  /** The record `applyRateLimit` returns; `retryAfter` is None when it is NaN. */
  datatype RateResult = RateResult(allowed: bool, remaining: int, retryAfter: Option<int>)

  /** The window after one more consume at `nowMs`: a new window when there is none or it has ended. */
  function NextWindow(w: Option<Window>, nowMs: int): (r: Window)
    ensures r.expiresAtMs > nowMs && r.consumed >= 1
  {
    if w.None? || w.value.expiresAtMs <= nowMs then Window(nowMs + DurationMs, 1)
    else Window(w.value.expiresAtMs, w.value.consumed + 1)
  }

  /** The answer of a consume that left the window `w`. */
  function Verdict(w: Window, nowMs: int): (o: ConsumeOutcome)
    requires w.expiresAtMs > nowMs
    ensures o.Admitted? <==> w.consumed <= Points
    ensures o.Admitted? ==> o.remainingPoints == Points - w.consumed
    ensures o.Rejected? ==> 0 < o.msBeforeNext <= w.expiresAtMs - nowMs
  {
    if w.consumed <= Points then Admitted(Points - w.consumed) else Rejected(w.expiresAtMs - nowMs)
  }

  /** Shapes the consume outcome into the route-facing record. */
  function Shape(o: ConsumeOutcome): (r: RateResult)
    ensures r.allowed <==> o.Admitted?
    ensures o.Admitted? ==> r.remaining == o.remainingPoints && r.retryAfter == Some(0)
    ensures !o.Admitted? ==> r.remaining == 0
    ensures o.Rejected? ==>
      r.retryAfter.Some? && (r.retryAfter.value - 1) * 1000 < o.msBeforeNext <= r.retryAfter.value * 1000
    ensures o.Failed? ==> r.retryAfter.None?
  {
    match o
    case Admitted(rem) => RateResult(true, rem, Some(0))
    case Rejected(ms) => RateResult(false, 0, Some(CeilDiv(ms, 1000)))
    case Failed => RateResult(false, 0, None)
  }

  /** A rejection with time left on the window always asks the client to wait at least one second. */
  lemma RetryAfterPositive(ms: int)
    requires ms > 0
    ensures Shape(Rejected(ms)).retryAfter.Some? && Shape(Rejected(ms)).retryAfter.value > 0
  {
  }

  /** The `Retry-After` header text, `String(retryAfter)`. */
  function RetryAfterHeader(r: RateResult): string
  {
    if r.retryAfter.Some? then IntToString(r.retryAfter.value) else "NaN"
  }

  /** Consumes, one after the other, at the instants `times`, and answers each. */
  function Run(w: Option<Window>, times: seq<int>): (outs: seq<ConsumeOutcome>)
    ensures |outs| == |times|
    decreases |times|
  {
    if times == [] then []
    else
      var next := NextWindow(w, times[0]);
      [Verdict(next, times[0])] + Run(Some(next), times[1..])
  }

  function CountAdmitted(outs: seq<ConsumeOutcome>): nat
  {
    if outs == [] then 0 else (if outs[0].Admitted? then 1 else 0) + CountAdmitted(outs[1..])
  }

  /**
   * Within one window a key is admitted at most `Points` times: the calls
   * made while the window `w` (with `w.consumed` points already used) is
   * open add at most `Points - w.consumed` admissions.
   */
  lemma {:induction false} AdmissionsWithinWindow(w: Window, times: seq<int>)
    requires forall i :: 0 <= i < |times| ==> times[i] < w.expiresAtMs
    ensures CountAdmitted(Run(Some(w), times)) <= if w.consumed >= Points then 0 else Points - w.consumed
    decreases |times|
  {
    if times != [] {
      var next := NextWindow(Some(w), times[0]);
      assert next == Window(w.expiresAtMs, w.consumed + 1);
      AdmissionsWithinWindow(next, times[1..]);
    }
  }

  /** A fresh window opened at `t0` admits at most `Points` calls made before it ends. */
  lemma AtMostPointsPerWindow(t0: int, times: seq<int>)
    requires forall i :: 0 <= i < |times| ==> t0 <= times[i] < t0 + DurationMs
    ensures CountAdmitted(Run(None, [t0] + times)) <= Points
  {
    var w := NextWindow(None, t0);
    assert ([t0] + times)[1..] == times;
    AdmissionsWithinWindow(w, times);
  }

  function WindowOf(windows: map<string, Window>, key: string): Option<Window>
  {
    if key in windows then Some(windows[key]) else None
  }

  /** The module-level `RateLimiterMemory`: one fixed window per client key. */
  class Limiter {
    var windows: map<string, Window>

    constructor()
      ensures windows == map[]
    {
      windows := map[];
    }

    /** `limiter.consume(key)` at `nowMs`. */
    method Consume(key: string, nowMs: int) returns (o: ConsumeOutcome)
      modifies this
      ensures windows == old(windows)[key := NextWindow(WindowOf(old(windows), key), nowMs)]
      ensures o == Verdict(windows[key], nowMs)
      ensures o.Admitted? ==> windows[key].consumed <= Points
    {
      var w := NextWindow(WindowOf(windows, key), nowMs);
      windows := windows[key := w];
      o := Verdict(w, nowMs);
    }

    /** `applyRateLimit(req)`: derive the client key, consume one point, shape the outcome. */
    method Apply(forwardedFor: Option<string>, ip: Option<string>, nowMs: int) returns (r: RateResult)
      modifies this
      ensures var key := ClientKey(forwardedFor, ip);
        var w := NextWindow(WindowOf(old(windows), key), nowMs);
        && windows == old(windows)[key := w]
        && r == Shape(Verdict(w, nowMs))
    {
      var key := ClientKey(forwardedFor, ip);
      var o := Consume(key, nowMs);
      r := Shape(o);
    }
  }
}
