/** The rate-limit retry decorator of main.py (`handle_rate_limit`).

    The wrapped call is a script: `call(k)` is the outcome of the k-th call
    (counting from 0). An error whose lower-cased text mentions "rate limit" or
    "429" is retried after a wait; any other error is re-raised at once. The
    wait is recorded by its integer base `5 * 2^k`; the random jitter added to
    it and the sleep itself are not modelled. */
module RateLimit {
  import opened Wrappers
  import opened Strings

  const MaxRetries: nat := 5
  const RetryDelay: nat := 5
  const ExhaustedMessage: string := "Failed after 5 attempts due to rate limiting"

  /** The rate-limit markers the wrapper looks for in the lower-cased error text. */
  predicate IsRateLimit(message: string)
  {
    var e := Lower(message);
    Contains(e, "rate limit") || Contains(e, "429")
  }

  function Pow2(k: nat): (r: nat)
    ensures r >= 1
  {
    if k == 0 then 1 else 2 * Pow2(k - 1)
  }

  /** Base of the wait before the retry that follows failed attempt `k`. */
  function BaseWait(k: nat): nat
  {
    RetryDelay * Pow2(k)
  }

  /** What the wrapper did: its outcome, how many calls it made, the waits it took. */
  datatype Run<T> = Run(result: Outcome<T>, calls: nat, waits: seq<nat>)

  /** The wrapper's behaviour from attempt `attempt` on. */
  function RetryFrom<T>(call: nat -> Outcome<T>, attempt: nat): Run<T>
    decreases MaxRetries - attempt
  {
    if attempt >= MaxRetries then Run(Err(ExhaustedMessage), MaxRetries, [])
    else
      match call(attempt)
      case Ok(v) => Run(Ok(v), attempt + 1, [])
      case Err(m) =>
        if IsRateLimit(m) then
          var rest := RetryFrom(call, attempt + 1);
          Run(rest.result, rest.calls, [BaseWait(attempt)] + rest.waits)
        else Run(Err(m), attempt + 1, [])
  }

  /** The wrapper itself: a loop over the attempts. */
  method HandleRateLimit<T>(call: nat -> Outcome<T>) returns (result: Outcome<T>, calls: nat, waits: seq<nat>)
    ensures Run(result, calls, waits) == RetryFrom(call, 0)
  {
    waits := [];
    for attempt := 0 to MaxRetries
      invariant RetryFrom(call, 0) == Run(RetryFrom(call, attempt).result, RetryFrom(call, attempt).calls,
                                          waits + RetryFrom(call, attempt).waits)
    {
      var outcome := call(attempt);
      if outcome.Ok? {
        return outcome, attempt + 1, waits;
      }
      if !IsRateLimit(outcome.message) {
        return outcome, attempt + 1, waits;
      }
      waits := waits + [BaseWait(attempt)];
    }
    assert waits + [] == waits;
    return Err(ExhaustedMessage), MaxRetries, waits;
  }

  /** Every call before attempt `k` failed with a rate-limit error. */
  ghost predicate ThrottledBefore<T>(call: nat -> Outcome<T>, k: nat)
  {
    forall j :: 0 <= j < k ==> call(j).Err? && IsRateLimit(call(j).message)
  }

  /** The waits taken before attempt `k`: 5, 10, 20, ... */
  function WaitsBefore(k: nat): (r: seq<nat>)
    ensures |r| == k
    ensures forall j :: 0 <= j < k ==> r[j] == BaseWait(j)
  {
    if k == 0 then [] else WaitsBefore(k - 1) + [BaseWait(k - 1)]
  }

  lemma ConsAppend<X>(x: X, p: seq<X>, q: seq<X>)
    ensures [x] + (p + q) == ([x] + p) + q
  {
  }

  lemma WaitsFrom(k: nat, a: nat)
    requires a < k
    ensures WaitsBefore(k)[a..] == [BaseWait(a)] + WaitsBefore(k)[a + 1..]
  {
    var w := WaitsBefore(k);
    assert w[a..] == [w[a]] + w[a + 1..];
  }

  /** The wrapper's run from attempt `a` is decided by the first attempt `k >= a`
      that is not throttled (or by running out of attempts). */
  lemma {:induction false} RetryFromSkips<T>(call: nat -> Outcome<T>, a: nat, k: nat)
    requires a <= k <= MaxRetries
    requires forall j :: a <= j < k ==> call(j).Err? && IsRateLimit(call(j).message)
    ensures RetryFrom(call, a).result == RetryFrom(call, k).result
    ensures RetryFrom(call, a).calls == RetryFrom(call, k).calls
    ensures RetryFrom(call, a).waits == WaitsBefore(k)[a..] + RetryFrom(call, k).waits
    decreases k - a
  {
    if a < k {
      RetryFromSkips(call, a + 1, k);
      var rest := RetryFrom(call, a + 1);
      assert RetryFrom(call, a) == Run(rest.result, rest.calls, [BaseWait(a)] + rest.waits);
      WaitsFrom(k, a);
      ConsAppend(BaseWait(a), WaitsBefore(k)[a + 1..], RetryFrom(call, k).waits);
    }
  }

  /** The first successful call's value is returned, after one call per attempt so far
      and one wait per throttled attempt. */
  lemma ReturnsFirstSuccess<T>(call: nat -> Outcome<T>, k: nat)
    requires k < MaxRetries && ThrottledBefore(call, k) && call(k).Ok?
    ensures RetryFrom(call, 0) == Run(call(k), k + 1, WaitsBefore(k))
  {
    RetryFromSkips(call, 0, k);
  }

  /** An error without a rate-limit marker is re-raised unchanged; with no throttling
      before it, that happens after exactly one call and no wait. */
  lemma ReraisesOtherErrors<T>(call: nat -> Outcome<T>, k: nat)
    requires k < MaxRetries && ThrottledBefore(call, k)
    requires call(k).Err? && !IsRateLimit(call(k).message)
    ensures RetryFrom(call, 0) == Run(call(k), k + 1, WaitsBefore(k))
    ensures k == 0 ==> RetryFrom(call, 0).calls == 1 && RetryFrom(call, 0).waits == []
  {
    RetryFromSkips(call, 0, k);
  }

  /** Five throttled calls exhaust the wrapper: it raises its own error after
      five calls and five waits of base 5, 10, 20, 40 and 80 seconds. */
  lemma ExhaustsAfterFive<T>(call: nat -> Outcome<T>)
    requires ThrottledBefore(call, MaxRetries)
    ensures RetryFrom(call, 0) == Run(Err(ExhaustedMessage), 5, [5, 10, 20, 40, 80])
  {
    RetryFromSkips(call, 0, MaxRetries);
    assert WaitsBefore(5) == [5, 10, 20, 40, 80];
  }

  /** In every run from attempt `a`: at least one and at most five calls in all,
      and at most one wait per call. */
  lemma {:induction false} RunCallBounds<T>(call: nat -> Outcome<T>, a: nat)
    requires a <= MaxRetries
    ensures a <= RetryFrom(call, a).calls <= MaxRetries
    ensures a < MaxRetries ==> a < RetryFrom(call, a).calls
    ensures |RetryFrom(call, a).waits| <= RetryFrom(call, a).calls - a
    decreases MaxRetries - a
  {
    if a < MaxRetries {
      RunCallBounds(call, a + 1);
    }
  }

  /** The j-th wait of a run from attempt `a` has base 5 * 2^(a + j). */
  lemma {:induction false} RunWaits<T>(call: nat -> Outcome<T>, a: nat)
    requires a <= MaxRetries
    ensures forall j :: 0 <= j < |RetryFrom(call, a).waits| ==> RetryFrom(call, a).waits[j] == BaseWait(a + j)
    decreases MaxRetries - a
  {
    if a < MaxRetries && call(a).Err? && IsRateLimit(call(a).message) {
      RunWaits(call, a + 1);
      var w := RetryFrom(call, a).waits;
      var rest := RetryFrom(call, a + 1).waits;
      assert w == [BaseWait(a)] + rest;
      forall j | 0 <= j < |w| ensures w[j] == BaseWait(a + j) {
        if j > 0 { assert w[j] == rest[j - 1]; }
      }
    }
  }

  /** A returned value, or a re-raised error, is the outcome of the last call made;
      a re-raised error never carries a rate-limit marker. */
  lemma {:induction false} RunResultIsLastCall<T>(call: nat -> Outcome<T>, a: nat)
    requires a <= MaxRetries
    ensures var r := RetryFrom(call, a);
      r.result.Ok? || r.result.message != ExhaustedMessage ==>
        r.calls >= 1 && r.result == call(r.calls - 1) && (r.result.Err? ==> !IsRateLimit(r.result.message))
    decreases MaxRetries - a
  {
    if a < MaxRetries && call(a).Err? && IsRateLimit(call(a).message) {
      RunResultIsLastCall(call, a + 1);
      var rest := RetryFrom(call, a + 1);
      assert RetryFrom(call, a).result == rest.result && RetryFrom(call, a).calls == rest.calls;
    }
  }

  /** The exhaustion error is raised only when all five attempts were throttled. */
  lemma {:induction false} ExhaustedOnlyWhenThrottled<T>(call: nat -> Outcome<T>, a: nat)
    requires a <= MaxRetries
    requires forall j :: 0 <= j < MaxRetries ==> call(j) != Err(ExhaustedMessage)
    requires RetryFrom(call, a).result == Err(ExhaustedMessage)
    ensures forall j :: a <= j < MaxRetries ==> call(j).Err? && IsRateLimit(call(j).message)
    decreases MaxRetries - a
  {
    if a < MaxRetries {
      ExhaustedOnlyWhenThrottled(call, a + 1);
    }
  }
}
