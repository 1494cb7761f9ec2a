/** The crawl-job poll loop of main.py (`FirecrawlClient.wait_for_crawl_job`).

    `status(k)` is the outcome of the k-th status request (already passed
    through the rate-limit wrapper). The delay is a Python float that starts at
    `initial_delay` and grows by half after each "processing"/"queued" reply,
    capped at 10 seconds; Dafny's exact `real` arithmetic stands in for it.
    Each sleep is recorded instead of being performed. */
module CrawlPoll {
  import opened Wrappers
  import opened Json

  const DelayCap: real := 10.0

  function TimeoutMessage(jobId: string): string
  {
    "Timed out waiting for crawl job " + jobId + " to complete"
  }

  function Min(a: real, b: real): real { if a <= b then a else b }
  function Max(a: real, b: real): real { if a >= b then a else b }

  /** How one status reply is handled. */
  datatype Verdict =
    | Completed  // status "completed": returned
    | Pending    // status "processing" or "queued": sleep, grow the delay, count
    | Broken     // request error, non-object reply, "failed" or any other status: caught, sleep, count

  function Classify(reply: Outcome<Json>): Verdict
  {
    match reply
    case Err(_) => Broken
    case Ok(r) =>
      if !r.JObj? then Broken
      else
        var s := Get(r, "status");
        if s == JStr("completed") then Completed
        else if s == JStr("processing") || s == JStr("queued") then Pending
        else Broken
  }

  /** The poll's outcome, the number of status requests it made, and its sleeps. */
  datatype Poll = Poll(result: Outcome<Json>, checks: nat, sleeps: seq<real>)

  /** The loop's behaviour from `count` requests made with the current delay `delay`. */
  function PollFrom(status: nat -> Outcome<Json>, jobId: string, maxRetries: int, count: nat, delay: real): Poll
    decreases maxRetries - count
  {
    if count >= maxRetries then Poll(Err(TimeoutMessage(jobId)), count, [])
    else
      match Classify(status(count))
      case Completed => Poll(status(count), count + 1, [])
      case Pending =>
        var rest := PollFrom(status, jobId, maxRetries, count + 1, Min(delay * 1.5, DelayCap));
        Poll(rest.result, rest.checks, [delay] + rest.sleeps)
      case Broken =>
        var rest := PollFrom(status, jobId, maxRetries, count + 1, delay);
        Poll(rest.result, rest.checks, [delay] + rest.sleeps)
  }

  method WaitForCrawlJob(status: nat -> Outcome<Json>, jobId: string, maxRetries: int, initialDelay: real)
    returns (result: Outcome<Json>, checks: nat, sleeps: seq<real>)
    ensures Poll(result, checks, sleeps) == PollFrom(status, jobId, maxRetries, 0, initialDelay)
  {
    var retryCount: nat := 0;
    var delay := initialDelay;
    sleeps := [];
    while retryCount < maxRetries
      invariant PollFrom(status, jobId, maxRetries, 0, initialDelay)
             == After(sleeps, PollFrom(status, jobId, maxRetries, retryCount, delay))
      decreases maxRetries - retryCount
    {
      var reply := status(retryCount);
      var verdict := Classify(reply);
      if verdict == Completed {
        return reply, retryCount + 1, sleeps;
      }
      PollNext(status, jobId, maxRetries, retryCount, delay, sleeps);
      if verdict == Pending {
        sleeps := sleeps + [delay];
        delay := Min(delay * 1.5, DelayCap);
        retryCount := retryCount + 1;
      } else {
        retryCount := retryCount + 1;
        sleeps := sleeps + [delay];
      }
    }
    assert After(sleeps, Poll(Err(TimeoutMessage(jobId)), retryCount, [])).sleeps == sleeps;
    return Err(TimeoutMessage(jobId)), retryCount, sleeps;
  }

  /** The poll `p`, preceded by the sleeps `earlier`. */
  function After(earlier: seq<real>, p: Poll): Poll
  {
    Poll(p.result, p.checks, earlier + p.sleeps)
  }

  /** A reply that does not complete the job costs one sleep at the current delay and
      moves on to the next request. */
  lemma PollNext(status: nat -> Outcome<Json>, jobId: string, maxRetries: int, count: nat, delay: real, earlier: seq<real>)
    requires count < maxRetries && Classify(status(count)) != Completed
    ensures var next := if Classify(status(count)) == Pending then Min(delay * 1.5, DelayCap) else delay;
      After(earlier, PollFrom(status, jobId, maxRetries, count, delay))
        == After(earlier + [delay], PollFrom(status, jobId, maxRetries, count + 1, next))
  {
    var next := if Classify(status(count)) == Pending then Min(delay * 1.5, DelayCap) else delay;
    var rest := PollFrom(status, jobId, maxRetries, count + 1, next);
    assert PollFrom(status, jobId, maxRetries, count, delay) == Poll(rest.result, rest.checks, [delay] + rest.sleeps);
    assert earlier + ([delay] + rest.sleeps) == (earlier + [delay]) + rest.sleeps;
  }

  /** No reply before request `k` completed the job. */
  ghost predicate NoneCompletedBefore(status: nat -> Outcome<Json>, k: nat)
  {
    forall j :: 0 <= j < k ==> Classify(status(j)) != Completed
  }

  /** The first completed reply, at request `k`, is what the poll returns, after k + 1
      requests and one sleep for each earlier reply. */
  lemma {:induction false} ReturnsFirstCompleted(status: nat -> Outcome<Json>, jobId: string, maxRetries: int,
                                                 count: nat, delay: real, k: nat)
    requires count <= k < maxRetries
    requires forall j :: count <= j < k ==> Classify(status(j)) != Completed
    requires Classify(status(k)) == Completed
    ensures PollFrom(status, jobId, maxRetries, count, delay).result == status(k)
    ensures PollFrom(status, jobId, maxRetries, count, delay).checks == k + 1
    ensures |PollFrom(status, jobId, maxRetries, count, delay).sleeps| == k - count
    decreases k - count
  {
    if count < k {
      var next := if Classify(status(count)) == Pending then Min(delay * 1.5, DelayCap) else delay;
      ReturnsFirstCompleted(status, jobId, maxRetries, count + 1, next, k);
    }
  }

  /** When no reply completes the job, the poll makes `maxRetries` requests, sleeps after
      each, and raises the timeout: a "failed" or unknown status is not terminal. */
  lemma {:induction false} TimesOutWithoutCompletion(status: nat -> Outcome<Json>, jobId: string, maxRetries: int,
                                                     count: nat, delay: real)
    requires forall j :: count <= j < maxRetries ==> Classify(status(j)) != Completed
    ensures PollFrom(status, jobId, maxRetries, count, delay).result == Err(TimeoutMessage(jobId))
    ensures PollFrom(status, jobId, maxRetries, count, delay).checks == if count < maxRetries then maxRetries else count
    ensures |PollFrom(status, jobId, maxRetries, count, delay).sleeps| == if count < maxRetries then maxRetries - count else 0
    decreases maxRetries - count
  {
    if count < maxRetries {
      var next := if Classify(status(count)) == Pending then Min(delay * 1.5, DelayCap) else delay;
      TimesOutWithoutCompletion(status, jobId, maxRetries, count + 1, next);
    }
  }

  /** Whatever the replies, the poll makes at most `maxRetries` requests, returns only a
      reply whose status is "completed", and otherwise raises only the timeout. */
  lemma {:induction false} PollShape(status: nat -> Outcome<Json>, jobId: string, maxRetries: int, count: nat, delay: real)
    ensures var p := PollFrom(status, jobId, maxRetries, count, delay);
      && (count < maxRetries ==> count < p.checks <= maxRetries)
      && (p.result.Ok? ==> p.result == status(p.checks - 1)
                           && p.result.value.JObj? && Get(p.result.value, "status") == JStr("completed"))
      && (p.result.Err? ==> p.result == Err(TimeoutMessage(jobId)))
    decreases maxRetries - count
  {
    if count < maxRetries {
      var next := if Classify(status(count)) == Pending then Min(delay * 1.5, DelayCap) else delay;
      PollShape(status, jobId, maxRetries, count + 1, next);
    }
  }

  /** Every sleep lasts at most max(initial delay, 10) seconds. */
  lemma {:induction false} SleepsBounded(status: nat -> Outcome<Json>, jobId: string, maxRetries: int,
                                         count: nat, delay: real, bound: real)
    requires delay <= bound && DelayCap <= bound
    ensures forall j :: 0 <= j < |PollFrom(status, jobId, maxRetries, count, delay).sleeps| ==>
              PollFrom(status, jobId, maxRetries, count, delay).sleeps[j] <= bound
    decreases maxRetries - count
  {
    if count < maxRetries && Classify(status(count)) != Completed {
      var next := if Classify(status(count)) == Pending then Min(delay * 1.5, DelayCap) else delay;
      SleepsBounded(status, jobId, maxRetries, count + 1, next, bound);
      var s := PollFrom(status, jobId, maxRetries, count, delay).sleeps;
      var rest := PollFrom(status, jobId, maxRetries, count + 1, next).sleeps;
      assert s == [delay] + rest;
      forall j | 0 <= j < |s| ensures s[j] <= bound {
        if j > 0 { assert s[j] == rest[j - 1]; }
      }
    }
  }

  lemma SleepsAtMostCap(status: nat -> Outcome<Json>, jobId: string, maxRetries: int, initialDelay: real)
    ensures forall j :: 0 <= j < |PollFrom(status, jobId, maxRetries, 0, initialDelay).sleeps| ==>
              PollFrom(status, jobId, maxRetries, 0, initialDelay).sleeps[j] <= Max(initialDelay, DelayCap)
  {
    SleepsBounded(status, jobId, maxRetries, 0, initialDelay, Max(initialDelay, DelayCap));
  }
}
