/** The polling client (client/client.py): its constructor and the
    `wait_for_completion` loop.

    The remote status query and the wall clock are supplied as a trace: one
    `Observation` per query, holding the status string the server answered
    and the clock reading the loop takes right after it. `time.sleep` is not
    performed; the waits the loop would sleep are returned in order instead,
    together with the statuses handed to the callback. */
module Client {
  import opened Wrappers
  import Backoff
  import Config

  datatype TranslationClient = TranslationClient(
    baseUrl: string, initialInterval: real, maxInterval: real, backoffFactor: real)

  /** No `/` at the end of `s`. */
  predicate NoTrailingSlash(s: string)
  {
    |s| == 0 || s[|s| - 1] != '/'
  }

  /** Every character of `s` is `/`. */
  predicate AllSlashes(s: string)
  {
    forall i :: 0 <= i < |s| ==> s[i] == '/'
  }

  /** `s.rstrip('/')`: drop every trailing `/`. */
  function RStripSlashes(s: string): (r: string)
    ensures r <= s
    ensures NoTrailingSlash(r)
    ensures AllSlashes(s[|r|..])
    decreases |s|
  {
    if |s| > 0 && s[|s| - 1] == '/' then
      var r := RStripSlashes(s[..|s| - 1]);
      assert s[|r|..] == s[..|s| - 1][|r|..] + ['/'];
      r
    else
      s
  }

  /** The stripped string is the only prefix without a trailing `/` that is
      followed by nothing but `/`. */
  lemma RStripUnique(s: string, t: string)
    requires t <= s && NoTrailingSlash(t) && AllSlashes(s[|t|..])
    ensures t == RStripSlashes(s)
  {
  }

  /** Stripping twice is stripping once. */
  lemma RStripIdempotent(s: string)
    ensures RStripSlashes(RStripSlashes(s)) == RStripSlashes(s)
  {
  }

  /** `TranslationClient(base_url, ...)`: the base URL loses its trailing
      slashes; the interval settings are kept as given. */
  function NewClient(baseUrl: string, initialInterval: real, maxInterval: real, backoffFactor: real): (c: TranslationClient)
    ensures c.baseUrl <= baseUrl && NoTrailingSlash(c.baseUrl) && AllSlashes(baseUrl[|c.baseUrl|..])
    ensures c.initialInterval == initialInterval && c.maxInterval == maxInterval
    ensures c.backoffFactor == backoffFactor
  {
    TranslationClient(RStripSlashes(baseUrl), initialInterval, maxInterval, backoffFactor)
  }

  /** The wait that follows a wait of `cur` seconds. */
  function NextInterval(c: TranslationClient, cur: real): real
  {
    Backoff.Next(cur, c.backoffFactor, c.maxInterval)
  }

  /** A status that ends the loop. */
  predicate IsTerminal(status: string)
  {
    status == "completed" || status == "error"
  }

  /** Python truthiness of the `timeout` argument: `None` and `0` both
      switch the check off; any other value, negative ones included, arms it. */
  predicate TimeoutArmed(timeout: Option<real>)
  {
    timeout.Some? && timeout.value != 0.0
  }

  /** The loop's timeout test at clock reading `clock`. */
  predicate Expired(timeout: Option<real>, start: real, clock: real)
  {
    TimeoutArmed(timeout) && clock - start > timeout.value
  }

  /** One status query: the status answered and the clock read after it, or
      a query that raised (a transport failure or an HTTP error status). */
  datatype Observation = Reply(status: string, clock: real) | QueryFailed

  /** How the loop ended. `TraceExhausted` means it was still polling when
      the supplied trace ran out. */
  datatype Outcome =
    | Finished(status: string)
    | TimedOut(jobId: string)
    | QueryError
    | SleepError
    | TraceExhausted

  /** The loop's outcome, how many queries it made, the statuses it handed
      to the callback, and the waits it slept, each in order. */
  datatype Wait = Wait(outcome: Outcome, queries: nat, callbacks: seq<string>, sleeps: seq<real>)

  /** The statuses of the replies among `obs`, in order. */
  function Statuses(obs: seq<Observation>): seq<string>
  {
    if |obs| == 0 then []
    else (if obs[0].Reply? then [obs[0].status] else []) + Statuses(obs[1..])
  }

  /** The observation made after the i-th sleep let the loop go round again:
      a non-terminal reply before any armed timeout had expired. */
  predicate KeepsPolling(o: Observation, timeout: Option<real>, start: real)
  {
    o.Reply? && !IsTerminal(o.status) && !Expired(timeout, start, o.clock)
  }

  /** The wait due after the sleeps already made. */
  function DueInterval(c: TranslationClient, first: real, sleeps: seq<real>): real
  {
    if |sleeps| == 0 then first else NextInterval(c, sleeps[|sleeps| - 1])
  }

  /** The body of `wait_for_completion` from a given wait onwards. */
  function Poll(c: TranslationClient, jobId: string, notify: bool, timeout: Option<real>,
                start: real, interval: real, trace: seq<Observation>): (w: Wait)
    ensures w.queries <= |trace|
    ensures w.outcome.TraceExhausted? ==> w.queries == |trace| && |w.sleeps| == |trace|
    ensures !w.outcome.TraceExhausted? ==> 1 <= w.queries && |w.sleeps| == w.queries - 1
    ensures w.outcome.Finished? ==>
      trace[w.queries - 1].Reply? && trace[w.queries - 1].status == w.outcome.status
      && IsTerminal(w.outcome.status)
    ensures w.outcome.TimedOut? ==>
      w.outcome.jobId == jobId && trace[w.queries - 1].Reply?
      && !IsTerminal(trace[w.queries - 1].status) && Expired(timeout, start, trace[w.queries - 1].clock)
    ensures w.outcome.QueryError? ==> trace[w.queries - 1].QueryFailed?
    ensures w.outcome.SleepError? ==> KeepsPolling(trace[w.queries - 1], timeout, start)
    decreases |trace|
  {
    if |trace| == 0 then
      Wait(TraceExhausted, 0, [], [])
    else
      match trace[0]
      case QueryFailed =>
        Wait(QueryError, 1, [], [])
      case Reply(status, clock) =>
        var seen := if notify then [status] else [];
        if IsTerminal(status) then
          Wait(Finished(status), 1, seen, [])
        else if TimeoutArmed(timeout) && clock - start > timeout.value then
          Wait(TimedOut(jobId), 1, seen, [])
        else if interval < 0.0 then
          Wait(SleepError, 1, seen, [])
        else
          var rest := Poll(c, jobId, notify, timeout, start, NextInterval(c, interval), trace[1..]);
          assert 0 < rest.queries ==> trace[rest.queries] == trace[1..][rest.queries - 1];
          Wait(rest.outcome, rest.queries + 1, seen + rest.callbacks, [interval] + rest.sleeps)
  }

  /** Every sleep follows an observation that let the loop go on, and no
      sleep is negative. */
  lemma {:induction false} PollSleepsAfterPending(c: TranslationClient, jobId: string, notify: bool,
                                                  timeout: Option<real>, start: real, interval: real,
                                                  trace: seq<Observation>)
    ensures var w := Poll(c, jobId, notify, timeout, start, interval, trace);
      forall i :: 0 <= i < |w.sleeps| ==> KeepsPolling(trace[i], timeout, start) && 0.0 <= w.sleeps[i]
    decreases |trace|
  {
    if 0 < |trace| && KeepsPolling(trace[0], timeout, start) && 0.0 <= interval {
      var next := NextInterval(c, interval);
      PollSleepsAfterPending(c, jobId, notify, timeout, start, next, trace[1..]);
      var rest := Poll(c, jobId, notify, timeout, start, next, trace[1..]);
      var w := Poll(c, jobId, notify, timeout, start, interval, trace);
      assert w.sleeps == [interval] + rest.sleeps;
      forall i | 0 < i < |w.sleeps|
        ensures KeepsPolling(trace[i], timeout, start) && 0.0 <= w.sleeps[i]
      {
        assert trace[i] == trace[1..][i - 1];
      }
    }
  }

  /** The first sleep is the starting interval and each later one is the
      backoff step of the one before. */
  lemma {:induction false} PollSleepsStep(c: TranslationClient, jobId: string, notify: bool,
                                          timeout: Option<real>, start: real, interval: real,
                                          trace: seq<Observation>)
    ensures var w := Poll(c, jobId, notify, timeout, start, interval, trace);
      && (0 < |w.sleeps| ==> w.sleeps[0] == interval)
      && (forall i :: 0 < i < |w.sleeps| ==> w.sleeps[i] == NextInterval(c, w.sleeps[i - 1]))
    decreases |trace|
  {
    if 0 < |trace| && KeepsPolling(trace[0], timeout, start) && 0.0 <= interval {
      var next := NextInterval(c, interval);
      PollSleepsStep(c, jobId, notify, timeout, start, next, trace[1..]);
      var rest := Poll(c, jobId, notify, timeout, start, next, trace[1..]);
      var w := Poll(c, jobId, notify, timeout, start, interval, trace);
      assert w.sleeps == [interval] + rest.sleeps;
    }
  }

  /** A sleep the runtime rejects was due with a negative length. */
  lemma {:induction false} PollSleepErrorDue(c: TranslationClient, jobId: string, notify: bool,
                                             timeout: Option<real>, start: real, interval: real,
                                             trace: seq<Observation>)
    ensures var w := Poll(c, jobId, notify, timeout, start, interval, trace);
      w.outcome.SleepError? ==> DueInterval(c, interval, w.sleeps) < 0.0
    decreases |trace|
  {
    if 0 < |trace| && KeepsPolling(trace[0], timeout, start) && 0.0 <= interval {
      var next := NextInterval(c, interval);
      PollSleepErrorDue(c, jobId, notify, timeout, start, next, trace[1..]);
      var rest := Poll(c, jobId, notify, timeout, start, next, trace[1..]);
      var w := Poll(c, jobId, notify, timeout, start, interval, trace);
      assert w.sleeps == [interval] + rest.sleeps;
      if w.outcome.SleepError? && 0 < |rest.sleeps| {
        assert w.sleeps[|w.sleeps| - 1] == rest.sleeps[|rest.sleeps| - 1];
      }
    }
  }

  /** With a callback, it receives every status the loop observed, the
      final one included, in query order; without one, nothing is recorded. */
  lemma {:induction false} PollCallbacks(c: TranslationClient, jobId: string, notify: bool, timeout: Option<real>,
                                         start: real, interval: real, trace: seq<Observation>)
    ensures var w := Poll(c, jobId, notify, timeout, start, interval, trace);
      w.callbacks == (if notify then Statuses(trace[..w.queries]) else [])
    decreases |trace|
  {
    var w := Poll(c, jobId, notify, timeout, start, interval, trace);
    if 0 < |trace| {
      if KeepsPolling(trace[0], timeout, start) && 0.0 <= interval {
        var next := NextInterval(c, interval);
        PollCallbacks(c, jobId, notify, timeout, start, next, trace[1..]);
        var rest := Poll(c, jobId, notify, timeout, start, next, trace[1..]);
        var seen := if notify then [trace[0].status] else [];
        assert w.queries == rest.queries + 1 && w.callbacks == seen + rest.callbacks;
        var prefix := trace[..w.queries];
        assert prefix[0] == trace[0] && prefix[1..] == trace[1..][..rest.queries];
      } else {
        assert trace[..w.queries] == [trace[0]];
      }
    }
  }

  /** `wait_for_completion(job_id, callback, timeout)` started at clock
      reading `start`; `notify` says whether a callback was given. */
  function WaitForCompletion(c: TranslationClient, jobId: string, notify: bool, timeout: Option<real>,
                             start: real, trace: seq<Observation>): (w: Wait)
    ensures forall i :: 0 <= i < |w.sleeps| ==>
      w.sleeps[i] == Backoff.IntervalAt(c.initialInterval, c.backoffFactor, c.maxInterval, i)
    ensures forall i :: 0 < i < |w.sleeps| ==> w.sleeps[i] <= c.maxInterval
    ensures w.outcome.Finished? ==> IsTerminal(w.outcome.status)
    ensures !TimeoutArmed(timeout) ==> !w.outcome.TimedOut?
    ensures w.outcome.Finished? ==> w.queries == |w.sleeps| + 1
  {
    var w := Poll(c, jobId, notify, timeout, start, c.initialInterval, trace);
    PollSleepsStep(c, jobId, notify, timeout, start, c.initialInterval, trace);
    SleepsFollowSchedule(c, w.sleeps, |w.sleeps|);
    w
  }

  /** Waits that start at the first interval and follow the backoff step are
      exactly the schedule. */
  lemma {:induction false} SleepsFollowSchedule(c: TranslationClient, sleeps: seq<real>, n: nat)
    requires n <= |sleeps|
    requires 0 < |sleeps| ==> sleeps[0] == c.initialInterval
    requires forall i :: 0 < i < |sleeps| ==> sleeps[i] == NextInterval(c, sleeps[i - 1])
    ensures forall i :: 0 <= i < n ==>
      sleeps[i] == Backoff.IntervalAt(c.initialInterval, c.backoffFactor, c.maxInterval, i)
    ensures forall i :: 0 < i < n ==> sleeps[i] <= c.maxInterval
  {
    if n > 0 {
      SleepsFollowSchedule(c, sleeps, n - 1);
    }
  }

  /** Settings under which every wait the loop computes is non-negative. */
  predicate NonNegativeSettings(c: TranslationClient)
  {
    0.0 <= c.initialInterval && 0.0 <= c.backoffFactor && 0.0 <= c.maxInterval
  }

  /** The outcome of the loop's last iteration, read off the observation
      that stopped it. */
  function StopOutcome(o: Observation, jobId: string): Outcome
  {
    match o
    case QueryFailed => QueryError
    case Reply(status, _) => if IsTerminal(status) then Finished(status) else TimedOut(jobId)
  }

  /** With non-negative waits, the loop stops at the first observation that
      does not let it go on, after exactly that many queries, and how it ends
      is decided by that observation alone. */
  lemma {:induction false} PollStopsAtFirstStop(c: TranslationClient, jobId: string, notify: bool,
                                                timeout: Option<real>, start: real, interval: real,
                                                trace: seq<Observation>, k: nat)
    requires 0.0 <= interval && 0.0 <= c.backoffFactor && 0.0 <= c.maxInterval
    requires k < |trace|
    requires forall i :: 0 <= i < k ==> KeepsPolling(trace[i], timeout, start)
    requires !KeepsPolling(trace[k], timeout, start)
    ensures Poll(c, jobId, notify, timeout, start, interval, trace).queries == k + 1
    ensures Poll(c, jobId, notify, timeout, start, interval, trace).outcome == StopOutcome(trace[k], jobId)
    decreases k
  {
    if k > 0 {
      var next := NextInterval(c, interval);
      Backoff.NextNonNegative(interval, c.backoffFactor, c.maxInterval);
      forall i | 0 <= i < k - 1
        ensures KeepsPolling(trace[1..][i], timeout, start)
      {
        assert trace[1..][i] == trace[i + 1];
      }
      PollStopsAtFirstStop(c, jobId, notify, timeout, start, next, trace[1..], k - 1);
    }
  }

  /** With non-negative waits and an armed timeout, the loop has stopped by
      the first reply whose clock reading is past the deadline. */
  lemma {:induction false} TimeoutBoundsQueries(c: TranslationClient, jobId: string, notify: bool,
                                                timeout: Option<real>, start: real, interval: real,
                                                trace: seq<Observation>, k: nat)
    requires 0.0 <= interval && 0.0 <= c.backoffFactor && 0.0 <= c.maxInterval
    requires k < |trace| && trace[k].Reply? && Expired(timeout, start, trace[k].clock)
    ensures var w := Poll(c, jobId, notify, timeout, start, interval, trace);
      w.queries <= k + 1 && !w.outcome.TraceExhausted? && !w.outcome.SleepError?
    decreases k
  {
    if KeepsPolling(trace[0], timeout, start) {
      assert k > 0;
      Backoff.NextNonNegative(interval, c.backoffFactor, c.maxInterval);
      TimeoutBoundsQueries(c, jobId, notify, timeout, start, NextInterval(c, interval), trace[1..], k - 1);
    }
  }

  /** `wait_for_completion` as a whole: it ends on the first observation that
      does not let it go on; a normal return carries the first terminal
      status after one more query than sleeps; the callback sees every
      observed status in order; a timeout follows a non-terminal reply past an
      armed deadline; the waits follow the capped backoff schedule. */
  lemma WaitForCompletionContract(c: TranslationClient, jobId: string, notify: bool, timeout: Option<real>,
                                  start: real, trace: seq<Observation>)
    ensures var w := WaitForCompletion(c, jobId, notify, timeout, start, trace);
      && (w.outcome.Finished? ==>
            && w.queries == |w.sleeps| + 1
            && trace[w.queries - 1] == Reply(w.outcome.status, trace[w.queries - 1].clock)
            && IsTerminal(w.outcome.status)
            && forall i :: 0 <= i < w.queries - 1 ==> trace[i].Reply? && !IsTerminal(trace[i].status))
      && (w.outcome.TimedOut? ==>
            && TimeoutArmed(timeout)
            && trace[w.queries - 1].Reply? && !IsTerminal(trace[w.queries - 1].status)
            && trace[w.queries - 1].clock - start > timeout.value)
      && w.callbacks == (if notify then Statuses(trace[..w.queries]) else [])
  {
    var w := WaitForCompletion(c, jobId, notify, timeout, start, trace);
    PollSleepsAfterPending(c, jobId, notify, timeout, start, c.initialInterval, trace);
    PollCallbacks(c, jobId, notify, timeout, start, c.initialInterval, trace);
  }

  /** The client built from the shipped defaults has well-formed backoff
      settings, so its waits never shrink. */
  function DefaultClient(baseUrl: string): (c: TranslationClient)
    ensures c.baseUrl == RStripSlashes(baseUrl)
    ensures Backoff.WellFormed(c.initialInterval, c.backoffFactor, c.maxInterval)
    ensures NonNegativeSettings(c)
  {
    NewClient(baseUrl, Config.InitialInterval, Config.MaxInterval, Config.BackoffFactor)
  }

  /** Under well-formed settings the waits the loop sleeps never shrink and
      never exceed the cap. */
  lemma WaitSleepsNonDecreasing(c: TranslationClient, jobId: string, notify: bool, timeout: Option<real>,
                                start: real, trace: seq<Observation>, i: nat, j: nat)
    requires Backoff.WellFormed(c.initialInterval, c.backoffFactor, c.maxInterval)
    requires i <= j < |WaitForCompletion(c, jobId, notify, timeout, start, trace).sleeps|
    ensures var w := WaitForCompletion(c, jobId, notify, timeout, start, trace);
      w.sleeps[i] <= w.sleeps[j] <= c.maxInterval
  {
    Backoff.IntervalsMonotone(c.initialInterval, c.backoffFactor, c.maxInterval, i, j);
    Backoff.IntervalInRange(c.initialInterval, c.backoffFactor, c.maxInterval, j);
  }
}
