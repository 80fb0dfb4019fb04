/** The client polling the server's registry: the status strings the client
    observes are the wire names of the statuses the server's queries return,
    and an unknown job surfaces to the client as a failed query. */
module EndToEnd {
  import opened Wrappers
  import opened Server
  import opened Client

  /** One poll: the server's clock and error draw for the query, and the
      client's clock reading taken after the reply. */
  datatype Tick = Tick(serverNow: real, draw: real, clientNow: real)

  /** The reply the client sees for one server answer; an HTTP error makes
      the client's query raise. */
  function Observe(reply: Reply, clientNow: real): Observation
  {
    match reply
    case Status(st) => Reply(WireName(st), clientNow)
    case HttpError(_, _) => QueryFailed
  }

  /** The observations of `|ticks|` consecutive status queries for `id`,
      each applied to the registry the previous one left behind. */
  function Serve(s: TranslationServer, id: string, ticks: seq<Tick>): (obs: seq<Observation>)
    ensures |obs| == |ticks|
    ensures id !in s.jobs ==> forall i :: 0 <= i < |obs| ==> obs[i] == QueryFailed
    ensures id in s.jobs ==> forall i :: 0 <= i < |obs| ==>
      obs[i].Reply? && obs[i].clock == ticks[i].clientNow
      && obs[i].status in {WireName(Pending), WireName(Completed), WireName(Error)}
    ensures 0 < |ticks| ==>
      var q := GetJobStatus(s, id, ticks[0].serverNow, ticks[0].draw);
      id in s.jobs ==> obs[0] == Reply(WireName(q.server.jobs[id].status), ticks[0].clientNow)
    decreases |ticks|
  {
    if |ticks| == 0 then []
    else
      var q := GetJobStatus(s, id, ticks[0].serverNow, ticks[0].draw);
      var rest := Serve(q.server, id, ticks[1..]);
      assert forall i :: 0 < i <= |rest| ==> ticks[i] == ticks[1..][i - 1];
      [Observe(q.reply, ticks[0].clientNow)] + rest
  }

  /** The client reads `"pending"` exactly for the server's pending status. */
  lemma WireNamePending(st: JobStatus)
    ensures WireName(st) == "pending" <==> st == Pending
  {
  }

  /** The observations after the first are those of polling the registry
      the first query left behind. */
  lemma ServeTail(s: TranslationServer, id: string, ticks: seq<Tick>, k: nat)
    requires 0 < k < |ticks|
    ensures Serve(s, id, ticks)[k]
            == Serve(GetJobStatus(s, id, ticks[0].serverNow, ticks[0].draw).server, id, ticks[1..])[k - 1]
  {
  }

  /** A job that has left `pending` stays out of it after the first query,
      and the client's first reply says so. */
  lemma SettledHead(s: TranslationServer, id: string, ticks: seq<Tick>)
    requires id in s.jobs && s.jobs[id].status != Pending && 0 < |ticks|
    ensures id in GetJobStatus(s, id, ticks[0].serverNow, ticks[0].draw).server.jobs
    ensures GetJobStatus(s, id, ticks[0].serverNow, ticks[0].draw).server.jobs[id].status != Pending
    ensures Serve(s, id, ticks)[0].status != "pending"
  {
    var q := GetJobStatus(s, id, ticks[0].serverNow, ticks[0].draw);
    PendingAfterQuery(s, id, ticks[0].serverNow, ticks[0].draw);
    WireNamePending(q.server.jobs[id].status);
  }

  /** A first reply other than `"pending"` means the first query moved the
      job out of `pending`. */
  lemma SettlingHead(s: TranslationServer, id: string, ticks: seq<Tick>)
    requires id in s.jobs && 0 < |ticks| && Serve(s, id, ticks)[0].status != "pending"
    ensures id in GetJobStatus(s, id, ticks[0].serverNow, ticks[0].draw).server.jobs
    ensures GetJobStatus(s, id, ticks[0].serverNow, ticks[0].draw).server.jobs[id].status != Pending
  {
    var q := GetJobStatus(s, id, ticks[0].serverNow, ticks[0].draw);
    WireNamePending(q.server.jobs[id].status);
  }

  /** Polling a job that has already left `pending` never shows `"pending"`
      again. */
  lemma {:induction false} ServeFromSettled(s: TranslationServer, id: string, ticks: seq<Tick>, j: nat)
    requires id in s.jobs && s.jobs[id].status != Pending && j < |ticks|
    ensures Serve(s, id, ticks)[j].status != "pending"
    decreases j
  {
    SettledHead(s, id, ticks);
    if 0 < j {
      ServeTail(s, id, ticks, j);
      ServeFromSettled(GetJobStatus(s, id, ticks[0].serverNow, ticks[0].draw).server, id, ticks[1..], j - 1);
    }
  }

  /** A first reply other than `"pending"` is followed only by replies
      other than `"pending"`. */
  lemma SettledFromFirst(s: TranslationServer, id: string, ticks: seq<Tick>, j: nat)
    requires id in s.jobs && 0 < j < |ticks|
    requires Serve(s, id, ticks)[0].status != "pending"
    ensures Serve(s, id, ticks)[j].status != "pending"
  {
    SettlingHead(s, id, ticks);
    ServeTail(s, id, ticks, j);
    ServeFromSettled(GetJobStatus(s, id, ticks[0].serverNow, ticks[0].draw).server, id, ticks[1..], j - 1);
  }

  /** What the client observes inherits the registry's lifecycle: once a
      reply is not `"pending"`, no later reply for the same job is. */
  lemma {:induction false} ObservedNeverBackToPending(s: TranslationServer, id: string, ticks: seq<Tick>, i: nat, j: nat)
    requires id in s.jobs && i <= j < |ticks|
    requires Serve(s, id, ticks)[i].status != "pending"
    ensures Serve(s, id, ticks)[j].status != "pending"
    decreases i
  {
    if i == 0 {
      if 0 < j {
        SettledFromFirst(s, id, ticks, j);
      }
    } else {
      var next := GetJobStatus(s, id, ticks[0].serverNow, ticks[0].draw).server;
      ServeTail(s, id, ticks, i);
      ServeTail(s, id, ticks, j);
      ObservedNeverBackToPending(next, id, ticks[1..], i - 1, j - 1);
    }
  }

  /** A status is terminal for the client exactly when the server's status
      is not `pending`. */
  lemma WireNameTerminal(st: JobStatus)
    ensures IsTerminal(WireName(st)) <==> st != Pending
  {
  }

  /** Polling a job the server does not know ends after one query, with the
      query's error; no status reaches the callback. */
  lemma UnknownJobFailsFirstQuery(s: TranslationServer, id: string, c: TranslationClient, notify: bool,
                                  timeout: Option<real>, start: real, ticks: seq<Tick>)
    requires id !in s.jobs && 0 < |ticks|
    ensures var w := WaitForCompletion(c, id, notify, timeout, start, Serve(s, id, ticks));
      w.outcome == QueryError && w.queries == 1 && w.callbacks == []
  {
  }

  /** The first observation ends the poll when it carries a terminal status. */
  lemma TerminalFirstReply(c: TranslationClient, id: string, notify: bool, timeout: Option<real>,
                           start: real, obs: seq<Observation>)
    requires 0 < |obs| && obs[0].Reply? && IsTerminal(obs[0].status)
    ensures var w := WaitForCompletion(c, id, notify, timeout, start, obs);
      w.outcome == Finished(obs[0].status) && w.queries == 1
      && w.callbacks == (if notify then [obs[0].status] else [])
  {
  }

  /** A job created with a zero-length duration range and queried at or after
      its creation time with an error draw that misses answers `completed`. */
  lemma ZeroDelayCompletes(id: string, created: real, u: real, ticks: seq<Tick>)
    requires 0.0 <= u <= 1.0 && 0 < |ticks|
    requires created <= ticks[0].serverNow && ErrorRate <= ticks[0].draw
    ensures Serve(CreateJob(NewServer(0.0, 0.0), id, created, u).server, id, ticks)[0]
            == Reply("completed", ticks[0].clientNow)
  {
  }

  /** A known job whose first query's error draw fires answers `error`,
      whatever its age. */
  lemma ErrorDrawFails(s: TranslationServer, id: string, ticks: seq<Tick>)
    requires id in s.jobs && 0 < |ticks| && ticks[0].draw < ErrorRate
    ensures Serve(s, id, ticks)[0] == Reply("error", ticks[0].clientNow)
  {
  }

  /** Whatever the server answers, a normal return of the client's loop
      carries the wire name of a status other than `pending`. */
  lemma FinishedIsServerTerminal(s: TranslationServer, id: string, c: TranslationClient, notify: bool,
                                 timeout: Option<real>, start: real, ticks: seq<Tick>)
    ensures var w := WaitForCompletion(c, id, notify, timeout, start, Serve(s, id, ticks));
      w.outcome.Finished? ==> w.outcome.status in {WireName(Completed), WireName(Error)}
  {
  }
}
