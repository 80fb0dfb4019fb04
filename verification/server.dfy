/** The server's job registry (server/app.py): a map from job id to a job
    record, a `create` step that files a pending job, and a `query` step that
    re-evaluates a job's status on every call.

    Wall-clock time, the uniform duration draw, the error draw and the job id
    generator are parameters: `now` is the clock reading, `u` the unit draw
    behind the duration, `draw` the unit draw behind the simulated error, and
    `id` the freshly generated identifier. */
module Server {
  import Config
  import opened Reals

  /** Status of a translation job. */
  datatype JobStatus = Pending | Completed | Error

  /** The string each status carries on the wire. */
  function WireName(st: JobStatus): string
  {
    match st
    case Pending => "pending"
    case Completed => "completed"
    case Error => "error"
  }

  /** One job: its id, the clock reading at creation, how long after that it
      completes, and its last evaluated status. */
  datatype JobTracker = JobTracker(jobId: string, startTime: real, completionTime: real, status: JobStatus)

  /** The registry, with the range completion times are drawn from. */
  datatype TranslationServer = TranslationServer(jobs: map<string, JobTracker>, minDelay: real, maxDelay: real)

  /** Probability of a simulated error on each status query. */
  const ErrorRate: real := 0.05

  /** The status code and detail of the error raised for an unknown job. */
  const NotFoundCode: int := 404
  const NotFoundDetail: string := "Job not found"

  /** What a status query answers: a status, or an HTTP error. */
  datatype Reply = Status(status: JobStatus) | HttpError(code: int, detail: string)

  /** A status query's answer together with the registry after it. */
  datatype Query = Query(server: TranslationServer, reply: Reply)

  /** A job creation's new registry and the id it handed out. */
  datatype Created = Created(server: TranslationServer, jobId: string)

  /** The range a duration drawn between the two bounds lands in; the bounds
      may come in either order. */
  predicate Between(x: real, a: real, b: real)
  {
    Min(a, b) <= x <= Max(a, b)
  }

  /** Every job is filed under its own id and its duration was drawn from the
      registry's range. */
  ghost predicate Valid(s: TranslationServer)
  {
    forall k :: k in s.jobs ==>
      s.jobs[k].jobId == k && Between(s.jobs[k].completionTime, s.minDelay, s.maxDelay)
  }

  /** A new, empty registry. */
  function NewServer(minDelay: real, maxDelay: real): (s: TranslationServer)
    ensures s.jobs == map[] && s.minDelay == minDelay && s.maxDelay == maxDelay
    ensures Valid(s)
  {
    TranslationServer(map[], minDelay, maxDelay)
  }

  /** The registry the server process starts with, using the shipped
      duration range. */
  function DefaultServer(): (s: TranslationServer)
    ensures s.jobs == map[] && s.minDelay <= s.maxDelay
  {
    NewServer(Config.MinDelay, Config.MaxDelay)
  }

  /** A uniform draw between `a` and `b` from a unit draw `u`, computed as the
      Python runtime does: `a + (b - a) * u`. */
  function Uniform(a: real, b: real, u: real): (x: real)
    requires 0.0 <= u <= 1.0
    ensures Between(x, a, b)
    ensures u == 0.0 ==> x == a
    ensures u == 1.0 ==> x == b
  {
    assert 0.0 <= (b - a) * u <= b - a || b - a <= (b - a) * u <= 0.0 by {
      if a <= b { ScaleWithin(b - a, u); } else { ScaleWithin(a - b, u); }
    }
    a + (b - a) * u
  }

  lemma ScaleWithin(d: real, u: real)
    requires 0.0 <= d && 0.0 <= u <= 1.0
    ensures 0.0 <= d * u <= d
    ensures -d <= (-d) * u <= 0.0
  {
  }

  /** `create_job`: draw a duration, file a pending job under `id`, hand `id` back.
      As in the source, an id already present is overwritten; the source's
      id generator makes that practically impossible. */
  function CreateJob(s: TranslationServer, id: string, now: real, u: real): (c: Created)
    requires 0.0 <= u <= 1.0
    ensures c.jobId == id
    ensures c.server.minDelay == s.minDelay && c.server.maxDelay == s.maxDelay
    ensures c.server.jobs.Keys == s.jobs.Keys + {id}
    ensures id in c.server.jobs
    ensures c.server.jobs[id].jobId == id && c.server.jobs[id].startTime == now
    ensures c.server.jobs[id].status == Pending
    ensures Between(c.server.jobs[id].completionTime, s.minDelay, s.maxDelay)
    ensures forall k :: k in s.jobs && k != id ==> c.server.jobs[k] == s.jobs[k]
    ensures id !in s.jobs ==> |c.server.jobs| == |s.jobs| + 1
    ensures Valid(s) ==> Valid(c.server)
  {
    var completion := Uniform(s.minDelay, s.maxDelay, u);
    var job := JobTracker(id, now, completion, Pending);
    Created(s.(jobs := s.jobs[id := job]), id)
  }

  /** Re-evaluate one job at clock reading `now` with error draw `draw`: an
      error draw below the rate marks it failed; otherwise a job whose
      duration has elapsed is marked completed; otherwise it keeps its status. */
  function Evaluate(job: JobTracker, now: real, draw: real): (j: JobTracker)
    ensures j.jobId == job.jobId && j.startTime == job.startTime && j.completionTime == job.completionTime
    ensures draw < ErrorRate ==> j.status == Error
    ensures draw >= ErrorRate && now - job.startTime >= job.completionTime ==> j.status == Completed
    ensures draw >= ErrorRate && now - job.startTime < job.completionTime ==> j.status == job.status
  {
    var elapsed := now - job.startTime;
    if draw < ErrorRate then job.(status := Error)
    else if elapsed >= job.completionTime then job.(status := Completed)
    else job
  }

  /** `get_job_status`: an unknown id is a 404 and leaves the registry alone;
      a known job is re-evaluated, stored, and its new status returned. */
  function GetJobStatus(s: TranslationServer, id: string, now: real, draw: real): (q: Query)
    ensures q.reply.HttpError? <==> id !in s.jobs
    ensures id !in s.jobs ==> q.server == s && q.reply == HttpError(NotFoundCode, NotFoundDetail)
    ensures q.server.minDelay == s.minDelay && q.server.maxDelay == s.maxDelay
    ensures q.server.jobs.Keys == s.jobs.Keys
    ensures forall k :: k in s.jobs && k != id ==> q.server.jobs[k] == s.jobs[k]
    ensures id in s.jobs ==>
      var before := s.jobs[id];
      var after := q.server.jobs[id];
      && after.jobId == before.jobId
      && after.startTime == before.startTime
      && after.completionTime == before.completionTime
      && q.reply == Status(after.status)
      && (draw < ErrorRate ==> after.status == Error)
      && (draw >= ErrorRate && now - before.startTime >= before.completionTime ==> after.status == Completed)
      && (draw >= ErrorRate && now - before.startTime < before.completionTime ==> after.status == before.status)
    ensures Valid(s) ==> Valid(q.server)
  {
    if id !in s.jobs then
      Query(s, HttpError(NotFoundCode, NotFoundDetail))
    else
      var job := Evaluate(s.jobs[id], now, draw);
      Query(s.(jobs := s.jobs[id := job]), Status(job.status))
  }

  /** A query leaves a job pending exactly when it was pending, the error
      draw missed, and its duration has not yet elapsed. */
  lemma PendingAfterQuery(s: TranslationServer, id: string, now: real, draw: real)
    requires id in s.jobs
    ensures GetJobStatus(s, id, now, draw).server.jobs[id].status == Pending
            <==> (s.jobs[id].status == Pending && draw >= ErrorRate
                  && now - s.jobs[id].startTime < s.jobs[id].completionTime)
  {
  }

  /** The status is re-evaluated on every query: a completed job can turn
      into a failed one when the error draw fires. */
  lemma CompletedCanTurnToError(s: TranslationServer, id: string, now: real, draw: real)
    requires id in s.jobs && s.jobs[id].status == Completed && draw < ErrorRate
    ensures GetJobStatus(s, id, now, draw).reply == Status(Error)
  {
  }

  /** ... and a failed job turns completed on a later query once its duration
      has elapsed and the error draw misses. */
  lemma ErrorCanTurnToCompleted(s: TranslationServer, id: string, now: real, draw: real)
    requires id in s.jobs && s.jobs[id].status == Error
    requires now - s.jobs[id].startTime >= s.jobs[id].completionTime && ErrorRate <= draw
    ensures GetJobStatus(s, id, now, draw).reply == Status(Completed)
  {
  }
}
