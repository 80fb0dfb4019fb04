/** Sequences of registry operations, as the server's two endpoints would
    apply them one after another, and what every such sequence preserves. */
module ServerRun {
  import opened Server

  /** One call into the registry, with its lifted clock reading and draws. */
  datatype Op =
    | CreateOp(id: string, now: real, u: real)
    | QueryOp(id: string, now: real, draw: real)

  /** An operation the runtime can produce from `s`: unit draws lie in
      [0, 1], and a generated id is not already in use. */
  predicate Admissible(s: TranslationServer, op: Op)
  {
    match op
    case CreateOp(id, _, u) => id !in s.jobs && 0.0 <= u <= 1.0
    case QueryOp(_, _, _) => true
  }

  function Apply(s: TranslationServer, op: Op): TranslationServer
    requires Admissible(s, op)
  {
    match op
    case CreateOp(id, now, u) => CreateJob(s, id, now, u).server
    case QueryOp(id, now, draw) => GetJobStatus(s, id, now, draw).server
  }

  /** Every operation of the sequence is admissible where it is applied. */
  predicate AdmissibleRun(s: TranslationServer, ops: seq<Op>)
    decreases |ops|
  {
    |ops| == 0 || (Admissible(s, ops[0]) && AdmissibleRun(Apply(s, ops[0]), ops[1..]))
  }

  function Run(s: TranslationServer, ops: seq<Op>): TranslationServer
    requires AdmissibleRun(s, ops)
    decreases |ops|
  {
    if |ops| == 0 then s else Run(Apply(s, ops[0]), ops[1..])
  }

  /** How many jobs a sequence creates. */
  function Creates(ops: seq<Op>): nat
  {
    if |ops| == 0 then 0 else (if ops[0].CreateOp? then 1 else 0) + Creates(ops[1..])
  }

  /** A job that has left `pending` never returns to it: no later create or
      query, in any order, sets a filed job back to `pending`. */
  lemma {:induction false} NeverBackToPending(s: TranslationServer, ops: seq<Op>, id: string)
    requires AdmissibleRun(s, ops)
    requires id in s.jobs && s.jobs[id].status != Pending
    ensures id in Run(s, ops).jobs && Run(s, ops).jobs[id].status != Pending
    decreases |ops|
  {
    if |ops| > 0 {
      NeverBackToPending(Apply(s, ops[0]), ops[1..], id);
    }
  }

  /** Jobs are never removed, and a job's id, start time and duration never
      change once it is filed. */
  lemma {:induction false} JobsKeepIdentity(s: TranslationServer, ops: seq<Op>, id: string)
    requires AdmissibleRun(s, ops)
    requires id in s.jobs
    ensures id in Run(s, ops).jobs
    ensures Run(s, ops).jobs[id].jobId == s.jobs[id].jobId
    ensures Run(s, ops).jobs[id].startTime == s.jobs[id].startTime
    ensures Run(s, ops).jobs[id].completionTime == s.jobs[id].completionTime
    decreases |ops|
  {
    if |ops| > 0 {
      JobsKeepIdentity(Apply(s, ops[0]), ops[1..], id);
    }
  }

  /** The registry grows by exactly one job per create and never shrinks. */
  lemma {:induction false} JobCount(s: TranslationServer, ops: seq<Op>)
    requires AdmissibleRun(s, ops)
    ensures |Run(s, ops).jobs| == |s.jobs| + Creates(ops)
    ensures s.jobs.Keys <= Run(s, ops).jobs.Keys
    decreases |ops|
  {
    if |ops| > 0 {
      JobCount(Apply(s, ops[0]), ops[1..]);
    }
  }

  /** Every reachable registry files each job under its own id with a
      duration inside the configured range. */
  lemma {:induction false} RunPreservesValid(s: TranslationServer, ops: seq<Op>)
    requires AdmissibleRun(s, ops)
    requires Valid(s)
    ensures Valid(Run(s, ops))
    decreases |ops|
  {
    if |ops| > 0 {
      RunPreservesValid(Apply(s, ops[0]), ops[1..]);
    }
  }
}
