/** `executeJob` and `failAttempt` as the dispatcher runs them: one goroutine from beginning to end. */
module Executor {
  import opened Common
  import opened Heartbeats
  import opened Attempts
  import opened Overrides
  import Dispatcher

  /** How a database write ends; an error may come after the write took effect. */
  datatype Write = Wrote | WriteError(stored: bool)

  /** How each external call of one `executeJob` ends. */
  datatype World = World(
    found: bool, create: Write, scale: bool, select: bool, dial: bool, pod: Id,
    answer: Option<Id>, update: Write)

  datatype RunRequest = RunRequest(
    job: Id, attempt: Id, entrypoint: seq<string>, payload: seq<bv8>, timeoutSeconds: Float32)

  /** The request asks for the job as stored, with each override that is set and not empty in its place. */
  predicate Requests(r: RunRequest, before: JobFields, ops: Option<JobOverrides>) {
    && r.entrypoint == (if ops.Some? && ops.value.entrypoint != [] then ops.value.entrypoint else before.entrypoint)
    && r.payload == (if ops.Some? && ops.value.payload != [] then ops.value.payload else before.payload)
    && (ops.Some? && ops.value.timeoutSeconds.Some? ==> r.timeoutSeconds == ops.value.timeoutSeconds.value)
    && (ops.None? || ops.value.timeoutSeconds.None? ==> r.timeoutSeconds == before.timeoutSeconds)
  }

  class JobAttempt {
    const id: Id
    const jobID: Id
    var status: AttemptStatus
    var error: bool
    var finishedAt: Option<int>

    constructor (id: Id, jobID: Id)
      ensures this.id == id && this.jobID == jobID && status == AttemptRunning && !error && finishedAt.None?
    {
      this.id, this.jobID, status, error, finishedAt := id, jobID, AttemptRunning, false, None;
    }
  }

  /** The table of attempts. */
  class Database {
    var rows: map<Id, Row>

    constructor (rows: map<Id, Row>)
      ensures this.rows == rows
    {
      this.rows := rows;
    }

    method CreateJobAttempt(a: JobAttempt, w: Write) returns (ok: bool)
      modifies this
      ensures ok <==> w.Wrote?
      ensures rows == if ok || w.stored then old(rows)[a.id := Row(a.jobID, a.status)] else old(rows)
    {
      ok := w.Wrote?;
      if ok || w.stored {
        rows := rows[a.id := Row(a.jobID, a.status)];
      }
    }

    method UpdateJobAttempt(a: JobAttempt, w: Write) returns (ok: bool)
      modifies this
      ensures ok <==> w.Wrote?
      ensures rows == if (ok || w.stored) && a.id in old(rows)
                      then old(rows)[a.id := old(rows)[a.id].(status := a.status)]
                      else old(rows)
    {
      ok := w.Wrote?;
      if (ok || w.stored) && a.id in rows {
        rows := rows[a.id := rows[a.id].(status := a.status)];
      }
    }
  }

  /** A write took effect. */
  predicate Landed(w: Write) {
    w.Wrote? || w.stored
  }

  class Server {
    const db: Database
    const table: Dispatcher.Server

    constructor (db: Database, table: Dispatcher.Server)
      ensures this.db == db && this.table == table
    {
      this.db, this.table := db, table;
    }

    /** Marks the attempt in memory, then its row; an error of the update is only logged. */
    method FailAttempt(attempt: JobAttempt, now: int, update: Write) returns (end: End)
      modifies attempt, db
      ensures attempt.status == AttemptFailed && attempt.error && attempt.finishedAt == Some(now)
      ensures db.rows == FailRows(old(db.rows), attempt.id, update)
      ensures end == FailEnd(attempt.id, update)
      ensures (update.Wrote? || update.stored) && attempt.id in old(db.rows) ==>
                db.rows == old(db.rows)[attempt.id := Row(old(db.rows)[attempt.id].job, AttemptFailed)]
      ensures !(update.Wrote? || update.stored) ==> db.rows == old(db.rows)
    {
      attempt.status := AttemptFailed;
      attempt.error := true;
      attempt.finishedAt := Some(now);
      var ok := db.UpdateJobAttempt(attempt, update);
      end := if ok then MarkedFailed(attempt.id) else MarkError(attempt.id);
    }

    /**
      `executeJob` for the stored job `job` and the freshly drawn attempt id `drawn`: it returns and
      leaves the rows as the protocol's goroutine does.  The execution registered is the one the
      runtime answered with; the runtime is asked exactly if every call before went well, and for
      the job with the overrides applied.
     */
    method ExecuteJob(jobID: Id, job: Job, drawn: Id, ops: Option<JobOverrides>, podName: string, now: int, w: World)
      returns (end: End, sent: Option<RunRequest>)
      requires table.Valid()
      modifies db, table, job
      ensures table.Valid()
      ensures (end, db.rows) == Finish(Load, jobID, old(db.rows), drawn, w)
      ensures end.Done? ==> table.Views() == Registered(old(table.Views()), end.exec, jobID, drawn)
      ensures end.Done? ==> end.exec in table.executions && table.executions[end.exec].podName == podName
      ensures !end.Done? ==> unchanged(table) && unchanged(table.executions.Values)
      ensures sent.Some? <==> w.found && w.create.Wrote? && w.scale && w.select && w.dial
      ensures sent.Some? ==> sent.value.job == jobID && sent.value.attempt == drawn
      ensures sent.Some? ==> Requests(sent.value, old(job.Fields()), ops)
    {
      FromLoad(drawn, jobID, db.rows, w);
      sent := None;
      if !w.found {
        return NoAttempt, None;
      }
      if ops.Some? {
        job.ApplyOverrides(ops);
      }
      assert job.Fields() == Applied(old(job.Fields()), ops);
      var attempt := new JobAttempt(drawn, jobID);
      var created := db.CreateJobAttempt(attempt, w.create);
      if !created {
        return CreateError(drawn), None;
      }
      if !w.scale {
        end := FailAttempt(attempt, now, w.update);
        return;
      }
      if !w.select {
        end := FailAttempt(attempt, now, w.update);
        return;
      }
      if !w.dial {
        return DialError(drawn), None;
      }
      sent := Some(RunRequest(jobID, drawn, job.entrypoint, job.payload, job.timeoutSeconds));
      if w.answer.None? {
        end := FailAttempt(attempt, now, w.update);
        return;
      }
      assert table.Views() == old(table.Views());
      table.Register(w.answer.value, jobID, drawn, podName);
      end := End.Done(drawn, w.answer.value);
    }
  }

  // ---------- the same goroutine in the protocol ----------

  /** The outcome of the call a goroutine stands before, as an action of the protocol. */
  function Choose(pc: Pc, drawn: Id, w: World): ThreadAction
    requires pc.Live()
  {
    match pc
    case Load => if w.found then LoadOk(drawn) else LoadErr
    case Create(_) => if w.create.Wrote? then CreateOk else CreateErr(w.create.stored)
    case Scale(_) => if w.scale then ScaleOk else ScaleErr
    case Select(_) => if w.select then SelectOk else SelectErr
    case Dial(_) => if w.dial then DialOk(w.pod) else DialErr
    case Await(_) => if w.answer.Some? then CallOk(w.answer.value) else CallErr
    case Register(_, _) => RegisterOk
    case Fail(_) => if w.update.Wrote? then FailOk else FailErr(w.update.stored)
  }

  /** How many calls there are at most still to make. */
  function Left(pc: Pc): nat {
    match pc
    case Load => 7
    case Create(_) => 6
    case Scale(_) => 5
    case Select(_) => 4
    case Dial(_) => 3
    case Await(_) => 2
    case Register(_, _) => 1
    case Fail(_) => 1
    case Returned(_) => 0
  }

  function RowsThen(pc: Pc, job: Id, rows: map<Id, Row>, a: ThreadAction): map<Id, Row> {
    if pc.Attempt().Some? then RowsNext(rows, pc.Attempt().value, job, RowEffect(a)) else rows
  }

  /** How the goroutine returns from `pc` on, and the rows it leaves. */
  function Finish(pc: Pc, job: Id, rows: map<Id, Row>, drawn: Id, w: World): (End, map<Id, Row>)
    decreases Left(pc)
  {
    if pc.Returned? then (pc.end, rows)
    else
      var a := Choose(pc, drawn, w);
      var pc' := PcNext(pc, a);
      Finish(pc', job, RowsThen(pc', job, rows, a), drawn, w)
  }

  lemma FinishStep(pc: Pc, job: Id, rows: map<Id, Row>, drawn: Id, w: World)
    requires pc.Live()
    ensures var a := Choose(pc, drawn, w);
            var pc' := PcNext(pc, a);
            var rows' := RowsThen(pc', job, rows, a);
            && Finish(pc, job, rows, drawn, w) == Finish(pc', job, rows', drawn, w)
            && (pc'.Returned? ==> Finish(pc', job, rows', drawn, w) == (pc'.end, rows'))
  {
  }

  // the calls from the last one back to the first

  function FailEnd(a: Id, update: Write): End {
    if update.Wrote? then MarkedFailed(a) else MarkError(a)
  }

  function FailRows(rows: map<Id, Row>, a: Id, update: Write): map<Id, Row> {
    if Landed(update) && a in rows then rows[a := rows[a].(status := AttemptFailed)] else rows
  }

  lemma FromFail(a: Id, job: Id, rows: map<Id, Row>, drawn: Id, w: World)
    ensures Finish(Fail(a), job, rows, drawn, w) == (FailEnd(a, w.update), FailRows(rows, a, w.update))
  {
  }

  lemma FromAwait(a: Id, job: Id, rows: map<Id, Row>, drawn: Id, w: World)
    ensures Finish(Await(a), job, rows, drawn, w) ==
              if w.answer.Some? then (End.Done(a, w.answer.value), rows)
                  else (FailEnd(a, w.update), FailRows(rows, a, w.update))
  {
    FinishStep(Await(a), job, rows, drawn, w);
    if w.answer.None? {
      FromFail(a, job, rows, drawn, w);
    } else {
      FinishStep(Register(a, w.answer.value), job, rows, drawn, w);
    }
  }

  lemma FromDial(a: Id, job: Id, rows: map<Id, Row>, drawn: Id, w: World)
    ensures Finish(Dial(a), job, rows, drawn, w) ==
              if w.dial then Finish(Await(a), job, rows, drawn, w) else (DialError(a), rows)
  {
  }

  lemma FromSelect(a: Id, job: Id, rows: map<Id, Row>, drawn: Id, w: World)
    ensures Finish(Select(a), job, rows, drawn, w) ==
              if w.select then Finish(Dial(a), job, rows, drawn, w) else Finish(Fail(a), job, rows, drawn, w)
  {
  }

  lemma FromScale(a: Id, job: Id, rows: map<Id, Row>, drawn: Id, w: World)
    ensures Finish(Scale(a), job, rows, drawn, w) ==
              if w.scale then Finish(Select(a), job, rows, drawn, w) else Finish(Fail(a), job, rows, drawn, w)
  {
  }

  lemma FromCreate(a: Id, job: Id, rows: map<Id, Row>, drawn: Id, w: World)
    ensures var rows1 := rows[a := Row(job, AttemptRunning)];
            Finish(Create(a), job, rows, drawn, w) ==
              if w.create.Wrote? then Finish(Scale(a), job, rows1, drawn, w)
              else (CreateError(a), if w.create.stored then rows1 else rows)
  {
  }

  /** The outcome of a goroutine that has inserted its row. */
  function Outcome(a: Id, rows: map<Id, Row>, w: World): (End, map<Id, Row>) {
    if !w.scale || !w.select || (w.dial && w.answer.None?) then (FailEnd(a, w.update), FailRows(rows, a, w.update))
    else if !w.dial then (DialError(a), rows)
    else (End.Done(a, w.answer.value), rows)
  }

  lemma FromScaleOn(a: Id, job: Id, rows: map<Id, Row>, drawn: Id, w: World)
    ensures Finish(Scale(a), job, rows, drawn, w) == Outcome(a, rows, w)
  {
    FromScale(a, job, rows, drawn, w);
    FromSelect(a, job, rows, drawn, w);
    FromDial(a, job, rows, drawn, w);
    FromAwait(a, job, rows, drawn, w);
    FromFail(a, job, rows, drawn, w);
  }

  lemma FromLoad(drawn: Id, job: Id, rows: map<Id, Row>, w: World)
    ensures var rows1 := rows[drawn := Row(job, AttemptRunning)];
            Finish(Load, job, rows, drawn, w) ==
              if !w.found then (NoAttempt, rows)
              else if w.create.Wrote? then Outcome(drawn, rows1, w)
              else (CreateError(drawn), if w.create.stored then rows1 else rows)
  {
    if w.found {
      FromCreate(drawn, job, rows, drawn, w);
      FromScaleOn(drawn, job, rows[drawn := Row(job, AttemptRunning)], drawn, w);
    }
  }

  /**
    A whole `executeJob`: it touches no other row, its row ends in a state that fits the way it
    returned, the attempt is marked failed exactly if waking the worker, choosing the pod or Run
    failed, and it registers exactly the execution Run answered with.
   */
  lemma FinishFacts(job: Id, rows: map<Id, Row>, drawn: Id, w: World)
    requires drawn !in rows
    ensures var (end, rows') := Finish(Load, job, rows, drawn, w);
            && (end.NoAttempt? <==> !w.found)
            && (end.CreateError? <==> w.found && !w.create.Wrote?)
            && (end.MarkedFailed? || end.MarkError? <==>
                  w.found && w.create.Wrote? && (!w.scale || !w.select || (w.dial && w.answer.None?)))
            && (end.DialError? <==> w.found && w.create.Wrote? && w.scale && w.select && !w.dial)
            && (end.Done? <==> w.found && w.create.Wrote? && w.scale && w.select && w.dial && w.answer.Some?)
            && (end.MarkError? ==> !w.update.Wrote?)
            && (end.Done? ==> end.exec == w.answer.value)
            && (!end.NoAttempt? ==> end.attempt == drawn && RowFits(Returned(end), RowStatus(rows', drawn)))
            && (drawn in rows' ==> rows'[drawn].job == job)
            && rows' - {drawn} == rows
  {
    FromLoad(drawn, job, rows, w);
  }

  predicate LegalThread(l: Ledger, t: Id, steps: seq<ThreadAction>)
    decreases |steps|
  {
    steps == [] || (ThreadEnabled(l, t, steps[0]) && LegalThread(ThreadNext(l, t, steps[0]), t, steps[1..]))
  }

  function AfterThread(l: Ledger, t: Id, steps: seq<ThreadAction>): Ledger
    requires LegalThread(l, t, steps)
    decreases |steps|
  {
    if steps == [] then l else AfterThread(ThreadNext(l, t, steps[0]), t, steps[1..])
  }

  /**
    What the method does is what the protocol's goroutine does: from any ledger there are steps of
    goroutine `t` that end with the method's result and the method's rows.
   */
  lemma {:induction false} FinishIsThread(l: Ledger, t: Id, drawn: Id, w: World) returns (steps: seq<ThreadAction>)
    requires t in l.threads && (l.threads[t].pc.Load? && w.found ==> l.threads[t].job in l.jobs && drawn !in l.owner)
    ensures LegalThread(l, t, steps)
    ensures var (end, rows) := Finish(l.threads[t].pc, l.threads[t].job, l.rows, drawn, w);
            && AfterThread(l, t, steps).rows == rows
            && AfterThread(l, t, steps).threads == l.threads[t := l.threads[t].(pc := Returned(end))]
    decreases Left(l.threads[t].pc)
  {
    var th := l.threads[t];
    if th.pc.Returned? {
      steps := [];
    } else {
      var a := Choose(th.pc, drawn, w);
      var rest := FinishIsThread(ThreadNext(l, t, a), t, drawn, w);
      steps := [a] + rest;
      assert steps[1..] == rest;
      FinishStep(th.pc, th.job, l.rows, drawn, w);
    }
  }

  /**
    From the RunJob request to the runtime: what the queue delivers makes executeJob ask for exactly the
    entrypoint, payload and timeout of the request where it sets them, and the stored job's otherwise.
   */
  lemma RunJobReachesRuntime(req: RunJobRequest, m: JobMessage, before: JobFields, r: RunRequest)
    requires Encode(RunMessage(req)).Some? && Decode(Encode(RunMessage(req)).value) == Some(m)
    requires Requests(r, before, m.overrides)
    ensures r.entrypoint == (if req.entrypoint == [] then before.entrypoint else req.entrypoint)
    ensures r.payload == (if req.payload == [] then before.payload else req.payload)
    ensures req.timeoutSeconds.Some? ==> r.timeoutSeconds == req.timeoutSeconds.value
    ensures req.timeoutSeconds.None? ==> r.timeoutSeconds == before.timeoutSeconds
  {
    MessageRoundTrip(RunMessage(req));
  }
}
