/** One execution inside a runtime, and the stores its `execute` goroutine performs on it. */
module Executions {
  import opened Common
  import opened Heartbeats

  /** Where an `execute` goroutine stands. */
  datatype Stage = Spawned | Starting | Launched | Watching | Stopping | Finished | Removed

  /**
    `proc` is the process id the operating system gave, `history` every value stored in Status,
    `reported` the rank of the last status a heartbeat loop loaded in order to send it, and
    `origin` the goroutine of the dispatcher whose Run request created the execution.
   */
  datatype Exec = Exec(
    rt: Id, job: Id, attempt: Id, origin: Id,
    stage: Stage, status: Status, pid: nat,
    proc: Option<nat>, history: seq<Status>, reported: nat)

  /** What `Run` puts into the map. */
  function NewExec(rt: Id, job: Id, attempt: Id, origin: Id): Exec {
    Exec(rt, job, attempt, origin, Spawned, Pending, 0, None, [Pending], 0)
  }

  datatype ExecAction =
    | MarkRunning
    | StartErr | StartOk(proc: nat)
    | StorePid
    | Exit(ok: bool) | ContextDone | Stopped
    | Remove

  predicate ExecEnabled(x: Exec, a: ExecAction) {
    match a
    case MarkRunning => x.stage.Spawned?
    case StartErr => x.stage.Starting?
    case StartOk(_) => x.stage.Starting?
    case StorePid => x.stage.Launched? && x.proc.Some?
    case Exit(_) => x.stage.Watching?
    case ContextDone => x.stage.Watching?
    case Stopped => x.stage.Stopping?
    case Remove => x.stage.Finished?
  }

  function Store(x: Exec, status: Status, stage: Stage): Exec {
    x.(status := status, stage := stage, history := x.history + [status])
  }

  function ExecNext(x: Exec, a: ExecAction): Exec
    requires ExecEnabled(x, a)
  {
    match a
    case MarkRunning => Store(x, Running, Starting)
    case StartErr => Store(x, Failed, Finished)
    case StartOk(proc) => x.(proc := Some(proc), stage := Launched)
    case StorePid => x.(pid := x.proc.value, stage := Watching)
    case Exit(ok) => Store(x, if ok then Succeeded else Failed, Finished)
    case ContextDone => x.(stage := Stopping)
    case Stopped => Store(x, Failed, Finished)
    case Remove => x.(stage := Removed)
  }

  /** Stage, status, stored PID and history move together. */
  predicate ExecOk(x: Exec) {
    && x.reported <= x.status.Rank()
    && match x.stage
       case Spawned => x.status == Pending && x.pid == 0 && x.proc.None? && x.history == [Pending]
       case Starting => x.status == Running && x.pid == 0 && x.proc.None? && x.history == [Pending, Running]
       case Launched => x.status == Running && x.pid == 0 && x.proc.Some? && x.history == [Pending, Running]
       case Finished => Over(x)
       case Removed => Over(x)
       case _ => x.status == Running && x.proc == Some(x.pid) && x.history == [Pending, Running]
  }

  predicate Over(x: Exec) {
    && x.status.Terminal() && x.history == [Pending, Running, x.status]
    && (x.proc.Some? ==> x.pid == x.proc.value)
    && (x.status.Succeeded? ==> x.proc.Some?)
  }

  /** `y` is the execution `x` at some later moment. */
  predicate Later(x: Exec, y: Exec) {
    && y.rt == x.rt && y.job == x.job && y.attempt == x.attempt && y.origin == x.origin
    && x.history <= y.history
    && (x.proc.Some? ==> y.proc == x.proc)
    && x.reported <= y.reported
    && (x.stage.Removed? ==> y.stage.Removed?)
  }

  /**
    Each store keeps the execution consistent and only adds to what it has been through: one
    RUNNING, then one terminal status, and nothing after the removal.
   */
  lemma ExecStep(x: Exec, a: ExecAction)
    requires ExecOk(x) && ExecEnabled(x, a)
    ensures ExecOk(ExecNext(x, a)) && Later(x, ExecNext(x, a))
    ensures ExecNext(x, a).reported == x.reported
  {
  }

  /** The status is the last thing reached, and everything reached is at most the status. */
  lemma ReachedAtMost(x: Exec, earlier: Status)
    requires ExecOk(x) && earlier in x.history
    ensures AtMost(earlier, x.status) && x.status in x.history
  {
    if x.stage.Finished? || x.stage.Removed? {
      assert x.history[2] == x.status;
    } else if !x.stage.Spawned? {
      assert x.history[1] == x.status;
    } else {
      assert x.history[0] == x.status;
    }
  }

  /** Two statuses reached by one execution are ordered as soon as their ranks are. */
  lemma ReachedOrder(x: Exec, a: Status, b: Status)
    requires ExecOk(x) && a in x.history && b in x.history && a.Rank() <= b.Rank()
    ensures AtMost(a, b)
  {
    ReachedAtMost(x, a);
    ReachedAtMost(x, b);
  }

  // ---------- heartbeats about an execution ----------

  /** The heartbeat tells something true about `x`: its ids, a status it reached, the PID of a success. */
  predicate Fits(x: Exec, hb: Heartbeat) {
    && hb.job == x.job && hb.attempt == x.attempt
    && hb.status in x.history && hb.status != Pending
    && hb.status.Rank() <= x.reported
    && (hb.status.Succeeded? ==> x.proc == Some(hb.pid))
  }

  lemma FitsLater(x: Exec, y: Exec, hb: Heartbeat)
    requires Fits(x, hb) && Later(x, y)
    ensures Fits(y, hb)
  {
  }
}
