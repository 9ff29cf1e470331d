/** The runtime server's own methods, run to their end: `Run`, `execute` and one heartbeat tick. */
module RuntimeServer {
  import opened Common
  import opened Clock
  import opened Heartbeats
  import opened Executions

  /** What the operating system and the caller do to one process; times count from its start. */
  datatype Process = Process(
    starts: bool,
    pid: nat,
    exit: Option<nat>,         // when it would exit by itself
    ok: bool,                  // with exit code 0
    cancelled: Option<nat>,    // when the caller's context is done
    exitAfterTerm: Option<nat>,// how long after SIGTERM it exits
    exitFirst: bool)           // which ready case `select` picks in a tie

  /** `time.Duration(n) * time.Second`, an int64 product. */
  function Timeout(n: int): int {
    ToInt64(n * SECOND)
  }

  function Earlier(a: Option<int>, b: Option<int>): Option<int> {
    if a.None? then b else if b.None? || a.value <= b.value then a else b
  }

  /** When `waitCtx` is done: the caller's context, and a deadline if the timeout is positive. */
  function WaitDone(n: int, p: Process): Option<int> {
    Earlier(p.cancelled, if Timeout(n) > 0 then Some(Timeout(n)) else None)
  }

  /** The context is done at `d`: the earlier of the caller's end and the timeout, if that is positive. */
  predicate DoneAt(n: int, p: Process, d: int) {
    && (p.cancelled == Some(d) || (Timeout(n) > 0 && d == Timeout(n)))
    && (p.cancelled.Some? ==> d <= p.cancelled.value) && (Timeout(n) > 0 ==> d <= Timeout(n))
  }

  /** Whether the first `select` takes the process's own exit. */
  predicate ExitsFirst(n: int, p: Process) {
    var done := WaitDone(n, p);
    p.exit.Some? && (done.None? || p.exit.value < done.value || (p.exit.value == done.value && p.exitFirst))
  }

  /** The accesses of one `execute`, as actions of the protocol. */
  function Steps(n: int, p: Process): seq<ExecAction> {
    if !p.starts then [MarkRunning, StartErr, Remove]
    else [MarkRunning, StartOk(p.pid), StorePid]
         + (if ExitsFirst(n, p) then [Exit(p.ok), Remove]
            else if WaitDone(n, p).Some? then [ContextDone, Stopped, Remove]
            else [])
  }

  predicate LegalSteps(x: Exec, steps: seq<ExecAction>)
    decreases |steps|
  {
    steps == [] || (ExecEnabled(x, steps[0]) && LegalSteps(ExecNext(x, steps[0]), steps[1..]))
  }

  function AfterSteps(x: Exec, steps: seq<ExecAction>): Exec
    requires LegalSteps(x, steps)
    decreases |steps|
  {
    if steps == [] then x else AfterSteps(ExecNext(x, steps[0]), steps[1..])
  }

  /** When `execute` returns. */
  function EndOf(n: int, p: Process): Option<int> {
    if !p.starts then Some(0)
    else if ExitsFirst(n, p) then p.exit
    else if WaitDone(n, p).Some? then Some(WaitDone(n, p).value + Grace(p))
    else None
  }

  /** How long after SIGTERM `execute` goes on: until the process exits, but at most 10 s. */
  function Grace(p: Process): int {
    if p.exitAfterTerm.Some? && p.exitAfterTerm.value <= KILL_GRACE then p.exitAfterTerm.value else KILL_GRACE
  }

  class Execution {
    const id: Id
    const jobID: Id
    const attemptID: Id
    var status: Status
    var pid: nat
    var finishedAt: Option<int>
    var failed: bool                 // Error is set
    ghost var history: seq<Status>   // every value stored in Status

    constructor (id: Id, jobID: Id, attemptID: Id)
      ensures this.id == id && this.jobID == jobID && this.attemptID == attemptID
      ensures Fresh()
    {
      this.id, this.jobID, this.attemptID := id, jobID, attemptID;
      status, pid, finishedAt, failed, history := Pending, 0, None, false, [Pending];
    }

    predicate Unstarted()
      reads this
    {
      status == Pending && pid == 0 && finishedAt.None? && !failed
    }

    ghost predicate Fresh()
      reads this
    {
      Unstarted() && history == [Pending]
    }

    method Store(s: Status)
      modifies this`status, this`history
      ensures status == s && history == old(history) + [s]
    {
      status := s;
      history := history + [s];
    }
  }

  class Server {
    var executions: map<Id, Execution>

    ghost predicate Valid()
      reads this, executions.Values
    {
      forall e :: e in executions ==> executions[e].id == e
    }

    constructor ()
      ensures Valid() && executions == map[]
    {
      executions := map[];
    }

    /** `Run` up to its answer: the execution is in the map, PENDING, before the caller hears of it. */
    method Run(executionID: Id, jobID: Id, attemptID: Id) returns (exec: Execution)
      requires Valid() && executionID !in executions
      modifies this
      ensures Valid() && fresh(exec) && exec.Fresh()
      ensures exec.id == executionID && exec.jobID == jobID && exec.attemptID == attemptID
      ensures executions == old(executions)[executionID := exec]
    {
      exec := new Execution(executionID, jobID, attemptID);
      executions := executions[executionID := exec];
    }

    /**
      `execute` for a request with TimeoutSeconds truncated to `n`.  `end` is when it returns,
      counted from the start of the process, or None if it waits for ever.  Whatever the process
      does: one RUNNING store, then one terminal store, then the removal; success exactly when the
      process exited by itself, in time and with code 0.
     */
    method Execute(exec: Execution, n: int, p: Process) returns (end: Option<int>)
      requires Valid() && exec.Fresh() && exec.id in executions && executions[exec.id] == exec
      modifies this, exec
      ensures Valid()
      ensures end.Some? ==>
                && exec.history == [Pending, Running, exec.status] && exec.status.Terminal()
                && executions == old(executions) - {exec.id}
      ensures end.None? ==>
                && p.starts && !ExitsFirst(n, p) && WaitDone(n, p).None?
                && exec.history == [Pending, Running] && exec.status == Running
                && executions == old(executions)
      ensures exec.status == Succeeded <==> p.starts && ExitsFirst(n, p) && p.ok
      ensures forall d :: DoneAt(n, p, d) && p.starts && (p.exit.None? || d < p.exit.value) ==>
                && exec.status == Failed
                && end == Some(d + if p.exitAfterTerm.Some? && p.exitAfterTerm.value <= 10_000_000_000
                                   then p.exitAfterTerm.value else 10_000_000_000)
      ensures p.starts && p.exit.Some? && (forall d :: DoneAt(n, p, d) ==> p.exit.value < d) ==>
                end == p.exit && exec.status == if p.ok then Succeeded else Failed
      ensures p.starts && p.exit.None? && (forall d :: !DoneAt(n, p, d)) ==> end.None? && exec.status == Running
      ensures exec.pid == if p.starts then p.pid else 0
      ensures exec.failed <==> exec.status == Failed
      ensures exec.finishedAt == if p.starts then end else None
      ensures end == EndOf(n, p)
      ensures LegalSteps(NewExec(0, exec.jobID, exec.attemptID, 0), Steps(n, p))
      ensures var x := AfterSteps(NewExec(0, exec.jobID, exec.attemptID, 0), Steps(n, p));
              exec.status == x.status && exec.pid == x.pid && exec.history == x.history
    {
      StepsLegal(n, p, exec.jobID, exec.attemptID);
      DoneAtIff(n, p);
      exec.Store(Running);
      if !p.starts {
        exec.Store(Failed);
        exec.failed := true;
        end := Some(0);
        executions := executions - {exec.id};
        return;
      }
      exec.pid := p.pid;
      var done := WaitDone(n, p);
      if ExitsFirst(n, p) {
        end := p.exit;
        exec.finishedAt := end;
        if !p.ok {
          exec.Store(Failed);
          exec.failed := true;
        } else {
          exec.Store(Succeeded);
        }
      } else if done.Some? {
        if p.exitAfterTerm.Some? && p.exitAfterTerm.value <= KILL_GRACE {
          end := Some(done.value + p.exitAfterTerm.value);
        } else {
          end := Some(done.value + KILL_GRACE);
        }
        exec.finishedAt := end;
        exec.Store(Failed);
        exec.failed := true;
      } else {
        end := None;
        return;
      }
      executions := executions - {exec.id};
    }

    /** The message a visit would send for each execution of the map. */
    function Snapshot(): map<Id, Heartbeat>
      reads this, executions.Values
    {
      map e | e in executions :: var x := executions[e]; Heartbeat(e, x.jobID, x.attemptID, x.status, x.pid)
    }

    /**
      One tick without interference: the executions of the map are visited in some order, the
      RUNNING ones are sent, and the first failing send, the `sendable`-th, ends the stream.
     */
    method Tick(order: seq<Id>, sendable: nat) returns (sent: seq<Heartbeat>, broken: bool)
      requires Valid()
      requires forall i :: 0 <= i < |order| ==> order[i] in executions
      ensures broken <==> sendable < |RunningBeats(Snapshot(), order)|
      ensures sent == if broken then RunningBeats(Snapshot(), order)[..sendable] else RunningBeats(Snapshot(), order)
    {
      sent, broken := [], false;
      ghost var beats := Snapshot();
      var i := 0;
      while i < |order|
        invariant 0 <= i <= |order| && |sent| <= sendable
        invariant RunningBeats(beats, order) == sent + RunningBeats(beats, order[i..])
      {
        var exec := executions[order[i]];
        assert order[i] in beats
               && beats[order[i]] == Heartbeat(exec.id, exec.jobID, exec.attemptID, exec.status, exec.pid);
        assert order[i..][1..] == order[i + 1..];
        if exec.status == Running {
          if |sent| == sendable {
            broken := true;
            return;
          }
          sent := sent + [Heartbeat(exec.id, exec.jobID, exec.attemptID, exec.status, exec.pid)];
        }
        i := i + 1;
      }
    }
  }

  function RunningBeats(beats: map<Id, Heartbeat>, order: seq<Id>): seq<Heartbeat> {
    if order == [] then []
    else (if order[0] in beats && beats[order[0]].status == Running then [beats[order[0]]] else [])
         + RunningBeats(beats, order[1..])
  }

  predicate Distinct(q: seq<Heartbeat>) {
    forall i, j :: 0 <= i < j < |q| ==> q[i] != q[j]
  }

  lemma DistinctCons(hb: Heartbeat, q: seq<Heartbeat>)
    requires Distinct(q) && hb !in q
    ensures Distinct([hb] + q)
  {
  }

  lemma {:induction false} BeatsExactly(beats: map<Id, Heartbeat>, order: seq<Id>)
    requires forall e :: e in beats ==> beats[e].exec == e
    ensures forall hb :: hb in RunningBeats(beats, order) <==>
                           hb.exec in order && hb.exec in beats && hb == beats[hb.exec] && hb.status == Running
    decreases |order|
  {
    if order != [] {
      BeatsExactly(beats, order[1..]);
    }
  }

  /** What a tick has to send, told by the records alone: one message per RUNNING one, with its ids and PID. */
  lemma TickContents(s: Server, order: seq<Id>, hb: Heartbeat)
    requires s.Valid() && forall i :: 0 <= i < |order| ==> order[i] in s.executions
    ensures hb in RunningBeats(s.Snapshot(), order) <==>
            hb.exec in order && hb.exec in s.executions && s.executions[hb.exec].status == Running
            && hb.status == Running && hb.job == s.executions[hb.exec].jobID
            && hb.attempt == s.executions[hb.exec].attemptID && hb.pid == s.executions[hb.exec].pid
  {
    BeatsExactly(s.Snapshot(), order);
  }

  /** Without interference a tick sends RUNNING only, and exactly once for each RUNNING execution. */
  lemma {:induction false} QuietTick(beats: map<Id, Heartbeat>, order: seq<Id>)
    requires forall e :: e in beats ==> beats[e].exec == e
    requires forall i, j :: 0 <= i < j < |order| ==> order[i] != order[j]
    ensures forall hb :: hb in RunningBeats(beats, order) <==>
                           hb.exec in order && hb.exec in beats && hb == beats[hb.exec] && hb.status == Running
    ensures Distinct(RunningBeats(beats, order))
    decreases |order|
  {
    BeatsExactly(beats, order);
    if order != [] {
      QuietTick(beats, order[1..]);
      assert order[0] !in order[1..];
      var rest := RunningBeats(beats, order[1..]);
      if order[0] in beats && beats[order[0]].status == Running {
        DistinctCons(beats[order[0]], rest);
      } else {
        assert RunningBeats(beats, order) == rest;
      }
    }
  }

  lemma DoneAtIff(n: int, p: Process)
    ensures forall d :: DoneAt(n, p, d) <==> WaitDone(n, p) == Some(d)
    ensures WaitDone(n, p).Some? ==> DoneAt(n, p, WaitDone(n, p).value)
  {
  }

  lemma StepsLegal(n: int, p: Process, job: Id, attempt: Id)
    ensures LegalSteps(NewExec(0, job, attempt, 0), Steps(n, p))
    ensures var x := AfterSteps(NewExec(0, job, attempt, 0), Steps(n, p));
            if !p.starts then x.status == Failed && x.pid == 0 && x.history == [Pending, Running, Failed]
            else && x.pid == p.pid
                 && (if ExitsFirst(n, p) then
                       x.status == (if p.ok then Succeeded else Failed) && x.history == [Pending, Running, x.status]
                     else if WaitDone(n, p).Some? then x.status == Failed && x.history == [Pending, Running, Failed]
                     else x.status == Running && x.history == [Pending, Running])
  {
    var x0 := NewExec(0, job, attempt, 0);
    var steps := Steps(n, p);
    Unroll(x0, steps);
    var x1 := ExecNext(x0, MarkRunning);
    Unroll(x1, steps[1..]);
    if !p.starts {
      Unroll(ExecNext(x1, StartErr), steps[2..]);
      Unroll(ExecNext(ExecNext(x1, StartErr), Remove), steps[3..]);
    } else {
      var x2 := ExecNext(x1, StartOk(p.pid));
      Unroll(x2, steps[2..]);
      var x3 := ExecNext(x2, StorePid);
      Unroll(x3, steps[3..]);
      if |steps| > 3 {
        var x4 := ExecNext(x3, steps[3]);
        Unroll(x4, steps[4..]);
        Unroll(ExecNext(x4, steps[4]), steps[5..]);
        if |steps| > 5 {
          Unroll(ExecNext(ExecNext(x4, steps[4]), steps[5]), steps[6..]);
        }
      }
    }
  }

  lemma Unroll(x: Exec, steps: seq<ExecAction>)
    ensures LegalSteps(x, steps) ==
              (steps == [] || (ExecEnabled(x, steps[0]) && LegalSteps(ExecNext(x, steps[0]), steps[1..])))
    ensures LegalSteps(x, steps) ==>
              AfterSteps(x, steps) == if steps == [] then x else AfterSteps(ExecNext(x, steps[0]), steps[1..])
    ensures |steps| > 0 ==> forall i :: 0 <= i <= |steps| - 1 ==> steps[1..][i..] == steps[i + 1..]
  {
  }

  // ---------- the deadline ----------

  ghost predicate Bounded(n: int) {
    forall p: Process :: EndOf(n, p).Some? && EndOf(n, p).value <= n * SECOND + KILL_GRACE
  }

  /**
    For a positive truncated TimeoutSeconds n, every process is over n + 10 s after its start,
    exactly if the int64 nanosecond product did not wrap to zero or below.
   */
  lemma DeadlineHolds(n: int)
    requires 1 <= n
    ensures Bounded(n) <==> Timeout(n) > 0
  {
    if Timeout(n) <= 0 {
      assert EndOf(n, Process(true, 0, None, true, None, None, true)).None?;
    } else {
      assert Timeout(n) <= n * SECOND;
    }
  }

  /** The integers a float32 can hold: 24 significant bits. */
  predicate Float32Int(n: nat) {
    n < 0x100_0000 || (n % 2 == 0 && Float32Int(n / 2))
  }

  /** From 2^(23+k) on, a float32 is a multiple of 2^k. */
  lemma {:induction false} Spacing(n: nat, k: nat) returns (q: nat)
    requires Float32Int(n) && n >= 0x80_0000 * Pow2(k)
    ensures n == q * Pow2(k)
    decreases k
  {
    if k == 0 {
      q := n;
    } else {
      PositivePow2(k - 1);
      q := Spacing(n / 2, k - 1);
      assert n == 2 * (q * Pow2(k - 1)) == q * (2 * Pow2(k - 1));
    }
  }

  lemma {:induction false} PositivePow2(k: nat)
    ensures Pow2(k) >= 1
  {
    if k > 0 { PositivePow2(k - 1); }
  }

  /**
    TimeoutSeconds is a float32.  For the values it can have the product is exact up to 9223371776 s,
    and the next larger value, 9223372800 s, wraps to a negative duration.
   */
  lemma FirstWrap(n: nat)
    requires Float32Int(n)
    ensures Timeout(n) == n * SECOND <==> n < 9_223_372_800
    ensures n < 9_223_372_800 ==> n <= 9_223_371_776
    ensures Float32Int(9_223_371_776) && Float32Int(9_223_372_800)
    ensures Timeout(9_223_372_800) < 0 && !Bounded(9_223_372_800)
  {
    DeadlineHolds(9_223_372_800);
    Representable();
    ExactProduct(n);
    if n > 9_223_371_776 {
      assert Pow2(10) == 1024;
      var q := Spacing(n, 10);
    }
  }

  lemma ExactProduct(n: nat)
    ensures Timeout(n) == n * SECOND <==> n <= 9_223_372_036
  {
  }

  lemma {:induction false} Doubled(n: nat, k: nat)
    requires Float32Int(n)
    ensures Float32Int(n * Pow2(k))
    decreases k
  {
    if k > 0 {
      Doubled(n, k - 1);
      assert n * Pow2(k) == 2 * (n * Pow2(k - 1));
    }
  }

  lemma Representable()
    ensures Float32Int(9_223_371_776) && Float32Int(9_223_372_800) && Float32Int(18_446_745_600)
  {
    assert Pow2(10) == 1024 && Pow2(11) == 2048;
    Doubled(9_007_199, 10);
    Doubled(9_007_200, 10);
    Doubled(9_007_200, 11);
  }

  // ---------- the timeout as it was asked for, with fractions ----------

  /** A float32 value that is not negative: 24 significant bits at some scale. */
  ghost predicate Float32(t: real) {
    exists m: nat, k: nat :: Scaled(t, m, k)
  }

  predicate Scaled(t: real, m: nat, k: nat) {
    m < 0x100_0000 && (t == (m * Pow2(k)) as real || t * (Pow2(k) as real) == m as real)
  }

  /** Whole float32 values are the integers above; the others are below 2^24. */
  lemma WholeOrSmall(t: real)
    requires Float32(t) && t >= 0.0
    ensures t == t.Floor as real ==> Float32Int(t.Floor)
    ensures t != t.Floor as real ==> t.Floor < 0x100_0000
  {
    var m: nat, k: nat :| Scaled(t, m, k);
    if t == (m * Pow2(k)) as real {
      Doubled(m, k);
    } else {
      PositivePow2(k);
      AtMostProduct(t, Pow2(k) as real);
    }
  }

  lemma AtMostProduct(t: real, p: real)
    requires t >= 0.0 && p >= 1.0
    ensures t <= t * p
  {
  }

  /** No process outlives the timeout of `t` s by more than 10 s. */
  ghost predicate BoundedBy(t: real) {
    forall p: Process :: Within(EndOf(t.Floor, p), t)
  }

  predicate Within(end: Option<int>, t: real) {
    end.Some? && end.value as real <= t * SECOND as real + KILL_GRACE as real
  }

  /** A process nobody cancels that exits by itself with code 0 before `t` s are over. */
  predicate Prompt(t: real, p: Process) {
    p.starts && p.ok && p.cancelled.None? && p.exit.Some? && p.exit.value as real < t * SECOND as real
  }

  /** No such process is killed. */
  ghost predicate SparesPrompt(t: real) {
    forall p: Process :: Prompt(t, p) ==> ExitsFirst(t.Floor, p)
  }

  lemma BoundedIff(t: real)
    requires t > 0.0
    ensures BoundedBy(t) <==> Timeout(t.Floor) > 0
  {
    var n := t.Floor;
    if Timeout(n) > 0 {
      assert n >= 1 && Timeout(n) <= n * SECOND && (n * SECOND) as real <= t * SECOND as real;
    } else {
      assert !Within(EndOf(n, Process(true, 0, None, true, None, None, true)), t);
    }
  }

  lemma SparesIff(t: real)
    requires t > 0.0
    ensures SparesPrompt(t) <==>
            Timeout(t.Floor) <= 0 || (t == t.Floor as real && Timeout(t.Floor) == t.Floor * SECOND)
  {
    var n := t.Floor;
    assert Timeout(n) <= n * SECOND && (n * SECOND) as real <= t * SECOND as real;
    if Timeout(n) > 0 && (t != n as real || Timeout(n) != n * SECOND) {
      var p := Process(true, 0, Some(Timeout(n)), true, None, None, false);
      assert Timeout(n) as real < t * SECOND as real;
      assert Prompt(t, p) && !ExitsFirst(n, p);
    }
  }

  /**
    What becomes of a timeout of t s, t > 0.  It is kept, so that no process outlives it by more than
    10 s and none that finishes in time is killed, exactly for whole seconds below 9223372800.  Below
    1 s it is absent, any other fraction is cut short, and from 9223372800 s on it is absent or too
    short according to the sign of the wrapped product.
   */
  lemma TimeoutKept(t: real)
    requires Float32(t) && t > 0.0
    ensures BoundedBy(t) && SparesPrompt(t) <==> t == t.Floor as real && t < 9_223_372_800.0
    ensures t < 1.0 ==> !BoundedBy(t) && SparesPrompt(t)
    ensures t > 1.0 && t != t.Floor as real ==> BoundedBy(t) && !SparesPrompt(t)
    ensures t >= 9_223_372_800.0 ==>
              (BoundedBy(t) <==> Timeout(t.Floor) > 0) && (SparesPrompt(t) <==> Timeout(t.Floor) <= 0)
  {
    BoundedIff(t);
    SparesIff(t);
    WholeOrSmall(t);
    ExactProduct(t.Floor);
    if t == t.Floor as real {
      FirstWrap(t.Floor);
    }
  }

  /** Inputs of each kind: 0.5 s is no timeout, 1.5 s kills a process that would succeed after 1.2 s. */
  lemma FractionsAreLost()
    ensures Float32(0.5) && !BoundedBy(0.5)
    ensures Float32(1.5)
    ensures var p := Process(true, 0, Some(1_200_000_000), true, None, None, true);
            Prompt(1.5, p) && !ExitsFirst(1.5.Floor, p)
  {
    assert Scaled(0.5, 1, 1) && Scaled(1.5, 3, 1);
    BoundedIff(0.5);
  }

  /** 9223372800 s is no timeout either, and 18446745600 s is one of about 1526 s. */
  lemma AbsentAndTooShort()
    ensures Float32Int(9_223_372_800) && !BoundedBy(9_223_372_800.0) && SparesPrompt(9_223_372_800.0)
    ensures Float32Int(18_446_745_600) && BoundedBy(18_446_745_600.0) && !SparesPrompt(18_446_745_600.0)
    ensures Timeout(18_446_745_600) == 1_526_290_448_384
  {
    FirstWrap(1);
    Representable();
    BoundedIff(9_223_372_800.0);
    SparesIff(9_223_372_800.0);
    BoundedIff(18_446_745_600.0);
    SparesIff(18_446_745_600.0);
  }
}
