/**
  The runtimes: their execution maps, their heartbeat loops and the streams the loops feed.
  A loop reads an execution's status twice per heartbeat, once to decide and once to send, and
  `execute` goroutines may run between the two reads.
 */
module Runtimes {
  import opened Common
  import opened Heartbeats
  import opened Executions

  /** The loop between two accesses while it visits one execution. */
  datatype Cursor = Between | Checked(exec: Id) | Loaded(exec: Id, status: Status) | Ready(hb: Heartbeat) {
    function Visited(): Option<Id> {
      match this
      case Between => None
      case Checked(e) => Some(e)
      case Loaded(e, _) => Some(e)
      case Ready(hb) => Some(hb.exec)
    }
  }

  /** `epoch` counts the streams this runtime has opened; Scan holds the read lock. */
  datatype Loop =
    | Down(epoch: nat)
    | Idle(epoch: nat)
    | Scan(epoch: nat, todo: set<Id>, cursor: Cursor)

  datatype Stream = Stream(rt: Id, epoch: nat)

  type Streams = map<Stream, seq<Heartbeat>>

  /** Removed executions stay in `execs` as history; the runtime's own map is `InMap`. */
  datatype Runtimes = Runtimes(
    execs: map<Id, Exec>,
    loops: map<Id, Loop>,
    streams: Streams,
    generated: seq<Heartbeat>)

  function LoopOf(r: Runtimes, rt: Id): Loop {
    if rt in r.loops then r.loops[rt] else Down(0)
  }

  /** The executions in the map of runtime `rt`. */
  function InMap(r: Runtimes, rt: Id): set<Id> {
    set e | e in r.execs && r.execs[e].rt == rt && !r.execs[e].stage.Removed?
  }

  datatype LoopAction =
    | Connect | Tick
    | Check(exec: Id) | LoadStatus | LoadPid | SendOk | SendErr
    | EndTick

  predicate LoopEnabled(r: Runtimes, rt: Id, a: LoopAction) {
    var l := LoopOf(r, rt);
    match a
    case Connect => l.Down?
    case Tick => l.Idle?
    case Check(e) => l.Scan? && l.cursor.Between? && e in l.todo && e in r.execs
    case LoadStatus => l.Scan? && l.cursor.Checked? && l.cursor.exec in r.execs
    case LoadPid => l.Scan? && l.cursor.Loaded? && l.cursor.exec in r.execs
    case SendOk => l.Scan? && l.cursor.Ready? && Stream(rt, l.epoch) in r.streams
    case SendErr => l.Scan? && l.cursor.Ready?
    case EndTick => l.Scan? && l.cursor.Between? && l.todo == {}
  }

  function LoopNext(r: Runtimes, rt: Id, a: LoopAction): Loop
    requires LoopEnabled(r, rt, a)
  {
    var l := LoopOf(r, rt);
    match a
    case Connect => Idle(l.epoch + 1)
    case Tick => Scan(l.epoch, InMap(r, rt), Between)
    case Check(e) =>
      if r.execs[e].status != Running then l.(todo := l.todo - {e}) else l.(cursor := Checked(e))
    case LoadStatus => l.(cursor := Loaded(l.cursor.exec, r.execs[l.cursor.exec].status))
    case LoadPid => l.(cursor := Ready(Beat(r, l.cursor)))
    case SendOk => l.(cursor := Between, todo := l.todo - {l.cursor.hb.exec})
    case SendErr => Down(l.epoch)
    case EndTick => Idle(l.epoch)
  }

  /** The message built from the second status read and the PID read after it. */
  function Beat(r: Runtimes, c: Cursor): Heartbeat
    requires c.Loaded? && c.exec in r.execs
  {
    var x := r.execs[c.exec];
    Heartbeat(c.exec, x.job, x.attempt, c.status, x.pid)
  }

  function LoopApply(r: Runtimes, rt: Id, a: LoopAction): Runtimes
    requires LoopEnabled(r, rt, a)
  {
    var l := LoopOf(r, rt);
    Runtimes(
      if a.LoadStatus? then Report(r.execs, l.cursor.exec) else r.execs,
      r.loops[rt := LoopNext(r, rt, a)],
      if a.Connect? then r.streams[Stream(rt, l.epoch + 1) := []]
      else if a.SendOk? then r.streams[Stream(rt, l.epoch) := r.streams[Stream(rt, l.epoch)] + [l.cursor.hb]]
      else r.streams,
      if a.LoadPid? then r.generated + [Beat(r, l.cursor)] else r.generated)
  }

  function Report(execs: map<Id, Exec>, e: Id): map<Id, Exec>
    requires e in execs
  {
    execs[e := execs[e].(reported := execs[e].status.Rank())]
  }

  /** Inserting into a runtime's map and deleting from it take the write lock. */
  predicate Unlocked(r: Runtimes, rt: Id) {
    !LoopOf(r, rt).Scan?
  }

  // ---------- what every step keeps ----------

  ghost predicate Grows(execs: map<Id, Exec>, execs': map<Id, Exec>) {
    forall e :: e in execs ==> e in execs' && Later(execs[e], execs'[e])
  }

  ghost predicate ExecsOk(execs: map<Id, Exec>) {
    forall e :: e in execs ==> ExecOk(execs[e])
  }

  /** A true message of a runtime about one of its own executions. */
  predicate MessageOk(execs: map<Id, Exec>, rt: Id, hb: Heartbeat) {
    hb.exec in execs && execs[hb.exec].rt == rt && Fits(execs[hb.exec], hb)
  }

  ghost predicate QueueOk(execs: map<Id, Exec>, rt: Id, q: seq<Heartbeat>) {
    && (forall i :: 0 <= i < |q| ==> MessageOk(execs, rt, q[i]))
    && Sorted(q)
  }

  /** Messages about one execution never report a status before one sent earlier. */
  ghost predicate Sorted(q: seq<Heartbeat>) {
    forall i, j :: 0 <= i < j < |q| && q[i].exec == q[j].exec ==> AtMost(q[i].status, q[j].status)
  }

  ghost predicate StreamsOk(r: Runtimes) {
    forall k :: k in r.streams ==>
      QueueOk(r.execs, k.rt, r.streams[k]) && k.epoch <= LoopOf(r, k.rt).epoch
  }

  predicate CursorOk(execs: map<Id, Exec>, rt: Id, c: Cursor) {
    match c
    case Between => true
    case Checked(e) => e in execs && execs[e].rt == rt && Running in execs[e].history
    case Loaded(e, st) =>
      && e in execs && execs[e].rt == rt
      && st in execs[e].history && st != Pending && st.Rank() == execs[e].reported
    case Ready(hb) => MessageOk(execs, rt, hb) && hb.status.Rank() == execs[hb.exec].reported
  }

  ghost predicate LoopsOk(r: Runtimes) {
    forall rt :: rt in r.loops && r.loops[rt].Scan? ==>
      TodoOk(r.execs, rt, r.loops[rt]) && CursorOk(r.execs, rt, r.loops[rt].cursor)
  }

  /** While the loop holds the read lock, everything it has still to visit stays in the map. */
  predicate TodoOk(execs: map<Id, Exec>, rt: Id, l: Loop)
    requires l.Scan?
  {
    && (forall e :: e in l.todo ==> e in execs && execs[e].rt == rt && !execs[e].stage.Removed?)
    && (l.cursor.Visited().Some? ==> l.cursor.Visited().value in l.todo)
  }

  /** `rt` is past the first status read of `e` and has not built the message yet. */
  predicate Committed(r: Runtimes, e: Id) {
    e in r.execs && var l := LoopOf(r, r.execs[e].rt);
    l.Scan? && (l.cursor == Checked(e) || (l.cursor.Loaded? && l.cursor.exec == e))
  }

  ghost predicate GeneratedOk(r: Runtimes) {
    && (forall i :: 0 <= i < |r.generated| ==>
          r.generated[i].exec in r.execs && Fits(r.execs[r.generated[i].exec], r.generated[i]))
    && (forall i, j :: 0 <= i < j < |r.generated| && r.generated[i].exec == r.generated[j].exec ==>
          r.generated[i].status == Running)
    && (forall i :: 0 <= i < |r.generated| && Committed(r, r.generated[i].exec) ==>
          r.generated[i].status == Running)
  }

  ghost predicate RuntimesOk(r: Runtimes) {
    ExecsOk(r.execs) && LoopsOk(r) && StreamsOk(r) && GeneratedOk(r)
  }

  // ---------- executions evolving under the messages about them ----------

  lemma QueueLater(execs: map<Id, Exec>, execs': map<Id, Exec>, rt: Id, q: seq<Heartbeat>)
    requires QueueOk(execs, rt, q) && Grows(execs, execs')
    ensures QueueOk(execs', rt, q)
  {
    forall i | 0 <= i < |q| ensures MessageOk(execs', rt, q[i]) {
      assert MessageOk(execs, rt, q[i]);
      FitsLater(execs[q[i].exec], execs'[q[i].exec], q[i]);
    }
  }

  /** `execute` steps, insertions and the report mark: loops, streams and messages stay put. */
  lemma ExecsStep(r: Runtimes, execs': map<Id, Exec>)
    requires RuntimesOk(r) && ExecsOk(execs') && Grows(r.execs, execs')
    requires forall e :: e in r.execs ==> execs'[e].reported == r.execs[e].reported
    requires forall e :: e in r.execs && !Unlocked(r, r.execs[e].rt) ==>
               (execs'[e].stage.Removed? ==> r.execs[e].stage.Removed?)
    ensures RuntimesOk(r.(execs := execs'))
  {
    var r' := r.(execs := execs');
    forall k | k in r'.streams ensures QueueOk(execs', k.rt, r'.streams[k]) {
      QueueLater(r.execs, execs', k.rt, r.streams[k]);
    }
    forall rt | rt in r.loops && r.loops[rt].Scan?
      ensures TodoOk(execs', rt, r.loops[rt]) && CursorOk(execs', rt, r.loops[rt].cursor)
    {
      assert TodoOk(r.execs, rt, r.loops[rt]) && CursorOk(r.execs, rt, r.loops[rt].cursor);
      assert !Unlocked(r, rt);
    }
    forall i | 0 <= i < |r.generated|
      ensures r.generated[i].exec in execs' && Fits(execs'[r.generated[i].exec], r.generated[i])
    {
      FitsLater(r.execs[r.generated[i].exec], execs'[r.generated[i].exec], r.generated[i]);
    }
  }

  // ---------- one access of a heartbeat loop ----------

  lemma ReportOk(execs: map<Id, Exec>, e: Id)
    requires ExecsOk(execs) && e in execs
    ensures ExecsOk(Report(execs, e)) && Grows(execs, Report(execs, e))
    ensures var x := Report(execs, e)[e];
            x.status in x.history && x.reported == x.status.Rank() && x.status == execs[e].status
  {
    ReachedAtMost(execs[e], Pending);
  }

  lemma LoopStepLoops(r: Runtimes, rt: Id, a: LoopAction)
    requires RuntimesOk(r) && LoopEnabled(r, rt, a)
    ensures LoopsOk(LoopApply(r, rt, a))
  {
    var l, r' := LoopOf(r, rt), LoopApply(r, rt, a);
    if l.Scan? {
      assert rt in r.loops && CursorOk(r.execs, rt, l.cursor) && TodoOk(r.execs, rt, l);
    }
    if a.LoadStatus? {
      ReportOk(r.execs, l.cursor.exec);
      ReachedAtMost(r.execs[l.cursor.exec], Running);
    } else if a.LoadPid? {
      BeatFits(r, l.cursor);
    } else if a.Check? {
      ReachedAtMost(r.execs[a.exec], Pending);
    }
    forall u | u in r'.loops && r'.loops[u].Scan?
      ensures TodoOk(r'.execs, u, r'.loops[u]) && CursorOk(r'.execs, u, r'.loops[u].cursor)
    {
      if u != rt {
        assert TodoOk(r.execs, u, r.loops[u]) && CursorOk(r.execs, u, r.loops[u].cursor);
      }
    }
  }

  /** PID is stored before SUCCEEDED and read after it, so a success carries the process's PID. */
  lemma BeatFits(r: Runtimes, c: Cursor)
    requires ExecsOk(r.execs) && c.Loaded? && c.exec in r.execs
    requires c.status in r.execs[c.exec].history && c.status != Pending
    requires c.status.Rank() == r.execs[c.exec].reported
    ensures Fits(r.execs[c.exec], Beat(r, c))
  {
    ReachedAtMost(r.execs[c.exec], c.status);
  }

  lemma LoopStepStreams(r: Runtimes, rt: Id, a: LoopAction)
    requires RuntimesOk(r) && LoopEnabled(r, rt, a)
    ensures StreamsOk(LoopApply(r, rt, a))
  {
    var l, r' := LoopOf(r, rt), LoopApply(r, rt, a);
    if a.LoadStatus? {
      ReportOk(r.execs, l.cursor.exec);
    }
    forall k | k in r'.streams
      ensures QueueOk(r'.execs, k.rt, r'.streams[k]) && k.epoch <= LoopOf(r', k.rt).epoch
    {
      if k in r.streams {
        QueueLater(r.execs, r'.execs, k.rt, r.streams[k]);
        if a.SendOk? && k == Stream(rt, l.epoch) {
          assert CursorOk(r.execs, rt, l.cursor);
          QueueAppend(r.execs, rt, r.streams[k], l.cursor.hb);
        }
      }
    }
  }

  lemma QueueAppend(execs: map<Id, Exec>, rt: Id, q: seq<Heartbeat>, hb: Heartbeat)
    requires ExecsOk(execs) && QueueOk(execs, rt, q)
    requires MessageOk(execs, rt, hb) && hb.status.Rank() == execs[hb.exec].reported
    ensures QueueOk(execs, rt, q + [hb])
  {
    forall i | 0 <= i < |q| && q[i].exec == hb.exec ensures AtMost(q[i].status, hb.status) {
      assert MessageOk(execs, rt, q[i]);
      ReachedOrder(execs[hb.exec], q[i].status, hb.status);
    }
  }

  lemma LoopStepGenerated(r: Runtimes, rt: Id, a: LoopAction)
    requires RuntimesOk(r) && LoopEnabled(r, rt, a)
    ensures GeneratedOk(LoopApply(r, rt, a))
  {
    var l, r' := LoopOf(r, rt), LoopApply(r, rt, a);
    if l.Scan? {
      assert rt in r.loops && CursorOk(r.execs, rt, l.cursor);
    }
    if a.LoadStatus? {
      ReportOk(r.execs, l.cursor.exec);
    }
    if a.LoadPid? {
      BeatFits(r, l.cursor);
      assert Committed(r, l.cursor.exec);
    }
    forall i | 0 <= i < |r.generated|
      ensures r.generated[i].exec in r'.execs && Fits(r'.execs[r.generated[i].exec], r.generated[i])
      ensures Committed(r', r.generated[i].exec) ==> r.generated[i].status == Running
    {
      var e := r.generated[i].exec;
      FitsLater(r.execs[e], r'.execs[e], r.generated[i]);
      if Committed(r', e) && !Committed(r, e) {
        // the first status read just saw RUNNING, so nothing terminal was ever reached
        ReachedAtMost(r.execs[e], r.generated[i].status);
      }
    }
  }

  lemma LoopStep(r: Runtimes, rt: Id, a: LoopAction)
    requires RuntimesOk(r) && LoopEnabled(r, rt, a)
    ensures RuntimesOk(LoopApply(r, rt, a))
    ensures Grows(r.execs, LoopApply(r, rt, a).execs)
  {
    if a.LoadStatus? {
      ReportOk(r.execs, LoopOf(r, rt).cursor.exec);
    }
    LoopStepLoops(r, rt, a);
    LoopStepStreams(r, rt, a);
    LoopStepGenerated(r, rt, a);
  }

  // ---------- nothing is sent that was not generated ----------

  ghost predicate Posted(r: Runtimes) {
    && (forall k, i :: k in r.streams && 0 <= i < |r.streams[k]| ==> r.streams[k][i] in r.generated)
    && (forall rt :: rt in r.loops && r.loops[rt].Scan? && r.loops[rt].cursor.Ready? ==>
          r.loops[rt].cursor.hb in r.generated)
  }

  lemma LoopStepPosted(r: Runtimes, rt: Id, a: LoopAction)
    requires Posted(r) && LoopEnabled(r, rt, a)
    ensures Posted(LoopApply(r, rt, a))
  {
    var l, r' := LoopOf(r, rt), LoopApply(r, rt, a);
    forall k, i | k in r'.streams && 0 <= i < |r'.streams[k]| ensures r'.streams[k][i] in r'.generated {
      if a.SendOk? && k == Stream(rt, l.epoch) && i < |r.streams[k]| {
        assert r.streams[k][i] in r.generated;
      }
    }
  }
}
