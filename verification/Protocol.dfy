/**
  The execution protocol: any number of `executeJob` goroutines, Run calls, `execute` goroutines
  and heartbeat loops, interleaved arbitrarily with stream delivery into the dispatcher's table
  and with failures of every external call.  One action is one access to something shared.
 */
module Protocol {
  import opened Common
  import opened Heartbeats
  import opened Attempts
  import opened Executions
  import opened Runtimes

  /** A Run request on the wire; a runtime serves it at most once, even after the caller gave up. */
  datatype Call = Call(rt: Id, job: Id, attempt: Id, result: Option<Id>)

  datatype State = State(ledger: Ledger, calls: map<Id, Call>, r: Runtimes, views: map<Id, View>)

  function Init(): State {
    State(Ledger({}, map[], map[], map[]), map[], Runtimes(map[], map[], map[], []), map[])
  }

  datatype Action =
    | StoreJob(job: Id)
    | Begin(t: Id, job: Id)
    | Advance(t: Id, ta: ThreadAction)
    | Serve(t: Id, exec: Id)
    | Execute(exec: Id, xa: ExecAction)
    | Beat(rt: Id, la: LoopAction)
    | Lose(stream: Stream, keep: nat)
    | Deliver(stream: Stream, now: int)

  predicate Enabled(s: State, a: Action) {
    match a
    case StoreJob(_) => true
    case Begin(t, _) => t !in s.ledger.threads
    case Advance(t, ta) =>
      && ThreadEnabled(s.ledger, t, ta)
      && (ta.CallOk? ==> t in s.calls && s.calls[t].result == Some(ta.exec))
    case Serve(t, e) =>
      t in s.calls && s.calls[t].result.None? && e !in s.r.execs && Unlocked(s.r, s.calls[t].rt)
    case Execute(e, xa) =>
      e in s.r.execs && ExecEnabled(s.r.execs[e], xa) && (xa.Remove? ==> Unlocked(s.r, s.r.execs[e].rt))
    case Beat(rt, la) => LoopEnabled(s.r, rt, la)
    case Lose(k, keep) => k in s.r.streams && keep <= |s.r.streams[k]|
    case Deliver(k, _) => k in s.r.streams && s.r.streams[k] != []
  }

  function Apply(s: State, a: Action): State
    requires Enabled(s, a)
  {
    match a
    case StoreJob(j) => s.(ledger := s.ledger.(jobs := s.ledger.jobs + {j}))
    case Begin(t, j) => s.(ledger := s.ledger.(threads := s.ledger.threads[t := Thread(j, Load)]))
    case Advance(t, ta) => ApplyAdvance(s, t, ta)
    case Serve(t, e) => ApplyServe(s, t, e)
    case Execute(e, xa) => s.(r := s.r.(execs := s.r.execs[e := ExecNext(s.r.execs[e], xa)]))
    case Beat(rt, la) => s.(r := LoopApply(s.r, rt, la))
    case Lose(k, keep) => s.(r := s.r.(streams := s.r.streams[k := s.r.streams[k][..keep]]))
    case Deliver(k, now) =>
      s.(r := s.r.(streams := s.r.streams[k := s.r.streams[k][1..]]),
      views := Fold(s.views, s.r.streams[k][0], now))
  }

  function ApplyAdvance(s: State, t: Id, ta: ThreadAction): State
    requires ThreadEnabled(s.ledger, t, ta)
  {
    var th := s.ledger.threads[t];
    State(
      ThreadNext(s.ledger, t, ta),
      if ta.DialOk? then s.calls[t := Call(ta.rt, th.job, th.pc.attempt, None)] else s.calls,
      s.r,
      ViewsNext(s.views, th, ta))
  }

  /** Only registration touches the dispatcher's table. */
  function ViewsNext(views: map<Id, View>, th: Thread, ta: ThreadAction): map<Id, View> {
    if ta.RegisterOk? && th.pc.Register? then Registered(views, th.pc.exec, th.job, th.pc.attempt) else views
  }

  function ApplyServe(s: State, t: Id, e: Id): State
    requires t in s.calls
  {
    var c := s.calls[t];
    s.(calls := s.calls[t := c.(result := Some(e))],
    r := s.r.(execs := s.r.execs[e := NewExec(c.rt, c.job, c.attempt, t)]))
  }

  // ---------- runs ----------

  predicate Legal(s: State, acts: seq<Action>)
    decreases |acts|
  {
    acts == [] || (Enabled(s, acts[0]) && Legal(Apply(s, acts[0]), acts[1..]))
  }

  function After(s: State, acts: seq<Action>): State
    requires Legal(s, acts)
    decreases |acts|
  {
    if acts == [] then s else After(Apply(s, acts[0]), acts[1..])
  }

  /** No message of a stream is delivered once its runtime has opened a newer one. */
  predicate InOrder(s: State, a: Action) {
    a.Deliver? ==> a.stream.epoch == LoopOf(s.r, a.stream.rt).epoch
  }

  predicate AllInOrder(s: State, acts: seq<Action>)
    requires Legal(s, acts)
    decreases |acts|
  {
    acts == [] || (InOrder(s, acts[0]) && AllInOrder(Apply(s, acts[0]), acts[1..]))
  }

  // ---------- calls, executions and the dispatcher's table ----------

  /** The goroutine has sent its Run request, with this attempt id. */
  predicate Sent(pc: Pc, attempt: Id) {
    && pc.Attempt() == Some(attempt)
    && (pc.Await? || pc.Register? || pc.Fail?
        || (pc.Returned? && (pc.end.MarkedFailed? || pc.end.MarkError? || pc.end.Done?)))
  }

  /** The call belongs to a goroutine that sent it, and its answer is an execution made for it. */
  predicate CallFits(th: Thread, t: Id, c: Call, execs: map<Id, Exec>) {
    && c.job == th.job && Sent(th.pc, c.attempt)
    && (c.result.Some? ==> c.result.value in execs && execs[c.result.value].origin == t)
  }

  /** The execution was created by the one call that names it. */
  predicate Linked(calls: map<Id, Call>, e: Id, x: Exec) {
    && x.origin in calls
    && var c := calls[x.origin];
       c.result == Some(e) && c.rt == x.rt && c.job == x.job && c.attempt == x.attempt
  }

  /** The execution a goroutine holds on to, if any, is the answer to its own call. */
  predicate Answered(pc: Pc, t: Id, calls: map<Id, Call>) {
    && (pc.Await? ==> t in calls)
    && (pc.Register? ==> t in calls && calls[t].result == Some(pc.exec))
    && (pc.Returned? && pc.end.Done? ==> t in calls && calls[t].result == Some(pc.end.exec))
  }

  ghost predicate CallsOk(threads: map<Id, Thread>, calls: map<Id, Call>, execs: map<Id, Exec>) {
    && (forall t :: t in calls ==> t in threads && CallFits(threads[t], t, calls[t], execs))
    && (forall e :: e in execs ==> Linked(calls, e, execs[e]))
    && (forall t :: t in threads ==> Answered(threads[t].pc, t, calls))
  }

  /** The goroutine that asked for `e` returned after registering it. */
  predicate HasRegistered(threads: map<Id, Thread>, e: Id, x: Exec) {
    x.origin in threads && threads[x.origin].pc == Returned(Done(x.attempt, e))
  }

  /** What the table says of `e` is true: ids, a status `e` reached, and the PID of a success. */
  predicate ViewOk(x: Exec, v: View) {
    && v.job == x.job && v.attempt == x.attempt
    && v.status in x.history
    && (v.status != Pending ==> v.status.Rank() <= x.reported)
    && (v.status.Succeeded? ==> x.proc == Some(v.pid))
  }

  ghost predicate ViewsOk(threads: map<Id, Thread>, execs: map<Id, Exec>, views: map<Id, View>) {
    && (forall e :: e in views ==> e in execs && ViewOk(execs[e], views[e]))
    && (forall e :: e in execs ==> (e in views <==> HasRegistered(threads, e, execs[e])))
  }

  ghost predicate Inv(s: State) {
    && LedgerOk(s.ledger) && RuntimesOk(s.r)
    && CallsOk(s.ledger.threads, s.calls, s.r.execs)
    && ViewsOk(s.ledger.threads, s.r.execs, s.views)
  }
}
