/** Every action of the protocol keeps `Protocol.Inv`; one lemma per kind of action. */
module ProtocolInvariants {
  import opened Common
  import opened Heartbeats
  import opened Attempts
  import opened Executions
  import opened Runtimes
  import opened Protocol

  lemma InitInv()
    ensures Inv(Init())
  {
  }

  // ---------- executeJob ----------

  /** A goroutine moves on without sending a new request. */
  lemma MoveCalls(threads: map<Id, Thread>, calls: map<Id, Call>, execs: map<Id, Exec>, t: Id, pc: Pc)
    requires CallsOk(threads, calls, execs) && t in threads
    requires t in calls ==> Sent(pc, calls[t].attempt)
    requires Answered(pc, t, calls)
    ensures CallsOk(threads[t := threads[t].(pc := pc)], calls, execs)
  {
    var threads' := threads[t := threads[t].(pc := pc)];
    forall u | u in calls ensures CallFits(threads'[u], u, calls[u], execs) {
      assert CallFits(threads[u], u, calls[u], execs);
    }
  }

  /** A goroutine sends its request. */
  lemma DialCalls(threads: map<Id, Thread>, calls: map<Id, Call>, execs: map<Id, Exec>, t: Id, pc: Pc, c: Call)
    requires CallsOk(threads, calls, execs) && t in threads && t !in calls
    requires pc == Await(c.attempt) && c.job == threads[t].job && c.result.None?
    ensures CallsOk(threads[t := threads[t].(pc := pc)], calls[t := c], execs)
  {
    var threads', calls' := threads[t := threads[t].(pc := pc)], calls[t := c];
    forall u | u in calls' ensures CallFits(threads'[u], u, calls'[u], execs) {
      if u != t { assert CallFits(threads[u], u, calls[u], execs); }
    }
    forall u | u in threads' ensures Answered(threads'[u].pc, u, calls') {
      assert Answered(threads[u].pc, u, calls);
    }
    forall e | e in execs ensures Linked(calls', e, execs[e]) {
      assert Linked(calls, e, execs[e]);
    }
  }

  lemma SentStep(pc: Pc, a: ThreadAction, attempt: Id)
    requires Sent(pc, attempt) && PcEnabled(pc, a)
    ensures Sent(PcNext(pc, a), attempt) && !a.DialOk?
  {
  }

  lemma AnsweredStep(pc: Pc, a: ThreadAction, t: Id, calls: map<Id, Call>)
    requires Answered(pc, t, calls) && PcEnabled(pc, a) && !a.DialOk?
    requires a.CallOk? ==> t in calls && calls[t].result == Some(a.exec)
    ensures Answered(PcNext(pc, a), t, calls)
  {
  }

  lemma AdvanceCalls(s: State, t: Id, ta: ThreadAction)
    requires Inv(s) && Enabled(s, Advance(t, ta))
    ensures var s' := ApplyAdvance(s, t, ta); CallsOk(s'.ledger.threads, s'.calls, s'.r.execs)
  {
    var th := s.ledger.threads[t];
    if t in s.calls {
      assert CallFits(th, t, s.calls[t], s.r.execs);
      SentStep(th.pc, ta, s.calls[t].attempt);
    }
    if ta.DialOk? {
      DialCalls(s.ledger.threads, s.calls, s.r.execs, t, PcNext(th.pc, ta), Call(ta.rt, th.job, th.pc.attempt, None));
    } else {
      AnsweredStep(th.pc, ta, t, s.calls);
      MoveCalls(s.ledger.threads, s.calls, s.r.execs, t, PcNext(th.pc, ta));
    }
  }

  /** A goroutine that was not done and does not become done leaves the table as it is. */
  lemma MoveViews(s: State, t: Id, pc: Pc)
    requires Inv(s) && t in s.ledger.threads
    requires !s.ledger.threads[t].pc.Returned? && !(pc.Returned? && pc.end.Done?)
    ensures ViewsOk(s.ledger.threads[t := s.ledger.threads[t].(pc := pc)], s.r.execs, s.views)
  {
  }

  /** One call, one execution: what a goroutine is about to register answers its own call only. */
  lemma OwnExecution(threads: map<Id, Thread>, calls: map<Id, Call>, execs: map<Id, Exec>, t: Id, e: Id)
    requires CallsOk(threads, calls, execs) && t in threads
    requires threads[t].pc.Register? && threads[t].pc.exec == e
    ensures e in execs && execs[e].origin == t
    ensures execs[e].job == threads[t].job && execs[e].attempt == threads[t].pc.attempt
    ensures forall f :: f in execs && execs[f].origin == t ==> f == e
  {
    assert Answered(threads[t].pc, t, calls);
    assert CallFits(threads[t], t, calls[t], execs);
    assert Linked(calls, e, execs[e]);
    forall f | f in execs && execs[f].origin == t ensures f == e {
      assert Linked(calls, f, execs[f]);
    }
  }

  /** Registration adds exactly that execution to the table. */
  lemma RegisterViews(threads: map<Id, Thread>, execs: map<Id, Exec>, views: map<Id, View>, t: Id, a: Id, e: Id)
    requires ViewsOk(threads, execs, views) && t in threads && threads[t].pc == Register(a, e)
    requires e in execs && execs[e].origin == t && ExecOk(execs[e])
    requires execs[e].job == threads[t].job && execs[e].attempt == a
    requires forall f :: f in execs && execs[f].origin == t ==> f == e
    ensures e !in views
    ensures ViewsOk(threads[t := threads[t].(pc := Returned(Done(a, e)))], execs,
                    Registered(views, e, threads[t].job, a))
  {
    assert !HasRegistered(threads, e, execs[e]);
    assert Pending == execs[e].history[0];
  }

  lemma AdvanceInv(s: State, t: Id, ta: ThreadAction)
    requires Inv(s) && Enabled(s, Advance(t, ta))
    ensures Inv(Apply(s, Advance(t, ta)))
  {
    ThreadStep(s.ledger, t, ta);
    AdvanceCalls(s, t, ta);
    if ta.RegisterOk? {
      var pc := s.ledger.threads[t].pc;
      OwnExecution(s.ledger.threads, s.calls, s.r.execs, t, pc.exec);
      RegisterViews(s.ledger.threads, s.r.execs, s.views, t, pc.attempt, pc.exec);
    } else {
      MoveViews(s, t, PcNext(s.ledger.threads[t].pc, ta));
    }
  }

  // ---------- runtimes ----------

  /** Executions evolve and nothing else moves. */
  lemma GrowCalls(threads: map<Id, Thread>, calls: map<Id, Call>, execs: map<Id, Exec>, execs': map<Id, Exec>)
    requires CallsOk(threads, calls, execs) && Grows(execs, execs') && execs'.Keys == execs.Keys
    ensures CallsOk(threads, calls, execs')
  {
    forall t | t in calls ensures CallFits(threads[t], t, calls[t], execs') {
      assert CallFits(threads[t], t, calls[t], execs);
    }
    forall e | e in execs' ensures Linked(calls, e, execs'[e]) {
      assert Linked(calls, e, execs[e]) && Later(execs[e], execs'[e]);
    }
  }

  lemma GrowViews(threads: map<Id, Thread>, execs: map<Id, Exec>, execs': map<Id, Exec>, views: map<Id, View>)
    requires ViewsOk(threads, execs, views) && Grows(execs, execs') && execs'.Keys == execs.Keys
    ensures ViewsOk(threads, execs', views)
  {
    forall e | e in execs'
      ensures e in views ==> ViewOk(execs'[e], views[e])
      ensures e in views <==> HasRegistered(threads, e, execs'[e])
    {
      assert Later(execs[e], execs'[e]);
      assert e in views <==> HasRegistered(threads, e, execs[e]);
    }
  }

  lemma ExecuteInv(s: State, e: Id, xa: ExecAction)
    requires Inv(s) && Enabled(s, Execute(e, xa))
    ensures Inv(Apply(s, Execute(e, xa)))
  {
    var x, execs := s.r.execs[e], s.r.execs;
    ExecStep(x, xa);
    var execs' := execs[e := ExecNext(x, xa)];
    ExecsStep(s.r, execs');
    GrowCalls(s.ledger.threads, s.calls, execs, execs');
    GrowViews(s.ledger.threads, execs, execs', s.views);
  }

  lemma BeatInv(s: State, rt: Id, la: LoopAction)
    requires Inv(s) && Enabled(s, Beat(rt, la))
    ensures Inv(Apply(s, Beat(rt, la)))
  {
    LoopStep(s.r, rt, la);
    var execs' := LoopApply(s.r, rt, la).execs;
    GrowCalls(s.ledger.threads, s.calls, s.r.execs, execs');
    GrowViews(s.ledger.threads, s.r.execs, execs', s.views);
  }

  /** Serving a request adds one execution, linked to the call it answers. */
  lemma ServeCalls(threads: map<Id, Thread>, calls: map<Id, Call>, execs: map<Id, Exec>, t: Id, e: Id)
    requires CallsOk(threads, calls, execs) && t in calls && calls[t].result.None? && e !in execs
    ensures var c := calls[t];
            CallsOk(threads, calls[t := c.(result := Some(e))], execs[e := NewExec(c.rt, c.job, c.attempt, t)])
  {
    var c := calls[t];
    var calls', execs' := calls[t := c.(result := Some(e))], execs[e := NewExec(c.rt, c.job, c.attempt, t)];
    forall u | u in calls' ensures CallFits(threads[u], u, calls'[u], execs') {
      assert CallFits(threads[u], u, calls[u], execs);
    }
    forall f | f in execs' ensures Linked(calls', f, execs'[f]) {
      if f != e { assert Linked(calls, f, execs[f]); }
    }
    forall u | u in threads ensures Answered(threads[u].pc, u, calls') {
      assert Answered(threads[u].pc, u, calls);
    }
  }

  lemma ServeViews(threads: map<Id, Thread>, execs: map<Id, Exec>, views: map<Id, View>, e: Id, x: Exec)
    requires ViewsOk(threads, execs, views) && e !in execs && !HasRegistered(threads, e, x)
    ensures ViewsOk(threads, execs[e := x], views)
  {
  }

  lemma ServeRuntimes(r: Runtimes, e: Id, x: Exec)
    requires RuntimesOk(r) && e !in r.execs && ExecOk(x)
    ensures RuntimesOk(r.(execs := r.execs[e := x]))
  {
    ExecsStep(r, r.execs[e := x]);
  }

  lemma ServeInv(s: State, t: Id, e: Id)
    requires Inv(s) && Enabled(s, Serve(t, e))
    ensures Inv(ApplyServe(s, t, e))
  {
    var c := s.calls[t];
    var x := NewExec(c.rt, c.job, c.attempt, t);
    assert Answered(s.ledger.threads[t].pc, t, s.calls);
    ServeCalls(s.ledger.threads, s.calls, s.r.execs, t, e);
    ServeRuntimes(s.r, e, x);
    ServeViews(s.ledger.threads, s.r.execs, s.views, e, x);
  }

  // ---------- streams ----------

  lemma QueueCut(r: Runtimes, k: Stream, q: seq<Heartbeat>)
    requires RuntimesOk(r) && k in r.streams
    requires q <= r.streams[k] || (r.streams[k] != [] && q == r.streams[k][1..])
    ensures RuntimesOk(r.(streams := r.streams[k := q]))
  {
    var r' := r.(streams := r.streams[k := q]);
    assert QueueOk(r.execs, k.rt, r.streams[k]);
    assert QueueOk(r.execs, k.rt, q);
    assert LoopsOk(r');
    assert GeneratedOk(r') by {
      assert forall e :: Committed(r', e) == Committed(r, e);
    }
  }

  lemma DeliverViews(s: State, k: Stream, now: int)
    requires Inv(s) && k in s.r.streams && s.r.streams[k] != []
    ensures ViewsOk(s.ledger.threads, s.r.execs, Fold(s.views, s.r.streams[k][0], now))
  {
    var hb := s.r.streams[k][0];
    assert MessageOk(s.r.execs, k.rt, hb);
  }

  lemma StepInv(s: State, a: Action)
    requires Inv(s) && Enabled(s, a)
    ensures Inv(Apply(s, a))
  {
    match a
    case StoreJob(j) =>
      var l' := s.ledger.(jobs := s.ledger.jobs + {j});
      StoreLedger(s.ledger, l');
    case Begin(t, j) =>
      BeginLedger(s.ledger, t, Thread(j, Load));
      BeginCalls(s.ledger.threads, s.calls, s.r.execs, s.views, t, Thread(j, Load));
    case Advance(t, ta) => AdvanceInv(s, t, ta);
    case Serve(t, e) => ServeInv(s, t, e);
    case Execute(e, xa) => ExecuteInv(s, e, xa);
    case Beat(rt, la) => BeatInv(s, rt, la);
    case Lose(k, keep) => QueueCut(s.r, k, s.r.streams[k][..keep]);
    case Deliver(k, now) =>
      QueueCut(s.r, k, s.r.streams[k][1..]);
      DeliverViews(s, k, now);
  }

  lemma StoreLedger(l: Ledger, l': Ledger)
    requires LedgerOk(l) && l' == l.(jobs := l'.jobs) && l.jobs <= l'.jobs
    ensures LedgerOk(l')
  {
    forall a | a in l'.owner ensures OwnerOk(l', a) {
      assert OwnerOk(l, a);
    }
    forall t | t in l'.threads ensures ThreadOk(l', t) {
      assert ThreadOk(l, t);
    }
  }

  lemma BeginLedger(l: Ledger, t: Id, th: Thread)
    requires LedgerOk(l) && t !in l.threads && th.pc.Load?
    ensures LedgerOk(l.(threads := l.threads[t := th]))
  {
    var l' := l.(threads := l.threads[t := th]);
    forall a | a in l'.owner ensures OwnerOk(l', a) {
      assert OwnerOk(l, a);
    }
    forall u | u in l'.threads ensures ThreadOk(l', u) {
      if u != t { assert ThreadOk(l, u); }
    }
  }

  lemma BeginCalls(threads: map<Id, Thread>, calls: map<Id, Call>, execs: map<Id, Exec>, views: map<Id, View>,
                   t: Id, th: Thread)
    requires CallsOk(threads, calls, execs) && ViewsOk(threads, execs, views) && t !in threads && th.pc.Load?
    ensures CallsOk(threads[t := th], calls, execs) && ViewsOk(threads[t := th], execs, views)
  {
    var threads' := threads[t := th];
    forall e | e in execs
      ensures HasRegistered(threads', e, execs[e]) <==> HasRegistered(threads, e, execs[e])
    {
      assert Linked(calls, e, execs[e]);
    }
  }

  /** The invariant holds at the end of every run, so in every reachable state. */
  lemma {:induction false} RunInv(s: State, acts: seq<Action>)
    requires Inv(s) && Legal(s, acts)
    ensures Inv(After(s, acts))
    decreases |acts|
  {
    if acts != [] {
      StepInv(s, acts[0]);
      RunInv(Apply(s, acts[0]), acts[1..]);
    }
  }
}
