/** What holds of every run of the protocol. */
module ProtocolTheorems {
  import opened Common
  import opened Heartbeats
  import opened Attempts
  import opened Executions
  import opened Runtimes
  import opened Protocol
  import opened ProtocolInvariants

  // ---------- the dispatcher's table against the runtimes ----------

  /**
    Whatever the interleaving, reconnects and losses, the table tells the truth about the past:
    the ids are right, the status was reached and is not ahead of the runtime, and the PID shown
    with SUCCEEDED is the PID of the process that succeeded.
   */
  lemma TableIsTruthful(acts: seq<Action>, e: Id)
    requires Legal(Init(), acts) && e in After(Init(), acts).views
    ensures var s := After(Init(), acts);
            && e in s.r.execs
            && s.views[e].job == s.r.execs[e].job && s.views[e].attempt == s.r.execs[e].attempt
            && s.views[e].status in s.r.execs[e].history
            && AtMost(s.views[e].status, s.r.execs[e].status)
            && (s.views[e].status == Succeeded ==> s.r.execs[e].proc == Some(s.views[e].pid))
  {
    InitInv();
    RunInv(Init(), acts);
    var s := After(Init(), acts);
    assert ViewOk(s.r.execs[e], s.views[e]);
    ReachedAtMost(s.r.execs[e], s.views[e].status);
  }

  /** The messages of the newest stream of each runtime are not behind what the table shows. */
  ghost predicate Ahead(r: Runtimes, views: map<Id, View>) {
    forall k, i :: k in r.streams && k.epoch == LoopOf(r, k.rt).epoch && 0 <= i < |r.streams[k]| ==>
      NotBehind(views, r.streams[k][i])
  }

  predicate NotBehind(views: map<Id, View>, hb: Heartbeat) {
    hb.exec in views ==> AtMost(views[hb.exec].status, hb.status)
  }

  /** Entries stay, and none moves to a state it had left. */
  ghost predicate Forward(views: map<Id, View>, views': map<Id, View>) {
    forall e :: e in views ==> e in views' && AtMost(views[e].status, views'[e].status)
  }

  lemma AheadBeat(r: Runtimes, views: map<Id, View>, rt: Id, la: LoopAction)
    requires RuntimesOk(r) && Ahead(r, views) && LoopEnabled(r, rt, la)
    requires forall e :: e in views ==> e in r.execs && ViewOk(r.execs[e], views[e])
    ensures Ahead(LoopApply(r, rt, la), views)
  {
    var l, r' := LoopOf(r, rt), LoopApply(r, rt, la);
    if la.SendOk? {
      var hb := l.cursor.hb;
      assert CursorOk(r.execs, rt, l.cursor);
      if hb.exec in views && views[hb.exec].status != Pending {
        ReachedOrder(r.execs[hb.exec], views[hb.exec].status, hb.status);
      }
      assert NotBehind(views, hb);
    }
    assert forall k :: k in r.streams ==> k.epoch <= LoopOf(r, k.rt).epoch;
    forall k, i | k in r'.streams && k.epoch == LoopOf(r', k.rt).epoch && 0 <= i < |r'.streams[k]|
      ensures NotBehind(views, r'.streams[k][i])
    {
      if k in r.streams && i < |r.streams[k]| && !la.Connect? {
        assert NotBehind(views, r.streams[k][i]);
      } else if la.Connect? && k.rt != rt {
        assert NotBehind(views, r.streams[k][i]);
      }
    }
  }

  lemma AheadDeliver(r: Runtimes, views: map<Id, View>, k: Stream, now: int)
    requires RuntimesOk(r) && Ahead(r, views) && k in r.streams && r.streams[k] != []
    requires k.epoch == LoopOf(r, k.rt).epoch
    ensures Forward(views, Fold(views, r.streams[k][0], now))
    ensures Ahead(r.(streams := r.streams[k := r.streams[k][1..]]), Fold(views, r.streams[k][0], now))
  {
    var q := r.streams[k];
    var views' := Fold(views, q[0], now);
    var r' := r.(streams := r.streams[k := q[1..]]);
    assert NotBehind(views, q[0]);
    assert QueueOk(r.execs, k.rt, q);
    forall m, i | m in r'.streams && m.epoch == LoopOf(r', m.rt).epoch && 0 <= i < |r'.streams[m]|
      ensures NotBehind(views', r'.streams[m][i])
    {
      var j := if m == k then i + 1 else i;
      assert r'.streams[m][i] == r.streams[m][j];
      assert NotBehind(views, r.streams[m][j]);
      if r.streams[m][j].exec == q[0].exec && m != k {
        // two streams of different runtimes never speak about the same execution
        assert QueueOk(r.execs, m.rt, r.streams[m]);
        assert MessageOk(r.execs, k.rt, q[0]) && MessageOk(r.execs, m.rt, r.streams[m][j]);
        assert m.rt == k.rt;
      }
    }
  }

  /** What `RegisterOk` does to the table: one new entry. */
  lemma RegisterNew(s: State, t: Id)
    requires Inv(s) && t in s.ledger.threads && s.ledger.threads[t].pc.Register?
    ensures var pc := s.ledger.threads[t].pc;
            && pc.exec in s.r.execs && pc.exec !in s.views
            && s.r.execs[pc.exec].job == s.ledger.threads[t].job && s.r.execs[pc.exec].attempt == pc.attempt
  {
    var pc := s.ledger.threads[t].pc;
    OwnExecution(s.ledger.threads, s.calls, s.r.execs, t, pc.exec);
    RegisterViews(s.ledger.threads, s.r.execs, s.views, t, pc.attempt, pc.exec);
  }

  /** Registering shows PENDING, which is behind every heartbeat. */
  lemma AheadRegister(r: Runtimes, views: map<Id, View>, e: Id, job: Id, a: Id)
    requires RuntimesOk(r) && Ahead(r, views)
    ensures Ahead(r, Registered(views, e, job, a))
  {
    var views' := Registered(views, e, job, a);
    forall k, i | k in r.streams && k.epoch == LoopOf(r, k.rt).epoch && 0 <= i < |r.streams[k]|
      ensures NotBehind(views', r.streams[k][i])
    {
      assert NotBehind(views, r.streams[k][i]);
      assert QueueOk(r.execs, k.rt, r.streams[k]) && MessageOk(r.execs, k.rt, r.streams[k][i]);
    }
  }

  lemma AheadLose(r: Runtimes, views: map<Id, View>, k: Stream, keep: nat)
    requires Ahead(r, views) && k in r.streams && keep <= |r.streams[k]|
    ensures Ahead(r.(streams := r.streams[k := r.streams[k][..keep]]), views)
  {
  }

  /** Steps that touch neither loops nor streams. */
  lemma AheadExecs(r: Runtimes, execs': map<Id, Exec>, views: map<Id, View>)
    requires Ahead(r, views)
    ensures Ahead(r.(execs := execs'), views)
  {
    var r' := r.(execs := execs');
    forall k, i | k in r'.streams && k.epoch == LoopOf(r', k.rt).epoch && 0 <= i < |r'.streams[k]|
      ensures NotBehind(views, r'.streams[k][i])
    {
      assert NotBehind(views, r.streams[k][i]);
    }
  }

  lemma AdvanceForward(s: State, t: Id, ta: ThreadAction)
    requires Inv(s) && Ahead(s.r, s.views) && t in s.ledger.threads
    ensures var views' := ViewsNext(s.views, s.ledger.threads[t], ta);
            Ahead(s.r, views') && Forward(s.views, views')
  {
    var th := s.ledger.threads[t];
    if th.pc.Register? {
      RegisterNew(s, t);
      AheadRegister(s.r, s.views, th.pc.exec, th.job, th.pc.attempt);
    }
  }

  lemma StepForward(s: State, a: Action)
    requires Inv(s) && Ahead(s.r, s.views) && Enabled(s, a) && InOrder(s, a)
    ensures Ahead(Apply(s, a).r, Apply(s, a).views)
    ensures Forward(s.views, Apply(s, a).views)
  {
    match a
    case Advance(t, ta) => AdvanceForward(s, t, ta);
    case Beat(rt, la) => AheadBeat(s.r, s.views, rt, la);
    case Lose(k, keep) => AheadLose(s.r, s.views, k, keep);
    case Deliver(k, now) => AheadDeliver(s.r, s.views, k, now);
    case Serve(t, e) => AheadExecs(s.r, Apply(s, a).r.execs, s.views);
    case Execute(e, xa) => AheadExecs(s.r, Apply(s, a).r.execs, s.views);
    case StoreJob(_) =>
    case Begin(_, _) =>
  }

  lemma {:induction false} RunForward(s: State, acts: seq<Action>)
    requires Inv(s) && Ahead(s.r, s.views) && Legal(s, acts) && AllInOrder(s, acts)
    ensures Inv(After(s, acts)) && Ahead(After(s, acts).r, After(s, acts).views)
    ensures Forward(s.views, After(s, acts).views)
    decreases |acts|
  {
    if acts != [] {
      StepInv(s, acts[0]);
      StepForward(s, acts[0]);
      RunForward(Apply(s, acts[0]), acts[1..]);
    }
  }

  /**
    If streams are FIFO and a superseded stream delivers nothing, the status the table shows for
    an execution never moves backwards between any two moments of a run.
   */
  lemma TableNeverGoesBack(acts: seq<Action>, more: seq<Action>)
    requires Legal(Init(), acts) && AllInOrder(Init(), acts)
    requires Legal(After(Init(), acts), more) && AllInOrder(After(Init(), acts), more)
    ensures Forward(After(Init(), acts).views, After(After(Init(), acts), more).views)
  {
    InitInv();
    RunForward(Init(), acts);
    RunForward(After(Init(), acts), more);
  }

  // ---------- heartbeats with a terminal status ----------

  lemma StepPosted(s: State, a: Action)
    requires Posted(s.r) && Enabled(s, a)
    ensures Posted(Apply(s, a).r)
  {
    match a
    case Beat(rt, la) => LoopStepPosted(s.r, rt, la);
    case _ =>
  }

  lemma {:induction false} RunPosted(s: State, acts: seq<Action>)
    requires Posted(s.r) && Legal(s, acts)
    ensures Posted(After(s, acts).r)
    decreases |acts|
  {
    if acts != [] {
      StepPosted(s, acts[0]);
      RunPosted(Apply(s, acts[0]), acts[1..]);
    }
  }

  /**
    Over every run and any number of reconnects, a heartbeat with a terminal status is the last
    one ever generated for its execution, so there is at most one; everything in flight was generated.
   */
  lemma TerminalHeartbeatIsLast(acts: seq<Action>)
    requires Legal(Init(), acts)
    ensures var r := After(Init(), acts).r;
            && (forall i, j :: 0 <= i < j < |r.generated| && r.generated[i].exec == r.generated[j].exec ==>
                  !r.generated[i].status.Terminal())
            && (forall k, i :: k in r.streams && 0 <= i < |r.streams[k]| ==> r.streams[k][i] in r.generated)
            && (forall i :: 0 <= i < |r.generated| ==>
                  r.generated[i].exec in r.execs && Fits(r.execs[r.generated[i].exec], r.generated[i]))
  {
    InitInv();
    RunInv(Init(), acts);
    RunPosted(Init(), acts);
  }

  // ---------- what becomes of a removed execution ----------

  /** Gone from its runtime, and no message about it is on the way. */
  ghost predicate Silent(r: Runtimes, e: Id) {
    && e in r.execs && r.execs[e].stage.Removed?
    && (forall k, i :: k in r.streams && 0 <= i < |r.streams[k]| ==> r.streams[k][i].exec != e)
  }

  /** What the table will show of a silent execution for good. */
  function LastWord(views: map<Id, View>, e: Id, job: Id, attempt: Id): View {
    if e in views then views[e] else View(job, attempt, Pending, 0, None)
  }

  lemma SilentBeat(r: Runtimes, rt: Id, la: LoopAction, e: Id)
    requires RuntimesOk(r) && Silent(r, e) && LoopEnabled(r, rt, la)
    ensures Silent(LoopApply(r, rt, la), e)
  {
    var l, r' := LoopOf(r, rt), LoopApply(r, rt, la);
    if la.SendOk? {
      assert TodoOk(r.execs, rt, l);
    }
    forall k, i | k in r'.streams && 0 <= i < |r'.streams[k]| ensures r'.streams[k][i].exec != e {
      if k in r.streams && i < |r.streams[k]| {
        assert r.streams[k][i].exec != e;
      }
    }
  }

  lemma ExecsSilent(r: Runtimes, execs': map<Id, Exec>, e: Id)
    requires Silent(r, e) && e in execs' && execs'[e].stage.Removed?
    ensures Silent(r.(execs := execs'), e)
  {
  }

  lemma CutSilent(r: Runtimes, k: Stream, q: seq<Heartbeat>, e: Id)
    requires Silent(r, e) && k in r.streams
    requires q <= r.streams[k] || (r.streams[k] != [] && q == r.streams[k][1..])
    ensures Silent(r.(streams := r.streams[k := q]), e)
  {
  }

  lemma StepSilent(s: State, a: Action, e: Id)
    requires RuntimesOk(s.r) && Silent(s.r, e) && Enabled(s, a)
    ensures Silent(Apply(s, a).r, e)
  {
    match a
    case Serve(t, f) => ExecsSilent(s.r, Apply(s, a).r.execs, e);
    case Execute(f, xa) => ExecsSilent(s.r, Apply(s, a).r.execs, e);
    case Beat(rt, la) => SilentBeat(s.r, rt, la, e);
    case Lose(k, keep) => CutSilent(s.r, k, s.r.streams[k][..keep], e);
    case Deliver(k, now) => CutSilent(s.r, k, s.r.streams[k][1..], e);
    case _ =>
  }

  lemma RegisterWord(views: map<Id, View>, f: Id, job: Id, attempt: Id, e: Id, ejob: Id, eattempt: Id)
    requires f !in views && (f == e ==> job == ejob && attempt == eattempt)
    ensures LastWord(Registered(views, f, job, attempt), e, ejob, eattempt) == LastWord(views, e, ejob, eattempt)
  {
  }

  lemma AdvanceWord(s: State, t: Id, ta: ThreadAction, e: Id, job: Id, attempt: Id)
    requires Inv(s) && t in s.ledger.threads
    requires e in s.r.execs && s.r.execs[e].job == job && s.r.execs[e].attempt == attempt
    ensures var views' := ViewsNext(s.views, s.ledger.threads[t], ta);
            LastWord(views', e, job, attempt) == LastWord(s.views, e, job, attempt) && s.views.Keys <= views'.Keys
  {
    var th := s.ledger.threads[t];
    if th.pc.Register? {
      RegisterNew(s, t);
      RegisterWord(s.views, th.pc.exec, th.job, th.pc.attempt, e, job, attempt);
    }
  }

  lemma StepWord(s: State, a: Action, e: Id, job: Id, attempt: Id)
    requires Inv(s) && Silent(s.r, e) && Enabled(s, a)
    requires s.r.execs[e].job == job && s.r.execs[e].attempt == attempt
    ensures LastWord(Apply(s, a).views, e, job, attempt) == LastWord(s.views, e, job, attempt)
    ensures s.views.Keys <= Apply(s, a).views.Keys
  {
    match a
    case Advance(t, ta) => AdvanceWord(s, t, ta, e, job, attempt);
    case Deliver(k, now) => assert s.r.streams[k][0].exec != e;
    case _ =>
  }

  lemma StepLater(s: State, a: Action)
    requires Inv(s) && Enabled(s, a)
    ensures Grows(s.r.execs, Apply(s, a).r.execs)
  {
    match a
    case Execute(e, xa) => ExecStep(s.r.execs[e], xa);
    case Beat(rt, la) => LoopStep(s.r, rt, la);
    case _ =>
  }

  /**
    Once an execution is removed and nothing about it is in flight, no continuation ever changes
    what the table shows; one that was not registered by then will be shown as PENDING for good.
   */
  lemma {:induction false} SilenceIsForever(s: State, acts: seq<Action>, e: Id)
    requires Inv(s) && Silent(s.r, e) && Legal(s, acts)
    ensures var x, views' := s.r.execs[e], After(s, acts).views;
            && (e in views' ==> views'[e] == LastWord(s.views, e, x.job, x.attempt))
            && (e in s.views ==> e in views')
    decreases |acts|
  {
    if acts != [] {
      StepSilent(s, acts[0], e);
      StepWord(s, acts[0], e, s.r.execs[e].job, s.r.execs[e].attempt);
      StepInv(s, acts[0]);
      StepLater(s, acts[0]);
      SilenceIsForever(Apply(s, acts[0]), acts[1..], e);
    }
  }

  // ---------- attempt rows ----------

  /** Who answers for an attempt row. */
  datatype Owner =
    | Executor(t: Id)
    | Execution(e: Id)
    | LeftBehind(t: Id, end: End)

  ghost predicate Owns(s: State, o: Owner, a: Id) {
    match o
    case Executor(t) =>
      t in s.ledger.threads && s.ledger.threads[t].pc.Live() && s.ledger.threads[t].pc.Attempt() == Some(a)
    case Execution(e) => e in s.views && s.views[e].attempt == a
    case LeftBehind(t, end) =>
      t in s.ledger.threads && s.ledger.threads[t].pc == Returned(end)
      && (end == CreateError(a) || end == DialError(a) || end == MarkError(a))
  }

  lemma OwnersAgree(s: State, o: Owner, a: Id)
    requires Inv(s) && Owns(s, o, a)
    ensures a in s.ledger.owner
    ensures match o {
              case Executor(t) => s.ledger.owner[a] == t
              case LeftBehind(t, _) => s.ledger.owner[a] == t
              case Execution(e) =>
                e in s.r.execs && s.r.execs[e].origin == s.ledger.owner[a]
                && s.ledger.threads[s.ledger.owner[a]].pc == Returned(Done(a, e)) }
  {
    match o
    case Executor(t) => assert ThreadOk(s.ledger, t);
    case LeftBehind(t, _) => assert ThreadOk(s.ledger, t);
    case Execution(e) =>
      assert ViewOk(s.r.execs[e], s.views[e]) && HasRegistered(s.ledger.threads, e, s.r.execs[e]);
      assert ThreadOk(s.ledger, s.r.execs[e].origin);
  }

  /**
    In every reachable state a row still "running" has exactly one owner: a live executeJob, a
    registered execution, or a goroutine that returned on one of the three paths that abandon it.
    A row marked "failed" has no live executor and no registered execution.
   */
  lemma AttemptAccounting(acts: seq<Action>, a: Id)
    requires Legal(Init(), acts) && a in After(Init(), acts).ledger.rows
    ensures var s := After(Init(), acts);
            && (s.ledger.rows[a].status == AttemptRunning ==>
                  exists o :: Owns(s, o, a) && forall p :: Owns(s, p, a) ==> p == o)
            && (s.ledger.rows[a].status == AttemptFailed ==>
                  forall o :: Owns(s, o, a) ==> o.LeftBehind?)
  {
    InitInv();
    RunInv(Init(), acts);
    var s := After(Init(), acts);
    assert OwnerOk(s.ledger, a);
    var t := s.ledger.owner[a];
    var pc := s.ledger.threads[t].pc;
    forall o | Owns(s, o, a)
      ensures o == OwnerFor(t, pc)
    {
      OwnersAgree(s, o, a);
    }
    if s.ledger.rows[a].status == AttemptRunning {
      RunningRowOwned(s, a);
      assert Owns(s, OwnerFor(t, pc), a);
    }
  }

  function OwnerFor(t: Id, pc: Pc): Owner {
    if pc.Returned? then
      if pc.end.Done? then Execution(pc.end.exec) else LeftBehind(t, pc.end)
    else Executor(t)
  }

  lemma RunningRowOwned(s: State, a: Id)
    requires Inv(s) && a in s.ledger.rows && s.ledger.rows[a].status == AttemptRunning
    requires OwnerOk(s.ledger, a)
    ensures Owns(s, OwnerFor(s.ledger.owner[a], s.ledger.threads[s.ledger.owner[a]].pc), a)
  {
    var t := s.ledger.owner[a];
    var pc := s.ledger.threads[t].pc;
    if pc.Returned? && pc.end.Done? {
      var e := pc.end.exec;
      assert Answered(pc, t, s.calls);
      assert CallFits(s.ledger.threads[t], t, s.calls[t], s.r.execs);
      assert Linked(s.calls, e, s.r.execs[e]);
      assert ViewOk(s.r.execs[e], s.views[e]);
    }
  }

  /** No step ever finishes the row of a registered execution, whatever became of its process. */
  lemma RegisteredRowStaysRunning(acts: seq<Action>, e: Id)
    requires Legal(Init(), acts) && e in After(Init(), acts).views
    ensures var s := After(Init(), acts);
            && s.views[e].attempt in s.ledger.rows
            && s.ledger.rows[s.views[e].attempt] == Row(s.views[e].job, AttemptRunning)
  {
    InitInv();
    RunInv(Init(), acts);
    var s := After(Init(), acts);
    OwnersAgree(s, Execution(e), s.views[e].attempt);
    assert OwnerOk(s.ledger, s.views[e].attempt);
    assert ViewOk(s.r.execs[e], s.views[e]) && Linked(s.calls, e, s.r.execs[e]);
    assert CallFits(s.ledger.threads[s.r.execs[e].origin], s.r.execs[e].origin, s.calls[s.r.execs[e].origin],
        s.r.execs);
  }

  // ---------- identity ----------

  /** Every runtime execution belongs to a stored job and a stored attempt, and to no other execution's attempt. */
  lemma ExecutionsHaveTheirOwnAttempt(acts: seq<Action>, e: Id, f: Id)
    requires Legal(Init(), acts)
    requires e in After(Init(), acts).r.execs && f in After(Init(), acts).r.execs
    ensures var s := After(Init(), acts);
            && s.r.execs[e].job in s.ledger.jobs
            && s.r.execs[e].attempt in s.ledger.rows
            && s.ledger.rows[s.r.execs[e].attempt].job == s.r.execs[e].job
            && (s.r.execs[e].attempt == s.r.execs[f].attempt ==> e == f)
  {
    InitInv();
    RunInv(Init(), acts);
    var s := After(Init(), acts);
    ExecutionOwner(s, e);
    ExecutionOwner(s, f);
  }

  lemma ExecutionOwner(s: State, e: Id)
    requires Inv(s) && e in s.r.execs
    ensures var x := s.r.execs[e];
            && x.attempt in s.ledger.owner && s.ledger.owner[x.attempt] == x.origin
            && x.origin in s.calls && s.calls[x.origin].result == Some(e)
            && x.job in s.ledger.jobs
            && x.attempt in s.ledger.rows && s.ledger.rows[x.attempt].job == x.job
  {
    var x := s.r.execs[e];
    assert Linked(s.calls, e, x);
    assert CallFits(s.ledger.threads[x.origin], x.origin, s.calls[x.origin], s.r.execs);
    assert ThreadOk(s.ledger, x.origin) && OwnerOk(s.ledger, x.attempt);
  }
}
