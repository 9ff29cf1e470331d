/** Exactly when the terminal status of an execution is reported. */
module ProtocolReports {
  import opened Heartbeats
  import opened Executions
  import opened Runtimes
  import opened Protocol
  import opened ProtocolInvariants

  /** The heartbeat loop stands between its two reads of the status of `e`. */
  predicate BetweenReads(r: Runtimes, e: Id) {
    e in r.execs && var l := LoopOf(r, r.execs[e].rt); l.Scan? && l.cursor == Checked(e)
  }

  /** A heartbeat with the terminal status `st` of `e` has been generated. */
  ghost predicate Reported(r: Runtimes, e: Id, st: Status) {
    exists i :: 0 <= i < |r.generated| && r.generated[i].exec == e && r.generated[i].status == st
  }

  // ---------- too late ----------

  /** `e` is over, its end was never loaded to be sent, and the loop is not about to load it. */
  predicate Missed(r: Runtimes, e: Id) {
    e in r.execs && r.execs[e].status.Terminal() && r.execs[e].reported <= Running.Rank() && !BetweenReads(r, e)
  }

  lemma MissedBeat(r: Runtimes, rt: Id, la: LoopAction, e: Id)
    requires RuntimesOk(r) && Missed(r, e) && LoopEnabled(r, rt, la)
    ensures Missed(LoopApply(r, rt, la), e)
  {
    var l := LoopOf(r, rt);
    if l.Scan? {
      assert CursorOk(r.execs, rt, l.cursor);
    }
  }

  lemma MissedExecs(r: Runtimes, execs': map<Id, Exec>, e: Id)
    requires Missed(r, e) && e in execs'
    requires execs'[e].rt == r.execs[e].rt && execs'[e].status == r.execs[e].status
    requires execs'[e].reported == r.execs[e].reported
    ensures Missed(r.(execs := execs'), e)
  {
  }

  lemma StepMissed(s: State, a: Action, e: Id)
    requires Inv(s) && Missed(s.r, e) && Enabled(s, a)
    ensures Missed(Apply(s, a).r, e)
  {
    match a
    case Serve(_, _) => MissedExecs(s.r, Apply(s, a).r.execs, e);
    case Execute(f, xa) =>
      assert ExecOk(s.r.execs[e]);
      MissedExecs(s.r, Apply(s, a).r.execs, e);
    case Beat(rt, la) => MissedBeat(s.r, rt, la, e);
    case _ =>
  }

  lemma {:induction false} RunMissed(s: State, acts: seq<Action>, e: Id)
    requires Inv(s) && Missed(s.r, e) && Legal(s, acts)
    ensures Inv(After(s, acts)) && Missed(After(s, acts).r, e)
    decreases |acts|
  {
    if acts != [] {
      StepInv(s, acts[0]);
      StepMissed(s, acts[0], e);
      RunMissed(Apply(s, acts[0]), acts[1..], e);
    }
  }

  /** What was missed is neither generated nor shown. */
  lemma MissedMeansUnseen(r: Runtimes, views: map<Id, View>, e: Id)
    requires GeneratedOk(r) && Missed(r, e) && (e in views ==> ViewOk(r.execs[e], views[e]))
    ensures Unseen(r, views, e)
  {
    forall i | 0 <= i < |r.generated| && r.generated[i].exec == e ensures r.generated[i].status == Running {
      assert Fits(r.execs[e], r.generated[i]);
    }
  }

  /** No terminal heartbeat about `e` exists, and the table does not show it as over. */
  ghost predicate Unseen(r: Runtimes, views: map<Id, View>, e: Id) {
    && (forall i :: 0 <= i < |r.generated| && r.generated[i].exec == e ==> r.generated[i].status == Running)
    && (e in views ==> !views[e].status.Terminal())
  }

  // ---------- in time ----------

  predicate HasLoaded(r: Runtimes, e: Id, st: Status) {
    e in r.execs && var l := LoopOf(r, r.execs[e].rt); l.Scan? && l.cursor == Loaded(e, st)
  }

  /** The loop is about to load the end of `e`, or has loaded it, or has built the message. */
  ghost predicate Caught(r: Runtimes, e: Id, st: Status) {
    && e in r.execs && r.execs[e].status == st
    && (BetweenReads(r, e) || HasLoaded(r, e, st) || Reported(r, e, st))
  }

  lemma CaughtBeat(r: Runtimes, rt: Id, la: LoopAction, e: Id, st: Status)
    requires Caught(r, e, st) && LoopEnabled(r, rt, la)
    ensures Caught(LoopApply(r, rt, la), e, st)
  {
    var r' := LoopApply(r, rt, la);
    if Reported(r, e, st) {
      var i :| 0 <= i < |r.generated| && r.generated[i].exec == e && r.generated[i].status == st;
      assert r'.generated[i] == r.generated[i];
    } else if rt == r.execs[e].rt && la.LoadPid? {
      assert |r'.generated| > |r.generated| && r'.generated[|r.generated|].status == LoopOf(r, rt).cursor.status;
    }
  }

  lemma CaughtExecs(r: Runtimes, execs': map<Id, Exec>, e: Id, st: Status)
    requires Caught(r, e, st) && e in execs' && execs'[e].rt == r.execs[e].rt && execs'[e].status == st
    ensures Caught(r.(execs := execs'), e, st)
  {
    var r' := r.(execs := execs');
    assert Reported(r, e, st) ==> Reported(r', e, st);
  }

  lemma StepCaught(s: State, a: Action, e: Id, st: Status)
    requires Inv(s) && Caught(s.r, e, st) && st.Terminal() && Enabled(s, a)
    ensures Caught(Apply(s, a).r, e, st)
  {
    match a
    case Serve(_, _) => CaughtExecs(s.r, Apply(s, a).r.execs, e, st);
    case Execute(f, xa) =>
      assert ExecOk(s.r.execs[e]);
      CaughtExecs(s.r, Apply(s, a).r.execs, e, st);
    case Beat(rt, la) => CaughtBeat(s.r, rt, la, e, st);
    case _ => assert Reported(s.r, e, st) ==> Reported(Apply(s, a).r, e, st);
  }

  lemma {:induction false} RunCaught(s: State, acts: seq<Action>, e: Id, st: Status)
    requires Inv(s) && Caught(s.r, e, st) && st.Terminal() && Legal(s, acts)
    ensures Caught(After(s, acts).r, e, st)
    decreases |acts|
  {
    if acts != [] {
      StepInv(s, acts[0]);
      StepCaught(s, acts[0], e, st);
      RunCaught(Apply(s, acts[0]), acts[1..], e, st);
    }
  }

  lemma TwoSteps(s: State, a: Action, b: Action)
    requires Enabled(s, a) && Enabled(Apply(s, a), b)
    ensures Legal(s, [a, b]) && After(s, [a, b]) == Apply(Apply(s, a), b)
  {
    assert [a, b][1..] == [b] && [b][1..] == [];
    var s1 := Apply(s, a);
    assert Legal(Apply(s1, b), []) && After(Apply(s1, b), []) == Apply(s1, b);
    assert Legal(s1, [b]) && After(s1, [b]) == Apply(s1, b);
  }

  /** Two more accesses of the loop and the message is built. */
  lemma TwoAccesses(s: State, e: Id) returns (acts: seq<Action>)
    requires BetweenReads(s.r, e)
    ensures Legal(s, acts) && Reported(After(s, acts).r, e, s.r.execs[e].status)
  {
    var rt := s.r.execs[e].rt;
    var load, build := Action.Beat(rt, LoadStatus), Action.Beat(rt, LoadPid);
    acts := [load, build];
    TwoSteps(s, load, build);
    assert Apply(Apply(s, load), build).r.generated[|s.r.generated|].exec == e;
  }

  // ---------- the two together ----------

  /** The step stores a terminal status. */
  predicate Ends(x: Exec, xa: ExecAction) {
    ExecEnabled(x, xa) && (xa.StartErr? || xa.Exit? || xa.Stopped?)
  }

  ghost predicate CanBeReported(s: State, e: Id, st: Status) {
    exists acts :: Legal(s, acts) && Reported(After(s, acts).r, e, st)
  }

  lemma InTime(s: State, e: Id)
    requires Inv(s) && BetweenReads(s.r, e) && s.r.execs[e].status.Terminal()
    ensures CanBeReported(s, e, s.r.execs[e].status)
    ensures forall more :: Legal(s, more) ==> Caught(After(s, more).r, e, s.r.execs[e].status)
  {
    var two := TwoAccesses(s, e);
    forall more | Legal(s, more) ensures Caught(After(s, more).r, e, s.r.execs[e].status) {
      RunCaught(s, more, e, s.r.execs[e].status);
    }
  }

  lemma TooLate(s: State, e: Id)
    requires Inv(s) && Missed(s.r, e)
    ensures !CanBeReported(s, e, s.r.execs[e].status)
    ensures forall more :: Legal(s, more) ==> Unseen(After(s, more).r, After(s, more).views, e)
  {
    forall more | Legal(s, more) ensures Unseen(After(s, more).r, After(s, more).views, e) {
      RunMissed(s, more, e);
      MissedMeansUnseen(After(s, more).r, After(s, more).views, e);
    }
  }

  /** The step that stores the terminal status. */
  lemma EndStep(s: State, e: Id, xa: ExecAction)
    requires Inv(s) && e in s.r.execs && Ends(s.r.execs[e], xa) && Enabled(s, Execute(e, xa))
    ensures var s' := Apply(s, Execute(e, xa));
            && e in s'.r.execs && s'.r.execs[e].status.Terminal()
            && (BetweenReads(s'.r, e) <==> BetweenReads(s.r, e))
            && (!BetweenReads(s.r, e) ==> Missed(s'.r, e))
  {
    assert ExecOk(s.r.execs[e]);
  }

  /**
    The fate of a terminal status is settled by where the runtime's loop stands when it is stored.
    It can still be reported exactly if the loop is between its two reads of this execution; then
    every continuation reports it as soon as the loop gets on; and otherwise no continuation ever
    generates a terminal heartbeat for the execution or shows it as over.
   */
  lemma TerminalReportedIff(acts: seq<Action>, e: Id, xa: ExecAction)
    requires Legal(Init(), acts)
    requires e in After(Init(), acts).r.execs && Ends(After(Init(), acts).r.execs[e], xa)
    ensures var s := After(Init(), acts);
            var s' := Apply(s, Execute(e, xa));
            && s'.r.execs[e].status.Terminal()
            && (CanBeReported(s', e, s'.r.execs[e].status) <==> BetweenReads(s.r, e))
            && (BetweenReads(s.r, e) ==>
                  forall more :: Legal(s', more) ==> Caught(After(s', more).r, e, s'.r.execs[e].status))
            && (!BetweenReads(s.r, e) ==>
                  forall more :: Legal(s', more) ==> Unseen(After(s', more).r, After(s', more).views, e))
  {
    InitInv();
    RunInv(Init(), acts);
    var s := After(Init(), acts);
    EndStep(s, e, xa);
    StepInv(s, Execute(e, xa));
    var s' := Apply(s, Execute(e, xa));
    if BetweenReads(s.r, e) {
      InTime(s', e);
    } else {
      TooLate(s', e);
    }
  }
}
