/** Runs that show where the guarantees of `ProtocolTheorems` stop. */
module ProtocolWitnesses {
  import opened Common
  import opened Heartbeats
  import opened Attempts
  import opened Executions
  import opened Runtimes
  import opened Protocol
  import opened ProtocolInvariants
  import opened ProtocolTheorems

  ghost predicate Reachable(s: State) {
    exists acts :: Legal(Init(), acts) && After(Init(), acts) == s
  }

  lemma {:induction false} Extend(s: State, acts: seq<Action>, a: Action)
    requires Legal(s, acts) && Enabled(After(s, acts), a)
    ensures Legal(s, acts + [a]) && After(s, acts + [a]) == Apply(After(s, acts), a)
    decreases |acts|
  {
    if acts == [] {
      assert acts + [a] == [a];
      assert Legal(Apply(s, a), [a][1..]);
    } else {
      Extend(Apply(s, acts[0]), acts[1..], a);
      assert (acts + [a])[1..] == acts[1..] + [a];
    }
  }

  lemma Next(s: State, a: Action, s': State)
    requires Reachable(s) && Enabled(s, a) && s' == Apply(s, a)
    ensures Reachable(s')
  {
    var acts :| Legal(Init(), acts) && After(Init(), acts) == s;
    Extend(Init(), acts, a);
  }

  // ---------- one job, one goroutine, one runtime, one execution, all numbered 0 ----------

  function OneThread(pc: Pc, rows: map<Id, Row>, owner: map<Id, Id>): Ledger {
    Ledger({0}, rows, owner, map[0 := Thread(0, pc)])
  }

  function Calling(pc: Pc, calls: map<Id, Call>, execs: map<Id, Exec>, views: map<Id, View>): State {
    State(OneThread(pc, map[0 := Row(0, AttemptRunning)], map[0 := 0]), calls, Runtimes(execs, map[], map[], []), views)
  }

  /** A goroutine's step that touches nothing but its own position. */
  lemma Move(pc: Pc, ta: ThreadAction, calls: map<Id, Call>, execs: map<Id, Exec>)
    requires Reachable(Calling(pc, calls, execs, map[])) && PcEnabled(pc, ta)
    requires ta.ScaleOk? || ta.SelectOk? || (ta.CallOk? && 0 in calls && calls[0].result == Some(ta.exec))
    ensures Reachable(Calling(PcNext(pc, ta), calls, execs, map[]))
  {
    var l := OneThread(pc, map[0 := Row(0, AttemptRunning)], map[0 := 0]);
    assert ThreadNext(l, 0, ta) == OneThread(PcNext(pc, ta), map[0 := Row(0, AttemptRunning)], map[0 := 0]);
    Next(Calling(pc, calls, execs, map[]), Advance(0, ta), Calling(PcNext(pc, ta), calls, execs, map[]));
  }

  lemma Loaded0()
    ensures Reachable(State(OneThread(Load, map[], map[]), map[], Runtimes(map[], map[], map[], []), map[]))
  {
    var none := Runtimes(map[], map[], map[], []);
    assert Legal(Init(), []) && After(Init(), []) == Init();
    Next(Init(), StoreJob(0), State(Ledger({0}, map[], map[], map[]), map[], none, map[]));
    Next(State(Ledger({0}, map[], map[], map[]), map[], none, map[]), Begin(0, 0),
         State(OneThread(Load, map[], map[]), map[], none, map[]));
  }

  lemma Created0()
    ensures Reachable(Calling(Scale(0), map[], map[], map[]))
  {
    var none := Runtimes(map[], map[], map[], []);
    var drawn := OneThread(Create(0), map[], map[0 := 0]);
    Loaded0();
    assert ThreadNext(OneThread(Load, map[], map[]), 0, LoadOk(0)) == drawn;
    Next(State(OneThread(Load, map[], map[]), map[], none, map[]), Advance(0, LoadOk(0)),
        State(drawn, map[], none, map[]));
    assert ThreadNext(drawn, 0, CreateOk) == Calling(Scale(0), map[], map[], map[]).ledger;
    Next(State(drawn, map[], none, map[]), Advance(0, CreateOk), Calling(Scale(0), map[], map[], map[]));
  }

  function Fresh(): Exec {
    NewExec(0, 0, 0, 0)
  }

  lemma Answered0()
    ensures Reachable(Calling(Register(0, 0), map[0 := Call(0, 0, 0, Some(0))], map[0 := Fresh()], map[]))
  {
    Created0();
    Move(Scale(0), ScaleOk, map[], map[]);
    Move(Select(0), SelectOk, map[], map[]);
    Next(Calling(Dial(0), map[], map[], map[]), Advance(0, DialOk(0)),
         Calling(Await(0), map[0 := Call(0, 0, 0, None)], map[], map[]));
    Served0();
    Move(Await(0), CallOk(0), map[0 := Call(0, 0, 0, Some(0))], map[0 := Fresh()]);
  }

  lemma Served0()
    requires Reachable(Calling(Await(0), map[0 := Call(0, 0, 0, None)], map[], map[]))
    ensures Reachable(Calling(Await(0), map[0 := Call(0, 0, 0, Some(0))], map[0 := Fresh()], map[]))
  {
    Next(Calling(Await(0), map[0 := Call(0, 0, 0, None)], map[], map[]), Serve(0, 0),
         Calling(Await(0), map[0 := Call(0, 0, 0, Some(0))], map[0 := Fresh()], map[]));
  }

  // From here on the goroutine has returned and only the runtime and the streams move.

  function Rt(x: Exec, loop: Loop, streams: Streams, generated: seq<Heartbeat>): Runtimes {
    Runtimes(map[0 := x], map[0 := loop], streams, generated)
  }

  function At(r: Runtimes, v: View): State {
    State(OneThread(Returned(Done(0, 0)), map[0 := Row(0, AttemptRunning)], map[0 := 0]),
          map[0 := Call(0, 0, 0, Some(0))], r, map[0 := v])
  }

  function Shown(status: Status, pid: nat, seen: Option<int>): View {
    View(0, 0, status, pid, seen)
  }

  lemma Register0()
    ensures Reachable(Calling(Returned(Done(0, 0)), map[0 := Call(0, 0, 0, Some(0))], map[0 := Fresh()],
                              map[0 := Shown(Pending, 0, None)]))
  {
    Answered0();
    Next(Calling(Register(0, 0), map[0 := Call(0, 0, 0, Some(0))], map[0 := Fresh()], map[]), Advance(0, RegisterOk),
         Calling(Returned(Done(0, 0)), map[0 := Call(0, 0, 0, Some(0))], map[0 := Fresh()],
                 map[0 := Shown(Pending, 0, None)]));
  }

  lemma LoopMove(r: Runtimes, r': Runtimes, v: View, la: LoopAction)
    requires Reachable(At(r, v)) && LoopEnabled(r, 0, la) && r' == LoopApply(r, 0, la)
    ensures Reachable(At(r', v))
  {
    Next(At(r, v), Beat(0, la), At(r', v));
  }

  lemma ExecMove(x: Exec, xa: ExecAction, loop: Loop, streams: Streams, generated: seq<Heartbeat>, v: View)
    requires Reachable(At(Rt(x, loop, streams, generated), v)) && ExecEnabled(x, xa)
    requires xa.Remove? ==> x.rt == 0 && !loop.Scan?
    ensures Reachable(At(Rt(ExecNext(x, xa), loop, streams, generated), v))
  {
    Next(At(Rt(x, loop, streams, generated), v), Execute(0, xa), At(Rt(ExecNext(x, xa), loop, streams, generated), v));
  }

  const EMPTY: Streams := map[Stream(0, 1) := []]

  function Process(reported: nat): Exec {
    Exec(0, 0, 0, 0, Watching, Running, 7, Some(7), [Pending, Running], reported)
  }

  lemma Connected0()
    ensures Reachable(At(Rt(Fresh(), Idle(1), EMPTY, []), Shown(Pending, 0, None)))
  {
    Register0();
    var r := Runtimes(map[0 := Fresh()], map[], map[], []);
    assert LoopApply(r, 0, Connect) == Rt(Fresh(), Idle(1), EMPTY, []);
    LoopMove(r, Rt(Fresh(), Idle(1), EMPTY, []), Shown(Pending, 0, None), Connect);
  }

  lemma Watching0()
    ensures Reachable(At(Rt(Process(0), Idle(1), EMPTY, []), Shown(Pending, 0, None)))
  {
    Connected0();
    var v := Shown(Pending, 0, None);
    var x1 := ExecNext(Fresh(), MarkRunning);
    var x2 := ExecNext(x1, StartOk(7));
    ExecMove(Fresh(), MarkRunning, Idle(1), EMPTY, [], v);
    ExecMove(x1, StartOk(7), Idle(1), EMPTY, [], v);
    ExecMove(x2, StorePid, Idle(1), EMPTY, [], v);
    assert ExecNext(x2, StorePid) == Process(0);
  }

  /**
    A process can succeed and be removed before any heartbeat is built; then the table shows
    PENDING in every continuation.
   */
  lemma SuccessCanGoUnseen()
    ensures exists s :: Reachable(s) && 0 in s.r.execs && s.r.execs[0].status == Succeeded && ShowsPendingForGood(s)
  {
    var s := At(Rt(Gone(), Idle(1), EMPTY, []), Shown(Pending, 0, None));
    GoneUnseen();
    ReachableInv(s);
    assert Silent(s.r, 0);
    SilentShowsPending(s);
  }

  lemma ReachableInv(s: State)
    requires Reachable(s)
    ensures Inv(s)
  {
    var acts :| Legal(Init(), acts) && After(Init(), acts) == s;
    InitInv();
    RunInv(Init(), acts);
  }

  lemma SilentShowsPending(s: State)
    requires Inv(s) && Silent(s.r, 0) && 0 in s.views && s.views[0].status == Pending
    ensures ShowsPendingForGood(s)
  {
    forall more | Legal(s, more) ensures 0 in After(s, more).views && After(s, more).views[0].status == Pending {
      SilenceIsForever(s, more, 0);
    }
  }

  ghost predicate ShowsPendingForGood(s: State) {
    forall more :: Legal(s, more) ==> 0 in After(s, more).views && After(s, more).views[0].status == Pending
  }

  function Gone(): Exec {
    Exec(0, 0, 0, 0, Removed, Succeeded, 7, Some(7), [Pending, Running, Succeeded], 0)
  }

  lemma GoneUnseen()
    ensures Reachable(At(Rt(Gone(), Idle(1), EMPTY, []), Shown(Pending, 0, None)))
  {
    Watching0();
    var v := Shown(Pending, 0, None);
    ExecMove(Process(0), Exit(true), Idle(1), EMPTY, [], v);
    ExecMove(ExecNext(Process(0), Exit(true)), Remove, Idle(1), EMPTY, [], v);
    assert ExecNext(ExecNext(Process(0), Exit(true)), Remove) == Gone();
  }

  const RUNNING_BEAT: Heartbeat := Heartbeat(0, 0, 0, Running, 7)
  const SUCCESS_BEAT: Heartbeat := Heartbeat(0, 0, 0, Succeeded, 7)

  /** One visit up to the built message, from an idle or a just checked loop. */
  lemma Build(x: Exec, epoch: nat, streams: Streams, generated: seq<Heartbeat>, v: View)
    requires x.rt == 0 && x.job == 0 && x.attempt == 0 && x.pid == 7
    requires Reachable(At(Rt(x, Scan(epoch, {0}, Checked(0)), streams, generated), v))
    ensures var hb := Heartbeat(0, 0, 0, x.status, 7);
            Reachable(At(Rt(x.(reported := x.status.Rank()), Scan(epoch, {0}, Ready(hb)), streams, generated + [hb]),
                v))
  {
    var y := x.(reported := x.status.Rank());
    var hb := Heartbeat(0, 0, 0, x.status, 7);
    var loaded := Scan(epoch, {0}, Loaded(0, x.status));
    LoopMove(Rt(x, Scan(epoch, {0}, Checked(0)), streams, generated), Rt(y, loaded, streams, generated), v, LoadStatus);
    LoopMove(Rt(y, loaded, streams, generated), Rt(y, Scan(epoch, {0}, Ready(hb)), streams, generated + [hb]), v,
        LoadPid);
  }

  lemma Visit(x: Exec, epoch: nat, streams: Streams, generated: seq<Heartbeat>, v: View)
    requires x.rt == 0 && x.status == Running && x.stage.Watching?
    requires Reachable(At(Rt(x, Idle(epoch), streams, generated), v))
    ensures Reachable(At(Rt(x, Scan(epoch, {0}, Checked(0)), streams, generated), v))
  {
    var r := Rt(x, Idle(epoch), streams, generated);
    assert InMap(r, 0) == {0};
    LoopMove(r, Rt(x, Scan(epoch, {0}, Between), streams, generated), v, Tick);
    LoopMove(Rt(x, Scan(epoch, {0}, Between), streams, generated),
             Rt(x, Scan(epoch, {0}, Checked(0)), streams, generated), v, Check(0));
  }

  lemma Send(x: Exec, epoch: nat, hb: Heartbeat, streams: Streams, streams': Streams, generated: seq<Heartbeat>,
      v: View)
    requires hb.exec == 0 && Stream(0, epoch) in streams
    requires streams' == streams[Stream(0, epoch) := streams[Stream(0, epoch)] + [hb]]
    requires Reachable(At(Rt(x, Scan(epoch, {0}, Ready(hb)), streams, generated), v))
    ensures Reachable(At(Rt(x, Scan(epoch, {}, Between), streams', generated), v))
  {
    assert {0} - {0} == {};
    LoopMove(Rt(x, Scan(epoch, {0}, Ready(hb)), streams, generated),
        Rt(x, Scan(epoch, {}, Between), streams', generated), v, SendOk);
  }

  lemma FirstBeatSent()
    ensures Reachable(At(Rt(Process(2), Idle(1), map[Stream(0, 1) := [RUNNING_BEAT]], [RUNNING_BEAT]),
        Shown(Pending, 0, None)))
  {
    var v := Shown(Pending, 0, None);
    Watching0();
    Visit(Process(0), 1, EMPTY, [], v);
    Build(Process(0), 1, EMPTY, [], v);
    var r := Rt(Process(2), Scan(1, {0}, Ready(RUNNING_BEAT)), EMPTY, [RUNNING_BEAT]);
    var sent := map[Stream(0, 1) := [RUNNING_BEAT]];
    assert [] + [RUNNING_BEAT] == [RUNNING_BEAT];
    Send(Process(2), 1, RUNNING_BEAT, EMPTY, sent, [RUNNING_BEAT], v);
    LoopMove(Rt(Process(2), Scan(1, {}, Between), sent, [RUNNING_BEAT]), Rt(Process(2), Idle(1), sent, [RUNNING_BEAT]),
        v, EndTick);
  }

  function Two(q1: seq<Heartbeat>, q2: seq<Heartbeat>): Streams {
    map[Stream(0, 1) := q1, Stream(0, 2) := q2]
  }

  lemma TwoSet(q1: seq<Heartbeat>, q2: seq<Heartbeat>, q: seq<Heartbeat>)
    ensures Two(q1, q2)[Stream(0, 1) := q] == Two(q, q2) && Two(q1, q2)[Stream(0, 2) := q] == Two(q1, q)
    ensures map[Stream(0, 1) := q1][Stream(0, 2) := q2] == Two(q1, q2)
  {
  }

  /** The second send fails, and the loop reconnects with the first heartbeat still undelivered. */
  lemma Reconnected()
    ensures Reachable(At(Rt(Process(2), Idle(2), Two([RUNNING_BEAT], []), [RUNNING_BEAT, RUNNING_BEAT]),
        Shown(Pending, 0, None)))
  {
    var v := Shown(Pending, 0, None);
    var sent: Streams := map[Stream(0, 1) := [RUNNING_BEAT]];
    var g := [RUNNING_BEAT] + [RUNNING_BEAT];
    FirstBeatSent();
    Visit(Process(2), 1, sent, [RUNNING_BEAT], v);
    Build(Process(2), 1, sent, [RUNNING_BEAT], v);
    LoopMove(Rt(Process(2), Scan(1, {0}, Ready(RUNNING_BEAT)), sent, g), Rt(Process(2), Down(1), sent, g), v, SendErr);
    TwoSet([RUNNING_BEAT], [], []);
    LoopMove(Rt(Process(2), Down(1), sent, g), Rt(Process(2), Idle(2), Two([RUNNING_BEAT], []), g), v, Connect);
  }

  function Success(reported: nat): Exec {
    Exec(0, 0, 0, 0, Finished, Succeeded, 7, Some(7), [Pending, Running, Succeeded], reported)
  }

  lemma CaughtExit(streams: Streams, g: seq<Heartbeat>, v: View)
    requires Reachable(At(Rt(Process(2), Idle(2), streams, g), v))
    ensures Reachable(At(Rt(Success(2), Scan(2, {0}, Checked(0)), streams, g), v))
  {
    Visit(Process(2), 2, streams, g, v);
    ExecMove(Process(2), Exit(true), Scan(2, {0}, Checked(0)), streams, g, v);
    assert ExecNext(Process(2), Exit(true)) == Success(2);
  }

  /** The process succeeds between the two status reads of one visit. */
  lemma SuccessSent()
    ensures Reachable(At(Rt(Success(3), Scan(2, {}, Between), Two([RUNNING_BEAT], [SUCCESS_BEAT]),
        [RUNNING_BEAT, RUNNING_BEAT, SUCCESS_BEAT]),
                         Shown(Pending, 0, None)))
  {
    var v := Shown(Pending, 0, None);
    var g := [RUNNING_BEAT, RUNNING_BEAT];
    Reconnected();
    CaughtExit(Two([RUNNING_BEAT], []), g, v);
    Build(Success(2), 2, Two([RUNNING_BEAT], []), g, v);
    assert [] + [SUCCESS_BEAT] == [SUCCESS_BEAT];
    TwoSet([RUNNING_BEAT], [], [SUCCESS_BEAT]);
    Send(Success(3), 2, SUCCESS_BEAT, Two([RUNNING_BEAT], []), Two([RUNNING_BEAT], [SUCCESS_BEAT]), g + [SUCCESS_BEAT],
        v);
    assert g + [SUCCESS_BEAT] == [RUNNING_BEAT, RUNNING_BEAT, SUCCESS_BEAT];
  }

  /**
    Without the proviso on superseded streams the table can go back: it shows SUCCEEDED, then a
    heartbeat from the stream before the reconnect arrives and it shows RUNNING again.
   */
  lemma OldStreamMovesTableBack()
    ensures exists s, now :: Reachable(s) && Enabled(s, Deliver(Stream(0, 1), now))
                             && 0 in s.views && s.views[0].status == Succeeded
                             && 0 in Apply(s, Deliver(Stream(0, 1), now)).views
                             && Apply(s, Deliver(Stream(0, 1), now)).views[0].status == Running
  {
    SuccessSent();
    var g := [RUNNING_BEAT, RUNNING_BEAT, SUCCESS_BEAT];
    var before := At(Rt(Success(3), Scan(2, {}, Between), Two([RUNNING_BEAT], [SUCCESS_BEAT]), g),
        Shown(Pending, 0, None));
    var after := At(Rt(Success(3), Scan(2, {}, Between), Two([RUNNING_BEAT], []), g), Shown(Succeeded, 7, Some(1)));
    assert [SUCCESS_BEAT][1..] == [];
    TwoSet([RUNNING_BEAT], [SUCCESS_BEAT], []);
    assert Fold(before.views, SUCCESS_BEAT, 1) == after.views;
    Next(before, Deliver(Stream(0, 2), 1), after);
    assert Enabled(after, Deliver(Stream(0, 1), 2));
  }
}
