/** Exactly which deliveries move the dispatcher's table back. */
module ProtocolRegress {
  import opened Heartbeats
  import opened Executions
  import opened Runtimes
  import opened Protocol
  import opened ProtocolInvariants
  import opened ProtocolTheorems

  /** What an older stream of a runtime says of an execution is not ahead of what a newer one says. */
  ghost predicate Ordered(r: Runtimes) {
    forall k, m, i, j :: k in r.streams && m in r.streams && k.rt == m.rt && k.epoch < m.epoch
                         && 0 <= i < |r.streams[k]| && 0 <= j < |r.streams[m]| ==>
      InOrderPair(r.streams[k][i], r.streams[m][j])
  }

  predicate InOrderPair(older: Heartbeat, newer: Heartbeat) {
    older.exec == newer.exec ==> AtMost(older.status, newer.status)
  }

  lemma OrderedBeat(r: Runtimes, rt: Id, la: LoopAction)
    requires RuntimesOk(r) && Ordered(r) && LoopEnabled(r, rt, la)
    ensures Ordered(LoopApply(r, rt, la))
  {
    var l, r' := LoopOf(r, rt), LoopApply(r, rt, la);
    if la.SendOk? {
      assert CursorOk(r.execs, rt, l.cursor);
    }
    forall k, m, i, j | k in r'.streams && m in r'.streams && k.rt == m.rt && k.epoch < m.epoch
                        && 0 <= i < |r'.streams[k]| && 0 <= j < |r'.streams[m]|
      ensures InOrderPair(r'.streams[k][i], r'.streams[m][j])
    {
      assert QueueOk(r.execs, k.rt, r.streams[k]) && i < |r.streams[k]| by {
        assert m in r.streams ==> m.epoch <= LoopOf(r, m.rt).epoch;
        assert k in r.streams ==> k.epoch <= LoopOf(r, k.rt).epoch;
      }
      if la.SendOk? && m == Stream(rt, l.epoch) && j == |r.streams[m]| {
        SentLater(r.execs, rt, r.streams[k][i], l.cursor.hb);
      } else {
        assert InOrderPair(r.streams[k][i], r.streams[m][j]);
      }
    }
  }

  /** A message about to be sent is not behind any message about the same execution. */
  lemma SentLater(execs: map<Id, Exec>, rt: Id, earlier: Heartbeat, hb: Heartbeat)
    requires ExecsOk(execs) && MessageOk(execs, rt, earlier) && MessageOk(execs, rt, hb)
    requires hb.status.Rank() == execs[hb.exec].reported
    ensures InOrderPair(earlier, hb)
  {
    if earlier.exec == hb.exec {
      ReachedOrder(execs[hb.exec], earlier.status, hb.status);
    }
  }

  lemma OrderedCut(r: Runtimes, k: Stream, q: seq<Heartbeat>)
    requires Ordered(r) && k in r.streams
    requires q <= r.streams[k] || (r.streams[k] != [] && q == r.streams[k][1..])
    ensures Ordered(r.(streams := r.streams[k := q]))
  {
    var r' := r.(streams := r.streams[k := q]);
    forall n, m, i, j | n in r'.streams && m in r'.streams && n.rt == m.rt && n.epoch < m.epoch
                        && 0 <= i < |r'.streams[n]| && 0 <= j < |r'.streams[m]|
      ensures InOrderPair(r'.streams[n][i], r'.streams[m][j])
    {
      var i' := if n == k && !(q <= r.streams[k]) then i + 1 else i;
      var j' := if m == k && !(q <= r.streams[k]) then j + 1 else j;
      assert r'.streams[n][i] == r.streams[n][i'] && r'.streams[m][j] == r.streams[m][j'];
      assert InOrderPair(r.streams[n][i'], r.streams[m][j']);
    }
  }

  lemma StepOrdered(s: State, a: Action)
    requires Inv(s) && Ordered(s.r) && Enabled(s, a)
    ensures Ordered(Apply(s, a).r)
  {
    match a
    case Beat(rt, la) => OrderedBeat(s.r, rt, la);
    case Lose(k, keep) => OrderedCut(s.r, k, s.r.streams[k][..keep]);
    case Deliver(k, now) => OrderedCut(s.r, k, s.r.streams[k][1..]);
    case _ =>
  }

  /** A delivery from any stream leaves the newest streams ahead of the table. */
  lemma AheadAnyDeliver(r: Runtimes, views: map<Id, View>, k: Stream, now: int)
    requires RuntimesOk(r) && Ahead(r, views) && Ordered(r) && k in r.streams && r.streams[k] != []
    ensures Ahead(r.(streams := r.streams[k := r.streams[k][1..]]), Fold(views, r.streams[k][0], now))
  {
    var q := r.streams[k];
    var views' := Fold(views, q[0], now);
    var r' := r.(streams := r.streams[k := q[1..]]);
    assert QueueOk(r.execs, k.rt, q) && k.epoch <= LoopOf(r, k.rt).epoch;
    forall m, i | m in r'.streams && m.epoch == LoopOf(r', m.rt).epoch && 0 <= i < |r'.streams[m]|
      ensures NotBehind(views', r'.streams[m][i])
    {
      var j := if m == k then i + 1 else i;
      assert r'.streams[m][i] == r.streams[m][j];
      assert NotBehind(views, r.streams[m][j]);
      if r.streams[m][j].exec == q[0].exec && m != k {
        assert QueueOk(r.execs, m.rt, r.streams[m]);
        assert MessageOk(r.execs, k.rt, q[0]) && MessageOk(r.execs, m.rt, r.streams[m][j]);
        assert InOrderPair(q[0], r.streams[m][j]);
      }
    }
  }

  lemma StepAhead(s: State, a: Action)
    requires Inv(s) && Ahead(s.r, s.views) && Ordered(s.r) && Enabled(s, a)
    ensures Ahead(Apply(s, a).r, Apply(s, a).views)
  {
    if a.Deliver? {
      AheadAnyDeliver(s.r, s.views, a.stream, a.now);
    } else {
      StepForward(s, a);
    }
  }

  lemma {:induction false} RunAhead(s: State, acts: seq<Action>)
    requires Inv(s) && Ahead(s.r, s.views) && Ordered(s.r) && Legal(s, acts)
    ensures Inv(After(s, acts)) && Ahead(After(s, acts).r, After(s, acts).views) && Ordered(After(s, acts).r)
    decreases |acts|
  {
    if acts != [] {
      StepInv(s, acts[0]);
      StepAhead(s, acts[0]);
      StepOrdered(s, acts[0]);
      RunAhead(Apply(s, acts[0]), acts[1..]);
    }
  }

  // ---------- the one thing that goes back ----------

  /** The table shows a terminal status, and the head of the stream says RUNNING. */
  predicate Regresses(views: map<Id, View>, hb: Heartbeat) {
    hb.exec in views && views[hb.exec].status.Terminal() && hb.status == Running
  }

  lemma FoldForwardIff(execs: map<Id, Exec>, views: map<Id, View>, rt: Id, hb: Heartbeat, now: int)
    requires ExecsOk(execs) && MessageOk(execs, rt, hb)
    requires forall e :: e in views ==> e in execs && ViewOk(execs[e], views[e])
    ensures Forward(views, Fold(views, hb, now)) <==> !Regresses(views, hb)
  {
    if hb.exec in views {
      var x, v := execs[hb.exec], views[hb.exec];
      assert ViewOk(x, v);
      ReachedAtMost(x, v.status);
      ReachedAtMost(x, hb.status);
      var views' := Fold(views, hb, now);
      assert views'[hb.exec].status == hb.status;
      assert AtMost(v.status, hb.status) <==> !Regresses(views, hb);
    }
  }

  /**
    In every reachable state, whatever streams have delivered before: a step moves the table back
    exactly if it delivers a RUNNING about an execution the table shows as terminal, and such a
    message always lies on a stream its runtime has given up.
   */
  lemma BackwardIff(acts: seq<Action>, a: Action)
    requires Legal(Init(), acts) && Enabled(After(Init(), acts), a)
    ensures var s := After(Init(), acts);
            && (!Forward(s.views, Apply(s, a).views) <==> a.Deliver? && Regresses(s.views, s.r.streams[a.stream][0]))
            && (a.Deliver? && Regresses(s.views, s.r.streams[a.stream][0]) ==>
                  a.stream.epoch < LoopOf(s.r, a.stream.rt).epoch)
  {
    InitInv();
    RunAhead(Init(), acts);
    var s := After(Init(), acts);
    if a.Deliver? {
      var q := s.r.streams[a.stream];
      assert QueueOk(s.r.execs, a.stream.rt, q) && a.stream.epoch <= LoopOf(s.r, a.stream.rt).epoch;
      assert MessageOk(s.r.execs, a.stream.rt, q[0]);
      FoldForwardIff(s.r.execs, s.views, a.stream.rt, q[0], a.now);
      if a.stream.epoch == LoopOf(s.r, a.stream.rt).epoch {
        assert NotBehind(s.views, q[0]);
      }
    } else {
      StepForward(s, a);
    }
  }
}
