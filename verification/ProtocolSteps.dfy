/**
  What single actions of the protocol show, told field by field: deliveries, registrations, Run calls
  and each access of a heartbeat loop.
 */
module ProtocolSteps {
  import opened Common
  import opened Heartbeats
  import opened Attempts
  import opened Executions
  import opened Runtimes
  import opened Protocol
  import opened ProtocolInvariants
  import opened ProtocolTheorems

  /** Every external call of a goroutine may fail, a database write also after it took effect. */
  lemma CallsMayFail(s: State, t: Id, n: nat, b: bool)
    ensures t in s.ledger.threads ==>
              match s.ledger.threads[t].pc {
                case Load => Enabled(s, Advance(t, LoadErr))
                case Create(_) => Enabled(s, Advance(t, CreateOk)) && Enabled(s, Advance(t, CreateErr(b)))
                case Scale(_) => Enabled(s, Advance(t, ScaleOk)) && Enabled(s, Advance(t, ScaleErr))
                case Select(_) => Enabled(s, Advance(t, SelectOk)) && Enabled(s, Advance(t, SelectErr))
                case Dial(_) => Enabled(s, Advance(t, DialOk(n))) && Enabled(s, Advance(t, DialErr))
                case Await(_) => Enabled(s, Advance(t, CallErr))
                case Register(_, _) => Enabled(s, Advance(t, RegisterOk))
                case Fail(_) => Enabled(s, Advance(t, FailOk)) && Enabled(s, Advance(t, FailErr(b)))
                case Returned(_) => true
              }
  {
  }

  /**
    A Run call is served once, also after its caller has given up, unless its runtime is sending heartbeats;
    streams lose any tail and deliver their head, old ones included.
   */
  lemma WorldIsFree(s: State, t: Id, e: Id, k: Stream, n: nat)
    ensures t in s.calls && s.calls[t].result == None && e !in s.r.execs ==>
              Enabled(s, Serve(t, e)) || (s.calls[t].rt in s.r.loops && s.r.loops[s.calls[t].rt].Scan?)
    ensures k in s.r.streams && n <= |s.r.streams[k]| ==> Enabled(s, Lose(k, n))
    ensures k in s.r.streams && s.r.streams[k] != [] ==> Enabled(s, Deliver(k, n))
  {
  }

  /** A delivery takes the head of its stream and writes it over the record it is about, if there is one. */
  lemma DeliverShows(s: State, k: Stream, now: int, e: Id)
    requires Enabled(s, Deliver(k, now))
    ensures var s', hb := Apply(s, Deliver(k, now)), s.r.streams[k][0];
            && s'.views.Keys == s.views.Keys
            && s.r.streams[k] == [hb] + s'.r.streams[k]
            && s'.r.execs == s.r.execs && s'.ledger == s.ledger
            && (e in s.views && e == hb.exec ==>
                  && s'.views[e].status == hb.status && s'.views[e].pid == hb.pid && s'.views[e].seen == Some(now)
                  && s'.views[e].job == s.views[e].job && s'.views[e].attempt == s.views[e].attempt)
            && (e in s.views && e != hb.exec ==> s'.views[e] == s.views[e])
  {
  }

  /** A registration shows PENDING, without PID, never heard of. */
  lemma RegisterShows(s: State, t: Id)
    requires Enabled(s, Advance(t, RegisterOk))
    ensures var views', th := Apply(s, Advance(t, RegisterOk)).views, s.ledger.threads[t];
            var e := th.pc.exec;
            && views'.Keys == s.views.Keys + {e}
            && (forall f :: f in s.views && f != e ==> views'[f] == s.views[f])
            && views'[e].job == th.job && views'[e].attempt == th.pc.attempt
            && views'[e].status == Pending && views'[e].pid == 0 && views'[e].seen == None
  {
  }

  /** In a reachable state the record is a new one, about an execution that exists. */
  lemma RegisterIsNew(acts: seq<Action>, t: Id)
    requires Legal(Init(), acts) && Enabled(After(Init(), acts), Advance(t, RegisterOk))
    ensures var s := After(Init(), acts);
            var e := s.ledger.threads[t].pc.exec;
            e !in s.views && e in s.r.execs
  {
    InitInv();
    RunInv(Init(), acts);
    RegisterNew(After(Init(), acts), t);
  }

  /** A served Run call leaves one new PENDING execution of the called runtime, with the call's ids. */
  lemma ServeShows(s: State, t: Id, e: Id)
    requires Enabled(s, Serve(t, e))
    ensures var s', c := Apply(s, Serve(t, e)), s.calls[t];
            && s'.r.execs.Keys == s.r.execs.Keys + {e} && (forall f :: f in s.r.execs ==> s'.r.execs[f] == s.r.execs[f])
            && s'.calls[t].result == Some(e) && s'.views == s.views
            && s'.r.execs[e].rt == c.rt && s'.r.execs[e].job == c.job && s'.r.execs[e].attempt == c.attempt
            && s'.r.execs[e].status == Pending && s'.r.execs[e].pid == 0
  {
  }

  /** What each access of an `execute` goroutine shows of its execution; one that is over is removed last. */
  lemma ExecuteShows(x: Exec, a: ExecAction)
    requires ExecEnabled(x, a)
    ensures var y := ExecNext(x, a);
            && (a.MarkRunning? ==> y.status == Running && y.pid == x.pid)
            && (a.StorePid? ==> y.status == x.status && Some(y.pid) == x.proc)
            && (a.StartErr? || a.Stopped? ==> y.status == Failed && y.pid == x.pid)
            && (a.Exit? ==> y.status == (if a.ok then Succeeded else Failed) && y.pid == x.pid)
            && (a.StartOk? || a.ContextDone? || a.Remove? ==> y.status == x.status && y.pid == x.pid)
            && (y.stage == Removed <==> a.Remove?)
  {
  }

  /** A tick sets out to visit exactly what is in the map of its runtime, and ends only after all of it. */
  lemma TickShows(r: Runtimes, rt: Id, e: Id)
    ensures LoopEnabled(r, rt, Tick) ==>
              var l := LoopApply(r, rt, Tick).loops[rt];
              l.Scan? && l.cursor == Between
              && (e in l.todo <==> e in r.execs && r.execs[e].rt == rt && r.execs[e].stage != Removed)
    ensures LoopEnabled(r, rt, EndTick) ==> r.loops[rt].Scan? && e !in r.loops[rt].todo
  {
  }

  /** The first read passes over an execution exactly if it is not RUNNING. */
  lemma CheckShows(r: Runtimes, rt: Id, e: Id)
    requires LoopEnabled(r, rt, Check(e))
    ensures var l, l' := r.loops[rt], LoopApply(r, rt, Check(e)).loops[rt];
            if r.execs[e].status == Running then l' == l.(cursor := Checked(e))
            else l' == l.(todo := l.todo - {e})
  {
  }

  /** The message has the ids, the status of the second read and the PID of the last read. */
  lemma BuildShows(r: Runtimes, rt: Id)
    ensures LoopEnabled(r, rt, LoadStatus) ==>
              var e := r.loops[rt].cursor.exec;
              LoopApply(r, rt, LoadStatus).loops[rt].cursor == Loaded(e, r.execs[e].status)
    ensures LoopEnabled(r, rt, LoadPid) ==>
              var c := r.loops[rt].cursor;
              var x, r' := r.execs[c.exec], LoopApply(r, rt, LoadPid);
              && r'.generated == r.generated + [Heartbeat(c.exec, x.job, x.attempt, c.status, x.pid)]
              && r'.loops[rt].cursor == Ready(Heartbeat(c.exec, x.job, x.attempt, c.status, x.pid))
              && r'.streams == r.streams
  {
  }

  /** A send appends the built message to the open stream; a failed one ends the stream's use, unsent. */
  lemma SendShows(r: Runtimes, rt: Id)
    ensures LoopEnabled(r, rt, SendOk) ==>
              var l, r' := r.loops[rt], LoopApply(r, rt, SendOk);
              var k := Stream(rt, l.epoch);
              && r'.streams == r.streams[k := r.streams[k] + [l.cursor.hb]]
              && r'.loops[rt] == l.(cursor := Between, todo := l.todo - {l.cursor.hb.exec})
    ensures LoopEnabled(r, rt, SendErr) ==>
              LoopApply(r, rt, SendErr).streams == r.streams
              && LoopApply(r, rt, SendErr).loops[rt] == Down(r.loops[rt].epoch)
    ensures LoopEnabled(r, rt, Connect) ==>
              var n := if rt in r.loops then r.loops[rt].epoch else 0;
              LoopApply(r, rt, Connect).streams == r.streams[Stream(rt, n + 1) := []]
              && LoopApply(r, rt, Connect).loops[rt] == Loop.Idle(n + 1)
  {
  }
}
