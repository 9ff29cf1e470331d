/**
  The queue and the execution protocol together, for one life of the dispatcher process: the goroutine
  that the consumer starts for a message is a goroutine of the protocol, and it gives its semaphore
  slot back when it has returned.  `jobOf` is the job a message names.
 */
module Dispatch {
  import opened Common
  import opened Attempts
  import D = Delivery
  import DT = DeliveryTheorems
  import P = Protocol
  import PI = ProtocolInvariants

  type Id = nat

  /** `made` is the message each goroutine was started for, `live` those that still hold a slot. */
  datatype State = State(d: D.State, p: P.State, made: map<Id, Id>, live: set<Id>)

  datatype Action =
    | Queue(qa: D.Action)
    | Spawn(t: Id)
    | Return(t: Id)
    | Work(pa: P.Action)

  function Init(max: nat): State {
    State(D.Init(max), P.Init(), map[], {})
  }

  predicate Enabled(s: State, a: Action, jobOf: Id -> Id) {
    match a
    case Queue(qa) => !qa.Spawn? && !qa.Return? && !qa.Restart? && D.Enabled(s.d, qa)
    case Spawn(t) => D.Enabled(s.d, D.Spawn) && P.Enabled(s.p, P.Begin(t, jobOf(s.d.consumer.m)))
    case Return(t) =>
      && t in s.live && t in s.made && t in s.p.ledger.threads && s.p.ledger.threads[t].pc.Returned?
      && D.Enabled(s.d, D.Return(s.made[t]))
    case Work(pa) => !pa.Begin? && P.Enabled(s.p, pa)
  }

  function Apply(s: State, a: Action, jobOf: Id -> Id): State
    requires Enabled(s, a, jobOf)
  {
    match a
    case Queue(qa) => s.(d := D.Apply(s.d, qa))
    case Spawn(t) =>
      var m := s.d.consumer.m;
      State(D.Apply(s.d, D.Spawn), P.Apply(s.p, P.Begin(t, jobOf(m))), s.made[t := m], s.live + {t})
    case Return(t) => s.(d := D.Apply(s.d, D.Return(s.made[t])), live := s.live - {t})
    case Work(pa) => s.(p := P.Apply(s.p, pa))
  }

  predicate Legal(s: State, acts: seq<Action>, jobOf: Id -> Id)
    decreases |acts|
  {
    acts == [] || (Enabled(s, acts[0], jobOf) && Legal(Apply(s, acts[0], jobOf), acts[1..], jobOf))
  }

  function After(s: State, acts: seq<Action>, jobOf: Id -> Id): State
    requires Legal(s, acts, jobOf)
    decreases |acts|
  {
    if acts == [] then s else After(Apply(s, acts[0], jobOf), acts[1..], jobOf)
  }

  // ---------- what every step keeps ----------

  /** The goroutine works for the job of its message, was started by the consumer, and keeps its slot while it works. */
  predicate GoroutineOk(threads: map<Id, Thread>, started: multiset<Id>, running: set<Id>, made: map<Id, Id>,
      live: set<Id>, jobOf: Id -> Id, t: Id)
    requires t in made
  {
    && t in threads && threads[t].job == jobOf(made[t]) && made[t] in started
    && (t in live <==> made[t] in running)
    && (t !in live ==> threads[t].pc.Returned?)
  }

  ghost predicate HasGoroutine(made: map<Id, Id>, m: Id) {
    exists t :: t in made && made[t] == m
  }

  /** The two halves agree on goroutines and messages. */
  ghost predicate Agree(threads: map<Id, Thread>, started: multiset<Id>, running: set<Id>, made: map<Id, Id>,
      live: set<Id>, jobOf: Id -> Id) {
    && made.Keys == threads.Keys && live <= made.Keys && |live| == |running|
    && AllOk(threads, started, running, made, live, jobOf) && OnePerMessage(made) && AllMade(started, made)
  }

  ghost predicate AllOk(threads: map<Id, Thread>, started: multiset<Id>, running: set<Id>, made: map<Id, Id>,
      live: set<Id>, jobOf: Id -> Id) {
    forall t :: t in made ==> GoroutineOk(threads, started, running, made, live, jobOf, t)
  }

  ghost predicate OnePerMessage(made: map<Id, Id>) {
    forall t, u :: t in made && u in made && made[t] == made[u] ==> t == u
  }

  ghost predicate AllMade(started: multiset<Id>, made: map<Id, Id>) {
    forall m :: m in started ==> HasGoroutine(made, m)
  }

  ghost predicate Inv(s: State, jobOf: Id -> Id) {
    && D.Inv(s.d) && P.Inv(s.p) && s.d.restarts == 0
    && Agree(s.p.ledger.threads, s.d.started, s.d.running, s.made, s.live, jobOf)
  }

  lemma SpawnOther(threads: map<Id, Thread>, started: multiset<Id>, running: set<Id>, made: map<Id, Id>, live: set<Id>,
                   jobOf: Id -> Id, t: Id, m: Id, u: Id)
    requires u in made && u != t && t !in made && m !in started
    requires GoroutineOk(threads, started, running, made, live, jobOf, u)
    ensures made[u] != m
    ensures GoroutineOk(threads[t := Thread(jobOf(m), Load)], started + multiset{m}, running + {m}, made[t := m],
                        live + {t}, jobOf, u)
  {
  }

  lemma SpawnGoroutines(started: multiset<Id>, made: map<Id, Id>, t: Id, m: Id)
    requires t !in made && AllMade(started, made) && OnePerMessage(made) && forall u :: u in made ==> made[u] != m
    ensures AllMade(started + multiset{m}, made[t := m]) && OnePerMessage(made[t := m])
  {
    forall n | n in started + multiset{m} ensures HasGoroutine(made[t := m], n) {
      if n == m {
        assert made[t := m][t] == m;
      } else {
        var u :| u in made && made[u] == n;
        assert made[t := m][u] == n;
      }
    }
  }

  lemma SpawnAll(threads: map<Id, Thread>, started: multiset<Id>, running: set<Id>, made: map<Id, Id>, live: set<Id>,
                 jobOf: Id -> Id, t: Id, m: Id)
    requires AllOk(threads, started, running, made, live, jobOf) && t !in made && m !in started
    ensures forall u :: u in made ==> made[u] != m
    ensures AllOk(threads[t := Thread(jobOf(m), Load)], started + multiset{m}, running + {m}, made[t := m], live + {t},
        jobOf)
  {
    var threads', started', running' := threads[t := Thread(jobOf(m), Load)], started + multiset{m}, running + {m};
    forall u | u in made[t := m] && u != t
      ensures made[u] != m && GoroutineOk(threads', started', running', made[t := m], live + {t}, jobOf, u)
    {
      SpawnOther(threads, started, running, made, live, jobOf, t, m, u);
    }
    assert GoroutineOk(threads', started', running', made[t := m], live + {t}, jobOf, t);
  }

  lemma SpawnSizes(live: set<Id>, running: set<Id>, t: Id, m: Id)
    requires |live| == |running| && t !in live && m !in running
    ensures |live + {t}| == |running + {m}|
  {
  }

  lemma SpawnAgree(threads: map<Id, Thread>, started: multiset<Id>, running: set<Id>, made: map<Id, Id>, live: set<Id>,
                   jobOf: Id -> Id, t: Id, m: Id)
    requires Agree(threads, started, running, made, live, jobOf) && t !in threads && m !in started && m !in running
    ensures Agree(threads[t := Thread(jobOf(m), Load)], started + multiset{m}, running + {m}, made[t := m], live + {t},
        jobOf)
  {
    SpawnAll(threads, started, running, made, live, jobOf, t, m);
    SpawnGoroutines(started, made, t, m);
    SpawnSizes(live, running, t, m);
  }

  lemma ReturnAgree(threads: map<Id, Thread>, started: multiset<Id>, running: set<Id>, made: map<Id, Id>, live: set<Id>,
                    jobOf: Id -> Id, t: Id)
    requires Agree(threads, started, running, made, live, jobOf) && t in live && threads[t].pc.Returned?
    ensures Agree(threads, started, running - {made[t]}, made, live - {t}, jobOf)
  {
    forall u | u in made ensures GoroutineOk(threads, started, running - {made[t]}, made, live - {t}, jobOf, u) {
      assert GoroutineOk(threads, started, running, made, live, jobOf, u);
      assert GoroutineOk(threads, started, running, made, live, jobOf, t);
    }
  }

  lemma WorkAgree(threads: map<Id, Thread>, threads': map<Id, Thread>, started: multiset<Id>, running: set<Id>,
                  made: map<Id, Id>, live: set<Id>, jobOf: Id -> Id)
    requires Agree(threads, started, running, made, live, jobOf) && SameGoroutines(threads, threads')
    ensures Agree(threads', started, running, made, live, jobOf)
  {
    forall u | u in made ensures GoroutineOk(threads', started, running, made, live, jobOf, u) {
      assert GoroutineOk(threads, started, running, made, live, jobOf, u);
    }
  }

  /** No goroutine comes or goes or changes its job, and one that has returned stays so. */
  ghost predicate SameGoroutines(threads: map<Id, Thread>, threads': map<Id, Thread>) {
    threads'.Keys == threads.Keys
    && forall t :: t in threads ==>
         threads'[t].job == threads[t].job && (threads[t].pc.Returned? ==> threads'[t].pc == threads[t].pc)
  }

  lemma WorkThreads(p: P.State, pa: P.Action)
    requires P.Enabled(p, pa) && !pa.Begin?
    ensures SameGoroutines(p.ledger.threads, P.Apply(p, pa).ledger.threads)
  {
  }

  lemma QueueKeeps(d: D.State, qa: D.Action)
    requires D.Enabled(d, qa) && !qa.Spawn? && !qa.Return? && !qa.Restart?
    ensures D.Apply(d, qa).started == d.started && D.Apply(d, qa).running == d.running
    ensures D.Apply(d, qa).restarts == d.restarts
  {
  }

  lemma QueueInv(s: State, qa: D.Action, jobOf: Id -> Id)
    requires Inv(s, jobOf) && Enabled(s, Queue(qa), jobOf)
    ensures Inv(Apply(s, Queue(qa), jobOf), jobOf)
  {
    D.StepInv(s.d, qa);
    QueueKeeps(s.d, qa);
  }

  lemma SpawnInv(s: State, t: Id, jobOf: Id -> Id)
    requires Inv(s, jobOf) && Enabled(s, Spawn(t), jobOf)
    ensures Inv(Apply(s, Spawn(t), jobOf), jobOf)
  {
    var m := s.d.consumer.m;
    D.StepInv(s.d, D.Spawn);
    PI.StepInv(s.p, P.Begin(t, jobOf(m)));
    assert D.MessageOk(s.d, m) && D.CanStillStart(s.d, m);
    SpawnAgree(s.p.ledger.threads, s.d.started, s.d.running, s.made, s.live, jobOf, t, m);
  }

  lemma ReturnInv(s: State, t: Id, jobOf: Id -> Id)
    requires Inv(s, jobOf) && Enabled(s, Return(t), jobOf)
    ensures Inv(Apply(s, Return(t), jobOf), jobOf)
  {
    D.StepInv(s.d, D.Return(s.made[t]));
    ReturnAgree(s.p.ledger.threads, s.d.started, s.d.running, s.made, s.live, jobOf, t);
  }

  lemma WorkInv(s: State, pa: P.Action, jobOf: Id -> Id)
    requires Inv(s, jobOf) && Enabled(s, Work(pa), jobOf)
    ensures Inv(Apply(s, Work(pa), jobOf), jobOf)
  {
    PI.StepInv(s.p, pa);
    WorkThreads(s.p, pa);
    WorkAgree(s.p.ledger.threads, P.Apply(s.p, pa).ledger.threads, s.d.started, s.d.running, s.made, s.live, jobOf);
  }

  lemma StepInv(s: State, a: Action, jobOf: Id -> Id)
    requires Inv(s, jobOf) && Enabled(s, a, jobOf)
    ensures Inv(Apply(s, a, jobOf), jobOf)
  {
    match a
    case Queue(qa) => QueueInv(s, qa, jobOf);
    case Spawn(t) => SpawnInv(s, t, jobOf);
    case Return(t) => ReturnInv(s, t, jobOf);
    case Work(pa) => WorkInv(s, pa, jobOf);
  }

  lemma {:induction false} RunInv(s: State, acts: seq<Action>, jobOf: Id -> Id)
    requires Inv(s, jobOf) && Legal(s, acts, jobOf)
    ensures Inv(After(s, acts, jobOf), jobOf)
    decreases |acts|
  {
    if acts != [] {
      StepInv(s, acts[0], jobOf);
      RunInv(Apply(s, acts[0], jobOf), acts[1..], jobOf);
    }
  }

  lemma StepMax(s: State, a: Action, jobOf: Id -> Id)
    requires Enabled(s, a, jobOf)
    ensures Apply(s, a, jobOf).d.max == s.d.max
  {
  }

  lemma {:induction false} RunMax(s: State, acts: seq<Action>, jobOf: Id -> Id)
    requires Legal(s, acts, jobOf)
    ensures After(s, acts, jobOf).d.max == s.d.max
    decreases |acts|
  {
    if acts != [] {
      StepMax(s, acts[0], jobOf);
      RunMax(Apply(s, acts[0], jobOf), acts[1..], jobOf);
    }
  }

  lemma InitInv(max: nat, jobOf: Id -> Id)
    requires max > 0
    ensures Inv(Init(max), jobOf)
  {
    DT.InitInv(max);
    PI.InitInv();
  }

  // ---------- from the queue to the attempt row ----------

  /** How far the message's goroutine `t` has come: still at work with a slot, or returned with a fitting row. */
  predicate Handled(s: State, t: Id) {
    && t in s.p.ledger.threads
    && var pc := s.p.ledger.threads[t].pc;
       && (pc.Live() ==> t in s.live)
       && (pc.Attempt().Some? ==> RowFits(pc, RowStatus(s.p.ledger.rows, pc.Attempt().value)))
  }

  lemma GoroutineHandled(s: State, jobOf: Id -> Id, t: Id)
    requires Inv(s, jobOf) && t in s.made
    ensures Handled(s, t)
  {
    var l := s.p.ledger;
    assert GoroutineOk(l.threads, s.d.started, s.d.running, s.made, s.live, jobOf, t);
    assert ThreadOk(l, t);
    if l.threads[t].pc.Attempt().Some? {
      assert OwnerOk(l, l.threads[t].pc.Attempt().value);
    }
  }

  /**
    In one life of the dispatcher a message that was accepted has exactly one goroutine, which works for
    the message's job and is still at work with a slot or has left its attempt row as its way of
    returning demands.  No more than MAX_WORKERS goroutines are at work at a time.
   */
  lemma AcceptedIsHandled(max: nat, acts: seq<Action>, jobOf: Id -> Id, m: Id)
    requires max > 0 && Legal(Init(max), acts, jobOf) && m in After(Init(max), acts, jobOf).d.accepted
    ensures var s := After(Init(max), acts, jobOf);
            && (exists t :: t in s.made && s.made[t] == m && Handled(s, t) && s.p.ledger.threads[t].job == jobOf(m))
            && (forall t, u :: t in s.made && u in s.made && s.made[t] == m && s.made[u] == m ==> t == u)
            && |AtWork(s)| <= max
  {
    InitInv(max, jobOf);
    RunInv(Init(max), acts, jobOf);
    RunMax(Init(max), acts, jobOf);
    var s := After(Init(max), acts, jobOf);
    StartedOnly(s.d, m);
    assert HasGoroutine(s.made, m);
    var t :| t in s.made && s.made[t] == m;
    GoroutineHandled(s, jobOf, t);
    assert GoroutineOk(s.p.ledger.threads, s.d.started, s.d.running, s.made, s.live, jobOf, t);
    forall u | u in AtWork(s) ensures u in s.live {
      assert GoroutineOk(s.p.ledger.threads, s.d.started, s.d.running, s.made, s.live, jobOf, u);
    }
    SubsetSize(AtWork(s), s.live);
  }

  lemma StartedOnly(d: D.State, m: Id)
    requires D.Inv(d)
    ensures m in d.accepted ==> m in d.started
    ensures m in d.started ==> m in d.published && m !in d.bad
  {
    assert D.MessageOk(d, m);
  }

  /** The goroutines inside `executeJob`. */
  function AtWork(s: State): set<Id> {
    set t | t in s.p.ledger.threads && s.p.ledger.threads[t].pc.Live()
  }

  /**
    Every attempt row comes from the queue: its owner was started for a message with the row's job, and
    two rows come from two different messages, so a message makes at most one attempt.
   */
  lemma RowsComeFromMessages(max: nat, acts: seq<Action>, jobOf: Id -> Id, a: Id, b: Id)
    requires max > 0 && Legal(Init(max), acts, jobOf)
    requires a in After(Init(max), acts, jobOf).p.ledger.rows && b in After(Init(max), acts, jobOf).p.ledger.rows
    ensures var s := After(Init(max), acts, jobOf);
            var l := s.p.ledger;
            && a in l.owner && b in l.owner && l.owner[a] in s.made && l.owner[b] in s.made
            && s.made[l.owner[a]] in s.d.published && s.made[l.owner[a]] !in s.d.bad
            && l.rows[a].job == jobOf(s.made[l.owner[a]])
            && (a != b ==> s.made[l.owner[a]] != s.made[l.owner[b]])
  {
    InitInv(max, jobOf);
    RunInv(Init(max), acts, jobOf);
    var s := After(Init(max), acts, jobOf);
    var l := s.p.ledger;
    assert OwnerOk(l, a) && OwnerOk(l, b);
    StartedOnly(s.d, s.made[l.owner[a]]);
    assert GoroutineOk(l.threads, s.d.started, s.d.running, s.made, s.live, jobOf, l.owner[a]);
  }
}
