/** What holds of every run of the queue and its consumer, and a run that fills both windows. */
module DeliveryTheorems {
  import opened Delivery

  lemma InitInv(max: nat)
    requires max > 0
    ensures Inv(Init(max))
  {
  }

  /**
    Every published message is ready, unacknowledged, accepted or discarded, and in one of these
    only; a message is accepted only after a goroutine was started for it and discarded only if its
    body does not parse.  So a well-formed message that no goroutine was started for is still with
    the broker.  A message is started at most once more than the process was restarted.
   */
  lemma NothingLeavesUnstarted(max: nat, acts: seq<Action>)
    requires max > 0 && Legal(Init(max), acts)
    ensures var s := After(Init(max), acts);
            && Partition(s)
            && (forall m :: m in s.accepted ==> m in s.started)
            && s.discarded <= s.bad
            && (forall m :: m in s.published && m !in s.bad && m !in s.started ==> m in s.ready || m in s.unacked)
            && (forall m :: m in s.bad ==> m !in s.started)
            && (forall m :: s.started[m] <= 1 + s.restarts)
  {
    InitInv(max);
    RunInv(Init(max), acts);
    var s := After(Init(max), acts);
    forall m
      ensures s.started[m] <= 1 + s.restarts && (m in s.accepted ==> m in s.started)
          && (m in s.discarded ==> m in s.bad)
      ensures m in s.published && m !in s.bad && m !in s.started ==> m in s.ready || m in s.unacked
      ensures m in s.bad ==> m !in s.started
    {
      assert MessageOk(s, m);
    }
  }

  /** The starts of `m` so far, and one more if the present process may still start it. */
  function Starts(s: State, m: Id): nat {
    s.started[m] + if CanStillStart(s, m) || m !in s.published then 1 else 0
  }

  lemma StepStarts(s: State, a: Action, m: Id)
    requires Enabled(s, a) && !a.Restart?
    requires PlaceOk(s, m) && (m in s.ready ==> m in s.published && m !in s.unacked)
    ensures Starts(Apply(s, a), m) <= Starts(s, m)
  {
  }

  lemma {:induction false} RunStarts(s: State, acts: seq<Action>, m: Id)
    requires Inv(s) && Legal(s, acts) && forall i :: 0 <= i < |acts| ==> !acts[i].Restart?
    ensures Starts(After(s, acts), m) <= Starts(s, m)
    decreases |acts|
  {
    if acts != [] {
      StepInv(s, acts[0]);
      assert MessageOk(s, m);
      StepStarts(s, acts[0], m);
      RunStarts(Apply(s, acts[0]), acts[1..], m);
    }
  }

  /** From any moment of any run on, one process starts at most one goroutine for a message. */
  lemma OneStartPerProcess(max: nat, before: seq<Action>, acts: seq<Action>, m: Id)
    requires max > 0 && Legal(Init(max), before) && Legal(After(Init(max), before), acts)
    requires forall i :: 0 <= i < |acts| ==> !acts[i].Restart?
    ensures var s := After(Init(max), before);
            && After(s, acts).started[m] <= s.started[m] + 1
            && (m in s.published && !CanStillStart(s, m) ==> After(s, acts).started[m] == s.started[m])
  {
    InitInv(max);
    RunInv(Init(max), before);
    RunStarts(After(Init(max), before), acts, m);
    NeverUnstarted(After(Init(max), before), acts, m);
  }

  lemma {:induction false} NeverUnstarted(s: State, acts: seq<Action>, m: Id)
    requires Legal(s, acts)
    ensures s.started[m] <= After(s, acts).started[m]
    decreases |acts|
  {
    if acts != [] {
      NeverUnstarted(Apply(s, acts[0]), acts[1..], m);
    }
  }

  /**
    What settling means: on an open channel an ack accepts the message and a rejection discards it, for
    good and without requeueing; on a lost channel neither has any effect.
   */
  lemma SettlementMeaning(max: nat, acts: seq<Action>, a: Action)
    requires max > 0 && Legal(Init(max), acts) && Enabled(After(Init(max), acts), a) && (a.Ack? || a.Reject?)
    ensures var s := After(Init(max), acts);
            var s', m := Apply(s, a), s.consumer.m;
            && s'.consumer == Idle && s'.ready == s.ready
            && (s.open ==> m in s.unacked && s'.unacked == s.unacked - {m})
            && (s.open && a.Ack? ==> s'.accepted == s.accepted + {m} && s'.discarded == s.discarded)
            && (s.open && a.Reject? ==> s'.discarded == s.discarded + {m} && s'.accepted == s.accepted && m in s.bad)
            && (!s.open ==> s' == s.(consumer := Idle))
  {
    InitInv(max);
    RunInv(Init(max), acts);
    var s := After(Init(max), acts);
    assert MessageOk(s, s.consumer.m);
  }

  /**
    A lost channel gives every unsettled message back to the queue, and the consumer does not notice: what
    the client had buffered can still be received and handled.  A restart forgets it.
   */
  lemma LossMeaning(s: State, m: Id)
    ensures Enabled(s, LoseChannel) ==>
              var s' := Apply(s, LoseChannel);
              && !s'.open && s'.unacked == {} && (m in s'.ready <==> m in s.ready || m in s.unacked)
              && s'.buffer == s.buffer && s'.consumer == s.consumer && s'.slots == s.slots && s'.running == s.running
              && s'.accepted == s.accepted && s'.discarded == s.discarded && s'.started == s.started
              && (s.consumer == Idle && m in s.buffer ==> Enabled(s', Receive(m)))
    ensures var s' := Apply(s, Restart);
            && s'.open && s'.unacked == {} && (m in s'.ready <==> m in s.ready || m in s.unacked)
            && s'.buffer == {} && s'.consumer == Idle && s'.slots == 0 && s'.running == {}
            && s'.accepted == s.accepted && s'.discarded == s.discarded && s'.started == s.started
  {
  }

  /** The way of a message from the queue to its goroutine, and the slot from taking to giving it back. */
  lemma HandlingMeaning(s: State, m: Id)
    ensures Enabled(s, Push(m)) ==>
              var s' := Apply(s, Push(m));
              m !in s'.ready && m in s'.unacked && m in s'.buffer && s'.consumer == s.consumer
    ensures Enabled(s, Receive(m)) ==>
              var s' := Apply(s, Receive(m));
              m !in s'.buffer && s'.consumer == Parsing(m) && s'.slots == s.slots && s'.started == s.started
    ensures Enabled(s, Parse) && s.consumer.m == m ==>
              Apply(s, Parse) == s.(consumer := if m in s.bad then Rejecting(m) else Waiting(m))
    ensures Enabled(s, Acquire) && s.consumer.m == m ==>
              Apply(s, Acquire).consumer == Granted(m) && Apply(s, Acquire).slots == s.slots + 1 <= s.max
    ensures Enabled(s, Spawn) && s.consumer.m == m ==>
              var s' := Apply(s, Spawn);
              s'.consumer == Acking(m) && m in s'.running && s'.started[m] == s.started[m] + 1 && s'.slots == s.slots
    ensures Enabled(s, Return(m)) ==>
              Apply(s, Return(m)).slots == s.slots - 1 && m !in Apply(s, Return(m)).running
  {
  }

  /** Anyone may publish, the channel may be lost and the process restarted at any moment. */
  lemma WorldIsFree(s: State, m: Id, wellFormed: bool)
    ensures m !in s.published ==> Enabled(s, Publish(m, wellFormed))
    ensures s.open ==> Enabled(s, LoseChannel)
    ensures Enabled(s, Restart)
    ensures s.open && m in s.ready && |s.unacked| < s.max ==> Enabled(s, Push(m))
    ensures s.consumer == Idle && m in s.buffer ==> Enabled(s, Receive(m))
  {
  }

  /** A settled delivery stays settled the way it was, so it is settled once. */
  lemma {:induction false} SettledForGood(s: State, acts: seq<Action>)
    requires Inv(s) && Legal(s, acts)
    ensures s.accepted <= After(s, acts).accepted && s.discarded <= After(s, acts).discarded
    decreases |acts|
  {
    if acts != [] {
      StepInv(s, acts[0]);
      SettledForGood(Apply(s, acts[0]), acts[1..]);
    }
  }

  /** Messages that left the ready queue and whose handling is unfinished. */
  function Unfinished(s: State): set<Id> {
    s.unacked + InClient(s) + s.running
  }

  lemma UnionSize(a: set<Id>, b: set<Id>)
    ensures |a + b| <= |a| + |b|
  {
    assert a + b == a + (b - a);
    assert |b - a| <= |b| by {
      assert b == (b - a) + (b * a);
    }
  }

  /**
    The semaphore counts the live goroutines plus the slot in the consumer's hand and never exceeds
    MAX_WORKERS; with the prefetch window of the same size, at most 2 * MAX_WORKERS messages are
    being handled.
   */
  lemma ConcurrencyBound(max: nat, acts: seq<Action>)
    requires max > 0 && Legal(Init(max), acts)
    ensures var s := After(Init(max), acts);
            && s.slots == |s.running| + InHand(s.consumer)
            && s.slots <= max && |s.unacked| <= max
            && |Unfinished(s)| <= 2 * max
  {
    InitInv(max);
    RunInv(Init(max), acts);
    KeepsMax(Init(max), acts);
    var s := After(Init(max), acts);
    ClientSize(s);
    UnionSize(s.unacked + InClient(s), s.running);
  }

  lemma ClientSize(s: State)
    requires (forall m :: MessageOk(s, m)) && ClientOk(s) && |s.unacked| <= s.max
    ensures |s.unacked + InClient(s)| <= s.max
  {
    forall m ensures PlaceOk(s, m) {
      assert MessageOk(s, m);
    }
    ClientFits(s);
    assert s.unacked + InClient(s) == if s.open then s.unacked else InClient(s);
  }

  lemma {:induction false} KeepsMax(s: State, acts: seq<Action>)
    requires Legal(s, acts)
    ensures After(s, acts).max == s.max
    decreases |acts|
  {
    if acts != [] {
      KeepsMax(Apply(s, acts[0]), acts[1..]);
    }
  }

  // ---------- the bound is reached ----------

  ghost predicate Reachable(max: nat, s: State) {
    exists acts :: Legal(Init(max), acts) && After(Init(max), acts) == s
  }

  lemma {:induction false} Extend(s: State, acts: seq<Action>, a: Action)
    requires Legal(s, acts) && Enabled(After(s, acts), a)
    ensures Legal(s, acts + [a]) && After(s, acts + [a]) == Apply(After(s, acts), a)
    decreases |acts|
  {
    if acts == [] {
      assert acts + [a] == [a];
      assert Legal(Apply(s, a), [a][1..]);
    } else {
      Extend(Apply(s, acts[0]), acts[1..], a);
      assert (acts + [a])[1..] == acts[1..] + [a];
    }
  }

  lemma Next(max: nat, s: State, a: Action, s': State)
    requires Reachable(max, s) && Enabled(s, a) && s' == Apply(s, a)
    ensures Reachable(max, s')
  {
    var acts :| Legal(Init(max), acts) && After(Init(max), acts) == s;
    Extend(Init(max), acts, a);
  }

  /** `done` are accepted; their goroutines are started and, for the most part, still run. */
  function Busy(max: nat, done: set<Id>, unacked: set<Id>, ready: set<Id>, c: Consumer, slots: nat, running: set<Id>,
                started: multiset<Id>): State {
    State(max, true, done + unacked + ready, {}, ready, unacked, done, {}, if c.Idle? then unacked else {}, c,
          slots, running, started, 0)
  }

  /** Everything in `done` runs, and `window` waits with the client. */
  function Full(max: nat, done: set<Id>, window: set<Id>): State {
    Busy(max, done, window, {}, Idle, |done|, done, multiset(done))
  }

  lemma TakeOne(max: nat, done: set<Id>, m: Id)
    requires Reachable(max, Full(max, done, {})) && m !in done && max > 0
    ensures Reachable(max, Busy(max, done, {m}, {}, Waiting(m), |done|, done, multiset(done)))
  {
    var n, st := |done|, multiset(done);
    Next(max, Full(max, done, {}), Publish(m, true), Busy(max, done, {}, {m}, Idle, n, done, st));
    assert {m} - {m} == {};
    Next(max, Busy(max, done, {}, {m}, Idle, n, done, st), Push(m), Busy(max, done, {m}, {}, Idle, n, done, st));
    Next(max, Busy(max, done, {m}, {}, Idle, n, done, st), Receive(m),
        Busy(max, done, {m}, {}, Parsing(m), n, done, st));
    Next(max, Busy(max, done, {m}, {}, Parsing(m), n, done, st), Parse,
        Busy(max, done, {m}, {}, Waiting(m), n, done, st));
  }

  lemma StartOne(max: nat, done: set<Id>, m: Id)
    requires Reachable(max, Full(max, done, {})) && m !in done && |done| < max
    ensures Reachable(max, Full(max, done + {m}, {}))
  {
    var n, st := |done|, multiset(done);
    TakeOne(max, done, m);
    Next(max, Busy(max, done, {m}, {}, Waiting(m), n, done, st), Acquire,
         Busy(max, done, {m}, {}, Granted(m), n + 1, done, st));
    var done' := done + {m};
    assert multiset(done') == st + multiset{m};
    Next(max, Busy(max, done, {m}, {}, Granted(m), n + 1, done, st), Spawn,
         Busy(max, done, {m}, {}, Acking(m), n + 1, done', multiset(done')));
    assert {m} - {m} == {};
    Next(max, Busy(max, done, {m}, {}, Acking(m), n + 1, done', multiset(done')), Ack, Full(max, done', {}));
  }

  /** The message numbers lo, lo+1, ..., lo+n-1. */
  ghost predicate Block(lo: nat, n: nat, s: set<Id>) {
    |s| == n && forall m :: m in s ==> lo <= m < lo + n
  }

  lemma BlockNext(lo: nat, n: nat, s: set<Id>)
    requires Block(lo, n, s)
    ensures lo + n !in s && Block(lo, n + 1, s + {lo + n})
  {
  }

  lemma StartAll(max: nat) returns (done: set<Id>)
    ensures Reachable(max, Full(max, done, {})) && Block(0, max, done)
  {
    done := {};
    assert Reachable(max, Full(max, {}, {})) by {
      assert Legal(Init(max), []) && After(Init(max), []) == Init(max);
      assert Full(max, {}, {}) == Init(max);
    }
    for k := 0 to max
      invariant Reachable(max, Full(max, done, {})) && Block(0, k, done)
    {
      BlockNext(0, k, done);
      StartOne(max, done, k);
      done := done + {k};
    }
  }

  /** With the goroutines busy, one more message enters the prefetch window. */
  lemma PushOne(max: nat, done: set<Id>, window: set<Id>, m: Id)
    requires Reachable(max, Full(max, done, window))
    requires m !in window && m !in done && |window| < max
    ensures Reachable(max, Full(max, done, window + {m}))
  {
    var n, st := |done|, multiset(done);
    Next(max, Full(max, done, window), Publish(m, true), Busy(max, done, window, {m}, Idle, n, done, st));
    assert {m} - {m} == {};
    assert done + window + {m} == done + (window + {m}) + {};
    Next(max, Busy(max, done, window, {m}, Idle, n, done, st), Push(m), Full(max, done, window + {m}));
  }

  lemma {:induction false} FillWindow(max: nat, done: set<Id>, p: nat) returns (window: set<Id>)
    requires Reachable(max, Full(max, done, {})) && Block(0, max, done) && p <= max
    ensures Reachable(max, Full(max, done, window)) && Block(max, p, window)
  {
    if p == 0 {
      window := {};
    } else {
      var w := FillWindow(max, done, p - 1);
      var m: Id := max + (p - 1);
      BlockNext(max, p - 1, w);
      assert |w| < max && m !in w;
      assert m !in done;
      PushOne(max, done, w, m);
      window := w + {m};
      assert Block(max, p, window);
    }
  }

  /** For every MAX_WORKERS some run has exactly 2 * MAX_WORKERS messages in handling. */
  lemma BoundIsReached(max: nat)
    requires max > 0
    ensures exists acts :: Legal(Init(max), acts) && |Unfinished(After(Init(max), acts))| == 2 * max
  {
    var done := StartAll(max);
    var window := FillWindow(max, done, max);
    var s := Full(max, done, window);
    var acts :| Legal(Init(max), acts) && After(Init(max), acts) == s;
    assert window !! done;
    assert |window + done| == |window| + |done|;
  }
}
