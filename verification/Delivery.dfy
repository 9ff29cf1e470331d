/**
  The job queue, the one consumer loop of the dispatcher and its semaphore.  Messages are named by
  the broker's delivery; `bad` bodies do not parse.  The channel may be lost at any moment, which
  requeues what is unsettled, while what the client has buffered can still be handed to the consumer;
  and the process may be restarted.
 */
module Delivery {

  import opened Common

  type Id = nat

  /** Where `ConsumeJobs` stands with the message it has received. */
  datatype Consumer =
    | Idle
    | Parsing(m: Id)
    | Rejecting(m: Id)     // body did not parse, about to nack without requeue
    | Waiting(m: Id)       // in the handler, about to send into the semaphore
    | Granted(m: Id)       // slot taken, about to start the goroutine
    | Acking(m: Id)        // handler returned nil

  /**
    `buffer` is what the client holds for the consumer, `started` every goroutine start ever, `restarts`
    how often the process began anew.
   */
  datatype State = State(
    max: nat, open: bool,
    published: set<Id>, bad: set<Id>,
    ready: set<Id>, unacked: set<Id>, accepted: set<Id>, discarded: set<Id>,
    buffer: set<Id>, consumer: Consumer, slots: nat, running: set<Id>,
    started: multiset<Id>, restarts: nat)

  function Init(max: nat): State {
    State(max, true, {}, {}, {}, {}, {}, {}, {}, Idle, 0, {}, multiset{}, 0)
  }

  datatype Action =
    | Publish(m: Id, wellFormed: bool)
    | Push(m: Id)          // broker to client, within the prefetch window
    | Receive(m: Id)
    | Parse
    | Reject
    | Acquire
    | Spawn
    | Ack
    | Return(m: Id)        // executeJob over: the deferred release
    | LoseChannel
    | Restart

  predicate Enabled(s: State, a: Action) {
    match a
    case Publish(m, _) => m !in s.published
    case Push(m) => s.open && m in s.ready && |s.unacked| < s.max
    case Receive(m) => s.consumer.Idle? && m in s.buffer
    case Parse => s.consumer.Parsing?
    case Reject => s.consumer.Rejecting?
    case Acquire => s.consumer.Waiting? && s.slots < s.max
    case Spawn => s.consumer.Granted?
    case Ack => s.consumer.Acking?
    case Return(m) => m in s.running && s.slots > 0
    case LoseChannel => s.open
    case Restart => true
  }

  function Apply(s: State, a: Action): State
    requires Enabled(s, a)
  {
    match a
    case Publish(m, wellFormed) =>
      s.(published := s.published + {m}, ready := s.ready + {m}, bad := if wellFormed then s.bad else s.bad + {m})
    case Push(m) => s.(ready := s.ready - {m}, unacked := s.unacked + {m}, buffer := s.buffer + {m})
    case Receive(m) => s.(buffer := s.buffer - {m}, consumer := Parsing(m))
    case Parse => s.(consumer := if s.consumer.m in s.bad then Rejecting(s.consumer.m) else Waiting(s.consumer.m))
    case Reject => Settle(s, s.consumer.m, false).(consumer := Idle)
    case Acquire => s.(consumer := Granted(s.consumer.m), slots := s.slots + 1)
    case Spawn =>
      s.(consumer := Acking(s.consumer.m), running := s.running + {s.consumer.m},
      started := s.started + multiset{s.consumer.m})
    case Ack => Settle(s, s.consumer.m, true).(consumer := Idle)
    case Return(m) => s.(running := s.running - {m}, slots := s.slots - 1)
    case LoseChannel => s.(open := false, ready := s.ready + s.unacked, unacked := {})
    case Restart =>
      s.(open := true, ready := s.ready + s.unacked, unacked := {}, buffer := {},
      consumer := Idle, slots := 0, running := {}, restarts := s.restarts + 1)
  }

  /** An ack or nack on an open channel settles the delivery; on a lost one it errors and does nothing. */
  function Settle(s: State, m: Id, ok: bool): State {
    if !s.open || m !in s.unacked then s
    else if ok then s.(unacked := s.unacked - {m}, accepted := s.accepted + {m})
    else s.(unacked := s.unacked - {m}, discarded := s.discarded + {m})
  }

  predicate Legal(s: State, acts: seq<Action>)
    decreases |acts|
  {
    acts == [] || (Enabled(s, acts[0]) && Legal(Apply(s, acts[0]), acts[1..]))
  }

  function After(s: State, acts: seq<Action>): State
    requires Legal(s, acts)
    decreases |acts|
  {
    if acts == [] then s else After(Apply(s, acts[0]), acts[1..])
  }

  // ---------- what every step keeps ----------

  /** Every published message is in exactly one place. */
  predicate Partition(s: State) {
    Split(s.published, s.ready, s.unacked, s.accepted, s.discarded)
  }

  predicate Split(all: set<Id>, a: set<Id>, b: set<Id>, c: set<Id>, d: set<Id>) {
    && all == a + b + c + d
    && a !! b && a !! c && a !! d && b !! c && b !! d && c !! d
  }

  /** The message the consumer holds, if it does. */
  predicate Holds(s: State, m: Id) {
    !s.consumer.Idle? && s.consumer.m == m
  }

  /** The slot the consumer took for a goroutine it has not started yet. */
  function InHand(c: Consumer): nat {
    if c.Granted? then 1 else 0
  }

  /** What the client holds or has handed to the consumer. */
  function InClient(s: State): set<Id> {
    s.buffer + if s.consumer.Idle? then {} else {s.consumer.m}
  }

  /** A message in the client is published, unsettled while the channel is open, and in one place there. */
  predicate PlaceOk(s: State, m: Id) {
    && (m in s.buffer || Holds(s, m) ==> m in s.published && (s.open ==> m in s.unacked))
    && (Holds(s, m) ==> m !in s.buffer)
    && (!s.open ==> m !in s.unacked)
  }

  /** The consumer treats the message by whether its body parses. */
  predicate BodyOk(s: State, m: Id) {
    && (m in s.bad ==> m in s.published)
    && (Holds(s, m) && s.consumer.Rejecting? ==> m in s.bad)
    && (Holds(s, m) && (s.consumer.Waiting? || s.consumer.Granted? || s.consumer.Acking?) ==> m !in s.bad)
  }

  predicate SlotsOk(s: State) {
    && s.slots == |s.running| + InHand(s.consumer)
    && s.slots <= s.max && |s.unacked| <= s.max
  }

  /** The prefetch window bounds the client too, also with what it kept when the channel was lost. */
  predicate ClientOk(s: State) {
    |InClient(s)| <= s.max
  }

  /** Goroutines were started for what was accepted, and only bad bodies were discarded. */
  predicate SettledOk(s: State, m: Id) {
    && (m in s.accepted ==> m in s.started)
    && (m in s.discarded ==> m in s.bad)
    && (m in s.started ==> m in s.published && m !in s.bad)
    && (Holds(s, m) && s.consumer.Acking? ==> m in s.started)
    && (m in s.running ==> m in s.started)
  }

  /** The current process may yet start a goroutine for `m`. */
  predicate CanStillStart(s: State, m: Id) {
    if Holds(s, m) then s.consumer.Parsing? || s.consumer.Waiting? || s.consumer.Granted?
    else m in s.buffer || (s.open && m in s.ready)
  }

  /** Each process starts at most one goroutine per message. */
  predicate StartOk(s: State, m: Id) {
    && s.started[m] <= 1 + s.restarts
    && (CanStillStart(s, m) ==> s.started[m] <= s.restarts && m !in s.running)
  }

  predicate MessageOk(s: State, m: Id) {
    PlaceOk(s, m) && BodyOk(s, m) && SettledOk(s, m) && StartOk(s, m)
  }

  ghost predicate Inv(s: State) {
    Partition(s) && SlotsOk(s) && ClientOk(s) && forall m :: MessageOk(s, m)
  }

  lemma SplitAdd(all: set<Id>, a: set<Id>, b: set<Id>, c: set<Id>, d: set<Id>, m: Id)
    requires Split(all, a, b, c, d) && m !in all
    ensures Split(all + {m}, a + {m}, b, c, d)
  {
  }

  lemma SplitMove(all: set<Id>, a: set<Id>, b: set<Id>, c: set<Id>, d: set<Id>, m: Id)
    requires Split(all, a, b, c, d)
    ensures m in a ==> Split(all, a - {m}, b + {m}, c, d)
    ensures m in b ==> Split(all, a, b - {m}, c + {m}, d) && Split(all, a, b - {m}, c, d + {m})
    ensures Split(all, a + b, {}, c, d)
  {
  }

  lemma StepPartition(s: State, a: Action)
    requires Partition(s) && Enabled(s, a)
    ensures Partition(Apply(s, a))
  {
    match a
    case Publish(m, _) => SplitAdd(s.published, s.ready, s.unacked, s.accepted, s.discarded, m);
    case Push(m) => SplitMove(s.published, s.ready, s.unacked, s.accepted, s.discarded, m);
    case Reject => SplitMove(s.published, s.ready, s.unacked, s.accepted, s.discarded, s.consumer.m);
    case Ack => SplitMove(s.published, s.ready, s.unacked, s.accepted, s.discarded, s.consumer.m);
    case LoseChannel => SplitMove(s.published, s.ready, s.unacked, s.accepted, s.discarded, 0);
    case Restart => SplitMove(s.published, s.ready, s.unacked, s.accepted, s.discarded, 0);
    case _ =>
  }

  lemma StepSlots(s: State, a: Action)
    requires SlotsOk(s) && Enabled(s, a) && (a.Spawn? ==> StartOk(s, s.consumer.m))
    ensures SlotsOk(Apply(s, a))
  {
  }

  lemma StepPlace(s: State, a: Action, m: Id)
    requires PlaceOk(s, m) && Enabled(s, a) && (m in s.ready ==> m in s.published && m !in s.unacked)
    ensures PlaceOk(Apply(s, a), m)
  {
  }

  lemma StepBody(s: State, a: Action, m: Id)
    requires PlaceOk(s, m) && BodyOk(s, m) && Enabled(s, a)
    ensures BodyOk(Apply(s, a), m)
  {
  }

  lemma StepSettled(s: State, a: Action, m: Id)
    requires PlaceOk(s, m) && BodyOk(s, m) && SettledOk(s, m) && Enabled(s, a)
    ensures SettledOk(Apply(s, a), m)
  {
  }

  lemma StepStart(s: State, a: Action, m: Id)
    requires PlaceOk(s, m) && SettledOk(s, m) && StartOk(s, m) && Enabled(s, a) && (m in s.ready ==> m !in s.unacked)
    ensures StartOk(Apply(s, a), m)
  {
  }

  lemma StepMessage(s: State, a: Action, m: Id)
    requires MessageOk(s, m) && Enabled(s, a) && (m in s.ready ==> m in s.published && m !in s.unacked)
    ensures MessageOk(Apply(s, a), m)
  {
    StepPlace(s, a, m);
    StepBody(s, a, m);
    StepSettled(s, a, m);
    StepStart(s, a, m);
  }

  /** What the client holds fits the prefetch window, before and after a loss. */
  lemma ClientFits(s: State)
    requires forall m :: PlaceOk(s, m)
    ensures s.open ==> InClient(s) <= s.unacked
    ensures !s.open ==> s.unacked == {}
  {
    forall m | m in InClient(s) && s.open ensures m in s.unacked {
      assert PlaceOk(s, m);
    }
    forall m | !s.open ensures m !in s.unacked {
      assert PlaceOk(s, m);
    }
  }

  lemma StepClient(s: State, a: Action)
    requires ClientOk(s) && Enabled(s, a)
    requires (forall m :: PlaceOk(Apply(s, a), m)) && |Apply(s, a).unacked| <= s.max
    ensures ClientOk(Apply(s, a))
  {
    var s' := Apply(s, a);
    ClientFits(s');
    if s'.open {
      SubsetSize(InClient(s'), s'.unacked);
    } else {
      assert InClient(s') <= InClient(s);
      SubsetSize(InClient(s'), InClient(s));
    }
  }

  lemma StepInv(s: State, a: Action)
    requires Inv(s) && Enabled(s, a)
    ensures Inv(Apply(s, a))
  {
    var s' := Apply(s, a);
    StepPartition(s, a);
    if a.Spawn? {
      assert MessageOk(s, s.consumer.m);
    }
    StepSlots(s, a);
    forall m ensures MessageOk(s', m) {
      assert MessageOk(s, m);
      StepMessage(s, a, m);
    }
    forall m ensures PlaceOk(s', m) {
      assert MessageOk(s', m);
    }
    StepClient(s, a);
  }

  lemma {:induction false} RunInv(s: State, acts: seq<Action>)
    requires Inv(s) && Legal(s, acts)
    ensures Inv(After(s, acts))
    decreases |acts|
  {
    if acts != [] {
      StepInv(s, acts[0]);
      RunInv(Apply(s, acts[0]), acts[1..]);
    }
  }
}
