/** Ideal timers: the constants of the loops, and what follows for heartbeats and the monitor. */
module Clock {
  import opened Common

  /** Times and durations are in nanoseconds, as in `time.Duration`. */
  const SECOND: int := 1_000_000_000

  const HEARTBEAT_TICK: int := 10 * SECOND
  const RECONNECT_SLEEP: int := 5 * SECOND
  const STALE_AFTER: int := 30 * SECOND
  const MONITOR_TICK: int := 30 * SECOND
  const KILL_GRACE: int := 10 * SECOND

  /** The zero time is long ago. */
  predicate Stale(seen: Option<int>, now: int) {
    seen.None? || now - seen.value >= STALE_AFTER
  }

  /** An execution is stale if it was never heard of, or not for 30 s. */
  lemma StaleIff(seen: Option<int>, now: int)
    ensures Stale(seen, now) <==> seen == None || now - seen.value >= 30_000_000_000
  {
  }

  // ---------- the heartbeat loop ----------

  /** `Dialing`: about to open a stream.  `Ticking`: waiting for the next tick of an open one. */
  datatype Phase = Dialing | Ticking

  /** When heartbeats go out, if the dials and sends end as `outcomes` says, in order. */
  function Sends(clock: int, phase: Phase, outcomes: seq<bool>): seq<int>
    decreases |outcomes|
  {
    if outcomes == [] then []
    else match phase
      case Dialing =>
        if outcomes[0] then Sends(clock, Ticking, outcomes[1..])
        else Sends(clock + RECONNECT_SLEEP, Dialing, outcomes[1..])
      case Ticking =>
        if outcomes[0] then [clock + HEARTBEAT_TICK] + Sends(clock + HEARTBEAT_TICK, Ticking, outcomes[1..])
        else Sends(clock + HEARTBEAT_TICK + RECONNECT_SLEEP, Dialing, outcomes[1..])
  }

  /** Failed sends, and failed dials, before the first successful send. */
  function FailedSends(phase: Phase, outcomes: seq<bool>): nat
    decreases |outcomes|
  {
    if outcomes == [] || (phase.Ticking? && outcomes[0]) then 0
    else if phase.Dialing? then FailedSends(if outcomes[0] then Ticking else Dialing, outcomes[1..])
    else 1 + FailedSends(Dialing, outcomes[1..])
  }

  function FailedDials(phase: Phase, outcomes: seq<bool>): nat
    decreases |outcomes|
  {
    if outcomes == [] || (phase.Ticking? && outcomes[0]) then 0
    else if phase.Ticking? then FailedDials(Dialing, outcomes[1..])
    else (if outcomes[0] then 0 else 1) + FailedDials(if outcomes[0] then Ticking else Dialing, outcomes[1..])
  }

  /** What is left of the outcomes after the i-th successful send. */
  function AfterSend(phase: Phase, outcomes: seq<bool>, i: nat): seq<bool>
    decreases |outcomes|
  {
    if outcomes == [] then []
    else if phase.Dialing? then AfterSend(if outcomes[0] then Ticking else Dialing, outcomes[1..], i)
    else if !outcomes[0] then AfterSend(Dialing, outcomes[1..], i)
    else if i == 0 then outcomes[1..]
    else AfterSend(Ticking, outcomes[1..], i - 1)
  }

  /** How often a success follows a success. */
  function Pairs(outcomes: seq<bool>): nat {
    if |outcomes| < 2 then 0 else (if outcomes[0] && outcomes[1] then 1 else 0) + Pairs(outcomes[1..])
  }

  /** A heartbeat goes out for each success that follows one: the dial, or the send before. */
  lemma {:induction false} SendsCount(clock: int, phase: Phase, outcomes: seq<bool>)
    ensures |Sends(clock, phase, outcomes)| == Pairs([phase.Ticking?] + outcomes)
    decreases |outcomes|
  {
    if outcomes != [] {
      var next := if outcomes[0] then Ticking else Dialing;
      assert ([phase.Ticking?] + outcomes)[1..] == [next.Ticking?] + outcomes[1..];
      SendsCount(if phase.Ticking? then clock + HEARTBEAT_TICK else clock, next, outcomes[1..]);
      SendsCount(clock + RECONNECT_SLEEP, next, outcomes[1..]);
      SendsCount(clock + HEARTBEAT_TICK + RECONNECT_SLEEP, next, outcomes[1..]);
    }
  }

  /** While nothing fails, heartbeats go out every 10 s from the start on. */
  lemma {:induction false} SteadySends(clock: int, n: nat, outcomes: seq<bool>)
    requires |outcomes| == n && forall i :: 0 <= i < n ==> outcomes[i]
    ensures |Sends(clock, Ticking, outcomes)| == n
    ensures forall i :: 0 <= i < n ==> Sends(clock, Ticking, outcomes)[i] == clock + 10_000_000_000 * (i + 1)
    decreases n
  {
    if n > 0 {
      SteadySends(clock + HEARTBEAT_TICK, n - 1, outcomes[1..]);
      assert Sends(clock, Ticking, outcomes) ==
             [clock + HEARTBEAT_TICK] + Sends(clock + HEARTBEAT_TICK, Ticking, outcomes[1..]);
    }
  }

  lemma SendsAt(clock: int, phase: Phase, outcomes: seq<bool>, i: nat)
    requires i < |outcomes|
    ensures var rest := outcomes[i + 1..];
            Sends(clock, phase, outcomes[i..]) ==
              match phase {
                case Dialing => if outcomes[i] then Sends(clock, Ticking, rest)
                    else Sends(clock + RECONNECT_SLEEP, Dialing, rest)
                case Ticking =>
                  if outcomes[i] then [clock + HEARTBEAT_TICK] + Sends(clock + HEARTBEAT_TICK, Ticking, rest)
                  else Sends(clock + HEARTBEAT_TICK + RECONNECT_SLEEP, Dialing, rest) }
  {
    assert outcomes[i..][1..] == outcomes[i + 1..];
  }

  /**
    `heartbeatLoop`: one stream, from its dial with outcome `i` to its end at `end`, for an execution
    that stays RUNNING.  A failed dial or send ends it.
   */
  method HeartbeatLoop(start: int, outcomes: seq<bool>, i: nat) returns (sends: seq<int>, end: int, next: nat)
    requires i < |outcomes|
    ensures i < next <= |outcomes|
    ensures Sends(start, Dialing, outcomes[i..]) == sends + Sends(end + RECONNECT_SLEEP, Dialing, outcomes[next..])
  {
    SendsAt(start, Dialing, outcomes, i);
    sends, end, next := [], start, i + 1;
    var connected := outcomes[i];
    while next < |outcomes| && connected
      invariant i < next <= |outcomes|
      invariant connected ==> Sends(start, Dialing, outcomes[i..]) == sends + Sends(end, Ticking, outcomes[next..])
      invariant !connected ==> Sends(start, Dialing, outcomes[i..]) ==
                                 sends + Sends(end + RECONNECT_SLEEP, Dialing, outcomes[next..])
      decreases |outcomes| - next
    {
      SendsAt(end, Ticking, outcomes, next);
      end := end + HEARTBEAT_TICK;
      connected := outcomes[next];
      next := next + 1;
      if connected {
        Shift(sends, end, Sends(end, Ticking, outcomes[next..]));
        sends := sends + [end];
      }
    }
  }

  /** `startHeartbeatLoop`: after each stream it sleeps and dials again. */
  method StartHeartbeatLoop(start: int, outcomes: seq<bool>) returns (sends: seq<int>)
    ensures sends == Sends(start, Dialing, outcomes)
  {
    sends := [];
    var clock, i := start, 0;
    assert outcomes[0..] == outcomes;
    while i < |outcomes|
      invariant 0 <= i <= |outcomes|
      invariant Sends(start, Dialing, outcomes) == sends + Sends(clock, Dialing, outcomes[i..])
      decreases |outcomes| - i
    {
      var more, end, next := HeartbeatLoop(clock, outcomes, i);
      Associate(sends, more, Sends(end + RECONNECT_SLEEP, Dialing, outcomes[next..]));
      sends, clock, i := sends + more, end + RECONNECT_SLEEP, next;
    }
  }

  lemma Associate(a: seq<int>, b: seq<int>, c: seq<int>)
    ensures a + (b + c) == (a + b) + c
  {
  }

  /** The first send after `s` failed sends and `r` failed dials, counted from an open stream's tick. */
  lemma {:induction false} FirstSend(clock: int, phase: Phase, outcomes: seq<bool>)
    requires Sends(clock, phase, outcomes) != []
    ensures Sends(clock, phase, outcomes)[0] ==
              clock + 10_000_000_000 + 15_000_000_000 * FailedSends(phase, outcomes)
              + 5_000_000_000 * FailedDials(phase, outcomes)
    decreases |outcomes|
  {
    if phase.Dialing? {
      FirstSend(if outcomes[0] then clock else clock + RECONNECT_SLEEP,
                if outcomes[0] then Ticking else Dialing, outcomes[1..]);
    } else if !outcomes[0] {
      FirstSend(clock + HEARTBEAT_TICK + RECONNECT_SLEEP, Dialing, outcomes[1..]);
    }
  }

  /**
    Any two successive sends are exactly 10 + 15 s + 5 r seconds apart, where s counts the failed
    sends and r the failed dials between them; a dial only fails after a send failed.
   */
  lemma {:induction false} SendGap(clock: int, phase: Phase, outcomes: seq<bool>, i: nat)
    requires i + 1 < |Sends(clock, phase, outcomes)|
    ensures var between := AfterSend(phase, outcomes, i);
            IsGap(Sends(clock, phase, outcomes)[i + 1] - Sends(clock, phase, outcomes)[i],
                  FailedSends(Ticking, between), FailedDials(Ticking, between))
    decreases |outcomes|
  {
    var rest := outcomes[1..];
    if phase.Dialing? {
      SendGap(if outcomes[0] then clock else clock + RECONNECT_SLEEP,
              if outcomes[0] then Ticking else Dialing, rest, i);
    } else if !outcomes[0] {
      SendGap(clock + HEARTBEAT_TICK + RECONNECT_SLEEP, Dialing, rest, i);
    } else if i > 0 {
      SendGap(clock + HEARTBEAT_TICK, Ticking, rest, i - 1);
    } else {
      FirstSend(clock + HEARTBEAT_TICK, Ticking, rest);
    }
  }

  predicate IsGap(gap: int, s: nat, r: nat) {
    gap == 10_000_000_000 + 15_000_000_000 * s + 5_000_000_000 * r && (r > 0 ==> s > 0)
  }

  /**
    Between two accepted heartbeats an execution looks stale at some moment exactly if they arrive
    at least 30 s apart.
   */
  lemma StaleBetween(first: int, second: int)
    requires first <= second
    ensures (exists now :: first <= now <= second && Stale(Some(first), now)) <==> second - first >= 30_000_000_000
  {
    if second - first >= 30_000_000_000 {
      assert Stale(Some(first), second);
    }
  }

  /**
    One reconnect never trips the threshold if delivery delays differ by less than 5 s; with equal
    delays the threshold is reached exactly from a second failed send, or a failed dial, on.
   */
  lemma ReconnectTolerance(first: int, gap: int, s: nat, r: nat, jitter: int)
    requires IsGap(gap, s, r) && 0 <= gap + jitter
    ensures s <= 1 && r == 0 && jitter < 5_000_000_000 ==>
              forall now :: first <= now <= first + gap + jitter ==> !Stale(Some(first), now)
    ensures jitter == 0 ==>
              ((exists now :: first <= now <= first + gap + jitter && Stale(Some(first), now)) <==> s >= 2 || r >= 1)
  {
    StaleBetween(first, first + gap + jitter);
  }

  // ---------- the monitor ----------

  /** The k-th tick of a monitor started at `start`. */
  function TickAt(start: int, k: nat): int {
    start + MONITOR_TICK * (k + 1)
  }

  /**
    An execution whose heartbeats stop at `h` is first reported in [h+30s, h+60s): no earlier tick
    since `h` reports it, and every later tick does.
   */
  lemma FirstReport(start: int, h: int) returns (k: nat)
    requires start <= h
    ensures h + 30_000_000_000 <= TickAt(start, k) < h + 60_000_000_000
    ensures forall j: nat :: TickAt(start, j) == start + 30_000_000_000 * (j + 1)
    ensures forall j: nat :: h <= TickAt(start, j) ==> (Stale(Some(h), TickAt(start, j)) <==> k <= j)
  {
    k := (h - start + STALE_AFTER - 1) / MONITOR_TICK;
    forall j: nat | h <= TickAt(start, j)
      ensures Stale(Some(h), TickAt(start, j)) <==> k <= j
    {
      if j < k {
        assert MONITOR_TICK * (j + 1) <= MONITOR_TICK * k;
      } else {
        assert MONITOR_TICK * (k + 1) <= MONITOR_TICK * (j + 1);
      }
    }
  }
}
