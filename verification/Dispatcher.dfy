/** The dispatcher's execution table as the server keeps it: a map of records updated in place. */
module Dispatcher {
  import opened Common
  import opened Heartbeats
  import opened Clock

  class RuntimeExecution {
    const executionID: Id
    const jobID: Id
    const attemptID: Id
    const podName: string
    var status: Status
    var pid: nat
    var lastHeartbeat: Option<int>

    constructor (executionID: Id, jobID: Id, attemptID: Id, podName: string)
      ensures this.executionID == executionID && this.jobID == jobID && this.attemptID == attemptID
      ensures this.podName == podName && status == Pending && pid == 0 && lastHeartbeat == None
    {
      this.executionID, this.jobID, this.attemptID, this.podName := executionID, jobID, attemptID, podName;
      status, pid, lastHeartbeat := Pending, 0, None;
    }

    function AsView(): View
      reads this
    {
      View(jobID, attemptID, status, pid, lastHeartbeat)
    }
  }

  /** What the heartbeat handler gets from `Recv`: a message with its time of arrival, or the end. */
  datatype Received = Message(hb: Heartbeat, now: int) | EndOfStream | Broken

  /** The messages before the stream ends, folded into the table in order. */
  function FoldAll(views: map<Id, View>, received: seq<Received>): map<Id, View> {
    if received == [] || !received[0].Message? then views
    else FoldAll(Fold(views, received[0].hb, received[0].now), received[1..])
  }

  lemma {:induction false} FoldAllSnoc(views: map<Id, View>, received: seq<Received>, m: Received)
    requires m.Message? && forall i :: 0 <= i < |received| ==> received[i].Message?
    ensures FoldAll(views, received + [m]) == Fold(FoldAll(views, received), m.hb, m.now)
    decreases |received|
  {
    if received == [] {
      assert [m][1..] == [];
      assert received + [m] == [m];
    } else {
      FoldAllSnoc(Fold(views, received[0].hb, received[0].now), received[1..], m);
      assert (received + [m])[1..] == received[1..] + [m];
    }
  }

  lemma {:induction false} FoldAllPrefix(views: map<Id, View>, received: seq<Received>, n: nat)
    requires n <= |received| && forall i :: 0 <= i < n ==> received[i].Message?
    requires n == |received| || !received[n].Message?
    ensures FoldAll(views, received[..n]) == FoldAll(views, received)
    decreases n
  {
    if n > 0 {
      assert received[..n][1..] == received[1..][..n - 1];
      FoldAllPrefix(Fold(views, received[0].hb, received[0].now), received[1..], n - 1);
    }
  }

  // ---------- what the handler leaves, told by the messages alone ----------

  /** The handler reads the i-th message: nothing before it, nor itself, ended the stream. */
  predicate Read(received: seq<Received>, i: nat) {
    i < |received| && forall j :: 0 <= j <= i ==> received[j].Message?
  }

  predicate About(received: seq<Received>, i: nat, e: Id) {
    Read(received, i) && received[i].hb.exec == e
  }

  /** The last message about `e` that the handler reads. */
  ghost predicate LastAbout(received: seq<Received>, i: nat, e: Id) {
    About(received, i, e) && forall j: nat :: i < j ==> !About(received, j, e)
  }

  /** `after` is `before` with what the message says, or `before` itself if there was none about it. */
  ghost predicate Recorded(before: View, after: View, received: seq<Received>, e: Id) {
    && after.job == before.job && after.attempt == before.attempt
    && (forall i: nat :: LastAbout(received, i, e) ==>
          after.status == received[i].hb.status && after.pid == received[i].hb.pid
              && after.seen == Some(received[i].now))
    && ((forall i: nat :: !About(received, i, e)) ==> after == before)
  }

  lemma {:induction false} FoldAllRecords(views: map<Id, View>, received: seq<Received>, e: Id)
    requires e in views
    ensures FoldAll(views, received).Keys == views.Keys
    ensures Recorded(views[e], FoldAll(views, received)[e], received, e)
    decreases |received|
  {
    if received != [] && received[0].Message? {
      var next := Fold(views, received[0].hb, received[0].now);
      var rest := received[1..];
      FoldAllRecords(next, rest, e);
      forall i: nat ensures About(received, i + 1, e) <==> About(rest, i, e) {
        assert i < |rest| ==> rest[i] == received[i + 1];
        if Read(rest, i) {
          forall j | 0 <= j <= i + 1 ensures received[j].Message? {
            if j > 0 { assert rest[j - 1] == received[j]; }
          }
        }
        if Read(received, i + 1) {
          forall j | 0 <= j <= i ensures rest[j].Message? {
            assert rest[j] == received[j + 1];
          }
        }
      }
      RecordedCons(views[e], next[e], FoldAll(next, rest)[e], received, e);
    }
  }

  /** One message first, then the rest. */
  lemma RecordedCons(before: View, next: View, after: View, received: seq<Received>, e: Id)
    requires received != [] && received[0].Message? && Recorded(next, after, received[1..], e)
    requires forall i: nat :: About(received, i + 1, e) <==> About(received[1..], i, e)
    requires if received[0].hb.exec == e
             then next == before.(status := received[0].hb.status, pid := received[0].hb.pid,
                 seen := Some(received[0].now))
             else next == before
    ensures Recorded(before, after, received, e)
  {
    var rest := received[1..];
    forall i: nat | LastAbout(received, i, e)
      ensures after.status == received[i].hb.status && after.pid == received[i].hb.pid
          && after.seen == Some(received[i].now)
    {
      if i > 0 {
        assert About(rest, i - 1, e) && rest[i - 1] == received[i];
        forall j: nat | i - 1 < j ensures !About(rest, j, e) {
          assert !About(received, j + 1, e);
        }
        assert LastAbout(rest, i - 1, e);
      } else {
        forall j: nat ensures !About(rest, j, e) {
          assert !About(received, j + 1, e);
        }
      }
    }
    if forall i: nat :: !About(received, i, e) {
      assert !About(received, 0, e);
      forall j: nat ensures !About(rest, j, e) {
        assert !About(received, j + 1, e);
      }
    }
  }

  class Server {
    var executions: map<Id, RuntimeExecution>

    /** Every record is filed under its own id, so no record is filed twice. */
    ghost predicate Valid()
      reads this, executions.Values
    {
      forall e :: e in executions ==> executions[e].executionID == e
    }

    ghost function Views(): map<Id, View>
      reads this, executions.Values
    {
      map e | e in executions :: executions[e].AsView()
    }

    constructor ()
      ensures Valid() && Views() == map[]
    {
      executions := map[];
    }

    /** The last step of `executeJob`. */
    method Register(executionID: Id, jobID: Id, attemptID: Id, podName: string)
      requires Valid()
      modifies this
      ensures Valid() && Views() == Registered(old(Views()), executionID, jobID, attemptID)
      ensures fresh(executions.Values - old(executions.Values))
      ensures executions.Keys == old(executions.Keys) + {executionID}
      ensures forall e :: e in old(executions) && e != executionID ==> executions[e] == old(executions[e])
      ensures var x := executions[executionID];
              x.jobID == jobID && x.attemptID == attemptID && x.podName == podName
              && x.status == Pending && x.pid == 0 && x.lastHeartbeat == None
    {
      var execution := new RuntimeExecution(executionID, jobID, attemptID, podName);
      ghost var before := Views();
      ghost var known := executions.Values;
      executions := executions[executionID := execution];
      assert forall e :: e in executions && e != executionID ==> executions[e] in known;
      assert Views() == Registered(before, executionID, jobID, attemptID);
    }

    /** One message of the stream: dropped when unknown, else written over the record. */
    method Receive(hb: Heartbeat, now: int)
      requires Valid()
      modifies executions.Values
      ensures Valid() && executions == old(executions)
      ensures Views() == Fold(old(Views()), hb, now)
      ensures hb.exec in executions ==>
                var x := executions[hb.exec];
                x.status == hb.status && x.pid == hb.pid && x.lastHeartbeat == Some(now)
      ensures forall e :: e in executions && e != hb.exec ==> executions[e].AsView() == old(executions[e].AsView())
    {
      if hb.exec in executions {
        var exec := executions[hb.exec];
        exec.status := hb.status;
        exec.pid := hb.pid;
        exec.lastHeartbeat := Some(now);
        assert forall e :: e in executions && e != hb.exec ==> executions[e] != exec;
      }
      assert Views() == Fold(old(Views()), hb, now);
    }

    /**
      The stream handler: reads until end of stream (nil error) or a broken stream.  Each record then has
      status, PID and arrival time of the last message about it, and is as before if there was none.
     */
    method Heartbeat(received: seq<Received>) returns (clean: bool)
      requires Valid()
      modifies executions.Values
      ensures Valid() && executions == old(executions)
      ensures Views() == FoldAll(old(Views()), received)
      ensures forall e :: e in executions ==>
                Recorded(old(executions[e].AsView()), executions[e].AsView(), received, e)
      ensures clean <==> exists i :: 0 <= i < |received| && received[i].EndOfStream?
                                     && forall j :: 0 <= j < i ==> received[j].Message?
    {
      clean := false;
      var n := 0;
      assert received[..0] == [];
      while n < |received| && received[n].Message?
        invariant 0 <= n <= |received| && forall i :: 0 <= i < n ==> received[i].Message?
        invariant Valid() && executions == old(executions)
        invariant Views() == FoldAll(old(Views()), received[..n])
      {
        FoldAllSnoc(old(Views()), received[..n], received[n]);
        assert received[..n + 1] == received[..n] + [received[n]];
        Receive(received[n].hb, received[n].now);
        n := n + 1;
      }
      FoldAllPrefix(old(Views()), received, n);
      forall e | e in executions ensures Recorded(old(executions[e].AsView()), executions[e].AsView(), received, e) {
        FoldAllRecords(old(Views()), received, e);
        assert Views()[e] == executions[e].AsView();
      }
      if n < |received| {
        clean := received[n].EndOfStream?;
      }
    }

    /**
      One pass of the monitor.  It copies the list of records under the lock, in some order, and walks
      it without: before the k-th read the messages `between(k)` come in, and `clock(k)` is its time.
      It reports what `Reports` says for the order.
     */
    method CheckExecutions(between: nat -> seq<Received>, clock: nat -> int) returns (stale: seq<Id>, order: seq<Id>)
      requires Valid()
      modifies executions.Values
      ensures Valid() && executions == old(executions)
      ensures Distinct(order) && forall e :: e in order <==> e in executions
      ensures stale == Reports(old(Views()), order, between, clock, 0)
    {
      var list: seq<RuntimeExecution>;
      list, order := Copy();
      ghost var views := Views();
      stale := [];
      var i := 0;
      while i < |list|
        invariant 0 <= i <= |list| && Valid() && executions == old(executions) && views == Views()
        invariant Reports(old(Views()), order, between, clock, 0) == stale + Reports(views, order, between, clock, i)
      {
        ReportsStep(views, order, between, clock, i);
        var late := ReadLater(list[i], order[i], between(i), clock(i));
        views := FoldAll(views, between(i));
        i := i + 1;
        if late {
          Shift(stale, order[i - 1], Reports(views, order, between, clock, i));
          stale := stale + [list[i - 1].executionID];
        }
      }
    }

    /** One read, after the messages that came in before it. */
    method ReadLater(record: RuntimeExecution, ghost e: Id, received: seq<Received>, now: int) returns (late: bool)
      requires Valid() && e in executions && executions[e] == record
      modifies executions.Values
      ensures Valid() && executions == old(executions) && Views() == FoldAll(old(Views()), received)
      ensures late <==> e in Views() && Stale(Views()[e].seen, now)
    {
      var _ := Heartbeat(received);
      late := Stale(record.lastHeartbeat, now);
      assert Views()[e] == record.AsView();
    }

    /** The records of the map, once each. */
    method Copy() returns (list: seq<RuntimeExecution>, order: seq<Id>)
      requires Valid()
      ensures Distinct(order) && forall e :: e in order <==> e in executions
      ensures |list| == |order| && forall i :: 0 <= i < |list| ==> list[i] == executions[order[i]]
    {
      list, order := [], [];
      var todo := executions.Keys;
      while todo != {}
        invariant todo <= executions.Keys
        invariant forall e :: e in order <==> e in executions.Keys - todo
        invariant |list| == |order| && Distinct(order)
        invariant forall i :: 0 <= i < |list| ==> order[i] in executions && list[i] == executions[order[i]]
        decreases |todo|
      {
        var e :| e in todo;
        assert e !in order;
        assert forall i :: 0 <= i < |order| ==> order[i] in order;
        list, order := list + [executions[e]], order + [e];
        todo := todo - {e};
      }
    }
  }

  predicate Distinct(order: seq<Id>) {
    forall i, j :: 0 <= i < j < |order| ==> order[i] != order[j]
  }

  /** The executions that a pass reports from its k-th read on; the k-th message batch comes before that read. */
  function Reports(views: map<Id, View>, order: seq<Id>, between: nat -> seq<Received>, clock: nat -> int,
      k: nat): seq<Id>
    decreases |order| - k
  {
    if k >= |order| then []
    else
      var now := FoldAll(views, between(k));
      (if order[k] in now && Stale(now[order[k]].seen, clock(k)) then [order[k]] else [])
      + Reports(now, order, between, clock, k + 1)
  }

  lemma ReportsStep(views: map<Id, View>, order: seq<Id>, between: nat -> seq<Received>, clock: nat -> int, k: nat)
    requires k < |order|
    ensures var now := FoldAll(views, between(k));
            var rest := Reports(now, order, between, clock, k + 1);
            Reports(views, order, between, clock, k) ==
              if order[k] in now && Stale(now[order[k]].seen, clock(k)) then [order[k]] + rest else rest
  {
    var rest := Reports(FoldAll(views, between(k)), order, between, clock, k + 1);
    assert [] + rest == rest;
  }

  /** The table at the k-th read. */
  function ViewsAt(views: map<Id, View>, between: nat -> seq<Received>, k: nat): map<Id, View> {
    FoldAll(if k == 0 then views else ViewsAt(views, between, k - 1), between(k))
  }

  predicate From(order: seq<Id>, k: nat, e: Id) {
    exists i :: k <= i < |order| && order[i] == e
  }

  /** What is reported from the k-th read on is read from there on, and reported once. */
  lemma {:induction false} ReportsOnce(views: map<Id, View>, order: seq<Id>, between: nat -> seq<Received>,
                                       clock: nat -> int, k: nat)
    requires Distinct(order) && k <= |order|
    ensures var r := Reports(views, order, between, clock, k); Distinct(r) && forall e :: e in r ==> From(order, k, e)
    decreases |order| - k
  {
    if k < |order| {
      var now := FoldAll(views, between(k));
      ReportsOnce(now, order, between, clock, k + 1);
      ReportsStep(views, order, between, clock, k);
      DistinctCons(order[k], Reports(now, order, between, clock, k + 1));
    }
  }

  /** An execution is reported exactly if it is stale at its own read. */
  lemma {:induction false} ReportedIff(views: map<Id, View>, order: seq<Id>, between: nat -> seq<Received>,
                                       clock: nat -> int, k: nat, i: nat, first: map<Id, View>)
    requires Distinct(order) && k <= i < |order| && FoldAll(views, between(k)) == ViewsAt(first, between, k)
    ensures order[i] in Reports(views, order, between, clock, k) <==> StaleAt(first, between, clock, i, order[i])
    decreases i - k
  {
    var now := FoldAll(views, between(k));
    ReportsStep(views, order, between, clock, k);
    if i == k {
      ReportsOnce(now, order, between, clock, k + 1);
    } else {
      ReportedIff(now, order, between, clock, k + 1, i, first);
    }
  }

  /** A whole pass: each execution at most once, and exactly those that are stale at their own read. */
  lemma ReportsExactly(views: map<Id, View>, order: seq<Id>, between: nat -> seq<Received>, clock: nat -> int)
    requires Distinct(order)
    ensures var r := Reports(views, order, between, clock, 0);
            && Distinct(r) && (forall e :: e in r ==> From(order, 0, e))
            && forall i :: 0 <= i < |order| ==> (order[i] in r <==> StaleAt(views, between, clock, i, order[i]))
  {
    ReportsOnce(views, order, between, clock, 0);
    forall i | 0 <= i < |order|
      ensures order[i] in Reports(views, order, between, clock, 0) <==> StaleAt(views, between, clock, i, order[i])
    {
      ReportedIff(views, order, between, clock, 0, i, views);
    }
  }

  lemma DistinctCons(e: Id, rest: seq<Id>)
    requires Distinct(rest) && e !in rest
    ensures Distinct([e] + rest)
  {
  }

  predicate StaleAt(views: map<Id, View>, between: nat -> seq<Received>, clock: nat -> int, i: nat, e: Id) {
    var now := ViewsAt(views, between, i);
    e in now && Stale(now[e].seen, clock(i))
  }

  lemma {:induction false} QuietViews(views: map<Id, View>, between: nat -> seq<Received>, k: nat)
    requires forall i: nat :: between(i) == []
    ensures ViewsAt(views, between, k) == views
  {
    if k > 0 { QuietViews(views, between, k - 1); }
  }

  /** With no heartbeat coming in, a pass reports exactly what is stale at its own read. */
  lemma QuietPass(views: map<Id, View>, order: seq<Id>, between: nat -> seq<Received>, clock: nat -> int, i: nat)
    requires Distinct(order) && i < |order| && forall k: nat :: between(k) == []
    ensures order[i] in Reports(views, order, between, clock, 0) <==>
            order[i] in views && Stale(views[order[i]].seen, clock(i))
  {
    ReportsExactly(views, order, between, clock);
    QuietViews(views, between, i);
  }

  /** Nothing about `e` is read between the i-th and the j-th message. */
  ghost predicate NextAbout(received: seq<Received>, i: nat, j: nat, e: Id) {
    i < j && About(received, i, e) && About(received, j, e) && forall k: nat :: i < k < j ==> !About(received, k, e)
  }

  /**
    An execution whose heartbeats come in less than 30 s apart is stale at no read between its first and
    30 s after its last: `n` messages have come in by the time `now` of the read.
   */
  lemma SteadyNeverStale(views: map<Id, View>, received: seq<Received>, n: nat, now: int, e: Id, i: nat)
    requires e in views && n <= |received| && LastAbout(received[..n], i, e)
    requires forall j: nat :: NextAbout(received, i, j, e) ==>
               now < received[j].now && received[j].now - received[i].now < 30_000_000_000
    requires (forall j: nat :: i < j ==> !About(received, j, e)) ==> now - received[i].now < 30_000_000_000
    ensures e in FoldAll(views, received[..n]) && !Stale(FoldAll(views, received[..n])[e].seen, now)
  {
    FoldAllRecords(views, received[..n], e);
    assert received[..n][i] == received[i];
    if exists j: nat :: i < j && About(received, j, e) {
      var j := FirstAfter(received, i, e);
      forall k | 0 <= k <= i ensures received[k].Message? {
        assert received[..n][k] == received[k];
      }
      assert About(received, i, e);
    }
  }

  lemma FirstAfter(received: seq<Received>, i: nat, e: Id) returns (j: nat)
    requires exists j: nat :: i < j && About(received, j, e)
    ensures i < j && About(received, j, e) && forall k: nat :: i < k < j ==> !About(received, k, e)
  {
    var last: nat :| i < last && About(received, last, e);
    j := i + 1;
    while !About(received, j, e)
      invariant i < j <= last && forall k: nat :: i < k < j ==> !About(received, k, e)
      decreases last - j
    {
      j := j + 1;
    }
  }

  /** An execution that was never heard of is reported by the first undisturbed pass, whenever that is. */
  lemma NeverHeardIsReported(views: map<Id, View>, order: seq<Id>, between: nat -> seq<Received>, clock: nat -> int,
      i: nat)
    requires Distinct(order) && i < |order| && forall k: nat :: between(k) == []
    requires order[i] in views && views[order[i]].seen == None
    ensures order[i] in Reports(views, order, between, clock, 0)
  {
    QuietPass(views, order, between, clock, i);
  }
}
