/**
  What runtime and dispatcher say to each other about an execution, and what one heartbeat or
  one registration does to the dispatcher's table.  The class `Dispatcher` carries these out in
  place; the protocol of module `Protocol` interleaves them.
 */
module Heartbeats {
  import opened Common

  type Id = nat

  /** The execution states the code stores, in the numbering order of the protocol buffer enum. */
  datatype Status = Pending | Running | Succeeded | Failed {
    predicate Terminal() {
      Succeeded? || Failed?
    }

    /** PENDING < RUNNING < terminal. */
    function Rank(): nat {
      match this
      case Pending => 1
      case Running => 2
      case Succeeded => 3
      case Failed => 3
    }
  }

  /** `x` is `y` or strictly behind it; two different terminal states are incomparable. */
  predicate AtMost(x: Status, y: Status) {
    x == y || x.Rank() < y.Rank()
  }

  datatype Heartbeat = Heartbeat(exec: Id, job: Id, attempt: Id, status: Status, pid: nat)

  /** The dispatcher's record of an execution; `seen` is LastHeartbeat, None for the zero time. */
  datatype View = View(job: Id, attempt: Id, status: Status, pid: nat, seen: Option<int>)

  /** A heartbeat for an unregistered execution is dropped, any other one overwrites three fields. */
  function Fold(views: map<Id, View>, hb: Heartbeat, now: int): map<Id, View> {
    if hb.exec !in views then views
    else views[hb.exec := views[hb.exec].(status := hb.status, pid := hb.pid, seen := Some(now))]
  }

  /** The row `executeJob` inserts once the runtime has answered. */
  function Registered(views: map<Id, View>, exec: Id, job: Id, attempt: Id): map<Id, View> {
    views[exec := View(job, attempt, Pending, 0, None)]
  }
}
