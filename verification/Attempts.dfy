/**
  `executeJob` as a goroutine that performs one external call per step, and the attempt rows it
  writes.  Every call may fail; a failing database write may or may not have taken effect.
 */
module Attempts {
  import opened Common
  import opened Heartbeats

  datatype AttemptStatus = AttemptRunning | AttemptFailed

  datatype Row = Row(job: Id, status: AttemptStatus)

  /** How an `executeJob` returned. */
  datatype End =
    | NoAttempt
    | CreateError(attempt: Id)
    | DialError(attempt: Id)
    | MarkedFailed(attempt: Id)
    | MarkError(attempt: Id)
    | Done(attempt: Id, exec: Id)

  /** The next external call or shared access of an `executeJob`. */
  datatype Pc =
    | Load
    | Create(attempt: Id)
    | Scale(attempt: Id)
    | Select(attempt: Id)
    | Dial(attempt: Id)
    | Await(attempt: Id)
    | Register(attempt: Id, exec: Id)
    | Fail(attempt: Id)
    | Returned(end: End)
  {
    function Attempt(): Option<Id> {
      match this
      case Load => None
      case Returned(NoAttempt) => None
      case Returned(end) => Some(end.attempt)
      case _ => Some(this.attempt)
    }

    /** Still inside `executeJob`, so it holds its semaphore slot. */
    predicate Live() {
      !Returned?
    }
  }

  datatype Thread = Thread(job: Id, pc: Pc)

  /** `owner` maps an attempt id to the goroutine that drew it from the id supply. */
  datatype Ledger = Ledger(jobs: set<Id>, rows: map<Id, Row>, owner: map<Id, Id>, threads: map<Id, Thread>)

  datatype ThreadAction =
    | LoadOk(drawn: Id) | LoadErr
    | CreateOk | CreateErr(stored: bool)
    | ScaleOk | ScaleErr
    | SelectOk | SelectErr
    | DialOk(rt: Id) | DialErr
    | CallOk(exec: Id) | CallErr
    | RegisterOk
    | FailOk | FailErr(stored: bool)

  predicate PcEnabled(pc: Pc, a: ThreadAction) {
    match a
    case LoadOk(_) => pc.Load?
    case LoadErr => pc.Load?
    case CreateOk => pc.Create?
    case CreateErr(_) => pc.Create?
    case ScaleOk => pc.Scale?
    case ScaleErr => pc.Scale?
    case SelectOk => pc.Select?
    case SelectErr => pc.Select?
    case DialOk(_) => pc.Dial?
    case DialErr => pc.Dial?
    case CallOk(_) => pc.Await?
    case CallErr => pc.Await?
    case RegisterOk => pc.Register?
    case FailOk => pc.Fail?
    case FailErr(_) => pc.Fail?
  }

  function PcNext(pc: Pc, a: ThreadAction): Pc
    requires PcEnabled(pc, a)
  {
    match a
    case LoadOk(id) => Create(id)
    case LoadErr => Returned(NoAttempt)
    case CreateOk => Scale(pc.attempt)
    case CreateErr(_) => Returned(CreateError(pc.attempt))
    case ScaleOk => Select(pc.attempt)
    case ScaleErr => Fail(pc.attempt)
    case SelectOk => Dial(pc.attempt)
    case SelectErr => Fail(pc.attempt)
    case DialOk(_) => Await(pc.attempt)
    case DialErr => Returned(DialError(pc.attempt))
    case CallOk(e) => Register(pc.attempt, e)
    case CallErr => Fail(pc.attempt)
    case RegisterOk => Returned(Done(pc.attempt, pc.exec))
    case FailOk => Returned(MarkedFailed(pc.attempt))
    case FailErr(_) => Returned(MarkError(pc.attempt))
  }

  datatype Effect = Nothing | Insert | Fails

  /** What the step does to the row of the goroutine's attempt. */
  function RowEffect(a: ThreadAction): Effect {
    match a
    case CreateOk => Insert
    case CreateErr(true) => Insert
    case FailOk => Fails
    case FailErr(true) => Fails
    case _ => Nothing
  }

  /** INSERT a running row, or UPDATE the status where the row exists. */
  function RowsNext(rows: map<Id, Row>, id: Id, job: Id, e: Effect): map<Id, Row> {
    match e
    case Nothing => rows
    case Insert => rows[id := Row(job, AttemptRunning)]
    case Fails => if id in rows then rows[id := rows[id].(status := AttemptFailed)] else rows
  }

  predicate ThreadEnabled(l: Ledger, t: Id, a: ThreadAction) {
    && t in l.threads
    && PcEnabled(l.threads[t].pc, a)
    && (a.LoadOk? ==> l.threads[t].job in l.jobs && a.drawn !in l.owner)
  }

  function ThreadNext(l: Ledger, t: Id, a: ThreadAction): Ledger
    requires ThreadEnabled(l, t, a)
  {
    var th := l.threads[t];
    var pc := PcNext(th.pc, a);
    Ledger(
      l.jobs,
      if pc.Attempt().Some? then RowsNext(l.rows, pc.Attempt().value, th.job, RowEffect(a)) else l.rows,
      if a.LoadOk? then l.owner[a.drawn := t] else l.owner,
      l.threads[t := th.(pc := pc)])
  }

  // ---------- what every step keeps ----------

  /** Which states of the attempt row fit a goroutine that stands at `pc`; None is "no row". */
  predicate RowFits(pc: Pc, row: Option<AttemptStatus>) {
    match pc
    case Load => false
    case Create(_) => row == None
    case Returned(NoAttempt) => false
    case Returned(CreateError(_)) => row == None || row == Some(AttemptRunning)
    case Returned(MarkedFailed(_)) => row == Some(AttemptFailed)
    case Returned(MarkError(_)) => row.Some?
    case _ => row == Some(AttemptRunning)
  }

  function RowStatus(rows: map<Id, Row>, a: Id): Option<AttemptStatus> {
    if a in rows then Some(rows[a].status) else None
  }

  ghost predicate LedgerOk(l: Ledger) {
    && (forall t :: t in l.threads ==> ThreadOk(l, t))
    && (forall a :: a in l.owner ==> OwnerOk(l, a))
    && (forall a :: a in l.rows ==> a in l.owner)
  }

  /** The goroutine owns its attempt id, and its job row was stored before. */
  predicate ThreadOk(l: Ledger, t: Id)
    requires t in l.threads
  {
    var id := l.threads[t].pc.Attempt();
    id.Some? ==> id.value in l.owner && l.owner[id.value] == t && l.threads[t].job in l.jobs
  }

  predicate OwnerOk(l: Ledger, a: Id)
    requires a in l.owner
  {
    var t := l.owner[a];
    && t in l.threads && l.threads[t].pc.Attempt() == Some(a)
    && RowFits(l.threads[t].pc, RowStatus(l.rows, a))
    && (a in l.rows ==> l.rows[a].job == l.threads[t].job)
  }

  /** One goroutine's move, seen without the ledger around it. */
  lemma PcStep(pc: Pc, a: ThreadAction, row: Option<AttemptStatus>)
    requires PcEnabled(pc, a)
    requires if a.LoadOk? then row.None? else pc.Attempt().Some? ==> RowFits(pc, row)
    ensures var pc' := PcNext(pc, a);
            && (pc'.Attempt() == if a.LoadOk? then Some(a.drawn) else pc.Attempt())
            && (pc'.Attempt().Some? ==> RowFits(pc',
                match RowEffect(a) {
                  case Nothing => row
                  case Insert => Some(AttemptRunning)
                  case Fails => Some(AttemptFailed) }))
            && (RowEffect(a).Fails? ==> row.Some?)
  {
  }

  /**
    The order of the calls: each is made only after the one before it went well, and a row is only marked
    failed because the worker, the pod or the Run call failed.
   */
  lemma OnlyAfter(pc: Pc, a: ThreadAction)
    requires PcEnabled(pc, a)
    ensures var next := PcNext(pc, a);
            && (next.Create? ==> pc.Load? && a.LoadOk?)
            && (next.Scale? ==> pc.Create? && a.CreateOk?)
            && (next.Select? ==> pc.Scale? && a.ScaleOk?)
            && (next.Dial? ==> pc.Select? && a.SelectOk?)
            && (next.Await? ==> pc.Dial? && a.DialOk?)
            && (next.Register? ==> pc.Await? && a.CallOk?)
            && (next.Fail? <==> a.ScaleErr? || a.SelectErr? || a.CallErr?)
            && (next.Returned? && next.end.Done? ==> pc.Register?)
            && !next.Load?
  {
  }

  lemma ThreadStep(l: Ledger, t: Id, a: ThreadAction)
    requires LedgerOk(l) && ThreadEnabled(l, t, a)
    ensures LedgerOk(ThreadNext(l, t, a))
  {
    var pc := l.threads[t].pc;
    var l' := ThreadNext(l, t, a);
    assert ThreadOk(l, t);
    if pc.Attempt().Some? {
      assert OwnerOk(l, pc.Attempt().value);
      PcStep(pc, a, RowStatus(l.rows, pc.Attempt().value));
    } else {
      PcStep(pc, a, None);
    }
    forall b | b in l'.owner ensures OwnerOk(l', b) {
      if b in l.owner { assert OwnerOk(l, b); }
    }
    forall u | u in l'.threads ensures ThreadOk(l', u) {
      assert ThreadOk(l, u);
    }
  }
}
