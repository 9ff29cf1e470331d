/**
  Any number of concurrent `ScaleWorker` calls, each performing one API call per step, among
  deletions and edits by anyone else.  Every write to a deployment is logged.
 */
module Scaling {
  import opened Common
  import opened Kubernetes

  type Id = nat

  /** One call: the worker row's key, generated name, namespace and limit, and the arguments. */
  datatype Request = Request(
    row: Key, made: Key, nsDNS: string, quota: Quota, range: Range, max: int, replicas: int, wake: bool)

  datatype Outcome = Skipped | Scaled | Failed

  /** `Fetch(true)` is the second read, after recovery. */
  datatype Pc =
    | Fetch(recovered: bool)
    | NamespacePc | QuotaPc | LimitsPc | DeploymentPc
    | Update(read: Deployment)
    | Wait
    | Done(o: Outcome)

  datatype Caller = Caller(req: Request, pc: Pc)

  /** Who wrote what: `before` is None for a creation, and for a scaler what it had read. */
  datatype Entry =
    | Created(k: Key)
    | Committed(k: Key, caller: Id, before: int, after: int)
    | Edited(k: Key, before: int, after: int)
    | Deleted(k: Key)
    | Emptied(dns: string)

  datatype State = State(c: Cluster, callers: map<Id, Caller>, log: seq<Entry>)

  function Init(): State {
    State(Cluster({}, map[], map[], map[], 0), map[], [])
  }

  /** How the API server answers a call that is not lost on the way. */
  datatype Action =
    | Call(id: Id, req: Request)
    | Step(id: Id)
    | Fault(id: Id, effect: bool)    // the call errors; its effect may have happened
    | Edit(k: Key, replicas: int)    // somebody else writes the replica count
    | Touch(k: Key)                  // status or metadata: a new version, the same count
    | RemoveDeployment(k: Key)
    | RemoveNamespace(dns: string)

  predicate Enabled(s: State, a: Action) {
    match a
    case Call(id, _) => id !in s.callers
    case Step(id) => id in s.callers && !s.callers[id].pc.Done?
    case Fault(id, _) => id in s.callers && !s.callers[id].pc.Done?
    case Edit(k, n) => k in s.c.deployments && n >= 0
    case Touch(k) => k in s.c.deployments
    case RemoveDeployment(k) => k in s.c.deployments
    case RemoveNamespace(dns) => dns in s.c.namespaces
  }

  /** What a caller decides from the count it has read. */
  function Decide(req: Request, read: Deployment): Pc {
    if req.wake && read.replicas != 0 then Done(Skipped)
    else if read.replicas == req.replicas then Done(Skipped)
    else Update(read)
  }

  /** The reply of the API call a caller stands before, with its effect on the cluster. */
  function Answer(c: Cluster, req: Request, pc: Pc): (Reply, Cluster) {
    match pc
    case Fetch(_) => Api(c, GetScale(req.row))
    case NamespacePc => Api(c, MakeNamespace(req.nsDNS))
    case QuotaPc => Api(c, MakeQuota(req.nsDNS, req.quota))
    case LimitsPc => Api(c, MakeLimits(req.nsDNS, req.range))
    case DeploymentPc => Api(c, MakeDeployment(req.made))
    case Update(read) => Api(c, SetScale(req.row, read, req.replicas))
    case Wait => (Ok, c)
    case Done(_) => (Ok, c)
  }

  /** Where the reply takes the caller; recovery ignores "already exists". */
  function PcNext(c: Cluster, req: Request, pc: Pc, r: Reply): Pc {
    var fine := r.Ok? || r.AlreadyExists?;
    match pc
    case Fetch(recovered) =>
      if r.Ok? && req.row in c.deployments then Decide(req, c.deployments[req.row])
      else if r.NotFound? && !recovered then NamespacePc
      else Done(Failed)
    case NamespacePc => if fine then QuotaPc else Done(Failed)
    case QuotaPc => if fine then LimitsPc else Done(Failed)
    case LimitsPc => if fine then DeploymentPc else Done(Failed)
    case DeploymentPc => if fine then Fetch(true) else Done(Failed)
    case Update(read) =>
      if !r.Ok? then Done(Failed)
      else if read.replicas == 0 && req.replicas > 0 then Wait
      else Done(Scaled)
    case Wait => Done(Scaled)
    case Done(o) => Done(o)
  }

  /** The log entry of a write, if the call writes a deployment. */
  function LogOf(req: Request, id: Id, pc: Pc, r: Reply): seq<Entry> {
    if !r.Ok? then []
    else if pc.DeploymentPc? then [Created(req.made)]
    else if pc.Update? then [Committed(req.row, id, pc.read.replicas, req.replicas)]
    else []
  }

  /** The limit is checked before anything else, with both sides as 32-bit integers. */
  function FirstPc(req: Request): Pc {
    if req.replicas > ToInt32(req.max) then Done(Failed) else Fetch(false)
  }

  function Apply(s: State, a: Action): State
    requires Enabled(s, a)
  {
    match a
    case Call(id, req) => s.(callers := s.callers[id := Caller(req, FirstPc(req))])
    case Step(id) => ApplyStep(s, id)
    case Fault(id, effect) => ApplyFault(s, id, effect)
    case Edit(k, n) =>
      State(Write(s.c, k, n), s.callers, s.log + [Edited(k, s.c.deployments[k].replicas, n)])
    case Touch(k) =>
      s.(c := Write(s.c, k, s.c.deployments[k].replicas))
    case RemoveDeployment(k) => State(DeleteDeployment(s.c, k), s.callers, s.log + [Deleted(k)])
    case RemoveNamespace(dns) => State(DeleteNamespace(s.c, dns), s.callers, s.log + [Emptied(dns)])
  }

  function ApplyStep(s: State, id: Id): State
    requires id in s.callers
  {
    var Caller(req, pc) := s.callers[id];
    var (r, c) := Answer(s.c, req, pc);
    State(c, s.callers[id := Caller(req, PcNext(s.c, req, pc, r))], s.log + LogOf(req, id, pc, r))
  }

  function ApplyFault(s: State, id: Id, effect: bool): State
    requires id in s.callers
  {
    var Caller(req, pc) := s.callers[id];
    var (r, c) := Answer(s.c, req, pc);
    State(if effect then c else s.c, s.callers[id := Caller(req, Done(Failed))],
          s.log + (if effect then LogOf(req, id, pc, r) else []))
  }

  predicate Legal(s: State, acts: seq<Action>)
    decreases |acts|
  {
    acts == [] || (Enabled(s, acts[0]) && Legal(Apply(s, acts[0]), acts[1..]))
  }

  function After(s: State, acts: seq<Action>): State
    requires Legal(s, acts)
    decreases |acts|
  {
    if acts == [] then s else After(Apply(s, acts[0]), acts[1..])
  }

  // ---------- the log, replayed ----------

  function Effect(e: Entry, k: Key, before: Option<int>): Option<int> {
    match e
    case Created(k') => if k' == k then Some(0) else before
    case Committed(k', _, _, after) => if k' == k then Some(after) else before
    case Edited(k', _, after) => if k' == k then Some(after) else before
    case Deleted(k') => if k' == k then None else before
    case Emptied(dns) => if k.dns == dns then None else before
  }

  /** The replica count of `k` that the writes of the log add up to; None if it does not exist. */
  function Replay(log: seq<Entry>, k: Key): Option<int> {
    if log == [] then None else Effect(log[|log| - 1], k, Replay(log[..|log| - 1], k))
  }

  lemma ReplaySnoc(log: seq<Entry>, e: Entry, k: Key)
    ensures Replay(log + [e], k) == Effect(e, k, Replay(log, k))
  {
    assert (log + [e])[..|log|] == log;
  }

  function Count(c: Cluster, k: Key): Option<int> {
    if k in c.deployments then Some(c.deployments[k].replicas) else None
  }

  function AtomicScale(req: Request, current: int): Option<int> {
    ScaleTarget(req.max, req.replicas, req.wake, current)
  }

  // ---------- what every step keeps ----------

  /** A read object either is still the stored one or has an outdated version. */
  predicate ReadOk(c: Cluster, k: Key, read: Deployment) {
    && read.version <= c.clock
    && (k in c.deployments && c.deployments[k].version == read.version ==> c.deployments[k] == read)
  }

  predicate CallerOk(c: Cluster, w: Caller) {
    match w.pc
    case Done(_) => true
    case Update(read) =>
      ReadOk(c, w.req.row, read) && AtomicScale(w.req, read.replicas) == Some(w.req.replicas)
    case _ => w.req.replicas <= ToInt32(w.req.max)
  }

  predicate EntryOk(callers: map<Id, Caller>, log: seq<Entry>, i: int)
    requires 0 <= i < |log|
  {
    && (log[i].Created? ==> Replay(log[..i], log[i].k) == None)
    && (log[i].Committed? ==>
          && log[i].caller in callers && log[i].after >= 0
          && var req := callers[log[i].caller].req;
             && log[i].k == req.row
             && Replay(log[..i], log[i].k) == Some(log[i].before)
             && AtomicScale(req, log[i].before) == Some(log[i].after))
  }

  ghost predicate Inv(s: State) {
    && ClusterOk(s.c)
    && (forall id :: id in s.callers ==> CallerOk(s.c, s.callers[id]))
    && (forall k :: Replay(s.log, k) == Count(s.c, k))
    && (forall i :: 0 <= i < |s.log| ==> EntryOk(s.callers, s.log, i))
  }

  /** Versions only grow, and an object with an old version is the old object. */
  ghost predicate Evolves(c: Cluster, c': Cluster) {
    && c.clock <= c'.clock
    && (forall k :: k in c'.deployments && c'.deployments[k].version <= c.clock ==>
          k in c.deployments && c'.deployments[k] == c.deployments[k])
  }

  lemma CallerEvolves(c: Cluster, c': Cluster, w: Caller)
    requires CallerOk(c, w) && Evolves(c, c')
    ensures CallerOk(c', w)
  {
  }

  /** Appending to the log and moving callers, with requests unchanged, keeps the old entries. */
  lemma EntriesKept(callers: map<Id, Caller>, callers': map<Id, Caller>, log: seq<Entry>, e: Entry)
    requires forall i :: 0 <= i < |log| ==> EntryOk(callers, log, i)
    requires forall id :: id in callers ==> id in callers' && callers'[id].req == callers[id].req
    ensures forall i :: 0 <= i < |log| ==> EntryOk(callers', log, i) && EntryOk(callers', log + [e], i)
  {
    forall i | 0 <= i < |log| ensures EntryOk(callers', log, i) && EntryOk(callers', log + [e], i) {
      assert EntryOk(callers, log, i);
      assert (log + [e])[..i] == log[..i];
    }
  }

  lemma ReplyFacts(c: Cluster, req: Request, pc: Pc)
    requires ClusterOk(c)
    ensures var (r, c') := Answer(c, req, pc);
            && ClusterOk(c') && Evolves(c, c')
            && (LogOf(req, 0, pc, r) == [] ==> c'.deployments == c.deployments)
  {
  }

  /** The log entry of an effective call describes exactly what it did. */
  lemma ReplyLogged(c: Cluster, req: Request, id: Id, pc: Pc, k: Key)
    requires ClusterOk(c) && CallerOk(c, Caller(req, pc))
    ensures var (r, c') := Answer(c, req, pc);
            var l := LogOf(req, id, pc, r);
            && |l| <= 1
            && (l == [] ==> Count(c', k) == Count(c, k))
            && (l != [] ==> Count(c', k) == Effect(l[0], k, Count(c, k)))
            && (l != [] && l[0].Created? ==> Count(c, l[0].k) == None)
            && (l != [] && l[0].Committed? ==>
                  && l[0].k == req.row && l[0].caller == id && l[0].after >= 0
                  && Count(c, req.row) == Some(l[0].before)
                  && AtomicScale(req, l[0].before) == Some(l[0].after))
  {
  }

  lemma NextOk(c: Cluster, req: Request, pc: Pc)
    requires ClusterOk(c) && CallerOk(c, Caller(req, pc))
    ensures var (r, c') := Answer(c, req, pc); CallerOk(c', Caller(req, PcNext(c, req, pc, r)))
  {
    ReplyFacts(c, req, pc);
  }

  lemma LogKept(s: State, callers': map<Id, Caller>, l: seq<Entry>, c': Cluster)
    requires Inv(s) && |l| <= 1
    requires forall id :: id in s.callers ==> id in callers' && callers'[id].req == s.callers[id].req
    requires forall k :: if l == [] then Count(c', k) == Count(s.c, k)
        else Count(c', k) == Effect(l[0], k, Count(s.c, k))
    requires l != [] && l[0].Created? ==> Count(s.c, l[0].k) == None
    requires l != [] && l[0].Committed? ==>
               l[0].caller in callers' && l[0].after >= 0 && l[0].k == callers'[l[0].caller].req.row
               && Count(s.c, l[0].k) == Some(l[0].before)
               && AtomicScale(callers'[l[0].caller].req, l[0].before) == Some(l[0].after)
    ensures forall k :: Replay(s.log + l, k) == Count(c', k)
    ensures forall i :: 0 <= i < |s.log + l| ==> EntryOk(callers', s.log + l, i)
  {
    if l == [] {
      assert s.log + l == s.log;
      EntriesKept(s.callers, callers', s.log, Emptied(""));
    } else {
      assert s.log + l == s.log + [l[0]];
      EntriesKept(s.callers, callers', s.log, l[0]);
      assert (s.log + l)[..|s.log|] == s.log;
      forall k ensures Replay(s.log + l, k) == Count(c', k) {
        ReplaySnoc(s.log, l[0], k);
      }
    }
  }

  lemma MoveInv(s: State, id: Id, effect: bool)
    requires Inv(s) && id in s.callers
    ensures Inv(ApplyFault(s, id, effect)) && Inv(ApplyStep(s, id))
  {
    var Caller(req, pc) := s.callers[id];
    var (r, c') := Answer(s.c, req, pc);
    var l := LogOf(req, id, pc, r);
    assert CallerOk(s.c, s.callers[id]);
    ReplyFacts(s.c, req, pc);
    NextOk(s.c, req, pc);
    forall k ensures if l == [] then Count(c', k) == Count(s.c, k) else Count(c', k) == Effect(l[0], k, Count(s.c, k)) {
      ReplyLogged(s.c, req, id, pc, k);
    }
    ReplyLogged(s.c, req, id, pc, req.row);
    ReplyLogged(s.c, req, id, pc, req.made);
    LogKept(s, s.callers[id := Caller(req, Done(Failed))], l, c');
    LogKept(s, s.callers[id := Caller(req, Done(Failed))], [], s.c);
    LogKept(s, s.callers[id := Caller(req, PcNext(s.c, req, pc, r))], l, c');
    forall u | u in s.callers ensures CallerOk(c', s.callers[u]) {
      CallerEvolves(s.c, c', s.callers[u]);
    }
  }

  lemma OutsideInv(s: State, c': Cluster, l: seq<Entry>)
    requires Inv(s) && ClusterOk(c') && Evolves(s.c, c') && |l| <= 1
    requires l != [] ==> !l[0].Committed? && !l[0].Created?
    requires forall k :: if l == [] then Count(c', k) == Count(s.c, k)
        else Count(c', k) == Effect(l[0], k, Count(s.c, k))
    ensures Inv(State(c', s.callers, s.log + l))
  {
    LogKept(s, s.callers, l, c');
    forall u | u in s.callers ensures CallerOk(c', s.callers[u]) {
      CallerEvolves(s.c, c', s.callers[u]);
    }
  }

  lemma CallInv(s: State, id: Id, req: Request)
    requires Inv(s) && id !in s.callers
    ensures Inv(s.(callers := s.callers[id := Caller(req, FirstPc(req))]))
  {
    EntriesKept(s.callers, s.callers[id := Caller(req, FirstPc(req))], s.log, Emptied(""));
  }

  lemma StepInv(s: State, a: Action)
    requires Inv(s) && Enabled(s, a)
    ensures Inv(Apply(s, a))
  {
    match a
    case Call(id, req) => CallInv(s, id, req);
    case Step(id) => MoveInv(s, id, true);
    case Fault(id, effect) => MoveInv(s, id, effect);
    case Edit(k, n) => OutsideInv(s, Write(s.c, k, n), [Edited(k, s.c.deployments[k].replicas, n)]);
    case Touch(k) =>
      assert s.log + [] == s.log;
      OutsideInv(s, Write(s.c, k, s.c.deployments[k].replicas), []);
    case RemoveDeployment(k) => OutsideInv(s, DeleteDeployment(s.c, k), [Deleted(k)]);
    case RemoveNamespace(dns) => OutsideInv(s, DeleteNamespace(s.c, dns), [Emptied(dns)]);
  }

  lemma {:induction false} RunInv(s: State, acts: seq<Action>)
    requires Inv(s) && Legal(s, acts)
    ensures Inv(After(s, acts))
    decreases |acts|
  {
    if acts != [] {
      StepInv(s, acts[0]);
      RunInv(Apply(s, acts[0]), acts[1..]);
    }
  }

  // ---------- what holds of every run ----------

  /**
    However many ScaleWorker calls run at once, they behave like compare-and-swap.  The writes of
    the log, replayed in order, give the cluster's counts, and every committed scaling was decided
    on the count in force at the moment of its write: it is what one indivisible ScaleWorker would
    have done there, within its limit, from 0 if it is a wake-up.
   */
  lemma ScalingIsAtomic(acts: seq<Action>, i: nat)
    requires Legal(Init(), acts)
    ensures var s := After(Init(), acts);
            && (forall k :: Replay(s.log, k) == Count(s.c, k))
            && (i < |s.log| && s.log[i].Committed? ==>
                  && s.log[i].caller in s.callers
                  && var e, req := s.log[i], s.callers[s.log[i].caller].req;
                     && e.k == req.row
                     && Replay(s.log[..i], e.k) == Some(e.before)
                     && AtomicScale(req, e.before) == Some(e.after)
                     && e.after == req.replicas <= ToInt32(req.max)
                     && (req.wake ==> e.before == 0))
  {
    RunInv(Init(), acts);
    var s := After(Init(), acts);
    if i < |s.log| {
      assert EntryOk(s.callers, s.log, i);
    }
  }

  predicate IsWakeUp(callers: map<Id, Caller>, e: Entry) {
    e.Committed? && e.caller in callers && callers[e.caller].req.wake
  }

  /** Somebody other than a wake-up may have lowered or removed `k`. */
  predicate Lowers(callers: map<Id, Caller>, e: Entry, k: Key) {
    match e
    case Created(_) => false
    case Committed(k', _, _, _) => k' == k && !IsWakeUp(callers, e)
    case Edited(k', _, _) => k' == k
    case Deleted(k') => k' == k
    case Emptied(dns) => k.dns == dns
  }

  /** Awake after the first `i` writes, and nobody but wake-ups and creations since: still awake. */
  lemma {:induction false} StaysAwake(s: State, i: nat, j: nat, k: Key)
    requires Inv(s) && i <= j <= |s.log|
    requires Replay(s.log[..i], k).Some? && Replay(s.log[..i], k).value > 0
    requires forall m :: i <= m < j ==> !Lowers(s.callers, s.log[m], k)
    ensures Replay(s.log[..j], k).Some? && Replay(s.log[..j], k).value > 0
    decreases j
  {
    if i < j {
      StaysAwake(s, i, j - 1, k);
      assert s.log[..j] == s.log[..j - 1] + [s.log[j - 1]];
      ReplaySnoc(s.log[..j - 1], s.log[j - 1], k);
      assert EntryOk(s.callers, s.log, j - 1) && !Lowers(s.callers, s.log[j - 1], k);
    }
  }

  /**
    Two wake-ups of one deployment commit only if something other than wake-ups lowered or removed it
    in between; so among wake-ups alone at most one per deployment commits.
   */
  lemma OneWakeUp(acts: seq<Action>, i: nat, j: nat)
    requires Legal(Init(), acts)
    requires var s := After(Init(), acts);
             && i < j < |s.log| && IsWakeUp(s.callers, s.log[i]) && IsWakeUp(s.callers, s.log[j])
             && s.log[i].k == s.log[j].k
    ensures var s := After(Init(), acts); exists m :: i < m < j && Lowers(s.callers, s.log[m], s.log[i].k)
  {
    RunInv(Init(), acts);
    var s := After(Init(), acts);
    var k := s.log[i].k;
    assert EntryOk(s.callers, s.log, i) && EntryOk(s.callers, s.log, j);
    if forall m :: i < m < j ==> !Lowers(s.callers, s.log[m], k) {
      assert s.log[..i + 1] == s.log[..i] + [s.log[i]];
      ReplaySnoc(s.log[..i], s.log[i], k);
      StaysAwake(s, i + 1, j, k);
    }
  }

  /** The first check of ScaleWorker lets the request through. */
  predicate WithinLimit(max: int, replicas: int) {
    replicas <= ToInt32(max)
  }

  /**
    The limit is truncated to 32 bits before it is compared.  What passes is within the row's limit
    exactly if that is at least -2^31, and the two limits are the same exactly in the int32 range.
   */
  lemma LimitIsSound(max: int)
    ensures (forall replicas: int :: WithinLimit(max, replicas) ==> replicas <= max) <==> max >= -0x8000_0000
    ensures ToInt32(max) == max <==> -0x8000_0000 <= max < 0x8000_0000
  {
    assert WithinLimit(max, ToInt32(max));
  }

  /** No step of a wake-up, and no recovery step of any call, lowers or removes an existing deployment. */
  lemma NeverLowered(acts: seq<Action>, a: Action, k: Key)
    requires Legal(Init(), acts) && Enabled(After(Init(), acts), a) && (a.Step? || a.Fault?)
    requires var w := After(Init(), acts).callers[a.id]; w.req.wake || !w.pc.Update?
    requires k in After(Init(), acts).c.deployments
    ensures var s := After(Init(), acts);
            k in Apply(s, a).c.deployments && Apply(s, a).c.deployments[k].replicas >= s.c.deployments[k].replicas
  {
    RunInv(Init(), acts);
    var s := After(Init(), acts);
    assert CallerOk(s.c, s.callers[a.id]);
  }
}
