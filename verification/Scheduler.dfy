/**
  Any number of concurrent `CreateJob` calls as a protocol: each step is one external call, every
  call can fail with or without its effect, and anyone may delete Kubernetes objects in between.
  A call is named by the fresh id its job gets; a worker row is named by the call that created it.
 */
module Scheduler {
  import opened Common
  import opened Kubernetes
  import opened Names
  import opened NameTheorems
  import opened Client

  type Id = nat

  datatype Worker = Worker(id: Id, image: string, ns: string, deployment: string)

  datatype Message = Message(job: Id, attempt: nat)

  /** The tables, with images and names unique, the broker's queue and the cluster. */
  datatype Stores = Stores(
    namespaces: map<string, Namespace>,
    workers: map<string, Worker>,
    jobs: map<Id, Id>,                   // job id -> worker id
    queue: seq<Message>,
    cluster: Cluster)

  datatype Request = Request(image: string, ns: string, autorun: bool)

  /** The external call a CreateJob stands before. */
  datatype Pc =
    | LoadNamespace
    | CheckNamespace(ns: Namespace)
    | NamespacePc(ns: Namespace)
    | QuotaPc(ns: Namespace)
    | LimitsPc(ns: Namespace)
    | LoadWorker(ns: Namespace)
    | Deploy(ns: Namespace)
    | SaveWorker(ns: Namespace)
    | CheckWorker(ns: Namespace, w: Worker)
    | Redeploy(ns: Namespace, w: Worker)
    | UpdateWorker(ns: Namespace, w: Worker)
    | SaveJob(worker: Id)
    | Publish
    | Done(ok: bool)

  datatype Call = Call(req: Request, pc: Pc)

  datatype State = State(st: Stores, calls: map<Id, Call>)

  function Init(): State {
    State(Stores(map[], map[], map[], [], Cluster({}, map[], map[], map[], 0)), map[])
  }

  datatype Action =
    | AddNamespace(ns: Namespace)
    | Begin(id: Id, req: Request)
    | Step(id: Id)
    | Fault(id: Id, effect: bool)
    | RemoveDeployment(k: Key)
    | RemoveNamespace(dns: string)

  /** Another row already uses the deployment name. */
  predicate NameTaken(workers: map<string, Worker>, image: string, deployment: string) {
    exists i :: i in workers && i != image && workers[i].deployment == deployment
  }

  /** The Kubernetes call of a step, if it is one. */
  function ApiOf(req: Request, pc: Pc): Option<ApiCall> {
    match pc
    case CheckNamespace(ns) => Some(GetNamespace(ns.dns))
    case NamespacePc(ns) => Some(MakeNamespace(DNSName(ns.name)))
    case QuotaPc(ns) => Some(MakeQuota(DNSName(ns.name), QuotaOf(Merged(Some(ns.limits)))))
    case LimitsPc(ns) => Some(MakeLimits(DNSName(ns.name), RangeOf(Merged(Some(ns.limits)))))
    case Deploy(ns) => Some(MakeDeployment(Made(req.image, ns.dns)))
    case CheckWorker(ns, w) => Some(GetScale(Key(ns.dns, w.deployment)))
    case Redeploy(ns, w) => Some(MakeDeployment(Made(req.image, ns.dns)))
    case _ => None
  }

  /** What the external call does to the stores. */
  function StoresNext(st: Stores, id: Id, call: Call): Stores {
    var a := ApiOf(call.req, call.pc);
    if a.Some? then st.(cluster := Api(st.cluster, a.value).1)
    else match call.pc
      case SaveWorker(ns) =>
        if SaveFails(st, call.req, ns) then st
        else st.(workers := st.workers[call.req.image := NewWorker(id, call.req, ns)])
      case UpdateWorker(ns, w) =>
        if UpdateFails(st, w) then st
            else st.(workers := st.workers[w.image := st.workers[w.image].(deployment := w.deployment)])
      case SaveJob(worker) => st.(jobs := st.jobs[id := worker])
      case Publish => st.(queue := st.queue + [Message(id, 1)])
      case _ => st
  }

  function NewWorker(id: Id, req: Request, ns: Namespace): Worker {
    Worker(id, req.image, ns.name, DeploymentName(req.image, ns.dns))
  }

  /** The unique indexes on image and deployment name. */
  predicate SaveFails(st: Stores, req: Request, ns: Namespace) {
    req.image in st.workers || NameTaken(st.workers, req.image, DeploymentName(req.image, ns.dns))
  }

  predicate UpdateFails(st: Stores, w: Worker) {
    w.image !in st.workers || NameTaken(st.workers, w.image, w.deployment)
  }

  /** What the external call of a step answers, if the answer arrives. */
  function ReplyOf(st: Stores, req: Request, pc: Pc): Reply {
    var a := ApiOf(req, pc);
    if a.Some? then Api(st.cluster, a.value).0
    else match pc
      case LoadNamespace => if req.ns in st.namespaces then Ok else NotFound
      case LoadWorker(_) => if req.image in st.workers then Ok else NotFound
      case SaveWorker(ns) => if SaveFails(st, req, ns) then Invalid else Ok
      case UpdateWorker(_, w) => if UpdateFails(st, w) then Invalid else Ok
      case _ => Ok
  }

  /** Where an answer leads; a load takes its row from the tables. */
  function Then(st: Stores, id: Id, req: Request, pc: Pc, r: Reply): Pc {
    var fine := r.Ok? || r.AlreadyExists?;
    match pc
    case LoadNamespace => if r.Ok? && req.ns in st.namespaces then CheckNamespace(st.namespaces[req.ns])
        else Done(false)
    case CheckNamespace(ns) => if r.Ok? then LoadWorker(ns) else NamespacePc(ns)
    case NamespacePc(ns) => if fine then QuotaPc(ns) else Done(false)
    case QuotaPc(ns) => if fine then LimitsPc(ns) else Done(false)
    case LimitsPc(ns) => if fine then LoadWorker(ns) else Done(false)
    case LoadWorker(ns) =>
      if r.Ok? && req.image in st.workers then CheckWorker(ns, st.workers[req.image]) else Deploy(ns)
    case Deploy(ns) => if r.Ok? then SaveWorker(ns) else Done(false)
    case SaveWorker(_) => if r.Ok? then SaveJob(id) else Done(false)
    case CheckWorker(ns, w) => if r.Ok? then SaveJob(w.id) else Redeploy(ns, w)
    case Redeploy(ns, w) =>
      if r.Ok? then UpdateWorker(ns, w.(deployment := DeploymentName(req.image, ns.dns))) else Done(false)
    case UpdateWorker(_, w) => if r.Ok? then SaveJob(w.id) else Done(false)
    case SaveJob(_) => if req.autorun then Publish else Done(true)
    case Publish => Done(true)
    case Done(ok) => Done(ok)
  }

  function PcNext(st: Stores, id: Id, call: Call): Pc {
    Then(st, id, call.req, call.pc, ReplyOf(st, call.req, call.pc))
  }

  predicate Enabled(s: State, a: Action) {
    match a
    case AddNamespace(ns) =>
      && ns.name !in s.st.namespaces && ns.dns == DNSName(ns.name)
      && forall n :: n in s.st.namespaces ==> s.st.namespaces[n].dns != ns.dns
    case Begin(id, _) => id !in s.calls
    case Step(id) => id in s.calls && !s.calls[id].pc.Done?
    // a publish that errors is taken not to have enqueued
    case Fault(id, effect) => id in s.calls && !s.calls[id].pc.Done? && !(effect && s.calls[id].pc.Publish?)
    case RemoveDeployment(_) => true
    case RemoveNamespace(_) => true
  }

  function Apply(s: State, a: Action): State
    requires Enabled(s, a)
  {
    match a
    case AddNamespace(ns) => s.(st := s.st.(namespaces := s.st.namespaces[ns.name := ns]))
    case Begin(id, req) => s.(calls := s.calls[id := Call(req, LoadNamespace)])
    case Step(id) =>
      var call := s.calls[id];
      State(StoresNext(s.st, id, call), s.calls[id := call.(pc := PcNext(s.st, id, call))])
    case Fault(id, effect) =>
      var call := s.calls[id];
      State(if effect then StoresNext(s.st, id, call) else s.st, s.calls[id := call.(pc := Done(false))])
    case RemoveDeployment(k) => s.(st := s.st.(cluster := DeleteDeployment(s.st.cluster, k)))
    case RemoveNamespace(dns) => s.(st := s.st.(cluster := DeleteNamespace(s.st.cluster, dns)))
  }

  predicate Legal(s: State, acts: seq<Action>)
    decreases |acts|
  {
    acts == [] || (Enabled(s, acts[0]) && Legal(Apply(s, acts[0]), acts[1..]))
  }

  function After(s: State, acts: seq<Action>): State
    requires Legal(s, acts)
    decreases |acts|
  {
    if acts == [] then s else After(Apply(s, acts[0]), acts[1..])
  }

  // ---------- what every step keeps ----------

  /** Some worker row has this id. */
  ghost predicate HasWorker(workers: map<string, Worker>, id: Id) {
    exists i :: i in workers && workers[i].id == id
  }

  /** The number of messages for a job. */
  function Sent(queue: seq<Message>, id: Id): nat {
    if queue == [] then 0 else (if queue[|queue| - 1].job == id then 1 else 0) + Sent(queue[..|queue| - 1], id)
  }

  predicate NamespacesOk(st: Stores) {
    forall n :: n in st.namespaces ==> st.namespaces[n].name == n && st.namespaces[n].dns == DNSName(n)
  }

  /** The row a call has loaded is the stored one. */
  predicate LoadedOk(st: Stores, req: Request, ns: Namespace) {
    req.ns in st.namespaces && ns == st.namespaces[req.ns]
  }

  ghost predicate CallOk(st: Stores, id: Id, call: Call) {
    && (match call.pc
        case LoadNamespace => true
        case CheckNamespace(ns) => LoadedOk(st, call.req, ns)
        case NamespacePc(ns) => LoadedOk(st, call.req, ns)
        case QuotaPc(ns) => LoadedOk(st, call.req, ns)
        case LimitsPc(ns) => LoadedOk(st, call.req, ns)
        case LoadWorker(ns) => LoadedOk(st, call.req, ns)
        case Deploy(ns) => LoadedOk(st, call.req, ns)
        case SaveWorker(ns) => LoadedOk(st, call.req, ns) && Admitted(call.req.image, ns.dns)
        case CheckWorker(ns, w) => LoadedOk(st, call.req, ns) && IsStoredRow(st, call.req, w)
        case Redeploy(ns, w) => LoadedOk(st, call.req, ns) && IsStoredRow(st, call.req, w)
        case UpdateWorker(ns, w) =>
          LoadedOk(st, call.req, ns) && IsStoredRow(st, call.req, w)
              && w.deployment == DeploymentName(call.req.image, ns.dns)
          && Admitted(call.req.image, ns.dns)
        case SaveJob(worker) => HasWorker(st.workers, worker)
        case Publish => id in st.jobs && call.req.autorun
        case Done(ok) => ok ==> id in st.jobs)
    && (id in st.jobs ==> call.pc.Publish? || call.pc.Done?)
    && Sent(st.queue, id) == if call.pc == Done(true) && call.req.autorun then 1 else 0
  }

  /** The loaded row is the stored row of the image, except perhaps for its deployment name. */
  predicate IsStoredRow(st: Stores, req: Request, w: Worker) {
    w.image == req.image && w.image in st.workers && st.workers[w.image].id == w.id && st.workers[w.image].ns == w.ns
  }

  ghost predicate StoresOk(st: Stores) {
    && NamespacesOk(st) && LabelsOk(st.cluster)
    && (forall i :: i in st.workers ==> st.workers[i].image == i)
    && (forall j :: j in st.jobs ==> HasWorker(st.workers, st.jobs[j]))
    && (forall m :: m in st.queue ==> m.job in st.jobs && m.attempt == 1)
  }

  ghost predicate Inv(s: State) {
    && StoresOk(s.st)
    && (forall id :: id in s.calls ==> CallOk(s.st, id, s.calls[id]))
    && (forall id :: id !in s.calls ==> id !in s.st.jobs && Sent(s.st.queue, id) == 0)
  }

  /** Rows of the three tables are added, and only a worker's deployment name ever changes. */
  ghost predicate Grows(st: Stores, st': Stores) {
    && (forall n :: n in st.namespaces ==> n in st'.namespaces && st'.namespaces[n] == st.namespaces[n])
    && (forall i :: i in st.workers ==>
          i in st'.workers && st'.workers[i].id == st.workers[i].id && st'.workers[i].ns == st.workers[i].ns)
    && (forall j :: j in st.jobs ==> j in st'.jobs && st'.jobs[j] == st.jobs[j])
  }

  lemma CallGrows(st: Stores, st': Stores, id: Id, call: Call)
    requires CallOk(st, id, call) && Grows(st, st')
    requires Sent(st'.queue, id) == Sent(st.queue, id) && (id in st'.jobs <==> id in st.jobs)
    ensures CallOk(st', id, call)
  {
    if call.pc.SaveJob? {
      WorkerGrows(st, st', call.pc.worker);
    }
  }

  lemma WorkerGrows(st: Stores, st': Stores, id: Id)
    requires HasWorker(st.workers, id) && Grows(st, st')
    ensures HasWorker(st'.workers, id)
  {
    var i :| i in st.workers && st.workers[i].id == id;
    assert i in st'.workers && st'.workers[i].id == id;
  }

  lemma SentSnoc(queue: seq<Message>, m: Message, id: Id)
    ensures Sent(queue + [m], id) == Sent(queue, id) + if m.job == id then 1 else 0
  {
    assert (queue + [m])[..|queue|] == queue;
  }

  /** A Kubernetes call leaves tables and queue alone. */
  lemma ApiStep(st: Stores, id: Id, call: Call)
    requires ApiOf(call.req, call.pc).Some?
    ensures StoresNext(st, id, call) == st.(cluster := StoresNext(st, id, call).cluster)
    ensures LabelsOk(st.cluster) ==> LabelsOk(StoresNext(st, id, call).cluster)
  {
    if LabelsOk(st.cluster) {
      ApiLabels(st.cluster, ApiOf(call.req, call.pc).value);
    }
  }

  lemma ClusterGrows(st: Stores, c: Cluster)
    ensures Grows(st, st.(cluster := c))
    ensures StoresOk(st) && LabelsOk(c) ==> StoresOk(st.(cluster := c))
  {
  }

  lemma TableStep(st: Stores, id: Id, call: Call)
    requires StoresOk(st) && CallOk(st, id, call) && ApiOf(call.req, call.pc).None?
    ensures Grows(st, StoresNext(st, id, call))
  {
  }

  lemma GrowsStep(st: Stores, id: Id, call: Call)
    requires StoresOk(st) && CallOk(st, id, call)
    ensures Grows(st, StoresNext(st, id, call))
  {
    if ApiOf(call.req, call.pc).Some? {
      ApiStep(st, id, call);
      ClusterGrows(st, StoresNext(st, id, call).cluster);
    } else {
      TableStep(st, id, call);
    }
  }

  lemma StoresStep(st: Stores, id: Id, call: Call)
    requires StoresOk(st) && CallOk(st, id, call)
    ensures StoresOk(StoresNext(st, id, call))
  {
    if ApiOf(call.req, call.pc).Some? {
      ApiStep(st, id, call);
      ClusterGrows(st, StoresNext(st, id, call).cluster);
    } else {
      TableStoresStep(st, id, call);
    }
  }

  lemma TableStoresStep(st: Stores, id: Id, call: Call)
    requires StoresOk(st) && CallOk(st, id, call) && ApiOf(call.req, call.pc).None?
    ensures StoresOk(StoresNext(st, id, call))
  {
    var st' := StoresNext(st, id, call);
    TableStep(st, id, call);
    forall j | j in st'.jobs ensures HasWorker(st'.workers, st'.jobs[j]) {
      if j in st.jobs {
        WorkerGrows(st, st', st.jobs[j]);
      }
    }
  }

  /** The steps that leave the tables alone. */
  lemma OwnReadStep(st: Stores, id: Id, call: Call)
    requires StoresOk(st) && CallOk(st, id, call)
    requires ApiOf(call.req, call.pc).Some? || call.pc.LoadNamespace? || call.pc.LoadWorker?
    ensures CallOk(st, id, call.(pc := PcNext(st, id, call)))
  {
    if call.pc.CheckWorker? {
      assert st.workers[call.pc.w.image].id == call.pc.w.id;
    }
  }

  lemma OwnWriteStep(st: Stores, id: Id, call: Call)
    requires StoresOk(st) && CallOk(st, id, call)
    requires call.pc.SaveWorker? || call.pc.UpdateWorker? || call.pc.SaveJob? || call.pc.Publish?
    ensures CallOk(StoresNext(st, id, call), id, call.(pc := PcNext(st, id, call)))
  {
    var st' := StoresNext(st, id, call);
    match call.pc
    case SaveWorker(ns) =>
      if !SaveFails(st, call.req, ns) {
        assert st'.workers[call.req.image].id == id;
      }
    case UpdateWorker(ns, w) =>
      if !UpdateFails(st, w) {
        assert st'.workers[w.image].id == w.id;
      }
    case Publish => SentSnoc(st.queue, Message(id, 1), id);
    case _ =>
  }

  /** A call's own step leaves it consistent with the new stores. */
  lemma OwnStep(st: Stores, id: Id, call: Call)
    requires StoresOk(st) && CallOk(st, id, call) && !call.pc.Done?
    ensures CallOk(StoresNext(st, id, call), id, call.(pc := PcNext(st, id, call)))
  {
    if ApiOf(call.req, call.pc).Some? || call.pc.LoadNamespace? || call.pc.LoadWorker? {
      OwnReadStep(st, id, call);
      ClusterOnly(st, StoresNext(st, id, call), id, call.(pc := PcNext(st, id, call)));
    } else {
      OwnWriteStep(st, id, call);
    }
  }

  lemma ClusterOnly(st: Stores, st': Stores, id: Id, call: Call)
    requires CallOk(st, id, call) && st' == st.(cluster := st'.cluster)
    ensures CallOk(st', id, call)
  {
  }

  /** A call that errors: its effect, if any, is not a message. */
  lemma OwnFault(st: Stores, st': Stores, id: Id, call: Call)
    requires CallOk(st, id, call) && !call.pc.Done?
    requires st'.queue == st.queue
    ensures CallOk(st', id, call.(pc := Done(false)))
  {
  }

  lemma OthersUnaffected(st: Stores, id: Id, call: Call, other: Id)
    requires other != id
    ensures Sent(StoresNext(st, id, call).queue, other) == Sent(st.queue, other)
    ensures other in StoresNext(st, id, call).jobs <==> other in st.jobs
  {
    if call.pc.Publish? {
      SentSnoc(st.queue, Message(id, 1), other);
    }
  }

  /** One call moves on, the tables grow, and nothing of the other calls' jobs and messages changes. */
  lemma MoveInv(s: State, st': Stores, id: Id, call': Call)
    requires Inv(s) && id in s.calls && StoresOk(st') && Grows(s.st, st') && CallOk(st', id, call')
    requires forall other :: other != id ==>
               Sent(st'.queue, other) == Sent(s.st.queue, other) && (other in st'.jobs <==> other in s.st.jobs)
    ensures Inv(State(st', s.calls[id := call']))
  {
    forall other | other != id && other in s.calls ensures CallOk(st', other, s.calls[other]) {
      CallGrows(s.st, st', other, s.calls[other]);
    }
  }

  lemma StepCallsOk(s: State, id: Id, call': Call)
    requires Inv(s) && id in s.calls
    requires CallOk(StoresNext(s.st, id, s.calls[id]), id, call')
    ensures Inv(State(StoresNext(s.st, id, s.calls[id]), s.calls[id := call']))
  {
    var call, st' := s.calls[id], StoresNext(s.st, id, s.calls[id]);
    GrowsStep(s.st, id, call);
    StoresStep(s.st, id, call);
    forall other | other != id
      ensures Sent(st'.queue, other) == Sent(s.st.queue, other) && (other in st'.jobs <==> other in s.st.jobs)
    {
      OthersUnaffected(s.st, id, call, other);
    }
    MoveInv(s, st', id, call');
  }

  lemma FaultNoEffect(s: State, id: Id)
    requires Inv(s) && id in s.calls && !s.calls[id].pc.Done?
    ensures Inv(s.(calls := s.calls[id := s.calls[id].(pc := Done(false))]))
  {
    OwnFault(s.st, s.st, id, s.calls[id]);
  }

  /** Outside actions change no table that a call relies on, except by adding rows. */
  lemma OutsideInv(s: State, st': Stores)
    requires Inv(s) && StoresOk(st') && Grows(s.st, st') && st'.jobs == s.st.jobs && st'.queue == s.st.queue
    ensures Inv(s.(st := st'))
  {
    forall id | id in s.calls ensures CallOk(st', id, s.calls[id]) {
      CallGrows(s.st, st', id, s.calls[id]);
    }
  }

  lemma StepInv(s: State, a: Action)
    requires Inv(s) && Enabled(s, a)
    ensures Inv(Apply(s, a))
  {
    match a
    case AddNamespace(ns) => OutsideInv(s, s.st.(namespaces := s.st.namespaces[ns.name := ns]));
    case Begin(id, req) =>
    case Step(id) =>
      OwnStep(s.st, id, s.calls[id]);
      StepCallsOk(s, id, s.calls[id].(pc := PcNext(s.st, id, s.calls[id])));
    case Fault(id, effect) =>
      if effect {
        OwnFault(s.st, StoresNext(s.st, id, s.calls[id]), id, s.calls[id]);
        StepCallsOk(s, id, s.calls[id].(pc := Done(false)));
      } else {
        FaultNoEffect(s, id);
      }
    case RemoveDeployment(k) => OutsideInv(s, s.st.(cluster := DeleteDeployment(s.st.cluster, k)));
    case RemoveNamespace(dns) => OutsideInv(s, s.st.(cluster := DeleteNamespace(s.st.cluster, dns)));
  }

  lemma {:induction false} RunInv(s: State, acts: seq<Action>)
    requires Inv(s) && Legal(s, acts)
    ensures Inv(After(s, acts))
    decreases |acts|
  {
    if acts != [] {
      StepInv(s, acts[0]);
      RunInv(Apply(s, acts[0]), acts[1..]);
    }
  }
}
