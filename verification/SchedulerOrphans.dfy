/** A deployment that was created while its worker row was not stored blocks its image. */
module SchedulerOrphans {
  import opened Common
  import opened Kubernetes
  import opened Names
  import opened NameTheorems
  import opened Client
  import opened Scheduler
  import opened SchedulerAlone

  /** Not past the lookup of the worker row, or before the creation of the deployment. */
  predicate Early(pc: Pc) {
    pc.LoadNamespace? || pc.CheckNamespace? || pc.NamespacePc? || pc.QuotaPc? || pc.LimitsPc? || pc.LoadWorker?
        || pc.Deploy?
  }

  /** The image has no row, its deployment exists, and no call for the image is about to store a row. */
  ghost predicate Orphaned(s: State, image: string, ns: Namespace) {
    && ns.name in s.st.namespaces && s.st.namespaces[ns.name] == ns
    && image !in s.st.workers && Made(image, ns.dns) in s.st.cluster.deployments
    && forall id :: id in s.calls && s.calls[id].req.image == image ==>
         s.calls[id].req.ns == ns.name && (Early(s.calls[id].pc) || s.calls[id].pc.Done?)
  }

  /** Calls for the image name its one namespace, and nobody deletes the deployment or its namespace. */
  predicate Ordinary(a: Action, image: string, ns: Namespace) {
    match a
    case Begin(_, req) => req.image == image ==> req.ns == ns.name
    case RemoveDeployment(k) => k != Made(image, ns.dns)
    case RemoveNamespace(dns) => dns != ns.dns
    case _ => true
  }

  lemma ApiKeeps(c: Cluster, a: ApiCall, k: Key)
    requires k in c.deployments
    ensures k in Api(c, a).1.deployments
    ensures a.MakeDeployment? && a.k == k ==> !Api(c, a).0.Ok?
  {
  }

  /** A call for the image makes no row and leaves the deployment, and can only get an error. */
  lemma OwnCallBlocked(st: Stores, id: Id, call: Call, image: string, ns: Namespace)
    requires CallOk(st, id, call) && Early(call.pc) && call.req.image == image && call.req.ns == ns.name
    requires ns.name in st.namespaces && st.namespaces[ns.name] == ns
    requires image !in st.workers && Made(image, ns.dns) in st.cluster.deployments
    ensures var st' := StoresNext(st, id, call);
            && st'.workers == st.workers && st'.namespaces == st.namespaces
            && Made(image, ns.dns) in st'.cluster.deployments
    ensures Early(PcNext(st, id, call)) || PcNext(st, id, call) == Done(false)
  {
    if ApiOf(call.req, call.pc).Some? {
      ApiStep(st, id, call);
      ApiKeeps(st.cluster, ApiOf(call.req, call.pc).value, Made(image, ns.dns));
    }
  }

  lemma OtherCallBlocked(st: Stores, id: Id, call: Call, image: string, k: Key)
    requires CallOk(st, id, call) && call.req.image != image
    ensures var st' := StoresNext(st, id, call);
            && (image !in st.workers ==> image !in st'.workers) && st'.namespaces == st.namespaces
            && (k in st.cluster.deployments ==> k in st'.cluster.deployments)
  {
    if ApiOf(call.req, call.pc).Some? {
      ApiStep(st, id, call);
      if k in st.cluster.deployments {
        ApiKeeps(st.cluster, ApiOf(call.req, call.pc).value, k);
      }
    }
  }

  lemma StepOrphaned(s: State, a: Action, image: string, ns: Namespace)
    requires Inv(s) && Orphaned(s, image, ns) && Enabled(s, a) && Ordinary(a, image, ns)
    ensures Orphaned(Apply(s, a), image, ns)
    ensures forall id :: id in s.calls && s.calls[id].req.image == image && s.calls[id].pc != Done(true) ==>
              Apply(s, a).calls[id].pc != Done(true)
  {
    if a.Step? || a.Fault? {
      var call := s.calls[a.id];
      if call.req.image == image {
        OwnCallBlocked(s.st, a.id, call, image, ns);
      } else {
        OtherCallBlocked(s.st, a.id, call, image, Made(image, ns.dns));
      }
    }
  }

  /**
    From then on, until somebody deletes the deployment, every CreateJob for the image under this
    namespace fails, in every continuation in which the image is used under no other one.
   */
  lemma {:induction false} OrphanBlocksImage(s: State, acts: seq<Action>, image: string, ns: Namespace)
    requires Inv(s) && Orphaned(s, image, ns) && Legal(s, acts)
    requires forall i :: 0 <= i < |acts| ==> Ordinary(acts[i], image, ns)
    ensures var s' := After(s, acts);
            && Orphaned(s', image, ns)
            && (forall id :: id in s'.calls && s'.calls[id].req.image == image && s'.calls[id].pc == Done(true) ==>
                  id in s.calls && s.calls[id] == s'.calls[id])
    decreases |acts|
  {
    if acts != [] {
      var s1 := Apply(s, acts[0]);
      assert Ordinary(acts[0], image, ns);
      StepInv(s, acts[0]);
      StepOrphaned(s, acts[0], image, ns);
      StepRequests(s, acts[0]);
      OrphanBlocksImage(s1, acts[1..], image, ns);
    }
  }

  /** Calls keep their requests, finished calls stay as they are, and new calls are not finished. */
  lemma StepRequests(s: State, a: Action)
    requires Enabled(s, a)
    ensures forall id :: id in s.calls ==>
              && id in Apply(s, a).calls && Apply(s, a).calls[id].req == s.calls[id].req
              && (s.calls[id].pc.Done? ==> Apply(s, a).calls[id] == s.calls[id])
    ensures forall id :: id in Apply(s, a).calls && id !in s.calls ==> !Apply(s, a).calls[id].pc.Done?
  {
  }

  /** A failed store of the worker row leaves an orphan, if no other call for the image is as far. */
  lemma FailedSaveOrphans(s: State, id: Id, ns: Namespace)
    requires Inv(s) && id in s.calls && s.calls[id].pc == SaveWorker(ns) && s.calls[id].req.ns == ns.name
    requires s.calls[id].req.image !in s.st.workers
    requires Made(s.calls[id].req.image, ns.dns) in s.st.cluster.deployments
    requires forall o :: o in s.calls && o != id && s.calls[o].req.image == s.calls[id].req.image ==>
               s.calls[o].req.ns == ns.name && (Early(s.calls[o].pc) || s.calls[o].pc.Done?)
    ensures Enabled(s, Fault(id, false)) && Orphaned(Apply(s, Fault(id, false)), s.calls[id].req.image, ns)
  {
    assert CallOk(s.st, id, s.calls[id]);
  }

  /** So does a creation of the deployment whose answer is lost. */
  lemma LostCreationOrphans(s: State, id: Id, ns: Namespace)
    requires Inv(s) && id in s.calls && s.calls[id].pc == Deploy(ns) && s.calls[id].req.ns == ns.name
    requires s.calls[id].req.image !in s.st.workers
    requires CreateDeployment(s.st.cluster, Made(s.calls[id].req.image, ns.dns)).0.Ok?
    requires forall o :: o in s.calls && o != id && s.calls[o].req.image == s.calls[id].req.image ==>
               s.calls[o].req.ns == ns.name && (Early(s.calls[o].pc) || s.calls[o].pc.Done?)
    ensures Enabled(s, Fault(id, true)) && Orphaned(Apply(s, Fault(id, true)), s.calls[id].req.image, ns)
  {
    assert CallOk(s.st, id, s.calls[id]);
    ApiStep(s.st, id, s.calls[id]);
  }

  // ---------- another namespace ----------

  /**
    Alone and without faults a CreateJob for an orphaned image fails under the orphan's namespace, and
    under any other succeeds exactly if names are admitted and the generated deployment and its name
    are free there.
   */
  lemma OrphanElsewhere(s: State, image: string, ns: Namespace, id: Id, req: Request)
    requires Inv(s) && Orphaned(s, image, ns) && req.image == image
    ensures var ok := Alone(s.st, id, Call(req, LoadNamespace)).1;
            && (req.ns == ns.name ==> !ok)
            && (ok <==> req.ns in s.st.namespaces
                        && var dns := s.st.namespaces[req.ns].dns;
                           && Admitted(image, dns) && Made(image, dns) !in s.st.cluster.deployments
                           && !NameTaken(s.st.workers, image, DeploymentName(image, dns)))
  {
    CreateJobSucceedsIff(s.st, id, req);
  }

  // ---------- an orphan from the beginning ----------

  /** One call, numbered 0. */
  function At(st: Stores, call: Call): State {
    State(st, map[0 := call])
  }

  lemma Extend(acts: seq<Action>, a: Action)
    requires Legal(Init(), acts) && Enabled(After(Init(), acts), a)
    ensures Legal(Init(), acts + [a]) && After(Init(), acts + [a]) == Apply(After(Init(), acts), a)
  {
    var s := After(Init(), acts);
    assert [a][1..] == [];
    RunNil(Apply(s, a), [a][1..]);
    RunCons(s, a, [a]);
    Concat(Init(), acts, [a]);
  }

  lemma StepAt(acts: seq<Action>, st: Stores, req: Request, pc: Pc, st': Stores, pc': Pc) returns (more: seq<Action>)
    requires Legal(Init(), acts) && After(Init(), acts) == At(st, Call(req, pc)) && !pc.Done?
    requires StoresNext(st, 0, Call(req, pc)) == st' && PcNext(st, 0, Call(req, pc)) == pc'
    ensures Legal(Init(), more) && After(Init(), more) == At(st', Call(req, pc'))
  {
    Extend(acts, Step(0));
    more := acts + [Step(0)];
    assert Apply(At(st, Call(req, pc)), Step(0)) == At(st', Call(req, pc'));
  }

  /** Both namespace rows stored, and a call for the image under `a` begun. */
  function Begun(a: Namespace, b: Namespace): Stores {
    Stores(map[a.name := a, b.name := b], map[], map[], [], Cluster({}, map[], map[], map[], 0))
  }

  lemma KubeStep(acts: seq<Action>, st: Stores, req: Request, pc: Pc, a: ApiCall, c: Cluster, pc': Pc)
    returns (more: seq<Action>)
    requires Legal(Init(), acts) && After(Init(), acts) == At(st, Call(req, pc)) && !pc.Done?
    requires ApiOf(req, pc) == Some(a) && c == Api(st.cluster, a).1
    requires Then(st, 0, req, pc, Api(st.cluster, a).0) == pc'
    ensures Legal(Init(), more) && After(Init(), more) == At(st.(cluster := c), Call(req, pc'))
  {
    more := StepAt(acts, st, req, pc, st.(cluster := c), pc');
  }

  /** The first two calls find the row, and that its namespace is missing. */
  lemma TwoSteps(acts: seq<Action>, st: Stores, req: Request, a: Namespace) returns (more: seq<Action>)
    requires a.dns !in st.cluster.namespaces && req.ns in st.namespaces && st.namespaces[req.ns] == a
    requires Legal(Init(), acts) && After(Init(), acts) == At(st, Call(req, LoadNamespace))
    ensures Legal(Init(), more) && After(Init(), more) == At(st, Call(req, NamespacePc(a)))
  {
    more := StepAt(acts, st, req, LoadNamespace, st, CheckNamespace(a));
    more := KubeStep(more, st, req, CheckNamespace(a), GetNamespace(a.dns), st.cluster, NamespacePc(a));
    assert st.(cluster := st.cluster) == st;
  }

  /** The next three create it. */
  lemma ThreeSteps(acts: seq<Action>, st: Stores, req: Request, a: Namespace) returns (more: seq<Action>, c: Cluster)
    requires a.dns == DNSName(a.name) && ValidLabel(a.dns) && a.dns !in st.cluster.namespaces
    requires Legal(Init(), acts) && After(Init(), acts) == At(st, Call(req, NamespacePc(a)))
    ensures Legal(Init(), more) && After(Init(), more) == At(st.(cluster := c), Call(req, LoadWorker(a)))
    ensures c.deployments == st.cluster.deployments && a.dns in c.namespaces
  {
    var q, l := QuotaOf(Merged(Some(a.limits))), RangeOf(Merged(Some(a.limits)));
    var c1 := CreateNamespaceObject(st.cluster, a.dns).1;
    var c2 := CreateQuota(c1, a.dns, q).1;
    c := CreateLimits(c2, a.dns, l).1;
    more := KubeStep(acts, st, req, NamespacePc(a), MakeNamespace(a.dns), c1, QuotaPc(a));
    more := KubeStep(more, st.(cluster := c1), req, QuotaPc(a), MakeQuota(a.dns, q), c2, LimitsPc(a));
    more := KubeStep(more, st.(cluster := c2), req, LimitsPc(a), MakeLimits(a.dns, l), c, LoadWorker(a));
  }

  /** The last two find no row and create the deployment. */
  lemma LastSteps(acts: seq<Action>, st: Stores, req: Request, a: Namespace) returns (more: seq<Action>, c: Cluster)
    requires Admitted(req.image, a.dns) && a.dns in st.cluster.namespaces
    requires st.workers == map[] && st.cluster.deployments == map[]
    requires Legal(Init(), acts) && After(Init(), acts) == At(st, Call(req, LoadWorker(a)))
    ensures Legal(Init(), more) && After(Init(), more) == At(st.(cluster := c), Call(req, SaveWorker(a)))
    ensures c.deployments.Keys == {Made(req.image, a.dns)}
  {
    c := CreateDeployment(st.cluster, Made(req.image, a.dns)).1;
    more := StepAt(acts, st, req, LoadWorker(a), st, Deploy(a));
    more := KubeStep(more, st, req, Deploy(a), MakeDeployment(Made(req.image, a.dns)), c, SaveWorker(a));
  }

  /** Seven calls bring it to the point where the deployment exists and its row does not. */
  lemma SevenSteps(acts: seq<Action>, st: Stores, req: Request, a: Namespace) returns (more: seq<Action>, c: Cluster)
    requires a.dns == DNSName(a.name) && Admitted(req.image, a.dns) && a.dns !in st.cluster.namespaces
    requires req.ns in st.namespaces && st.namespaces[req.ns] == a
    requires st.workers == map[] && st.cluster.deployments == map[]
    requires Legal(Init(), acts) && After(Init(), acts) == At(st, Call(req, LoadNamespace))
    ensures Legal(Init(), more) && After(Init(), more) == At(st.(cluster := c), Call(req, SaveWorker(a)))
    ensures c.deployments.Keys == {Made(req.image, a.dns)}
  {
    more := TwoSteps(acts, st, req, a);
    more, c := ThreeSteps(more, st, req, a);
    more, c := LastSteps(more, st.(cluster := c), req, a);
  }

  /**
    Orphans arise: for any image and two namespaces that admit it there is a run from the beginning
    that ends in an orphan under the first, and a longer one in which a CreateJob for the image under
    the second succeeds all the same.
   */
  lemma OrphanArises(image: string, a: Namespace, b: Namespace) returns (acts: seq<Action>, more: seq<Action>)
    requires a.name != b.name && a.dns != b.dns && a.dns == DNSName(a.name) && b.dns == DNSName(b.name)
    requires Admitted(image, a.dns) && Admitted(image, b.dns)
    ensures Legal(Init(), acts) && Orphaned(After(Init(), acts), image, a)
    ensures Legal(Init(), more) && acts <= more
    ensures var s, s' := After(Init(), acts), After(Init(), more);
            1 !in s.calls && 1 in s'.calls && s'.calls[1] == Call(Request(image, b.name, false), Done(true))
  {
    var c;
    acts, c := Orphan(image, a, b);
    more := Elsewhere(acts, image, a, b, c);
  }

  lemma BegunRun(image: string, a: Namespace, b: Namespace) returns (acts: seq<Action>)
    requires a.name != b.name && a.dns != b.dns && a.dns == DNSName(a.name) && b.dns == DNSName(b.name)
    ensures Legal(Init(), acts)
    ensures After(Init(), acts) == At(Begun(a, b), Call(Request(image, a.name, false), LoadNamespace))
  {
    var both := BothNamespaces(a, b);
    acts := both + [Begin(0, Request(image, a.name, false))];
    Extend(both, Begin(0, Request(image, a.name, false)));
  }

  lemma Orphan(image: string, a: Namespace, b: Namespace) returns (acts: seq<Action>, c: Cluster)
    requires a.name != b.name && a.dns != b.dns && a.dns == DNSName(a.name) && b.dns == DNSName(b.name)
    requires Admitted(image, a.dns)
    ensures Legal(Init(), acts) && Orphaned(After(Init(), acts), image, a)
    ensures After(Init(), acts) == At(Begun(a, b).(cluster := c), Call(Request(image, a.name, false), Done(false)))
    ensures c.deployments.Keys == {Made(image, a.dns)}
  {
    var begun := BegunRun(image, a, b);
    var saved;
    saved, c := SevenSteps(begun, Begun(a, b), Request(image, a.name, false), a);
    RunInv(Init(), saved);
    FailedSaveOrphans(After(Init(), saved), 0, a);
    Extend(saved, Fault(0, false));
    acts := saved + [Fault(0, false)];
  }

  /** The success under the other namespace. */
  lemma Elsewhere(acts: seq<Action>, image: string, a: Namespace, b: Namespace, c: Cluster) returns (more: seq<Action>)
    requires Legal(Init(), acts) && Orphaned(After(Init(), acts), image, a)
    requires After(Init(), acts) == At(Begun(a, b).(cluster := c), Call(Request(image, a.name, false), Done(false)))
    requires a.name != b.name && a.dns != b.dns && Admitted(image, b.dns) && c.deployments.Keys == {Made(image, a.dns)}
    ensures Legal(Init(), more) && acts <= more && 1 in After(Init(), more).calls
    ensures After(Init(), more).calls[1] == Call(Request(image, b.name, false), Done(true))
  {
    RunInv(Init(), acts);
    OrphanElsewhere(After(Init(), acts), image, a, 1, Request(image, b.name, false));
    more := FollowedBy(acts, Request(image, b.name, false));
  }

  lemma FollowedBy(acts: seq<Action>, req: Request) returns (more: seq<Action>)
    requires Legal(Init(), acts) && 1 !in After(Init(), acts).calls
    requires Alone(After(Init(), acts).st, 1, Call(req, LoadNamespace)).1
    ensures Legal(Init(), more) && acts <= more && 1 in After(Init(), more).calls
    ensures After(Init(), more).calls[1] == Call(req, Done(true))
  {
    var one := BeginAlone(After(Init(), acts), 1, req);
    Concat(Init(), acts, one);
    more := acts + one;
  }

  // ---------- an orphan without any failing call ----------

  /**
    Alone and without faults: for an image without row whose generated deployment is admitted and free, a
    CreateJob succeeds exactly if no other image's row uses the name; otherwise it leaves the deployment
    and no row.
   */
  lemma NameTakenOrphans(st: Stores, id: Id, req: Request, ns: Namespace)
    requires StoresOk(st) && req.ns in st.namespaces && st.namespaces[req.ns] == ns
    requires req.image !in st.workers && Admitted(req.image, ns.dns)
        && Made(req.image, ns.dns) !in st.cluster.deployments
    ensures var (st', ok) := Alone(st, id, Call(req, LoadNamespace));
            && (ok <==> !NameTaken(st.workers, req.image, DeploymentName(req.image, ns.dns)))
            && (!ok ==> st'.workers == st.workers && st'.namespaces == st.namespaces
                        && Made(req.image, ns.dns) in st'.cluster.deployments)
  {
    CreateJobSucceedsIff(st, id, req);
    AloneStep(st, id, Call(req, LoadNamespace));
    var c := AloneNamespace(st, id, req, ns);
    SavedTooLate(st.(cluster := c), id, req, ns);
  }

  lemma SavedTooLate(st: Stores, id: Id, req: Request, ns: Namespace)
    requires req.image !in st.workers && ns.dns in st.cluster.namespaces
    requires ValidSubdomain(DeploymentName(req.image, ns.dns)) && Made(req.image, ns.dns) !in st.cluster.deployments
    ensures var (st', ok) := Alone(st, id, Call(req, LoadWorker(ns)));
            !ok ==> st'.workers == st.workers && st'.namespaces == st.namespaces
                    && Made(req.image, ns.dns) in st'.cluster.deployments
  {
    AloneStep(st, id, Call(req, LoadWorker(ns)));
    DeploySaves(st, id, req, ns);
  }

  lemma DeploySaves(st: Stores, id: Id, req: Request, ns: Namespace)
    requires ns.dns in st.cluster.namespaces
    requires ValidSubdomain(DeploymentName(req.image, ns.dns)) && Made(req.image, ns.dns) !in st.cluster.deployments
    ensures var (st', ok) := Alone(st, id, Call(req, Deploy(ns)));
            !ok ==> st' == st.(cluster := CreateDeployment(st.cluster, Made(req.image, ns.dns)).1)
  {
    AloneStep(st, id, Call(req, Deploy(ns)));
    SaveOrNothing(st.(cluster := CreateDeployment(st.cluster, Made(req.image, ns.dns)).1), id, req, ns);
  }

  lemma SaveOrNothing(st: Stores, id: Id, req: Request, ns: Namespace)
    ensures var (st', ok) := Alone(st, id, Call(req, SaveWorker(ns))); !ok ==> st' == st
  {
    AloneStep(st, id, Call(req, SaveWorker(ns)));
    if !SaveFails(st, req, ns) {
      AloneSave(StoresNext(st, id, Call(req, SaveWorker(ns))), id, req, id);
    }
  }

  /**
    That happens: under the DNS names x and x-y the images y-i and i get one deployment name.  After a job
    for i under the second, a job for y-i under the first makes an orphan, and no call ever failed on
    its way.
   */
  lemma OrphanWithoutFault(image: string, y: string, a: Namespace, b: Namespace) returns (acts: seq<Action>)
    requires a.name != b.name && a.dns == DNSName(a.name) && b.dns == DNSName(b.name)
    requires Allowed(y) && b.dns == a.dns + "-" + y && ValidLabel(a.dns) && Admitted(image, b.dns)
    ensures Legal(Init(), acts) && Undisturbed(acts) && Orphaned(After(Init(), acts), y + "-" + image, a)
  {
    ShiftedName(a.dns, y, image);
    assert |y + "-" + image| > |image| && |b.dns| > |a.dns|;
    var both := BothNamespaces(a, b);
    var first, second := Request(image, b.name, false), Request(y + "-" + image, a.name, false);
    acts := RunOne(After(Init(), both), both, 0, first, {b.name});
    acts := SecondOrphaned(acts, first, second, a, b);
  }

  lemma SecondOrphaned(acts: seq<Action>, first: Request, second: Request, a: Namespace, b: Namespace)
    returns (more: seq<Action>)
    requires Legal(Init(), acts) && Undisturbed(acts) && Inv(After(Init(), acts))
    requires After(Init(), acts).calls == map[0 := Call(first, Done(true))] && first.image != second.image
    requires second.ns == a.name && a.dns != b.dns && Admitted(second.image, a.dns)
    requires DeploymentName(second.image, a.dns) == DeploymentName(first.image, b.dns)
    requires var st := After(Init(), acts).st;
             && a.name in st.namespaces && st.namespaces[a.name] == a && st.workers.Keys == {first.image}
             && st.workers[first.image].deployment == DeploymentName(first.image, b.dns)
             && st.cluster.deployments.Keys <= {Made(first.image, b.dns)}
    ensures Legal(Init(), more) && Undisturbed(more) && Orphaned(After(Init(), more), second.image, a)
  {
    var s := After(Init(), acts);
    assert NameTaken(s.st.workers, second.image, DeploymentName(second.image, a.dns));
    NameTakenOrphans(s.st, 1, second, a);
    var one := BeginAlone(s, 1, second);
    Concat(Init(), acts, one);
    more := acts + one;
  }
}
