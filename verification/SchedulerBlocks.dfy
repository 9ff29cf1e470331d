/**
  Exactly when an image becomes blocked in a namespace, and when it is freed again; and namespaces that
  are left without quota or limit range.
 */
module SchedulerBlocks {
  import opened Common
  import opened Kubernetes
  import opened Names
  import opened NameTheorems
  import opened Client
  import opened Scheduler
  import opened SchedulerTheorems
  import opened SchedulerAlone
  import opened SchedulerOrphans

  /** The generated deployment exists, and the image has no row that names a deployment existing there. */
  predicate Blocked(st: Stores, image: string, ns: Namespace) {
    Made(image, ns.dns) in st.cluster.deployments && !Deployed(st, image, ns)
  }

  /**
    Blocked is what stops jobs: where names are admitted and no other image uses the name, a CreateJob
    alone and without faults fails exactly if the image is blocked.
   */
  lemma BlockedFails(st: Stores, id: Id, req: Request, ns: Namespace)
    requires StoresOk(st) && req.ns in st.namespaces && st.namespaces[req.ns] == ns
    ensures var ok := Alone(st, id, Call(req, LoadNamespace)).1;
            && (Blocked(st, req.image, ns) ==> !ok)
            && (Admitted(req.image, ns.dns) && !NameTaken(st.workers, req.image, DeploymentName(req.image, ns.dns)) ==>
                  (!ok <==> Blocked(st, req.image, ns)))
  {
    CreateJobSucceedsIff(st, id, req);
  }

  /** The external call of the action has its effect. */
  predicate Effective(s: State, a: Action) {
    (a.Step? || (a.Fault? && a.effect)) && a.id in s.calls
  }

  /** The call creates this deployment. */
  predicate Creates(st: Stores, call: Call, k: Key) {
    ApiOf(call.req, call.pc) == Some(MakeDeployment(k)) && CreateDeployment(st.cluster, k).0.Ok?
  }

  /** The call gives the image's row the name generated for its own namespace. */
  predicate NamesRow(st: Stores, call: Call, image: string) {
    && call.req.image == image
    && ((call.pc.SaveWorker? && !SaveFails(st, call.req, call.pc.ns))
        || (call.pc.UpdateWorker? && !UpdateFails(st, call.pc.w)))
  }

  /** The row that names what exists under `ns`, or would after the generated deployment is created. */
  predicate RowFits(st: Stores, image: string, ns: Namespace) {
    Deployed(st, image, ns) || (image in st.workers && st.workers[image].deployment == DeploymentName(image, ns.dns))
  }

  /** The name a naming call gives exists under `ns`. */
  predicate NewNameExists(st: Stores, call: Call, image: string, ns: Namespace)
    requires NamesRow(st, call, image)
  {
    Key(ns.dns, DeploymentName(image, call.pc.ns.dns)) in st.cluster.deployments
  }

  // ---------- one external call ----------

  /** A Kubernetes call adds at most the deployment it creates. */
  lemma ApiDeployments(c: Cluster, a: ApiCall, k: Key)
    requires !a.SetScale?
    ensures k in Api(c, a).1.deployments <==>
            k in c.deployments || (a == MakeDeployment(k) && CreateDeployment(c, k).0.Ok?)
  {
  }

  lemma StoresDeployments(st: Stores, id: Id, call: Call, k: Key)
    ensures k in StoresNext(st, id, call).cluster.deployments <==> k in st.cluster.deployments || Creates(st, call, k)
  {
    var a := ApiOf(call.req, call.pc);
    if a.Some? {
      ApiStep(st, id, call);
      ApiDeployments(st.cluster, a.value, k);
    }
  }

  lemma StoresRow(st: Stores, id: Id, call: Call, image: string)
    requires CallOk(st, id, call)
    ensures var st' := StoresNext(st, id, call);
            if NamesRow(st, call, image) then
              image in st'.workers && st'.workers[image].deployment == DeploymentName(image, call.pc.ns.dns)
            else (image in st'.workers <==> image in st.workers)
                 && (image in st.workers ==> st'.workers[image] == st.workers[image])
  {
    if ApiOf(call.req, call.pc).Some? {
      ApiStep(st, id, call);
    }
  }

  lemma StoresBlocked(st: Stores, id: Id, call: Call, image: string, ns: Namespace)
    requires CallOk(st, id, call)
    ensures var st' := StoresNext(st, id, call);
            var k := Made(image, ns.dns);
            && (!Blocked(st, image, ns) ==>
                  (Blocked(st', image, ns) <==>
                     || (Creates(st, call, k) && !RowFits(st, image, ns))
                     || (k in st.cluster.deployments && NamesRow(st, call, image)
                         && !NewNameExists(st, call, image, ns))))
            && (Blocked(st, image, ns) ==>
                  (!Blocked(st', image, ns) <==>
                     || (NamesRow(st, call, image) && NewNameExists(st, call, image, ns))
                     || (image in st.workers && Creates(st, call, Key(ns.dns, st.workers[image].deployment)))))
  {
    StoresDeployments(st, id, call, Made(image, ns.dns));
    StoresRow(st, id, call, image);
    if image in st.workers {
      StoresDeployments(st, id, call, Key(ns.dns, st.workers[image].deployment));
    }
    if NamesRow(st, call, image) {
      StoresDeployments(st, id, call, Key(ns.dns, DeploymentName(image, call.pc.ns.dns)));
    }
  }

  // ---------- one step of a run ----------

  /** The three ways an image becomes blocked. */
  predicate Blocks(s: State, a: Action, image: string, ns: Namespace) {
    var st, k := s.st, Made(image, ns.dns);
    || (Effective(s, a) && Creates(st, s.calls[a.id], k) && !RowFits(st, image, ns))
    || (Effective(s, a) && k in st.cluster.deployments && NamesRow(st, s.calls[a.id], image)
        && !NewNameExists(st, s.calls[a.id], image, ns))
    || (k in st.cluster.deployments && image in st.workers && st.workers[image].deployment != k.name
        && a == RemoveDeployment(Key(ns.dns, st.workers[image].deployment)))
  }

  /** The ways it is freed. */
  predicate Frees(s: State, a: Action, image: string, ns: Namespace) {
    var st := s.st;
    || a == RemoveDeployment(Made(image, ns.dns)) || a == RemoveNamespace(ns.dns)
    || (Effective(s, a) && NamesRow(st, s.calls[a.id], image) && NewNameExists(st, s.calls[a.id], image, ns))
    || (Effective(s, a) && image in st.workers
        && Creates(st, s.calls[a.id], Key(ns.dns, st.workers[image].deployment)))
  }

  /**
    In every reachable state: an image becomes blocked in a namespace exactly when its generated deployment
    is created there while no row names it, when a call gives its row a name that does not exist there,
    or when the deployment its row names is deleted and the generated one is another; it is freed exactly
    when the generated deployment goes, when a call gives its row a name that exists there, or when the
    deployment its row names is created.
   */
  lemma BlockedIff(acts: seq<Action>, a: Action, image: string, ns: Namespace)
    requires Legal(Init(), acts) && Enabled(After(Init(), acts), a)
    ensures var s := After(Init(), acts);
            if Blocked(s.st, image, ns) then !Blocked(Apply(s, a).st, image, ns) <==> Frees(s, a, image, ns)
            else Blocked(Apply(s, a).st, image, ns) <==> Blocks(s, a, image, ns)
  {
    RunInv(Init(), acts);
    var s := After(Init(), acts);
    if a.Step? || a.Fault? {
      assert CallOk(s.st, a.id, s.calls[a.id]);
      StoresBlocked(s.st, a.id, s.calls[a.id], image, ns);
    }
  }

  /**
    So an image used under a second namespace with another name is blocked in the first: there is a run
    with two successful jobs after which every further job for the image under the first fails.
   */
  lemma SecondNamespaceBlocksFirst(image: string, a: Namespace, b: Namespace, id: Id) returns (acts: seq<Action>)
    requires a.name != b.name && a.dns == DNSName(a.name) && b.dns == DNSName(b.name)
    requires DeploymentName(image, a.dns) != DeploymentName(image, b.dns)
    requires Admitted(image, a.dns) && Admitted(image, b.dns)
    ensures Legal(Init(), acts) && CallsWithin(image, {a.name, b.name}, acts)
    ensures var st := After(Init(), acts).st;
            Blocked(st, image, a) && !Alone(st, id, Call(Request(image, a.name, false), LoadNamespace)).1
  {
    acts := TwoNamespacesBreakNames(image, a, b);
    RunInv(Init(), acts);
    BlockedFails(After(Init(), acts).st, id, Request(image, a.name, false), a);
  }

  // ---------- namespaces without quota or limit range ----------

  predicate Complete(c: Cluster, dns: string) {
    dns in c.quotas && dns in c.limits
  }

  /** The call is in the middle of creating the namespace. */
  predicate Creating(call: Call, dns: string) {
    (call.pc.NamespacePc? || call.pc.QuotaPc? || call.pc.LimitsPc?) && DNSName(call.pc.ns.name) == dns
  }

  /** The namespace is there without quota or limit range, and no call is about to make them. */
  ghost predicate Unfinished(s: State, dns: string) {
    && dns in s.st.cluster.namespaces && !Complete(s.st.cluster, dns)
    && forall id :: id in s.calls ==> !Creating(s.calls[id], dns)
  }

  /** Only a creating call touches the namespace's own objects. */
  lemma StoresNamespace(st: Stores, id: Id, call: Call, dns: string)
    requires !Creating(call, dns)
    ensures var c, c' := st.cluster, StoresNext(st, id, call).cluster;
            && (dns in c'.namespaces <==> dns in c.namespaces)
            && (Complete(c', dns) <==> Complete(c, dns))
  {
    if ApiOf(call.req, call.pc).Some? {
      ApiStep(st, id, call);
    }
  }

  /** A call that finds the namespace does not begin to create it. */
  lemma NoNewCreator(st: Stores, id: Id, call: Call, dns: string)
    requires NamespacesOk(st) && CallOk(st, id, call) && dns in st.cluster.namespaces && !Creating(call, dns)
    ensures !Creating(call.(pc := PcNext(st, id, call)), dns)
  {
  }

  lemma StepUnfinished(s: State, a: Action, dns: string)
    requires Inv(s) && Unfinished(s, dns) && Enabled(s, a) && a != RemoveNamespace(dns)
    ensures Unfinished(Apply(s, a), dns)
  {
    if a.Step? || a.Fault? {
      assert CallOk(s.st, a.id, s.calls[a.id]);
      StoresNamespace(s.st, a.id, s.calls[a.id], dns);
      NoNewCreator(s.st, a.id, s.calls[a.id], dns);
    }
  }

  /** Jobs never complete such a namespace: it stays so until somebody deletes it. */
  lemma {:induction false} UnfinishedForGood(s: State, acts: seq<Action>, dns: string)
    requires Inv(s) && Unfinished(s, dns) && Legal(s, acts)
    requires forall i :: 0 <= i < |acts| ==> acts[i] != RemoveNamespace(dns)
    ensures Unfinished(After(s, acts), dns)
    decreases |acts|
  {
    if acts != [] {
      StepInv(s, acts[0]);
      StepUnfinished(s, acts[0], dns);
      UnfinishedForGood(Apply(s, acts[0]), acts[1..], dns);
    }
  }

  /** The last call that was creating the namespace ends, and the namespace is there and not complete. */
  ghost predicate LastCreatorGivesUp(s: State, a: Action, dns: string)
    requires Enabled(s, a)
  {
    && (a.Step? || a.Fault?) && Creating(s.calls[a.id], dns) && !Creating(Apply(s, a).calls[a.id], dns)
    && (forall id :: id in s.calls && id != a.id ==> !Creating(s.calls[id], dns))
    && dns in Apply(s, a).st.cluster.namespaces && !Complete(Apply(s, a).st.cluster, dns)
  }

  /** In every reachable state that is exactly how a namespace gets unfinished. */
  lemma UnfinishedIff(acts: seq<Action>, a: Action, dns: string)
    requires Legal(Init(), acts) && Enabled(After(Init(), acts), a) && !Unfinished(After(Init(), acts), dns)
    ensures var s := After(Init(), acts); Unfinished(Apply(s, a), dns) <==> LastCreatorGivesUp(s, a, dns)
  {
    RunInv(Init(), acts);
    var s := After(Init(), acts);
    var s' := Apply(s, a);
    forall id | id in s.calls && (!(a.Step? || a.Fault?) || id != a.id) ensures s'.calls[id] == s.calls[id] {
    }
    if a.Step? || a.Fault? {
      assert CallOk(s.st, a.id, s.calls[a.id]);
      if !Creating(s.calls[a.id], dns) {
        StoresNamespace(s.st, a.id, s.calls[a.id], dns);
      }
    }
  }

  /** A call in the middle of creating the namespace has made what comes before. */
  predicate SoFarMade(c: Cluster, call: Call, dns: string) {
    && (Creating(call, dns) && !call.pc.NamespacePc? ==> dns in c.namespaces)
    && (Creating(call, dns) && call.pc.LimitsPc? ==> dns in c.quotas)
  }

  ghost predicate AllSoFarMade(s: State, dns: string) {
    forall id :: id in s.calls ==> SoFarMade(s.st.cluster, s.calls[id], dns)
  }

  /** An answered creation leads on with its object there, or its name is no label. */
  lemma CreationMeaning(st: Stores, id: Id, call: Call, dns: string)
    requires Creating(call, dns) && SoFarMade(st.cluster, call, dns)
    ensures var c', pc' := StoresNext(st, id, call).cluster, PcNext(st, id, call);
            && (call.pc.NamespacePc? ==> if ValidLabel(dns) then pc' == QuotaPc(call.pc.ns) && dns in c'.namespaces
                                         else pc' == Done(false))
            && (call.pc.QuotaPc? ==> pc' == LimitsPc(call.pc.ns) && dns in c'.quotas && dns in c'.namespaces)
            && (call.pc.LimitsPc? ==> pc' == LoadWorker(call.pc.ns) && Complete(c', dns) && dns in c'.namespaces)
  {
    ApiStep(st, id, call);
  }

  /** Apart from its deletion, what a namespace has it keeps. */
  lemma ObjectsKept(st: Stores, id: Id, call: Call, dns: string)
    ensures var c, c' := st.cluster, StoresNext(st, id, call).cluster;
            && (dns in c.namespaces ==> dns in c'.namespaces)
            && (dns in c.quotas ==> dns in c'.quotas) && (dns in c.limits ==> dns in c'.limits)
  {
    if ApiOf(call.req, call.pc).Some? {
      ApiStep(st, id, call);
    }
  }

  lemma OwnSoFarMade(st: Stores, id: Id, call: Call, dns: string)
    requires SoFarMade(st.cluster, call, dns)
    ensures SoFarMade(StoresNext(st, id, call).cluster, call.(pc := PcNext(st, id, call)), dns)
  {
    if Creating(call, dns) {
      CreationMeaning(st, id, call, dns);
    } else {
      NotInTheMiddle(st, id, call, dns);
    }
  }

  /** Who was not creating the namespace can only be at its beginning. */
  lemma NotInTheMiddle(st: Stores, id: Id, call: Call, dns: string)
    requires !Creating(call, dns)
    ensures var call' := call.(pc := PcNext(st, id, call)); Creating(call', dns) ==> call'.pc.NamespacePc?
  {
  }

  lemma SoFarKept(c: Cluster, c': Cluster, call: Call, dns: string)
    requires SoFarMade(c, call, dns) && (dns in c.namespaces ==> dns in c'.namespaces)
        && (dns in c.quotas ==> dns in c'.quotas)
    ensures SoFarMade(c', call, dns)
  {
  }

  lemma StepSoFarMade(s: State, a: Action, dns: string)
    requires AllSoFarMade(s, dns) && Enabled(s, a) && a != RemoveNamespace(dns)
    ensures AllSoFarMade(Apply(s, a), dns)
  {
    var s' := Apply(s, a);
    if a.Step? || a.Fault? {
      ObjectsKept(s.st, a.id, s.calls[a.id], dns);
      OwnSoFarMade(s.st, a.id, s.calls[a.id], dns);
    }
    forall id | id in s'.calls && id in s.calls && (!(a.Step? || a.Fault?) || id != a.id)
      ensures SoFarMade(s'.st.cluster, s'.calls[id], dns)
    {
      SoFarKept(s.st.cluster, s'.st.cluster, s.calls[id], dns);
    }
  }

  lemma {:induction false} RunSoFarMade(s: State, acts: seq<Action>, dns: string)
    requires Inv(s) && AllSoFarMade(s, dns) && Legal(s, acts)
    requires forall i :: 0 <= i < |acts| ==> acts[i] != RemoveNamespace(dns)
    ensures Inv(After(s, acts)) && AllSoFarMade(After(s, acts), dns)
    decreases |acts|
  {
    if acts != [] {
      StepInv(s, acts[0]);
      StepSoFarMade(s, acts[0], dns);
      RunSoFarMade(Apply(s, acts[0]), acts[1..], dns);
    }
  }

  /**
    If nobody deletes the namespace, a call that was creating it and is answered either goes on, or ends
    the creation with namespace, quota and limit range all there, or was refused the namespace, exactly
    where its name is no label.  So only a fault leaves a namespace unfinished.
   */
  lemma CreatorCompletes(acts: seq<Action>, id: Id, dns: string)
    requires Legal(Init(), acts) && forall i :: 0 <= i < |acts| ==> acts[i] != RemoveNamespace(dns)
    requires Enabled(After(Init(), acts), Step(id)) && Creating(After(Init(), acts).calls[id], dns)
    ensures var s' := Apply(After(Init(), acts), Step(id));
            && (s'.calls[id].pc == Done(false) <==> !ValidLabel(dns))
            && (!Creating(s'.calls[id], dns) && s'.calls[id].pc != Done(false) ==>
                  dns in s'.st.cluster.namespaces && dns in s'.st.cluster.quotas && dns in s'.st.cluster.limits)
            && !(Unfinished(s', dns) && !Unfinished(After(Init(), acts), dns))
  {
    RunSoFarMade(Init(), acts, dns);
    var s := After(Init(), acts);
    assert SoFarMade(s.st.cluster, s.calls[id], dns);
    CreationMeaning(s.st, id, s.calls[id], dns);
    assert StoresOk(s.st) && LabelsOk(s.st.cluster);
  }

  /** The row the object was made for. */
  ghost predicate FromRow(st: Stores, dns: string, quota: Option<Quota>, range: Option<Range>) {
    exists n :: n in st.namespaces && st.namespaces[n].dns == dns
                && var l := Merged(Some(st.namespaces[n].limits));
                   && (quota.Some? ==> quota.value == Quota(l.maxPods, l.cpuRequestMilli, l.cpuLimitMilli,
                       l.memoryRequestMB, l.memoryLimitMB))
                   && (range.Some? ==> range.value == Range(l.cpuRequestMilli, l.cpuLimitMilli,
                       l.memoryRequestMB, l.memoryLimitMB))
  }

  ghost predicate ObjectsFit(st: Stores) {
    && (forall dns :: dns in st.cluster.quotas ==> FromRow(st, dns, Some(st.cluster.quotas[dns]), None))
    && (forall dns :: dns in st.cluster.limits ==> FromRow(st, dns, None, Some(st.cluster.limits[dns])))
  }

  /** Only the two creations touch these objects, and with the figures of the row the call has loaded. */
  lemma MadeFor(st: Stores, id: Id, call: Call, dns: string)
    ensures var c, c' := st.cluster, StoresNext(st, id, call).cluster;
            && StoresNext(st, id, call).namespaces == st.namespaces
            && (dns in c'.quotas ==>
                  if dns in c.quotas then c'.quotas[dns] == c.quotas[dns]
                  else call.pc.QuotaPc? && dns == DNSName(call.pc.ns.name)
                       && c'.quotas[dns] == QuotaOf(Merged(Some(call.pc.ns.limits))))
            && (dns in c'.limits ==>
                  if dns in c.limits then c'.limits[dns] == c.limits[dns]
                  else call.pc.LimitsPc? && dns == DNSName(call.pc.ns.name)
                       && c'.limits[dns] == RangeOf(Merged(Some(call.pc.ns.limits))))
  {
    if ApiOf(call.req, call.pc).Some? {
      ApiStep(st, id, call);
    }
  }

  lemma StoresObjects(s: State, id: Id)
    requires Inv(s) && ObjectsFit(s.st) && id in s.calls
    ensures ObjectsFit(StoresNext(s.st, id, s.calls[id]))
  {
    var call := s.calls[id];
    var st' := StoresNext(s.st, id, call);
    assert CallOk(s.st, id, call) && NamespacesOk(s.st);
    forall dns | dns in st'.cluster.quotas ensures FromRow(st', dns, Some(st'.cluster.quotas[dns]), None) {
      MadeFor(s.st, id, call, dns);
      if dns in s.st.cluster.quotas {
        SameRows(s.st, st', dns, Some(s.st.cluster.quotas[dns]), None);
      } else {
        assert s.st.namespaces[call.req.ns].dns == dns;
      }
    }
    forall dns | dns in st'.cluster.limits ensures FromRow(st', dns, None, Some(st'.cluster.limits[dns])) {
      MadeFor(s.st, id, call, dns);
      if dns in s.st.cluster.limits {
        SameRows(s.st, st', dns, None, Some(s.st.cluster.limits[dns]));
      } else {
        assert s.st.namespaces[call.req.ns].dns == dns;
      }
    }
  }

  lemma SameRows(st: Stores, st': Stores, dns: string, quota: Option<Quota>, range: Option<Range>)
    requires FromRow(st, dns, quota, range) && forall n :: n in st.namespaces ==>
               n in st'.namespaces && st'.namespaces[n] == st.namespaces[n]
    ensures FromRow(st', dns, quota, range)
  {
  }

  lemma StepObjects(s: State, a: Action)
    requires Inv(s) && ObjectsFit(s.st) && Enabled(s, a)
    ensures ObjectsFit(Apply(s, a).st)
  {
    if a.Step? || a.Fault? {
      StoresObjects(s, a.id);
    } else if a.AddNamespace? {
      forall dns, q, l | FromRow(s.st, dns, q, l) ensures FromRow(Apply(s, a).st, dns, q, l) {
        SameRows(s.st, Apply(s, a).st, dns, q, l);
      }
    }
  }

  lemma {:induction false} RunObjects(s: State, acts: seq<Action>)
    requires Inv(s) && ObjectsFit(s.st) && Legal(s, acts)
    ensures ObjectsFit(After(s, acts).st)
    decreases |acts|
  {
    if acts != [] {
      StepInv(s, acts[0]);
      StepObjects(s, acts[0]);
      RunObjects(Apply(s, acts[0]), acts[1..]);
    }
  }

  /**
    In every run each quota and each limit range in the cluster has the figures of the one row with its DNS,
    merged with the defaults.
   */
  lemma ObjectsHaveTheirRowsFigures(acts: seq<Action>, dns: string)
    requires Legal(Init(), acts)
    ensures var st := After(Init(), acts).st;
            && (dns in st.cluster.quotas ==> FromRow(st, dns, Some(st.cluster.quotas[dns]), None))
            && (dns in st.cluster.limits ==> FromRow(st, dns, None, Some(st.cluster.limits[dns])))
    ensures var st := After(Init(), acts).st;
            forall m, n :: m in st.namespaces && n in st.namespaces && st.namespaces[m].dns == st.namespaces[n].dns ==>
                             m == n
  {
    RunObjects(Init(), acts);
    RunRowsDiffer(Init(), acts);
  }

  ghost predicate RowsDiffer(st: Stores) {
    forall m, n :: m in st.namespaces && n in st.namespaces && st.namespaces[m].dns == st.namespaces[n].dns ==> m == n
  }

  lemma {:induction false} RunRowsDiffer(s: State, acts: seq<Action>)
    requires RowsDiffer(s.st) && Legal(s, acts)
    ensures RowsDiffer(After(s, acts).st)
    decreases |acts|
  {
    if acts != [] {
      assert acts[0].AddNamespace? || Apply(s, acts[0]).st.namespaces == s.st.namespaces;
      RunRowsDiffer(Apply(s, acts[0]), acts[1..]);
    }
  }

  /** It happens: the namespace of a first job is made and the creation of its quota fails. */
  lemma UnfinishedArises(image: string, a: Namespace, b: Namespace) returns (acts: seq<Action>)
    requires a.name != b.name && a.dns != b.dns && a.dns == DNSName(a.name) && b.dns == DNSName(b.name)
    requires ValidLabel(a.dns)
    ensures Legal(Init(), acts) && Inv(After(Init(), acts)) && Unfinished(After(Init(), acts), a.dns)
  {
    var req, st := Request(image, a.name, false), Begun(a, b);
    var c := CreateNamespaceObject(st.cluster, a.dns).1;
    acts := BegunRun(image, a, b);
    acts := TwoSteps(acts, st, req, a);
    acts := KubeStep(acts, st, req, NamespacePc(a), MakeNamespace(a.dns), c, QuotaPc(a));
    Extend(acts, Fault(0, false));
    acts := acts + [Fault(0, false)];
    RunInv(Init(), acts);
  }
}
