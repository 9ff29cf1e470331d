/** One CreateJob from beginning to end without faults or other callers: when it succeeds, and what it leaves. */
module SchedulerAlone {
  import opened Common
  import opened Kubernetes
  import opened Names
  import opened NameTheorems
  import opened Client
  import opened Scheduler
  import opened SchedulerTheorems

  /** How many calls a CreateJob has at most still to make. */
  function Left(pc: Pc): nat {
    match pc
    case LoadNamespace => 12
    case CheckNamespace(_) => 11
    case NamespacePc(_) => 10
    case QuotaPc(_) => 9
    case LimitsPc(_) => 8
    case LoadWorker(_) => 7
    case CheckWorker(_, _) => 6
    case Redeploy(_, _) => 5
    case UpdateWorker(_, _) => 4
    case Deploy(_) => 4
    case SaveWorker(_) => 3
    case SaveJob(_) => 2
    case Publish => 1
    case Done(_) => 0
  }

  lemma LeftDecreases(st: Stores, id: Id, call: Call)
    requires !call.pc.Done?
    ensures Left(PcNext(st, id, call)) < Left(call.pc)
  {
  }

  /** The stores and the result when the call runs on alone. */
  function Alone(st: Stores, id: Id, call: Call): (Stores, bool)
    decreases Left(call.pc)
  {
    if call.pc.Done? then (st, call.pc.ok)
    else
      LeftDecreases(st, id, call);
      Alone(StoresNext(st, id, call), id, call.(pc := PcNext(st, id, call)))
  }

  /** Running alone is a run of the protocol. */
  lemma {:induction false} AloneIsRun(s: State, id: Id) returns (acts: seq<Action>)
    requires id in s.calls
    ensures Legal(s, acts)
    ensures var call := s.calls[id];
            After(s, acts) == State(Alone(s.st, id, call).0, s.calls[id := call.(pc := Done(Alone(s.st, id, call).1))])
    ensures forall i :: 0 <= i < |acts| ==> acts[i] == Step(id)
    decreases Left(s.calls[id].pc)
  {
    var call := s.calls[id];
    if call.pc.Done? {
      acts := [];
      assert s.calls[id := call] == s.calls;
    } else {
      LeftDecreases(s.st, id, call);
      var rest := AloneIsRun(Apply(s, Step(id)), id);
      acts := [Step(id)] + rest;
      assert acts[1..] == rest;
    }
  }

  // ---------- when it succeeds ----------

  /** The deployment that the image's row names exists in the request's namespace. */
  predicate Deployed(st: Stores, image: string, ns: Namespace) {
    image in st.workers && Key(ns.dns, st.workers[image].deployment) in st.cluster.deployments
  }

  /** The generated deployment can be created and its name given to the image's row. */
  predicate Deployable(st: Stores, image: string, ns: Namespace) {
    && ValidSubdomain(DeploymentName(image, ns.dns))
    && Made(image, ns.dns) !in st.cluster.deployments
    && !NameTaken(st.workers, image, DeploymentName(image, ns.dns))
  }

  lemma AloneStep(st: Stores, id: Id, call: Call)
    requires !call.pc.Done?
    ensures Alone(st, id, call) == Alone(StoresNext(st, id, call), id, call.(pc := PcNext(st, id, call)))
  {
  }

  /** The last calls store the job and, with autorun, one message. */
  lemma AloneSave(st: Stores, id: Id, req: Request, worker: Id)
    ensures Alone(st, id, Call(req, SaveJob(worker))) ==
              (st.(jobs := st.jobs[id := worker], queue := st.queue + if req.autorun then [Message(id, 1)] else []),
                  true)
  {
    AloneStep(st, id, Call(req, SaveJob(worker)));
    var st' := st.(jobs := st.jobs[id := worker]);
    if req.autorun {
      AloneStep(st', id, Call(req, Publish));
    } else {
      assert st.queue + [] == st.queue;
    }
  }

  /** A missing namespace is made with quota and limit range, an existing one is left as it is. */
  predicate Equipped(c: Cluster, c': Cluster, ns: Namespace) {
    if ns.dns in c.namespaces then c'.namespaces == c.namespaces && c'.quotas == c.quotas && c'.limits == c.limits
    else && ns.dns in c'.namespaces && ns.dns in c'.quotas && ns.dns in c'.limits
         && NewObjectsFit(c, c', ns.dns, Merged(Some(ns.limits)))
  }

  /** A success leaves the image's row pointing to an existing deployment, and the job pointing to the row. */
  predicate Placed(st: Stores, st': Stores, id: Id, req: Request, ns: Namespace) {
    && Deployed(st', req.image, ns) && Equipped(st.cluster, st'.cluster, ns)
    && st.cluster.deployments.Keys <= st'.cluster.deployments.Keys
    && st'.cluster.deployments.Keys <= st.cluster.deployments.Keys + {Made(req.image, ns.dns)}
    && st'.workers.Keys == st.workers.Keys + {req.image} && st'.namespaces == st.namespaces
    && st'.jobs == st.jobs[id := st'.workers[req.image].id]
    && st'.queue == st.queue + (if req.autorun then [Message(id, 1)] else [])
    && (!Deployed(st, req.image, ns) ==> st'.workers[req.image].deployment == DeploymentName(req.image, ns.dns))
    && (req.image in st.workers ==> st'.workers[req.image].ns == st.workers[req.image].ns)
    && (req.image !in st.workers ==> st'.workers[req.image].ns == ns.name)
  }

  lemma AloneNewWorker(st: Stores, id: Id, req: Request, ns: Namespace)
    requires ns.dns in st.cluster.namespaces && req.image !in st.workers
    ensures var (st', ok) := Alone(st, id, Call(req, Deploy(ns)));
            (ok <==> Deployable(st, req.image, ns)) && (ok ==> Placed(st, st', id, req, ns))
  {
    AloneStep(st, id, Call(req, Deploy(ns)));
    if ValidSubdomain(DeploymentName(req.image, ns.dns)) && Made(req.image, ns.dns) !in st.cluster.deployments {
      var st1 := StoresNext(st, id, Call(req, Deploy(ns)));
      AloneStep(st1, id, Call(req, SaveWorker(ns)));
      if !SaveFails(st1, req, ns) {
        AloneSave(StoresNext(st1, id, Call(req, SaveWorker(ns))), id, req, id);
      }
    }
  }

  lemma AloneOldWorker(st: Stores, id: Id, req: Request, ns: Namespace)
    requires ns.dns in st.cluster.namespaces && req.image in st.workers && st.workers[req.image].image == req.image
    ensures var (st', ok) := Alone(st, id, Call(req, CheckWorker(ns, st.workers[req.image])));
            (ok <==> Deployed(st, req.image, ns) || Deployable(st, req.image, ns))
                && (ok ==> Placed(st, st', id, req, ns))
  {
    var w := st.workers[req.image];
    AloneStep(st, id, Call(req, CheckWorker(ns, w)));
    if Deployed(st, req.image, ns) {
      AloneSave(st, id, req, w.id);
    } else {
      AloneRedeploy(st, id, req, ns);
    }
  }

  lemma AloneRedeploy(st: Stores, id: Id, req: Request, ns: Namespace)
    requires ns.dns in st.cluster.namespaces && req.image in st.workers && st.workers[req.image].image == req.image
    requires !Deployed(st, req.image, ns)
    ensures var (st', ok) := Alone(st, id, Call(req, Redeploy(ns, st.workers[req.image])));
            (ok <==> Deployable(st, req.image, ns)) && (ok ==> Placed(st, st', id, req, ns))
  {
    var w := st.workers[req.image];
    AloneStep(st, id, Call(req, Redeploy(ns, w)));
    if ValidSubdomain(DeploymentName(req.image, ns.dns)) && Made(req.image, ns.dns) !in st.cluster.deployments {
      var st1 := StoresNext(st, id, Call(req, Redeploy(ns, w)));
      var w1 := w.(deployment := DeploymentName(req.image, ns.dns));
      AloneStep(st1, id, Call(req, UpdateWorker(ns, w1)));
      if !UpdateFails(st1, w1) {
        AloneSave(StoresNext(st1, id, Call(req, UpdateWorker(ns, w1))), id, req, w.id);
      }
    }
  }

  lemma AloneWorker(st: Stores, id: Id, req: Request, ns: Namespace)
    requires ns.dns in st.cluster.namespaces
    requires req.image in st.workers ==> st.workers[req.image].image == req.image
    ensures var (st', ok) := Alone(st, id, Call(req, LoadWorker(ns)));
            (ok <==> Deployed(st, req.image, ns) || Deployable(st, req.image, ns))
                && (ok ==> Placed(st, st', id, req, ns))
  {
    AloneStep(st, id, Call(req, LoadWorker(ns)));
    if req.image in st.workers {
      AloneOldWorker(st, id, req, ns);
    } else {
      AloneNewWorker(st, id, req, ns);
    }
  }

  lemma AloneApi(st: Stores, id: Id, req: Request, pc: Pc, a: ApiCall, c: Cluster, pc': Pc)
    requires ApiOf(req, pc) == Some(a) && c == Api(st.cluster, a).1 && !pc.Done?
    requires Then(st, id, req, pc, Api(st.cluster, a).0) == pc'
    ensures Alone(st, id, Call(req, pc)) == Alone(st.(cluster := c), id, Call(req, pc'))
  {
    AloneStep(st, id, Call(req, pc));
  }

  /** The cluster after the creation of a namespace with its quota and its limit range. */
  function WithNamespace(c: Cluster, ns: Namespace): Cluster {
    var l := Merged(Some(ns.limits));
    CreateLimits(CreateQuota(CreateNamespaceObject(c, ns.dns).1, ns.dns, QuotaOf(l)).1, ns.dns, RangeOf(l)).1
  }

  lemma NamespaceEquipped(c: Cluster, ns: Namespace)
    requires ValidLabel(ns.dns) && ns.dns !in c.namespaces
    ensures Equipped(c, WithNamespace(c, ns), ns) && WithNamespace(c, ns).deployments == c.deployments
  {
  }

  lemma AloneCreates(st: Stores, id: Id, req: Request, ns: Namespace)
    requires ns.dns == DNSName(ns.name) && ValidLabel(ns.dns)
    ensures Alone(st, id, Call(req, NamespacePc(ns)))
         == Alone(st.(cluster := WithNamespace(st.cluster, ns)), id, Call(req, LoadWorker(ns)))
  {
    var q, l := QuotaOf(Merged(Some(ns.limits))), RangeOf(Merged(Some(ns.limits)));
    var c1 := CreateNamespaceObject(st.cluster, ns.dns).1;
    var c2 := CreateQuota(c1, ns.dns, q).1;
    AloneApi(st, id, req, NamespacePc(ns), MakeNamespace(ns.dns), c1, QuotaPc(ns));
    AloneApi(st.(cluster := c1), id, req, QuotaPc(ns), MakeQuota(ns.dns, q), c2, LimitsPc(ns));
    AloneApi(st.(cluster := c2), id, req, LimitsPc(ns), MakeLimits(ns.dns, l), CreateLimits(c2, ns.dns, l).1,
             LoadWorker(ns));
  }

  /** If the DNS is a label, the namespace calls only add the namespace's own objects. */
  lemma AloneNamespace(st: Stores, id: Id, req: Request, ns: Namespace) returns (c: Cluster)
    requires ns.dns == DNSName(ns.name) && ValidLabel(ns.dns)
    ensures c.deployments == st.cluster.deployments && ns.dns in c.namespaces
    ensures Equipped(st.cluster, c, ns)
    ensures Alone(st, id, Call(req, CheckNamespace(ns))) == Alone(st.(cluster := c), id, Call(req, LoadWorker(ns)))
  {
    AloneStep(st, id, Call(req, CheckNamespace(ns)));
    if ns.dns in st.cluster.namespaces {
      c := st.cluster;
    } else {
      c := WithNamespace(st.cluster, ns);
      AloneCreates(st, id, req, ns);
      NamespaceEquipped(st.cluster, ns);
    }
  }

  /**
    Alone and without faults a CreateJob succeeds exactly if its namespace row exists with a label for
    its DNS, and either the image's row names a deployment that exists there, or the generated name is
    admitted, its deployment does not exist yet and no other image's row uses the name.
   */
  lemma CreateJobSucceedsIff(st: Stores, id: Id, req: Request)
    requires StoresOk(st)
    ensures var (st', ok) := Alone(st, id, Call(req, LoadNamespace));
            && (ok <==> req.ns in st.namespaces && ValidLabel(st.namespaces[req.ns].dns)
                        && (Deployed(st, req.image, st.namespaces[req.ns])
                            || Deployable(st, req.image, st.namespaces[req.ns])))
            && (ok ==> Placed(st, st', id, req, st.namespaces[req.ns]))
  {
    AloneStep(st, id, Call(req, LoadNamespace));
    if req.ns in st.namespaces {
      var ns := st.namespaces[req.ns];
      if ValidLabel(ns.dns) {
        var c := AloneNamespace(st, id, req, ns);
        AloneWorker(st.(cluster := c), id, req, ns);
      } else {
        AloneStep(st, id, Call(req, CheckNamespace(ns)));
        AloneStep(st, id, Call(req, NamespacePc(ns)));
      }
    }
  }

  /**
    An image whose generated name is that of another image's worker can get no worker in the namespace:
    CreateJob for it fails unless it already has a deployment there.  Under a DNS name of 55 characters
    or more that is every second image.
   */
  lemma CollidingImageFails(st: Stores, id: Id, req: Request, other: string)
    requires StoresOk(st) && req.ns in st.namespaces && other in st.workers && other != req.image
    requires st.workers[other].deployment == DeploymentName(other, st.namespaces[req.ns].dns)
    requires !Deployed(st, req.image, st.namespaces[req.ns])
    ensures var dns := st.namespaces[req.ns].dns;
            |dns| >= 55 || ImagePart(req.image, dns) == ImagePart(other, dns) ==>
              !Alone(st, id, Call(req, LoadNamespace)).1
  {
    CreateJobSucceedsIff(st, id, req);
    SameNameIff(other, req.image, st.namespaces[req.ns].dns);
  }

  // ---------- an image used under two namespaces ----------

  /**
    For two namespaces that give an image different admitted deployment names there is a run, with calls
    under these two only, after which the image's row belongs to the first and is named after the second.
   */
  lemma TwoNamespacesBreakNames(image: string, a: Namespace, b: Namespace) returns (acts: seq<Action>)
    requires a.name != b.name && a.dns == DNSName(a.name) && b.dns == DNSName(b.name)
    requires DeploymentName(image, a.dns) != DeploymentName(image, b.dns)
    requires Admitted(image, a.dns) && Admitted(image, b.dns)
    ensures Legal(Init(), acts) && CallsWithin(image, {a.name, b.name}, acts)
    ensures Misnamed(After(Init(), acts).st, image, a)
    ensures Made(image, a.dns) in After(Init(), acts).st.cluster.deployments
    ensures Key(a.dns, After(Init(), acts).st.workers[image].deployment) !in After(Init(), acts).st.cluster.deployments
  {
    acts := BothNamespaces(a, b);
    acts := FirstUse(acts, image, a, b);
    acts := SecondUse(acts, image, a, b);
  }

  /**
    The exact condition: in every run whose calls for the image name namespaces of `uses` the image's row
    carries the name that recovery generates, exactly if these namespaces agree on the name as far as
    they admit one.
   */
  lemma RowsNamedIff(image: string, uses: set<string>)
    ensures AlwaysNamed(image, uses) <==> Agreeing(image, uses)
  {
    if Agreeing(image, uses) {
      forall acts | Legal(Init(), acts) && CallsWithin(image, uses, acts)
        ensures OwnName(After(Init(), acts).st, image)
      {
        RunNames(Init(), acts, image, uses);
      }
    } else {
      var n, m :| n in uses && m in uses && Admitted(image, DNSName(n)) && Admitted(image, DNSName(m))
                  && DeploymentName(image, DNSName(n)) != DeploymentName(image, DNSName(m));
      var acts := Disagreement(image, n, m);
      WithinMore(image, {n, m}, uses, acts);
    }
  }

  lemma Disagreement(image: string, n: string, m: string) returns (acts: seq<Action>)
    requires Admitted(image, DNSName(n)) && Admitted(image, DNSName(m))
    requires DeploymentName(image, DNSName(n)) != DeploymentName(image, DNSName(m))
    ensures Legal(Init(), acts) && CallsWithin(image, {n, m}, acts) && !OwnName(After(Init(), acts).st, image)
  {
    var a := Namespace(n, DNSName(n), DEFAULT_LIMITS);
    acts := TwoNamespacesBreakNames(image, a, Namespace(m, DNSName(m), DEFAULT_LIMITS));
  }

  lemma WithinMore(image: string, few: set<string>, uses: set<string>, acts: seq<Action>)
    requires CallsWithin(image, few, acts) && few <= uses
    ensures CallsWithin(image, uses, acts)
  {
    forall i | 0 <= i < |acts| ensures CallWithin(image, uses, acts[i]) {
      assert CallWithin(image, few, acts[i]);
    }
  }

  lemma WithinConcat(image: string, uses: set<string>, acts: seq<Action>, more: seq<Action>)
    requires CallsWithin(image, uses, acts) && CallsWithin(image, uses, more)
    ensures CallsWithin(image, uses, acts + more)
  {
    forall i | 0 <= i < |acts + more| ensures CallWithin(image, uses, (acts + more)[i]) {
      if i >= |acts| {
        assert (acts + more)[i] == more[i - |acts|];
      }
    }
  }

  ghost predicate AlwaysNamed(image: string, uses: set<string>) {
    forall acts :: Legal(Init(), acts) && CallsWithin(image, uses, acts) ==> OwnName(After(Init(), acts).st, image)
  }

  /** The image's only row belongs to `a` and is named after it, and `b` is free. */
  predicate UsedOnce(s: State, image: string, a: Namespace, b: Namespace) {
    && s.st.namespaces == map[a.name := a, b.name := b] && s.calls.Keys == {0}
    && s.st.workers.Keys == {image} && s.st.workers[image].ns == a.name
    && s.st.workers[image].deployment == DeploymentName(image, a.dns)
    && s.st.cluster.deployments.Keys == {Made(image, a.dns)}
  }

  lemma FirstUse(acts: seq<Action>, image: string, a: Namespace, b: Namespace) returns (more: seq<Action>)
    requires a.name != b.name && Admitted(image, a.dns)
    requires Legal(Init(), acts) && Inv(After(Init(), acts))
    requires After(Init(), acts) == Init().(st := Init().st.(namespaces := map[a.name := a, b.name := b]))
    requires CallsWithin(image, {a.name, b.name}, acts)
    ensures Legal(Init(), more) && Inv(After(Init(), more)) && UsedOnce(After(Init(), more), image, a, b)
    ensures CallsWithin(image, {a.name, b.name}, more)
  {
    more := RunOne(After(Init(), acts), acts, 0, Request(image, a.name, false), {a.name, b.name});
  }

  lemma SecondUse(acts: seq<Action>, image: string, a: Namespace, b: Namespace) returns (more: seq<Action>)
    requires Legal(Init(), acts) && Inv(After(Init(), acts)) && UsedOnce(After(Init(), acts), image, a, b)
    requires a.name != b.name && a.dns != b.dns && Admitted(image, b.dns)
    requires DeploymentName(image, a.dns) != DeploymentName(image, b.dns)
    requires CallsWithin(image, {a.name, b.name}, acts)
    ensures Legal(Init(), more) && Misnamed(After(Init(), more).st, image, a)
    ensures CallsWithin(image, {a.name, b.name}, more)
    ensures Made(image, a.dns) in After(Init(), more).st.cluster.deployments
    ensures Key(a.dns, After(Init(), more).st.workers[image].deployment) !in After(Init(), more).st.cluster.deployments
  {
    var s := After(Init(), acts);
    assert !NameTaken(s.st.workers, image, DeploymentName(image, b.dns));
    more := RunOne(s, acts, 1, Request(image, b.name, false), {a.name, b.name});
  }

  /** A run that only stores the two namespace rows. */
  lemma BothNamespaces(a: Namespace, b: Namespace) returns (acts: seq<Action>)
    requires a.name != b.name && a.dns != b.dns && a.dns == DNSName(a.name) && b.dns == DNSName(b.name)
    ensures Legal(Init(), acts) && Inv(After(Init(), acts))
    ensures After(Init(), acts) == Init().(st := Init().st.(namespaces := map[a.name := a, b.name := b]))
    ensures forall i :: 0 <= i < |acts| ==> acts[i].AddNamespace?
  {
    acts := [AddNamespace(a), AddNamespace(b)];
    var s1 := Apply(Init(), AddNamespace(a));
    RunNil(Apply(s1, AddNamespace(b)), acts[1..][1..]);
    RunCons(s1, AddNamespace(b), acts[1..]);
    RunCons(Init(), AddNamespace(a), acts);
    RunInv(Init(), acts);
  }

  /** No external call fails, and nobody deletes anything. */
  predicate Undisturbed(acts: seq<Action>) {
    forall i :: 0 <= i < |acts| ==> acts[i].AddNamespace? || acts[i].Begin? || acts[i].Step?
  }

  /** One CreateJob begun and run alone, from any consistent state. */
  lemma BeginAlone(s: State, id: Id, req: Request) returns (more: seq<Action>)
    requires id !in s.calls
    ensures Legal(s, more) && forall i :: 0 <= i < |more| ==> more[i] == Begin(id, req) || more[i] == Step(id)
    ensures var (st', ok) := Alone(s.st, id, Call(req, LoadNamespace));
            After(s, more) == State(st', s.calls[id := Call(req, Done(ok))])
  {
    var alone := AloneIsRun(Apply(s, Begin(id, req)), id);
    more := [Begin(id, req)] + alone;
    assert more[1..] == alone;
    RunCons(s, Begin(id, req), more);
    var ok := Alone(s.st, id, Call(req, LoadNamespace)).1;
    assert s.calls[id := Call(req, LoadNamespace)][id := Call(req, Done(ok))] == s.calls[id := Call(req, Done(ok))];
  }

  /** Any reachable state, followed by one CreateJob run alone that succeeds. */
  lemma RunOne(s: State, acts: seq<Action>, id: Id, req: Request, uses: set<string>) returns (more: seq<Action>)
    requires Legal(Init(), acts) && After(Init(), acts) == s && Inv(s) && id !in s.calls
    requires req.ns in s.st.namespaces && ValidLabel(s.st.namespaces[req.ns].dns)
    requires Deployed(s.st, req.image, s.st.namespaces[req.ns]) || Deployable(s.st, req.image, s.st.namespaces[req.ns])
    requires CallsWithin(req.image, uses, acts) && req.ns in uses
    ensures Legal(Init(), more) && Inv(After(Init(), more)) && CallsWithin(req.image, uses, more)
    ensures Placed(s.st, After(Init(), more).st, id, req, s.st.namespaces[req.ns])
    ensures After(Init(), more).calls == s.calls[id := Call(req, Done(true))]
    ensures Undisturbed(acts) ==> Undisturbed(more)
  {
    CreateJobSucceedsIff(s.st, id, req);
    var one := BeginAlone(s, id, req);
    RunInv(s, one);
    Concat(Init(), acts, one);
    WithinConcat(req.image, uses, acts, one);
    more := acts + one;
  }

  predicate Misnamed(st: Stores, image: string, a: Namespace) {
    && image in st.workers && st.workers[image].ns == a.name && a.name in st.namespaces && st.namespaces[a.name] == a
    && st.workers[image].deployment != DeploymentName(image, a.dns)
  }

  lemma RunNil(s: State, acts: seq<Action>)
    requires acts == []
    ensures Legal(s, acts) && After(s, acts) == s
  {
  }

  lemma RunCons(s: State, a: Action, acts: seq<Action>)
    requires acts != [] && acts[0] == a && Enabled(s, a)
    ensures Legal(s, acts) == Legal(Apply(s, a), acts[1..])
    ensures Legal(s, acts) ==> After(s, acts) == After(Apply(s, a), acts[1..])
  {
  }

  lemma {:induction false} Concat(s: State, acts: seq<Action>, more: seq<Action>)
    requires Legal(s, acts) && Legal(After(s, acts), more)
    ensures Legal(s, acts + more) && After(s, acts + more) == After(After(s, acts), more)
    decreases |acts|
  {
    if acts == [] {
      assert acts + more == more;
    } else {
      Concat(Apply(s, acts[0]), acts[1..], more);
      assert (acts + more)[1..] == acts[1..] + more;
    }
  }
}
