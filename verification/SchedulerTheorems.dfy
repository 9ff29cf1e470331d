/** What holds of every run of the scheduler, when a CreateJob succeeds, and where it cannot any more. */
module SchedulerTheorems {
  import opened Common
  import opened Kubernetes
  import opened Names
  import opened NameTheorems
  import opened Client
  import opened Scheduler

  /**
    With a failure possible at every external call and any number of calls at once: every job row
    refers to a stored worker and every message to a stored job, a successful autorun call has put
    exactly one message with attempt 1 into the queue, and no other call has put any.
   */
  lemma CreateJobKeepsStores(acts: seq<Action>)
    requires Legal(Init(), acts)
    ensures var s := After(Init(), acts);
            && (forall j :: j in s.st.jobs ==> HasWorker(s.st.workers, s.st.jobs[j]))
            && (forall m :: m in s.st.queue ==> m.job in s.st.jobs && m.attempt == 1)
            && (forall id :: id in s.calls ==>
                  && (s.calls[id].pc == Done(true) ==> id in s.st.jobs)
                  && Sent(s.st.queue, id) == if s.calls[id].pc == Done(true) && s.calls[id].req.autorun then 1 else 0)
  {
    RunInv(Init(), acts);
    var s := After(Init(), acts);
    forall id | id in s.calls
      ensures s.calls[id].pc == Done(true) ==> id in s.st.jobs
      ensures Sent(s.st.queue, id) == if s.calls[id].pc == Done(true) && s.calls[id].req.autorun then 1 else 0
    {
      assert CallOk(s.st, id, s.calls[id]);
    }
  }

  // ---------- deployment names ----------

  /** The calls for the image name namespaces in `uses` only. */
  predicate CallsWithin(image: string, uses: set<string>, acts: seq<Action>) {
    forall i :: 0 <= i < |acts| ==> CallWithin(image, uses, acts[i])
  }

  predicate CallWithin(image: string, uses: set<string>, a: Action) {
    a.Begin? && a.req.image == image ==> a.req.ns in uses
  }

  /** All namespaces of `uses` that admit the image's generated name give it the same one. */
  predicate Agreeing(image: string, uses: set<string>) {
    forall n, m :: n in uses && m in uses && Admitted(image, DNSName(n)) && Admitted(image, DNSName(m)) ==>
      DeploymentName(image, DNSName(n)) == DeploymentName(image, DNSName(m))
  }

  /** The image's row, if it has one, carries the name generated for its own namespace. */
  predicate OwnName(st: Stores, image: string) {
    image in st.workers ==>
      var w := st.workers[image];
      w.ns in st.namespaces && w.deployment == DeploymentName(image, st.namespaces[w.ns].dns)
  }

  /** Besides, the namespace is one of `uses` and admits the name. */
  predicate WellNamed(st: Stores, image: string, uses: set<string>) {
    && OwnName(st, image)
    && (image in st.workers ==>
          var w := st.workers[image];
          w.ns in uses && w.ns in st.namespaces && Admitted(image, st.namespaces[w.ns].dns))
  }

  ghost predicate NamesOk(s: State, image: string, uses: set<string>) {
    && (forall id :: id in s.calls && s.calls[id].req.image == image ==> s.calls[id].req.ns in uses)
    && WellNamed(s.st, image, uses)
  }

  /** The two writes of the workers table give the name of the call's namespace, which is the row's own. */
  lemma StoresNames(st: Stores, id: Id, call: Call, image: string, uses: set<string>)
    requires NamespacesOk(st) && CallOk(st, id, call) && Agreeing(image, uses) && WellNamed(st, image, uses)
    requires call.req.image == image ==> call.req.ns in uses
    ensures WellNamed(StoresNext(st, id, call), image, uses)
  {
    if ApiOf(call.req, call.pc).Some? {
      ApiStep(st, id, call);
    } else if call.pc.UpdateWorker? && call.req.image == image {
      var w := st.workers[image];
      assert st.namespaces[w.ns].dns == DNSName(w.ns) && st.namespaces[call.req.ns].dns == DNSName(call.req.ns);
    }
  }

  lemma StepNames(s: State, a: Action, image: string, uses: set<string>)
    requires Inv(s) && NamesOk(s, image, uses) && Agreeing(image, uses) && Enabled(s, a) && CallWithin(image, uses, a)
    ensures NamesOk(Apply(s, a), image, uses)
  {
    if a.Step? || a.Fault? {
      StoresNames(s.st, a.id, s.calls[a.id], image, uses);
    }
  }

  lemma {:induction false} RunNames(s: State, acts: seq<Action>, image: string, uses: set<string>)
    requires Inv(s) && NamesOk(s, image, uses) && Agreeing(image, uses) && Legal(s, acts)
        && CallsWithin(image, uses, acts)
    ensures Inv(After(s, acts)) && NamesOk(After(s, acts), image, uses)
    decreases |acts|
  {
    if acts != [] {
      assert CallWithin(image, uses, acts[0]);
      StepInv(s, acts[0]);
      StepNames(s, acts[0], image, uses);
      RunNames(Apply(s, acts[0]), acts[1..], image, uses);
    }
  }

  /**
    If the namespaces an image is used under agree on its deployment name, as far as they admit one,
    then in every reachable state its row carries the name that recovery would generate from the
    row's namespace, and the API server admits it.
   */
  lemma RowsNamed(acts: seq<Action>, image: string, uses: set<string>)
    requires Legal(Init(), acts) && CallsWithin(image, uses, acts) && Agreeing(image, uses)
    requires image in After(Init(), acts).st.workers
    ensures var st := After(Init(), acts).st; var w := st.workers[image];
            && w.ns in uses && w.ns in st.namespaces
            && st.namespaces[w.ns].dns == DNSName(w.ns) == DNSName(st.namespaces[w.ns].name)
            && Key(st.namespaces[w.ns].dns, w.deployment) == Made(image, st.namespaces[w.ns].dns)
            && Admitted(image, st.namespaces[w.ns].dns)
  {
    RunNames(Init(), acts, image, uses);
  }

  /** In particular if the image is used under one namespace. */
  lemma RowsMatchRecovery(acts: seq<Action>, image: string, home: string)
    requires Legal(Init(), acts) && CallsWithin(image, {home}, acts)
    requires image in After(Init(), acts).st.workers
    ensures var st := After(Init(), acts).st; var w := st.workers[image];
            && w.ns == home && home in st.namespaces && st.namespaces[home].dns == DNSName(home)
            && Key(DNSName(home), w.deployment) == Made(image, DNSName(home))
            && Admitted(image, DNSName(home))
  {
    RowsNamed(acts, image, {home});
  }

  /**
    So after any external deletions a worker can be woken: ScaleWorker, run alone and without
    faults on the cluster `left`, succeeds on every worker whose image's namespaces agree.
   */
  method RecoveryWorks(ghost acts: seq<Action>, image: string, ghost uses: set<string>, w: Worker, ns: Namespace,
                       left: Cluster, max: int)
    returns (ok: bool, after: Cluster)
    requires Legal(Init(), acts) && CallsWithin(image, uses, acts) && Agreeing(image, uses)
    requires image in After(Init(), acts).st.workers && w == After(Init(), acts).st.workers[image]
    requires w.ns in After(Init(), acts).st.namespaces && ns == After(Init(), acts).st.namespaces[w.ns]
    requires 1 <= ToInt32(max)
    ensures ok && Key(ns.dns, w.deployment) in after.deployments
    ensures var before := CountOr0(left, Key(ns.dns, w.deployment));
            CountOr0(after, Key(ns.dns, w.deployment)) == if before == 0 then 1 else before
  {
    RowsNamed(acts, image, uses);
    var client := new Client(left, (_: nat) => Answered);
    ok := client.ScaleWorker(Key(ns.dns, w.deployment), ns, image, max, 1, true, true);
    after := client.cluster;
  }

  // ---------- the one step that gives a row another namespace's name ----------

  /** The call is about to give the image's row the name of a namespace where it differs from the row's. */
  predicate Renames(st: Stores, call: Call, image: string) {
    && call.pc.UpdateWorker? && call.req.image == image && image in st.workers && !UpdateFails(st, call.pc.w)
    && DeploymentName(image, call.pc.ns.dns) != st.workers[image].deployment
  }

  lemma StoresMisname(st: Stores, id: Id, call: Call, image: string)
    requires NamespacesOk(st) && CallOk(st, id, call) && OwnName(st, image)
    ensures !OwnName(StoresNext(st, id, call), image) <==> Renames(st, call, image)
  {
    if ApiOf(call.req, call.pc).Some? {
      ApiStep(st, id, call);
    }
  }

  /**
    In every reachable state a well-named row becomes misnamed exactly by an effective update of a call
    for its image under a namespace that generates another name than the row carries.
   */
  lemma MisnamedIff(acts: seq<Action>, a: Action, image: string)
    requires Legal(Init(), acts) && Enabled(After(Init(), acts), a) && OwnName(After(Init(), acts).st, image)
    ensures var s := After(Init(), acts);
            !OwnName(Apply(s, a).st, image) <==>
            (a.Step? || (a.Fault? && a.effect)) && Renames(s.st, s.calls[a.id], image)
  {
    RunInv(Init(), acts);
    var s := After(Init(), acts);
    if a.Step? || a.Fault? {
      StoresMisname(s.st, a.id, s.calls[a.id], image);
    }
  }
}
