/** The Kubernetes client's own methods, run one at a time against a cluster whose calls may fail. */
module Client {
  import opened Common
  import opened Kubernetes
  import opened Names
  import opened NameTheorems

  datatype Limits = Limits(
    maxWorkers: int, maxConcurrentJobs: int, maxPods: int,
    cpuRequestMilli: int, cpuLimitMilli: int, memoryRequestMB: int, memoryLimitMB: int)

  /** A row of the namespaces table. */
  datatype Namespace = Namespace(name: string, dns: string, limits: Limits)

  const DEFAULT_LIMITS := Limits(10, 50, 20, 100, 500, 256, 512)

  function Positive(ops: int, default: int): int {
    if ops > 0 then ops else default
  }

  /** Each limit is the row's if that is positive, else the default. */
  function Merged(ops: Option<Limits>): Limits {
    if ops.None? then DEFAULT_LIMITS
    else
      var o, d := ops.value, DEFAULT_LIMITS;
      Limits(Positive(o.maxWorkers, d.maxWorkers), Positive(o.maxConcurrentJobs, d.maxConcurrentJobs),
             Positive(o.maxPods, d.maxPods), Positive(o.cpuRequestMilli, d.cpuRequestMilli),
             Positive(o.cpuLimitMilli, d.cpuLimitMilli), Positive(o.memoryRequestMB, d.memoryRequestMB),
             Positive(o.memoryLimitMB, d.memoryLimitMB))
  }

  /** The merge told field by field, with the default figures. */
  lemma MergedFields(ops: Option<Limits>)
    ensures ops.None? ==> Merged(ops) == Limits(10, 50, 20, 100, 500, 256, 512)
    ensures ops.Some? ==>
              var l, o := Merged(ops), ops.value;
              && l.maxWorkers == (if o.maxWorkers > 0 then o.maxWorkers else 10)
              && l.maxConcurrentJobs == (if o.maxConcurrentJobs > 0 then o.maxConcurrentJobs else 50)
              && l.maxPods == (if o.maxPods > 0 then o.maxPods else 20)
              && l.cpuRequestMilli == (if o.cpuRequestMilli > 0 then o.cpuRequestMilli else 100)
              && l.cpuLimitMilli == (if o.cpuLimitMilli > 0 then o.cpuLimitMilli else 500)
              && l.memoryRequestMB == (if o.memoryRequestMB > 0 then o.memoryRequestMB else 256)
              && l.memoryLimitMB == (if o.memoryLimitMB > 0 then o.memoryLimitMB else 512)
  {
  }

  predicate AllPositive(l: Limits) {
    && l.maxWorkers > 0 && l.maxConcurrentJobs > 0 && l.maxPods > 0
    && l.cpuRequestMilli > 0 && l.cpuLimitMilli > 0 && l.memoryRequestMB > 0 && l.memoryLimitMB > 0
  }

  /** Every limit that reaches the cluster is positive, and a complete row is taken over as it is. */
  lemma MergedPositive(ops: Option<Limits>)
    ensures AllPositive(Merged(ops))
    ensures ops.Some? ==> (Merged(ops) == ops.value <==> AllPositive(ops.value))
  {
  }

  /** The field by field merge at the beginning of `CreateNamespace`. */
  method MergeLimits(ops: Option<Limits>) returns (limits: Limits)
    ensures limits == Merged(ops)
  {
    limits := DEFAULT_LIMITS;
    if ops.Some? {
      if ops.value.maxWorkers > 0 {
        limits := limits.(maxWorkers := ops.value.maxWorkers);
      }
      if ops.value.maxConcurrentJobs > 0 {
        limits := limits.(maxConcurrentJobs := ops.value.maxConcurrentJobs);
      }
      if ops.value.maxPods > 0 {
        limits := limits.(maxPods := ops.value.maxPods);
      }
      if ops.value.cpuRequestMilli > 0 {
        limits := limits.(cpuRequestMilli := ops.value.cpuRequestMilli);
      }
      if ops.value.cpuLimitMilli > 0 {
        limits := limits.(cpuLimitMilli := ops.value.cpuLimitMilli);
      }
      if ops.value.memoryRequestMB > 0 {
        limits := limits.(memoryRequestMB := ops.value.memoryRequestMB);
      }
      if ops.value.memoryLimitMB > 0 {
        limits := limits.(memoryLimitMB := ops.value.memoryLimitMB);
      }
    }
  }

  /** The quota of a namespace with these limits. */
  function QuotaOf(l: Limits): Quota {
    Quota(l.maxPods, l.cpuRequestMilli, l.cpuLimitMilli, l.memoryRequestMB, l.memoryLimitMB)
  }

  function RangeOf(l: Limits): Range {
    Range(l.cpuRequestMilli, l.cpuLimitMilli, l.memoryRequestMB, l.memoryLimitMB)
  }

  /** The fate of one API call: answered, or failed with or without its effect. */
  datatype Fault = Answered | Lost(effect: bool)

  function Made(image: string, dns: string): Key {
    Key(dns, DeploymentName(image, dns))
  }

  /** The API server admits both names. */
  predicate Admitted(image: string, dns: string) {
    ValidLabel(dns) && ValidSubdomain(DeploymentName(image, dns))
  }

  /** The namespace is there and the generated name is admitted. */
  predicate Usable(c: Cluster, dns: string, image: string) {
    dns in c.namespaces && ValidSubdomain(DeploymentName(image, dns))
  }

  ghost predicate Preserved<K, V>(m: map<K, V>, m': map<K, V>) {
    forall k :: k in m ==> k in m' && m'[k] == m[k]
  }

  /** Nothing that was there is gone or has changed. */
  ghost predicate Kept(c: Cluster, c': Cluster) {
    && c.namespaces <= c'.namespaces
    && Preserved(c.quotas, c'.quotas) && Preserved(c.limits, c'.limits) && Preserved(c.deployments, c'.deployments)
  }

  lemma KeptTwice(c: Cluster, c': Cluster, c'': Cluster)
    requires Kept(c, c') && Kept(c', c'')
    ensures Kept(c, c'')
  {
  }

  /** A quota and a limit range that were made have the figures of the limits. */
  predicate NewObjectsFit(c: Cluster, c': Cluster, dns: string, l: Limits) {
    && (dns in c'.quotas && dns !in c.quotas ==>
          c'.quotas[dns] == Quota(l.maxPods, l.cpuRequestMilli, l.cpuLimitMilli, l.memoryRequestMB, l.memoryLimitMB))
    && (dns in c'.limits && dns !in c.limits ==>
          c'.limits[dns] == Range(l.cpuRequestMilli, l.cpuLimitMilli, l.memoryRequestMB, l.memoryLimitMB))
  }

  function CountOr0(c: Cluster, k: Key): int {
    if k in c.deployments then c.deployments[k].replicas else 0
  }

  class Client {
    var cluster: Cluster
    var calls: nat
    const net: nat -> Fault

    constructor (cluster: Cluster, net: nat -> Fault)
      ensures this.cluster == cluster && this.net == net && calls == 0
    {
      this.cluster, this.net, calls := cluster, net, 0;
    }

    /** No call from the `n`-th on fails. */
    ghost predicate Quiet(n: nat)
      reads this
    {
      forall i: nat :: n <= i ==> net(i).Answered?
    }

    method Do(a: ApiCall) returns (r: Reply)
      modifies this`cluster, this`calls
      ensures calls == old(calls) + 1
      ensures net(old(calls)).Answered? ==> (r, cluster) == Api(old(cluster), a)
      ensures net(old(calls)).Lost? ==> r.Unavailable? && (cluster == old(cluster) || cluster == Api(old(cluster), a).1)
    {
      var fault := net(calls);
      calls := calls + 1;
      var (reply, after) := Api(cluster, a);
      if fault.Answered? {
        cluster := after;
        r := reply;
      } else {
        if fault.effect {
          cluster := after;
        }
        r := Unavailable;
      }
    }

    /**
      Creates namespace, quota and limit range under the name normalised from `name`, and tolerates
      those that exist; on success all three are there, on failure no more than a prefix was added.
     */
    method CreateNamespace(name: string, ops: Option<Limits>) returns (ns: Option<Namespace>)
      modifies this`cluster, this`calls
      ensures calls >= old(calls)
      ensures Kept(old(cluster), cluster) && cluster.deployments == old(cluster).deployments
      ensures cluster.namespaces <= old(cluster).namespaces + {DNSName(name)}
      ensures cluster.quotas.Keys <= old(cluster).quotas.Keys + {DNSName(name)}
      ensures cluster.limits.Keys <= old(cluster).limits.Keys + {DNSName(name)}
      ensures NewObjectsFit(old(cluster), cluster, DNSName(name), Merged(ops))
      ensures ns.Some? ==>
                && ns.value == Namespace(name, DNSName(name), Merged(ops))
                && DNSName(name) in cluster.namespaces && DNSName(name) in cluster.quotas
                    && DNSName(name) in cluster.limits
      ensures ns.Some? ==> ValidLabel(DNSName(name))
      ensures Quiet(old(calls)) ==> (ns.Some? <==> ValidLabel(DNSName(name)))
    {
      var dns := GenerateDNSName(name);
      var limits := MergeLimits(ops);
      var r := Do(MakeNamespace(dns));
      if !r.Ok? && !r.AlreadyExists? {
        return None;
      }
      r := Do(MakeQuota(dns, QuotaOf(limits)));
      if !r.Ok? && !r.AlreadyExists? {
        return None;
      }
      r := Do(MakeLimits(dns, RangeOf(limits)));
      if !r.Ok? && !r.AlreadyExists? {
        return None;
      }
      return Some(Namespace(name, dns, limits));
    }

    /** Creates the deployment of an image, without replicas; "already exists" is an error here. */
    method CreateWorker(dns: string, image: string) returns (r: Reply)
      modifies this`cluster, this`calls
      ensures calls == old(calls) + 1
      ensures Kept(old(cluster), cluster) && cluster.namespaces == old(cluster).namespaces
      ensures cluster.deployments.Keys <= old(cluster).deployments.Keys + {Made(image, dns)}
      ensures r.Ok? ==> Made(image, dns) !in old(cluster).deployments && Made(image, dns) in cluster.deployments
      ensures r.AlreadyExists? ==> Made(image, dns) in old(cluster).deployments
      ensures Made(image, dns) in cluster.deployments && Made(image, dns) !in old(cluster).deployments ==>
                cluster.deployments[Made(image, dns)].replicas == 0
      ensures r.Ok? || r.AlreadyExists? ==> Usable(cluster, dns, image)
      ensures net(old(calls)).Answered? ==> (r.Ok? || r.AlreadyExists? <==> Usable(old(cluster), dns, image))
    {
      r := Do(MakeDeployment(Made(image, dns)));
    }

    /**
      `recoverWorker`: on success the deployment named after the image and the namespace row's DNS
      exists, whatever had been deleted.  Without faults it succeeds exactly if the row's name gives
      a label, which is its DNS or its DNS is there, and the generated deployment name is admitted.
     */
    method RecoverWorker(ns: Namespace, image: string) returns (ok: bool)
      modifies this`cluster, this`calls
      ensures calls >= old(calls)
      ensures Kept(old(cluster), cluster)
      ensures cluster.deployments.Keys <= old(cluster).deployments.Keys + {Made(image, ns.dns)}
      ensures ok ==> Made(image, ns.dns) in cluster.deployments
      ensures NewObjectsFit(old(cluster), cluster, DNSName(ns.name), Merged(Some(ns.limits)))
      ensures Made(image, ns.dns) in cluster.deployments && Made(image, ns.dns) !in old(cluster).deployments ==>
                cluster.deployments[Made(image, ns.dns)].replicas == 0
      ensures Quiet(old(calls)) ==>
                (ok <==> && ValidLabel(DNSName(ns.name))
                         && (ns.dns == DNSName(ns.name) || ns.dns in old(cluster).namespaces)
                         && ValidSubdomain(DeploymentName(image, ns.dns)))
    {
      var made := CreateNamespace(ns.name, Some(ns.limits));
      if made.None? {
        return false;
      }
      var r := CreateWorker(ns.dns, image);
      ok := r.Ok? || r.AlreadyExists?;
    }

    /**
      `ScaleWorker` for the worker row `row`, run without interference; `ready` is what waiting for
      readiness returns.  On success the row's deployment exists and has the count the decision
      asks for, starting from 0 if it had to be recovered.  A missing deployment is recovered
      exactly if the row carries the generated name and the API server admits its names.
     */
    method ScaleWorker(row: Key, ns: Namespace, image: string, max: int, replicas: int, wake: bool, ready: bool)
      returns (ok: bool)
      requires row.dns == ns.dns
      modifies this`cluster, this`calls
      ensures replicas > ToInt32(max) ==> !ok && cluster == old(cluster)
      ensures ok ==>
                && row in cluster.deployments
                && var before := CountOr0(old(cluster), row);
                   CountOr0(cluster, row) == if wake && before != 0 then before else replicas
      ensures ok && ScaleTarget(max, replicas, wake, CountOr0(old(cluster), row)).Some? ==>
                Some(CountOr0(cluster, row)) == ScaleTarget(max, replicas, wake, CountOr0(old(cluster), row))
      ensures ok && row !in old(cluster).deployments ==> row == Made(image, ns.dns)
      ensures forall k :: k in old(cluster).deployments && k != row ==>
                k in cluster.deployments && cluster.deployments[k] == old(cluster).deployments[k]
      ensures Quiet(old(calls)) && 0 <= replicas <= ToInt32(max) && ns.dns == DNSName(ns.name) ==>
                (ok <==> && (row in old(cluster).deployments
                             || (row == Made(image, ns.dns) && Admitted(image, ns.dns)))
                         && (ready || CountOr0(old(cluster), row) != 0 || replicas == 0))
    {
      if replicas > ToInt32(max) {
        return false;
      }
      var r := Do(GetScale(row));
      if r.NotFound? {
        var recovered := RecoverWorker(ns, image);
        if !recovered {
          return false;
        }
        r := Do(GetScale(row));
      }
      if !r.Ok? {
        return false;
      }
      var current := cluster.deployments[row];
      if wake && current.replicas != 0 {
        return true;
      }
      if current.replicas == replicas {
        return true;
      }
      ok := WriteScale(row, current, replicas, ready);
    }

    /** The end of `ScaleWorker`: writes the count over the object just read, and waits for a worker that was asleep. */
    method WriteScale(row: Key, current: Deployment, replicas: int, ready: bool) returns (ok: bool)
      requires row in cluster.deployments && cluster.deployments[row] == current
      modifies this`cluster, this`calls
      ensures cluster.deployments.Keys == old(cluster).deployments.Keys
      ensures forall k :: k in old(cluster).deployments && k != row ==>
                cluster.deployments[k] == old(cluster).deployments[k]
      ensures ok ==> cluster.deployments[row].replicas == replicas
      ensures net(old(calls)).Answered? && replicas >= 0 ==> (ok <==> ready || current.replicas != 0 || replicas == 0)
    {
      var r := Do(SetScale(row, current, replicas));
      if !r.Ok? {
        return false;
      }
      if current.replicas == 0 && replicas > 0 {
        return ready;
      }
      return true;
    }
  }
}
