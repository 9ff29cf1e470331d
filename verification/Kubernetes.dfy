/**
  The Kubernetes objects the code touches, and the API calls on them as atomic steps.  Every write
  of a deployment gives it a version no object had before.
 */
module Kubernetes {
  import opened Common
  import opened NameTheorems

  datatype Key = Key(dns: string, name: string)

  datatype Deployment = Deployment(replicas: int, version: nat)

  /** What a namespace may hold: pods, and CPU in milli and memory in MB, requested and at most. */
  datatype Quota = Quota(pods: int, cpuRequest: int, cpuLimit: int, memoryRequest: int, memoryLimit: int)

  /** What a container gets that states no figures of its own. */
  datatype Range = Range(cpuRequest: int, cpuLimit: int, memoryRequest: int, memoryLimit: int)

  datatype Cluster = Cluster(
    namespaces: set<string>, quotas: map<string, Quota>, limits: map<string, Range>,
    deployments: map<Key, Deployment>, clock: nat)

  datatype Reply = Ok | NotFound | AlreadyExists | Conflict | Invalid | Unavailable

  /** A namespace is named by a DNS label. */
  function CreateNamespaceObject(c: Cluster, dns: string): (Reply, Cluster) {
    if !ValidLabel(dns) then (Invalid, c)
    else if dns in c.namespaces then (AlreadyExists, c) else (Ok, c.(namespaces := c.namespaces + {dns}))
  }

  function CreateQuota(c: Cluster, dns: string, q: Quota): (Reply, Cluster) {
    if dns !in c.namespaces then (NotFound, c)
    else if dns in c.quotas then (AlreadyExists, c)
    else (Ok, c.(quotas := c.quotas[dns := q]))
  }

  function CreateLimits(c: Cluster, dns: string, l: Range): (Reply, Cluster) {
    if dns !in c.namespaces then (NotFound, c)
    else if dns in c.limits then (AlreadyExists, c)
    else (Ok, c.(limits := c.limits[dns := l]))
  }

  /** A new worker deployment has no replicas; its name is a DNS subdomain. */
  function CreateDeployment(c: Cluster, k: Key): (Reply, Cluster) {
    if !ValidSubdomain(k.name) then (Invalid, c)
    else if k.dns !in c.namespaces then (NotFound, c)
    else if k in c.deployments then (AlreadyExists, c)
    else (Ok, c.(deployments := c.deployments[k := Deployment(0, c.clock + 1)], clock := c.clock + 1))
  }

  /** Writes the replica count of the object that was read, if it is still that object. */
  function UpdateScale(c: Cluster, k: Key, read: Deployment, replicas: int): (Reply, Cluster) {
    if k !in c.deployments then (NotFound, c)
    else if c.deployments[k].version != read.version then (Conflict, c)
    else if replicas < 0 then (Invalid, c)
    else (Ok, Write(c, k, replicas))
  }

  function Write(c: Cluster, k: Key, replicas: int): Cluster {
    c.(deployments := c.deployments[k := Deployment(replicas, c.clock + 1)], clock := c.clock + 1)
  }

  function DeleteDeployment(c: Cluster, k: Key): Cluster {
    c.(deployments := c.deployments - {k})
  }

  /** Deleting a namespace deletes what is in it. */
  function DeleteNamespace(c: Cluster, dns: string): Cluster {
    Cluster(c.namespaces - {dns}, c.quotas - {dns}, c.limits - {dns},
            map k | k in c.deployments && k.dns != dns :: c.deployments[k], c.clock)
  }

  /** The API calls of the client, as data. */
  datatype ApiCall =
    | GetNamespace(dns: string)
    | MakeNamespace(dns: string)
    | MakeQuota(dns: string, q: Quota)
    | MakeLimits(dns: string, l: Range)
    | MakeDeployment(k: Key)
    | GetScale(k: Key)
    | SetScale(k: Key, read: Deployment, replicas: int)

  function Api(c: Cluster, a: ApiCall): (Reply, Cluster) {
    match a
    case GetNamespace(dns) => (if dns in c.namespaces then Ok else NotFound, c)
    case MakeNamespace(dns) => CreateNamespaceObject(c, dns)
    case MakeQuota(dns, q) => CreateQuota(c, dns, q)
    case MakeLimits(dns, l) => CreateLimits(c, dns, l)
    case MakeDeployment(k) => CreateDeployment(c, k)
    case GetScale(k) => (if k in c.deployments then Ok else NotFound, c)
    case SetScale(k, read, n) => UpdateScale(c, k, read, n)
  }

  /** The count ScaleWorker would write if it read `current`, decided and wrote in one indivisible step. */
  function ScaleTarget(max: int, replicas: int, wake: bool, current: int): Option<int> {
    if replicas > ToInt32(max) then None
    else if wake && current != 0 then None
    else if current == replicas then None
    else Some(replicas)
  }

  /** No deployment carries a version that was not given out. */
  predicate ClusterOk(c: Cluster) {
    forall k :: k in c.deployments ==> c.deployments[k].version <= c.clock && c.deployments[k].replicas >= 0
  }

  /** Every namespace has a label for its name. */
  predicate LabelsOk(c: Cluster) {
    forall dns :: dns in c.namespaces ==> ValidLabel(dns)
  }

  /** A deleted namespace takes its quota, limit range and deployments with it, and nothing else. */
  lemma DeletionMeaning(c: Cluster, dns: string, other: string, k: Key)
    ensures var c' := DeleteNamespace(c, dns);
            && dns !in c'.namespaces && dns !in c'.quotas && dns !in c'.limits
            && (other != dns ==>
                  && (other in c'.namespaces <==> other in c.namespaces)
                  && (other in c'.quotas <==> other in c.quotas) && (other in c'.limits <==> other in c.limits)
                  && (other in c.quotas ==> c'.quotas[other] == c.quotas[other])
                  && (other in c.limits ==> c'.limits[other] == c.limits[other]))
            && (k in c'.deployments <==> k in c.deployments && k.dns != dns)
            && (k in c'.deployments ==> c'.deployments[k] == c.deployments[k]) && c'.clock == c.clock
  {
  }

  lemma ApiLabels(c: Cluster, a: ApiCall)
    requires LabelsOk(c)
    ensures LabelsOk(Api(c, a).1)
  {
  }
}
