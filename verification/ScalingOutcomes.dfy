/** What the outcomes of `ScaleWorker` mean, for concurrent calls and for a call that runs alone. */
module ScalingOutcomes {
  import opened Common
  import opened Kubernetes
  import opened NameTheorems
  import opened Scaling

  /** The count that is there is what the call wants: anything for a wake-up but 0, or the requested one. */
  predicate Enough(c: Cluster, req: Request) {
    req.row in c.deployments
    && var n := c.deployments[req.row].replicas;
       n == req.replicas || (req.wake && n != 0)
  }

  /**
    The answered step of any call in any reachable state.  A read ends the call exactly if the count is
    enough, and otherwise leads to writing over the very object that was read; a write that is answered
    with success has put the requested count there and logged it, and is followed by waiting exactly for
    a worker that was asleep.
   */
  lemma StepMeaning(acts: seq<Action>, id: Id)
    requires Legal(Init(), acts) && Enabled(After(Init(), acts), Step(id))
    ensures var s := After(Init(), acts);
            var s' := Apply(s, Step(id));
            var req, pc, pc' := s.callers[id].req, s.callers[id].pc, s'.callers[id].pc;
            && s'.callers[id].req == req
            && (pc' == Done(Skipped) <==> pc.Fetch? && Enough(s.c, req))
            && (pc.Fetch? && req.row in s.c.deployments && !Enough(s.c, req) ==>
                  pc' == Update(s.c.deployments[req.row]))
            && (pc.Update? && req.row in s.c.deployments && s.c.deployments[req.row] == pc.read && req.replicas >= 0 ==>
                  && pc' == (if pc.read.replicas == 0 && req.replicas > 0 then Wait else Done(Scaled))
                  && req.row in s'.c.deployments && s'.c.deployments[req.row].replicas == req.replicas
                  && s'.log == s.log + [Committed(req.row, id, pc.read.replicas, req.replicas)])
  {
    RunInv(Init(), acts);
    var s := After(Init(), acts);
    assert CallerOk(s.c, s.callers[id]);
  }

  /** Every API call of every caller may fail, with or without its effect, and anyone may edit what is there. */
  lemma WorldIsFree(s: State, id: Id, k: Key, n: nat, effect: bool)
    ensures id in s.callers && !s.callers[id].pc.Done? ==> Enabled(s, Step(id)) && Enabled(s, Fault(id, effect))
    ensures k in s.c.deployments ==> Enabled(s, Edit(k, n)) && Enabled(s, Touch(k)) && Enabled(s, RemoveDeployment(k))
    ensures k.dns in s.c.namespaces ==> Enabled(s, RemoveNamespace(k.dns))
  {
  }

  /** When the answered step of a call ends in failure. */
  predicate Refused(c: Cluster, req: Request, pc: Pc) {
    match pc
    case Fetch(recovered) => recovered && req.row !in c.deployments
    case NamespacePc => !ValidLabel(req.nsDNS)
    case QuotaPc => req.nsDNS !in c.namespaces
    case LimitsPc => req.nsDNS !in c.namespaces
    case DeploymentPc => !ValidSubdomain(req.made.name) || req.made.dns !in c.namespaces
    case Update(read) =>
      req.row !in c.deployments || c.deployments[req.row].version != read.version || req.replicas < 0
    case _ => false
  }

  /** A call fails by a fault, by its limit, or exactly if the cluster refuses what it asks next. */
  lemma FailedIff(s: State, id: Id)
    requires Enabled(s, Step(id))
    ensures Apply(s, Step(id)).callers[id].pc == Done(Failed) <==> Refused(s.c, s.callers[id].req, s.callers[id].pc)
  {
  }

  // ---------- success means a logged write, or a count that was enough ----------

  ghost predicate HasCommitted(s: State, id: Id) {
    exists i :: 0 <= i < |s.log| && s.log[i].Committed? && s.log[i].caller == id
                && id in s.callers && s.log[i].k == s.callers[id].req.row
                    && s.log[i].after == s.callers[id].req.replicas
  }

  ghost predicate ScaledOk(s: State) {
    forall id :: id in s.callers && (s.callers[id].pc == Wait || s.callers[id].pc == Done(Scaled)) ==>
      HasCommitted(s, id)
  }

  lemma CommittedKept(s: State, s': State, id: Id)
    requires HasCommitted(s, id) && id in s'.callers && s'.callers[id].req == s.callers[id].req && s.log <= s'.log
    ensures HasCommitted(s', id)
  {
    var i :| 0 <= i < |s.log| && s.log[i].Committed? && s.log[i].caller == id
             && s.log[i].k == s.callers[id].req.row && s.log[i].after == s.callers[id].req.replicas;
    assert s'.log[i] == s.log[i];
  }

  /** Requests stay, the log grows, and only an effective write brings a call to waiting or to success. */
  lemma StepLogs(s: State, a: Action, id: Id)
    requires Enabled(s, a) && id in Apply(s, a).callers
    ensures s.log <= Apply(s, a).log
    ensures id in s.callers ==> Apply(s, a).callers[id].req == s.callers[id].req
    ensures var pc' := Apply(s, a).callers[id].pc;
            (pc' == Wait || pc' == Done(Scaled)) ==>
              id in s.callers && (s.callers[id].pc == Wait || s.callers[id].pc == Done(Scaled)
                  || HasCommitted(Apply(s, a), id))
  {
    var s' := Apply(s, a);
    if a.Step? && a.id == id && s.callers[id].pc.Update? && s'.callers[id].pc != Done(Failed) {
      assert s'.log == s.log + [Committed(s.callers[id].req.row, id, s.callers[id].pc.read.replicas,
          s.callers[id].req.replicas)];
      assert s'.log[|s.log|].Committed?;
    }
  }

  lemma {:induction false} RunScaled(s: State, acts: seq<Action>)
    requires ScaledOk(s) && Legal(s, acts)
    ensures ScaledOk(After(s, acts))
    decreases |acts|
  {
    if acts != [] {
      var s' := Apply(s, acts[0]);
      forall id | id in s'.callers && (s'.callers[id].pc == Wait || s'.callers[id].pc == Done(Scaled))
        ensures HasCommitted(s', id)
      {
        StepLogs(s, acts[0], id);
        if !HasCommitted(s', id) {
          CommittedKept(s, s', id);
        }
      }
      RunScaled(s', acts[1..]);
    }
  }

  /** In every run a call that succeeded by scaling has its write in the log. */
  lemma ScaledMeansCommitted(acts: seq<Action>, id: Id)
    requires Legal(Init(), acts) && id in After(Init(), acts).callers
    ensures var s := After(Init(), acts);
            s.callers[id].pc == Done(Scaled) ==>
              exists i :: 0 <= i < |s.log| && s.log[i].Committed? && s.log[i].caller == id
                          && s.log[i].k == s.callers[id].req.row && s.log[i].after == s.callers[id].req.replicas
  {
    RunScaled(Init(), acts);
  }

  /** At some moment of the run the count was enough for the request. */
  ghost predicate WasEnough(s: State, acts: seq<Action>, req: Request) {
    exists n :: 0 <= n <= |acts| && EnoughAfter(s, acts[..n], req)
  }

  predicate EnoughAfter(s: State, acts: seq<Action>, req: Request) {
    Legal(s, acts) && Enough(After(s, acts).c, req)
  }

  predicate IsSkipped(s: State, id: Id) {
    id in s.callers && s.callers[id].pc == Done(Skipped)
  }

  /** In every run a call that ended without a write found, at some moment of the run, a count that was enough. */
  lemma {:induction false} SkippedHadEnough(s: State, acts: seq<Action>, id: Id)
    requires Legal(s, acts) && !IsSkipped(s, id) && IsSkipped(After(s, acts), id)
    ensures WasEnough(s, acts, After(s, acts).callers[id].req)
    decreases |acts|
  {
    if acts != [] {
      var s', rest := Apply(s, acts[0]), acts[1..];
      if IsSkipped(s', id) {
        SkippedStays(s', rest, id);
        assert acts[..0] == [];
        assert EnoughAfter(s, acts[..0], After(s, acts).callers[id].req);
      } else {
        SkippedHadEnough(s', rest, id);
        var n :| 0 <= n <= |rest| && EnoughAfter(s', rest[..n], After(s, acts).callers[id].req);
        assert acts[..n + 1] == [acts[0]] + rest[..n] && acts[..n + 1][1..] == rest[..n];
        assert EnoughAfter(s, acts[..n + 1], After(s, acts).callers[id].req);
      }
    }
  }

  lemma {:induction false} SkippedStays(s: State, acts: seq<Action>, id: Id)
    requires Legal(s, acts) && IsSkipped(s, id)
    ensures IsSkipped(After(s, acts), id) && After(s, acts).callers[id] == s.callers[id]
    decreases |acts|
  {
    if acts != [] {
      SkippedStays(Apply(s, acts[0]), acts[1..], id);
    }
  }

  // ---------- a call that runs alone and without faults ----------

  function Left(pc: Pc): nat {
    match pc
    case Fetch(false) => 8
    case NamespacePc => 7
    case QuotaPc => 6
    case LimitsPc => 5
    case DeploymentPc => 4
    case Fetch(true) => 3
    case Update(_) => 2
    case Wait => 1
    case Done(_) => 0
  }

  function Alone(c: Cluster, req: Request, pc: Pc): (Cluster, Pc)
    decreases Left(pc)
  {
    if pc.Done? then (c, pc)
    else
      var (r, c') := Answer(c, req, pc);
      Alone(c', req, PcNext(c, req, pc, r))
  }

  lemma AloneStep(c: Cluster, req: Request, pc: Pc)
    requires !pc.Done?
    ensures Alone(c, req, pc) == Alone(Answer(c, req, pc).1, req, PcNext(c, req, pc, Answer(c, req, pc).0))
  {
  }

  /** Running alone is a run of the protocol. */
  lemma {:induction false} AloneIsRun(s: State, id: Id) returns (acts: seq<Action>)
    requires id in s.callers
    ensures Legal(s, acts) && forall i :: 0 <= i < |acts| ==> acts[i] == Step(id)
    ensures var (c, pc) := Alone(s.c, s.callers[id].req, s.callers[id].pc);
            After(s, acts).c == c && After(s, acts).callers == s.callers[id := Caller(s.callers[id].req, pc)]
    decreases Left(s.callers[id].pc)
  {
    if s.callers[id].pc.Done? {
      acts := [];
      assert s.callers[id := Caller(s.callers[id].req, s.callers[id].pc)] == s.callers;
    } else {
      AloneStep(s.c, s.callers[id].req, s.callers[id].pc);
      var rest := AloneIsRun(Apply(s, Step(id)), id);
      acts := [Step(id)] + rest;
      assert acts[1..] == rest;
    }
  }

  /** From a read of an existing deployment on. */
  lemma AloneFound(c: Cluster, req: Request, recovered: bool)
    requires req.row in c.deployments && req.replicas >= 0
    ensures var (c', pc) := Alone(c, req, Fetch(recovered));
            var n := c.deployments[req.row].replicas;
            && pc == Done(if n == req.replicas || (req.wake && n != 0) then Skipped else Scaled)
            && c'.deployments.Keys == c.deployments.Keys
            && c'.deployments[req.row].replicas == (if req.wake && n != 0 then n else req.replicas)
            && (forall k :: k in c.deployments && k != req.row ==> c'.deployments[k] == c.deployments[k])
            && c'.namespaces == c.namespaces && c'.quotas == c.quotas && c'.limits == c.limits
  {
    var read := c.deployments[req.row];
    AloneStep(c, req, Fetch(recovered));
    if Decide(req, read).Update? {
      AloneStep(c, req, Update(read));
      var c' := Write(c, req.row, req.replicas);
      if read.replicas == 0 && req.replicas > 0 {
        AloneStep(c', req, Wait);
      }
    }
  }

  /** The recovery of a missing deployment, up to the second read. */
  lemma AloneRecovers(c: Cluster, req: Request) returns (c': Cluster)
    requires req.row !in c.deployments && ValidLabel(req.nsDNS)
    ensures req.nsDNS in c'.namespaces && req.nsDNS in c'.quotas && req.nsDNS in c'.limits
    ensures c'.quotas == (if req.nsDNS in c.quotas then c.quotas else c.quotas[req.nsDNS := req.quota])
    ensures c'.limits == (if req.nsDNS in c.limits then c.limits else c.limits[req.nsDNS := req.range])
    ensures c'.deployments == c.deployments
    ensures Alone(c, req, Fetch(false)) == Alone(c', req, DeploymentPc)
  {
    var c1 := CreateNamespaceObject(c, req.nsDNS).1;
    var c2 := CreateQuota(c1, req.nsDNS, req.quota).1;
    c' := CreateLimits(c2, req.nsDNS, req.range).1;
    AloneStep(c, req, Fetch(false));
    AloneStep(c, req, NamespacePc);
    AloneStep(c1, req, QuotaPc);
    AloneStep(c2, req, LimitsPc);
  }

  lemma AloneMissing(c: Cluster, req: Request)
    requires req.row !in c.deployments && req.replicas >= 0 && req.made.dns == req.nsDNS
    ensures var (c', pc) := Alone(c, req, Fetch(false));
            && (pc != Done(Failed) <==> req.row == req.made && ValidLabel(req.nsDNS) && ValidSubdomain(req.made.name))
            && (pc != Done(Failed) ==>
                  && req.row in c'.deployments && c'.deployments[req.row].replicas == req.replicas
                  && req.nsDNS in c'.namespaces && req.nsDNS in c'.quotas && req.nsDNS in c'.limits
                  && (req.nsDNS !in c.quotas ==> c'.quotas[req.nsDNS] == req.quota)
                  && (req.nsDNS !in c.limits ==> c'.limits[req.nsDNS] == req.range)
                  && forall k :: k in c.deployments ==> k in c'.deployments && c'.deployments[k] == c.deployments[k])
  {
    if !ValidLabel(req.nsDNS) {
      AloneStep(c, req, Fetch(false));
      AloneStep(c, req, NamespacePc);
    } else {
      var c1 := AloneRecovers(c, req);
      AloneStep(c1, req, DeploymentPc);
      if ValidSubdomain(req.made.name) {
        var c2 := CreateDeployment(c1, req.made).1;
        if req.row == req.made {
          AloneFound(c2, req, true);
        } else {
          AloneStep(c2, req, Fetch(true));
        }
      }
    }
  }

  /**
    A call within its limit that runs alone and without faults: it fails exactly if the deployment is
    missing and cannot be recovered under the row's name; otherwise the row's deployment has the
    requested count, except that a wake-up leaves one that is awake as it is.
   */
  lemma AloneScales(c: Cluster, req: Request)
    requires 0 <= req.replicas <= ToInt32(req.max) && req.made.dns == req.nsDNS
    ensures var (c', pc) := Alone(c, req, FirstPc(req));
            && (pc == Done(Failed) <==>
                  req.row !in c.deployments
                  && !(req.row == req.made && ValidLabel(req.nsDNS) && ValidSubdomain(req.made.name)))
            && (pc != Done(Failed) ==>
                  && req.row in c'.deployments
                  && var before := if req.row in c.deployments then c.deployments[req.row].replicas else 0;
                     c'.deployments[req.row].replicas == if req.wake && before != 0 then before else req.replicas)
  {
    if req.row in c.deployments {
      AloneFound(c, req, false);
    } else {
      AloneMissing(c, req);
    }
  }

  /** A call beyond its limit fails at once. */
  lemma BeyondLimitFails(c: Cluster, req: Request)
    requires req.replicas > ToInt32(req.max)
    ensures Alone(c, req, FirstPc(req)) == (c, Done(Failed))
  {
  }
}
