/** `CreateJob` as the scheduler runs it, one call from beginning to end with a failure possible at every step. */
module SchedulerServer {
  import opened Kubernetes
  import opened NameTheorems
  import C = Client
  import S = Scheduler
  import opened Scheduler
  import opened SchedulerAlone

  type Namespace = C.Namespace

  lemma ReplyFits(st: Stores, req: Request, pc: Pc)
    requires !pc.Done?
    ensures var r := ReplyOf(st, req, pc);
            && !r.Unavailable?
            && (pc.LoadNamespace? ==> (r.Ok? <==> req.ns in st.namespaces))
            && (pc.LoadWorker? ==> (r.Ok? <==> req.image in st.workers))
            && (pc.LoadWorker? || pc.CheckNamespace? || pc.CheckWorker? ==> r.Ok? || r.NotFound?)
            && (pc.SaveJob? || pc.Publish? ==> r.Ok?)
    ensures pc.LoadNamespace? || pc.LoadWorker? ==> forall id :: StoresNext(st, id, S.Call(req, pc)) == st
  {
  }

  /** The stores and the result of a call whose `n`-th and later external calls end as `net` says. */
  function Faulty(st: Stores, id: Id, call: S.Call, net: nat -> C.Fault, n: nat): (Stores, bool)
    decreases Left(call.pc)
  {
    if call.pc.Done? then (st, call.pc.ok)
    else
      LeftDecreases(st, id, call);
      match net(n)
      case Answered => Faulty(StoresNext(st, id, call), id, call.(pc := PcNext(st, id, call)), net, n + 1)
      // a publish that errors is taken not to have enqueued
      case Lost(effect) => (if effect && !call.pc.Publish? then StoresNext(st, id, call) else st, false)
  }

  lemma FaultyStep(st: Stores, id: Id, call: S.Call, net: nat -> C.Fault, n: nat)
    requires !call.pc.Done?
    ensures net(n).Answered? ==>
              Faulty(st, id, call, net, n)
                  == Faulty(StoresNext(st, id, call), id, S.Call(call.req, PcNext(st, id, call)), net, n + 1)
    ensures net(n).Lost? ==>
              Faulty(st, id, call, net, n) ==
                (if net(n).effect && !call.pc.Publish? then StoresNext(st, id, call) else st, false)
  {
  }

  /** One call with faults is a run of the protocol, so whatever holds of every run holds after it. */
  lemma {:induction false} FaultyIsRun(s: State, id: Id, net: nat -> C.Fault, n: nat) returns (acts: seq<Action>)
    requires id in s.calls
    ensures Legal(s, acts)
    ensures var (st', ok) := Faulty(s.st, id, s.calls[id], net, n);
            After(s, acts) == State(st', s.calls[id := s.calls[id].(pc := Pc.Done(ok))])
    decreases Left(s.calls[id].pc)
  {
    var call := s.calls[id];
    if call.pc.Done? {
      acts := [];
      assert s.calls[id := call] == s.calls;
    } else if net(n).Answered? {
      LeftDecreases(s.st, id, call);
      var rest := FaultyIsRun(Apply(s, Step(id)), id, net, n + 1);
      acts := [Step(id)] + rest;
      assert acts[1..] == rest;
    } else {
      var a := S.Fault(id, net(n).effect && !call.pc.Publish?);
      acts := [a];
      RunNil(Apply(s, a), acts[1..]);
      RunCons(s, a, acts);
    }
  }

  /** Without faults the call runs as `SchedulerAlone.Alone`. */
  lemma {:induction false} QuietIsAlone(st: Stores, id: Id, call: S.Call, net: nat -> C.Fault, n: nat)
    requires forall i: nat :: n <= i ==> net(i).Answered?
    ensures Faulty(st, id, call, net, n) == Alone(st, id, call)
    decreases Left(call.pc)
  {
    if !call.pc.Done? {
      LeftDecreases(st, id, call);
      AloneStep(st, id, call);
      QuietIsAlone(StoresNext(st, id, call), id, call.(pc := PcNext(st, id, call)), net, n + 1);
    }
  }

  class Server {
    var st: Stores
    var calls: nat
    const net: nat -> C.Fault

    constructor (st: Stores, net: nat -> C.Fault)
      ensures this.st == st && this.net == net && calls == 0
    {
      this.st, this.net, calls := st, net, 0;
    }

    /** What the protocol makes of the call from here on. */
    ghost function Rest(id: Id, call: S.Call): (Stores, bool)
      reads this
    {
      Faulty(st, id, call, net, calls)
    }

    /** One external call: it answers, and what the protocol makes of the call is unchanged by it. */
    method Do(id: Id, req: Request, pc: Pc) returns (r: Reply)
      requires !pc.Done?
      modifies this`st, this`calls
      ensures r.Unavailable? ==> old(Rest(id, S.Call(req, pc))) == (st, false)
      ensures !r.Unavailable? ==> old(Rest(id, S.Call(req, pc))) == Rest(id, S.Call(req, Then(st, id, req, pc, r)))
      ensures pc.LoadNamespace? && r.Ok? ==> req.ns in st.namespaces
      ensures pc.LoadWorker? && r.Ok? ==> req.image in st.workers
      ensures pc.LoadWorker? || pc.CheckNamespace? || pc.CheckWorker? ==> r.Ok? || r.NotFound? || r.Unavailable?
      ensures pc.SaveJob? || pc.Publish? ==> r.Ok? || r.Unavailable?
    {
      FaultyStep(st, id, S.Call(req, pc), net, calls);
      ReplyFits(st, req, pc);
      var fault := net(calls);
      var after := StoresNext(st, id, S.Call(req, pc));
      r := ReplyOf(st, req, pc);
      calls := calls + 1;
      if fault.Answered? || (fault.effect && !pc.Publish?) {
        st := after;
      }
      if fault.Lost? {
        r := Unavailable;
      }
    }

    /** The three creations of `CreateNamespace`, with "already exists" tolerated. */
    method CreateNamespace(id: Id, req: Request, ns: Namespace) returns (ok: bool)
      modifies this`st, this`calls
      ensures ok ==> old(Rest(id, S.Call(req, NamespacePc(ns)))) == Rest(id, S.Call(req, LoadWorker(ns)))
      ensures !ok ==> old(Rest(id, S.Call(req, NamespacePc(ns)))) == (st, false)
    {
      var r := Do(id, req, NamespacePc(ns));
      if !r.Ok? && !r.AlreadyExists? {
        return false;
      }
      r := Do(id, req, QuotaPc(ns));
      if !r.Ok? && !r.AlreadyExists? {
        return false;
      }
      r := Do(id, req, LimitsPc(ns));
      ok := r.Ok? || r.AlreadyExists?;
    }

    /** The call ends in the stores and with the result that the protocol gives it. */
    method CreateJob(id: Id, req: Request) returns (ok: bool)
      modifies this`st, this`calls
      ensures (st, ok) == old(Rest(id, S.Call(req, LoadNamespace)))
    {
      var r := Do(id, req, LoadNamespace);
      if !r.Ok? {
        return false;
      }
      var ns := st.namespaces[req.ns];
      r := Do(id, req, CheckNamespace(ns));
      if r.NotFound? {
        var made := CreateNamespace(id, req, ns);
        if !made {
          return false;
        }
      } else if !r.Ok? {
        return false;
      }
      var found, worker := Worker(id, req, ns);
      if !found {
        return false;
      }
      r := Do(id, req, SaveJob(worker));
      if !r.Ok? {
        return false;
      }
      if req.autorun {
        r := Do(id, req, Publish);
        if !r.Ok? {
          return false;
        }
      }
      return true;
    }

    method NewWorker(id: Id, req: Request, ns: Namespace) returns (ok: bool)
      modifies this`st, this`calls
      ensures ok ==> old(Rest(id, S.Call(req, Deploy(ns)))) == Rest(id, S.Call(req, SaveJob(id)))
      ensures !ok ==> old(Rest(id, S.Call(req, Deploy(ns)))) == (st, false)
    {
      var r := Do(id, req, Deploy(ns));
      if !r.Ok? {
        return false;
      }
      r := Do(id, req, SaveWorker(ns));
      ok := r.Ok?;
    }

    /** The middle of `CreateJob`: finds or creates the worker row and its deployment. */
    method Worker(id: Id, req: Request, ns: Namespace) returns (ok: bool, worker: Id)
      modifies this`st, this`calls
      ensures ok ==> old(Rest(id, S.Call(req, LoadWorker(ns)))) == Rest(id, S.Call(req, SaveJob(worker)))
      ensures !ok ==> old(Rest(id, S.Call(req, LoadWorker(ns)))) == (st, false)
    {
      var r := Do(id, req, LoadWorker(ns));
      if r.NotFound? {
        ok := NewWorker(id, req, ns);
        return ok, id;
      }
      if !r.Ok? {
        return false, 0;
      }
      var w := st.workers[req.image];
      r := Do(id, req, CheckWorker(ns, w));
      if r.NotFound? {
        r := Do(id, req, Redeploy(ns, w));
        if !r.Ok? {
          return false, 0;
        }
        w := w.(deployment := DeploymentName(req.image, ns.dns));
        r := Do(id, req, UpdateWorker(ns, w));
      }
      return r.Ok?, w.id;
    }
  }
}
