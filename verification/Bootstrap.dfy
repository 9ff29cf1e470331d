/** The scheduler's start-up: every stored namespace exists in the cluster, and "wardu" is stored. */
module Bootstrap {
  import opened Common
  import opened Kubernetes
  import opened Names
  import opened NameTheorems
  import opened Client

  function DefaultName(): string {
    "wardu"
  }

  /** What the first start stores. */
  function DefaultRow(): Namespace {
    Namespace(DefaultName(), DNSName(DefaultName()), DEFAULT_LIMITS)
  }

  /** The row's DNS is the one its name gives, as for every row this code stores. */
  predicate Normal(ns: Namespace) {
    ns.dns == DNSName(ns.name)
  }

  predicate Named(rows: seq<Namespace>, name: string) {
    exists i :: 0 <= i < |rows| && rows[i].name == name
  }

  /** Nothing to do: all rows are in the cluster, and the default one is among them. */
  predicate Complete(rows: seq<Namespace>, c: Cluster) {
    Named(rows, DefaultName()) && forall i :: 0 <= i < |rows| ==> rows[i].dns in c.namespaces
  }

  /** Every normally named row has its namespace. */
  predicate AllMade(rows: seq<Namespace>, namespaces: set<string>) {
    forall i :: 0 <= i < |rows| && Normal(rows[i]) ==> rows[i].dns in namespaces
  }

  lemma AllMadeSnoc(rows: seq<Namespace>, ns: Namespace, namespaces: set<string>, namespaces': set<string>)
    requires AllMade(rows, namespaces) && namespaces <= namespaces' && (Normal(ns) ==> ns.dns in namespaces')
    ensures AllMade(rows + [ns], namespaces')
  {
  }

  /** A row whose namespace is missing gets the one its name gives. */
  function NamespacesAfter(ns: Namespace, namespaces: set<string>): set<string> {
    if ns.dns in namespaces then namespaces else namespaces + {DNSName(ns.name)}
  }

  /** Every row's namespace is there when its turn comes, or its name gives a label. */
  predicate Bootable(rows: seq<Namespace>, namespaces: set<string>) {
    rows == [] || ((rows[0].dns in namespaces || ValidLabel(DNSName(rows[0].name)))
                   && Bootable(rows[1..], NamespacesAfter(rows[0], namespaces)))
  }

  /** For rows named as this code names them, the order does not matter. */
  lemma {:induction false} BootableIff(rows: seq<Namespace>, namespaces: set<string>)
    requires forall i :: 0 <= i < |rows| ==> Normal(rows[i])
    ensures Bootable(rows, namespaces) <==>
            forall i :: 0 <= i < |rows| ==> rows[i].dns in namespaces || ValidLabel(rows[i].dns)
    decreases |rows|
  {
    if rows != [] {
      BootableIff(rows[1..], NamespacesAfter(rows[0], namespaces));
      assert forall i :: 0 <= i < |rows| - 1 ==> rows[1..][i] == rows[i + 1];
      assert forall i :: 1 <= i < |rows| ==> rows[i] == rows[1..][i - 1];
    }
  }

  class Server {
    var rows: seq<Namespace>
    const k8s: Client

    constructor (rows: seq<Namespace>, k8s: Client)
      ensures this.rows == rows && this.k8s == k8s
    {
      this.rows, this.k8s := rows, k8s;
    }

    /** One turn of the loop: a row whose namespace is missing is created again. */
    method EnsureNamespace(ns: Namespace) returns (ok: bool)
      modifies k8s`cluster, k8s`calls
      ensures k8s.calls >= old(k8s.calls)
      ensures Kept(old(k8s.cluster), k8s.cluster) && k8s.cluster.deployments == old(k8s.cluster).deployments
      ensures ok && Normal(ns) ==> ns.dns in k8s.cluster.namespaces
      ensures NewObjectsFit(old(k8s.cluster), k8s.cluster, DNSName(ns.name), Merged(Some(ns.limits)))
      ensures ns.dns in old(k8s.cluster).namespaces ==> k8s.cluster == old(k8s.cluster)
      ensures ok ==> k8s.cluster.namespaces == NamespacesAfter(ns, old(k8s.cluster).namespaces)
      ensures ok ==> ns.dns in old(k8s.cluster).namespaces || ValidLabel(DNSName(ns.name))
      ensures old(k8s.Quiet(k8s.calls)) ==>
                (ok <==> ns.dns in old(k8s.cluster).namespaces || ValidLabel(DNSName(ns.name)))
    {
      var r := k8s.Do(GetNamespace(ns.dns));
      if r.NotFound? {
        var made := k8s.CreateNamespace(ns.name, Some(ns.limits));
        ok := made.Some?;
      } else {
        ok := r.Ok?;
      }
    }

    /** The loop over the stored rows. */
    method EnsureNamespaces() returns (ok: bool, hasWardu: bool)
      modifies k8s`cluster, k8s`calls
      ensures k8s.calls >= old(k8s.calls)
      ensures Kept(old(k8s.cluster), k8s.cluster) && k8s.cluster.deployments == old(k8s.cluster).deployments
      ensures ok ==> (hasWardu <==> Named(rows, DefaultName()))
      ensures ok ==> AllMade(rows, k8s.cluster.namespaces)
      ensures old(k8s.Quiet(k8s.calls)) ==> (ok <==> Bootable(rows, old(k8s.cluster).namespaces))
      ensures Complete(rows, old(k8s.cluster)) ==> k8s.cluster == old(k8s.cluster)
    {
      ok, hasWardu := true, false;
      var i := 0;
      while i < |rows|
        invariant 0 <= i <= |rows| && k8s.calls >= old(k8s.calls)
        invariant Kept(old(k8s.cluster), k8s.cluster) && k8s.cluster.deployments == old(k8s.cluster).deployments
        invariant hasWardu <==> Named(rows[..i], DefaultName())
        invariant AllMade(rows[..i], k8s.cluster.namespaces)
        invariant Complete(rows, old(k8s.cluster)) ==> k8s.cluster == old(k8s.cluster)
        invariant Bootable(rows, old(k8s.cluster).namespaces) <==> Bootable(rows[i..], k8s.cluster.namespaces)
      {
        var ns := rows[i];
        NamedSnoc(rows[..i], ns, DefaultName());
        assert rows[..i + 1] == rows[..i] + [ns];
        if ns.name == DefaultName() {
          hasWardu := true;
        }
        assert rows[i..][1..] == rows[i + 1..];
        ghost var before := k8s.cluster;
        var fine := EnsureNamespace(ns);
        KeptTwice(old(k8s.cluster), before, k8s.cluster);
        if !fine {
          return false, hasWardu;
        }
        AllMadeSnoc(rows[..i], ns, before.namespaces, k8s.cluster.namespaces);
        i := i + 1;
      }
      assert rows[..i] == rows;
    }

    /** Another row uses this DNS, which the table does not allow. */
    predicate DNSTaken(dns: string)
      reads this
    {
      exists i :: 0 <= i < |rows| && rows[i].dns == dns
    }

    /** The insert of a new row; it fails on a DNS that is taken. */
    method InsertNamespace(ns: Namespace, writable: bool) returns (ok: bool)
      modifies this`rows
      ensures ok <==> writable && !old(DNSTaken(ns.dns))
      ensures rows == if ok then old(rows) + [ns] else old(rows)
    {
      ok := writable && !DNSTaken(ns.dns);
      if ok {
        rows := rows + [ns];
      }
    }

    /**
      `createDefualtNamespace` for the default name "wardu"; `readable` and `writable` say whether
      the database answers.  It only ever adds: on success every normally named row has its
      namespace and the default row is stored, once; a complete installation is left as it is.
     */
    method CreateDefaultNamespace(readable: bool, writable: bool) returns (ok: bool)
      modifies this`rows, k8s`cluster, k8s`calls
      ensures Kept(old(k8s.cluster), k8s.cluster) && k8s.cluster.deployments == old(k8s.cluster).deployments
      ensures rows == old(rows) || (!Named(old(rows), DefaultName()) && rows == old(rows) + [DefaultRow()])
      ensures ok ==> readable && Named(rows, DefaultName()) && AllMade(rows, k8s.cluster.namespaces)
      ensures old(k8s.Quiet(k8s.calls)) && readable && writable ==>
                (ok <==> && Bootable(old(rows), old(k8s.cluster).namespaces)
                         && (Named(old(rows), DefaultName()) || !old(DNSTaken(DefaultName()))))
      ensures Complete(old(rows), old(k8s.cluster)) ==> rows == old(rows) && k8s.cluster == old(k8s.cluster)
    {
      if !readable {
        return false;
      }
      var fine, hasWardu := EnsureNamespaces();
      if !fine {
        return false;
      }
      if hasWardu {
        return true;
      }
      DefaultIsLabel();
      var made := k8s.CreateNamespace(DefaultName(), None);
      if made.None? {
        return false;
      }
      NamedSnoc(rows, made.value, DefaultName());
      ok := InsertNamespace(made.value, writable);
    }
  }

  lemma DefaultIsLabel()
    ensures ValidLabel(DNSName(DefaultName())) && DNSName(DefaultName()) == DefaultName()
  {
    assert !HasDouble("wardu") by {
      assert "wardu"[1..] == "ardu" && "ardu"[1..] == "rdu" && "rdu"[1..] == "du" && "du"[1..] == "u";
    }
    CleanFixed("wardu");
  }

  /** A normally named row other than the default one can hold its DNS, and then the first start fails. */
  lemma CapitalTakesDefault(limits: Limits)
    ensures var ns := Namespace("Wardu", DefaultName(), limits);
            Normal(ns) && !Named([ns], DefaultName()) && ns.dns == DefaultRow().dns
  {
    DefaultIsLabel();
    LowerAllowed("wardu");
    assert Lower("Wardu") == "wardu" by {
      assert "Wardu"[1..] == "ardu";
      LowerAllowed("ardu");
    }
  }

  lemma NamedSnoc(rows: seq<Namespace>, ns: Namespace, name: string)
    ensures Named(rows + [ns], name) <==> Named(rows, name) || ns.name == name
  {
    if Named(rows, name) {
      var i :| 0 <= i < |rows| && rows[i].name == name;
      assert (rows + [ns])[i].name == name;
    }
    if ns.name == name {
      assert (rows + [ns])[|rows|].name == name;
    }
  }
}
