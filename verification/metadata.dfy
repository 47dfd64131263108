/** The legacy metadata managers (types/metadataManagers.go and the Path record of
    types/types.go): which paths use which service in each namespace, and which
    namespaces each host has paths in. Sets hold path objects by identity, as the
    Go sets hold pointers. */
module Metadata {

  /** A path of an Ingress rule. The fields the managers read never change. */
  class Path {
    const hostName: string
    const pathName: string
    const namespace: string
    const serviceName: string
    const servicePort: string

    constructor (hostName: string, pathName: string, namespace: string, serviceName: string, servicePort: string)
      ensures this.hostName == hostName && this.pathName == pathName && this.namespace == namespace
      ensures this.serviceName == serviceName && this.servicePort == servicePort
    {
      this.hostName := hostName;
      this.pathName := pathName;
      this.namespace := namespace;
      this.serviceName := serviceName;
      this.servicePort := servicePort;
    }

    predicate InNamespace(ns: string) {
      namespace == ns
    }
  }

  /** The paths recorded under a key, none when the key is absent. */
  function PathsOf(m: map<string, set<Path>>, k: string): set<Path> {
    if k in m then m[k] else {}
  }

  // ----- svcPaths: service name -> paths -----

  /** A namespace's services and the paths that use each. Only nsSvc holds one,
      so it is kept as a value that each operation returns updated. */
  datatype SvcPaths = SvcPaths(stoPs: map<string, set<Path>>)
  {
    /** checkAddSvc: an unknown service gets an empty set. */
    function CheckAddSvc(svc: string): (r: SvcPaths)
      ensures svc in r.stoPs && r.stoPs[svc] == PathsOf(stoPs, svc)
      ensures forall s :: s != svc ==> (s in r.stoPs <==> s in stoPs)
      ensures forall s :: s in stoPs ==> r.stoPs[s] == stoPs[s]
    {
      if svc in stoPs then this else SvcPaths(stoPs[svc := {}])
    }

    /** AddSvcPath: the path joins the set of its own service, which is created
        if needed; no other service changes. */
    function AddSvcPath(p: Path): (r: SvcPaths)
      ensures r.stoPs.Keys == stoPs.Keys + {p.serviceName}
      ensures forall s :: PathsOf(r.stoPs, s) == PathsOf(stoPs, s) + (if s == p.serviceName then {p} else {})
    {
      var c := CheckAddSvc(p.serviceName);
      SvcPaths(c.stoPs[p.serviceName := c.stoPs[p.serviceName] + {p}])
    }

    /** DelSvcPath: the path leaves the set of its own service; the flag is true
        exactly when that empties the set, and then the service is dropped. */
    function DelSvcPath(p: Path): (r: (SvcPaths, bool))
      ensures r.1 <==> p.serviceName in stoPs && stoPs[p.serviceName] <= {p}
      ensures r.0.stoPs.Keys == if r.1 then stoPs.Keys - {p.serviceName} else stoPs.Keys
      ensures forall s :: PathsOf(r.0.stoPs, s) == PathsOf(stoPs, s) - (if s == p.serviceName then {p} else {})
    {
      var svc := p.serviceName;
      if svc in stoPs then
        var m := stoPs[svc := stoPs[svc] - {p}];
        if |m[svc]| == 0 then (SvcPaths(m - {svc}), true) else (SvcPaths(m), false)
      else
        (this, false)
    }

    predicate Has(svc: string) {
      svc in stoPs
    }

    function NumSvc(): nat {
      |stoPs|
    }
  }

  // ----- nsSvc: namespace -> svcPaths -----

  /** At least one service, and no service without paths. */
  ghost predicate NormalSvc(sp: SvcPaths) {
    sp.stoPs != map[] && forall svc :: svc in sp.stoPs ==> sp.stoPs[svc] != {}
  }

  /** No namespace without services and no service without paths. */
  ghost predicate Normal(c: map<string, SvcPaths>) {
    forall ns :: ns in c ==> NormalSvc(c[ns])
  }

  /** Adding a path leaves a normal svcPaths, whatever it started from. */
  lemma AddSvcPathNormal(sp: SvcPaths, p: Path)
    requires forall svc :: svc in sp.stoPs ==> sp.stoPs[svc] != {}
    ensures NormalSvc(sp.AddSvcPath(p))
  {
    var r := sp.AddSvcPath(p);
    assert p.serviceName in r.stoPs;
    forall svc | svc in r.stoPs ensures r.stoPs[svc] != {} {
      assert PathsOf(r.stoPs, svc) == PathsOf(sp.stoPs, svc) + (if svc == p.serviceName then {p} else {});
    }
  }

  /** Deleting a path leaves a normal svcPaths unless no service is left. */
  lemma DelSvcPathNormal(sp: SvcPaths, p: Path)
    requires NormalSvc(sp)
    ensures sp.DelSvcPath(p).0.stoPs != map[] ==> NormalSvc(sp.DelSvcPath(p).0)
  {
    var r := sp.DelSvcPath(p).0;
    forall svc | svc in r.stoPs ensures r.stoPs[svc] != {} {
      assert PathsOf(r.stoPs, svc) == PathsOf(sp.stoPs, svc) - (if svc == p.serviceName then {p} else {});
    }
  }

  /** The paths recorded for a service in a namespace, none when absent. */
  ghost function Lookup(c: map<string, SvcPaths>, ns: string, svc: string): set<Path> {
    if ns in c then PathsOf(c[ns].stoPs, svc) else {}
  }

  /** A normal record is determined by its lookups, so the lookups a method
      ensures fix its whole new state. */
  lemma NormalByLookups(a: map<string, SvcPaths>, b: map<string, SvcPaths>)
    requires Normal(a) && Normal(b)
    requires forall ns, svc :: Lookup(a, ns, svc) == Lookup(b, ns, svc)
    ensures a == b
  {
    forall ns | ns in a ensures ns in b && a[ns] == b[ns] {
      var svc :| svc in a[ns].stoPs;
      assert Lookup(a, ns, svc) != {};
      forall s | s in a[ns].stoPs ensures s in b[ns].stoPs && a[ns].stoPs[s] == b[ns].stoPs[s] {
        assert Lookup(a, ns, s) != {};
      }
      forall s | s in b[ns].stoPs ensures s in a[ns].stoPs {
        assert Lookup(b, ns, s) != {};
      }
    }
    forall ns | ns in b ensures ns in a {
      var svc :| svc in b[ns].stoPs;
      assert Lookup(b, ns, svc) != {};
    }
  }

  /** The record DelNamespaceSvcPath leaves when the path's namespace is known. */
  ghost predicate DelNamespaceResult(c: map<string, SvcPaths>, p: Path, c': map<string, SvcPaths>) {
    p.namespace in c &&
    var r := c[p.namespace].DelSvcPath(p);
    c' == if r.1 && r.0.NumSvc() == 0 then c - {p.namespace} else c[p.namespace := r.0]
  }

  lemma DelNamespaceNormal(c: map<string, SvcPaths>, p: Path, c': map<string, SvcPaths>)
    requires DelNamespaceResult(c, p, c')
    ensures Normal(c) ==> Normal(c')
  {
    if Normal(c) {
      DelSvcPathNormal(c[p.namespace], p);
    }
  }

  lemma DelNamespaceLookup(c: map<string, SvcPaths>, p: Path, c': map<string, SvcPaths>)
    requires DelNamespaceResult(c, p, c')
    ensures forall ns, svc :: (Lookup(c', ns, svc) ==
      Lookup(c, ns, svc) - (if ns == p.namespace && svc == p.serviceName then {p} else {}))
  {
    var r := c[p.namespace].DelSvcPath(p);
    forall ns, svc ensures Lookup(c', ns, svc) ==
      Lookup(c, ns, svc) - (if ns == p.namespace && svc == p.serviceName then {p} else {})
    {
      if ns == p.namespace {
        assert PathsOf(r.0.stoPs, svc) == PathsOf(c[ns].stoPs, svc) - (if svc == p.serviceName then {p} else {});
        if r.1 && r.0.NumSvc() == 0 {
          assert r.0.stoPs == map[];
        }
      }
    }
  }

  lemma DelNamespaceKeys(c: map<string, SvcPaths>, p: Path, c': map<string, SvcPaths>)
    requires DelNamespaceResult(c, p, c')
    ensures c'.Keys == if LastPathOfNamespace(c, p) then c.Keys - {p.namespace} else c.Keys
  {
    var r := c[p.namespace].DelSvcPath(p);
    var keys := c[p.namespace].stoPs.Keys;
    assert |r.0.stoPs.Keys| == r.0.NumSvc();
    assert r.1 ==> (r.0.stoPs.Keys == {} <==> keys == {p.serviceName});
  }

  class NsSvc {
    var nsToSvc: map<string, SvcPaths>

    constructor ()
      ensures nsToSvc == map[]
    {
      nsToSvc := map[];
    }

    /** SetNamespaceSvcPaths: the path is recorded under the given namespace and
        its own service, and nothing else changes; afterwards HasSvc holds for
        them. */
    method SetNamespaceSvcPaths(namespace: string, p: Path)
      modifies this
      ensures Normal(old(nsToSvc)) ==> Normal(nsToSvc)
      ensures forall ns, svc :: (Lookup(nsToSvc, ns, svc) ==
        Lookup(old(nsToSvc), ns, svc) + (if ns == namespace && svc == p.serviceName then {p} else {}))
      ensures nsToSvc.Keys == old(nsToSvc.Keys) + {namespace}
      ensures HasSvc(namespace, p.serviceName)
      ensures NumNamespace() == old(NumNamespace()) + (if namespace in old(nsToSvc) then 0 else 1)
    {
      var sp := if namespace in nsToSvc then nsToSvc[namespace] else SvcPaths(map[]);
      if Normal(nsToSvc) {
        AddSvcPathNormal(sp, p);
      }
      nsToSvc := nsToSvc[namespace := sp.AddSvcPath(p)];
    }

    /** DelNamespaceSvcPath: the path leaves the set of its own namespace and
        service, and nothing else changes; the namespace is dropped exactly when
        its last service goes. */
    method DelNamespaceSvcPath(p: Path)
      modifies this
      ensures Normal(old(nsToSvc)) ==> Normal(nsToSvc)
      ensures forall ns, svc :: (Lookup(nsToSvc, ns, svc) ==
        Lookup(old(nsToSvc), ns, svc) - (if ns == p.namespace && svc == p.serviceName then {p} else {}))
      ensures nsToSvc.Keys == if LastPathOfNamespace(old(nsToSvc), p) then old(nsToSvc.Keys) - {p.namespace} else old(nsToSvc.Keys)
      ensures NumNamespace() == old(NumNamespace()) - (if LastPathOfNamespace(old(nsToSvc), p) then 1 else 0)
    {
      var namespace := p.namespace;
      if namespace in nsToSvc {
        ghost var c := nsToSvc;
        var (sp, deletedSvc) := nsToSvc[namespace].DelSvcPath(p);
        if deletedSvc && sp.NumSvc() == 0 {
          nsToSvc := nsToSvc - {namespace};
        } else {
          nsToSvc := nsToSvc[namespace := sp];
        }
        DelNamespaceNormal(c, p, nsToSvc);
        DelNamespaceLookup(c, p, nsToSvc);
        DelNamespaceKeys(c, p, nsToSvc);
      }
    }

    function NumNamespace(): nat
      reads this
    {
      |nsToSvc|
    }

    /** HasSvc: the namespace is known and has the service. */
    predicate HasSvc(namespace: string, svcName: string)
      reads this
    {
      namespace in nsToSvc && nsToSvc[namespace].Has(svcName)
    }

    /** NoHostPathInNamespace: no path recorded under the namespace has this host
        and path name. The namespace must be known. */
    method NoHostPathInNamespace(hostName: string, pathName: string, namespace: string) returns (r: bool)
      requires namespace in nsToSvc
      ensures r <==> forall svc, p :: svc in nsToSvc[namespace].stoPs && p in nsToSvc[namespace].stoPs[svc] ==>
        !(p.hostName == hostName && p.pathName == pathName)
    {
      var stoPs := nsToSvc[namespace].stoPs;
      var res := 0;
      var svcs := stoPs.Keys;
      while svcs != {}
        invariant svcs <= stoPs.Keys
        invariant res == 0 <==> forall svc, p :: svc in stoPs && svc !in svcs && p in stoPs[svc] ==>
          !(p.hostName == hostName && p.pathName == pathName)
        decreases |svcs|
      {
        var svc :| svc in svcs;
        var paths := stoPs[svc];
        ghost var before := res;
        while paths != {}
          invariant paths <= stoPs[svc]
          invariant res >= before
          invariant res == before <==> forall p :: p in stoPs[svc] && p !in paths ==>
            !(p.hostName == hostName && p.pathName == pathName)
          decreases |paths|
        {
          var p :| p in paths;
          if p.hostName == hostName && p.pathName == pathName {
            res := res + 1;
          }
          paths := paths - {p};
        }
        svcs := svcs - {svc};
      }
      r := res == 0;
    }
  }

  /** Removing the path empties its service and that service is the namespace's
      last one. */
  ghost predicate LastPathOfNamespace(c: map<string, SvcPaths>, p: Path) {
    p.namespace in c && p.serviceName in c[p.namespace].stoPs &&
    c[p.namespace].stoPs[p.serviceName] <= {p} && c[p.namespace].stoPs.Keys == {p.serviceName}
  }

  // ----- hostNamespaces: host -> namespaces -----

  class HostNamespaces {
    var htoN: map<string, set<string>>

    constructor ()
      ensures htoN == map[]
    {
      htoN := map[];
    }

    /** checkInit: an unknown host gets an empty set. */
    method CheckInit(hostName: string)
      modifies this
      ensures htoN == if hostName in old(htoN) then old(htoN) else old(htoN)[hostName := {}]
    {
      if hostName !in htoN {
        htoN := htoN[hostName := {}];
      }
    }

    /** AddNamespace: the namespace joins the host's set; afterwards
        hostPathInNamespace holds for them. */
    method AddNamespace(hostName: string, namespace: string)
      modifies this
      ensures htoN == old(htoN)[hostName := (if hostName in old(htoN) then old(htoN)[hostName] else {}) + {namespace}]
      ensures HostPathInNamespace(hostName, namespace)
    {
      CheckInit(hostName);
      htoN := htoN[hostName := htoN[hostName] + {namespace}];
    }

    /** DelNamespace: the namespace leaves the host's set; it reports true exactly
        when that empties the set, and then the host is dropped. */
    method DelNamespace(hostName: string, namespace: string) returns (deletedHost: bool)
      modifies this
      ensures deletedHost <==> hostName in old(htoN) && old(htoN)[hostName] <= {namespace}
      ensures deletedHost ==> htoN == old(htoN) - {hostName}
      ensures !deletedHost && hostName in old(htoN) ==>
        htoN == old(htoN)[hostName := old(htoN)[hostName] - {namespace}]
      ensures hostName !in old(htoN) ==> htoN == old(htoN)
      ensures !HostPathInNamespace(hostName, namespace)
    {
      if hostName in htoN {
        htoN := htoN[hostName := htoN[hostName] - {namespace}];
        if |htoN[hostName]| == 0 {
          htoN := htoN - {hostName};
          return true;
        }
      }
      return false;
    }

    predicate HostPathInNamespace(hostName: string, namespace: string)
      reads this
    {
      hostName in htoN && namespace in htoN[hostName]
    }

    /** hostOnlyInNamespace: the host is known and its only namespace is this
        one; an unknown host gives false. */
    function HostOnlyInNamespace(hostName: string, namespace: string): (r: bool)
      reads this
      ensures r <==> hostName in htoN && htoN[hostName] == {namespace}
    {
      if hostName !in htoN then false
      else
        SingletonByCardinality(htoN[hostName], namespace);
        |htoN[hostName]| == 1 && namespace in htoN[hostName]
    }
  }

  lemma SingletonByCardinality(s: set<string>, x: string)
    ensures |s| == 1 && x in s <==> s == {x}
  {
    if |s| == 1 && x in s {
      assert |s - {x}| == 0;
      assert s - {x} == {};
    }
  }
}
