/** The legacy configuration and host records of types/types.go: a ConfigMap's
    annotation and data maps, hosts with their paths, the host group that ties
    them to the metadata managers, and the annotation pair list. */
module Types {
  import opened Wrappers
  import opened Metadata

  // ----- ConfigGroup / configMap -----

  /** load: src's filter-passing entries copied over dest. Every filter-passing
      key of src now holds src's value; every other key of dest keeps its own;
      nothing else appears. */
  method Load(dest: map<string, string>, src: map<string, string>, fn: string -> bool) returns (r: map<string, string>)
    ensures forall k :: k in r <==> k in dest || (k in src && fn(k))
    ensures forall k :: k in src && fn(k) ==> r[k] == src[k]
    ensures forall k :: k in dest && !(k in src && fn(k)) ==> r[k] == dest[k]
  {
    r := dest;
    var rest := src.Keys;
    while rest != {}
      invariant rest <= src.Keys
      invariant forall k :: k in r <==> k in dest || (k in src && k !in rest && fn(k))
      invariant forall k :: k in src && k !in rest && fn(k) ==> r[k] == src[k]
      invariant forall k :: k in dest && !(k in src && k !in rest && fn(k)) ==> r[k] == dest[k]
      decreases |rest|
    {
      var k :| k in rest;
      if fn(k) {
        r := r[k := src[k]];
      }
      rest := rest - {k};
    }
  }

  class ConfigMap {
    var annotations: map<string, string>
    var data: map<string, string>

    constructor ()
      ensures annotations == map[] && data == map[]
    {
      annotations := map[];
      data := map[];
    }

    /** LoadAnnotations: load into the annotations; data is untouched. */
    method LoadAnnotations(input: map<string, string>, fn: string -> bool)
      modifies this
      ensures forall k :: k in annotations <==> k in old(annotations) || (k in input && fn(k))
      ensures forall k :: k in input && fn(k) ==> annotations[k] == input[k]
      ensures forall k :: k in old(annotations) && !(k in input && fn(k)) ==> annotations[k] == old(annotations)[k]
      ensures data == old(data)
    {
      annotations := Load(annotations, input, fn);
    }

    /** LoadData: load into the data; annotations are untouched. */
    method LoadData(input: map<string, string>, fn: string -> bool)
      modifies this
      ensures forall k :: k in data <==> k in old(data) || (k in input && fn(k))
      ensures forall k :: k in input && fn(k) ==> data[k] == input[k]
      ensures forall k :: k in old(data) && !(k in input && fn(k)) ==> data[k] == old(data)[k]
      ensures annotations == old(annotations)
    {
      data := Load(data, input, fn);
    }

    /** DelFromData: only that key leaves the data; afterwards no value is held
        for it. */
    method DelFromData(key: string)
      modifies this
      ensures data == old(data) - {key}
      ensures annotations == old(annotations)
      ensures forall v :: !HasKeyVal(key, v)
    {
      data := data - {key};
    }

    /** HasKeyVal: the key is present with exactly this value. */
    predicate HasKeyVal(key: string, val: string)
      reads this
    {
      if key in data then data[key] == val else false
    }

    /** SetData adds or overwrites one key; afterwards it holds that value and
        every other key holds what it held. */
    method SetData(k: string, v: string)
      modifies this
      ensures data == old(data)[k := v]
      ensures annotations == old(annotations)
      ensures HasKeyVal(k, v)
      ensures forall k', v' :: k' != k ==> (HasKeyVal(k', v') <==> old(HasKeyVal(k', v')))
    {
      data := data[k := v];
    }
  }

  // ----- HostGroup -----

  /** Of a set of paths, those of a namespace and service. */
  ghost function PathsAt(ps: set<Path>, ns: string, svc: string): set<Path> {
    set p | p in ps && p.namespace == ns && p.serviceName == svc
  }

  /** One host and all its paths. */
  class Host {
    const hostName: string
    var paths: map<string, Path>

    constructor (hostName: string)
      ensures this.hostName == hostName && paths == map[]
    {
      this.hostName := hostName;
      paths := map[];
    }

    predicate HasPath(pathName: string)
      reads this
    {
      pathName in paths
    }

    /** GetPath: the path stored under the name, or nil. */
    function GetPath(pathName: string): Option<Path>
      reads this
    {
      if pathName in paths then Some(paths[pathName]) else None
    }

    /** AddPath: panics on a name already present (no change); otherwise maps the
        name to the path. */
    method AddPath(pathName: string, p: Path) returns (panicked: bool)
      modifies this
      ensures panicked <==> pathName in old(paths)
      ensures paths == if panicked then old(paths) else old(paths)[pathName := p]
      ensures !panicked ==> GetPath(pathName) == Some(p)
    {
      if HasPath(pathName) {
        return true;
      }
      paths := paths[pathName := p];
      return false;
    }

    /** DelPath removes only that path name. */
    method DelPath(pathName: string)
      modifies this
      ensures paths == old(paths) - {pathName}
      ensures GetPath(pathName) == None
      ensures forall n :: n != pathName ==> GetPath(n) == old(GetPath(n))
    {
      paths := paths - {pathName};
    }

    /** HasDuplicatePath: the path name exists here in a namespace other than
        newNamespace. */
    function HasDuplicatePath(pathName: string, newNamespace: string): (r: bool)
      reads this
      ensures r <==> GetPath(pathName).Some? && !GetPath(pathName).value.InNamespace(newNamespace)
    {
      if pathName in paths then paths[pathName].namespace != newNamespace else false
    }
  }

  class HostGroup {
    var hosts: map<string, Host>
    const serviceMgr: NsSvc
    const hostNsMgr: HostNamespaces

    constructor ()
      ensures hosts == map[] && fresh(serviceMgr) && fresh(hostNsMgr)
      ensures serviceMgr.nsToSvc == map[] && hostNsMgr.htoN == map[]
    {
      hosts := map[];
      serviceMgr := new NsSvc();
      hostNsMgr := new HostNamespaces();
    }

    predicate HasHost(hostName: string)
      reads this
    {
      hostName in hosts
    }

    /** AddHost: panics on a host already present (no change); otherwise maps the
        host name to the host. */
    method AddHost(hostName: string, host: Host) returns (panicked: bool)
      modifies this
      ensures panicked <==> hostName in old(hosts)
      ensures hosts == if panicked then old(hosts) else old(hosts)[hostName := host]
      ensures !panicked ==> GetHost(hostName) == Some(host)
    {
      if HasHost(hostName) {
        return true;
      }
      hosts := hosts[hostName := host];
      return false;
    }

    /** DelHost: every path of the host leaves the service manager, and then the
        host leaves the group. An unknown host is a nil dereference (panic,
        nothing changes). */
    method DelHost(hostName: string) returns (panicked: bool)
      modifies this, serviceMgr
      ensures panicked <==> hostName !in old(hosts)
      ensures panicked ==> hosts == old(hosts) && serviceMgr.nsToSvc == old(serviceMgr.nsToSvc)
      ensures !panicked ==> hosts == old(hosts) - {hostName}
      ensures !panicked ==> forall ns, svc :: (Lookup(serviceMgr.nsToSvc, ns, svc) ==
        Lookup(old(serviceMgr.nsToSvc), ns, svc) - PathsAt(old(hosts[hostName].paths.Values), ns, svc))
      ensures Normal(old(serviceMgr.nsToSvc)) ==> Normal(serviceMgr.nsToSvc)
    {
      if hostName !in hosts {
        return true;
      }
      var target := hosts[hostName];
      var rest := target.paths.Keys;
      ghost var done: set<Path> := {};
      while rest != {}
        invariant hosts == old(hosts) && target.paths == old(target.paths)
        invariant rest <= target.paths.Keys
        invariant done <= target.paths.Values
        invariant forall k :: k in target.paths && k !in rest ==> target.paths[k] in done
        invariant forall ns, svc :: (Lookup(serviceMgr.nsToSvc, ns, svc) ==
          Lookup(old(serviceMgr.nsToSvc), ns, svc) - PathsAt(done, ns, svc))
        invariant Normal(old(serviceMgr.nsToSvc)) ==> Normal(serviceMgr.nsToSvc)
        decreases |rest|
      {
        var k :| k in rest;
        var p := target.paths[k];
        ghost var before := serviceMgr.nsToSvc;
        serviceMgr.DelNamespaceSvcPath(p);
        DelHostStep(old(serviceMgr.nsToSvc), before, serviceMgr.nsToSvc, done, p);
        done := done + {p};
        rest := rest - {k};
      }
      assert done == target.paths.Values;
      hosts := hosts - {hostName};
      return false;
    }

    /** GetHost: the host stored under the name, or nil. */
    function GetHost(hostName: string): Option<Host>
      reads this
    {
      if hostName in hosts then Some(hosts[hostName]) else None
    }

    /** HostPathInNamespace: the host has a path in the namespace. */
    predicate HostPathInNamespace(hostName: string, namespace: string)
      reads this, hostNsMgr
    {
      hostNsMgr.HostPathInNamespace(hostName, namespace)
    }

    /** HostOnlyInNamespace: the host has paths in this namespace and in no
        other. */
    function HostOnlyInNamespace(hostName: string, namespace: string): (r: bool)
      reads this, hostNsMgr
      ensures r <==> (HostPathInNamespace(hostName, namespace) &&
                      forall ns :: HostPathInNamespace(hostName, ns) ==> ns == namespace)
    {
      var htoN := hostNsMgr.htoN;
      if hostName in htoN then
        SoleMember(htoN[hostName], namespace);
        assert forall ns :: HostPathInNamespace(hostName, ns) <==> ns in htoN[hostName];
        hostNsMgr.HostOnlyInNamespace(hostName, namespace)
      else
        false
    }
  }

  /** A set holding `x` and nothing else is {x}. */
  lemma SoleMember(s: set<string>, x: string)
    ensures (x in s && forall y :: y in s ==> y == x) <==> s == {x}
  {
  }

  /** One more deregistered path extends the removed set by that path. */
  lemma DelHostStep(c0: map<string, SvcPaths>, before: map<string, SvcPaths>, after: map<string, SvcPaths>,
                    done: set<Path>, p: Path)
    requires forall ns, svc :: Lookup(before, ns, svc) == Lookup(c0, ns, svc) - PathsAt(done, ns, svc)
    requires forall ns, svc :: (Lookup(after, ns, svc) ==
      Lookup(before, ns, svc) - (if ns == p.namespace && svc == p.serviceName then {p} else {}))
    ensures forall ns, svc :: Lookup(after, ns, svc) == Lookup(c0, ns, svc) - PathsAt(done + {p}, ns, svc)
  {
    forall ns, svc ensures Lookup(after, ns, svc) == Lookup(c0, ns, svc) - PathsAt(done + {p}, ns, svc) {
      assert PathsAt(done + {p}, ns, svc) ==
        PathsAt(done, ns, svc) + (if ns == p.namespace && svc == p.serviceName then {p} else {});
    }
  }

  // ----- annotation pairs -----

  datatype SSPair = SSPair(key: string, val: string)

  /** CreateSSPairs: nil for an empty map; otherwise one pair per filter-passing
      key, with that key's value, each key once (in map order). */
  method CreateSSPairs(m: map<string, string>, filter: string -> bool) returns (res: seq<SSPair>)
    ensures |m| == 0 ==> res == []
    ensures forall i :: 0 <= i < |res| ==> res[i].key in m && filter(res[i].key) && res[i].val == m[res[i].key]
    ensures forall k :: k in m && filter(k) ==> exists i :: 0 <= i < |res| && res[i].key == k
    ensures forall i, j :: 0 <= i < j < |res| ==> res[i].key != res[j].key
  {
    res := [];
    if |m| > 0 {
      var rest := m.Keys;
      while rest != {}
        invariant rest <= m.Keys
        invariant forall i :: 0 <= i < |res| ==> res[i].key in m && res[i].key !in rest && filter(res[i].key) && res[i].val == m[res[i].key]
        invariant forall k :: k in m && k !in rest && filter(k) ==> exists i :: 0 <= i < |res| && res[i].key == k
        invariant forall i, j :: 0 <= i < j < |res| ==> res[i].key != res[j].key
        decreases |rest|
      {
        var k :| k in rest;
        if filter(k) {
          ghost var prev := res;
          res := res + [SSPair(k, m[k])];
          assert res[|prev|].key == k;
          assert forall i :: 0 <= i < |prev| ==> res[i] == prev[i];
        }
        rest := rest - {k};
      }
    }
  }
}
