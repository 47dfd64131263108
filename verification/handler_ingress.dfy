/** The ingress reconciler (watcher/handlerIngress.go): Ingress events become calls
    on the DBOne partition. add and delete walk the object's routes; update
    snapshots the old object's routes into staging keys, stages the new object's
    routes, and copies every staging key back over its route key. */
module IngressHandler {
  import opened Wrappers
  import opened Strings
  import opened KeyPolicy
  import opened RoutingStore
  import opened Listings
  import opened Staging
  import opened Context
  import opened IngressRoutes
  import opened IngressOps

  class IgHandler {
    const resourceName: string
    const ep: Endpoint

    constructor (resourceName: string, ep: Endpoint)
      ensures this.resourceName == resourceName && this.ep == ep
    {
      this.resourceName := resourceName;
      this.ep := ep;
    }

    /** An Ingress is acted on when its namespace is included and its class is
        the one the proxy manager serves. */
    predicate Acts(ig: Ingress)
      reads ep, ep.nsManager
    {
      ep.nsManager.IncludeNamespace(ig.namespace) && ep.atsManager.IncludeIngressClass(ig.ingressClass)
    }

    /** The TLS host table: every host some TLS section names. */
    method CollectTlsHosts(tls: seq<IngressTLS>) returns (hosts: map<string, string>)
      ensures hosts.Keys == TlsHosts(tls)
    {
      hosts := map[];
      var i := 0;
      while i < |tls|
        invariant 0 <= i <= |tls|
        invariant hosts.Keys == TlsHosts(tls[..i])
      {
        var names := tls[i].hosts;
        var j := 0;
        while j < |names|
          invariant 0 <= j <= |names|
          invariant hosts.Keys == TlsHosts(tls[..i]) + ToSet(names[..j])
        {
          hosts := hosts[names[j] := "1"];
          assert ToSet(names[..j + 1]) == ToSet(names[..j]) + {names[j]} by {
            assert names[..j + 1] == names[..j] + [names[j]];
          }
          j := j + 1;
        }
        assert names[..j] == names;
        assert tls[..i + 1][..i] == tls[..i];
        i := i + 1;
      }
      assert tls[..i] == tls;
    }

    // ----- one route -----

    /** One route of add, or of the staging pass: the service, then the snippet
        key when the object has a snippet, added under `key`. */
    method AddRoute(key: string, svcport: string, nameversion: string, withSnippet: bool)
      requires ep.redisClient.Valid()
      modifies ep.redisClient
      ensures ep.redisClient.Valid() && ep.redisClient.defaultDB == old(ep.redisClient.defaultDB)
      ensures ep.redisClient.dbOne ==
        Apply(old(ep.redisClient.dbOne), MemberAdds(key, RouteMemberSeq(svcport, nameversion, withSnippet)))
    {
      var client := ep.redisClient;
      ghost var p0 := client.dbOne;
      client.DBOneSAdd(key, svcport);
      ApplySnoc(p0, [], SAdd(key, svcport));
      if withSnippet {
        client.DBOneSAdd(key, nameversion);
        ApplySnoc(p0, [SAdd(key, svcport)], SAdd(key, nameversion));
        assert MemberAdds(key, RouteMemberSeq(svcport, nameversion, withSnippet)) ==
          [SAdd(key, svcport)] + [SAdd(key, nameversion)];
      } else {
        assert MemberAdds(key, RouteMemberSeq(svcport, nameversion, withSnippet)) == [] + [SAdd(key, svcport)];
      }
    }

    /** One route of delete, or of the snapshot pass: the service, then the
        snippet key when the object has a snippet, removed from `key`. */
    method RemoveRoute(key: string, svcport: string, nameversion: string, withSnippet: bool)
      requires ep.redisClient.Valid()
      modifies ep.redisClient
      ensures ep.redisClient.Valid() && ep.redisClient.defaultDB == old(ep.redisClient.defaultDB)
      ensures ep.redisClient.dbOne ==
        Apply(old(ep.redisClient.dbOne), MemberRems(key, RouteMemberSeq(svcport, nameversion, withSnippet)))
    {
      var client := ep.redisClient;
      ghost var p0 := client.dbOne;
      client.DBOneSRem(key, svcport);
      ApplySnoc(p0, [], SRem(key, svcport));
      if withSnippet {
        client.DBOneSRem(key, nameversion);
        ApplySnoc(p0, [SRem(key, svcport)], SRem(key, nameversion));
        assert MemberRems(key, RouteMemberSeq(svcport, nameversion, withSnippet)) ==
          [SRem(key, svcport)] + [SRem(key, nameversion)];
      } else {
        assert MemberRems(key, RouteMemberSeq(svcport, nameversion, withSnippet)) == [] + [SRem(key, svcport)];
      }
    }

    /** One route of the snapshot pass: copy the route key into its staging key,
        then remove the old object's members from the staging key. */
    method SnapshotRoute(hostPath: string, svcport: string, nameversion: string, withSnippet: bool)
      requires ep.redisClient.Valid()
      modifies ep.redisClient
      ensures ep.redisClient.Valid() && ep.redisClient.defaultDB == old(ep.redisClient.defaultDB)
      ensures ep.redisClient.dbOne ==
        Apply(old(ep.redisClient.dbOne), SnapshotOps(Listing(hostPath, RouteMemberSeq(svcport, nameversion, withSnippet))))
    {
      var client := ep.redisClient;
      ghost var p0 := client.dbOne;
      ghost var t := TempKey(hostPath);
      client.DBOneSUnionStore(TempPrefix + hostPath, hostPath);
      ApplySnoc(p0, [], SUnionStore(t, hostPath));
      RemoveRoute(TempPrefix + hostPath, svcport, nameversion, withSnippet);
      ApplyConcat(p0, [SUnionStore(t, hostPath)], MemberRems(t, RouteMemberSeq(svcport, nameversion, withSnippet)));
    }

    /** The host a rule's routes are keyed under ("*" for a rule without a
        host) and their scheme ("https" exactly for a TLS host). */
    static method RuleHostScheme(ig: Ingress, rule: IngressRule, tlsHosts: map<string, string>)
      returns (host: string, scheme: string)
      requires tlsHosts.Keys == TlsHosts(ig.tls)
      ensures host == EffectiveHost(rule.host) && scheme == Scheme(ig, host)
    {
      host := rule.host;
      if host == "" {
        host := "*";
      }
      scheme := "http";
      if host in tlsHosts {
        scheme := "https";
      }
    }

    // ----- one path of a rule -----

    /** Path `j` of a rule under add: its route's members added under its route
        key, extending the calls made for the paths before it. */
    method AddPath(ig: Ingress, rule: IngressRule, j: int, scheme: string, host: string, nameversion: string,
                   withSnippet: bool, ghost p0: Partition)
      requires ep.redisClient.Valid() && 0 <= j < |rule.paths|
      requires host == EffectiveHost(rule.host) && scheme == Scheme(ig, host)
      requires nameversion == NameVersion(ig) && withSnippet == HasSnippet(ig)
      requires ep.redisClient.dbOne == Apply(p0, AddOps(RuleRoutes(ig, rule)[..j]))
      modifies ep.redisClient
      ensures ep.redisClient.Valid() && ep.redisClient.defaultDB == old(ep.redisClient.defaultDB)
      ensures ep.redisClient.dbOne == Apply(p0, AddOps(RuleRoutes(ig, rule)[..j + 1]))
    {
      var hp := rule.paths[j];
      var hostPath := HostPathKey(scheme, host, hp.path, hp.pathType);
      var svcport := ConstructSvcPortString(ig.namespace, hp.backend.name, IntToString(hp.backend.port));
      RuleRouteAt(ig, rule, j);
      AddRoute(hostPath, svcport, nameversion, withSnippet);
      AddPrefixStep(p0, RuleRoutes(ig, rule), j);
    }

    /** Path `j` of a rule under delete: its route's members removed from its
        route key, extending the calls made for the paths before it. */
    method RemovePath(ig: Ingress, rule: IngressRule, j: int, scheme: string, host: string, nameversion: string,
                      withSnippet: bool, ghost p0: Partition)
      requires ep.redisClient.Valid() && 0 <= j < |rule.paths|
      requires host == EffectiveHost(rule.host) && scheme == Scheme(ig, host)
      requires nameversion == NameVersion(ig) && withSnippet == HasSnippet(ig)
      requires ep.redisClient.dbOne == Apply(p0, RemOps(RuleRoutes(ig, rule)[..j]))
      modifies ep.redisClient
      ensures ep.redisClient.Valid() && ep.redisClient.defaultDB == old(ep.redisClient.defaultDB)
      ensures ep.redisClient.dbOne == Apply(p0, RemOps(RuleRoutes(ig, rule)[..j + 1]))
    {
      var hp := rule.paths[j];
      var hostPath := HostPathKey(scheme, host, hp.path, hp.pathType);
      var svcport := ConstructSvcPortString(ig.namespace, hp.backend.name, IntToString(hp.backend.port));
      RuleRouteAt(ig, rule, j);
      RemoveRoute(hostPath, svcport, nameversion, withSnippet);
      RemPrefixStep(p0, RuleRoutes(ig, rule), j);
    }

    /** Path `j` of a rule under the snapshot pass: its route snapshotted into
        its staging key, and the staging key recorded in the staging map. */
    method SnapshotPath(ig: Ingress, rule: IngressRule, j: int, scheme: string, host: string, nameversion: string,
                        withSnippet: bool, m: map<string, string>, ghost p0: Partition, ghost m0: map<string, string>)
      returns (m': map<string, string>)
      requires ep.redisClient.Valid() && 0 <= j < |rule.paths|
      requires host == EffectiveHost(rule.host) && scheme == Scheme(ig, host)
      requires nameversion == NameVersion(ig) && withSnippet == HasSnippet(ig)
      requires ep.redisClient.dbOne == Apply(p0, SnapshotAll(RuleRoutes(ig, rule)[..j]))
      requires m == Recorded(m0, RuleRoutes(ig, rule)[..j])
      modifies ep.redisClient
      ensures ep.redisClient.Valid() && ep.redisClient.defaultDB == old(ep.redisClient.defaultDB)
      ensures ep.redisClient.dbOne == Apply(p0, SnapshotAll(RuleRoutes(ig, rule)[..j + 1]))
      ensures m' == Recorded(m0, RuleRoutes(ig, rule)[..j + 1])
    {
      var hp := rule.paths[j];
      var hostPath := HostPathKey(scheme, host, hp.path, hp.pathType);
      var svcport := ConstructSvcPortString(ig.namespace, hp.backend.name, IntToString(hp.backend.port));
      RuleRouteAt(ig, rule, j);
      SnapshotRoute(hostPath, svcport, nameversion, withSnippet);
      m' := m[TempPrefix + hostPath := hostPath];
      SnapshotPrefixStep(p0, RuleRoutes(ig, rule), j);
      RecordedPrefixStep(m0, RuleRoutes(ig, rule), j);
    }

    /** Path `j` of a rule under the staging pass: its route's members added
        under its staging key, and the staging key recorded in the staging map. */
    method StagePath(ig: Ingress, rule: IngressRule, j: int, scheme: string, host: string, nameversion: string,
                     withSnippet: bool, m: map<string, string>, ghost p0: Partition, ghost m0: map<string, string>)
      returns (m': map<string, string>)
      requires ep.redisClient.Valid() && 0 <= j < |rule.paths|
      requires host == EffectiveHost(rule.host) && scheme == Scheme(ig, host)
      requires nameversion == NameVersion(ig) && withSnippet == HasSnippet(ig)
      requires ep.redisClient.dbOne == Apply(p0, AddOps(Staged(RuleRoutes(ig, rule)[..j])))
      requires m == Recorded(m0, RuleRoutes(ig, rule)[..j])
      modifies ep.redisClient
      ensures ep.redisClient.Valid() && ep.redisClient.defaultDB == old(ep.redisClient.defaultDB)
      ensures ep.redisClient.dbOne == Apply(p0, AddOps(Staged(RuleRoutes(ig, rule)[..j + 1])))
      ensures m' == Recorded(m0, RuleRoutes(ig, rule)[..j + 1])
    {
      var hp := rule.paths[j];
      var hostPath := HostPathKey(scheme, host, hp.path, hp.pathType);
      var svcport := ConstructSvcPortString(ig.namespace, hp.backend.name, IntToString(hp.backend.port));
      RuleRouteAt(ig, rule, j);
      AddRoute(TempPrefix + hostPath, svcport, nameversion, withSnippet);
      m' := m[TempPrefix + hostPath := hostPath];
      StagePrefixStep(p0, RuleRoutes(ig, rule), j);
      RecordedPrefixStep(m0, RuleRoutes(ig, rule), j);
    }

    // ----- one rule -----

    /** The path loop of add for one rule. */
    method AddRule(ig: Ingress, rule: IngressRule, tlsHosts: map<string, string>, nameversion: string, withSnippet: bool)
      requires ep.redisClient.Valid()
      requires tlsHosts.Keys == TlsHosts(ig.tls) && nameversion == NameVersion(ig) && withSnippet == HasSnippet(ig)
      modifies ep.redisClient
      ensures ep.redisClient.Valid() && ep.redisClient.defaultDB == old(ep.redisClient.defaultDB)
      ensures ep.redisClient.dbOne == Apply(old(ep.redisClient.dbOne), AddOps(RuleRoutes(ig, rule)))
    {
      var client := ep.redisClient;
      ghost var p0 := client.dbOne;
      var host, scheme := RuleHostScheme(ig, rule, tlsHosts);
      ghost var rr := RuleRoutes(ig, rule);
      var j := 0;
      while j < |rule.paths|
        invariant 0 <= j <= |rule.paths|
        invariant client.Valid() && client.defaultDB == old(client.defaultDB)
        invariant client.dbOne == Apply(p0, AddOps(rr[..j]))
      {
        AddPath(ig, rule, j, scheme, host, nameversion, withSnippet, p0);
        j := j + 1;
      }
      assert rr[..j] == rr;
    }

    /** The path loop of delete for one rule. */
    method DeleteRule(ig: Ingress, rule: IngressRule, tlsHosts: map<string, string>, nameversion: string, withSnippet: bool)
      requires ep.redisClient.Valid()
      requires tlsHosts.Keys == TlsHosts(ig.tls) && nameversion == NameVersion(ig) && withSnippet == HasSnippet(ig)
      modifies ep.redisClient
      ensures ep.redisClient.Valid() && ep.redisClient.defaultDB == old(ep.redisClient.defaultDB)
      ensures ep.redisClient.dbOne == Apply(old(ep.redisClient.dbOne), RemOps(RuleRoutes(ig, rule)))
    {
      var client := ep.redisClient;
      ghost var p0 := client.dbOne;
      var host, scheme := RuleHostScheme(ig, rule, tlsHosts);
      ghost var rr := RuleRoutes(ig, rule);
      var j := 0;
      while j < |rule.paths|
        invariant 0 <= j <= |rule.paths|
        invariant client.Valid() && client.defaultDB == old(client.defaultDB)
        invariant client.dbOne == Apply(p0, RemOps(rr[..j]))
      {
        RemovePath(ig, rule, j, scheme, host, nameversion, withSnippet, p0);
        j := j + 1;
      }
      assert rr[..j] == rr;
    }

    /** The path loop of the snapshot pass for one rule; every route key it
        visits is recorded in the staging map under its staging key. */
    method SnapshotRule(ig: Ingress, rule: IngressRule, tlsHosts: map<string, string>, nameversion: string, withSnippet: bool,
                        m0: map<string, string>) returns (m: map<string, string>)
      requires ep.redisClient.Valid()
      requires tlsHosts.Keys == TlsHosts(ig.tls) && nameversion == NameVersion(ig) && withSnippet == HasSnippet(ig)
      modifies ep.redisClient
      ensures ep.redisClient.Valid() && ep.redisClient.defaultDB == old(ep.redisClient.defaultDB)
      ensures ep.redisClient.dbOne == Apply(old(ep.redisClient.dbOne), SnapshotAll(RuleRoutes(ig, rule)))
      ensures m == Recorded(m0, RuleRoutes(ig, rule))
    {
      var client := ep.redisClient;
      ghost var p0 := client.dbOne;
      m := m0;
      var host, scheme := RuleHostScheme(ig, rule, tlsHosts);
      ghost var rr := RuleRoutes(ig, rule);
      var j := 0;
      while j < |rule.paths|
        invariant 0 <= j <= |rule.paths|
        invariant client.Valid() && client.defaultDB == old(client.defaultDB)
        invariant client.dbOne == Apply(p0, SnapshotAll(rr[..j]))
        invariant m == Recorded(m0, rr[..j])
      {
        m := SnapshotPath(ig, rule, j, scheme, host, nameversion, withSnippet, m, p0, m0);
        j := j + 1;
      }
      assert rr[..j] == rr;
    }

    /** The path loop of the staging pass for one rule; every route key it
        visits is recorded in the staging map under its staging key. */
    method StageRule(ig: Ingress, rule: IngressRule, tlsHosts: map<string, string>, nameversion: string, withSnippet: bool,
                     m0: map<string, string>) returns (m: map<string, string>)
      requires ep.redisClient.Valid()
      requires tlsHosts.Keys == TlsHosts(ig.tls) && nameversion == NameVersion(ig) && withSnippet == HasSnippet(ig)
      modifies ep.redisClient
      ensures ep.redisClient.Valid() && ep.redisClient.defaultDB == old(ep.redisClient.defaultDB)
      ensures ep.redisClient.dbOne == Apply(old(ep.redisClient.dbOne), AddOps(Staged(RuleRoutes(ig, rule))))
      ensures m == Recorded(m0, RuleRoutes(ig, rule))
    {
      var client := ep.redisClient;
      ghost var p0 := client.dbOne;
      m := m0;
      var host, scheme := RuleHostScheme(ig, rule, tlsHosts);
      ghost var rr := RuleRoutes(ig, rule);
      var j := 0;
      while j < |rule.paths|
        invariant 0 <= j <= |rule.paths|
        invariant client.Valid() && client.defaultDB == old(client.defaultDB)
        invariant client.dbOne == Apply(p0, AddOps(Staged(rr[..j])))
        invariant m == Recorded(m0, rr[..j])
      {
        m := StagePath(ig, rule, j, scheme, host, nameversion, withSnippet, m, p0, m0);
        j := j + 1;
      }
      assert rr[..j] == rr;
    }
  
    // ----- the default backend -----

    /** The default backend block of add: its service (and the snippet key) under
        the http and then the https "*" "/" prefix key. */
    method AddDefault(ig: Ingress, nameversion: string, withSnippet: bool)
      requires ep.redisClient.Valid()
      requires nameversion == NameVersion(ig) && withSnippet == HasSnippet(ig)
      modifies ep.redisClient
      ensures ep.redisClient.Valid() && ep.redisClient.defaultDB == old(ep.redisClient.defaultDB)
      ensures ep.redisClient.dbOne == Apply(old(ep.redisClient.dbOne), AddOps(DefaultRoutes(ig)))
    {
      if ig.defaultBackend.Some? {
        var b := ig.defaultBackend.value;
        var svcport := ConstructSvcPortString(ig.namespace, b.name, IntToString(b.port));
        ghost var p0 := ep.redisClient.dbOne;
        AddRoute(HostPathKey("http", "*", "/", Prefix), svcport, nameversion, withSnippet);
        AddRoute(HostPathKey("https", "*", "/", Prefix), svcport, nameversion, withSnippet);
        AddPair(p0, RouteOf(ig, "http", "*", "/", Prefix, b), RouteOf(ig, "https", "*", "/", Prefix, b));
      }
    }

    /** The default backend block of delete. */
    method DeleteDefault(ig: Ingress, nameversion: string, withSnippet: bool)
      requires ep.redisClient.Valid()
      requires nameversion == NameVersion(ig) && withSnippet == HasSnippet(ig)
      modifies ep.redisClient
      ensures ep.redisClient.Valid() && ep.redisClient.defaultDB == old(ep.redisClient.defaultDB)
      ensures ep.redisClient.dbOne == Apply(old(ep.redisClient.dbOne), RemOps(DefaultRoutes(ig)))
    {
      if ig.defaultBackend.Some? {
        var b := ig.defaultBackend.value;
        var svcport := ConstructSvcPortString(ig.namespace, b.name, IntToString(b.port));
        ghost var p0 := ep.redisClient.dbOne;
        RemoveRoute(HostPathKey("http", "*", "/", Prefix), svcport, nameversion, withSnippet);
        RemoveRoute(HostPathKey("https", "*", "/", Prefix), svcport, nameversion, withSnippet);
        RemPair(p0, RouteOf(ig, "http", "*", "/", Prefix, b), RouteOf(ig, "https", "*", "/", Prefix, b));
      }
    }

    /** The default backend block of the snapshot pass. */
    method SnapshotDefault(ig: Ingress, nameversion: string, withSnippet: bool, m0: map<string, string>)
      returns (m: map<string, string>)
      requires ep.redisClient.Valid()
      requires nameversion == NameVersion(ig) && withSnippet == HasSnippet(ig)
      modifies ep.redisClient
      ensures ep.redisClient.Valid() && ep.redisClient.defaultDB == old(ep.redisClient.defaultDB)
      ensures ep.redisClient.dbOne == Apply(old(ep.redisClient.dbOne), SnapshotAll(DefaultRoutes(ig)))
      ensures m == Recorded(m0, DefaultRoutes(ig))
    {
      m := m0;
      if ig.defaultBackend.Some? {
        var b := ig.defaultBackend.value;
        ghost var p0 := ep.redisClient.dbOne;
        ghost var l0 := RouteOf(ig, "http", "*", "/", Prefix, b);
        ghost var l1 := RouteOf(ig, "https", "*", "/", Prefix, b);
        var hostPath := HostPathKey("http", "*", "/", Prefix);
        var svcport := ConstructSvcPortString(ig.namespace, b.name, IntToString(b.port));
        SnapshotRoute(hostPath, svcport, nameversion, withSnippet);
        m := m[TempPrefix + hostPath := hostPath];
        hostPath := HostPathKey("https", "*", "/", Prefix);
        SnapshotRoute(hostPath, svcport, nameversion, withSnippet);
        m := m[TempPrefix + hostPath := hostPath];
        SnapshotPair(p0, l0, l1);
        RecordedPair(m0, l0, l1);
      }
    }

    /** The default backend block of the staging pass. */
    method StageDefault(ig: Ingress, nameversion: string, withSnippet: bool, m0: map<string, string>)
      returns (m: map<string, string>)
      requires ep.redisClient.Valid()
      requires nameversion == NameVersion(ig) && withSnippet == HasSnippet(ig)
      modifies ep.redisClient
      ensures ep.redisClient.Valid() && ep.redisClient.defaultDB == old(ep.redisClient.defaultDB)
      ensures ep.redisClient.dbOne == Apply(old(ep.redisClient.dbOne), AddOps(Staged(DefaultRoutes(ig))))
      ensures m == Recorded(m0, DefaultRoutes(ig))
    {
      m := m0;
      if ig.defaultBackend.Some? {
        var b := ig.defaultBackend.value;
        ghost var p0 := ep.redisClient.dbOne;
        ghost var l0 := RouteOf(ig, "http", "*", "/", Prefix, b);
        ghost var l1 := RouteOf(ig, "https", "*", "/", Prefix, b);
        var hostPath := HostPathKey("http", "*", "/", Prefix);
        var svcport := ConstructSvcPortString(ig.namespace, b.name, IntToString(b.port));
        AddRoute(TempPrefix + hostPath, svcport, nameversion, withSnippet);
        m := m[TempPrefix + hostPath := hostPath];
        hostPath := HostPathKey("https", "*", "/", Prefix);
        AddRoute(TempPrefix + hostPath, svcport, nameversion, withSnippet);
        m := m[TempPrefix + hostPath := hostPath];
        StagePair(p0, l0, l1);
        RecordedPair(m0, l0, l1);
      }
    }

    // ----- add and delete -----

    /** The rule loop of add. */
    method AddRules(ig: Ingress, tlsHosts: map<string, string>, nameversion: string, withSnippet: bool)
      requires ep.redisClient.Valid()
      requires tlsHosts.Keys == TlsHosts(ig.tls) && nameversion == NameVersion(ig) && withSnippet == HasSnippet(ig)
      modifies ep.redisClient
      ensures ep.redisClient.Valid() && ep.redisClient.defaultDB == old(ep.redisClient.defaultDB)
      ensures ep.redisClient.dbOne == Apply(old(ep.redisClient.dbOne), AddOps(RulesRoutes(ig, ig.rules)))
    {
      var client := ep.redisClient;
      ghost var p0 := client.dbOne;
      var i := 0;
      while i < |ig.rules|
        invariant 0 <= i <= |ig.rules|
        invariant client.Valid() && client.defaultDB == old(client.defaultDB)
        invariant client.dbOne == Apply(p0, AddOps(RulesRoutes(ig, ig.rules[..i])))
      {
        AddRule(ig, ig.rules[i], tlsHosts, nameversion, withSnippet);
        AddBlocks(p0, RulesRoutes(ig, ig.rules[..i]), RuleRoutes(ig, ig.rules[i]));
        RulesRoutesNext(ig, ig.rules, i);
        i := i + 1;
      }
      RulesRoutesAll(ig);
    }

    /** The rule loop of delete. */
    method DeleteRules(ig: Ingress, tlsHosts: map<string, string>, nameversion: string, withSnippet: bool)
      requires ep.redisClient.Valid()
      requires tlsHosts.Keys == TlsHosts(ig.tls) && nameversion == NameVersion(ig) && withSnippet == HasSnippet(ig)
      modifies ep.redisClient
      ensures ep.redisClient.Valid() && ep.redisClient.defaultDB == old(ep.redisClient.defaultDB)
      ensures ep.redisClient.dbOne == Apply(old(ep.redisClient.dbOne), RemOps(RulesRoutes(ig, ig.rules)))
    {
      var client := ep.redisClient;
      ghost var p0 := client.dbOne;
      var i := 0;
      while i < |ig.rules|
        invariant 0 <= i <= |ig.rules|
        invariant client.Valid() && client.defaultDB == old(client.defaultDB)
        invariant client.dbOne == Apply(p0, RemOps(RulesRoutes(ig, ig.rules[..i])))
      {
        DeleteRule(ig, ig.rules[i], tlsHosts, nameversion, withSnippet);
        RemBlocks(p0, RulesRoutes(ig, ig.rules[..i]), RuleRoutes(ig, ig.rules[i]));
        RulesRoutesNext(ig, ig.rules, i);
        i := i + 1;
      }
      RulesRoutesAll(ig);
    }

    /** add: for an object that is acted on, the snippet record, then every
        route's service (and snippet key) under its route key. A payload of
        another type (`None`) or an object not acted on changes nothing. */
    method Add(obj: Option<Ingress>)
      requires ep.redisClient.Valid()
      modifies ep.redisClient
      ensures ep.redisClient.Valid() && ep.redisClient.defaultDB == old(ep.redisClient.defaultDB)
      ensures ep.redisClient.dbOne ==
        if obj.Some? && Acts(obj.value) then Apply(old(ep.redisClient.dbOne), AddIngressOps(obj.value))
        else old(ep.redisClient.dbOne)
    {
      if obj.None? {
        return;
      }
      var ig := obj.value;
      if !ep.nsManager.IncludeNamespace(ig.namespace) || !ep.atsManager.IncludeIngressClass(ig.ingressClass) {
        return;
      }
      var client := ep.redisClient;
      ghost var p0 := client.dbOne;
      var nameversion := ConstructNameVersionString(ig.namespace, ig.name, ig.resourceVersion);
      var snippet := ExtractServerSnippet(ig.annotations);
      if snippet.Ok? {
        client.DBOneSAdd(nameversion, snippet.value);
        ApplySnoc(p0, [], SAdd(nameversion, snippet.value));
      }
      ghost var p1 := client.dbOne;
      AddDefault(ig, nameversion, snippet.Ok?);
      var tlsHosts := CollectTlsHosts(ig.tls);
      AddRules(ig, tlsHosts, nameversion, snippet.Ok?);
      AddBlocks(p1, DefaultRoutes(ig), RulesRoutes(ig, ig.rules));
      ApplyConcat(p0, SnippetOps(ig), AddOps(Routes(ig)));
    }

    /** delete: for an object that is acted on, every route's service (and
        snippet key) removed from its route key; the snippet record stays. */
    method Delete(obj: Option<Ingress>)
      requires ep.redisClient.Valid()
      modifies ep.redisClient
      ensures ep.redisClient.Valid() && ep.redisClient.defaultDB == old(ep.redisClient.defaultDB)
      ensures ep.redisClient.dbOne ==
        if obj.Some? && Acts(obj.value) then Apply(old(ep.redisClient.dbOne), DeleteIngressOps(obj.value))
        else old(ep.redisClient.dbOne)
    {
      if obj.None? {
        return;
      }
      var ig := obj.value;
      if !ep.nsManager.IncludeNamespace(ig.namespace) || !ep.atsManager.IncludeIngressClass(ig.ingressClass) {
        return;
      }
      var client := ep.redisClient;
      ghost var p0 := client.dbOne;
      var nameversion := ConstructNameVersionString(ig.namespace, ig.name, ig.resourceVersion);
      var snippet := ExtractServerSnippet(ig.annotations);
      DeleteDefault(ig, nameversion, snippet.Ok?);
      var tlsHosts := CollectTlsHosts(ig.tls);
      DeleteRules(ig, tlsHosts, nameversion, snippet.Ok?);
      RemBlocks(p0, DefaultRoutes(ig), RulesRoutes(ig, ig.rules));
    }

    // ----- update -----

    /** The rule loop of the snapshot pass. */
    method SnapshotRules(ig: Ingress, tlsHosts: map<string, string>, nameversion: string, withSnippet: bool,
                         m0: map<string, string>) returns (m: map<string, string>)
      requires ep.redisClient.Valid()
      requires tlsHosts.Keys == TlsHosts(ig.tls) && nameversion == NameVersion(ig) && withSnippet == HasSnippet(ig)
      modifies ep.redisClient
      ensures ep.redisClient.Valid() && ep.redisClient.defaultDB == old(ep.redisClient.defaultDB)
      ensures ep.redisClient.dbOne == Apply(old(ep.redisClient.dbOne), SnapshotAll(RulesRoutes(ig, ig.rules)))
      ensures m == Recorded(m0, RulesRoutes(ig, ig.rules))
    {
      var client := ep.redisClient;
      ghost var p0 := client.dbOne;
      m := m0;
      var i := 0;
      while i < |ig.rules|
        invariant 0 <= i <= |ig.rules|
        invariant client.Valid() && client.defaultDB == old(client.defaultDB)
        invariant client.dbOne == Apply(p0, SnapshotAll(RulesRoutes(ig, ig.rules[..i])))
        invariant m == Recorded(m0, RulesRoutes(ig, ig.rules[..i]))
      {
        m := SnapshotRule(ig, ig.rules[i], tlsHosts, nameversion, withSnippet, m);
        SnapshotBlocks(p0, RulesRoutes(ig, ig.rules[..i]), RuleRoutes(ig, ig.rules[i]));
        RecordedConcat(m0, RulesRoutes(ig, ig.rules[..i]), RuleRoutes(ig, ig.rules[i]));
        RulesRoutesNext(ig, ig.rules, i);
        i := i + 1;
      }
      RulesRoutesAll(ig);
    }

    /** The rule loop of the staging pass. */
    method StageRules(ig: Ingress, tlsHosts: map<string, string>, nameversion: string, withSnippet: bool,
                      m0: map<string, string>) returns (m: map<string, string>)
      requires ep.redisClient.Valid()
      requires tlsHosts.Keys == TlsHosts(ig.tls) && nameversion == NameVersion(ig) && withSnippet == HasSnippet(ig)
      modifies ep.redisClient
      ensures ep.redisClient.Valid() && ep.redisClient.defaultDB == old(ep.redisClient.defaultDB)
      ensures ep.redisClient.dbOne == Apply(old(ep.redisClient.dbOne), AddOps(Staged(RulesRoutes(ig, ig.rules))))
      ensures m == Recorded(m0, RulesRoutes(ig, ig.rules))
    {
      var client := ep.redisClient;
      ghost var p0 := client.dbOne;
      m := m0;
      var i := 0;
      while i < |ig.rules|
        invariant 0 <= i <= |ig.rules|
        invariant client.Valid() && client.defaultDB == old(client.defaultDB)
        invariant client.dbOne == Apply(p0, AddOps(Staged(RulesRoutes(ig, ig.rules[..i]))))
        invariant m == Recorded(m0, RulesRoutes(ig, ig.rules[..i]))
      {
        m := StageRule(ig, ig.rules[i], tlsHosts, nameversion, withSnippet, m);
        StageBlocks(p0, RulesRoutes(ig, ig.rules[..i]), RuleRoutes(ig, ig.rules[i]));
        RecordedConcat(m0, RulesRoutes(ig, ig.rules[..i]), RuleRoutes(ig, ig.rules[i]));
        RulesRoutesNext(ig, ig.rules, i);
        i := i + 1;
      }
      RulesRoutesAll(ig);
    }

    /** The first pass of update, for the old object: every route key copied to
        its staging key, less the old object's members, and recorded in the
        staging map. */
    method SnapshotPass(ig: Ingress, m0: map<string, string>) returns (m: map<string, string>)
      requires ep.redisClient.Valid()
      modifies ep.redisClient
      ensures ep.redisClient.Valid() && ep.redisClient.defaultDB == old(ep.redisClient.defaultDB)
      ensures ep.redisClient.dbOne == Apply(old(ep.redisClient.dbOne), SnapshotAll(Routes(ig)))
      ensures m == Recorded(m0, Routes(ig))
    {
      ghost var p0 := ep.redisClient.dbOne;
      var nameversion := ConstructNameVersionString(ig.namespace, ig.name, ig.resourceVersion);
      var snippet := ExtractServerSnippet(ig.annotations);
      m := SnapshotDefault(ig, nameversion, snippet.Ok?, m0);
      var tlsHosts := CollectTlsHosts(ig.tls);
      m := SnapshotRules(ig, tlsHosts, nameversion, snippet.Ok?, m);
      SnapshotBlocks(p0, DefaultRoutes(ig), RulesRoutes(ig, ig.rules));
      RecordedConcat(m0, DefaultRoutes(ig), RulesRoutes(ig, ig.rules));
    }

    /** The second pass of update, for the new object: the snippet record, then
        every route's service (and snippet key) added to its staging key, which
        is recorded in the staging map. */
    method StagePass(ig: Ingress, m0: map<string, string>) returns (m: map<string, string>)
      requires ep.redisClient.Valid()
      modifies ep.redisClient
      ensures ep.redisClient.Valid() && ep.redisClient.defaultDB == old(ep.redisClient.defaultDB)
      ensures ep.redisClient.dbOne == Apply(old(ep.redisClient.dbOne), StageIngressOps(ig))
      ensures m == Recorded(m0, Routes(ig))
    {
      var client := ep.redisClient;
      ghost var p0 := client.dbOne;
      var nameversion := ConstructNameVersionString(ig.namespace, ig.name, ig.resourceVersion);
      var snippet := ExtractServerSnippet(ig.annotations);
      if snippet.Ok? {
        client.DBOneSAdd(nameversion, snippet.value);
        ApplySnoc(p0, [], SAdd(nameversion, snippet.value));
      }
      ghost var p1 := client.dbOne;
      m := StageDefault(ig, nameversion, snippet.Ok?, m0);
      var tlsHosts := CollectTlsHosts(ig.tls);
      m := StageRules(ig, tlsHosts, nameversion, snippet.Ok?, m);
      StageBlocks(p1, DefaultRoutes(ig), RulesRoutes(ig, ig.rules));
      RecordedConcat(m0, DefaultRoutes(ig), RulesRoutes(ig, ig.rules));
      ApplyConcat(p0, SnippetOps(ig), AddOps(Staged(Routes(ig))));
    }

    /** The merge-back loop of update: for every staging key of the staging map,
        in no particular order, its contents overwrite its route key and it is
        deleted. Whatever the order, the partition ends as `MergeBack`. */
    method MergeStaged(m: map<string, string>, ghost ks: set<string>)
      requires ep.redisClient.Valid() && StagingMap(m, ks)
      requires forall k :: k in ks ==> !IsTempKey(k)
      modifies ep.redisClient
      ensures ep.redisClient.Valid() && ep.redisClient.defaultDB == old(ep.redisClient.defaultDB)
      ensures ep.redisClient.dbOne == MergeBack(old(ep.redisClient.dbOne), ks)
    {
      var client := ep.redisClient;
      ghost var q := client.dbOne;
      MergeBackNothing(q);
      var rest := m;
      ghost var done: set<string> := {};
      PendingStart(m, ks);
      while rest != map[]
        invariant client.Valid() && client.defaultDB == old(client.defaultDB)
        invariant Pending(rest, ks, done)
        invariant client.dbOne == MergeBack(q, done)
        decreases |rest|
      {
        var key :| key in rest;
        var value := rest[key];
        PendingStep(rest, ks, done, key);
        client.DBOneSUnionStore(value, key);
        client.DBOneDel(key);
        MergeStep(q, done, value);
        rest := rest - {key};
        done := done + {value};
      }
      PendingEnd(ks, done);
    }

    /** update: a payload of another type on either side changes nothing.
        Otherwise the snapshot pass runs for the old object if it is acted on,
        the staging pass for the new object if it is acted on, and every
        recorded staging key is merged back. */
    method Update(oldObj: Option<Ingress>, newObj: Option<Ingress>)
      requires ep.redisClient.Valid()
      modifies ep.redisClient
      ensures ep.redisClient.Valid() && ep.redisClient.defaultDB == old(ep.redisClient.defaultDB)
      ensures ep.redisClient.dbOne ==
        if oldObj.Some? && newObj.Some? then
          UpdateIngress(old(ep.redisClient.dbOne), oldObj.value, newObj.value, Acts(oldObj.value), Acts(newObj.value))
        else old(ep.redisClient.dbOne)
    {
      if oldObj.None? || newObj.None? {
        return;
      }
      var o := oldObj.value;
      var n := newObj.value;
      var client := ep.redisClient;
      ghost var p0 := client.dbOne;
      ghost var oldActs := Acts(o);
      ghost var newActs := Acts(n);
      var m: map<string, string> := map[];
      ghost var ks: set<string> := {};
      if ep.nsManager.IncludeNamespace(o.namespace) && ep.atsManager.IncludeIngressClass(o.ingressClass) {
        m := SnapshotPass(o, m);
        RecordedStaging(map[], {}, Routes(o));
        ks := Keys(Routes(o));
      }
      ghost var p1 := client.dbOne;
      ghost var ops1: seq<Op> := if oldActs then SnapshotAll(Routes(o)) else [];
      ghost var m1 := m;
      ghost var ks1 := ks;
      if ep.nsManager.IncludeNamespace(n.namespace) && ep.atsManager.IncludeIngressClass(n.ingressClass) {
        m := StagePass(n, m);
        RecordedStaging(m1, ks1, Routes(n));
        ks := ks1 + Keys(Routes(n));
      }
      ghost var ops2: seq<Op> := if newActs then StageIngressOps(n) else [];
      ApplyConcat(p0, ops1, ops2);
      assert ks == MergeKeys(o, n, oldActs, newActs);
      RoutesShape(o);
      RoutesShape(n);
      MergeStaged(m, ks);
    }
  }
}
