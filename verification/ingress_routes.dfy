/** What an Ingress contributes to the DBOne partition (watcher/handlerIngress.go):
    route keys "tag scheme://host path" holding the services "namespace:svc:port"
    that serve them and, when the object carries a server snippet, the snippet key
    "$namespace/name/version"; the snippet itself is stored under that key. */
module IngressRoutes {
  import opened Wrappers
  import opened Strings
  import opened KeyPolicy
  import opened RoutingStore
  import opened Listings
  import opened Staging

  datatype ServiceBackend = ServiceBackend(name: string, port: int)
  datatype HTTPIngressPath = HTTPIngressPath(path: string, pathType: PathType, backend: ServiceBackend)
  datatype IngressRule = IngressRule(host: string, paths: seq<HTTPIngressPath>)
  datatype IngressTLS = IngressTLS(hosts: seq<string>)

  /** The fields of an Ingress the reconciler reads; `ingressClass` is the class
      name the object declares. */
  datatype Ingress = Ingress(
    namespace: string,
    name: string,
    resourceVersion: string,
    annotations: map<string, string>,
    ingressClass: string,
    defaultBackend: Option<ServiceBackend>,
    tls: seq<IngressTLS>,
    rules: seq<IngressRule>)

  function NameVersion(ig: Ingress): string {
    ConstructNameVersionString(ig.namespace, ig.name, ig.resourceVersion)
  }

  function HasSnippet(ig: Ingress): bool {
    ExtractServerSnippet(ig.annotations).Ok?
  }

  function SvcPort(ig: Ingress, b: ServiceBackend): string {
    ConstructSvcPortString(ig.namespace, b.name, IntToString(b.port))
  }

  /** A rule without a host is a rule for every host, "*". */
  function EffectiveHost(host: string): (r: string)
    ensures r != ""
    ensures host == "" ==> r == "*"
    ensures host != "" ==> r == host
  {
    if host == "" then "*" else host
  }

  /** The hosts the TLS sections name. */
  function TlsHosts(tls: seq<IngressTLS>): set<string>
    decreases |tls|
  {
    if tls == [] then {}
    else TlsHosts(tls[..|tls| - 1]) + ToSet(tls[|tls| - 1].hosts)
  }

  /** A host is served over https exactly when a TLS section names it. */
  function Scheme(ig: Ingress, host: string): (r: string)
    ensures r == "https" <==> host in TlsHosts(ig.tls)
    ensures r == "https" || r == "http"
  {
    if host in TlsHosts(ig.tls) then "https" else "http"
  }

  /** The members one route receives: its service, then the snippet key when
      the object has a snippet. */
  function RouteMemberSeq(svcport: string, nameversion: string, withSnippet: bool): (ms: seq<string>)
    ensures ToSet(ms) == {svcport} + (if withSnippet then {nameversion} else {})
  {
    var ms := [svcport] + (if withSnippet then [nameversion] else []);
    assert forall v :: v in ms <==> v == svcport || (withSnippet && v == nameversion);
    ms
  }

  function RouteOf(ig: Ingress, scheme: string, host: string, path: string, pt: PathType, b: ServiceBackend): Listing {
    Listing(HostPathKey(scheme, host, path, pt), RouteMemberSeq(SvcPort(ig, b), NameVersion(ig), HasSnippet(ig)))
  }

  /** The default backend serves "*" "/" as a prefix, over http and https. */
  function DefaultRoutes(ig: Ingress): (ls: seq<Listing>)
    ensures ig.defaultBackend.None? ==> ls == []
    ensures ig.defaultBackend.Some? ==> |ls| == 2
  {
    match ig.defaultBackend
    case None => []
    case Some(b) => [RouteOf(ig, "http", "*", "/", Prefix, b), RouteOf(ig, "https", "*", "/", Prefix, b)]
  }

  /** The routes of one rule, one per path, in path order. */
  function RuleRoutes(ig: Ingress, rule: IngressRule): (ls: seq<Listing>)
    ensures |ls| == |rule.paths|
  {
    var host := EffectiveHost(rule.host);
    var scheme := Scheme(ig, host);
    seq(|rule.paths|, j requires 0 <= j < |rule.paths| =>
      RouteOf(ig, scheme, host, rule.paths[j].path, rule.paths[j].pathType, rule.paths[j].backend))
  }

  function RulesRoutes(ig: Ingress, rules: seq<IngressRule>): seq<Listing>
    decreases |rules|
  {
    if rules == [] then [] else RulesRoutes(ig, rules[..|rules| - 1]) + RuleRoutes(ig, rules[|rules| - 1])
  }

  /** Every route of the object, in the order the handler visits them. */
  function Routes(ig: Ingress): seq<Listing> {
    DefaultRoutes(ig) + RulesRoutes(ig, ig.rules)
  }

  // ----- shape of the routes -----

  /** Every route key is a host-path key: tagged 'E' or 'P', so it is neither a
      staging key nor a snippet key. */
  predicate RouteKey(k: string) {
    |k| >= 2 && (k[0] == 'E' || k[0] == 'P')
  }

  /** A route of `ig`: a host-path key, and one service member followed by the
      snippet key exactly when the object has a snippet. */
  predicate RouteShape(ig: Ingress, l: Listing) {
    RouteKey(l.key) &&
    |l.members| == (if HasSnippet(ig) then 2 else 1) &&
    (HasSnippet(ig) ==> l.members[1] == NameVersion(ig))
  }

  lemma RouteOfShape(ig: Ingress, scheme: string, host: string, path: string, pt: PathType, b: ServiceBackend)
    ensures RouteShape(ig, RouteOf(ig, scheme, host, path, pt, b))
  {
    HostPathKeyShape(scheme, host, path, pt);
  }

  lemma {:induction false} RulesRoutesShape(ig: Ingress, rules: seq<IngressRule>)
    ensures forall l :: l in RulesRoutes(ig, rules) ==> RouteShape(ig, l)
    decreases |rules|
  {
    if rules != [] {
      var rule := rules[|rules| - 1];
      RulesRoutesShape(ig, rules[..|rules| - 1]);
      var rr := RuleRoutes(ig, rule);
      forall j | 0 <= j < |rr| ensures RouteShape(ig, rr[j]) {
        var hp := rule.paths[j];
        RouteOfShape(ig, Scheme(ig, EffectiveHost(rule.host)), EffectiveHost(rule.host), hp.path, hp.pathType, hp.backend);
      }
    }
  }

  lemma RoutesShape(ig: Ingress)
    ensures forall l :: l in Routes(ig) ==> RouteShape(ig, l) && !IsTempKey(l.key)
  {
    RulesRoutesShape(ig, ig.rules);
    if ig.defaultBackend.Some? {
      var b := ig.defaultBackend.value;
      RouteOfShape(ig, "http", "*", "/", Prefix, b);
      RouteOfShape(ig, "https", "*", "/", Prefix, b);
    }
  }

  /** The snippet key is never a route key. */
  lemma SnippetKeyNotRoute(ig: Ingress)
    ensures !RouteKey(NameVersion(ig)) && !IsTempKey(NameVersion(ig))
  {
    assert NameVersion(ig)[0] == '$';
  }

  /** Each path of each rule is a route: its host ("*" for none), its scheme
      (https iff the host is a TLS host), its path and path type, serving its
      backend. */
  lemma {:induction false} RulePathRouted(ig: Ingress, rules: seq<IngressRule>, i: int, j: int)
    requires 0 <= i < |rules| && 0 <= j < |rules[i].paths|
    ensures RouteOf(ig, Scheme(ig, EffectiveHost(rules[i].host)), EffectiveHost(rules[i].host),
      rules[i].paths[j].path, rules[i].paths[j].pathType, rules[i].paths[j].backend) in RulesRoutes(ig, rules)
    decreases |rules|
  {
    var n := |rules|;
    var a := RulesRoutes(ig, rules[..n - 1]);
    var b := RuleRoutes(ig, rules[n - 1]);
    assert RulesRoutes(ig, rules) == a + b;
    if i == n - 1 {
      assert (a + b)[|a| + j] == b[j];
    } else {
      assert rules[..n - 1][i] == rules[i];
      RulePathRouted(ig, rules[..n - 1], i, j);
    }
  }

  /** add and update register, for every path of every rule, its service (and the
      snippet key when there is a snippet) under its route key. */
  lemma PathListed(ig: Ingress, i: int, j: int)
    requires 0 <= i < |ig.rules| && 0 <= j < |ig.rules[i].paths|
    ensures
      var rule := ig.rules[i];
      var hp := rule.paths[j];
      var k := HostPathKey(Scheme(ig, EffectiveHost(rule.host)), EffectiveHost(rule.host), hp.path, hp.pathType);
      SvcPort(ig, hp.backend) in Listed(Routes(ig), k) &&
      (HasSnippet(ig) ==> NameVersion(ig) in Listed(Routes(ig), k))
  {
    var rule := ig.rules[i];
    var hp := rule.paths[j];
    var l := RouteOf(ig, Scheme(ig, EffectiveHost(rule.host)), EffectiveHost(rule.host), hp.path, hp.pathType, hp.backend);
    RulePathRouted(ig, ig.rules, i, j);
    assert l in Routes(ig);
    assert SvcPort(ig, hp.backend) in l.members;
    ListedMeans(Routes(ig), l.key, SvcPort(ig, hp.backend));
    if HasSnippet(ig) {
      assert NameVersion(ig) in l.members;
      ListedMeans(Routes(ig), l.key, NameVersion(ig));
    }
  }

  /** A default backend is registered under both the http and the https "*" "/"
      prefix keys. */
  lemma DefaultBackendListed(ig: Ingress, scheme: string)
    requires ig.defaultBackend.Some? && (scheme == "http" || scheme == "https")
    ensures SvcPort(ig, ig.defaultBackend.value) in Listed(Routes(ig), HostPathKey(scheme, "*", "/", Prefix))
    ensures HasSnippet(ig) ==> NameVersion(ig) in Listed(Routes(ig), HostPathKey(scheme, "*", "/", Prefix))
  {
    var b := ig.defaultBackend.value;
    var l := RouteOf(ig, scheme, "*", "/", Prefix, b);
    assert Routes(ig)[if scheme == "http" then 0 else 1] == l;
    assert l in Routes(ig);
    assert SvcPort(ig, b) in l.members;
    ListedMeans(Routes(ig), l.key, SvcPort(ig, b));
    if HasSnippet(ig) {
      assert NameVersion(ig) in l.members;
      ListedMeans(Routes(ig), l.key, NameVersion(ig));
    }
  }

  // ----- the routes a handler loop has visited -----

  /** The route of path `j` of a rule, spelled out. */
  lemma RuleRouteAt(ig: Ingress, rule: IngressRule, j: int)
    requires 0 <= j < |rule.paths|
    ensures var host := EffectiveHost(rule.host); var hp := rule.paths[j];
      RuleRoutes(ig, rule)[j] == Listing(HostPathKey(Scheme(ig, host), host, hp.path, hp.pathType),
        RouteMemberSeq(ConstructSvcPortString(ig.namespace, hp.backend.name, IntToString(hp.backend.port)),
          NameVersion(ig), HasSnippet(ig)))
  {
  }

  lemma RulesRoutesNext(ig: Ingress, rules: seq<IngressRule>, i: int)
    requires 0 <= i < |rules|
    ensures RulesRoutes(ig, rules[..i + 1]) == RulesRoutes(ig, rules[..i]) + RuleRoutes(ig, rules[i])
  {
    assert rules[..i + 1][..i] == rules[..i];
  }

  lemma RulesRoutesAll(ig: Ingress)
    ensures RulesRoutes(ig, ig.rules[..|ig.rules|]) == RulesRoutes(ig, ig.rules)
  {
    assert ig.rules[..|ig.rules|] == ig.rules;
  }
}
