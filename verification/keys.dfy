/** Key policy: the canonical strings the reconcilers store (util/util.go), and the
    `temp_` staging keys the update protocols use. */
module KeyPolicy {
  import opened Strings
  import opened Wrappers

  const AnnotationServerSnippet: string := "ats.ingress.kubernetes.io/server-snippet"
  const AnnotationIngressClass: string := "kubernetes.io/ingress.class"

  /** The path an Ingress rule stands for: an empty path means "/". */
  function EffectivePath(path: string): (r: string)
    ensures r != ""
    ensures path == "" ==> r == "/"
    ensures path != "" ==> r == path
  {
    if path == "" then "/" else path
  }

  /** util.ConstructHostPathString(scheme, host, path), as the three-argument builder
      is written: scheme, "://", host, then the path ("/" when empty). */
  function ConstructHostPathString(scheme: string, host: string, path: string): string
  {
    scheme + "://" + host + EffectivePath(path)
  }

  /** The host-path string starts with scheme "://" host and ends with the
      effective path. */
  lemma HostPathShape(scheme: string, host: string, path: string)
    ensures StartsWith(ConstructHostPathString(scheme, host, path), scheme + "://" + host)
    ensures ConstructHostPathString(scheme, host, path)[|scheme + "://" + host|..] == EffectivePath(path)
  {
    var r := ConstructHostPathString(scheme, host, path);
    assert r[..|scheme + "://" + host|] == scheme + "://" + host;
  }

  /** An empty path and "/" give the same route key. */
  lemma EmptyPathIsRoot(scheme: string, host: string)
    ensures ConstructHostPathString(scheme, host, "") == ConstructHostPathString(scheme, host, "/")
  {
  }

  /** Ingress path types. */
  datatype PathType = Exact | Prefix | ImplementationSpecific

  /** The tag the four-argument host-path builder puts in front of the key:
      "E+" for exact paths, "P+" otherwise. */
  function PathTypeTag(pt: PathType): (r: string)
    ensures |r| == 2 && r[1] == '+'
    ensures r[0] == 'E' <==> pt == Exact
  {
    if pt == Exact then "E+" else "P+"
  }

  /** The route key of (scheme, host, path, pathType): its tag, then the
      three-argument host-path string. */
  function HostPathKey(scheme: string, host: string, path: string, pt: PathType): string
  {
    PathTypeTag(pt) + ConstructHostPathString(scheme, host, path)
  }

  /** A route key is its path-type tag followed by the host-path string. */
  lemma HostPathKeyShape(scheme: string, host: string, path: string, pt: PathType)
    ensures |HostPathKey(scheme, host, path, pt)| >= 2
    ensures HostPathKey(scheme, host, path, pt)[0] == 'E' <==> pt == Exact
    ensures HostPathKey(scheme, host, path, pt)[0] == 'E' || HostPathKey(scheme, host, path, pt)[0] == 'P'
    ensures HostPathKey(scheme, host, path, pt)[2..] == ConstructHostPathString(scheme, host, path)
  {
  }

  /** An exact path and a prefix path never share a route key. */
  lemma ExactAndPrefixKeysDiffer(scheme: string, host: string, path: string, pt: PathType)
    requires pt != Exact
    ensures HostPathKey(scheme, host, path, Exact) != HostPathKey(scheme, host, path, pt)
  {
    HostPathKeyShape(scheme, host, path, Exact);
    HostPathKeyShape(scheme, host, path, pt);
  }

  /** Prefix and ImplementationSpecific paths carry the same tag, so the two
      share a route key: the key tells exact paths from the rest, not all three
      path types apart. */
  lemma PrefixAndImplementationSpecificShare(scheme: string, host: string, path: string)
    ensures HostPathKey(scheme, host, path, Prefix) == HostPathKey(scheme, host, path, ImplementationSpecific)
  {
  }

  /** util.ConstructSvcPortString: namespace ":" service ":" port. */
  function ConstructSvcPortString(namespace: string, svc: string, port: string): string
  {
    namespace + ":" + svc + ":" + port
  }

  /** The service-port key splits back into its three components on ':'. */
  lemma SvcPortStringParses(namespace: string, svc: string, port: string)
    requires ':' !in namespace && ':' !in svc && ':' !in port
    ensures Split(ConstructSvcPortString(namespace, svc, port), ':') == [namespace, svc, port]
  {
    var parts := [namespace, svc, port];
    assert Join(parts[2..], ':') == port;
    assert Join(parts[1..], ':') == svc + ":" + port;
    assert Join(parts, ':') == ConstructSvcPortString(namespace, svc, port);
    SplitJoin(parts, ':');
  }

  /** The protocol recorded in an endpoint member: "https" only for a port named
      exactly "https", "http" for every other name. */
  function MemberProtocol(portName: string): (r: string)
    ensures r == "https" <==> portName == "https"
    ensures r == "https" || r == "http"
  {
    if portName != "https" then "http" else portName
  }

  /** util.ConstructIPPortString: ip "#" port "#" protocol. */
  function ConstructIPPortString(ip: string, port: string, protocol: string): string
  {
    ip + "#" + port + "#" + MemberProtocol(protocol)
  }

  /** The endpoint member splits back into ip, port and protocol on '#'. */
  lemma IPPortStringParses(ip: string, port: string, portName: string)
    requires '#' !in ip && '#' !in port
    ensures Split(ConstructIPPortString(ip, port, portName), '#') == [ip, port, MemberProtocol(portName)]
  {
    var parts := [ip, port, MemberProtocol(portName)];
    assert '#' !in MemberProtocol(portName);
    assert Join(parts[2..], '#') == MemberProtocol(portName);
    assert Join(parts[1..], '#') == port + "#" + MemberProtocol(portName);
    assert Join(parts, '#') == ConstructIPPortString(ip, port, portName);
    SplitJoin(parts, '#');
  }

  /** util.ConstructNameVersionString: the snippet key "$" namespace "/" name "/" version. */
  function ConstructNameVersionString(namespace: string, name: string, version: string): string
  {
    "$" + namespace + "/" + name + "/" + version
  }

  /** The snippet key splits back into namespace, name and version on '/' after the
      leading '$'; an empty version leaves a trailing "/" and an empty last part. */
  lemma NameVersionStringParses(namespace: string, name: string, version: string)
    requires '/' !in namespace && '/' !in name && '/' !in version
    ensures Split(ConstructNameVersionString(namespace, name, version)[1..], '/') == [namespace, name, version]
  {
    var parts := [namespace, name, version];
    assert Join(parts[2..], '/') == version;
    assert Join(parts[1..], '/') == name + "/" + version;
    assert ConstructNameVersionString(namespace, name, version)[1..] == Join(parts, '/');
    SplitJoin(parts, '/');
  }

  /** util.ExtractServerSnippet: the snippet annotation's value, or an error when the
      annotation is absent. */
  function ExtractServerSnippet(ann: map<string, string>): (r: Result<string>)
    ensures r.Ok? <==> AnnotationServerSnippet in ann
    ensures r.Ok? ==> r.value == ann[AnnotationServerSnippet]
  {
    if AnnotationServerSnippet in ann then Ok(ann[AnnotationServerSnippet])
    else Err("missing annotation '" + AnnotationServerSnippet + "'")
  }

  /** util.ExtractIngressClass: the ingress-class annotation's value, or an error when
      the annotation is absent. */
  function ExtractIngressClass(ann: map<string, string>): (r: Result<string>)
    ensures r.Ok? <==> AnnotationIngressClass in ann
    ensures r.Ok? ==> r.value == ann[AnnotationIngressClass]
  {
    if AnnotationIngressClass in ann then Ok(ann[AnnotationIngressClass])
    else Err("missing annotation '" + AnnotationIngressClass + "'")
  }

  // ----- staging keys -----

  const TempPrefix: string := "temp_"

  /** The staging key "temp_" + key used by both update protocols. */
  function TempKey(k: string): string
  {
    TempPrefix + k
  }

  predicate IsTempKey(k: string) {
    StartsWith(k, TempPrefix)
  }

  /** A staging key is recognised as one, and strips back to its key. */
  lemma TempKeyShape(k: string)
    ensures IsTempKey(TempKey(k)) && TempKey(k)[5..] == k
  {
    assert TempKey(k)[..5] == TempPrefix;
  }

  /** Every staging key is the staging key of what follows its prefix. */
  lemma TempKeyStrip(x: string)
    requires IsTempKey(x)
    ensures TempKey(x[5..]) == x
  {
    assert x == x[..5] + x[5..];
  }

  lemma TempKeyInjective(a: string, b: string)
    requires TempKey(a) == TempKey(b)
    ensures a == b
  {
    TempKeyShape(a);
    TempKeyShape(b);
  }

  /** A route key is never a staging key, nor a snippet key. */
  lemma RouteKeyNotTemp(scheme: string, host: string, path: string, pt: PathType)
    ensures !IsTempKey(HostPathKey(scheme, host, path, pt))
    ensures HostPathKey(scheme, host, path, pt)[0] != '$'
  {
    HostPathKeyShape(scheme, host, path, pt);
  }

  /** A snippet key is never a staging key. */
  lemma NameVersionNotTemp(namespace: string, name: string, version: string)
    ensures !IsTempKey(ConstructNameVersionString(namespace, name, version))
  {
    assert ConstructNameVersionString(namespace, name, version)[0] == '$';
  }

  /** A service-port key is a staging key only if its namespace has an '_'; cluster
      namespace names never do. */
  lemma SvcPortKeyNotTemp(namespace: string, svc: string, port: string)
    requires '_' !in namespace
    ensures !IsTempKey(ConstructSvcPortString(namespace, svc, port))
  {
    var k := ConstructSvcPortString(namespace, svc, port);
    if |namespace| >= 5 {
      assert k[4] == namespace[4];
    } else {
      assert k[|namespace|] == ':';
    }
  }
}
