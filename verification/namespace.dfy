/** The namespace filter (namespace/namespace.go): an allow map, an ignore map and an
    all-namespaces switch. Only the presence of a key matters, never its boolean. */
module Namespace {

  /** The flag value that selects every namespace. */
  const All: string := "all"

  class NsManager {
    var namespaceMap: map<string, bool>
    var ignoreNamespaceMap: map<string, bool>
    var allNamespaces: bool

    /** A manager as main assembles it: both maps filled, the switch still off
        until Init runs. */
    constructor (namespaces: map<string, bool>, ignored: map<string, bool>)
      ensures namespaceMap == namespaces && ignoreNamespaceMap == ignored
      ensures !allNamespaces
    {
      namespaceMap := namespaces;
      ignoreNamespaceMap := ignored;
      allNamespaces := false;
    }

    /** IncludeNamespace: an ignored namespace is never included; otherwise every
        namespace is included in all-namespaces mode, and only allow-listed ones in
        allow-list mode. */
    function IncludeNamespace(n: string): (r: bool)
      reads this
      ensures n in ignoreNamespaceMap ==> !r
      ensures n !in ignoreNamespaceMap ==> (r <==> allNamespaces || n in namespaceMap)
    {
      if allNamespaces then n !in ignoreNamespaceMap
      else n in namespaceMap && n !in ignoreNamespaceMap
    }

    /** Init selects all-namespaces mode exactly when the allow map is empty; then a
        namespace is included iff it is not ignored. */
    method Init()
      modifies this
      ensures allNamespaces <==> |namespaceMap| == 0
      ensures namespaceMap == old(namespaceMap) && ignoreNamespaceMap == old(ignoreNamespaceMap)
      ensures namespaceMap == map[] ==> forall n :: IncludeNamespace(n) <==> n !in ignoreNamespaceMap
      ensures namespaceMap != map[] ==> forall n :: IncludeNamespace(n) <==> n in namespaceMap && n !in ignoreNamespaceMap
    {
      if |namespaceMap| == 0 {
        allNamespaces := true;
      } else {
        allNamespaces := false;
      }
    }

    /** DisableAllNamespaces forces allow-list mode: with an empty allow map nothing
        is included. */
    method DisableAllNamespaces()
      modifies this
      ensures !allNamespaces
      ensures namespaceMap == old(namespaceMap) && ignoreNamespaceMap == old(ignoreNamespaceMap)
      ensures namespaceMap == map[] ==> forall n :: !IncludeNamespace(n)
    {
      allNamespaces := false;
    }
  }

  /** Two managers whose maps have the same keys and whose modes agree include the
      same namespaces, whatever booleans the maps hold. */
  lemma KeyPresenceDecides(a: NsManager, b: NsManager, n: string)
    requires a.allNamespaces == b.allNamespaces
    requires a.namespaceMap.Keys == b.namespaceMap.Keys
    requires a.ignoreNamespaceMap.Keys == b.ignoreNamespaceMap.Keys
    ensures a.IncludeNamespace(n) == b.IncludeNamespace(n)
  {
    assert n in a.namespaceMap <==> n in a.namespaceMap.Keys;
    assert n in a.ignoreNamespaceMap <==> n in a.ignoreNamespaceMap.Keys;
  }
}
