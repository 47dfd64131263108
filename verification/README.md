# trafficserver-ingress-controller: the reconciliation engine in Dafny

The Apache Traffic Server ingress controller watches Kubernetes resources and
turns every add, update and delete event into changes on a routing store (a
Redis server with two databases of string sets) and on two configuration files
of the proxy. This project models that reconciliation engine and proves what
each handler leaves behind.

- **Routing store** (`store.dfy`, module `RoutingStore`). DefaultDB maps a
  service-port key `namespace:service:port` to its endpoint members
  `ip#port#protocol`. DBOne maps a route key (a host-path string with its
  path-type tag) to the services serving it and to the snippet key
  `$namespace/name/version`, and holds each server snippet under its snippet
  key. Each partition is a `map<string, set<string>>` and a set that empties
  removes its key, as Redis does. The `Client` class holds both partitions.
  Handlers are specified by the list of store calls they issue (`Op`), and
  `Apply` gives the partition those calls leave.
- **Key policy** (`keys.dfy`, `strings.dfy`): the key builders, the annotation
  lookups, and the `temp_` staging keys of the update protocols.
- **Filters**: the namespace filter (`namespace.dfy`) and the ingress-class rule
  of the proxy manager (`proxy.dfy`, the map-backed fake manager; configuration
  reloads are counted).
- **Endpoint reconciler** (`handler_endpoint.dfy`). add inserts members; update
  stages every port key under `temp_<key>`, copies the staging key over the
  real key and deletes it; delete removes the port keys.
- **Ingress reconciler** (`ingress_routes.dfy`, `ingress_ops.dfy`,
  `handler_ingress.dfy`, `staging.dfy`, `listings.dfy`). An Ingress
  contributes *listings*: a route key and the members put under it. update
  runs a snapshot pass over the old object, a staging pass over the new one
  and a merge-back loop over the staging map. The lemmas give the final
  members of every key: old route keys, keys only the new object names, and
  untouched keys.
- **Caching-policy reconciler** (`handler_cache.dfy`): append, rewrite-first
  and filter edits over the lines of cache.config.
- **SNI-policy reconciler** (`handler_sni.dfy`, `sni_marshal.dfy`): replace,
  append and remove by fqdn over the entry list of sni.yaml, and the key order
  of a written entry.
- **ConfigMap reconciler** (`handler_configmap.dfy`).
- **Namespace flags** of the entry point (`flags.dfy`).
- **Legacy metadata** (`types.dfy`, `metadata.dfy`): host groups, hosts and
  their paths, the namespace → service → paths manager and the host →
  namespaces manager.

Go map iteration has no fixed order. Loops over Go maps are written with `:|`
(any remaining key), so every proof holds whatever order the runtime picks.
A Go panic on the modelled paths is a returned `panicked` flag, with the state
left unchanged.

## Model

| member | source | states |
|---|---|---|
| RoutingStore.AddMember | redis/redis.go:147-153 | SADD puts the member into the key's set and changes no other key |
| RoutingStore.RemoveMember | redis/redis.go:156-161 | SREM removes only that member; the key's other members and every other key stay |
| RoutingStore.UnionStore | redis/redis.go:173-178 | SUNIONSTORE with one source overwrites dest with src's members, discarding dest's old members; src and every other key are unchanged |
| RoutingStore.DeleteKey | redis/redis.go:164-170 | DEL removes exactly that key; every other key keeps its members |
| RoutingStore.Put | redis/redis.go:173-178 | an overwrite: the key holds exactly the given members and every other key is unchanged |
| RoutingStore.ApplyAdds | redis/redis.go:147-153 | a run of SADD calls adds, under each key, exactly the members the calls name |
| RoutingStore.ApplyRems | redis/redis.go:156-161 | a run of SREM calls removes, under each key, exactly the members the calls name |
| RoutingStore.ApplyDels | redis/redis.go:164-170 | a run of DEL calls removes exactly the named keys and leaves every other key's set as it was |
| RoutingStore.Apply | redis/redis.go:120-178 | whatever calls are issued, no key is left holding an empty set |
| RoutingStore.ApplyConcat | redis/redis.go:120-178 | issuing two call lists one after the other is issuing their concatenation |
| RoutingStore.AddsIdempotent | redis/redis.go:147-153 | issuing the same SADD calls twice leaves the store as issuing them once |
| RoutingStore.PutAllMembers | redis/redis.go:137-142 | after a sequence of overwrites a key holds the members of its last overwrite, and a key no overwrite names keeps its members |
| RoutingStore.Client.DefaultDBSAdd | redis/redis.go:120-125 | DefaultDB gains the member under the key; DBOne is unchanged |
| RoutingStore.Client.DefaultDBDel | redis/redis.go:128-134 | DefaultDB loses the key; DBOne is unchanged |
| RoutingStore.Client.DefaultDBSUnionStore | redis/redis.go:137-142 | DefaultDB's dest is overwritten with src; DBOne is unchanged |
| RoutingStore.Client.DBOneSAdd | redis/redis.go:147-153 | DBOne gains the member under the key; DefaultDB is unchanged |
| RoutingStore.Client.DBOneSRem | redis/redis.go:156-161 | DBOne loses only that member of the key; DefaultDB is unchanged |
| RoutingStore.Client.DBOneDel | redis/redis.go:164-170 | DBOne loses the key; DefaultDB is unchanged |
| RoutingStore.Client.DBOneSUnionStore | redis/redis.go:173-178 | DBOne's dest is overwritten with src; DefaultDB is unchanged |
| RoutingStore.Client.Flush | redis/redis.go:183-188 | afterwards neither partition holds a key |
| RoutingStore.Client.GetDefaultDBKeyValues | redis/redis.go:224-259 | lists every DefaultDB key that has members, each with exactly its members |
| RoutingStore.Client.GetDBOneKeyValues | redis/redis.go:261-296 | lists every DBOne key that has members, each with exactly its members |
| KeyPolicy.EffectivePath | util/util.go:101-103 | an empty path becomes "/", and any other path is kept |
| KeyPolicy.HostPathShape | util/util.go:100-106 | the host-path string is scheme "://" host followed by the effective path |
| KeyPolicy.EmptyPathIsRoot | util/util.go:100-106 | an empty path and "/" give the same host-path string |
| KeyPolicy.PathTypeTag | watcher/handlerIngress.go:114-116 | the path-type tag is two characters ending in '+', starting with 'E' exactly for Exact paths |
| KeyPolicy.HostPathKeyShape | watcher/handlerIngress.go:114-116 | a route key is its path-type tag followed by the host-path string |
| KeyPolicy.ExactAndPrefixKeysDiffer | watcher/handlerIngress.go:114-116 | an exact path and a non-exact path never share a route key |
| KeyPolicy.PrefixAndImplementationSpecificShare | watcher/handlerIngress.go:114-116 | a Prefix path and an ImplementationSpecific path with the same scheme, host and path share one route key |
| KeyPolicy.SvcPortStringParses | util/util.go:109-111 | the service-port key splits on ':' back into namespace, service and port |
| KeyPolicy.MemberProtocol | util/util.go:114-117 | the member protocol is "https" exactly for a port named "https", and "http" for every other name |
| KeyPolicy.IPPortStringParses | util/util.go:114-119 | the endpoint member splits on '#' back into ip, port and protocol |
| KeyPolicy.NameVersionStringParses | util/util.go:121-123 | the snippet key after '$' splits on '/' into namespace, name and version; an empty version leaves an empty last part |
| KeyPolicy.ExtractServerSnippet | util/util.go:130-138 | the snippet annotation's value when the annotation is present, an error exactly when it is absent |
| KeyPolicy.ExtractIngressClass | util/util.go:140-148 | the ingress-class annotation's value when present, an error exactly when absent |
| KeyPolicy.TempKeyShape | watcher/handlerEndpoint.go:95-100 | a staging key is recognised as one and strips back to its key |
| KeyPolicy.TempKeyInjective | watcher/handlerIngress.go:174-175 | distinct keys have distinct staging keys |
| KeyPolicy.RouteKeyNotTemp | watcher/handlerIngress.go:223-226 | a route key is never a staging key and never a snippet key |
| KeyPolicy.NameVersionNotTemp | util/util.go:121-123 | a snippet key is never a staging key |
| KeyPolicy.SvcPortKeyNotTemp | watcher/handlerEndpoint.go:93-100 | a service-port key is not a staging key when the namespace has no '_' |
| Strings.Split | watcher/handlerCache.go:112 | the split gives at least one part and no part contains the separator |
| Strings.SplitCount | watcher/handlerCache.go:112 | n separators give n + 1 parts |
| Strings.SplitConcat | watcher/handlerCache.go:112 | splitting a concatenation gives the parts of the left text and then those of the right, with the left text's last part joined to the right text's first part |
| Strings.JoinSplit | watcher/handlerCache.go:112 | joining the parts of a split gives back the text |
| Strings.SplitJoin | watcher/handlerCache.go:141 | splitting the join of separator-free parts gives back the parts |
| Strings.ToLower | main/main.go:81 | the result has the same length, each character lower-cased |
| Strings.RemoveChar | main/main.go:81 | the character no longer occurs, every other character of the text remains, and no character appears that the text lacks |
| Strings.RemoveCharConcat | main/main.go:81 | removal works part by part, so the kept characters stay in their order |
| Strings.RemoveCharAbsent | main/main.go:81 | a text without the character is returned unchanged |
| Strings.IntToStringShape | watcher/handlerIngress.go:118 | the decimal text is non-empty, starts with '-' exactly for a negative number, and is digits after that |
| Strings.IntToStringInjective | watcher/handlerIngress.go:118 | distinct port numbers have distinct decimal texts, so they give distinct service-port keys |
| Namespace.NsManager.IncludeNamespace | namespace/namespace.go:33-44 | an ignored namespace is never included; otherwise every namespace is included in all-namespaces mode and only allow-listed ones in allow-list mode |
| Namespace.NsManager.Init | namespace/namespace.go:47-53 | selects all-namespaces mode exactly when the allow map is empty, then includes exactly the namespaces the ignore map does not name; in allow-list mode, exactly the allow-listed and not ignored ones |
| Namespace.NsManager.DisableAllNamespaces | namespace/namespace.go:55-57 | forces allow-list mode; with an empty allow map nothing is included |
| Namespace.KeyPresenceDecides | namespace/namespace.go:35-39 | only key presence decides inclusion, never the stored boolean |
| Proxy.FakeATSManager.IncludeIngressClass | proxy/fakeATS.go:29-39 | an empty configured class accepts every class; otherwise exactly the configured class is accepted |
| Proxy.FakeATSManager.ConfigSet | proxy/fakeATS.go:41-44 | never fails; stores v under k, overwriting, and reading k gives v while every other key reads as before |
| Proxy.FakeATSManager.ConfigGet | proxy/fakeATS.go:46-51 | the stored value for a known key, an error exactly for an unknown one |
| Proxy.FakeATSManager.Reload | proxy/ats.go:62-70 | a reload request is counted and changes no configuration record |
| EndpointHandler.ListingsFromObject | watcher/handlerEndpoint.go:54-65 | every listing the handler derives comes from a port of a subset of the object |
| EndpointHandler.ObjectInListings | watcher/handlerEndpoint.go:54-65 | every port of every subset gives a listing |
| EndpointHandler.ListingKeysNotTemp | watcher/handlerEndpoint.go:93-95 | no derived port key is a staging key |
| EndpointHandler.AddMembers | watcher/handlerEndpoint.go:54-65 | after add a key holds a member exactly when it held it before or some subset × port × address lists it; nothing is removed |
| EndpointHandler.AddIdempotent | watcher/handlerEndpoint.go:54-65 | delivering the same add twice leaves the store as delivering it once |
| EndpointHandler.StageEffect | watcher/handlerEndpoint.go:94-100 | staging one port replaces its key's members by exactly the listed members and leaves no staging key |
| EndpointHandler.UpdateEffect | watcher/handlerEndpoint.go:89-103 | update's calls amount to overwriting the listed keys, listing after listing |
| EndpointHandler.Stages | watcher/handlerEndpoint.go:94-100 | each port listing becomes an overwrite of its key by the set of its members |
| EndpointHandler.UpdateStaged | watcher/handlerEndpoint.go:89-103 | update's SADD/SUNIONSTORE/DEL calls on a store without staging keys amount to overwriting the port keys, and leave no staging key |
| EndpointHandler.UpdateReplaces | watcher/handlerEndpoint.go:89-103 | after update a listed key holds exactly the members of its last listing (removed addresses are gone), an unlisted key keeps its members, and no staging key remains |
| EndpointHandler.DeleteRemoves | watcher/handlerEndpoint.go:127-134 | delete removes every derived port key whatever addresses are listed, and every other key keeps its members |
| EndpointHandler.AddNoStaging | watcher/handlerEndpoint.go:54-65 | add leaves a store without staging keys without staging keys |
| EndpointHandler.DeleteNoStaging | watcher/handlerEndpoint.go:127-134 | delete leaves a store without staging keys without staging keys |
| EndpointHandler.EpHandler.AddAddresses | watcher/handlerEndpoint.go:59-62 | one SADD per address into the port key |
| EndpointHandler.EpHandler.Add | watcher/handlerEndpoint.go:40-66 | for an Endpoints object in an included namespace DefaultDB becomes the result of add's calls; otherwise nothing changes; DBOne never changes |
| EndpointHandler.EpHandler.StageAddresses | watcher/handlerEndpoint.go:94-100 | one SADD per address into the staging key, then the copy over the port key and the deletion of the staging key |
| EndpointHandler.EpHandler.Update | watcher/handlerEndpoint.go:69-104 | only the new object is consulted; DefaultDB becomes the result of update's staging calls, or is unchanged for an excluded namespace or another payload |
| EndpointHandler.EpHandler.DeleteSubset | watcher/handlerEndpoint.go:128-132 | one DEL per port key of the subset |
| EndpointHandler.EpHandler.Delete | watcher/handlerEndpoint.go:113-136 | for an included Endpoints object DefaultDB becomes the result of delete's calls; otherwise nothing changes |
| IngressRoutes.EffectiveHost | watcher/handlerIngress.go:103-106 | a rule without a host is keyed under "*"; any other host is kept |
| IngressRoutes.Scheme | watcher/handlerIngress.go:107-110 | the scheme is "https" exactly when a TLS section names the host, else "http" |
| IngressRoutes.RouteMemberSeq | watcher/handlerIngress.go:121-125 | a route receives its service, plus the snippet key exactly when the object has a snippet |
| IngressRoutes.DefaultRoutes | watcher/handlerIngress.go:66-92 | no routes without a default backend, two (http and https) with one |
| IngressRoutes.RuleRoutes | watcher/handlerIngress.go:112-126 | one route per path of the rule |
| IngressRoutes.RulePathRouted | watcher/handlerIngress.go:102-128 | each path of each rule is a route under its effective host, its scheme, its path and its path type, serving its backend |
| IngressRoutes.PathListed | watcher/handlerIngress.go:112-125 | each path's service, and the snippet key when there is a snippet, are listed under the path's route key |
| IngressRoutes.DefaultBackendListed | watcher/handlerIngress.go:66-92 | a default backend's service (and snippet key) is listed under both the http and the https "*" "/" prefix keys |
| IngressRoutes.RoutesShape | watcher/handlerIngress.go:66-128 | every route is keyed by a host-path key, is no staging key, and carries one service then the snippet key exactly when there is a snippet |
| IngressRoutes.SnippetKeyNotRoute | watcher/handlerIngress.go:58-63 | the snippet key is neither a route key nor a staging key |
| IngressRoutes.RuleRouteAt | watcher/handlerIngress.go:114-119 | the route of path j is keyed by its scheme, host, path and type and lists its service port and snippet key |
| IngressOps.AddIngressEffect | watcher/handlerIngress.go:60-128 | after add every key holds its earlier members plus exactly what the routes list under it, plus the snippet under the snippet key |
| IngressOps.AddIngressIdempotent | watcher/handlerIngress.go:60-128 | delivering the same add twice leaves the store as delivering it once |
| IngressOps.DeleteIngressEffect | watcher/handlerIngress.go:358-425 | delete removes from every key exactly the members the routes list under it; other members stay |
| IngressOps.DeleteKeepsSnippet | watcher/handlerIngress.go:362-425 | delete leaves the snippet record in place |
| IngressOps.AddIngressNoStaging | watcher/handlerIngress.go:60-128 | add leaves a store without staging keys without staging keys |
| IngressOps.DeleteIngressNoStaging | watcher/handlerIngress.go:398-424 | delete leaves a store without staging keys without staging keys |
| IngressOps.SnapshotOne | watcher/handlerIngress.go:225-236 | the snapshot of one route overwrites its staging key with the route key's members minus the route's own members |
| IngressOps.SnapshotAllEffect | watcher/handlerIngress.go:209-239 | the snapshot pass overwrites the staging keys route after route, each from the route key as it was before update |
| IngressOps.SnapshotMembers | watcher/handlerIngress.go:209-239 | after the snapshot pass the staging key of a route key holds its members minus its last route's members, and no other key changes |
| IngressOps.SecondPass | watcher/handlerIngress.go:253-325 | the staging pass adds the new snippet record and the new object's members under the staging keys |
| IngressOps.PassesOldKey | watcher/handlerIngress.go:153-326 | after both passes the staging key of an old route key holds its members minus the members of the old object's last route for that key, plus the new contribution |
| IngressOps.PassesNewKey | watcher/handlerIngress.go:246-326 | after both passes the staging key of a key the old object does not name holds exactly the new contribution |
| IngressOps.UpdateOldKey | watcher/handlerIngress.go:153-331 | update leaves a route key of the old object with its prior members minus the members of the old object's last route for that key, plus the new contribution; members of an earlier old route for the same key are not subtracted |
| IngressOps.UpdateNewOnlyKey | watcher/handlerIngress.go:259-331 | a key only the new object names ends with exactly the new contribution; members other Ingresses put there are lost |
| IngressOps.UpdateUntouchedKey | watcher/handlerIngress.go:253-331 | a key neither object names keeps its members, apart from the new snippet record; the old snippet record is kept |
| IngressOps.UpdateLeavesNoStaging | watcher/handlerIngress.go:328-331 | update leaves no staging key |
| IngressOps.RecordedStaging | watcher/handlerIngress.go:225-226 | recording routes in the staging map keeps it a map from staging key to route key covering every visited route key |
| IngressOps.UpdateKeepsEarlierRouteMember | watcher/handlerIngress.go:167-240 | a member that an earlier old route lists under a key, and the last old route for that key does not, survives update |
| IngressOps.DuplicateKeyCounterexample | watcher/handlerIngress.go:167-240 | an old object whose default backend and a host-less "/" prefix rule share the http "*" "/" key keeps the default backend there after an update that drops both |
| IngressOps.IntendedFirstPass | watcher/handlerIngress.go:167-240 | copying every old route key before removing any member leaves each staging key with its key's members less everything the old object lists under it |
| IngressOps.IntendedUpdateOldKey | watcher/handlerIngress.go:153-331 | with that first pass, update leaves an old route key with its prior members less all the old object's members for it, plus the new contribution |
| Staging.MergeBack | watcher/handlerIngress.go:328-331 | after the merge-back each merged key holds its staging key's members, the staging keys are empty, and every other key is unchanged, in whatever order the map is visited |
| Staging.MergeStep | watcher/handlerIngress.go:329-330 | one copy-then-delete round extends the merge-back by one key |
| Staging.PutAllNoStaging | watcher/handlerEndpoint.go:99-100 | overwriting keys that are not staging keys keeps the partition free of staging keys |
| IngressHandler.IgHandler.CollectTlsHosts | watcher/handlerIngress.go:94-100 | the TLS host table holds exactly the hosts the TLS sections name |
| IngressHandler.IgHandler.RuleHostScheme | watcher/handlerIngress.go:103-110 | the rule's effective host and its scheme |
| IngressHandler.IgHandler.AddRoute | watcher/handlerIngress.go:121-125 | the service, then the snippet key when there is one, added under the route key |
| IngressHandler.IgHandler.RemoveRoute | watcher/handlerIngress.go:417-421 | the service, then the snippet key when there is one, removed from the route key |
| IngressHandler.IgHandler.SnapshotRoute | watcher/handlerIngress.go:225-236 | the route key copied to its staging key, then the route's members removed from it |
| IngressHandler.IgHandler.AddPath | watcher/handlerIngress.go:112-126 | add's calls for one more path of a rule |
| IngressHandler.IgHandler.RemovePath | watcher/handlerIngress.go:408-422 | delete's calls for one more path of a rule |
| IngressHandler.IgHandler.SnapshotPath | watcher/handlerIngress.go:219-237 | the snapshot pass's calls for one more path, with its staging key recorded |
| IngressHandler.IgHandler.StagePath | watcher/handlerIngress.go:307-323 | the staging pass's calls for one more path, with its staging key recorded |
| IngressHandler.IgHandler.AddRule | watcher/handlerIngress.go:102-126 | add's calls for every path of one rule |
| IngressHandler.IgHandler.DeleteRule | watcher/handlerIngress.go:398-422 | delete's calls for every path of one rule |
| IngressHandler.IgHandler.SnapshotRule | watcher/handlerIngress.go:209-237 | the snapshot pass's calls for every path of one rule, each staging key recorded |
| IngressHandler.IgHandler.StageRule | watcher/handlerIngress.go:297-323 | the staging pass's calls for every path of one rule, each staging key recorded |
| IngressHandler.IgHandler.AddDefault | watcher/handlerIngress.go:66-92 | the default backend's service (and snippet key) added under the http and https "*" "/" keys |
| IngressHandler.IgHandler.DeleteDefault | watcher/handlerIngress.go:364-388 | the default backend's service (and snippet key) removed from both "*" "/" keys |
| IngressHandler.IgHandler.SnapshotDefault | watcher/handlerIngress.go:166-199 | both "*" "/" keys snapshotted into their staging keys and recorded |
| IngressHandler.IgHandler.StageDefault | watcher/handlerIngress.go:258-287 | the new default backend's members added under both "*" "/" staging keys, recorded |
| IngressHandler.IgHandler.AddRules | watcher/handlerIngress.go:102-128 | add's calls for every rule |
| IngressHandler.IgHandler.DeleteRules | watcher/handlerIngress.go:398-424 | delete's calls for every rule |
| IngressHandler.IgHandler.SnapshotRules | watcher/handlerIngress.go:209-239 | the snapshot pass's calls for every rule |
| IngressHandler.IgHandler.StageRules | watcher/handlerIngress.go:297-325 | the staging pass's calls for every rule |
| IngressHandler.IgHandler.SnapshotPass | watcher/handlerIngress.go:160-240 | the whole snapshot pass of the old object, every route key recorded |
| IngressHandler.IgHandler.StagePass | watcher/handlerIngress.go:249-326 | the whole staging pass of the new object, snippet record included, every route key recorded |
| IngressHandler.IgHandler.MergeStaged | watcher/handlerIngress.go:328-331 | the merge-back loop, in any map order, leaves exactly MergeBack of the recorded keys |
| IngressHandler.IgHandler.Add | watcher/handlerIngress.go:40-129 | for an Ingress in an included namespace with a matching class DBOne becomes the result of add's calls; otherwise nothing changes; DefaultDB never changes |
| IngressHandler.IgHandler.Delete | watcher/handlerIngress.go:342-425 | for an acted-on Ingress DBOne becomes the result of delete's calls; otherwise nothing changes |
| IngressHandler.IgHandler.Update | watcher/handlerIngress.go:138-332 | DBOne becomes both passes (each gated on its own object) followed by the merge-back of every recorded key |
| CacheHandler.AddedLinesFromRules | watcher/handlerCache.go:52-76 | every added line is the line of a well-formed rule whose action is "cache" |
| CacheHandler.RuleLineAdded | watcher/handlerCache.go:52-76 | every well-formed "cache" rule contributes its "type=pattern ttl-in-cache=ttl" line |
| CacheHandler.AddAppendsLines | watcher/handlerCache.go:78-90 | for a file that is empty or ends with a newline, after add the file reads as the old lines, then the added lines in rule order, then the empty remainder |
| CacheHandler.AddGluesUnterminated | watcher/handlerCache.go:78-90 | for a file whose last line has no final newline, add runs that non-empty last line and the first added line together into one line; the other added lines follow, then the empty remainder |
| CacheHandler.FirstContaining | watcher/handlerCache.go:133-138 | the index of the first line containing the selector, or -1 when none does |
| CacheHandler.RewriteFirst | watcher/handlerCache.go:133-138 | rewriting never changes the number of lines |
| CacheHandler.RewriteFirstOnly | watcher/handlerCache.go:133-138 | the rewrite changes only the first matching line, which becomes the rule's line |
| CacheHandler.UpdateLines | watcher/handlerCache.go:112-139 | update never changes the number of lines |
| CacheHandler.UpdateWithoutMatches | watcher/handlerCache.go:133-141 | a rule with no matching line is dropped, not appended |
| CacheHandler.KeptLines | watcher/handlerCache.go:187-199 | delete keeps exactly the lines containing no recorded "type=pattern" |
| CacheHandler.KeptLinesConcat | watcher/handlerCache.go:187-199 | the kept lines stay in their original order |
| CacheHandler.SameTypePatterns | watcher/handlerCache.go:167-185 | with two cache rules of one type only the later pattern is recorded |
| CacheHandler.SameTypeDeleteKeepsEarlier | watcher/handlerCache.go:167-199 | with two cache rules of one type, delete removes the later rule's line and keeps the earlier rule's |
| CacheHandler.CollectAddedLines | watcher/handlerCache.go:51-76 | the first loop of add builds exactly the added lines |
| CacheHandler.AppendLines | watcher/handlerCache.go:86-90 | the write loop appends each line with a newline |
| CacheHandler.RewriteFirstLine | watcher/handlerCache.go:133-138 | the line loop of update rewrites exactly the first match |
| CacheHandler.IsDoomed | watcher/handlerCache.go:189-195 | the map loop of delete decides whether the line contains some recorded "type=pattern" |
| CacheHandler.AtsCacheHandler.UpdateAts | watcher/handlerCache.go:30-38 | one reload request, configuration records unchanged |
| CacheHandler.AtsCacheHandler.Add | watcher/handlerCache.go:41-93 | without rules nothing changes and no reload happens; otherwise the added lines are appended to the file (created if missing) and one reload is requested |
| CacheHandler.AtsCacheHandler.Update | watcher/handlerCache.go:96-146 | without rules or without a readable file nothing changes; otherwise the file becomes the rewritten lines joined by newlines, and one reload is requested |
| CacheHandler.AtsCacheHandler.Delete | watcher/handlerCache.go:149-207 | without a readable file or rules nothing changes; otherwise the file becomes the kept lines joined by newlines, and one reload is requested |
| SniMarshal.SortedKeys | watcher/handlerSni.go:72-80 | the sorted keys list every key of the set, once each |
| SniMarshal.SortedKeysAscending | watcher/handlerSni.go:79-80 | the sorted keys are strictly ascending in byte order |
| SniMarshal.KeyOrder | watcher/handlerSni.go:60-92 | the written key order lists every key of the entry, and only those |
| SniMarshal.KeyOrderShape | watcher/handlerSni.go:54-95 | "fqdn" comes first when present, and the keys after it are in ascending order |
| SniMarshal.KeyOrderDistinct | watcher/handlerSni.go:54-95 | no key is written twice |
| SniMarshal.MarshalRoundTrip | watcher/handlerSni.go:54-95 | reading a written entry back gives the entry |
| SniHandler.Load | watcher/handlerSni.go:236-250 | a missing or empty file loads as an empty list |
| SniHandler.Written | watcher/handlerSni.go:253-271 | the file is written empty exactly for an empty list |
| SniHandler.LoadWritten | watcher/handlerSni.go:236-271 | loading what was written gives back the same list |
| SniHandler.SpecEntry | watcher/handlerSni.go:118-127 | a spec entry is acted on exactly when it is a map with a non-empty string fqdn |
| SniHandler.FirstWithFqdn | watcher/handlerSni.go:129-137 | the index of the first entry with the fqdn, or -1 exactly when no entry has it |
| SniHandler.Placed | watcher/handlerSni.go:128-140 | an entry replaces the first entry with its fqdn in place, leaving the others, or is appended when none has it |
| SniHandler.PlacedFqdns | watcher/handlerSni.go:128-140 | placing an entry keeps every fqdn and adds its own |
| SniHandler.PlacedKeepsOthers | watcher/handlerSni.go:128-140 | placing an entry leaves every entry with another fqdn where it was |
| SniHandler.AddEntriesEffect | watcher/handlerSni.go:118-141 | add never removes an entry: the fqdns become the old ones plus the spec's, and entries whose fqdn the spec does not name stay in place |
| SniHandler.AddEntriesContains | watcher/handlerSni.go:118-141 | a spec entry whose fqdn no later spec entry repeats is in the list after add |
| SniHandler.NewMap | watcher/handlerSni.go:163-170 | the new map binds exactly the spec's fqdns, each to an entry with that fqdn |
| SniHandler.Replaced | watcher/handlerSni.go:176-184 | each existing entry is replaced by the new map's entry for its fqdn, if any, at its position |
| SniHandler.UpdateKeepsFqdns | watcher/handlerSni.go:163-192 | update keeps every old fqdn in its position and the list gains exactly the spec's new fqdns |
| SniHandler.KeptEntries | watcher/handlerSni.go:222-228 | delete keeps exactly the entries whose fqdn is not deleted |
| SniHandler.KeptEntriesConcat | watcher/handlerSni.go:222-228 | the kept entries stay in their relative order |
| SniHandler.DeleteFqdns | watcher/handlerSni.go:213-230 | after delete no entry has a deleted fqdn and every other fqdn remains |
| SniHandler.PlaceEntry | watcher/handlerSni.go:128-140 | the inner loop of add places one entry |
| SniHandler.AppendUnseen | watcher/handlerSni.go:186-190 | the map loop of update appends the unseen fqdns' entries, each once, in any order |
| SniHandler.CollectNewMap | watcher/handlerSni.go:163-170 | the loop builds exactly the new map |
| SniHandler.ReplaceExisting | watcher/handlerSni.go:176-184 | the loop over existing entries replaces in place and records the seen fqdns |
| SniHandler.AtsSniHandler.ReloadSni | watcher/handlerSni.go:274-282 | one reload request, configuration records unchanged |
| SniHandler.AtsSniHandler.Add | watcher/handlerSni.go:103-145 | without spec.sni nothing changes and no reload happens; otherwise the placed list is written and one reload is requested |
| SniHandler.AtsSniHandler.Update | watcher/handlerSni.go:148-195 | without spec.sni nothing changes; otherwise existing entries are replaced in place, the unseen new fqdns appended, the list written and one reload requested |
| SniHandler.AtsSniHandler.Delete | watcher/handlerSni.go:198-233 | without spec.sni nothing changes; otherwise the kept entries are written in order and one reload is requested |
| ConfigMapHandler.CMHandler.UpdateObj | watcher/handlerConfigmap.go:38-52 | a ConfigMap sets every data pair, so each data key reads back its value and other records read as before; another payload sets nothing |
| ConfigMapHandler.CMHandler.Add | watcher/handlerConfigmap.go:34-36 | add is update on the added object |
| ConfigMapHandler.CMHandler.Update | watcher/handlerConfigmap.go:55-57 | update uses only the new object |
| ConfigMapHandler.CMHandler.Delete | watcher/handlerConfigmap.go:60-63 | delete changes nothing |
| Flags.FillMap | main/main.go:80-87 | the map holds exactly the non-empty items of the flag, each mapped to true |
| Flags.ParseNamespaces | main/main.go:73-98 | the result is an error exactly when the proxy namespace is empty; otherwise the watch map holds the named namespaces (none for "all") and the ignore map the ignored ones (none for an empty flag), all mapped to true |
| Flags.NamedShape | main/main.go:81-85 | every stored namespace is non-empty, lower-case, without spaces or commas |
| Flags.ItemNamed | main/main.go:81-86 | every non-empty item, lower-cased and stripped of spaces, is a key |
| Flags.EmptyFlagNamesNothing | main/main.go:91-98 | an empty list flag names no namespace |
| Metadata.SvcPaths.CheckAddSvc | types/metadataManagers.go:145-151 | an unknown service gets an empty set; known services are untouched |
| Metadata.SvcPaths.AddSvcPath | types/metadataManagers.go:154-163 | the path joins its own service's set, created if needed; no other service changes |
| Metadata.SvcPaths.DelSvcPath | types/metadataManagers.go:167-183 | the path leaves its service's set; true exactly when that empties the set, and then the service is dropped |
| Metadata.AddSvcPathNormal | types/metadataManagers.go:154-163 | adding a path leaves no service without paths |
| Metadata.DelSvcPathNormal | types/metadataManagers.go:167-183 | deleting a path leaves no service without paths, unless no service is left at all |
| Metadata.DelNamespaceLookup | types/metadataManagers.go:57-68 | deleting a path from the namespace record removes exactly that path from its namespace and service |
| Metadata.DelNamespaceKeys | types/metadataManagers.go:57-68 | the namespace is dropped exactly when the path was the last of its namespace; no other namespace changes |
| Metadata.DelNamespaceNormal | types/metadataManagers.go:57-68 | deleting a path leaves no namespace without services and no service without paths |
| Metadata.NsSvc.SetNamespaceSvcPaths | types/metadataManagers.go:44-54 | the path is recorded under the namespace and its service, nothing else changes, HasSvc then holds, and NumNamespace grows by one exactly when the namespace is new |
| Metadata.NsSvc.DelNamespaceSvcPath | types/metadataManagers.go:57-68 | the path leaves its namespace and service, nothing else changes, and the namespace is dropped, lowering NumNamespace by one, exactly when its last service goes |
| Metadata.NsSvc.NoHostPathInNamespace | types/metadataManagers.go:90-107 | true exactly when no path under the namespace has that host and path name |
| Metadata.HostNamespaces.CheckInit | types/metadataManagers.go:231-237 | an unknown host gets an empty set; known hosts are untouched |
| Metadata.HostNamespaces.AddNamespace | types/metadataManagers.go:241-246 | the namespace joins the host's set, and hostPathInNamespace then holds |
| Metadata.HostNamespaces.DelNamespace | types/metadataManagers.go:251-263 | the namespace leaves the host's set, so hostPathInNamespace no longer holds for it; true exactly when the set empties, and then the host is dropped |
| Metadata.HostNamespaces.HostOnlyInNamespace | types/metadataManagers.go:278-292 | true exactly when the host is known and its set is exactly that namespace; false for an unknown host |
| Types.Load | types/types.go:64-72 | exactly the filter-passing keys of src are copied over dest, overwriting; other dest keys keep their values |
| Types.ConfigMap.LoadAnnotations | types/types.go:75-77 | load into the annotations; data untouched |
| Types.ConfigMap.LoadData | types/types.go:80-82 | load into the data; annotations untouched |
| Types.ConfigMap.DelFromData | types/types.go:85-89 | only that key leaves the data, and no value is held for it afterwards |
| Types.ConfigMap.SetData | types/types.go:102-106 | adds or overwrites one key; HasKeyVal then holds for it and every other key's HasKeyVal is unchanged |
| Types.Host.AddPath | types/types.go:243-250 | panics on an existing path name without change; otherwise maps the name to the path |
| Types.Host.DelPath | types/types.go:253-257 | removes only that path name |
| Types.Host.HasDuplicatePath | types/types.go:261-268 | true exactly when the path exists and its namespace differs from the new one |
| Types.HostGroup.AddHost | types/types.go:156-163 | panics on an existing host without change; otherwise maps the host name to the host |
| Types.HostGroup.DelHost | types/types.go:166-178 | every path of the host is deregistered from the service manager, then the host is removed; an unknown host panics |
| Types.HostGroup.HostOnlyInNamespace | types/types.go:192-196 | true exactly when HostPathInNamespace holds for the namespace and for no other namespace |
| Types.CreateSSPairs | types/types.go:410-424 | nothing for an empty map; otherwise one pair per filter-passing key with its value, each key once |


The observers below have no row of their own; their meaning is given by the
contracts of the rowed members that are stated in terms of them:

- `Types.ConfigMap.HasKeyVal` (types/types.go:92-98): `ConfigMap.SetData` and `ConfigMap.DelFromData`.
- `Types.HostGroup.HasHost` and `Types.HostGroup.GetHost` (types/types.go:148-152, 181-185): `HostGroup.AddHost`.
- `Types.HostGroup.HostPathInNamespace` (types/types.go:188-190) and `Metadata.HostNamespaces.HostPathInNamespace` (types/metadataManagers.go:266-275): `HostGroup.HostOnlyInNamespace`, `HostNamespaces.AddNamespace` and `HostNamespaces.DelNamespace`.
- `Types.Host.HasPath` and `Types.Host.GetPath` (types/types.go:228-240): `Host.AddPath`, `Host.DelPath` and `Host.HasDuplicatePath`.
- `Types.Path.InNamespace` (types/types.go:365-367): `Host.HasDuplicatePath`.
- `Metadata.SvcPaths.Has` and `Metadata.NsSvc.HasSvc` (types/metadataManagers.go:194-199, 79-86): `NsSvc.SetNamespaceSvcPaths`.
- `Metadata.SvcPaths.NumSvc` (types/metadataManagers.go:202-206): `NsSvc.DelNamespaceSvcPath`, through the namespace it drops.
- `Metadata.NsSvc.NumNamespace` (types/metadataManagers.go:71-75): `NsSvc.SetNamespaceSvcPaths` and `NsSvc.DelNamespaceSvcPath`.

## Left out

- Logging, `PrintAllKeys`, `String()` dumps and `Iter` channels: output only.
- The mutexes of the handlers and of the metadata types: the model is sequential.
- The informer wiring (`watcher/watcher.go`), the rest of `main` after the namespace flags, and the Redis connection code (`Init`, `CreateRedisClient`, `Close`, `Terminate`) are bootstrap and I/O.
- Store errors: the Redis wrappers only log them, so every store call is modelled as succeeding.
- `proxy/ats.go`: its `traffic_ctl` process calls are foreign; the handlers are modelled over the map-backed fake manager, with `CacheSet` and the SNI handler's `SniSet` both counted as a reload request (`Proxy.FakeATSManager.Reload`).
- `ExtractIngressClassName` is not part of this model; the ingress class an object declares is an input field of the `Ingress` value.
- KeyPolicy.HostPathKey: the four-argument host-path builder the ingress handler calls is not part of this model. The key is modelled as a path-type tag in front of the three-argument string: "E+" for Exact and "P+" for both Prefix and ImplementationSpecific, which is an assumption. So a Prefix path and an ImplementationSpecific path with the same scheme, host and path share a route key (KeyPolicy.PrefixAndImplementationSpecificShare), and the key is not injective in the path type.
- EndpointHandler.UpdateReplaces and KeyPolicy.SvcPortKeyNotTemp require a namespace without '_' (a Kubernetes namespace name is a DNS-1123 label: lower-case letters, digits and '-' only, so the API server guarantees this to every caller), so that no port key is itself a staging key.
- Nil `HTTP` rules, nil `PathType` pointers, backends with a nil `Service` (an Ingress backend that names a `Resource` instead, read through `.Service.Name` and `.Service.Port.Number` at watcher/handlerIngress.go:73-74, 117-118, 177-178, 228-229 and 266-267) and unstructured payloads of the wrong type make the Go handlers panic; the model's Ingress paths always carry a path type and a rule list, and the cache and SNI payloads are typed values.
- Ingress backends: `IngressRoutes.ServiceBackend` has only a service name and port, so a `Resource` backend cannot be expressed; the Go handlers panic on one.
- Values.VNumber: numbers in unstructured payloads (ConfigMap data, caching and SNI policy fields, SNI file entries) are integers only; a YAML or JSON floating-point value has no representation in the model.
- CacheHandler.AddAppendsLines: states the line layout only for a file that is empty or ends with a newline; for any other file CacheHandler.AddGluesUnterminated states that the file's last line and the first added line run together, as the append in watcher/handlerCache.go:78-90 does.
- The cache handler's hard-coded file path: the file is handler state (`cacheConfig`, `None` when missing). Open and write errors after a successful read are not modelled; the write is assumed to succeed.
- The SNI file's YAML text, `nodeFromInterface` and the temp-file-then-rename write: loading and writing are modelled as the identity on the entry list (`LoadWritten`), and `MarshalYAML` as the key order of a written entry. On an unmarshal error the source logs it and goes on with whatever the YAML decoder filled in before the error (a partial list on a type mismatch); that partial decoding is not modelled, and neither is the nil check on the endpoint before a reload are not modelled.
- Strings.ToLower: lower-cases ASCII letters only; Unicode case mapping is not modelled.
- Metadata.NsSvc.NoHostPathInNamespace: an unknown namespace dereferences nil in the source; the model requires the namespace to be known.
- Types.HostGroup.DelHost, Types.Host.AddPath and Types.HostGroup.AddHost: a Go panic is returned as a `panicked` flag with the state unchanged.
- `svcPaths` is kept as a value inside `NsSvc` (nothing else holds one), so updates in place and by replacement are not distinguished.
- `Path.SetService`, `SetServicePort` and the `Server` and `Port` records are not modelled: no modelled operation uses them.
- The annotation gate that the ConfigMap tests expect is not in the handler, and is not modelled.

## Findings

| source | as written | input that shows it | evidently intended | confidence | as-written member | corrected member |
|---|---|---|---|---|---|---|
| watcher/handlerIngress.go:167-240 | update's first pass copies a route key over its staging key once per old route and removes that route's members after each copy, so a later route with the same key copies the live key again and undoes the earlier removals | an old Ingress with default backend ns:d:80 and a host-less rule routing "/" as a prefix to ns:r:80, updated to one with neither: ns:d:80 stays under the http "*" "/" key | every member the old object lists under a key is removed from its staging key, so the key keeps only what other objects and the new object put there | not executed; medium | IngressOps.DuplicateKeyCounterexample (with IngressOps.UpdateKeepsEarlierRouteMember) | IngressOps.IntendedUpdateOldKey (with IngressOps.UpdateIngressIntended) |

The handler class (`IngressHandler.IgHandler.Update`) keeps the code as written,
so the update lemmas of `IngressOps` describe the source's behaviour. The
intended first pass is defined beside it, and its update result is proved.
