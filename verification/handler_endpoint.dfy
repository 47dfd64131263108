/** The endpoint reconciler (watcher/handlerEndpoint.go): Endpoints events become
    calls on the DefaultDB partition, which maps each service-port key
    "namespace:service:port" to the members "ip#port#protocol" serving it. */
module EndpointHandler {
  import opened Wrappers
  import opened Strings
  import opened KeyPolicy
  import opened RoutingStore
  import opened Context
  import opened Staging
  import opened Listings

  datatype EndpointAddress = EndpointAddress(ip: string)
  datatype EndpointPort = EndpointPort(name: string, port: int)
  datatype EndpointSubset = EndpointSubset(addresses: seq<EndpointAddress>, ports: seq<EndpointPort>)
  datatype Endpoints = Endpoints(namespace: string, name: string, subsets: seq<EndpointSubset>)


  /** What one port of one subset lists: the port's service-port key and one member
      "ip#port#protocol" per address of the subset, in address order. */
  function ListingOf(e: Endpoints, s: EndpointSubset, p: EndpointPort): (l: Listing)
    ensures |l.members| == |s.addresses|
  {
    var port := IntToString(p.port);
    Listing(ConstructSvcPortString(e.namespace, e.name, port), AddressMembers(s.addresses, port, p.name))
  }

  /** The member of each address through a port numbered `port` and named `portName`. */
  function AddressMembers(addrs: seq<EndpointAddress>, port: string, portName: string): (ms: seq<string>)
    ensures |ms| == |addrs|
  {
    seq(|addrs|, i requires 0 <= i < |addrs| => ConstructIPPortString(addrs[i].ip, port, portName))
  }

  /** The listings of one subset, one per port, in port order. */
  function SubsetListings(e: Endpoints, s: EndpointSubset): (ls: seq<Listing>)
    ensures |ls| == |s.ports|
    ensures forall j :: 0 <= j < |ls| ==> ls[j] == ListingOf(e, s, s.ports[j])
  {
    seq(|s.ports|, j requires 0 <= j < |s.ports| => ListingOf(e, s, s.ports[j]))
  }

  /** The listings of the subsets `ss`, subset by subset. */
  function SubsetsListings(e: Endpoints, ss: seq<EndpointSubset>): seq<Listing>
    decreases |ss|
  {
    if ss == [] then [] else SubsetsListings(e, ss[..|ss| - 1]) + SubsetListings(e, ss[|ss| - 1])
  }

  function AllListings(e: Endpoints): seq<Listing> {
    SubsetsListings(e, e.subsets)
  }

  /** Every listing comes from a subset and one of its ports. */
  lemma {:induction false} ListingsFromObject(e: Endpoints, ss: seq<EndpointSubset>, i: int)
    requires 0 <= i < |SubsetsListings(e, ss)|
    ensures exists s, p :: s in ss && p in s.ports && SubsetsListings(e, ss)[i] == ListingOf(e, s, p)
    decreases |ss|
  {
    var n := |ss|;
    var init := ss[..n - 1];
    var s := ss[n - 1];
    var a := SubsetsListings(e, init);
    var b := SubsetListings(e, s);
    assert SubsetsListings(e, ss) == a + b;
    assert ss == init + [s];
    if i < |a| {
      ListingsFromObject(e, init, i);
      var s', p :| s' in init && p in s'.ports && a[i] == ListingOf(e, s', p);
      assert s' in ss && SubsetsListings(e, ss)[i] == a[i];
    } else {
      var p := s.ports[i - |a|];
      assert SubsetsListings(e, ss)[i] == b[i - |a|] == ListingOf(e, s, p);
      assert s in ss && p in s.ports;
    }
  }

  /** Every port of every subset gives a listing. */
  lemma {:induction false} ObjectInListings(e: Endpoints, ss: seq<EndpointSubset>, s: EndpointSubset, p: EndpointPort)
    requires s in ss && p in s.ports
    ensures ListingOf(e, s, p) in SubsetsListings(e, ss)
    decreases |ss|
  {
    var n := |ss|;
    var init := ss[..n - 1];
    var a := SubsetsListings(e, init);
    var b := SubsetListings(e, ss[n - 1]);
    assert SubsetsListings(e, ss) == a + b;
    if s == ss[n - 1] {
      var j :| 0 <= j < |s.ports| && s.ports[j] == p;
      assert (a + b)[|a| + j] == b[j];
    } else {
      assert ss == init + [ss[n - 1]];
      assert s in init;
      ObjectInListings(e, init, s, p);
    }
  }

  /** Cluster namespaces never contain '_', so no listing key is a staging key. */
  lemma ListingKeysNotTemp(e: Endpoints)
    requires '_' !in e.namespace
    ensures forall l :: l in AllListings(e) ==> !IsTempKey(l.key)
  {
    forall l | l in AllListings(e) ensures !IsTempKey(l.key) {
      var i :| 0 <= i < |AllListings(e)| && AllListings(e)[i] == l;
      ListingsFromObject(e, e.subsets, i);
      var s, p :| s in e.subsets && p in s.ports && l == ListingOf(e, s, p);
      SvcPortKeyNotTemp(e.namespace, e.name, IntToString(p.port));
    }
  }

  // ----- the calls each handler issues -----

  /** add writes only the object's port keys, so it leaves no staging key
      behind. */
  lemma AddNoStaging(p: Partition, e: Endpoints)
    requires NoEmpty(p) && NoStagingKeys(p) && '_' !in e.namespace
    ensures NoStagingKeys(Apply(p, AddOps(AllListings(e))))
  {
    var r := Apply(p, AddOps(AllListings(e)));
    ListingKeysNotTemp(e);
    forall x | x in r ensures !IsTempKey(x) {
      var v :| v in Members(r, x);
      AddMembers(p, e, x, v);
    }
  }

  /** delete only removes keys, so it leaves no staging key behind. */
  lemma DeleteNoStaging(p: Partition, e: Endpoints)
    requires NoStagingKeys(p)
    ensures NoStagingKeys(Apply(p, DeleteOps(AllListings(e))))
  {
    forall x | x in Apply(p, DeleteOps(AllListings(e))) ensures !IsTempKey(x) {
      DeleteRemoves(p, e, x);
    }
  }

  /** The calls update issues for one listing: stage its members under the
      `temp_` key, copy that over the real key, drop the staging key. */
  function StageOps(l: Listing): seq<Op> {
    MemberAdds(TempKey(l.key), l.members) + [SUnionStore(l.key, TempKey(l.key)), Del(TempKey(l.key))]
  }

  /** The calls of update, made from the new object alone. */
  function UpdateOps(ls: seq<Listing>): seq<Op>
    decreases |ls|
  {
    if ls == [] then [] else UpdateOps(ls[..|ls| - 1]) + StageOps(ls[|ls| - 1])
  }

  /** The calls of delete: one Del per listing. */
  function DeleteOps(ls: seq<Listing>): (ops: seq<Op>)
    ensures |ops| == |ls| && AllDels(ops)
  {
    seq(|ls|, i requires 0 <= i < |ls| => Del(ls[i].key))
  }

  /** The overwrite each listing amounts to under update. */
  function Stages(ls: seq<Listing>): (st: seq<Stage>)
    ensures |st| == |ls|
    ensures forall i :: 0 <= i < |ls| ==> st[i] == (ls[i].key, ToSet(ls[i].members))
  {
    seq(|ls|, i requires 0 <= i < |ls| => (ls[i].key, ToSet(ls[i].members)))
  }

  // ----- what the calls do -----

  /** After add, a key holds its earlier members plus exactly the members the
      object lists for it; no member is removed. */
  lemma AddMembers(p: Partition, e: Endpoints, k: string, v: string)
    ensures v in Members(Apply(p, AddOps(AllListings(e))), k) <==> v in Members(p, k) || Lists(AllListings(e), k, v)
  {
    AddOpsNamed(AllListings(e), k);
    ListedMeans(AllListings(e), k, v);
    ApplyAdds(p, AddOps(AllListings(e)), k);
  }

  /** add only inserts members, so delivering the same event twice leaves the
      store as delivering it once. */
  lemma AddIdempotent(p: Partition, e: Endpoints)
    requires NoEmpty(p)
    ensures Apply(Apply(p, AddOps(AllListings(e))), AddOps(AllListings(e))) == Apply(p, AddOps(AllListings(e)))
  {
    AddsIdempotent(p, AddOps(AllListings(e)));
  }

  /** Staging one listing replaces its key's members by the listed ones and leaves
      no staging key behind. */
  lemma StageEffect(q: Partition, l: Listing)
    requires NoEmpty(q) && TempKey(l.key) !in q
    ensures Apply(q, StageOps(l)) == Put(q, l.key, ToSet(l.members))
  {
    var t := TempKey(l.key);
    assert t != l.key by {
      assert |t| == |l.key| + 5;
    }
    var adds := MemberAdds(t, l.members);
    var q1 := Apply(q, adds);
    var q3 := DeleteKey(UnionStore(q1, l.key, t), t);
    assert StageOps(l) == adds + [SUnionStore(l.key, t)] + [Del(t)];
    ApplySnoc(q, adds + [SUnionStore(l.key, t)], Del(t));
    ApplySnoc(q, adds, SUnionStore(l.key, t));
    var r := Put(q, l.key, ToSet(l.members));
    ApplyAdds(q, adds, t);
    MemberAddsNamed(t, l.members, t);
    assert Members(q1, t) == ToSet(l.members);
    forall x ensures Members(q3, x) == Members(r, x) {
      if x == l.key {
        assert Members(q3, x) == Members(q1, t);
      } else if x != t {
        ApplyAdds(q, adds, x);
        MemberAddsNamed(t, l.members, x);
        assert Members(q3, x) == Members(q1, x) == Members(q, x);
      }
    }
    Extensional(q3, r);
  }

  /** The calls of update overwrite the listed keys one listing after the other. */
  lemma {:induction false} UpdateEffect(q: Partition, ls: seq<Listing>)
    requires NoEmpty(q) && NoStagingKeys(q)
    requires forall l :: l in ls ==> !IsTempKey(l.key)
    ensures Apply(q, UpdateOps(ls)) == PutAll(q, Stages(ls))
    decreases |ls|
  {
    if ls != [] {
      var n := |ls|;
      var init := ls[..n - 1];
      var l := ls[n - 1];
      var st := Stages(init);
      assert forall x :: x in init ==> x in ls;
      UpdateEffect(q, init);
      ApplyConcat(q, UpdateOps(init), StageOps(l));
      PutAllNoStaging(q, st);
      StagingKeyAbsent(PutAll(q, st), l.key);
      StageEffect(PutAll(q, st), l);
      assert Stages(ls) == st + [(l.key, ToSet(l.members))];
      PutAllSnoc(q, st, (l.key, ToSet(l.members)));
    }
  }

  /** The index of the last stage writing `k`. */
  function LastStageFor(st: seq<Stage>, k: string): (i: int)
    requires exists i :: 0 <= i < |st| && st[i].0 == k
    ensures LastFor(st, i, k)
    decreases |st|
  {
    if st[|st| - 1].0 == k then |st| - 1
    else
      var i :| 0 <= i < |st| && st[i].0 == k;
      assert st[..|st| - 1][i] == st[i];
      LastStageFor(st[..|st| - 1], k)
  }

  /** update replaces the members of every key the new object lists by the members
      of its last listing for that key (so addresses no longer listed are gone),
      keeps every key it does not list, and leaves no staging key. */
  lemma UpdateReplaces(p: Partition, e: Endpoints, k: string)
    requires NoEmpty(p) && NoStagingKeys(p) && '_' !in e.namespace
    ensures NoStagingKeys(Apply(p, UpdateOps(AllListings(e))))
    ensures (forall l :: l in AllListings(e) ==> l.key != k) ==>
      Members(Apply(p, UpdateOps(AllListings(e))), k) == Members(p, k)
    ensures forall i :: LastFor(Stages(AllListings(e)), i, k) ==>
      Members(Apply(p, UpdateOps(AllListings(e))), k) == ToSet(AllListings(e)[i].members)
    ensures (exists l :: l in AllListings(e) && l.key == k) ==>
      exists s, q :: s in e.subsets && q in s.ports && ListingOf(e, s, q).key == k &&
        Members(Apply(p, UpdateOps(AllListings(e))), k) == ToSet(ListingOf(e, s, q).members)
  {
    var ls := AllListings(e);
    var st := Stages(ls);
    UpdateStaged(p, e);
    PutAllMembers(p, st, k);
    if exists l :: l in ls && l.key == k {
      LastListingFromObject(e, k);
      var i, s, q :| LastFor(st, i, k) && s in e.subsets && q in s.ports && ls[i] == ListingOf(e, s, q);
      assert st[i].1 == ToSet(ls[i].members);
    } else {
      StagesUnlisted(ls, k);
    }
  }

  /** update amounts to the staged overwrite of every listing, and leaves no
      staging key. */
  lemma UpdateStaged(p: Partition, e: Endpoints)
    requires NoEmpty(p) && NoStagingKeys(p) && '_' !in e.namespace
    ensures Apply(p, UpdateOps(AllListings(e))) == PutAll(p, Stages(AllListings(e)))
    ensures NoStagingKeys(PutAll(p, Stages(AllListings(e))))
  {
    var ls := AllListings(e);
    var st := Stages(ls);
    ListingKeysNotTemp(e);
    UpdateEffect(p, ls);
    forall i | 0 <= i < |st| ensures !IsTempKey(st[i].0) {
      assert ls[i] in ls;
    }
    PutAllNoStaging(p, st);
  }

  /** No stage writes a key that no listing has. */
  lemma StagesUnlisted(ls: seq<Listing>, k: string)
    requires forall l :: l in ls ==> l.key != k
    ensures forall i :: 0 <= i < |Stages(ls)| ==> Stages(ls)[i].0 != k
  {
    forall i | 0 <= i < |ls| ensures Stages(ls)[i].0 != k {
      assert ls[i] in ls;
    }
  }

  /** A listed key has a last stage, and its listing comes from a port of a subset. */
  lemma LastListingFromObject(e: Endpoints, k: string)
    requires exists l :: l in AllListings(e) && l.key == k
    ensures exists i, s, q ::
      LastFor(Stages(AllListings(e)), i, k) && s in e.subsets && q in s.ports && AllListings(e)[i] == ListingOf(e, s, q)
  {
    var ls := AllListings(e);
    var st := Stages(ls);
    var l :| l in ls && l.key == k;
    var j :| 0 <= j < |ls| && ls[j] == l;
    assert st[j].0 == k;
    var i := LastStageFor(st, k);
    ListingsFromObject(e, e.subsets, i);
  }

  /** delete removes every key the object lists, whatever addresses it lists, and
      keeps every other key with its members. */
  lemma DeleteRemoves(p: Partition, e: Endpoints, k: string)
    ensures k in Apply(p, DeleteOps(AllListings(e))) <==> k in p && forall l :: l in AllListings(e) ==> l.key != k
    ensures k in Apply(p, DeleteOps(AllListings(e))) ==> Apply(p, DeleteOps(AllListings(e)))[k] == p[k]
  {
    var ls := AllListings(e);
    ApplyDels(p, DeleteOps(ls), k);
    if k in Deleted(DeleteOps(ls)) {
      var i :| 0 <= i < |ls| && DeleteOps(ls)[i].key == k;
      assert ls[i] in ls;
    }
    if exists l :: l in ls && l.key == k {
      var l :| l in ls && l.key == k;
      var i :| 0 <= i < |ls| && ls[i] == l;
      assert DeleteOps(ls)[i].key == k;
    }
  }

  // ----- the handler -----

  lemma DeleteOpsSnoc(ls: seq<Listing>, l: Listing)
    ensures DeleteOps(ls + [l]) == DeleteOps(ls) + [Del(l.key)]
  {
  }

  /** Deleting one more listing's key after a prefix. */
  lemma DeleteOpsStep(p0: Partition, ls: seq<Listing>, j: int)
    requires 0 <= j < |ls|
    ensures Apply(p0, DeleteOps(ls[..j + 1])) == DeleteKey(Apply(p0, DeleteOps(ls[..j])), ls[j].key)
  {
    assert ls[..j + 1] == ls[..j] + [ls[j]];
    DeleteOpsSnoc(ls[..j], ls[j]);
    ApplySnoc(p0, DeleteOps(ls[..j]), Del(ls[j].key));
  }

  /** Adding one more member after a prefix. */
  lemma MemberAddsStep(p0: Partition, key: string, ms: seq<string>, k: int)
    requires 0 <= k < |ms|
    ensures Apply(p0, MemberAdds(key, ms[..k + 1])) == AddMember(Apply(p0, MemberAdds(key, ms[..k])), key, ms[k])
  {
    assert MemberAdds(key, ms[..k + 1]) == MemberAdds(key, ms[..k]) + [SAdd(key, ms[k])];
    ApplySnoc(p0, MemberAdds(key, ms[..k]), SAdd(key, ms[k]));
  }

  /** The copy and the drop that close the staging of one listing. */
  lemma StageOpsTail(p0: Partition, l: Listing)
    ensures Apply(p0, StageOps(l)) ==
      DeleteKey(UnionStore(Apply(p0, MemberAdds(TempKey(l.key), l.members)), l.key, TempKey(l.key)), TempKey(l.key))
  {
    var t := TempKey(l.key);
    var adds := MemberAdds(t, l.members);
    assert StageOps(l) == adds + [SUnionStore(l.key, t)] + [Del(t)];
    ApplySnoc(p0, adds + [SUnionStore(l.key, t)], Del(t));
    ApplySnoc(p0, adds, SUnionStore(l.key, t));
  }

  lemma DeleteOpsConcat(a: seq<Listing>, b: seq<Listing>)
    ensures DeleteOps(a + b) == DeleteOps(a) + DeleteOps(b)
  {
  }

  lemma ListingsSnoc(e: Endpoints, i: int)
    requires 0 <= i < |e.subsets|
    ensures SubsetsListings(e, e.subsets[..i + 1]) == SubsetsListings(e, e.subsets[..i]) + SubsetListings(e, e.subsets[i])
  {
    assert e.subsets[..i + 1][..i] == e.subsets[..i];
  }

  lemma UpdateOpsSnoc(ls: seq<Listing>, l: Listing)
    ensures UpdateOps(ls + [l]) == UpdateOps(ls) + StageOps(l)
  {
    assert (ls + [l])[..|ls|] == ls;
  }

  /** The listings before port `j` of subset `i`: the prefix the handler loops have
      worked through. */
  function ListingsBefore(e: Endpoints, i: int, j: int): seq<Listing>
    requires 0 <= i < |e.subsets| && 0 <= j <= |e.subsets[i].ports|
  {
    SubsetsListings(e, e.subsets[..i]) + SubsetListings(e, e.subsets[i])[..j]
  }

  lemma ListingsBeforeNext(e: Endpoints, i: int, j: int)
    requires 0 <= i < |e.subsets| && 0 <= j < |e.subsets[i].ports|
    ensures ListingsBefore(e, i, j + 1) == ListingsBefore(e, i, j) + [ListingOf(e, e.subsets[i], e.subsets[i].ports[j])]
  {
    var sl := SubsetListings(e, e.subsets[i]);
    assert sl[..j + 1] == sl[..j] + [sl[j]];
  }

  lemma ListingsBeforeStart(e: Endpoints, i: int)
    requires 0 <= i < |e.subsets|
    ensures ListingsBefore(e, i, 0) == SubsetsListings(e, e.subsets[..i])
  {
    assert SubsetListings(e, e.subsets[i])[..0] == [];
  }

  lemma ListingsBeforeEnd(e: Endpoints, i: int)
    requires 0 <= i < |e.subsets|
    ensures ListingsBefore(e, i, |e.subsets[i].ports|) == SubsetsListings(e, e.subsets[..i + 1])
  {
    assert e.subsets[..i + 1][..i] == e.subsets[..i];
    assert SubsetListings(e, e.subsets[i])[..|e.subsets[i].ports|] == SubsetListings(e, e.subsets[i]);
  }

  class EpHandler {
    const resourceName: string
    const ep: Endpoint

    constructor (resourceName: string, ep: Endpoint)
      ensures this.resourceName == resourceName && this.ep == ep
    {
      this.resourceName := resourceName;
      this.ep := ep;
    }

    /** Whether an event payload is acted on: it is an Endpoints object (`None`
        stands for a payload of another type) whose namespace the filter includes. */
    predicate Acts(obj: Option<Endpoints>)
      reads ep, ep.nsManager
    {
      obj.Some? && ep.nsManager.IncludeNamespace(obj.value.namespace)
    }

    /** The address loop of add for one port: one SAdd per address. */
    method AddAddresses(key: string, addrs: seq<EndpointAddress>, portnum: string, portname: string)
      requires ep.redisClient.Valid()
      modifies ep.redisClient
      ensures ep.redisClient.Valid() && ep.redisClient.dbOne == old(ep.redisClient.dbOne)
      ensures ep.redisClient.defaultDB ==
        Apply(old(ep.redisClient.defaultDB), MemberAdds(key, AddressMembers(addrs, portnum, portname)))
    {
      var client := ep.redisClient;
      ghost var p0 := client.defaultDB;
      ghost var ms := AddressMembers(addrs, portnum, portname);
      var k := 0;
      while k < |addrs|
        invariant 0 <= k <= |addrs|
        invariant client.Valid() && client.dbOne == old(client.dbOne)
        invariant client.defaultDB == Apply(p0, MemberAdds(key, ms[..k]))
      {
        var v := ConstructIPPortString(addrs[k].ip, portnum, portname);
        client.DefaultDBSAdd(key, v);
        MemberAddsStep(p0, key, ms, k);
        k := k + 1;
      }
      assert ms[..k] == ms;
    }

    /** add: every member the object lists is added under its port key. */
    method Add(obj: Option<Endpoints>)
      requires ep.redisClient.Valid()
      modifies ep.redisClient
      ensures ep.redisClient.Valid() && ep.redisClient.dbOne == old(ep.redisClient.dbOne)
      ensures ep.redisClient.defaultDB ==
        if Acts(obj) then Apply(old(ep.redisClient.defaultDB), AddOps(AllListings(obj.value)))
        else old(ep.redisClient.defaultDB)
    {
      if obj.None? || !ep.nsManager.IncludeNamespace(obj.value.namespace) {
        return;
      }
      var eps := obj.value;
      var client := ep.redisClient;
      ghost var p0 := client.defaultDB;
      var i := 0;
      while i < |eps.subsets|
        invariant 0 <= i <= |eps.subsets|
        invariant client.Valid() && client.dbOne == old(client.dbOne)
        invariant client.defaultDB == Apply(p0, AddOps(SubsetsListings(eps, eps.subsets[..i])))
      {
        var subset := eps.subsets[i];
        var j := 0;
        ListingsBeforeStart(eps, i);
        while j < |subset.ports|
          invariant 0 <= j <= |subset.ports|
          invariant client.Valid() && client.dbOne == old(client.dbOne)
          invariant client.defaultDB == Apply(p0, AddOps(ListingsBefore(eps, i, j)))
        {
          var port := subset.ports[j];
          var portnum := IntToString(port.port);
          var key := ConstructSvcPortString(eps.namespace, eps.name, portnum);
          ghost var before := ListingsBefore(eps, i, j);
          ghost var listing := ListingOf(eps, subset, port);
          AddAddresses(key, subset.addresses, portnum, port.name);
          ApplyConcat(p0, AddOps(before), MemberAdds(listing.key, listing.members));
          ListingsBeforeNext(eps, i, j);
          AddOpsSnoc(before, listing);
          j := j + 1;
        }
        ListingsBeforeEnd(eps, i);
        i := i + 1;
      }
      assert eps.subsets[..i] == eps.subsets;
    }

    /** The address loop of update for one port, followed by the copy of the
        staging key over the real key and the deletion of the staging key. */
    method StageAddresses(key: string, addrs: seq<EndpointAddress>, portnum: string, portname: string)
      requires ep.redisClient.Valid()
      modifies ep.redisClient
      ensures ep.redisClient.Valid() && ep.redisClient.dbOne == old(ep.redisClient.dbOne)
      ensures ep.redisClient.defaultDB ==
        Apply(old(ep.redisClient.defaultDB), StageOps(Listing(key, AddressMembers(addrs, portnum, portname))))
    {
      var client := ep.redisClient;
      ghost var p0 := client.defaultDB;
      ghost var ms := AddressMembers(addrs, portnum, portname);
      ghost var t := TempKey(key);
      var k := 0;
      while k < |addrs|
        invariant 0 <= k <= |addrs|
        invariant client.Valid() && client.dbOne == old(client.dbOne)
        invariant client.defaultDB == Apply(p0, MemberAdds(t, ms[..k]))
      {
        var v := ConstructIPPortString(addrs[k].ip, portnum, portname);
        client.DefaultDBSAdd(TempPrefix + key, v);
        MemberAddsStep(p0, t, ms, k);
        k := k + 1;
      }
      assert ms[..k] == ms;
      client.DefaultDBSUnionStore(key, TempPrefix + key);
      client.DefaultDBDel(TempPrefix + key);
      StageOpsTail(p0, Listing(key, ms));
    }

    /** Update: only the new object is consulted. Each listing is staged under
        `temp_<key>`, copied over the real key, and the staging key dropped. */
    method Update(oldObj: Option<Endpoints>, newObj: Option<Endpoints>)
      requires ep.redisClient.Valid()
      modifies ep.redisClient
      ensures ep.redisClient.Valid() && ep.redisClient.dbOne == old(ep.redisClient.dbOne)
      ensures ep.redisClient.defaultDB ==
        if Acts(newObj) then Apply(old(ep.redisClient.defaultDB), UpdateOps(AllListings(newObj.value)))
        else old(ep.redisClient.defaultDB)
    {
      if newObj.None? || !ep.nsManager.IncludeNamespace(newObj.value.namespace) {
        return;
      }
      var eps := newObj.value;
      var client := ep.redisClient;
      ghost var p0 := client.defaultDB;
      var i := 0;
      while i < |eps.subsets|
        invariant 0 <= i <= |eps.subsets|
        invariant client.Valid() && client.dbOne == old(client.dbOne)
        invariant client.defaultDB == Apply(p0, UpdateOps(SubsetsListings(eps, eps.subsets[..i])))
      {
        var subset := eps.subsets[i];
        var j := 0;
        ListingsBeforeStart(eps, i);
        while j < |subset.ports|
          invariant 0 <= j <= |subset.ports|
          invariant client.Valid() && client.dbOne == old(client.dbOne)
          invariant client.defaultDB == Apply(p0, UpdateOps(ListingsBefore(eps, i, j)))
        {
          var port := subset.ports[j];
          var portnum := IntToString(port.port);
          var key := ConstructSvcPortString(eps.namespace, eps.name, portnum);
          ghost var before := ListingsBefore(eps, i, j);
          ghost var listing := ListingOf(eps, subset, port);
          StageAddresses(key, subset.addresses, portnum, port.name);
          ApplyConcat(p0, UpdateOps(before), StageOps(listing));
          ListingsBeforeNext(eps, i, j);
          UpdateOpsSnoc(before, listing);
          j := j + 1;
        }
        ListingsBeforeEnd(eps, i);
        i := i + 1;
      }
      assert eps.subsets[..i] == eps.subsets;
    }

    /** The port loop of delete for one subset: one Del per port key. */
    method DeleteSubset(eps: Endpoints, s: EndpointSubset)
      requires ep.redisClient.Valid()
      modifies ep.redisClient
      ensures ep.redisClient.Valid() && ep.redisClient.dbOne == old(ep.redisClient.dbOne)
      ensures ep.redisClient.defaultDB == Apply(old(ep.redisClient.defaultDB), DeleteOps(SubsetListings(eps, s)))
    {
      var client := ep.redisClient;
      ghost var p0 := client.defaultDB;
      ghost var sl := SubsetListings(eps, s);
      var j := 0;
      while j < |s.ports|
        invariant 0 <= j <= |s.ports|
        invariant client.Valid() && client.dbOne == old(client.dbOne)
        invariant client.defaultDB == Apply(p0, DeleteOps(sl[..j]))
      {
        var portnum := IntToString(s.ports[j].port);
        var key := ConstructSvcPortString(eps.namespace, eps.name, portnum);
        client.DefaultDBDel(key);
        DeleteOpsStep(p0, sl, j);
        j := j + 1;
      }
      assert sl[..j] == sl;
    }

    /** delete: every key the object lists is deleted. */
    method Delete(obj: Option<Endpoints>)
      requires ep.redisClient.Valid()
      modifies ep.redisClient
      ensures ep.redisClient.Valid() && ep.redisClient.dbOne == old(ep.redisClient.dbOne)
      ensures ep.redisClient.defaultDB ==
        if Acts(obj) then Apply(old(ep.redisClient.defaultDB), DeleteOps(AllListings(obj.value)))
        else old(ep.redisClient.defaultDB)
    {
      if obj.None? || !ep.nsManager.IncludeNamespace(obj.value.namespace) {
        return;
      }
      var eps := obj.value;
      var client := ep.redisClient;
      ghost var p0 := client.defaultDB;
      var i := 0;
      while i < |eps.subsets|
        invariant 0 <= i <= |eps.subsets|
        invariant client.Valid() && client.dbOne == old(client.dbOne)
        invariant client.defaultDB == Apply(p0, DeleteOps(SubsetsListings(eps, eps.subsets[..i])))
      {
        ghost var before := SubsetsListings(eps, eps.subsets[..i]);
        ghost var sl := SubsetListings(eps, eps.subsets[i]);
        DeleteSubset(eps, eps.subsets[i]);
        ApplyConcat(p0, DeleteOps(before), DeleteOps(sl));
        ListingsSnoc(eps, i);
        DeleteOpsConcat(before, sl);
        i := i + 1;
      }
      assert eps.subsets[..i] == eps.subsets;
    }
  }
}
