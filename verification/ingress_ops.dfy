/** The calls the ingress reconciler issues on DBOne (watcher/handlerIngress.go),
    and what they leave in the store. */
module IngressOps {
  import opened Wrappers
  import opened KeyPolicy
  import opened RoutingStore
  import opened Listings
  import opened Staging
  import opened IngressRoutes

  /** The snippet record: the snippet stored under the snippet key, when the
      object has one. */
  function SnippetOps(ig: Ingress): (ops: seq<Op>)
    ensures AllAdds(ops)
  {
    match ExtractServerSnippet(ig.annotations)
    case Ok(snippet) => [SAdd(NameVersion(ig), snippet)]
    case Err(_) => []
  }

  /** What the snippet record puts under `k`. */
  function SnippetAt(ig: Ingress, k: string): set<string> {
    if HasSnippet(ig) && k == NameVersion(ig) then {ExtractServerSnippet(ig.annotations).value} else {}
  }

  lemma SnippetNamed(ig: Ingress, k: string)
    ensures NamedAt(SnippetOps(ig), k) == SnippetAt(ig, k)
  {
    if HasSnippet(ig) {
      assert SnippetOps(ig)[..0] == [];
    }
  }

  lemma AddsConcat(a: seq<Op>, b: seq<Op>)
    requires AllAdds(a) && AllAdds(b)
    ensures AllAdds(a + b)
  {
    assert forall i :: |a| <= i < |a + b| ==> (a + b)[i] == b[i - |a|];
  }

  /** add: the snippet record, then every route's members. */
  function AddIngressOps(ig: Ingress): (ops: seq<Op>)
    ensures AllAdds(ops)
  {
    AddsConcat(SnippetOps(ig), AddOps(Routes(ig)));
    SnippetOps(ig) + AddOps(Routes(ig))
  }

  /** delete: every route's members removed; the snippet record is not touched. */
  function DeleteIngressOps(ig: Ingress): seq<Op> {
    RemOps(Routes(ig))
  }

  /** The first pass of update, for one route of the old object: copy the route
      key into its staging key, then remove the old object's members from it. */
  function SnapshotOps(l: Listing): seq<Op> {
    [SUnionStore(TempKey(l.key), l.key)] + MemberRems(TempKey(l.key), l.members)
  }

  function SnapshotAll(ls: seq<Listing>): seq<Op>
    decreases |ls|
  {
    if ls == [] then [] else SnapshotAll(ls[..|ls| - 1]) + SnapshotOps(ls[|ls| - 1])
  }

  lemma SnapshotAllSnoc(ls: seq<Listing>, l: Listing)
    ensures SnapshotAll(ls + [l]) == SnapshotAll(ls) + SnapshotOps(l)
  {
    assert (ls + [l])[..|ls|] == ls;
  }

  lemma {:induction false} SnapshotAllConcat(a: seq<Listing>, b: seq<Listing>)
    ensures SnapshotAll(a + b) == SnapshotAll(a) + SnapshotAll(b)
    decreases |b|
  {
    if b != [] {
      var b' := b[..|b| - 1];
      SplitLast(a, b);
      SnapshotAllSnoc(a + b', b[|b| - 1]);
      SnapshotAllConcat(a, b');
    } else {
      assert a + b == a;
    }
  }

  /** Concatenation regrouped around the last element of its right part. */
  lemma SplitLast<T>(a: seq<T>, b: seq<T>)
    requires b != []
    ensures a + b == (a + b[..|b| - 1]) + [b[|b| - 1]]
  {
    assert b == b[..|b| - 1] + [b[|b| - 1]];
  }

  /** The listings moved to the staging keys. */
  function Staged(ls: seq<Listing>): (r: seq<Listing>)
    ensures |r| == |ls|
    ensures forall i :: 0 <= i < |ls| ==> r[i] == Listing(TempKey(ls[i].key), ls[i].members)
  {
    seq(|ls|, i requires 0 <= i < |ls| => Listing(TempKey(ls[i].key), ls[i].members))
  }

  lemma StagedConcat(a: seq<Listing>, b: seq<Listing>)
    ensures Staged(a + b) == Staged(a) + Staged(b)
  {
  }

  /** The second pass of update, for the new object: its snippet record, then its
      members added to the staging keys. */
  function StageIngressOps(ig: Ingress): (ops: seq<Op>)
    ensures AllAdds(ops)
  {
    AddsConcat(SnippetOps(ig), AddOps(Staged(Routes(ig))));
    SnippetOps(ig) + AddOps(Staged(Routes(ig)))
  }

  /** The calls of both passes, each made only if its object is acted on. */
  function UpdateIngressOps(o: Ingress, n: Ingress, oldActs: bool, newActs: bool): seq<Op> {
    (if oldActs then SnapshotAll(Routes(o)) else []) + (if newActs then StageIngressOps(n) else [])
  }

  /** The keys the staging map collects: the route keys of each acted-on object. */
  function MergeKeys(o: Ingress, n: Ingress, oldActs: bool, newActs: bool): set<string> {
    (if oldActs then Keys(Routes(o)) else {}) + (if newActs then Keys(Routes(n)) else {})
  }

  /** The partition update leaves: both passes, then the merge-back of every
      collected key. */
  function UpdateIngress(p: Partition, o: Ingress, n: Ingress, oldActs: bool, newActs: bool): Partition {
    MergeBack(Apply(p, UpdateIngressOps(o, n, oldActs, newActs)), MergeKeys(o, n, oldActs, newActs))
  }

  // ----- add and delete -----

  /** add leaves under every key its earlier members, plus the members the routes
      list for it, plus the snippet under the snippet key. */
  lemma AddIngressEffect(p: Partition, ig: Ingress, k: string)
    ensures Members(Apply(p, AddIngressOps(ig)), k) == Members(p, k) + Listed(Routes(ig), k) + SnippetAt(ig, k)
  {
    ApplyAdds(p, AddIngressOps(ig), k);
    NamedAtConcat(SnippetOps(ig), AddOps(Routes(ig)), k);
    SnippetNamed(ig, k);
    AddOpsNamed(Routes(ig), k);
  }

  /** Delivering the same add twice leaves the store as delivering it once. */
  lemma AddIngressIdempotent(p: Partition, ig: Ingress)
    requires NoEmpty(p)
    ensures Apply(Apply(p, AddIngressOps(ig)), AddIngressOps(ig)) == Apply(p, AddIngressOps(ig))
  {
    AddsIdempotent(p, AddIngressOps(ig));
  }

  /** delete removes from every key exactly the members the routes list for it;
      other members stay. */
  lemma DeleteIngressEffect(p: Partition, ig: Ingress, k: string)
    ensures Members(Apply(p, DeleteIngressOps(ig)), k) == Members(p, k) - Listed(Routes(ig), k)
  {
    ApplyRems(p, DeleteIngressOps(ig), k);
    RemOpsNamed(Routes(ig), k);
  }

  /** No route is listed under the snippet key, nor under a staging key. */
  lemma NothingListedOffRoutes(ig: Ingress, x: string)
    requires !RouteKey(x)
    ensures Listed(Routes(ig), x) == {}
  {
    RoutesShape(ig);
    ListedUnnamed(Routes(ig), x);
  }

  /** delete leaves the snippet record in place. */
  lemma DeleteKeepsSnippet(p: Partition, ig: Ingress)
    ensures Members(Apply(p, DeleteIngressOps(ig)), NameVersion(ig)) == Members(p, NameVersion(ig))
  {
    DeleteIngressEffect(p, ig, NameVersion(ig));
    SnippetKeyNotRoute(ig);
    NothingListedOffRoutes(ig, NameVersion(ig));
  }

  /** add writes only route keys and the snippet key, so it leaves no staging
      key behind. */
  lemma AddIngressNoStaging(p: Partition, ig: Ingress)
    requires NoEmpty(p) && NoStagingKeys(p)
    ensures NoStagingKeys(Apply(p, AddIngressOps(ig)))
  {
    var r := Apply(p, AddIngressOps(ig));
    forall x | x in r ensures !IsTempKey(x) {
      if IsTempKey(x) {
        AddIngressEffect(p, ig, x);
        NothingListedOffRoutes(ig, x);
        SnippetKeyNotRoute(ig);
      }
    }
  }

  /** delete only removes members, so it leaves no staging key behind. */
  lemma DeleteIngressNoStaging(p: Partition, ig: Ingress)
    requires NoEmpty(p) && NoStagingKeys(p)
    ensures NoStagingKeys(Apply(p, DeleteIngressOps(ig)))
  {
    var r := Apply(p, DeleteIngressOps(ig));
    forall x | x in r ensures !IsTempKey(x) {
      DeleteIngressEffect(p, ig, x);
      assert Members(r, x) != {};
    }
  }

  // ----- the first pass of update -----

  /** The snapshot of one route overwrites its staging key with the route key's
      members minus the route's own members. */
  lemma SnapshotOne(q: Partition, l: Listing)
    requires NoEmpty(q)
    ensures Apply(q, SnapshotOps(l)) == Put(q, TempKey(l.key), Members(q, l.key) - ToSet(l.members))
  {
    var t := TempKey(l.key);
    assert t != l.key by {
      assert |t| == |l.key| + 5;
    }
    var rems := MemberRems(t, l.members);
    var q1 := UnionStore(q, t, l.key);
    assert Apply(q, [SUnionStore(t, l.key)]) == q1 by {
      ApplySnoc(q, [], SUnionStore(t, l.key));
    }
    ApplyConcat(q, [SUnionStore(t, l.key)], rems);
    var r := Apply(q1, rems);
    var s := Put(q, t, Members(q, l.key) - ToSet(l.members));
    forall x ensures Members(r, x) == Members(s, x) {
      ApplyRems(q1, rems, x);
      MemberRemsNamed(t, l.members, x);
    }
    Extensional(r, s);
  }

  /** The overwrite each route of the old object amounts to. */
  function Snapshots(p: Partition, ls: seq<Listing>): (st: seq<Stage>)
    ensures |st| == |ls|
    ensures forall i :: 0 <= i < |ls| ==> st[i] == (TempKey(ls[i].key), Members(p, ls[i].key) - ToSet(ls[i].members))
  {
    seq(|ls|, i requires 0 <= i < |ls| => (TempKey(ls[i].key), Members(p, ls[i].key) - ToSet(ls[i].members)))
  }

  lemma SnapshotsSnoc(p: Partition, ls: seq<Listing>, l: Listing)
    ensures Snapshots(p, ls + [l]) == Snapshots(p, ls) + [(TempKey(l.key), Members(p, l.key) - ToSet(l.members))]
  {
  }

  /** A staged overwrite of staging keys leaves every other key as it was. */
  lemma SnapshotsKeepRouteKey(p: Partition, ls: seq<Listing>, k: string)
    requires !IsTempKey(k)
    ensures Members(PutAll(p, Snapshots(p, ls)), k) == Members(p, k)
  {
    var st := Snapshots(p, ls);
    forall i | 0 <= i < |st| ensures st[i].0 != k {
      TempKeyShape(ls[i].key);
    }
    PutAllMembers(p, st, k);
  }

  /** The first pass overwrites the staging keys one route after the other, each
      from the route key as it was before update started. */
  lemma {:induction false} SnapshotAllEffect(p: Partition, ls: seq<Listing>)
    requires NoEmpty(p)
    requires forall l :: l in ls ==> !IsTempKey(l.key)
    ensures Apply(p, SnapshotAll(ls)) == PutAll(p, Snapshots(p, ls))
    decreases |ls|
  {
    if ls != [] {
      var n := |ls|;
      var init := ls[..n - 1];
      var l := ls[n - 1];
      assert forall x :: x in init ==> x in ls;
      SnapshotAllEffect(p, init);
      assert l in ls;
      SnapshotEffectStep(p, init, l);
      assert ls == init + [l];
    }
  }

  /** One more route snapshotted extends the staged overwrite by its stage. */
  lemma SnapshotEffectStep(p: Partition, init: seq<Listing>, l: Listing)
    requires NoEmpty(p) && !IsTempKey(l.key)
    requires Apply(p, SnapshotAll(init)) == PutAll(p, Snapshots(p, init))
    ensures Apply(p, SnapshotAll(init + [l])) == PutAll(p, Snapshots(p, init + [l]))
  {
    var st := Snapshots(p, init);
    SnapshotAllSnoc(init, l);
    ApplyConcat(p, SnapshotAll(init), SnapshotOps(l));
    SnapshotOne(PutAll(p, st), l);
    SnapshotsKeepRouteKey(p, init, l.key);
    SnapshotsSnoc(p, init, l);
    PutAllSnoc(p, st, (TempKey(l.key), Members(p, l.key) - ToSet(l.members)));
  }

  /** After the first pass: the staging key of a snapshot route holds the route
      key's members minus the members of its last route; every key that is no
      such staging key is as before. */
  lemma SnapshotMembers(p: Partition, ls: seq<Listing>, k: string)
    requires NoEmpty(p)
    requires forall l :: l in ls ==> !IsTempKey(l.key)
    ensures (forall l :: l in ls ==> TempKey(l.key) != k) ==> Members(Apply(p, SnapshotAll(ls)), k) == Members(p, k)
    ensures forall i :: LastListing(ls, i, k) ==>
      Members(Apply(p, SnapshotAll(ls)), TempKey(k)) == Members(p, k) - ToSet(ls[i].members)
  {
    var st := Snapshots(p, ls);
    SnapshotAllEffect(p, ls);
    PutAllMembers(p, st, k);
    PutAllMembers(p, st, TempKey(k));
    if forall l :: l in ls ==> TempKey(l.key) != k {
      forall i | 0 <= i < |st| ensures st[i].0 != k {
        assert ls[i] in ls;
      }
    }
    forall i | LastListing(ls, i, k)
      ensures Members(PutAll(p, st), TempKey(k)) == Members(p, k) - ToSet(ls[i].members)
    {
      forall j | i < j < |st| ensures st[j].0 != TempKey(k) {
        if st[j].0 == TempKey(k) {
          TempKeyInjective(ls[j].key, k);
        }
      }
      assert LastFor(st, i, TempKey(k));
    }
  }

  /** Staged listings list under a staging key what the listings list under its
      key, and nothing under any other key. */
  lemma {:induction false} StagedListed(ls: seq<Listing>, k: string)
    ensures Listed(Staged(ls), TempKey(k)) == Listed(ls, k)
    decreases |ls|
  {
    if ls != [] {
      var n := |ls|;
      assert Staged(ls)[..n - 1] == Staged(ls[..n - 1]);
      StagedListed(ls[..n - 1], k);
      if ls[n - 1].key != k {
        if TempKey(ls[n - 1].key) == TempKey(k) {
          TempKeyInjective(ls[n - 1].key, k);
        }
      }
    }
  }

  lemma StagedUnlisted(ls: seq<Listing>, x: string)
    requires forall l :: l in ls ==> TempKey(l.key) != x
    ensures Listed(Staged(ls), x) == {}
  {
    forall l | l in Staged(ls) ensures l.key != x {
      var i :| 0 <= i < |Staged(ls)| && Staged(ls)[i] == l;
      assert ls[i] in ls;
    }
    ListedUnnamed(Staged(ls), x);
  }

  // ----- update -----

  /** The second pass adds the new snippet record and the new object's members
      under the staging keys. */
  lemma SecondPass(q: Partition, n: Ingress, x: string)
    ensures Members(Apply(q, StageIngressOps(n)), x) == Members(q, x) + SnippetAt(n, x) + Listed(Staged(Routes(n)), x)
  {
    ApplyAdds(q, StageIngressOps(n), x);
    NamedAtConcat(SnippetOps(n), AddOps(Staged(Routes(n))), x);
    SnippetNamed(n, x);
    AddOpsNamed(Staged(Routes(n)), x);
  }

  lemma SplitPasses(p: Partition, o: Ingress, n: Ingress, oldActs: bool, newActs: bool)
    ensures Apply(p, UpdateIngressOps(o, n, oldActs, newActs)) ==
      Apply(Apply(p, if oldActs then SnapshotAll(Routes(o)) else []), if newActs then StageIngressOps(n) else [])
  {
    ApplyConcat(p, if oldActs then SnapshotAll(Routes(o)) else [], if newActs then StageIngressOps(n) else []);
  }

  /** The partition between the two passes of update. */
  function FirstPass(p: Partition, o: Ingress, oldActs: bool): Partition {
    Apply(p, if oldActs then SnapshotAll(Routes(o)) else [])
  }

  /** The first pass writes only staging keys. */
  lemma FirstPassRealKey(p: Partition, o: Ingress, oldActs: bool, k: string)
    requires NoEmpty(p) && !IsTempKey(k)
    ensures Members(FirstPass(p, o, oldActs), k) == Members(p, k)
  {
    if oldActs {
      RoutesShape(o);
      SnapshotAllEffect(p, Routes(o));
      SnapshotsKeepRouteKey(p, Routes(o), k);
    }
  }

  /** The first pass leaves empty the staging key of a key the old object does
      not name. */
  lemma FirstPassNewKey(p: Partition, o: Ingress, oldActs: bool, k: string)
    requires NoEmpty(p) && NoStagingKeys(p)
    requires !(oldActs && k in Keys(Routes(o)))
    ensures Members(FirstPass(p, o, oldActs), TempKey(k)) == {}
  {
    StagingKeyAbsent(p, k);
    if oldActs {
      RoutesShape(o);
      forall l | l in Routes(o) ensures TempKey(l.key) != TempKey(k) {
        if TempKey(l.key) == TempKey(k) {
          TempKeyInjective(l.key, k);
        }
      }
      SnapshotMembers(p, Routes(o), TempKey(k));
    }
  }

  /** The second pass adds under a key that is not a staging key only the new
      snippet. */
  lemma SecondPassRealKey(q: Partition, n: Ingress, k: string)
    requires !IsTempKey(k)
    ensures Members(Apply(q, StageIngressOps(n)), k) == Members(q, k) + SnippetAt(n, k)
  {
    SecondPass(q, n, k);
    forall l | l in Routes(n) ensures TempKey(l.key) != k {
      TempKeyShape(l.key);
    }
    StagedUnlisted(Routes(n), k);
  }

  /** The second pass adds under the staging key of `k` the new object's members
      for `k`. */
  lemma SecondPassStagingKey(q: Partition, n: Ingress, k: string)
    ensures Members(Apply(q, StageIngressOps(n)), TempKey(k)) == Members(q, TempKey(k)) + Listed(Routes(n), k)
  {
    SecondPass(q, n, TempKey(k));
    TempKeyShape(k);
    SnippetKeyNotRoute(n);
    StagedListed(Routes(n), k);
  }

  /** A key that is not a staging key keeps its members through both passes,
      except that the new snippet is added under the new snippet key. */
  lemma PassesRealKey(p: Partition, o: Ingress, n: Ingress, oldActs: bool, newActs: bool, k: string)
    requires NoEmpty(p) && !IsTempKey(k)
    ensures Members(Apply(p, UpdateIngressOps(o, n, oldActs, newActs)), k) ==
      Members(p, k) + (if newActs then SnippetAt(n, k) else {})
  {
    SplitPasses(p, o, n, oldActs, newActs);
    FirstPassRealKey(p, o, oldActs, k);
    if newActs {
      SecondPassRealKey(FirstPass(p, o, oldActs), n, k);
    }
  }

  /** After both passes, the staging key of a route key of the old object holds
      the route key's members minus the last old route's members, plus the new
      object's members for that key. */
  lemma PassesOldKey(p: Partition, o: Ingress, n: Ingress, oldActs: bool, newActs: bool, k: string, i: int)
    requires NoEmpty(p) && oldActs && LastListing(Routes(o), i, k)
    ensures Members(Apply(p, UpdateIngressOps(o, n, oldActs, newActs)), TempKey(k)) ==
      (Members(p, k) - ToSet(Routes(o)[i].members)) + (if newActs then Listed(Routes(n), k) else {})
  {
    SplitPasses(p, o, n, oldActs, newActs);
    RoutesShape(o);
    SnapshotMembers(p, Routes(o), k);
    if newActs {
      SecondPassStagingKey(FirstPass(p, o, oldActs), n, k);
    }
  }

  /** After both passes, the staging key of a key the old object does not name
      holds exactly the new object's members for that key. */
  lemma PassesNewKey(p: Partition, o: Ingress, n: Ingress, oldActs: bool, newActs: bool, k: string)
    requires NoEmpty(p) && NoStagingKeys(p)
    requires !(oldActs && k in Keys(Routes(o)))
    ensures Members(Apply(p, UpdateIngressOps(o, n, oldActs, newActs)), TempKey(k)) ==
      (if newActs then Listed(Routes(n), k) else {})
  {
    SplitPasses(p, o, n, oldActs, newActs);
    FirstPassNewKey(p, o, oldActs, k);
    if newActs {
      SecondPassStagingKey(FirstPass(p, o, oldActs), n, k);
    }
  }

  /** A route key of the old object ends up with what it held before, less the
      members of the old object's last route for it, plus what the new object
      lists under it. */
  lemma UpdateOldKey(p: Partition, o: Ingress, n: Ingress, oldActs: bool, newActs: bool, k: string, i: int)
    requires NoEmpty(p) && oldActs && LastListing(Routes(o), i, k)
    ensures Members(UpdateIngress(p, o, n, oldActs, newActs), k) ==
      (Members(p, k) - ToSet(Routes(o)[i].members)) + (if newActs then Listed(Routes(n), k) else {})
  {
    assert Routes(o)[i] in Routes(o);
    assert k in MergeKeys(o, n, oldActs, newActs);
    PassesOldKey(p, o, n, oldActs, newActs, k, i);
  }

  /** A key only the new object names ends up with exactly what the new object
      lists under it: whatever other objects had put there is gone. */
  lemma UpdateNewOnlyKey(p: Partition, o: Ingress, n: Ingress, oldActs: bool, newActs: bool, k: string)
    requires NoEmpty(p) && NoStagingKeys(p)
    requires newActs && k in Keys(Routes(n)) && !(oldActs && k in Keys(Routes(o)))
    ensures Members(UpdateIngress(p, o, n, oldActs, newActs), k) == Listed(Routes(n), k)
  {
    PassesNewKey(p, o, n, oldActs, newActs, k);
  }

  /** A key neither object names keeps its members, except that the new snippet
      is added under the new snippet key; in particular the old snippet record
      is kept. */
  lemma UpdateUntouchedKey(p: Partition, o: Ingress, n: Ingress, oldActs: bool, newActs: bool, k: string)
    requires NoEmpty(p) && NoStagingKeys(p)
    requires !IsTempKey(k) && k !in MergeKeys(o, n, oldActs, newActs)
    ensures Members(UpdateIngress(p, o, n, oldActs, newActs), k) ==
      Members(p, k) + (if newActs then SnippetAt(n, k) else {})
  {
    PassesRealKey(p, o, n, oldActs, newActs, k);
  }

  /** A key neither pass writes keeps its members through both passes. */
  lemma PassesUntouched(p: Partition, o: Ingress, n: Ingress, oldActs: bool, newActs: bool, x: string)
    requires NoEmpty(p)
    requires oldActs ==> forall l :: l in Routes(o) ==> TempKey(l.key) != x
    requires newActs ==> (forall l :: l in Routes(n) ==> TempKey(l.key) != x) && SnippetAt(n, x) == {}
    ensures Members(Apply(p, UpdateIngressOps(o, n, oldActs, newActs)), x) == Members(p, x)
  {
    SplitPasses(p, o, n, oldActs, newActs);
    if oldActs {
      RoutesShape(o);
      SnapshotMembers(p, Routes(o), x);
    }
    if newActs {
      SecondPass(FirstPass(p, o, oldActs), n, x);
      StagedUnlisted(Routes(n), x);
    }
  }

  /** update leaves no staging key behind. */
  lemma UpdateLeavesNoStaging(p: Partition, o: Ingress, n: Ingress, oldActs: bool, newActs: bool)
    requires NoEmpty(p) && NoStagingKeys(p)
    ensures NoStagingKeys(UpdateIngress(p, o, n, oldActs, newActs))
  {
    var ks := MergeKeys(o, n, oldActs, newActs);
    var r := UpdateIngress(p, o, n, oldActs, newActs);
    RoutesShape(o);
    RoutesShape(n);
    forall x | x in r ensures !IsTempKey(x) {
      if IsTempKey(x) && x[5..] !in ks {
        forall l | (oldActs && l in Routes(o)) || (newActs && l in Routes(n)) ensures TempKey(l.key) != x {
          TempKeyShape(l.key);
        }
        SnippetKeyNotRoute(n);
        PassesUntouched(p, o, n, oldActs, newActs, x);
      }
    }
  }

  // ----- an old route key listed by two routes -----

  /** As written, update subtracts from an old route key only the members of the
      old object's last route for it: each snapshot copies the live key over the
      staging key again, which undoes the removals made for an earlier route with
      the same key. A member that an earlier route lists and the last one does
      not therefore survives update, although the old object listed it. */
  lemma UpdateKeepsEarlierRouteMember(p: Partition, o: Ingress, n: Ingress, oldActs: bool, newActs: bool,
                                      k: string, i: int, v: string)
    requires NoEmpty(p) && oldActs && LastListing(Routes(o), i, k)
    requires v in Members(p, k) && v in Listed(Routes(o), k) && v !in Routes(o)[i].members
    ensures v in Members(UpdateIngress(p, o, n, oldActs, newActs), k)
  {
    UpdateOldKey(p, o, n, oldActs, newActs, k, i);
  }

  /** An Ingress whose default backend "d" and whose host-less rule routing "/"
      as a prefix to "r" both list under the http "*" "/" key. */
  function DuplicateKeyIngress(): Ingress {
    Ingress("ns", "ig", "1", map[], "", Some(ServiceBackend("d", 80)), [],
      [IngressRule("", [HTTPIngressPath("/", Prefix, ServiceBackend("r", 80))])])
  }

  /** The same Ingress with its backend and rules removed. */
  function EmptiedIngress(): Ingress {
    Ingress("ns", "ig", "2", map[], "", None, [], [])
  }

  /** Updating DuplicateKeyIngress to EmptiedIngress leaves the default backend
      "d" under the http "*" "/" key, though neither object serves it any more. */
  lemma DuplicateKeyCounterexample()
    ensures var o := DuplicateKeyIngress();
      var k := HostPathKey("http", "*", "/", Prefix);
      var d := SvcPort(o, ServiceBackend("d", 80));
      var p := map[k := {d, SvcPort(o, ServiceBackend("r", 80))}];
      d in Listed(Routes(o), k) && d !in Listed(Routes(EmptiedIngress()), k) &&
      d in Members(UpdateIngress(p, o, EmptiedIngress(), true, true), k)
  {
    var o := DuplicateKeyIngress();
    var k := HostPathKey("http", "*", "/", Prefix);
    var d := SvcPort(o, ServiceBackend("d", 80));
    var r := SvcPort(o, ServiceBackend("r", 80));
    var p := map[k := {d, r}];
    DefaultBackendListed(o, "http");
    assert d[3] != r[3];
    var rule := o.rules[0];
    assert TlsHosts(o.tls) == {};
    RuleRouteAt(o, rule, 0);
    assert RulesRoutes(o, o.rules) == RulesRoutes(o, []) + RuleRoutes(o, rule);
    assert Routes(o)[2] == RuleRoutes(o, rule)[0];
    assert Routes(o)[2] == Listing(k, [r]);
    assert LastListing(Routes(o), 2, k);
    assert Routes(EmptiedIngress()) == [];
    UpdateKeepsEarlierRouteMember(p, o, EmptiedIngress(), true, true, k, 2, d);
  }

  /** The routes with their members dropped: only their keys. */
  function Bare(ls: seq<Listing>): (r: seq<Listing>)
    ensures |r| == |ls|
    ensures forall i :: 0 <= i < |ls| ==> r[i] == Listing(ls[i].key, [])
  {
    seq(|ls|, i requires 0 <= i < |ls| => Listing(ls[i].key, []))
  }

  /** The first pass as evidently intended: every old route key is copied to its
      staging key first, and only then are all the old routes' members removed
      from the staging keys. */
  function SnapshotAllIntended(ls: seq<Listing>): seq<Op> {
    SnapshotAll(Bare(ls)) + RemOps(Staged(ls))
  }

  function UpdateIngressOpsIntended(o: Ingress, n: Ingress, oldActs: bool, newActs: bool): seq<Op> {
    (if oldActs then SnapshotAllIntended(Routes(o)) else []) + (if newActs then StageIngressOps(n) else [])
  }

  /** update with the intended first pass, followed by the same merge-back. */
  function UpdateIngressIntended(p: Partition, o: Ingress, n: Ingress, oldActs: bool, newActs: bool): Partition {
    MergeBack(Apply(p, UpdateIngressOpsIntended(o, n, oldActs, newActs)), MergeKeys(o, n, oldActs, newActs))
  }

  /** The intended first pass leaves under the staging key of an old route key
      its members less everything the routes list under it. */
  lemma IntendedFirstPass(p: Partition, ls: seq<Listing>, k: string)
    requires NoEmpty(p) && k in Keys(ls)
    requires forall l :: l in ls ==> !IsTempKey(l.key)
    ensures Members(Apply(p, SnapshotAllIntended(ls)), TempKey(k)) == Members(p, k) - Listed(ls, k)
  {
    var bare := Bare(ls);
    forall l | l in bare ensures !IsTempKey(l.key) {
      var j :| 0 <= j < |bare| && bare[j] == l;
      assert ls[j] in ls;
    }
    var i := LastListingFor(ls, k);
    assert LastListing(bare, i, k);
    SnapshotMembers(p, bare, k);
    var q1 := Apply(p, SnapshotAll(bare));
    ApplyConcat(p, SnapshotAll(bare), RemOps(Staged(ls)));
    ApplyRems(q1, RemOps(Staged(ls)), TempKey(k));
    RemOpsNamed(Staged(ls), TempKey(k));
    StagedListed(ls, k);
  }

  /** With the intended first pass, a route key of the old object ends up with
      its prior members less everything the old object lists under it, plus what
      the new object lists under it. */
  lemma IntendedUpdateOldKey(p: Partition, o: Ingress, n: Ingress, oldActs: bool, newActs: bool, k: string)
    requires NoEmpty(p) && oldActs && k in Keys(Routes(o))
    ensures Members(UpdateIngressIntended(p, o, n, oldActs, newActs), k) ==
      (Members(p, k) - Listed(Routes(o), k)) + (if newActs then Listed(Routes(n), k) else {})
  {
    var ls := Routes(o);
    RoutesShape(o);
    IntendedFirstPass(p, ls, k);
    var q := Apply(p, SnapshotAllIntended(ls));
    var second := if newActs then StageIngressOps(n) else [];
    ApplyConcat(p, SnapshotAllIntended(ls), second);
    assert UpdateIngressOpsIntended(o, n, oldActs, newActs) == SnapshotAllIntended(ls) + second;
    if newActs {
      SecondPassStagingKey(q, n, k);
    }
    assert k in MergeKeys(o, n, oldActs, newActs);
  }

  // ----- one more route visited -----

  lemma AddStep(p: Partition, before: seq<Listing>, l: Listing)
    ensures Apply(Apply(p, AddOps(before)), MemberAdds(l.key, l.members)) == Apply(p, AddOps(before + [l]))
  {
    AddOpsSnoc(before, l);
    ApplyConcat(p, AddOps(before), MemberAdds(l.key, l.members));
  }

  lemma RemStep(p: Partition, before: seq<Listing>, l: Listing)
    ensures Apply(Apply(p, RemOps(before)), MemberRems(l.key, l.members)) == Apply(p, RemOps(before + [l]))
  {
    RemOpsSnoc(before, l);
    ApplyConcat(p, RemOps(before), MemberRems(l.key, l.members));
  }

  lemma SnapshotStep(p: Partition, before: seq<Listing>, l: Listing)
    ensures Apply(Apply(p, SnapshotAll(before)), SnapshotOps(l)) == Apply(p, SnapshotAll(before + [l]))
  {
    SnapshotAllSnoc(before, l);
    ApplyConcat(p, SnapshotAll(before), SnapshotOps(l));
  }

  lemma StageStep(p: Partition, before: seq<Listing>, l: Listing)
    ensures Apply(Apply(p, AddOps(Staged(before))), MemberAdds(TempKey(l.key), l.members)) ==
      Apply(p, AddOps(Staged(before + [l])))
  {
    StagedConcat(before, [l]);
    AddStep(p, Staged(before), Listing(TempKey(l.key), l.members));
  }

  // ----- one more route of a prefix -----

  lemma AddPrefixStep(p: Partition, ls: seq<Listing>, j: int)
    requires 0 <= j < |ls|
    ensures Apply(p, AddOps(ls[..j + 1])) == Apply(Apply(p, AddOps(ls[..j])), MemberAdds(ls[j].key, ls[j].members))
  {
    assert ls[..j + 1] == ls[..j] + [ls[j]];
    AddStep(p, ls[..j], ls[j]);
  }

  lemma RemPrefixStep(p: Partition, ls: seq<Listing>, j: int)
    requires 0 <= j < |ls|
    ensures Apply(p, RemOps(ls[..j + 1])) == Apply(Apply(p, RemOps(ls[..j])), MemberRems(ls[j].key, ls[j].members))
  {
    assert ls[..j + 1] == ls[..j] + [ls[j]];
    RemStep(p, ls[..j], ls[j]);
  }

  lemma SnapshotPrefixStep(p: Partition, ls: seq<Listing>, j: int)
    requires 0 <= j < |ls|
    ensures Apply(p, SnapshotAll(ls[..j + 1])) == Apply(Apply(p, SnapshotAll(ls[..j])), SnapshotOps(ls[j]))
  {
    assert ls[..j + 1] == ls[..j] + [ls[j]];
    SnapshotStep(p, ls[..j], ls[j]);
  }

  lemma StagePrefixStep(p: Partition, ls: seq<Listing>, j: int)
    requires 0 <= j < |ls|
    ensures Apply(p, AddOps(Staged(ls[..j + 1]))) ==
      Apply(Apply(p, AddOps(Staged(ls[..j]))), MemberAdds(TempKey(ls[j].key), ls[j].members))
  {
    assert ls[..j + 1] == ls[..j] + [ls[j]];
    StageStep(p, ls[..j], ls[j]);
  }

  lemma RecordedPrefixStep(m: map<string, string>, ls: seq<Listing>, j: int)
    requires 0 <= j < |ls|
    ensures Recorded(m, ls[..j + 1]) == Recorded(m, ls[..j])[TempKey(ls[j].key) := ls[j].key]
  {
    assert ls[..j + 1] == ls[..j] + [ls[j]];
    RecordedSnoc(m, ls[..j], ls[j]);
  }

  // ----- consecutive blocks of routes -----

  lemma AddBlocks(p: Partition, a: seq<Listing>, b: seq<Listing>)
    ensures Apply(Apply(p, AddOps(a)), AddOps(b)) == Apply(p, AddOps(a + b))
  {
    AddOpsConcat(a, b);
    ApplyConcat(p, AddOps(a), AddOps(b));
  }

  lemma RemBlocks(p: Partition, a: seq<Listing>, b: seq<Listing>)
    ensures Apply(Apply(p, RemOps(a)), RemOps(b)) == Apply(p, RemOps(a + b))
  {
    RemOpsConcat(a, b);
    ApplyConcat(p, RemOps(a), RemOps(b));
  }

  lemma SnapshotBlocks(p: Partition, a: seq<Listing>, b: seq<Listing>)
    ensures Apply(Apply(p, SnapshotAll(a)), SnapshotAll(b)) == Apply(p, SnapshotAll(a + b))
  {
    SnapshotAllConcat(a, b);
    ApplyConcat(p, SnapshotAll(a), SnapshotAll(b));
  }

  lemma StageBlocks(p: Partition, a: seq<Listing>, b: seq<Listing>)
    ensures Apply(Apply(p, AddOps(Staged(a))), AddOps(Staged(b))) == Apply(p, AddOps(Staged(a + b)))
  {
    StagedConcat(a, b);
    AddBlocks(p, Staged(a), Staged(b));
  }

  // ----- the two default-backend routes -----

  lemma AddPair(p: Partition, l0: Listing, l1: Listing)
    ensures Apply(Apply(p, MemberAdds(l0.key, l0.members)), MemberAdds(l1.key, l1.members)) == Apply(p, AddOps([l0, l1]))
  {
    AddStep(p, [], l0);
    AddStep(p, [l0], l1);
    assert [l0] + [l1] == [l0, l1];
  }

  lemma RemPair(p: Partition, l0: Listing, l1: Listing)
    ensures Apply(Apply(p, MemberRems(l0.key, l0.members)), MemberRems(l1.key, l1.members)) == Apply(p, RemOps([l0, l1]))
  {
    RemStep(p, [], l0);
    RemStep(p, [l0], l1);
    assert [l0] + [l1] == [l0, l1];
  }

  lemma SnapshotPair(p: Partition, l0: Listing, l1: Listing)
    ensures Apply(Apply(p, SnapshotOps(l0)), SnapshotOps(l1)) == Apply(p, SnapshotAll([l0, l1]))
  {
    SnapshotStep(p, [], l0);
    SnapshotStep(p, [l0], l1);
    assert [l0] + [l1] == [l0, l1];
  }

  lemma StagePair(p: Partition, l0: Listing, l1: Listing)
    ensures Apply(Apply(p, MemberAdds(TempKey(l0.key), l0.members)), MemberAdds(TempKey(l1.key), l1.members)) ==
      Apply(p, AddOps(Staged([l0, l1])))
  {
    StageStep(p, [], l0);
    StageStep(p, [l0], l1);
    assert [l0] + [l1] == [l0, l1];
  }

  // ----- the staging map update builds -----

  /** The staging map after recording the routes `ls`: each staging key maps to
      its route key. */
  function Recorded(m: map<string, string>, ls: seq<Listing>): map<string, string>
    decreases |ls|
  {
    if ls == [] then m
    else Recorded(m, ls[..|ls| - 1])[TempKey(ls[|ls| - 1].key) := ls[|ls| - 1].key]
  }

  lemma RecordedSnoc(m: map<string, string>, ls: seq<Listing>, l: Listing)
    ensures Recorded(m, ls + [l]) == Recorded(m, ls)[TempKey(l.key) := l.key]
  {
    assert (ls + [l])[..|ls|] == ls;
  }

  lemma {:induction false} RecordedConcat(m: map<string, string>, a: seq<Listing>, b: seq<Listing>)
    ensures Recorded(m, a + b) == Recorded(Recorded(m, a), b)
    decreases |b|
  {
    if b != [] {
      var b' := b[..|b| - 1];
      assert a + b == (a + b') + [b[|b| - 1]];
      RecordedSnoc(m, a + b', b[|b| - 1]);
      RecordedConcat(m, a, b');
    } else {
      assert a + b == a;
    }
  }

  lemma RecordedPair(m: map<string, string>, l0: Listing, l1: Listing)
    ensures Recorded(m, [l0, l1]) == m[TempKey(l0.key) := l0.key][TempKey(l1.key) := l1.key]
  {
    RecordedSnoc(m, [], l0);
    RecordedSnoc(m, [l0], l1);
    assert [] + [l0] == [l0];
    assert [l0] + [l1] == [l0, l1];
  }

  /** A staging map of `ks` that records the routes `ls` becomes a staging map of
      `ks` and the route keys of `ls`. */
  lemma {:induction false} RecordedStaging(m: map<string, string>, ks: set<string>, ls: seq<Listing>)
    requires StagingMap(m, ks)
    ensures StagingMap(Recorded(m, ls), ks + Keys(ls))
    decreases |ls|
  {
    if ls != [] {
      var init := ls[..|ls| - 1];
      var l := ls[|ls| - 1];
      RecordedStaging(m, ks, init);
      StagingMapAdd(Recorded(m, init), ks + Keys(init), l.key);
      assert ls == init + [l];
      KeysConcat(init, [l]);
      assert Keys([l]) == {l.key};
    }
  }
}
