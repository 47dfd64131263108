/** Listings: what a watched object contributes to one store key. Both route
    reconcilers walk their object and, for every key they derive, issue one call
    per contributed member; a listing records that key and those members in the
    order the calls are issued. */
module Listings {
  import opened RoutingStore

  datatype Listing = Listing(key: string, members: seq<string>)

  function ToSet(ms: seq<string>): set<string> {
    set m | m in ms
  }

  /** Some listing of `ls` puts `v` under `k`. */
  predicate Lists(ls: seq<Listing>, k: string, v: string) {
    exists l :: l in ls && l.key == k && v in l.members
  }

  /** Everything the listings of `ls` put under `k`. */
  function Listed(ls: seq<Listing>, k: string): set<string>
    decreases |ls|
  {
    if ls == [] then {}
    else Listed(ls[..|ls| - 1], k) + (if ls[|ls| - 1].key == k then ToSet(ls[|ls| - 1].members) else {})
  }

  /** `Listed` collects exactly the members some listing puts under the key. */
  lemma {:induction false} ListedMeans(ls: seq<Listing>, k: string, v: string)
    ensures v in Listed(ls, k) <==> Lists(ls, k, v)
    decreases |ls|
  {
    if ls != [] {
      var n := |ls|;
      var init := ls[..n - 1];
      var l := ls[n - 1];
      ListedMeans(init, k, v);
      assert ls == init + [l];
      if Lists(ls, k, v) {
        var l' :| l' in ls && l'.key == k && v in l'.members;
        if l' != l {
          assert l' in init;
        }
      }
      if Lists(init, k, v) {
        var l' :| l' in init && l'.key == k && v in l'.members;
        assert l' in ls;
      }
    }
  }

  /** A key no listing names has nothing listed under it. */
  lemma {:induction false} ListedUnnamed(ls: seq<Listing>, k: string)
    requires forall l :: l in ls ==> l.key != k
    ensures Listed(ls, k) == {}
    decreases |ls|
  {
    if ls != [] {
      assert ls[|ls| - 1] in ls;
      assert forall l :: l in ls[..|ls| - 1] ==> l in ls;
      ListedUnnamed(ls[..|ls| - 1], k);
    }
  }

  lemma ListedSnoc(ls: seq<Listing>, l: Listing, k: string)
    ensures Listed(ls + [l], k) == Listed(ls, k) + (if l.key == k then ToSet(l.members) else {})
  {
    assert (ls + [l])[..|ls|] == ls;
  }

  /** The keys the listings name. */
  function Keys(ls: seq<Listing>): set<string> {
    set l | l in ls :: l.key
  }

  /** Listing `i` is the last one of `ls` naming `k`. */
  predicate LastListing(ls: seq<Listing>, i: int, k: string) {
    0 <= i < |ls| && ls[i].key == k && forall j :: i < j < |ls| ==> ls[j].key != k
  }

  /** The index of the last listing naming a key that some listing names. */
  function LastListingFor(ls: seq<Listing>, k: string): (i: int)
    requires k in Keys(ls)
    ensures LastListing(ls, i, k)
    decreases |ls|
  {
    if ls[|ls| - 1].key == k then |ls| - 1
    else
      var l :| l in ls && l.key == k;
      var i :| 0 <= i < |ls| && ls[i] == l;
      assert ls[..|ls| - 1][i] == l;
      LastListingFor(ls[..|ls| - 1], k)
  }

  // ----- the calls issued for listings -----

  /** One SAdd per member, into `key`. */
  function MemberAdds(key: string, ms: seq<string>): (ops: seq<Op>)
    ensures |ops| == |ms| && AllAdds(ops)
  {
    seq(|ms|, i requires 0 <= i < |ms| => SAdd(key, ms[i]))
  }

  /** One SRem per member, from `key`. */
  function MemberRems(key: string, ms: seq<string>): (ops: seq<Op>)
    ensures |ops| == |ms| && AllRems(ops)
  {
    seq(|ms|, i requires 0 <= i < |ms| => SRem(key, ms[i]))
  }

  /** One SAdd per listing and member, listing by listing. */
  function AddOps(ls: seq<Listing>): (ops: seq<Op>)
    ensures AllAdds(ops)
    decreases |ls|
  {
    if ls == [] then []
    else
      var a := AddOps(ls[..|ls| - 1]);
      var b := MemberAdds(ls[|ls| - 1].key, ls[|ls| - 1].members);
      assert forall i :: |a| <= i < |a + b| ==> (a + b)[i] == b[i - |a|];
      a + b
  }

  /** One SRem per listing and member, listing by listing. */
  function RemOps(ls: seq<Listing>): (ops: seq<Op>)
    ensures AllRems(ops)
    decreases |ls|
  {
    if ls == [] then []
    else
      var a := RemOps(ls[..|ls| - 1]);
      var b := MemberRems(ls[|ls| - 1].key, ls[|ls| - 1].members);
      assert forall i :: |a| <= i < |a + b| ==> (a + b)[i] == b[i - |a|];
      a + b
  }

  lemma AddOpsSnoc(ls: seq<Listing>, l: Listing)
    ensures AddOps(ls + [l]) == AddOps(ls) + MemberAdds(l.key, l.members)
  {
    assert (ls + [l])[..|ls|] == ls;
  }

  lemma RemOpsSnoc(ls: seq<Listing>, l: Listing)
    ensures RemOps(ls + [l]) == RemOps(ls) + MemberRems(l.key, l.members)
  {
    assert (ls + [l])[..|ls|] == ls;
  }

  lemma {:induction false} AddOpsConcat(a: seq<Listing>, b: seq<Listing>)
    ensures AddOps(a + b) == AddOps(a) + AddOps(b)
    decreases |b|
  {
    if b != [] {
      var b' := b[..|b| - 1];
      assert a + b == (a + b') + [b[|b| - 1]];
      AddOpsSnoc(a + b', b[|b| - 1]);
      AddOpsConcat(a, b');
    } else {
      assert a + b == a;
    }
  }

  lemma {:induction false} RemOpsConcat(a: seq<Listing>, b: seq<Listing>)
    ensures RemOps(a + b) == RemOps(a) + RemOps(b)
    decreases |b|
  {
    if b != [] {
      var b' := b[..|b| - 1];
      assert a + b == (a + b') + [b[|b| - 1]];
      RemOpsSnoc(a + b', b[|b| - 1]);
      RemOpsConcat(a, b');
    } else {
      assert a + b == a;
    }
  }

  lemma KeysConcat(a: seq<Listing>, b: seq<Listing>)
    ensures Keys(a + b) == Keys(a) + Keys(b)
  {
    forall k | k in Keys(a + b) ensures k in Keys(a) + Keys(b) {
      var l :| l in a + b && l.key == k;
    }
    forall k | k in Keys(a) + Keys(b) ensures k in Keys(a + b) {
      if k in Keys(a) {
        var l :| l in a && l.key == k;
        assert l in a + b;
      } else {
        var l :| l in b && l.key == k;
        assert l in a + b;
      }
    }
  }

  lemma {:induction false} MemberAddsNamed(key: string, ms: seq<string>, k: string)
    ensures NamedAt(MemberAdds(key, ms), k) == (if k == key then ToSet(ms) else {})
    decreases |ms|
  {
    if ms != [] {
      var n := |ms|;
      assert MemberAdds(key, ms)[..n - 1] == MemberAdds(key, ms[..n - 1]);
      MemberAddsNamed(key, ms[..n - 1], k);
      assert ms == ms[..n - 1] + [ms[n - 1]];
      assert ToSet(ms) == ToSet(ms[..n - 1]) + {ms[n - 1]};
    }
  }

  lemma {:induction false} MemberRemsNamed(key: string, ms: seq<string>, k: string)
    ensures NamedAt(MemberRems(key, ms), k) == (if k == key then ToSet(ms) else {})
    decreases |ms|
  {
    if ms != [] {
      var n := |ms|;
      assert MemberRems(key, ms)[..n - 1] == MemberRems(key, ms[..n - 1]);
      MemberRemsNamed(key, ms[..n - 1], k);
      assert ms == ms[..n - 1] + [ms[n - 1]];
      assert ToSet(ms) == ToSet(ms[..n - 1]) + {ms[n - 1]};
    }
  }

  /** The SAdd calls for listings name, under each key, exactly what is listed
      under it. */
  lemma {:induction false} AddOpsNamed(ls: seq<Listing>, k: string)
    ensures NamedAt(AddOps(ls), k) == Listed(ls, k)
    decreases |ls|
  {
    if ls != [] {
      var l := ls[|ls| - 1];
      AddOpsNamed(ls[..|ls| - 1], k);
      NamedAtConcat(AddOps(ls[..|ls| - 1]), MemberAdds(l.key, l.members), k);
      MemberAddsNamed(l.key, l.members, k);
    }
  }

  /** The SRem calls for listings name, under each key, exactly what is listed
      under it. */
  lemma {:induction false} RemOpsNamed(ls: seq<Listing>, k: string)
    ensures NamedAt(RemOps(ls), k) == Listed(ls, k)
    decreases |ls|
  {
    if ls != [] {
      var l := ls[|ls| - 1];
      RemOpsNamed(ls[..|ls| - 1], k);
      NamedAtConcat(RemOps(ls[..|ls| - 1]), MemberRems(l.key, l.members), k);
      MemberRemsNamed(l.key, l.members, k);
    }
  }
}
