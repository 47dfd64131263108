/** The routing store: two independent partitions of a set-valued key/value store
    (DefaultDB: service-port key -> endpoint members; DBOne: host-path key -> backend
    references, plus snippet records). Only the store's set semantics are modelled;
    the client connection is not. As in the store itself, a set that becomes empty
    is removed together with its key, so an absent key and an empty set read alike. */
module RoutingStore {

  type Partition = map<string, set<string>>

  /** SMEMBERS: the members stored under `k`; empty for an absent key. */
  function Members(p: Partition, k: string): set<string> {
    if k in p then p[k] else {}
  }

  /** The store never holds an empty set. */
  predicate NoEmpty(p: Partition) {
    forall k :: k in p ==> p[k] != {}
  }

  /** Two normalised partitions with the same members under every key are equal. */
  lemma Extensional(p: Partition, q: Partition)
    requires NoEmpty(p) && NoEmpty(q)
    requires forall k :: Members(p, k) == Members(q, k)
    ensures p == q
  {
    forall k | k in p ensures k in q && p[k] == q[k] {
      assert Members(p, k) == Members(q, k);
    }
    forall k | k in q ensures k in p {
      assert Members(p, k) == Members(q, k);
    }
  }

  /** Stores `s` under `k`; an empty `s` removes the key. */
  function Put(p: Partition, k: string, s: set<string>): (r: Partition)
    ensures Members(r, k) == s
    ensures forall x :: x != k ==> Members(r, x) == Members(p, x)
    ensures NoEmpty(p) ==> NoEmpty(r)
  {
    if s == {} then p - {k} else p[k := s]
  }

  /** SADD key member. */
  function AddMember(p: Partition, k: string, v: string): (r: Partition)
    ensures Members(r, k) == Members(p, k) + {v}
    ensures forall x :: x != k ==> Members(r, x) == Members(p, x)
    ensures NoEmpty(p) ==> NoEmpty(r)
  {
    Put(p, k, Members(p, k) + {v})
  }

  /** SREM key member: only that member goes; the key goes when its set empties. */
  function RemoveMember(p: Partition, k: string, v: string): (r: Partition)
    ensures Members(r, k) == Members(p, k) - {v}
    ensures forall x :: x != k ==> Members(r, x) == Members(p, x)
    ensures NoEmpty(p) ==> NoEmpty(r)
  {
    Put(p, k, Members(p, k) - {v})
  }

  /** SUNIONSTORE dest src with a single source: `dest` is overwritten with the
      members of `src`, whatever it held before; `src` is left as it was. */
  function UnionStore(p: Partition, dest: string, src: string): (r: Partition)
    ensures Members(r, dest) == Members(p, src)
    ensures forall x :: x != dest ==> Members(r, x) == Members(p, x)
    ensures NoEmpty(p) ==> NoEmpty(r)
  {
    Put(p, dest, Members(p, src))
  }

  /** DEL key: exactly that key disappears. */
  function DeleteKey(p: Partition, k: string): (r: Partition)
    ensures k !in r && Members(r, k) == {}
    ensures forall x :: x != k ==> Members(r, x) == Members(p, x)
    ensures NoEmpty(p) ==> NoEmpty(r)
  {
    p - {k}
  }

  /** One call to the store, as a value: handlers are specified by the list of
      calls they issue, in order. */
  datatype Op =
    | SAdd(key: string, member: string)
    | SRem(key: string, member: string)
    | SUnionStore(dest: string, src: string)
    | Del(key: string)

  function Step(p: Partition, op: Op): Partition {
    match op
    case SAdd(k, v) => AddMember(p, k, v)
    case SRem(k, v) => RemoveMember(p, k, v)
    case SUnionStore(d, s) => UnionStore(p, d, s)
    case Del(k) => DeleteKey(p, k)
  }

  /** The partition after issuing `ops` in order. */
  function Apply(p: Partition, ops: seq<Op>): (r: Partition)
    ensures NoEmpty(p) ==> NoEmpty(r)
    decreases |ops|
  {
    if ops == [] then p else Step(Apply(p, ops[..|ops| - 1]), ops[|ops| - 1])
  }

  lemma ApplySnoc(p: Partition, ops: seq<Op>, op: Op)
    ensures Apply(p, ops + [op]) == Step(Apply(p, ops), op)
  {
    assert (ops + [op])[..|ops|] == ops;
  }

  /** Issuing two lists of calls one after the other is issuing their concatenation. */
  lemma {:induction false} ApplyConcat(p: Partition, a: seq<Op>, b: seq<Op>)
    ensures Apply(p, a + b) == Apply(Apply(p, a), b)
    decreases |b|
  {
    if b == [] {
      assert a + b == a;
    } else {
      var b' := b[..|b| - 1];
      assert a + b == (a + b') + [b[|b| - 1]];
      assert b == b' + [b[|b| - 1]];
      ApplySnoc(p, a + b', b[|b| - 1]);
      ApplySnoc(Apply(p, a), b', b[|b| - 1]);
      ApplyConcat(p, a, b');
    }
  }

  /** The key an operation writes. */
  function Target(op: Op): string {
    match op
    case SAdd(k, _) => k
    case SRem(k, _) => k
    case SUnionStore(d, _) => d
    case Del(k) => k
  }

  /** A key no operation of `ops` writes keeps its members. */
  lemma {:induction false} ApplyUntouched(p: Partition, ops: seq<Op>, x: string)
    requires forall i :: 0 <= i < |ops| ==> Target(ops[i]) != x
    ensures Members(Apply(p, ops), x) == Members(p, x)
    decreases |ops|
  {
    if ops != [] {
      ApplyUntouched(p, ops[..|ops| - 1], x);
    }
  }

  predicate AllAdds(ops: seq<Op>) {
    forall i :: 0 <= i < |ops| ==> ops[i].SAdd?
  }

  predicate AllRems(ops: seq<Op>) {
    forall i :: 0 <= i < |ops| ==> ops[i].SRem?
  }

  /** The members that the SAdd / SRem calls of `ops` name for key `k`. */
  function NamedAt(ops: seq<Op>, k: string): set<string>
    decreases |ops|
  {
    if ops == [] then {}
    else
      var last := ops[|ops| - 1];
      NamedAt(ops[..|ops| - 1], k)
        + (if (last.SAdd? || last.SRem?) && last.key == k then {last.member} else {})
  }

  lemma {:induction false} NamedAtConcat(a: seq<Op>, b: seq<Op>, k: string)
    ensures NamedAt(a + b, k) == NamedAt(a, k) + NamedAt(b, k)
    decreases |b|
  {
    if b == [] {
      assert a + b == a;
    } else {
      assert (a + b)[..|a + b| - 1] == a + b[..|b| - 1];
      NamedAtConcat(a, b[..|b| - 1], k);
    }
  }

  /** A list of SAdd calls adds exactly the members it names, key by key. */
  lemma {:induction false} ApplyAdds(p: Partition, ops: seq<Op>, k: string)
    requires AllAdds(ops)
    ensures Members(Apply(p, ops), k) == Members(p, k) + NamedAt(ops, k)
    decreases |ops|
  {
    if ops != [] {
      ApplyAdds(p, ops[..|ops| - 1], k);
    }
  }

  /** A list of SRem calls removes exactly the members it names, key by key. */
  lemma {:induction false} ApplyRems(p: Partition, ops: seq<Op>, k: string)
    requires AllRems(ops)
    ensures Members(Apply(p, ops), k) == Members(p, k) - NamedAt(ops, k)
    decreases |ops|
  {
    if ops != [] {
      ApplyRems(p, ops[..|ops| - 1], k);
    }
  }

  predicate AllDels(ops: seq<Op>) {
    forall i :: 0 <= i < |ops| ==> ops[i].Del?
  }

  /** The keys the Del calls of `ops` name. */
  function Deleted(ops: seq<Op>): set<string> {
    set i | 0 <= i < |ops| && ops[i].Del? :: ops[i].key
  }

  lemma DeletedConcat(a: seq<Op>, b: seq<Op>)
    ensures Deleted(a + b) == Deleted(a) + Deleted(b)
  {
    forall x | x in Deleted(a + b) ensures x in Deleted(a) + Deleted(b) {
      var i :| 0 <= i < |a + b| && (a + b)[i].Del? && (a + b)[i].key == x;
      if i >= |a| {
        assert b[i - |a|] == (a + b)[i];
      }
    }
    forall x | x in Deleted(a) + Deleted(b) ensures x in Deleted(a + b) {
      if x in Deleted(a) {
        var i :| 0 <= i < |a| && a[i].Del? && a[i].key == x;
        assert (a + b)[i] == a[i];
      } else {
        var i :| 0 <= i < |b| && b[i].Del? && b[i].key == x;
        assert (a + b)[|a| + i] == b[i];
      }
    }
  }

  /** A list of Del calls removes exactly the keys it names and keeps the rest as
      they were. */
  lemma {:induction false} ApplyDels(p: Partition, ops: seq<Op>, k: string)
    requires AllDels(ops)
    ensures k in Apply(p, ops) <==> k in p && k !in Deleted(ops)
    ensures k in Apply(p, ops) ==> Apply(p, ops)[k] == p[k]
    decreases |ops|
  {
    if ops != [] {
      var init := ops[..|ops| - 1];
      ApplyDels(p, init, k);
      assert ops == init + [ops[|ops| - 1]];
      DeletedConcat(init, [ops[|ops| - 1]]);
      assert Deleted([ops[|ops| - 1]]) == {ops[|ops| - 1].key};
    }
  }

  /** Issuing the same SAdd calls twice leaves the store as issuing them once. */
  lemma AddsIdempotent(p: Partition, ops: seq<Op>)
    requires NoEmpty(p) && AllAdds(ops)
    ensures Apply(Apply(p, ops), ops) == Apply(p, ops)
  {
    var once := Apply(p, ops);
    forall k ensures Members(Apply(once, ops), k) == Members(once, k) {
      ApplyAdds(p, ops, k);
      ApplyAdds(once, ops, k);
    }
    Extensional(Apply(once, ops), once);
  }

  /** A staged overwrite: each pair (key, members) replaces the key's set, in order. */
  type Stage = (string, set<string>)

  function PutAll(p: Partition, st: seq<Stage>): (r: Partition)
    ensures NoEmpty(p) ==> NoEmpty(r)
    decreases |st|
  {
    if st == [] then p else Put(PutAll(p, st[..|st| - 1]), st[|st| - 1].0, st[|st| - 1].1)
  }

  lemma PutAllSnoc(p: Partition, st: seq<Stage>, s: Stage)
    ensures PutAll(p, st + [s]) == Put(PutAll(p, st), s.0, s.1)
  {
    assert (st + [s])[..|st|] == st;
  }

  lemma {:induction false} PutAllConcat(p: Partition, a: seq<Stage>, b: seq<Stage>)
    ensures PutAll(p, a + b) == PutAll(PutAll(p, a), b)
    decreases |b|
  {
    if b == [] {
      assert a + b == a;
    } else {
      var b' := b[..|b| - 1];
      assert a + b == (a + b') + [b[|b| - 1]];
      assert b == b' + [b[|b| - 1]];
      PutAllSnoc(p, a + b', b[|b| - 1]);
      PutAllSnoc(PutAll(p, a), b', b[|b| - 1]);
      PutAllConcat(p, a, b');
    }
  }

  /** Stage `i` is the last one of `st` that writes key `k`. */
  predicate LastFor(st: seq<Stage>, i: int, k: string) {
    0 <= i < |st| && st[i].0 == k && forall j :: i < j < |st| ==> st[j].0 != k
  }

  /** After a staged overwrite, a key holds the members of its last stage, and a key
      that no stage names keeps its members. */
  lemma {:induction false} PutAllMembers(p: Partition, st: seq<Stage>, k: string)
    ensures (forall i :: 0 <= i < |st| ==> st[i].0 != k) ==> Members(PutAll(p, st), k) == Members(p, k)
    ensures forall i :: LastFor(st, i, k) ==> Members(PutAll(p, st), k) == st[i].1
    decreases |st|
  {
    if st != [] {
      var n := |st|;
      var init := st[..n - 1];
      PutAllMembers(p, init, k);
      forall i | LastFor(st, i, k)
        ensures Members(PutAll(p, st), k) == st[i].1
      {
        if i < n - 1 {
          assert LastFor(init, i, k);
        }
      }
    }
  }

  /** The client: one object holding both partitions. */
  class Client {
    var defaultDB: Partition
    var dbOne: Partition

    ghost predicate Valid()
      reads this
    {
      NoEmpty(defaultDB) && NoEmpty(dbOne)
    }

    constructor ()
      ensures Valid() && defaultDB == map[] && dbOne == map[]
    {
      defaultDB := map[];
      dbOne := map[];
    }

    method DefaultDBSAdd(svcport: string, ipport: string)
      requires Valid()
      modifies this
      ensures Valid()
      ensures defaultDB == AddMember(old(defaultDB), svcport, ipport) && dbOne == old(dbOne)
    {
      defaultDB := AddMember(defaultDB, svcport, ipport);
    }

    method DefaultDBDel(svcport: string)
      requires Valid()
      modifies this
      ensures Valid()
      ensures defaultDB == DeleteKey(old(defaultDB), svcport) && dbOne == old(dbOne)
    {
      defaultDB := DeleteKey(defaultDB, svcport);
    }

    method DefaultDBSUnionStore(dest: string, src: string)
      requires Valid()
      modifies this
      ensures Valid()
      ensures defaultDB == UnionStore(old(defaultDB), dest, src) && dbOne == old(dbOne)
    {
      defaultDB := UnionStore(defaultDB, dest, src);
    }

    method DBOneSAdd(hostport: string, svcport: string)
      requires Valid()
      modifies this
      ensures Valid()
      ensures dbOne == AddMember(old(dbOne), hostport, svcport) && defaultDB == old(defaultDB)
    {
      dbOne := AddMember(dbOne, hostport, svcport);
    }

    method DBOneSRem(hostport: string, svcport: string)
      requires Valid()
      modifies this
      ensures Valid()
      ensures dbOne == RemoveMember(old(dbOne), hostport, svcport) && defaultDB == old(defaultDB)
    {
      dbOne := RemoveMember(dbOne, hostport, svcport);
    }

    method DBOneDel(hostport: string)
      requires Valid()
      modifies this
      ensures Valid()
      ensures dbOne == DeleteKey(old(dbOne), hostport) && defaultDB == old(defaultDB)
    {
      dbOne := DeleteKey(dbOne, hostport);
    }

    method DBOneSUnionStore(dest: string, src: string)
      requires Valid()
      modifies this
      ensures Valid()
      ensures dbOne == UnionStore(old(dbOne), dest, src) && defaultDB == old(defaultDB)
    {
      dbOne := UnionStore(dbOne, dest, src);
    }

    /** FLUSHALL: every key of both partitions goes. */
    method Flush()
      modifies this
      ensures Valid() && defaultDB == map[] && dbOne == map[]
    {
      defaultDB := map[];
      dbOne := map[];
    }

    /** Every key of DefaultDB with its members; an emptied key is not listed. */
    function GetDefaultDBKeyValues(): (r: map<string, set<string>>)
      requires Valid()
      reads this
      ensures forall k :: k in r <==> Members(defaultDB, k) != {}
      ensures forall k :: k in r ==> r[k] == Members(defaultDB, k)
    {
      defaultDB
    }

    /** Every key of DBOne with its members; an emptied key is not listed. */
    function GetDBOneKeyValues(): (r: map<string, set<string>>)
      requires Valid()
      reads this
      ensures forall k :: k in r <==> Members(dbOne, k) != {}
      ensures forall k :: k in r ==> r[k] == Members(dbOne, k)
    {
      dbOne
    }
  }
}
