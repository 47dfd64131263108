/** The `temp_` staging discipline shared by the endpoint and ingress update
    protocols: between two handler calls no staging key is left in the store. */
module Staging {
  import opened RoutingStore
  import opened KeyPolicy

  /** No key of the partition is a staging key. */
  predicate NoStagingKeys(p: Partition) {
    forall k :: k in p ==> !IsTempKey(k)
  }

  /** A staging key is absent from a partition without staging keys. */
  lemma StagingKeyAbsent(p: Partition, k: string)
    requires NoStagingKeys(p)
    ensures TempKey(k) !in p && Members(p, TempKey(k)) == {}
  {
  }

  /** Overwriting keys that are not staging keys keeps the partition free of them. */
  lemma {:induction false} PutAllNoStaging(p: Partition, st: seq<Stage>)
    requires NoStagingKeys(p)
    requires forall i :: 0 <= i < |st| ==> !IsTempKey(st[i].0)
    ensures NoStagingKeys(PutAll(p, st))
    decreases |st|
  {
    if st != [] {
      PutAllNoStaging(p, st[..|st| - 1]);
    }
  }

  // ----- the merge-back of the ingress update -----

  /** What key `x` holds once every key of `ks` has been overwritten with its
      staging key and the staging key deleted. */
  function MergedValue(q: Partition, ks: set<string>, x: string): set<string> {
    if x in ks then Members(q, TempKey(x))
    else if IsTempKey(x) && x[5..] in ks then {}
    else Members(q, x)
  }

  /** The partition after the merge-back of `ks`, whatever order it runs in. */
  function MergeBack(q: Partition, ks: set<string>): (r: Partition)
    ensures forall x :: Members(r, x) == MergedValue(q, ks, x)
    ensures NoEmpty(r)
  {
    var r := map x | x in q.Keys + ks && MergedValue(q, ks, x) != {} :: MergedValue(q, ks, x);
    assert forall x :: x !in q.Keys + ks ==> MergedValue(q, ks, x) == {} by {
      forall x | x !in q.Keys + ks ensures MergedValue(q, ks, x) == {} {
        if IsTempKey(x) && x[5..] in ks {
        } else {
          assert Members(q, x) == {};
        }
      }
    }
    r
  }

  /** Merging back no key leaves a normalised partition as it was. */
  lemma MergeBackNothing(q: Partition)
    requires NoEmpty(q)
    ensures MergeBack(q, {}) == q
  {
    Extensional(MergeBack(q, {}), q);
  }

  /** One round of the merge-back loop: overwrite `k` with its staging key, then
      delete the staging key. */
  lemma MergeStep(q: Partition, done: set<string>, k: string)
    requires !IsTempKey(k) && k !in done
    requires forall d :: d in done ==> !IsTempKey(d)
    ensures DeleteKey(UnionStore(MergeBack(q, done), k, TempKey(k)), TempKey(k)) == MergeBack(q, done + {k})
  {
    var t := TempKey(k);
    TempKeyShape(k);
    var r := DeleteKey(UnionStore(MergeBack(q, done), k, t), t);
    var s := MergeBack(q, done + {k});
    forall x ensures Members(r, x) == Members(s, x) {
      if x == k {
      } else if x == t {
      } else if IsTempKey(x) && x[5..] == k {
        TempKeyStrip(x);
      }
    }
    Extensional(r, s);
  }

  /** The staging map of the ingress update: every entry maps a staging key to
      the key it stages, and every key of `ks` has its entry. */
  predicate StagingMap(m: map<string, string>, ks: set<string>) {
    (forall t :: t in m ==> m[t] in ks && t == TempKey(m[t])) &&
    (forall k :: k in ks ==> TempKey(k) in m)
  }

  lemma StagingMapAdd(m: map<string, string>, ks: set<string>, k: string)
    requires StagingMap(m, ks)
    ensures StagingMap(m[TempKey(k) := k], ks + {k})
  {
  }

  /** The merge-back loop's bookkeeping: the staging keys still to visit map to
      keys of `ks`, and a key of `ks` has been merged exactly when its staging
      key is no longer pending. */
  predicate Pending(rest: map<string, string>, ks: set<string>, done: set<string>) {
    done <= ks &&
    (forall t :: t in rest ==> rest[t] in ks && t == TempKey(rest[t])) &&
    (forall k :: k in ks ==> (TempKey(k) in rest <==> k !in done))
  }

  lemma PendingStart(m: map<string, string>, ks: set<string>)
    requires StagingMap(m, ks)
    ensures Pending(m, ks, {})
  {
  }

  /** Visiting one pending staging key merges its route key, which was not
      merged before. */
  lemma PendingStep(rest: map<string, string>, ks: set<string>, done: set<string>, t: string)
    requires Pending(rest, ks, done) && t in rest
    ensures rest[t] in ks && rest[t] !in done && t == TempKey(rest[t])
    ensures Pending(rest - {t}, ks, done + {rest[t]})
  {
    var v := rest[t];
    forall k | k in ks && k != v ensures TempKey(k) != t {
      if TempKey(k) == t {
        TempKeyInjective(k, v);
      }
    }
  }

  lemma PendingEnd(ks: set<string>, done: set<string>)
    requires Pending(map[], ks, done)
    ensures done == ks
  {
  }
}
