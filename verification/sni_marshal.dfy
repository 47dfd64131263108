/** How an sni.yaml entry is written (SniEntry.MarshalYAML in
    watcher/handlerSni.go): "fqdn" first when the entry has one, then every
    other key in ascending byte order, each with its own value. */
module SniMarshal {
  import opened Strings
  import opened Values

  /** One fqdn entry of sni.yaml: an open set of keys. */
  type Entry = map<string, Value>

  /** A finite non-empty set of strings has a least element. */
  lemma {:induction false} HasLeast(s: set<string>)
    requires s != {}
    ensures exists m :: m in s && forall x :: x in s ==> StrLe(m, x)
    decreases |s|
  {
    var y :| y in s;
    StrLeTotal(y, y);
    if s != {y} {
      HasLeast(s - {y});
      var m :| m in s - {y} && forall x :: x in s - {y} ==> StrLe(m, x);
      StrLeTotal(m, y);
      if !StrLe(m, y) {
        forall x | x in s ensures StrLe(y, x) {
          if x != y {
            StrLeTransitive(y, m, x);
          }
        }
      }
    }
  }

  function Least(s: set<string>): (m: string)
    requires s != {}
    ensures m in s && forall x :: x in s ==> StrLe(m, x)
  {
    HasLeast(s);
    LeastUnique(s);
    var m :| m in s && forall x :: x in s ==> StrLe(m, x);
    m
  }

  lemma LeastUnique(s: set<string>)
    ensures forall a, b :: a in s && b in s && StrLe(a, b) && StrLe(b, a) ==> a == b
  {
    forall a, b | a in s && b in s && StrLe(a, b) && StrLe(b, a) ensures a == b {
      StrLeAntisymmetric(a, b);
    }
  }

  /** Strictly ascending: sorted, and so without repeats. */
  predicate Ascending(r: seq<string>) {
    forall i, j :: 0 <= i < j < |r| ==> StrLt(r[i], r[j])
  }

  /** sort.Strings over the keys of a set. */
  function SortedKeys(s: set<string>): (r: seq<string>)
    ensures |r| == |s|
    ensures forall k :: k in r <==> k in s
    decreases |s|
  {
    if s == {} then []
    else
      var m := Least(s);
      [m] + SortedKeys(s - {m})
  }

  /** The sorted keys are in ascending order. */
  lemma {:induction false} SortedKeysAscending(s: set<string>)
    ensures Ascending(SortedKeys(s))
    decreases |s|
  {
    if s != {} {
      var m := Least(s);
      var rest := SortedKeys(s - {m});
      SortedKeysAscending(s - {m});
      var r := SortedKeys(s);
      assert r == [m] + rest;
      forall i, j | 0 <= i < j < |r| ensures StrLt(r[i], r[j]) {
        if i > 0 {
          assert r[i] == rest[i - 1] && r[j] == rest[j - 1];
        } else {
          assert r[j] == rest[j - 1];
          assert rest[j - 1] in s - {m};
        }
      }
    }
  }

  /** The order in which an entry's keys are written: each key of the entry,
      once. */
  function KeyOrder(e: Entry): (r: seq<string>)
    ensures forall k :: k in r <==> k in e
    ensures |r| == |e.Keys|
  {
    var rest := e.Keys - {"fqdn"};
    if "fqdn" in e then
      assert e.Keys == rest + {"fqdn"};
      ["fqdn"] + SortedKeys(rest)
    else
      SortedKeys(e.Keys)
  }

  /** "fqdn" is written first when present, and the keys after it are in
      ascending order, so no key is written twice. */
  lemma KeyOrderShape(e: Entry)
    ensures var r := KeyOrder(e);
      ("fqdn" in e ==> r[0] == "fqdn" && Ascending(r[1..])) &&
      ("fqdn" !in e ==> Ascending(r))
  {
    if "fqdn" in e {
      SortedKeysAscending(e.Keys - {"fqdn"});
      assert KeyOrder(e)[1..] == SortedKeys(e.Keys - {"fqdn"});
    } else {
      SortedKeysAscending(e.Keys);
    }
  }

  lemma KeyOrderDistinct(e: Entry)
    ensures var r := KeyOrder(e); forall i, j :: 0 <= i < j < |r| ==> r[i] != r[j]
  {
    KeyOrderShape(e);
    var r := KeyOrder(e);
    forall i, j | 0 <= i < j < |r| ensures r[i] != r[j] {
      if "fqdn" in e {
        var rest := r[1..];
        assert r[j] == rest[j - 1];
        if i > 0 {
          assert r[i] == rest[i - 1];
        } else {
          assert rest[j - 1] in e.Keys - {"fqdn"};
        }
      }
    }
  }

  /** The written mapping: each key in order, with its value. */
  function Marshal(e: Entry): seq<(string, Value)> {
    var ks := KeyOrder(e);
    seq(|ks|, i requires 0 <= i < |ks| => (ks[i], e[ks[i]]))
  }

  /** Reading a written mapping back: each key bound to its value. */
  function Unmarshal(ps: seq<(string, Value)>): map<string, Value>
    decreases |ps|
  {
    if ps == [] then map[] else Unmarshal(ps[..|ps| - 1])[ps[|ps| - 1].0 := ps[|ps| - 1].1]
  }

  lemma {:induction false} UnmarshalBinds(ps: seq<(string, Value)>, e: Entry)
    requires forall i :: 0 <= i < |ps| ==> ps[i].0 in e && ps[i].1 == e[ps[i].0]
    ensures Unmarshal(ps).Keys == set i | 0 <= i < |ps| :: ps[i].0
    ensures forall k :: k in Unmarshal(ps) ==> Unmarshal(ps)[k] == e[k]
    decreases |ps|
  {
    if ps != [] {
      var n := |ps|;
      UnmarshalBinds(ps[..n - 1], e);
      var init := ps[..n - 1];
      assert forall i :: 0 <= i < n - 1 ==> init[i] == ps[i];
      assert (set i | 0 <= i < n :: ps[i].0) == (set i | 0 <= i < n - 1 :: init[i].0) + {ps[n - 1].0};
    }
  }

  /** Writing an entry loses nothing: its key order lists every key once, and
      reading it back gives the entry. */
  lemma MarshalRoundTrip(e: Entry)
    ensures Unmarshal(Marshal(e)) == e
  {
    var ps := Marshal(e);
    MarshalPairs(e);
    UnmarshalBinds(ps, e);
    MarshalCovers(e, ps);
  }

  lemma MarshalPairs(e: Entry)
    ensures var ps := Marshal(e);
      forall i :: 0 <= i < |ps| ==> ps[i].0 in e && ps[i].1 == e[ps[i].0]
  {
  }

  /** Every key of the entry is the key of some written pair. */
  lemma MarshalCovers(e: Entry, ps: seq<(string, Value)>)
    requires ps == Marshal(e)
    ensures e.Keys <= set i | 0 <= i < |ps| :: ps[i].0
  {
    var ks := KeyOrder(e);
    forall k | k in e ensures k in set i | 0 <= i < |ps| :: ps[i].0 {
      var i :| 0 <= i < |ks| && ks[i] == k;
      assert ps[i].0 == k;
    }
  }
}
