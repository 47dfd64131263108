/** The SNI-policy reconciler (watcher/handlerSni.go): ATSSniPolicy events edit the
    list of fqdn entries in sni.yaml — replacing, appending and removing by fqdn —
    and each completed edit requests a reload. */
module SniHandler {
  import opened Wrappers
  import opened Values
  import opened SniMarshal
  import opened Context
  import opened Proxy

  /** An ATSSniPolicy payload; `sni` is `spec.sni`, `None` when it is missing or
      not a list. */
  datatype SniPolicy = SniPolicy(namespace: string, name: string, sni: Option<seq<Value>>)

  /** The sni.yaml file: missing, empty, or a document listing entries. */
  datatype SniText = Missing | Blank | Yaml(entries: seq<Entry>)

  // ----- the file -----

  /** loadSniFile: a missing or empty file holds no entries. */
  function Load(f: SniText): (es: seq<Entry>)
    ensures f.Missing? || f.Blank? ==> es == []
  {
    if f.Yaml? then f.entries else []
  }

  /** writeSniFile: an empty list empties the file; otherwise the list is written
      as a document. */
  function Written(es: seq<Entry>): (f: SniText)
    ensures f.Blank? <==> es == []
  {
    if es == [] then Blank else Yaml(es)
  }

  /** Loading what was written gives back the same list. */
  lemma LoadWritten(es: seq<Entry>)
    ensures Load(Written(es)) == es
  {
  }

  // ----- fqdns -----

  /** `existing["fqdn"].(string)`: an entry's fqdn, "" when it has none. */
  function FqdnOf(e: Entry): string {
    if StringField(e, "fqdn").Some? then StringField(e, "fqdn").value else ""
  }

  function Fqdns(es: seq<Entry>): set<string> {
    set i | 0 <= i < |es| :: FqdnOf(es[i])
  }

  /** A spec entry the handlers act on: a map with a non-empty string fqdn. */
  function SpecEntry(v: Value): (r: Option<Entry>)
    ensures r.Some? ==> FqdnOf(r.value) != ""
    ensures r.Some? <==> v.VMap? && StringField(v.fields, "fqdn").Some? && StringField(v.fields, "fqdn").value != ""
  {
    if v.VMap? && FqdnOf(v.fields) != "" then Some(v.fields) else None
  }

  /** The fqdns of the spec entries the handlers act on. */
  function SpecFqdns(spec: seq<Value>): set<string> {
    set i | 0 <= i < |spec| && SpecEntry(spec[i]).Some? :: FqdnOf(SpecEntry(spec[i]).value)
  }

  // ----- add -----

  /** The index of the first entry with fqdn `f`, or -1. */
  function FirstWithFqdn(es: seq<Entry>, f: string): (i: int)
    ensures -1 <= i < |es|
    ensures i >= 0 ==> FqdnOf(es[i]) == f && forall j :: 0 <= j < i ==> FqdnOf(es[j]) != f
    ensures i < 0 <==> f !in Fqdns(es)
    decreases |es|
  {
    if es == [] then -1
    else if FqdnOf(es[|es| - 1]) == f && FirstWithFqdn(es[..|es| - 1], f) < 0 then
      assert forall j :: 0 <= j < |es| - 1 ==> es[..|es| - 1][j] == es[j];
      |es| - 1
    else
      var i := FirstWithFqdn(es[..|es| - 1], f);
      assert forall j :: 0 <= j < |es| - 1 ==> es[..|es| - 1][j] == es[j];
      assert i < 0 ==> FqdnOf(es[|es| - 1]) != f;
      i
  }

  /** One spec entry placed: it replaces the first entry with its fqdn in that
      entry's position, or is appended when no entry has its fqdn. */
  function Placed(es: seq<Entry>, e: Entry): (r: seq<Entry>)
    ensures FqdnOf(e) in Fqdns(es) ==> (|r| == |es| && r[FirstWithFqdn(es, FqdnOf(e))] == e &&
      forall j :: 0 <= j < |es| && j != FirstWithFqdn(es, FqdnOf(e)) ==> r[j] == es[j])
    ensures FqdnOf(e) !in Fqdns(es) ==> r == es + [e]
  {
    var i := FirstWithFqdn(es, FqdnOf(e));
    if i < 0 then es + [e] else es[i := e]
  }

  /** The list after add's loop over the spec entries. */
  function AddEntries(es: seq<Entry>, spec: seq<Value>): seq<Entry>
    decreases |spec|
  {
    if spec == [] then es
    else
      var r := AddEntries(es, spec[..|spec| - 1]);
      var e := SpecEntry(spec[|spec| - 1]);
      if e.Some? then Placed(r, e.value) else r
  }

  /** Placing an entry keeps every fqdn and adds its own. */
  lemma PlacedFqdns(es: seq<Entry>, e: Entry)
    ensures Fqdns(Placed(es, e)) == Fqdns(es) + {FqdnOf(e)}
  {
    var r := Placed(es, e);
    var i := FirstWithFqdn(es, FqdnOf(e));
    if i < 0 {
      assert r[|es|] == e;
      forall f | f in Fqdns(r) ensures f in Fqdns(es) + {FqdnOf(e)} {
        var j :| 0 <= j < |r| && FqdnOf(r[j]) == f;
        if j < |es| {
          assert r[j] == es[j];
        }
      }
      forall f | f in Fqdns(es) ensures f in Fqdns(r) {
        var j :| 0 <= j < |es| && FqdnOf(es[j]) == f;
        assert r[j] == es[j];
      }
    } else {
      forall f | f in Fqdns(r) ensures f in Fqdns(es) {
        var j :| 0 <= j < |r| && FqdnOf(r[j]) == f;
        if j != i {
          assert r[j] == es[j];
        }
      }
      forall f | f in Fqdns(es) ensures f in Fqdns(r) {
        var j :| 0 <= j < |es| && FqdnOf(es[j]) == f;
        if j != i {
          assert r[j] == es[j];
        }
      }
    }
  }

  /** Placing an entry leaves every entry with another fqdn where it was. */
  lemma PlacedKeepsOthers(es: seq<Entry>, e: Entry, j: int)
    requires 0 <= j < |es| && FqdnOf(es[j]) != FqdnOf(e)
    ensures j < |Placed(es, e)| && Placed(es, e)[j] == es[j]
  {
  }

  /** What add does to a list: it keeps its length or grows, its fqdns gain
      exactly the spec's, and every entry whose fqdn the spec does not name stays
      in its place. */
  predicate AddEffect(es: seq<Entry>, spec: seq<Value>, r: seq<Entry>) {
    |r| >= |es| &&
    Fqdns(r) == Fqdns(es) + SpecFqdns(spec) &&
    forall j :: 0 <= j < |es| && FqdnOf(es[j]) !in SpecFqdns(spec) ==> r[j] == es[j]
  }

  /** add never removes an entry: afterwards the fqdns are the old ones plus the
      spec's, and every entry whose fqdn the spec does not name is still in its
      place. */
  lemma {:induction false} AddEntriesEffect(es: seq<Entry>, spec: seq<Value>)
    ensures AddEffect(es, spec, AddEntries(es, spec))
    decreases |spec|
  {
    if spec != [] {
      AddEntriesEffect(es, spec[..|spec| - 1]);
      AddEntriesStep(es, spec);
    }
  }

  /** One more spec entry keeps AddEffect. */
  lemma AddEntriesStep(es: seq<Entry>, spec: seq<Value>)
    requires spec != []
    requires AddEffect(es, spec[..|spec| - 1], AddEntries(es, spec[..|spec| - 1]))
    ensures AddEffect(es, spec, AddEntries(es, spec))
  {
    var n := |spec|;
    var init := spec[..n - 1];
    var r0 := AddEntries(es, init);
    var e := SpecEntry(spec[n - 1]);
    SpecFqdnsInit(spec);
    if e.Some? {
      PlacedFqdns(r0, e.value);
      forall j | 0 <= j < |es| && FqdnOf(es[j]) !in SpecFqdns(spec)
        ensures AddEntries(es, spec)[j] == es[j]
      {
        PlacedKeepsOthers(r0, e.value, j);
      }
    }
  }

  /** A spec entry whose fqdn no later spec entry repeats is in the list after
      add. */
  lemma {:induction false} AddEntriesContains(es: seq<Entry>, spec: seq<Value>, i: int)
    requires 0 <= i < |spec| && SpecEntry(spec[i]).Some?
    requires forall j :: i < j < |spec| && SpecEntry(spec[j]).Some? ==>
      FqdnOf(SpecEntry(spec[j]).value) != FqdnOf(SpecEntry(spec[i]).value)
    ensures SpecEntry(spec[i]).value in AddEntries(es, spec)
    decreases |spec|
  {
    var n := |spec|;
    var init := spec[..n - 1];
    var r0 := AddEntries(es, init);
    var e := SpecEntry(spec[n - 1]);
    if i == n - 1 {
      var k := FirstWithFqdn(r0, FqdnOf(e.value));
      if k >= 0 {
        assert Placed(r0, e.value)[k] == e.value;
      } else {
        assert Placed(r0, e.value)[|r0|] == e.value;
      }
    } else {
      assert init[i] == spec[i];
      assert forall j :: i < j < n - 1 ==> init[j] == spec[j];
      AddEntriesContains(es, init, i);
      if e.Some? {
        var x := SpecEntry(spec[i]).value;
        var k :| 0 <= k < |r0| && r0[k] == x;
        PlacedKeepsOthers(r0, e.value, k);
      }
    }
  }

  // ----- update -----

  /** `newMap`: each spec fqdn bound to the last spec entry naming it. */
  function NewMap(spec: seq<Value>): (m: map<string, Entry>)
    ensures m.Keys == SpecFqdns(spec)
    ensures forall f :: f in m ==> FqdnOf(m[f]) == f
    decreases |spec|
  {
    if spec == [] then map[]
    else
      var init := spec[..|spec| - 1];
      assert forall i :: 0 <= i < |spec| - 1 ==> init[i] == spec[i];
      var m := NewMap(init);
      var e := SpecEntry(spec[|spec| - 1]);
      if e.Some? then m[FqdnOf(e.value) := e.value] else m
  }

  /** The first pass of update: every entry whose fqdn is in the new map is
      replaced by that entry, in place; the others stay. */
  function Replaced(es: seq<Entry>, m: map<string, Entry>): (r: seq<Entry>)
    requires forall f :: f in m ==> FqdnOf(m[f]) == f
    ensures |r| == |es|
    ensures forall i :: 0 <= i < |es| ==> FqdnOf(r[i]) == FqdnOf(es[i])
    ensures forall i :: 0 <= i < |es| ==> r[i] == if FqdnOf(es[i]) in m then m[FqdnOf(es[i])] else es[i]
  {
    seq(|es|, i requires 0 <= i < |es| => if FqdnOf(es[i]) in m then m[FqdnOf(es[i])] else es[i])
  }

  /** The second pass of update: the entries of the new fqdns no existing entry
      has, each once, in an unspecified order. */
  predicate UnseenTail(t: seq<Entry>, m: map<string, Entry>, seen: set<string>) {
    (forall j :: 0 <= j < |t| ==> FqdnOf(t[j]) in m && FqdnOf(t[j]) !in seen && t[j] == m[FqdnOf(t[j])]) &&
    (forall f :: f in m && f !in seen ==> f in Fqdns(t)) &&
    (forall i, j :: 0 <= i < j < |t| ==> FqdnOf(t[i]) != FqdnOf(t[j]))
  }

  /** update never removes an entry: every old fqdn is still there, in the same
      position, and the list gains exactly the spec's new fqdns. */
  lemma UpdateKeepsFqdns(es: seq<Entry>, spec: seq<Value>, t: seq<Entry>)
    requires UnseenTail(t, NewMap(spec), Fqdns(es))
    ensures var r := Replaced(es, NewMap(spec)) + t;
      (forall i :: 0 <= i < |es| ==> FqdnOf(r[i]) == FqdnOf(es[i])) &&
      Fqdns(r) == Fqdns(es) + SpecFqdns(spec)
  {
    var m := NewMap(spec);
    var p := Replaced(es, m);
    FqdnsConcat(p, t);
    FqdnsPointwise(p, es);
    assert Fqdns(t) <= m.Keys;
    forall i | 0 <= i < |es| ensures FqdnOf((p + t)[i]) == FqdnOf(es[i]) {
      assert (p + t)[i] == p[i];
    }
  }

  /** The fqdns of two consecutive blocks. */
  lemma FqdnsConcat(a: seq<Entry>, b: seq<Entry>)
    ensures Fqdns(a + b) == Fqdns(a) + Fqdns(b)
  {
    var s := a + b;
    forall f | f in Fqdns(s) ensures f in Fqdns(a) + Fqdns(b) {
      var j :| 0 <= j < |s| && FqdnOf(s[j]) == f;
      if j >= |a| {
        assert s[j] == b[j - |a|];
      }
    }
    forall f | f in Fqdns(a) + Fqdns(b) ensures f in Fqdns(s) {
      if f in Fqdns(a) {
        var j :| 0 <= j < |a| && FqdnOf(a[j]) == f;
        assert s[j] == a[j];
      } else {
        var j :| 0 <= j < |b| && FqdnOf(b[j]) == f;
        assert s[|a| + j] == b[j];
      }
    }
  }

  /** Lists with the same fqdn at every position have the same fqdns. */
  lemma FqdnsPointwise(a: seq<Entry>, b: seq<Entry>)
    requires |a| == |b| && forall i :: 0 <= i < |a| ==> FqdnOf(a[i]) == FqdnOf(b[i])
    ensures Fqdns(a) == Fqdns(b)
  {
    forall f | f in Fqdns(a) ensures f in Fqdns(b) {
      var j :| 0 <= j < |a| && FqdnOf(a[j]) == f;
    }
    forall f | f in Fqdns(b) ensures f in Fqdns(a) {
      var j :| 0 <= j < |b| && FqdnOf(b[j]) == f;
    }
  }

  // ----- delete -----

  /** The entries delete keeps: those whose fqdn is not in `dels`, in order. */
  function KeptEntries(es: seq<Entry>, dels: set<string>): (r: seq<Entry>)
    ensures |r| <= |es|
    ensures forall e :: e in r <==> e in es && FqdnOf(e) !in dels
    decreases |es|
  {
    if es == [] then []
    else
      var init := KeptEntries(es[..|es| - 1], dels);
      var e := es[|es| - 1];
      assert es == es[..|es| - 1] + [e];
      if FqdnOf(e) in dels then init else init + [e]
  }

  /** Keeping entries of two consecutive blocks keeps them block by block, so the
      kept entries stay in their relative order. */
  lemma {:induction false} KeptEntriesConcat(a: seq<Entry>, b: seq<Entry>, dels: set<string>)
    ensures KeptEntries(a + b, dels) == KeptEntries(a, dels) + KeptEntries(b, dels)
    decreases |b|
  {
    if b == [] {
      assert a + b == a;
    } else {
      var b' := b[..|b| - 1];
      assert a + b == (a + b') + [b[|b| - 1]];
      assert (a + b)[..|a + b| - 1] == a + b';
      KeptEntriesConcat(a, b', dels);
    }
  }

  /** After delete no entry carries a deleted fqdn, and every other fqdn
      remains. */
  lemma DeleteFqdns(es: seq<Entry>, spec: seq<Value>)
    ensures Fqdns(KeptEntries(es, SpecFqdns(spec))) == Fqdns(es) - SpecFqdns(spec)
  {
    var d := SpecFqdns(spec);
    var r := KeptEntries(es, d);
    forall f | f in Fqdns(r) ensures f in Fqdns(es) - d {
      var j :| 0 <= j < |r| && FqdnOf(r[j]) == f;
      assert r[j] in r;
      var k :| 0 <= k < |es| && es[k] == r[j];
    }
    forall f | f in Fqdns(es) - d ensures f in Fqdns(r) {
      var j :| 0 <= j < |es| && FqdnOf(es[j]) == f;
      assert es[j] in es;
      var k :| 0 <= k < |r| && r[k] == es[j];
    }
  }

  // ----- loop helpers -----

  /** The inner loop of add for one spec entry. */
  method PlaceEntry(es: seq<Entry>, entry: Entry) returns (r: seq<Entry>)
    ensures r == Placed(es, entry)
  {
    var fqdn := FqdnOf(entry);
    r := es;
    var i := 0;
    while i < |r|
      invariant 0 <= i <= |r| && r == es
      invariant forall j :: 0 <= j < i ==> FqdnOf(es[j]) != fqdn
    {
      if FqdnOf(r[i]) == fqdn {
        if r[i] != entry {
          r := r[i := entry];
        }
        return;
      }
      i := i + 1;
    }
    r := r + [entry];
  }

  /** The map loop at the end of update: the new fqdns not yet seen are
      appended, in whatever order the map yields them. */
  method AppendUnseen(updated: seq<Entry>, newMap: map<string, Entry>, seen: set<string>) returns (r: seq<Entry>)
    requires forall f :: f in newMap ==> FqdnOf(newMap[f]) == f
    ensures |r| >= |updated| && r[..|updated|] == updated
    ensures UnseenTail(r[|updated|..], newMap, seen)
  {
    r := updated;
    var rest := newMap.Keys;
    while rest != {}
      invariant rest <= newMap.Keys
      invariant |r| >= |updated| && r[..|updated|] == updated
      invariant TailSoFar(r[|updated|..], newMap, seen, rest)
      decreases |rest|
    {
      var fqdn :| fqdn in rest;
      var t0 := r[|updated|..];
      if fqdn !in seen {
        r := r + [newMap[fqdn]];
        assert r[|updated|..] == t0 + [newMap[fqdn]];
        TailSoFarAppend(t0, newMap, seen, rest, fqdn);
      } else {
        TailSoFarSkip(t0, newMap, seen, rest, fqdn);
      }
      rest := rest - {fqdn};
    }
  }

  /** The invariant of AppendUnseen: the appended entries are those of the
      unseen fqdns already taken from `rest`, each once. */
  predicate TailSoFar(t: seq<Entry>, m: map<string, Entry>, seen: set<string>, rest: set<string>) {
    (forall j :: 0 <= j < |t| ==> (FqdnOf(t[j]) in m && FqdnOf(t[j]) !in seen &&
      FqdnOf(t[j]) !in rest && t[j] == m[FqdnOf(t[j])])) &&
    (forall f :: f in m && f !in seen && f !in rest ==> f in Fqdns(t)) &&
    (forall i, j :: 0 <= i < j < |t| ==> FqdnOf(t[i]) != FqdnOf(t[j]))
  }

  lemma TailSoFarAppend(t: seq<Entry>, m: map<string, Entry>, seen: set<string>, rest: set<string>, f: string)
    requires forall g :: g in m ==> FqdnOf(m[g]) == g
    requires TailSoFar(t, m, seen, rest) && f in rest && f in m && f !in seen
    ensures TailSoFar(t + [m[f]], m, seen, rest - {f})
  {
    var t' := t + [m[f]];
    FqdnsSnoc(t, m[f]);
    assert forall j :: 0 <= j < |t| ==> t'[j] == t[j];
    assert t'[|t|] == m[f];
  }

  lemma TailSoFarSkip(t: seq<Entry>, m: map<string, Entry>, seen: set<string>, rest: set<string>, f: string)
    requires TailSoFar(t, m, seen, rest) && f in seen
    ensures TailSoFar(t, m, seen, rest - {f})
  {
  }

  lemma FqdnsSnoc(t: seq<Entry>, x: Entry)
    ensures Fqdns(t + [x]) == Fqdns(t) + {FqdnOf(x)}
  {
    FqdnsConcat(t, [x]);
    assert [x][0] == x;
    assert Fqdns([x]) == {FqdnOf(x)};
  }

  /** The loop of update that builds `newMap`. */
  method CollectNewMap(newSni: seq<Value>) returns (newMap: map<string, Entry>)
    ensures newMap == NewMap(newSni)
  {
    newMap := map[];
    var k := 0;
    while k < |newSni|
      invariant 0 <= k <= |newSni|
      invariant newMap == NewMap(newSni[..k])
    {
      assert newSni[..k + 1][..k] == newSni[..k];
      var entry := newSni[k];
      if entry.VMap? && FqdnOf(entry.fields) != "" {
        newMap := newMap[FqdnOf(entry.fields) := entry.fields];
      }
      k := k + 1;
    }
    assert newSni[..k] == newSni;
  }

  /** The loop of update over the existing entries: each is replaced by the new
      map's entry for its fqdn, if any, and those fqdns are recorded as seen. */
  method ReplaceExisting(sni: seq<Entry>, newMap: map<string, Entry>) returns (updated: seq<Entry>, seen: set<string>)
    requires forall f :: f in newMap ==> FqdnOf(newMap[f]) == f
    ensures updated == Replaced(sni, newMap)
    ensures seen == Fqdns(sni) * newMap.Keys
  {
    updated := [];
    seen := {};
    var i := 0;
    while i < |sni|
      invariant 0 <= i <= |sni|
      invariant updated == Replaced(sni[..i], newMap)
      invariant seen == Fqdns(sni[..i]) * newMap.Keys
    {
      assert sni[..i + 1] == sni[..i] + [sni[i]];
      FqdnsSnoc(sni[..i], sni[i]);
      var fqdn := FqdnOf(sni[i]);
      if fqdn in newMap {
        updated := updated + [newMap[fqdn]];
        seen := seen + {fqdn};
      } else {
        updated := updated + [sni[i]];
      }
      i := i + 1;
    }
    assert sni[..i] == sni;
  }

  /** Only the new map's fqdns can be seen, so the unseen ones are those no
      existing entry has. */
  lemma UnseenTailSeen(t: seq<Entry>, m: map<string, Entry>, es: seq<Entry>)
    requires UnseenTail(t, m, Fqdns(es) * m.Keys)
    ensures UnseenTail(t, m, Fqdns(es))
  {
  }

  // ----- the handler -----

  class AtsSniHandler {
    const resourceName: string
    const ep: Endpoint
    /** The sni.yaml file. */
    var file: SniText

    constructor (resourceName: string, ep: Endpoint, file: SniText)
      ensures this.resourceName == resourceName && this.ep == ep && this.file == file
    {
      this.resourceName := resourceName;
      this.ep := ep;
      this.file := file;
    }

    /** reloadSni: the SNI reload request. */
    method ReloadSni()
      modifies ep.atsManager
      ensures ep.atsManager.reloads == old(ep.atsManager.reloads) + 1
      ensures ep.atsManager.config == old(ep.atsManager.config)
    {
      ep.atsManager.Reload();
    }

    /** add: each spec entry with a non-empty fqdn replaces the first entry with
        that fqdn or is appended; the list is written back and a reload is
        requested. */
    method Add(obj: SniPolicy)
      modifies this, ep.atsManager
      ensures ep.atsManager.config == old(ep.atsManager.config)
      ensures obj.sni.None? ==> file == old(file) && ep.atsManager.reloads == old(ep.atsManager.reloads)
      ensures obj.sni.Some? ==>
        file == Written(AddEntries(Load(old(file)), obj.sni.value)) &&
        ep.atsManager.reloads == old(ep.atsManager.reloads) + 1
    {
      if obj.sni.None? {
        return;
      }
      var newSni := obj.sni.value;
      var sni := Load(file);
      ghost var sni0 := sni;
      var k := 0;
      while k < |newSni|
        invariant 0 <= k <= |newSni|
        invariant sni == AddEntries(sni0, newSni[..k])
        invariant ep.atsManager.config == old(ep.atsManager.config) && ep.atsManager.reloads == old(ep.atsManager.reloads)
      {
        assert newSni[..k + 1][..k] == newSni[..k];
        var entry := newSni[k];
        if entry.VMap? && FqdnOf(entry.fields) != "" {
          sni := PlaceEntry(sni, entry.fields);
        }
        k := k + 1;
      }
      assert newSni[..k] == newSni;
      file := Written(sni);
      ReloadSni();
    }

    /** update: entries whose fqdn the new spec names are replaced in place, the
        others kept, and the new fqdns no entry had are appended; nothing is
        removed. */
    method Update(oldObj: SniPolicy, newObj: SniPolicy)
      modifies this, ep.atsManager
      ensures ep.atsManager.config == old(ep.atsManager.config)
      ensures newObj.sni.None? ==> file == old(file) && ep.atsManager.reloads == old(ep.atsManager.reloads)
      ensures newObj.sni.Some? ==>
        var es := Load(old(file));
        var r := Load(file);
        file == Written(r) &&
        |r| >= |es| &&
        r[..|es|] == Replaced(es, NewMap(newObj.sni.value)) &&
        UnseenTail(r[|es|..], NewMap(newObj.sni.value), Fqdns(es)) &&
        ep.atsManager.reloads == old(ep.atsManager.reloads) + 1
    {
      if newObj.sni.None? {
        return;
      }
      var sni := Load(file);
      var newMap := CollectNewMap(newObj.sni.value);
      var updated, seen := ReplaceExisting(sni, newMap);
      var r := AppendUnseen(updated, newMap, seen);
      UnseenTailSeen(r[|sni|..], newMap, sni);
      file := Written(r);
      ReloadSni();
    }

    /** delete: every entry whose fqdn the spec names is removed and the rest are
        written back in order. */
    method Delete(obj: SniPolicy)
      modifies this, ep.atsManager
      ensures ep.atsManager.config == old(ep.atsManager.config)
      ensures obj.sni.None? ==> file == old(file) && ep.atsManager.reloads == old(ep.atsManager.reloads)
      ensures obj.sni.Some? ==>
        file == Written(KeptEntries(Load(old(file)), SpecFqdns(obj.sni.value))) &&
        ep.atsManager.reloads == old(ep.atsManager.reloads) + 1
    {
      var sni := Load(file);
      if obj.sni.None? {
        return;
      }
      var sniList := obj.sni.value;
      var delMap: set<string> := {};
      var k := 0;
      while k < |sniList|
        invariant 0 <= k <= |sniList|
        invariant delMap == SpecFqdns(sniList[..k])
      {
        var entry := sniList[k];
        ghost var pre := sniList[..k];
        assert sniList[..k + 1] == pre + [entry];
        if entry.VMap? && FqdnOf(entry.fields) != "" {
          delMap := delMap + {FqdnOf(entry.fields)};
        }
        assert SpecFqdns(pre + [entry]) == SpecFqdns(pre) +
          (if SpecEntry(entry).Some? then {FqdnOf(SpecEntry(entry).value)} else {}) by {
          SpecFqdnsSnoc(pre, entry);
        }
        k := k + 1;
      }
      assert sniList[..k] == sniList;
      var updated: seq<Entry> := [];
      var i := 0;
      while i < |sni|
        invariant 0 <= i <= |sni|
        invariant updated == KeptEntries(sni[..i], delMap)
      {
        assert sni[..i + 1][..i] == sni[..i];
        if FqdnOf(sni[i]) !in delMap {
          updated := updated + [sni[i]];
        }
        i := i + 1;
      }
      assert sni[..i] == sni;
      file := Written(updated);
      ReloadSni();
    }
  }

  /** The spec fqdns of a non-empty spec: those of all but the last value, and
      the last one's. */
  lemma SpecFqdnsInit(spec: seq<Value>)
    requires spec != []
    ensures var v := spec[|spec| - 1];
      SpecFqdns(spec) == SpecFqdns(spec[..|spec| - 1]) +
        (if SpecEntry(v).Some? then {FqdnOf(SpecEntry(v).value)} else {})
  {
    var init := spec[..|spec| - 1];
    assert forall i :: 0 <= i < |init| ==> init[i] == spec[i];
  }

  lemma SpecFqdnsSnoc(spec: seq<Value>, v: Value)
    ensures SpecFqdns(spec + [v]) == SpecFqdns(spec) +
      (if SpecEntry(v).Some? then {FqdnOf(SpecEntry(v).value)} else {})
  {
    var s := spec + [v];
    assert forall i :: 0 <= i < |spec| ==> s[i] == spec[i];
    assert s[|spec|] == v;
  }
}
