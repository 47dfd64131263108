/** The namespace flags of the controller's entry point (main/main.go): the
    namespaces to watch and to ignore are comma-separated lists, lower-cased and
    stripped of spaces; the proxy's own namespace must be given. */
module Flags {
  import opened Wrappers
  import opened Strings
  import opened Namespace

  datatype Args = Args(namespaces: string, ignoreNamespaces: string, atsNamespace: string)

  /** The items of a list flag, after lower-casing and removing spaces. */
  function Items(flag: string): seq<string> {
    Split(RemoveChar(ToLower(flag), ' '), ',')
  }

  /** The namespaces a list flag names: its non-empty items. */
  function Named(flag: string): set<string> {
    set x | x in Items(flag) && x != ""
  }

  /** The keys of the watch map: none for "all", else the named namespaces. */
  function WatchKeys(flag: string): set<string> {
    if flag == All then {} else Named(flag)
  }

  /** The keys of the ignore map: none for an empty flag, else the named
      namespaces. */
  function IgnoreKeys(flag: string): set<string> {
    if flag == "" then {} else Named(flag)
  }

  /** The loop that fills a namespace map from one flag value. */
  method FillMap(flag: string) returns (m: map<string, bool>)
    ensures m.Keys == Named(flag)
    ensures forall k :: k in m ==> m[k]
  {
    m := map[];
    var list := Split(RemoveChar(ToLower(flag), ' '), ',');
    var i := 0;
    while i < |list|
      invariant 0 <= i <= |list|
      invariant m.Keys == set x | x in list[..i] && x != ""
      invariant forall k :: k in m ==> m[k]
    {
      assert list[..i + 1] == list[..i] + [list[i]];
      if list[i] != "" {
        m := m[list[i] := true];
      }
      i := i + 1;
    }
    assert list[..i] == list;
  }

  /** The argument checks of main: an empty proxy namespace is fatal; otherwise the watch map
      (left empty for "all") and the ignore map (left empty for an empty flag)
      are filled. */
  method ParseNamespaces(args: Args) returns (r: Result<(map<string, bool>, map<string, bool>)>)
    ensures r.Err? <==> args.atsNamespace == ""
    ensures r.Ok? ==> r.value.0.Keys == WatchKeys(args.namespaces) && r.value.1.Keys == IgnoreKeys(args.ignoreNamespaces)
    ensures r.Ok? ==> (forall k :: k in r.value.0 ==> r.value.0[k]) && (forall k :: k in r.value.1 ==> r.value.1[k])
  {
    if args.atsNamespace == "" {
      return Err("Not all required args given.");
    }
    var namespaceMap: map<string, bool> := map[];
    if args.namespaces != All {
      namespaceMap := FillMap(args.namespaces);
    }
    var ignoreNamespaceMap: map<string, bool> := map[];
    if args.ignoreNamespaces != "" {
      ignoreNamespaceMap := FillMap(args.ignoreNamespaces);
    }
    r := Ok((namespaceMap, ignoreNamespaceMap));
  }

  /** Every stored namespace is non-empty, lower-case, without spaces or
      commas. */
  lemma NamedShape(flag: string, x: string)
    requires x in Named(flag)
    ensures x != "" && IsLower(x) && ' ' !in x && ',' !in x
  {
    var t := RemoveChar(ToLower(flag), ' ');
    var parts := Split(t, ',');
    var j :| 0 <= j < |parts| && parts[j] == x;
    SplitPartsFrom(t, ',', j);
    forall i | 0 <= i < |x| ensures !('A' <= x[i] <= 'Z') {
      assert x[i] in t;
      var k :| 0 <= k < |ToLower(flag)| && ToLower(flag)[k] == x[i];
    }
  }

  /** Every non-empty item of the flag, once lower-cased and stripped of spaces,
      is a key. */
  lemma ItemNamed(flag: string, i: int)
    requires 0 <= i < |Items(flag)| && Items(flag)[i] != ""
    ensures Items(flag)[i] in Named(flag)
  {
  }

  /** An empty list flag names nothing, so an empty namespaces flag watches every
      namespace just as "all" does. */
  lemma EmptyFlagNamesNothing()
    ensures Named("") == {}
  {
    assert ToLower("") == "";
    assert RemoveChar("", ' ') == "";
    assert Items("") == [""];
  }

  /** The characters of a split part come from the text. */
  lemma {:induction false} SplitPartsFrom(s: string, sep: char, j: int)
    requires 0 <= j < |Split(s, sep)|
    ensures forall c :: c in Split(s, sep)[j] ==> c in s
    decreases |s|
  {
    if s != [] {
      var rest := Split(s[1..], sep);
      if s[0] == sep {
        if j > 0 {
          SplitPartsFrom(s[1..], sep, j - 1);
        }
      } else if j > 0 {
        SplitPartsFrom(s[1..], sep, j);
      } else {
        SplitPartsFrom(s[1..], sep, 0);
        assert Split(s, sep)[0] == [s[0]] + rest[0];
      }
    }
  }
}
