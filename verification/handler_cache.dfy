/** The caching-policy reconciler (watcher/handlerCache.go): ATSCachingPolicy
    events become edits of the lines of cache.config, each followed by a reload
    request. A rule "type=pattern ttl-in-cache=ttl" is written for every rule whose
    action is "cache". */
module CacheHandler {
  import opened Wrappers
  import opened Strings
  import opened Values
  import opened Context
  import opened Proxy

  /** An ATSCachingPolicy payload; `rules` is `spec.rules`, `None` when it is
      missing or not a list. */
  datatype CachePolicy = CachePolicy(namespace: string, name: string, rules: Option<seq<Value>>)

  /** The fields of one rule: its primary specifier's type and pattern, its action,
      and its ttl when that is a string. */
  datatype CacheRule = CacheRule(typeval: string, pattern: string, action: string, ttl: Option<string>)

  /** A rule is read when it is a map with a map "primarySpecifier" whose "type"
      and "pattern" are strings, and whose "action" is a string. */
  function ParseRule(rule: Value): Option<CacheRule> {
    if !rule.VMap? then None
    else
      match MapField(rule.fields, "primarySpecifier")
      case None => None
      case Some(primary) =>
        var t := StringField(primary, "type");
        var p := StringField(primary, "pattern");
        var a := StringField(rule.fields, "action");
        if t.Some? && p.Some? && a.Some? then
          Some(CacheRule(t.value, p.value, a.value, StringField(rule.fields, "ttl")))
        else None
  }

  /** The rules add and update act on: action "cache" with a string ttl. */
  predicate Cached(c: CacheRule) {
    c.action == "cache" && c.ttl.Some?
  }

  /** What a line is searched for: "type=pattern". */
  function Selector(t: string, p: string): string {
    t + "=" + p
  }

  /** The line a rule writes: "type=pattern ttl-in-cache=ttl". */
  function CacheLine(t: string, p: string, ttl: string): string {
    Selector(t, p) + " ttl-in-cache=" + ttl
  }

  // ----- add -----

  /** The lines add writes, one per cached rule, in rule order. */
  function AddedLines(rules: seq<Value>): seq<string>
    decreases |rules|
  {
    if rules == [] then []
    else
      var c := ParseRule(rules[|rules| - 1]);
      AddedLines(rules[..|rules| - 1]) +
        (if c.Some? && Cached(c.value) then [CacheLine(c.value.typeval, c.value.pattern, c.value.ttl.value)] else [])
  }

  /** Every added line is the line of a cached rule. */
  lemma {:induction false} AddedLinesFromRules(rules: seq<Value>, l: string)
    requires l in AddedLines(rules)
    ensures exists i :: (0 <= i < |rules| && ParseRule(rules[i]).Some? && Cached(ParseRule(rules[i]).value) &&
      l == CacheLine(ParseRule(rules[i]).value.typeval, ParseRule(rules[i]).value.pattern, ParseRule(rules[i]).value.ttl.value))
    decreases |rules|
  {
    var n := |rules|;
    var init := AddedLines(rules[..n - 1]);
    if l in init {
      AddedLinesFromRules(rules[..n - 1], l);
      var i :| 0 <= i < n - 1 && ParseRule(rules[..n - 1][i]).Some? && Cached(ParseRule(rules[..n - 1][i]).value) &&
        l == CacheLine(ParseRule(rules[..n - 1][i]).value.typeval, ParseRule(rules[..n - 1][i]).value.pattern,
          ParseRule(rules[..n - 1][i]).value.ttl.value);
      assert rules[..n - 1][i] == rules[i];
    }
  }

  /** Every cached rule's line is added. */
  lemma {:induction false} RuleLineAdded(rules: seq<Value>, i: int)
    requires 0 <= i < |rules| && ParseRule(rules[i]).Some? && Cached(ParseRule(rules[i]).value)
    ensures var c := ParseRule(rules[i]).value; CacheLine(c.typeval, c.pattern, c.ttl.value) in AddedLines(rules)
    decreases |rules|
  {
    var n := |rules|;
    if i < n - 1 {
      assert rules[..n - 1][i] == rules[i];
      RuleLineAdded(rules[..n - 1], i);
    }
  }

  /** The text of lines each written with a trailing newline. */
  function Terminated(ls: seq<string>): string
    decreases |ls|
  {
    if ls == [] then "" else Terminated(ls[..|ls| - 1]) + ls[|ls| - 1] + ['\n']
  }

  function ContentOf(file: Option<string>): string {
    if file.Some? then file.value else ""
  }

  /** A text that is empty or ends with a newline. */
  predicate Ended(s: string) {
    s == "" || s[|s| - 1] == '\n'
  }

  /** A trailing separator ends the text's parts with an empty one. */
  lemma SplitTrailing(a: string, sep: char)
    ensures Split(a + [sep], sep) == Split(a, sep) + [""]
  {
    SplitAround(a, [], sep);
    assert a + [sep] + [] == a + [sep];
    assert Split([], sep) == [""];
  }

  /** One more newline-terminated line after an ended text: the text's lines,
      then that line, then the empty remainder. */
  lemma SplitLineEnd(y: string, l: string)
    requires Ended(y) && '\n' !in l
    ensures Split(y + l + ['\n'], '\n') == Split(y, '\n')[..|Split(y, '\n')| - 1] + [l] + [""]
  {
    SplitNoSep(l, '\n');
    SplitTrailing(l, '\n');
    if y == "" {
      assert y + l + ['\n'] == l + ['\n'];
    } else {
      var y' := y[..|y| - 1];
      assert y == y' + ['\n'];
      SplitTrailing(y', '\n');
      var sy' := Split(y', '\n');
      assert (sy' + [""])[..|sy'|] == sy';
      assert y + l + ['\n'] == y' + ['\n'] + (l + ['\n']);
      SplitAround(y', l + ['\n'], '\n');
    }
  }

  /** An ended text's last line is the empty remainder after its final newline. */
  lemma EndedLastEmpty(c: string)
    requires Ended(c)
    ensures Split(c, '\n') == Split(c, '\n')[..|Split(c, '\n')| - 1] + [""]
  {
    if c != "" {
      var c' := c[..|c| - 1];
      assert c == c' + ['\n'];
      SplitTrailing(c', '\n');
      var sc' := Split(c', '\n');
      assert (sc' + [""])[..|sc'|] == sc';
    }
  }

  /** add keeps every line of an ended file and appends its lines after them:
      the file reads as the old lines, the added lines, and the empty remainder
      after the last newline. */
  lemma {:induction false} AddAppendsLines(c: string, ls: seq<string>)
    requires Ended(c)
    requires forall i :: 0 <= i < |ls| ==> '\n' !in ls[i]
    ensures Split(c + Terminated(ls), '\n') == Split(c, '\n')[..|Split(c, '\n')| - 1] + ls + [""]
    decreases |ls|
  {
    if ls == [] {
      assert c + Terminated(ls) == c;
      EndedLastEmpty(c);
    } else {
      var init := ls[..|ls| - 1];
      AddAppendsLines(c, init);
      AddAppendsStep(c, init, ls[|ls| - 1]);
      assert ls == init + [ls[|ls| - 1]];
    }
  }

  /** add on a file that does not end with a newline: the appended bytes run on
      from the file's last line, which is not empty, so that line and the
      first added line become one line; the other added lines follow. */
  lemma AddGluesUnterminated(c: string, ls: seq<string>)
    requires !Ended(c)
    requires |ls| >= 1 && forall i :: 0 <= i < |ls| ==> '\n' !in ls[i]
    ensures var sc := Split(c, '\n');
      sc[|sc| - 1] != "" &&
      Split(c + Terminated(ls), '\n') == sc[..|sc| - 1] + [sc[|sc| - 1] + ls[0]] + ls[1..] + [""]
  {
    TerminatedLines(ls);
    UnendedLastLine(c);
    SplitConcat(c, Terminated(ls), '\n');
    GluedLines(Split(c, '\n'), ls);
  }

  /** Gluing a file's lines to added lines followed by the empty remainder. */
  lemma GluedLines(sc: seq<string>, ls: seq<string>)
    requires |sc| >= 1 && |ls| >= 1
    ensures Glued(sc, ls + [""]) == sc[..|sc| - 1] + [sc[|sc| - 1] + ls[0]] + ls[1..] + [""]
  {
    var st := ls + [""];
    assert st[0] == ls[0] && st[1..] == ls[1..] + [""];
  }

  /** Split on its own undoes Terminated, leaving the empty remainder. */
  lemma {:induction false} TerminatedLines(ls: seq<string>)
    requires forall i :: 0 <= i < |ls| ==> '\n' !in ls[i]
    ensures Split(Terminated(ls), '\n') == ls + [""]
    decreases |ls|
  {
    if ls != [] {
      var init := ls[..|ls| - 1];
      var l := ls[|ls| - 1];
      TerminatedLines(init);
      AddedTextEnded("", init);
      assert "" + Terminated(init) == Terminated(init);
      SplitLineEnd(Terminated(init), l);
      var si := init + [""];
      assert si[..|si| - 1] == init;
      assert ls == init + [l];
    }
  }

  /** A non-empty text without a final newline has a non-empty last line. */
  lemma UnendedLastLine(c: string)
    requires !Ended(c)
    ensures var sc := Split(c, '\n'); sc[|sc| - 1] != ""
  {
    var c' := c[..|c| - 1];
    var x := c[|c| - 1];
    assert c == c' + [x];
    SplitConcat(c', [x], '\n');
    SplitNoSep([x], '\n');
    var sc' := Split(c', '\n');
    assert |Split(c, '\n')| == |sc'|;
    assert Split(c, '\n')[|sc'| - 1] == sc'[|sc'| - 1] + [x];
  }

  /** One more added line, given the lines added before it. */
  lemma AddAppendsStep(c: string, init: seq<string>, l: string)
    requires Ended(c) && '\n' !in l
    requires Split(c + Terminated(init), '\n') == Split(c, '\n')[..|Split(c, '\n')| - 1] + init + [""]
    ensures Split(c + Terminated(init + [l]), '\n') == Split(c, '\n')[..|Split(c, '\n')| - 1] + (init + [l]) + [""]
  {
    var a := Split(c, '\n')[..|Split(c, '\n')| - 1];
    var y := c + Terminated(init);
    AddedTextEnded(c, init);
    SplitLineEnd(y, l);
    TerminatedSnoc(c, init, l);
    LinesRegroup(a, init, l);
  }

  lemma LinesRegroup(a: seq<string>, init: seq<string>, l: string)
    ensures (a + init + [""])[..|a + init + [""]| - 1] + [l] + [""] == a + (init + [l]) + [""]
  {
    assert (a + init + [""])[..|a + init + [""]| - 1] == a + init;
  }

  lemma TerminatedSnoc(c: string, init: seq<string>, l: string)
    ensures c + Terminated(init + [l]) == c + Terminated(init) + l + ['\n']
  {
    assert (init + [l])[..|init|] == init;
  }

  lemma AddedTextEnded(c: string, ls: seq<string>)
    requires Ended(c)
    ensures Ended(c + Terminated(ls))
  {
  }

  // ----- update -----

  /** The index of the first line containing `needle`, or -1 when none does. */
  function FirstContaining(lines: seq<string>, needle: string): (i: int)
    ensures -1 <= i < |lines|
    ensures i >= 0 ==> Contains(lines[i], needle)
    ensures forall j :: 0 <= j < |lines| && (i < 0 || j < i) ==> !Contains(lines[j], needle)
    decreases |lines|
  {
    if lines == [] then -1
    else if Contains(lines[0], needle) then 0
    else
      var r := FirstContaining(lines[1..], needle);
      if r < 0 then -1 else r + 1
  }

  /** The first line containing `needle` replaced by `line`; no line is added. */
  function RewriteFirst(lines: seq<string>, needle: string, line: string): (r: seq<string>)
    ensures |r| == |lines|
  {
    var i := FirstContaining(lines, needle);
    if i < 0 then lines else lines[i := line]
  }

  /** The lines after update's rule loop. */
  function UpdateLines(lines: seq<string>, rules: seq<Value>): (r: seq<string>)
    ensures |r| == |lines|
    decreases |rules|
  {
    if rules == [] then lines
    else
      var ls := UpdateLines(lines, rules[..|rules| - 1]);
      var c := ParseRule(rules[|rules| - 1]);
      if c.Some? && Cached(c.value) then
        RewriteFirst(ls, Selector(c.value.typeval, c.value.pattern), CacheLine(c.value.typeval, c.value.pattern, c.value.ttl.value))
      else ls
  }

  /** No line mentions the selector of any cached rule. */
  predicate NoRuleMatches(lines: seq<string>, rules: seq<Value>) {
    forall i, j :: 0 <= i < |rules| && 0 <= j < |lines| && ParseRule(rules[i]).Some? && Cached(ParseRule(rules[i]).value) ==>
      !Contains(lines[j], Selector(ParseRule(rules[i]).value.typeval, ParseRule(rules[i]).value.pattern))
  }

  /** A rule without a matching line is dropped, not appended: when no line
      matches, update leaves the lines as they are. */
  lemma {:induction false} UpdateWithoutMatches(lines: seq<string>, rules: seq<Value>)
    requires NoRuleMatches(lines, rules)
    ensures UpdateLines(lines, rules) == lines
    decreases |rules|
  {
    if rules != [] {
      var n := |rules|;
      assert forall i :: 0 <= i < n - 1 ==> rules[..n - 1][i] == rules[i];
      UpdateWithoutMatches(lines, rules[..n - 1]);
      var c := ParseRule(rules[n - 1]);
      if c.Some? && Cached(c.value) {
        var needle := Selector(c.value.typeval, c.value.pattern);
        assert forall j :: 0 <= j < |lines| ==> !Contains(lines[j], needle);
      }
    }
  }

  /** The rewrite changes only the first matching line, which becomes the rule's
      line; every other line stays. */
  lemma RewriteFirstOnly(lines: seq<string>, needle: string, line: string, j: int)
    requires 0 <= j < |lines|
    ensures RewriteFirst(lines, needle, line)[j] ==
      if j == FirstContaining(lines, needle) then line else lines[j]
  {
  }

  // ----- delete -----

  /** The patterns delete looks for, keyed by type: a later cache rule of a type
      replaces an earlier one's pattern. */
  function DeletePatterns(rules: seq<Value>): map<string, string>
    decreases |rules|
  {
    if rules == [] then map[]
    else
      var m := DeletePatterns(rules[..|rules| - 1]);
      var c := ParseRule(rules[|rules| - 1]);
      if c.Some? && c.value.action == "cache" then m[c.value.typeval := c.value.pattern] else m
  }

  /** A line delete removes: it contains "type=pattern" for some recorded type. */
  predicate Doomed(line: string, pats: map<string, string>) {
    exists t :: t in pats && Contains(line, Selector(t, pats[t]))
  }

  /** The lines delete keeps, in their order. */
  function KeptLines(lines: seq<string>, pats: map<string, string>): (r: seq<string>)
    ensures forall l :: l in r <==> l in lines && !Doomed(l, pats)
    decreases |lines|
  {
    if lines == [] then []
    else
      var init := KeptLines(lines[..|lines| - 1], pats);
      var l := lines[|lines| - 1];
      assert lines == lines[..|lines| - 1] + [l];
      if Doomed(l, pats) then init else init + [l]
  }

  /** The kept lines of two consecutive blocks are the kept lines of each, in
      order. */
  lemma {:induction false} KeptLinesConcat(a: seq<string>, b: seq<string>, pats: map<string, string>)
    ensures KeptLines(a + b, pats) == KeptLines(a, pats) + KeptLines(b, pats)
    decreases |b|
  {
    if b == [] {
      assert a + b == a;
    } else {
      var b' := b[..|b| - 1];
      assert a + b == (a + b') + [b[|b| - 1]];
      assert (a + b)[..|a + b| - 1] == a + b';
      KeptLinesConcat(a, b', pats);
    }
  }

  /** A text lacking one of the needle's characters does not contain it. */
  lemma {:induction false} AbsentCharNotContained(s: string, needle: string, c: char)
    requires c in needle && c !in s
    ensures !Contains(s, needle)
    decreases |s|
  {
    if |needle| <= |s| {
      var i :| 0 <= i < |needle| && needle[i] == c;
      assert s[..|needle|][i] == s[i];
    }
    if |s| > 0 {
      AbsentCharNotContained(s[1..], needle, c);
    }
  }

  /** Two cache rules of type "t", with patterns "a" and then "b". */
  function SameTypeRules(): seq<Value> {
    [VMap(map["primarySpecifier" := VMap(map["type" := VString("t"), "pattern" := VString("a")]),
              "action" := VString("cache")]),
     VMap(map["primarySpecifier" := VMap(map["type" := VString("t"), "pattern" := VString("b")]),
              "action" := VString("cache")])]
  }

  /** Only the later pattern of a type is recorded for deletion. */
  lemma SameTypePatterns()
    ensures DeletePatterns(SameTypeRules()) == map["t" := "b"]
  {
    var rs := SameTypeRules();
    assert ParseRule(rs[0]) == Some(CacheRule("t", "a", "cache", None));
    assert ParseRule(rs[1]) == Some(CacheRule("t", "b", "cache", None));
    assert rs[..1] == [rs[0]];
    assert [rs[0]][..0] == [];
    assert DeletePatterns(rs[..1]) == map["t" := "a"];
    assert DeletePatterns(rs) == map["t" := "a"]["t" := "b"];
  }

  /** The later rule's line contains the recorded "t=b". */
  lemma SameTypeLaterDoomed()
    ensures Doomed(CacheLine("t", "b", "2"), map["t" := "b"])
  {
    var l2 := CacheLine("t", "b", "2");
    assert l2[0..3] == Selector("t", "b");
    ContainsAt(l2, Selector("t", "b"), 0);
    assert Selector("t", map["t" := "b"]["t"]) == Selector("t", "b");
  }

  /** The earlier rule's line does not contain "t=b". */
  lemma SameTypeEarlierKept()
    ensures !Doomed(CacheLine("t", "a", "1"), map["t" := "b"])
  {
    var l1 := CacheLine("t", "a", "1");
    assert 'b' in Selector("t", "b") && 'b' !in l1;
    AbsentCharNotContained(l1, Selector("t", "b"), 'b');
  }

  /** With two cache rules of the same type, only the later rule's pattern is
      looked for: its line is removed and the earlier rule's line stays. */
  lemma SameTypeDeleteKeepsEarlier()
    ensures KeptLines([CacheLine("t", "a", "1"), CacheLine("t", "b", "2")], DeletePatterns(SameTypeRules())) ==
      [CacheLine("t", "a", "1")]
  {
    SameTypePatterns();
    SameTypeLaterDoomed();
    SameTypeEarlierKept();
    var l1 := CacheLine("t", "a", "1");
    var l2 := CacheLine("t", "b", "2");
    assert [l1, l2][..1] == [l1];
    assert [l1][..0] == [];
  }

  // ----- the handler -----

  /** The first loop of add: the line of every cached rule, in rule order. */
  method CollectAddedLines(rules: seq<Value>) returns (lines: seq<string>)
    ensures lines == AddedLines(rules)
  {
    lines := [];
    var i := 0;
    while i < |rules|
      invariant 0 <= i <= |rules|
      invariant lines == AddedLines(rules[..i])
    {
      assert rules[..i + 1][..i] == rules[..i];
      var rule := ParseRule(rules[i]);
      if rule.Some? && rule.value.ttl.Some? && rule.value.action == "cache" {
        lines := lines + [CacheLine(rule.value.typeval, rule.value.pattern, rule.value.ttl.value)];
      }
      i := i + 1;
    }
    assert rules[..i] == rules;
  }

  /** The write loop of add: each line followed by a newline. */
  method AppendLines(c0: string, lines: seq<string>) returns (content: string)
    ensures content == c0 + Terminated(lines)
  {
    content := c0;
    var j := 0;
    while j < |lines|
      invariant 0 <= j <= |lines|
      invariant content == c0 + Terminated(lines[..j])
    {
      assert lines[..j + 1] == lines[..j] + [lines[j]];
      TerminatedSnoc(c0, lines[..j], lines[j]);
      content := content + lines[j] + "\n";
      j := j + 1;
    }
    assert lines[..j] == lines;
  }

  /** The line loop of update for one rule: the first line containing the
      needle is replaced, and the loop stops there. */
  method RewriteFirstLine(lines: seq<string>, needle: string, line: string) returns (r: seq<string>)
    ensures r == RewriteFirst(lines, needle, line)
  {
    r := lines;
    var i := 0;
    while i < |r|
      invariant 0 <= i <= |r| && r == lines
      invariant forall j :: 0 <= j < i ==> !Contains(lines[j], needle)
    {
      if Contains(r[i], needle) {
        r := r[i := line];
        return;
      }
      i := i + 1;
    }
  }

  /** The map loop of delete for one line: whether some recorded type's
      "type=pattern" occurs in it. */
  method IsDoomed(line: string, pats: map<string, string>) returns (shouldDelete: bool)
    ensures shouldDelete == Doomed(line, pats)
  {
    shouldDelete := false;
    var rest := pats.Keys;
    while rest != {}
      invariant rest <= pats.Keys
      invariant forall t :: t in pats && t !in rest ==> !Contains(line, Selector(t, pats[t]))
      decreases |rest|
    {
      var t :| t in rest;
      if Contains(line, Selector(t, pats[t])) {
        shouldDelete := true;
        return;
      }
      rest := rest - {t};
    }
  }


  class AtsCacheHandler {
    const resourceName: string
    const ep: Endpoint
    /** The cache.config file; `None` when it does not exist. */
    var cacheConfig: Option<string>

    constructor (resourceName: string, ep: Endpoint, cacheConfig: Option<string>)
      ensures this.resourceName == resourceName && this.ep == ep && this.cacheConfig == cacheConfig
    {
      this.resourceName := resourceName;
      this.ep := ep;
      this.cacheConfig := cacheConfig;
    }

    /** The reload request after every completed edit. */
    method UpdateAts()
      modifies ep.atsManager
      ensures ep.atsManager.reloads == old(ep.atsManager.reloads) + 1
      ensures ep.atsManager.config == old(ep.atsManager.config)
    {
      ep.atsManager.Reload();
    }

    /** add: with rules present, the line of every cached rule is appended to the
        file (created if missing), then a reload is requested. */
    method Add(obj: CachePolicy)
      modifies this, ep.atsManager
      ensures ep.atsManager.config == old(ep.atsManager.config)
      ensures obj.rules.None? ==> cacheConfig == old(cacheConfig) && ep.atsManager.reloads == old(ep.atsManager.reloads)
      ensures obj.rules.Some? ==>
        cacheConfig == Some(ContentOf(old(cacheConfig)) + Terminated(AddedLines(obj.rules.value))) &&
        ep.atsManager.reloads == old(ep.atsManager.reloads) + 1
    {
      if obj.rules.None? {
        return;
      }
      var lines := CollectAddedLines(obj.rules.value);
      var content := if cacheConfig.Some? then cacheConfig.value else "";
      content := AppendLines(content, lines);
      cacheConfig := Some(content);
      UpdateAts();
    }

    /** update: only the new object is read. With rules present and the file
        readable, each cached rule rewrites the first line containing its
        "type=pattern"; the lines are written back and a reload is requested. */
    method Update(oldObj: CachePolicy, newObj: CachePolicy)
      modifies this, ep.atsManager
      ensures ep.atsManager.config == old(ep.atsManager.config)
      ensures newObj.rules.None? || old(cacheConfig).None? ==>
        cacheConfig == old(cacheConfig) && ep.atsManager.reloads == old(ep.atsManager.reloads)
      ensures newObj.rules.Some? && old(cacheConfig).Some? ==>
        cacheConfig == Some(Join(UpdateLines(Split(old(cacheConfig).value, '\n'), newObj.rules.value), '\n')) &&
        ep.atsManager.reloads == old(ep.atsManager.reloads) + 1
    {
      if newObj.rules.None? || cacheConfig.None? {
        return;
      }
      var rules := newObj.rules.value;
      var lines := Split(cacheConfig.value, '\n');
      ghost var lines0 := lines;
      var i := 0;
      while i < |rules|
        invariant 0 <= i <= |rules|
        invariant lines == UpdateLines(lines0, rules[..i])
        invariant ep.atsManager.config == old(ep.atsManager.config) && ep.atsManager.reloads == old(ep.atsManager.reloads)
      {
        assert rules[..i + 1][..i] == rules[..i];
        var rule := ParseRule(rules[i]);
        if rule.Some? && rule.value.ttl.Some? && rule.value.action == "cache" {
          var c := rule.value;
          lines := RewriteFirstLine(lines, Selector(c.typeval, c.pattern), CacheLine(c.typeval, c.pattern, c.ttl.value));
        }
        i := i + 1;
      }
      assert rules[..i] == rules;
      cacheConfig := Some(Join(lines, '\n'));
      UpdateAts();
    }

    /** delete: with the file readable and rules present, every line containing
        "type=pattern" for a recorded type is dropped, the rest are written back
        in order, and a reload is requested. */
    method Delete(obj: CachePolicy)
      modifies this, ep.atsManager
      ensures ep.atsManager.config == old(ep.atsManager.config)
      ensures obj.rules.None? || old(cacheConfig).None? ==>
        cacheConfig == old(cacheConfig) && ep.atsManager.reloads == old(ep.atsManager.reloads)
      ensures obj.rules.Some? && old(cacheConfig).Some? ==>
        cacheConfig == Some(Join(KeptLines(Split(old(cacheConfig).value, '\n'), DeletePatterns(obj.rules.value)), '\n')) &&
        ep.atsManager.reloads == old(ep.atsManager.reloads) + 1
    {
      if cacheConfig.None? {
        return;
      }
      var lines := Split(cacheConfig.value, '\n');
      if obj.rules.None? {
        return;
      }
      var rules := obj.rules.value;
      var patternsToDelete: map<string, string> := map[];
      var i := 0;
      while i < |rules|
        invariant 0 <= i <= |rules|
        invariant patternsToDelete == DeletePatterns(rules[..i])
      {
        assert rules[..i + 1][..i] == rules[..i];
        var rule := ParseRule(rules[i]);
        if rule.Some? && rule.value.action == "cache" {
          patternsToDelete := patternsToDelete[rule.value.typeval := rule.value.pattern];
        }
        i := i + 1;
      }
      assert rules[..i] == rules;
      var updatedLines: seq<string> := [];
      var j := 0;
      while j < |lines|
        invariant 0 <= j <= |lines|
        invariant updatedLines == KeptLines(lines[..j], patternsToDelete)
        invariant ep.atsManager.config == old(ep.atsManager.config) && ep.atsManager.reloads == old(ep.atsManager.reloads)
      {
        assert lines[..j + 1][..j] == lines[..j];
        var shouldDelete := IsDoomed(lines[j], patternsToDelete);
        if !shouldDelete {
          updatedLines := updatedLines + [lines[j]];
        }
        j := j + 1;
      }
      assert lines[..j] == lines;
      cacheConfig := Some(Join(updatedLines, '\n'));
      UpdateAts();
    }
  }
}
