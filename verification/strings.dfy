/** The pieces of Go's `strings` and `strconv` packages the controller relies on:
    split and join on one separator, substring search, ASCII lower-casing,
    character removal, decimal formatting and byte-wise string ordering. */
module Strings {

  predicate StartsWith(s: string, prefix: string) {
    |prefix| <= |s| && s[..|prefix|] == prefix
  }

  /** strings.Contains: `needle` occurs somewhere in `s`. */
  predicate Contains(s: string, needle: string)
    decreases |s|
  {
    StartsWith(s, needle) || (|s| > 0 && Contains(s[1..], needle))
  }

  lemma {:induction false} ContainsAt(s: string, needle: string, i: nat)
    requires i + |needle| <= |s| && s[i..i + |needle|] == needle
    ensures Contains(s, needle)
    decreases i
  {
    if i > 0 {
      assert s[1..][i - 1..i - 1 + |needle|] == s[i..i + |needle|];
      ContainsAt(s[1..], needle, i - 1);
    }
  }

  /** How many times `c` occurs in `s`. */
  function Occurrences(s: string, c: char): nat
    decreases |s|
  {
    if s == [] then 0 else (if s[0] == c then 1 else 0) + Occurrences(s[1..], c)
  }

  /** strings.Split with a one-character separator: at least one part, and no
      part contains the separator (SplitCount gives the number of parts). */
  function Split(s: string, sep: char): (parts: seq<string>)
    ensures |parts| >= 1
    ensures forall i :: 0 <= i < |parts| ==> sep !in parts[i]
    decreases |s|
  {
    if s == [] then [""]
    else
      var rest := Split(s[1..], sep);
      if s[0] == sep then [""] + rest
      else [[s[0]] + rest[0]] + rest[1..]
  }

  /** n separators give n + 1 parts. */
  lemma {:induction false} SplitCount(s: string, sep: char)
    ensures |Split(s, sep)| == Occurrences(s, sep) + 1
    decreases |s|
  {
    if s != [] {
      SplitCount(s[1..], sep);
    }
  }

  /** strings.Join with a one-character separator; joining no parts gives "". */
  function Join(parts: seq<string>, sep: char): string
    decreases |parts|
  {
    if |parts| == 0 then ""
    else if |parts| == 1 then parts[0]
    else parts[0] + [sep] + Join(parts[1..], sep)
  }

  /** Joining the parts of a split gives back the text. */
  lemma {:induction false} JoinSplit(s: string, sep: char)
    ensures Join(Split(s, sep), sep) == s
    decreases |s|
  {
    if s != [] {
      var rest := Split(s[1..], sep);
      JoinSplit(s[1..], sep);
      if s[0] == sep {
        assert Split(s, sep) == [""] + rest;
        assert ([""] + rest)[1..] == rest;
        assert s == [sep] + s[1..];
      } else {
        var parts := Split(s, sep);
        assert parts == [[s[0]] + rest[0]] + rest[1..];
        if |rest| == 1 {
          assert Join(rest, sep) == rest[0];
        } else {
          assert parts[1..] == rest[1..];
          assert Join(rest, sep) == rest[0] + [sep] + Join(rest[1..], sep);
        }
        assert s == [s[0]] + s[1..];
      }
    }
  }

  /** A text without the separator splits into itself alone. */
  lemma {:induction false} SplitNoSep(s: string, sep: char)
    requires sep !in s
    ensures Split(s, sep) == [s]
    decreases |s|
  {
    if s != [] {
      assert sep !in s[1..];
      SplitNoSep(s[1..], sep);
      assert [s[0]] + s[1..] == s;
    }
  }

  /** How Split treats the first character of a non-empty text. */
  lemma SplitCons(c: char, t: string, sep: char)
    ensures Split([c] + t, sep) ==
      if c == sep then [""] + Split(t, sep)
      else [[c] + Split(t, sep)[0]] + Split(t, sep)[1..]
  {
    assert ([c] + t)[1..] == t;
  }

  /** Splitting at a separator splits the two sides independently. */
  lemma {:induction false} SplitAround(a: string, b: string, sep: char)
    ensures Split(a + [sep] + b, sep) == Split(a, sep) + Split(b, sep)
    decreases |a|
  {
    if a == [] {
      SplitCons(sep, b, sep);
      assert a + [sep] + b == [sep] + b;
      assert Split(a, sep) == [""];
    } else {
      SplitAround(a[1..], b, sep);
      SplitAroundCons(a[0], a[1..], b, sep);
      assert a == [a[0]] + a[1..];
      assert a + [sep] + b == [a[0]] + (a[1..] + [sep] + b);
    }
  }

  /** The inductive step of SplitAround: one more leading character. */
  lemma SplitAroundCons(c: char, a: string, b: string, sep: char)
    requires Split(a + [sep] + b, sep) == Split(a, sep) + Split(b, sep)
    ensures Split([c] + (a + [sep] + b), sep) == Split([c] + a, sep) + Split(b, sep)
  {
    SplitCons(c, a + [sep] + b, sep);
    SplitCons(c, a, sep);
    ConsRegroup(c, sep, Split(a, sep), Split(b, sep));
  }

  /** Putting a character in front of the first part commutes with appending
      further parts. */
  lemma ConsRegroup(c: char, sep: char, ra: seq<string>, sb: seq<string>)
    requires |ra| >= 1
    ensures (if c == sep then [""] + (ra + sb) else [[c] + (ra + sb)[0]] + (ra + sb)[1..]) ==
      (if c == sep then [""] + ra else [[c] + ra[0]] + ra[1..]) + sb
  {
    if c != sep {
      assert (ra + sb)[0] == ra[0];
      assert (ra + sb)[1..] == ra[1..] + sb;
    }
  }

  /** Splitting a concatenation: the last part of the left text and the first
      part of the right text become one part. */
  lemma {:induction false} SplitConcat(a: string, b: string, sep: char)
    ensures Split(a + b, sep) == Glued(Split(a, sep), Split(b, sep))
    decreases |a|
  {
    if a == [] {
      var sb := Split(b, sep);
      assert a + b == b;
      assert Split(a, sep) == [""];
      assert "" + sb[0] == sb[0];
      assert Glued([""], sb) == [sb[0]] + sb[1..];
    } else {
      var t := a[1..];
      SplitConcat(t, b, sep);
      assert a == [a[0]] + t;
      assert a + b == [a[0]] + (t + b);
      SplitCons(a[0], t, sep);
      SplitCons(a[0], t + b, sep);
      GluedCons(a[0], sep, Split(t, sep), Split(b, sep));
    }
  }

  /** The parts of `ra` then those of `rb`, the last of the one joined to the
      first of the other. */
  function Glued(ra: seq<string>, rb: seq<string>): seq<string>
    requires |ra| >= 1 && |rb| >= 1
  {
    ra[..|ra| - 1] + [ra[|ra| - 1] + rb[0]] + rb[1..]
  }

  /** The inductive step of SplitConcat: one more leading character. */
  lemma GluedCons(c: char, sep: char, ra: seq<string>, rb: seq<string>)
    requires |ra| >= 1 && |rb| >= 1
    ensures (if c == sep then [""] + Glued(ra, rb) else [[c] + Glued(ra, rb)[0]] + Glued(ra, rb)[1..]) ==
      Glued(if c == sep then [""] + ra else [[c] + ra[0]] + ra[1..], rb)
  {
    var n := |ra|;
    var g := Glued(ra, rb);
    if c == sep {
      assert ([""] + ra)[..n] == [""] + ra[..n - 1];
    } else if n == 1 {
      assert g == [ra[0] + rb[0]] + rb[1..];
      assert [c] + (ra[0] + rb[0]) == ([c] + ra[0]) + rb[0];
    } else {
      var ca := [[c] + ra[0]] + ra[1..];
      assert g[0] == ra[0];
      assert g[1..] == ra[1..n - 1] + [ra[n - 1] + rb[0]] + rb[1..];
      assert ca[..n - 1] == [[c] + ra[0]] + ra[1..n - 1];
    }
  }

  /** Splitting the join of separator-free parts gives the parts back. */
  lemma {:induction false} SplitJoin(parts: seq<string>, sep: char)
    requires |parts| >= 1
    requires forall i :: 0 <= i < |parts| ==> sep !in parts[i]
    ensures Split(Join(parts, sep), sep) == parts
    decreases |parts|
  {
    SplitNoSep(parts[0], sep);
    if |parts| > 1 {
      SplitJoin(parts[1..], sep);
      SplitAround(parts[0], Join(parts[1..], sep), sep);
      assert parts == [parts[0]] + parts[1..];
    }
  }

  function LowerChar(c: char): char {
    if 'A' <= c <= 'Z' then (c as int + 32) as char else c
  }

  /** strings.ToLower, restricted to ASCII letters. */
  function ToLower(s: string): (r: string)
    ensures |r| == |s|
    ensures forall i :: 0 <= i < |s| ==> r[i] == LowerChar(s[i])
  {
    seq(|s|, i requires 0 <= i < |s| => LowerChar(s[i]))
  }

  predicate IsLower(s: string) {
    forall i :: 0 <= i < |s| ==> !('A' <= s[i] <= 'Z')
  }

  /** strings.Replace(s, c, "", -1): every occurrence of `c` removed. */
  function RemoveChar(s: string, c: char): (r: string)
    ensures c !in r
    ensures forall x :: x in r <==> x in s && x != c
    decreases |s|
  {
    if s == [] then []
    else (if s[0] == c then [] else [s[0]]) + RemoveChar(s[1..], c)
  }

  /** Removal works piece by piece: the characters of each part that are kept
      stay in order, part after part. */
  lemma {:induction false} RemoveCharConcat(a: string, b: string, c: char)
    ensures RemoveChar(a + b, c) == RemoveChar(a, c) + RemoveChar(b, c)
    decreases |a|
  {
    if a != [] {
      assert (a + b)[0] == a[0];
      assert (a + b)[1..] == a[1..] + b;
      RemoveCharConcat(a[1..], b, c);
    } else {
      assert a + b == b;
    }
  }

  /** A text without the character is left exactly as it was. */
  lemma {:induction false} RemoveCharAbsent(s: string, c: char)
    requires c !in s
    ensures RemoveChar(s, c) == s
    decreases |s|
  {
    if s != [] {
      RemoveCharAbsent(s[1..], c);
      assert s == [s[0]] + s[1..];
    }
  }

  function DigitChar(d: nat): char
    requires d < 10
  {
    (48 + d) as char
  }

  predicate IsDigits(s: string) {
    forall i :: 0 <= i < |s| ==> '0' <= s[i] <= '9'
  }

  /** Decimal text of a natural number, without leading zeros. */
  function NatToString(n: nat): string
    decreases n
  {
    if n < 10 then [DigitChar(n)]
    else NatToString(n / 10) + [DigitChar(n % 10)]
  }

  /** The decimal text of a natural number is a non-empty run of digits. */
  lemma {:induction false} NatToStringDigits(n: nat)
    ensures |NatToString(n)| >= 1 && IsDigits(NatToString(n))
    decreases n
  {
    if n >= 10 {
      NatToStringDigits(n / 10);
    }
  }

  /** strconv.Itoa / fmt.Sprint of an integer. */
  function IntToString(n: int): string
  {
    if n < 0 then "-" + NatToString(-n) else NatToString(n)
  }

  /** The decimal text of an integer is non-empty, a leading '-' exactly for a
      negative number, and digits after it. */
  lemma IntToStringShape(n: int)
    ensures |IntToString(n)| >= 1
    ensures IntToString(n)[0] == '-' <==> n < 0
    ensures IsDigits(if n < 0 then IntToString(n)[1..] else IntToString(n))
  {
    NatToStringDigits(if n < 0 then -n else n);
    if n < 0 {
      assert IntToString(n)[1..] == NatToString(-n);
    }
  }

  /** Distinct naturals have distinct decimal texts. */
  lemma {:induction false} NatToStringInjective(m: nat, n: nat)
    requires NatToString(m) == NatToString(n)
    ensures m == n
    decreases m
  {
    NatToStringDigits(m / 10);
    NatToStringDigits(n / 10);
    if m >= 10 && n >= 10 {
      var a, b := NatToString(m), NatToString(n);
      assert a[..|a| - 1] == NatToString(m / 10);
      assert b[..|b| - 1] == NatToString(n / 10);
      assert DigitChar(m % 10) == a[|a| - 1] == b[|b| - 1] == DigitChar(n % 10);
      NatToStringInjective(m / 10, n / 10);
    } else if m < 10 && n < 10 {
      assert DigitChar(m) == NatToString(m)[0];
    }
  }

  /** Distinct integers have distinct decimal texts, so distinct port numbers
      give distinct keys. */
  lemma IntToStringInjective(m: int, n: int)
    requires m != n
    ensures IntToString(m) != IntToString(n)
  {
    if IntToString(m) == IntToString(n) {
      IntToStringShape(m);
      IntToStringShape(n);
      if m < 0 {
        assert IntToString(m)[1..] == NatToString(-m);
        assert IntToString(n)[1..] == NatToString(-n);
        NatToStringInjective(-m, -n);
      } else {
        NatToStringInjective(m, n);
      }
    }
  }

  /** Byte-wise lexicographic order on strings, as Go's `<` on strings. */
  predicate StrLe(a: string, b: string)
    decreases |a|
  {
    if a == [] then true
    else if b == [] then false
    else if a[0] != b[0] then a[0] < b[0]
    else StrLe(a[1..], b[1..])
  }

  predicate StrLt(a: string, b: string) {
    StrLe(a, b) && a != b
  }

  lemma {:induction false} StrLeTotal(a: string, b: string)
    ensures StrLe(a, b) || StrLe(b, a)
    decreases |a|
  {
    if a != [] && b != [] && a[0] == b[0] {
      StrLeTotal(a[1..], b[1..]);
    }
  }

  lemma {:induction false} StrLeAntisymmetric(a: string, b: string)
    requires StrLe(a, b) && StrLe(b, a)
    ensures a == b
    decreases |a|
  {
    if a != [] {
      StrLeAntisymmetric(a[1..], b[1..]);
      assert a == [a[0]] + a[1..] && b == [b[0]] + b[1..];
    }
  }

  lemma {:induction false} StrLeTransitive(a: string, b: string, c: string)
    requires StrLe(a, b) && StrLe(b, c)
    ensures StrLe(a, c)
    decreases |a|
  {
    if a != [] && a[0] == b[0] && b[0] == c[0] {
      StrLeTransitive(a[1..], b[1..], c[1..]);
    }
  }
}
