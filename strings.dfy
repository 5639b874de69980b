/** The handful of Python `str` operations the renderer relies on, stated
    over `seq<char>`. Case mapping is the ASCII part of Python's; whitespace
    is exactly the set of characters for which Python's `str.isspace()` holds
    (which is also what `strip()` removes and what `\s` matches in a `str`
    regular expression). */
module Strings {
  import opened Outcomes

  /** Every character for which Python's `str.isspace()` is true. */
  const Whitespace: set<char> :=
    {'\t', '\n', '\U{0B}', '\U{0C}', '\r', '\U{1C}', '\U{1D}', '\U{1E}', '\U{1F}', ' ',
     '\U{85}', '\U{A0}', '\U{1680}', '\U{2000}', '\U{2001}', '\U{2002}', '\U{2003}',
     '\U{2004}', '\U{2005}', '\U{2006}', '\U{2007}', '\U{2008}', '\U{2009}', '\U{200A}',
     '\U{2028}', '\U{2029}', '\U{202F}', '\U{205F}', '\U{3000}'}

  /** Membership in `Whitespace`, written as ranges of code points. */
  predicate IsSpace(c: char) {
    ('\t' <= c <= '\r') || ('\U{1C}' <= c <= ' ') || c == '\U{85}' || c == '\U{A0}' || c == '\U{1680}'
    || ('\U{2000}' <= c <= '\U{200A}') || c == '\U{2028}' || c == '\U{2029}' || c == '\U{202F}'
    || c == '\U{205F}' || c == '\U{3000}'
  }

  lemma IsSpaceWhitespace(c: char)
    ensures IsSpace(c) <==> c in Whitespace
  {
  }

  predicate IsAsciiUpper(c: char) { 'A' <= c <= 'Z' }
  predicate IsAsciiLower(c: char) { 'a' <= c <= 'z' }
  predicate IsDigit(c: char) { '0' <= c <= '9' }

  /** `c.upper()` for a single ASCII character; other characters are kept. */
  function Upper(c: char): (u: char)
    ensures !IsAsciiLower(u)
    ensures IsAsciiLower(c) <==> u != c
  {
    if IsAsciiLower(c) then (c as int - 32) as char else c
  }

  /** `c.lower()` for a single ASCII character; other characters are kept. */
  function Lower(c: char): (l: char)
    ensures !IsAsciiUpper(l)
    ensures IsAsciiUpper(c) <==> l != c
  {
    if IsAsciiUpper(c) then (c as int + 32) as char else c
  }

  function LowerAll(s: string): (r: string)
    ensures |r| == |s|
    ensures forall i :: 0 <= i < |s| ==> r[i] == Lower(s[i])
  {
    if s == [] then [] else [Lower(s[0])] + LowerAll(s[1..])
  }

  /** Upper-casing forgets an earlier lower-casing. */
  lemma UpperLower(c: char)
    ensures Upper(Lower(c)) == Upper(c)
  {
    if IsAsciiUpper(c) {
      assert Lower(c) as int == c as int + 32;
    }
  }

  /** Lower-casing forgets an earlier upper-casing. */
  lemma LowerUpper(c: char)
    ensures Lower(Upper(c)) == Lower(c)
  {
    if IsAsciiLower(c) {
      assert Upper(c) as int == c as int - 32;
    }
  }

  lemma LowerAllIdempotent(s: string)
    ensures LowerAll(LowerAll(s)) == LowerAll(s)
  {
    var l := LowerAll(s);
    var ll := LowerAll(l);
    assert forall i :: 0 <= i < |s| ==> ll[i] == l[i];
  }

  predicate StartsWith(s: string, prefix: string) {
    |prefix| <= |s| && s[..|prefix|] == prefix
  }

  /** `s.lstrip(cs)`: the longest suffix of `s` that does not start with a
      character of `cs`. */
  function LStrip(s: string, cs: set<char>): (r: string)
    ensures |r| <= |s|
  {
    if s != [] && s[0] in cs then LStrip(s[1..], cs) else s
  }

  /** What `lstrip` keeps is a suffix that does not start with a character
      of `cs`. */
  lemma {:induction false} LStripKeeps(s: string, cs: set<char>)
    ensures LStrip(s, cs) == s[|s| - |LStrip(s, cs)|..]
    ensures LStrip(s, cs) == [] || LStrip(s, cs)[0] !in cs
    decreases |s|
  {
    if s != [] && s[0] in cs {
      LStripKeeps(s[1..], cs);
    }
  }

  /** `s.rstrip(cs)`: the longest prefix of `s` that does not end with a
      character of `cs`. */
  function RStrip(s: string, cs: set<char>): (r: string)
    ensures |r| <= |s|
  {
    if s != [] && s[|s| - 1] in cs then RStrip(s[..|s| - 1], cs) else s
  }

  /** What `rstrip` keeps is a prefix that does not end with a character
      of `cs`. */
  lemma {:induction false} RStripKeeps(s: string, cs: set<char>)
    ensures RStrip(s, cs) == s[..|RStrip(s, cs)|]
    ensures RStrip(s, cs) == [] || RStrip(s, cs)[|RStrip(s, cs)| - 1] !in cs
    decreases |s|
  {
    if s != [] && s[|s| - 1] in cs {
      RStripKeeps(s[..|s| - 1], cs);
    }
  }

  /** What `lstrip` removes is made of characters of `cs`. */
  lemma {:induction false} LStripRemoves(s: string, cs: set<char>)
    ensures forall i :: 0 <= i < |s| - |LStrip(s, cs)| ==> s[i] in cs
    decreases |s|
  {
    if s != [] && s[0] in cs {
      LStripRemoves(s[1..], cs);
      forall i | 1 <= i < |s| - |LStrip(s, cs)|
        ensures s[i] in cs
      {
        assert s[i] == s[1..][i - 1];
      }
    }
  }

  /** What `rstrip` removes is made of characters of `cs`. */
  lemma {:induction false} RStripRemoves(s: string, cs: set<char>)
    ensures forall i :: |RStrip(s, cs)| <= i < |s| ==> s[i] in cs
    decreases |s|
  {
    if s != [] && s[|s| - 1] in cs {
      RStripRemoves(s[..|s| - 1], cs);
      forall i | |RStrip(s, cs)| <= i < |s| - 1
        ensures s[i] in cs
      {
        assert s[i] == s[..|s| - 1][i];
      }
    }
  }

  /** `s.strip(cs)`. */
  function StripChars(s: string, cs: set<char>): string {
    RStrip(LStrip(s, cs), cs)
  }


  /** `s` has no whitespace at either end, so `s.strip()` is `s`. */
  predicate Stripped(s: string) {
    s == [] || (s[0] !in Whitespace && s[|s| - 1] !in Whitespace)
  }

  /** Stripping a string whose ends are not in `cs` changes nothing. */
  lemma StripCharsNoOp(s: string, cs: set<char>)
    requires s == [] || (s[0] !in cs && s[|s| - 1] !in cs)
    ensures StripChars(s, cs) == s
  {
  }

  /** What `strip` keeps has no character of `cs` at either end. */
  lemma StripCharsEnds(s: string, cs: set<char>)
    ensures var r := StripChars(s, cs); r == [] || (r[0] !in cs && r[|r| - 1] !in cs)
  {
    var l := LStrip(s, cs);
    var r := RStrip(l, cs);
    LStripKeeps(s, cs);
    RStripKeeps(l, cs);
    if r != [] {
      assert r[0] == l[0];
    }
  }

  /** `s.strip()`: no whitespace is left at either end, and a string with
      none there is kept as it is. */
  function Strip(s: string): (r: string)
    ensures Stripped(r)
    ensures Stripped(s) ==> r == s
  {
    StripCharsEnds(s, Whitespace);
    StripChars(s, Whitespace)
  }

  /** Stripping is idempotent. */
  lemma StripCharsIdempotent(s: string, cs: set<char>)
    ensures StripChars(StripChars(s, cs), cs) == StripChars(s, cs)
  {
    var l := LStrip(s, cs);
    var r := RStrip(l, cs);
    LStripKeeps(s, cs);
    RStripKeeps(l, cs);
    if r != [] {
      assert r[0] == l[0];
      StripCharsNoOp(r, cs);
    }
  }

  /** `s.replace(a, b)` for single characters. */
  function ReplaceChar(s: string, a: char, b: char): (r: string)
    ensures |r| == |s|
    ensures forall i :: 0 <= i < |s| ==> r[i] == (if s[i] == a then b else s[i])
  {
    if s == [] then [] else [if s[0] == a then b else s[0]] + ReplaceChar(s[1..], a, b)
  }

  /** Replacing a character that does not occur changes nothing. */
  lemma {:induction false} ReplaceCharNoOp(s: string, a: char, b: char)
    requires a !in s
    ensures ReplaceChar(s, a, b) == s
  {
    var r := ReplaceChar(s, a, b);
    assert forall i :: 0 <= i < |s| ==> r[i] == s[i];
  }

  /** Positions `i` and `i + 1` of `s` both hold a space. */
  predicate DoubleSpaceAt(s: string, i: int) {
    0 <= i < |s| - 1 && s[i] == ' ' && s[i + 1] == ' '
  }

  ghost predicate NoDoubleSpace(s: string) {
    forall i :: !DoubleSpaceAt(s, i)
  }

  /** The string with every space removed. */
  function DropSpaces(s: string): string {
    if s == [] then [] else (if s[0] == ' ' then [] else [s[0]]) + DropSpaces(s[1..])
  }

  /** `re.sub(' +', ' ', s)`: every run of spaces becomes one space. */
  function CollapseSpaces(s: string): (r: string)
    ensures NoDoubleSpace(r)
    ensures |r| <= |s| && (s == [] <==> r == [])
    ensures s != [] ==> r[0] == s[0]
    ensures forall i :: 0 <= i < |r| ==> r[i] in s
    ensures DropSpaces(r) == DropSpaces(s)
  {
    if |s| < 2 then s
    else if s[0] == ' ' && s[1] == ' ' then CollapseSpaces(s[1..])
    else
      var rest := CollapseSpaces(s[1..]);
      NoDoubleSpaceCons(s[0], rest);
      [s[0]] + rest
  }

  lemma NoDoubleSpaceCons(c: char, t: string)
    requires NoDoubleSpace(t) && !(c == ' ' && t != [] && t[0] == ' ')
    ensures NoDoubleSpace([c] + t)
  {
    var s := [c] + t;
    forall i
      ensures !DoubleSpaceAt(s, i)
    {
      if i >= 1 {
        assert !DoubleSpaceAt(t, i - 1);
      }
    }
  }

  lemma NoDoubleSpaceTail(s: string)
    requires NoDoubleSpace(s) && s != []
    ensures NoDoubleSpace(s[1..])
  {
    forall i
      ensures !DoubleSpaceAt(s[1..], i)
    {
      assert !DoubleSpaceAt(s, i + 1);
    }
  }

  /** `b` has a space exactly where `a` has one. */
  ghost predicate SameSpaces(a: string, b: string) {
    |a| == |b| && forall i :: 0 <= i < |a| ==> (a[i] == ' ' <==> b[i] == ' ')
  }

  lemma NoDoubleSpaceTransfer(a: string, b: string)
    requires SameSpaces(a, b) && NoDoubleSpace(a)
    ensures NoDoubleSpace(b)
  {
    forall i
      ensures !DoubleSpaceAt(b, i)
    {
      assert !DoubleSpaceAt(a, i);
    }
  }

  /** A string without double spaces is left as it is. */
  lemma {:induction false} CollapseSpacesNoOp(s: string)
    requires NoDoubleSpace(s)
    ensures CollapseSpaces(s) == s
  {
    if |s| >= 2 {
      NoDoubleSpaceTail(s);
      CollapseSpacesNoOp(s[1..]);
      assert !DoubleSpaceAt(s, 0);
      assert [s[0]] + s[1..] == s;
    }
  }

  /** `str.split(sep)` for a one-character separator: always at least one part,
      and no part contains the separator. */
  function Split(s: string, sep: char): (parts: seq<string>)
    ensures |parts| >= 1
    ensures forall i :: 0 <= i < |parts| ==> sep !in parts[i]
  {
    if s == [] then [[]]
    else
      var rest := Split(s[1..], sep);
      if s[0] == sep then [[]] + rest else [[s[0]] + rest[0]] + rest[1..]
  }

  /** `sep.join(parts)`. */
  function Join(parts: seq<string>, sep: char): string {
    if parts == [] then []
    else if |parts| == 1 then parts[0]
    else parts[0] + [sep] + Join(parts[1..], sep)
  }

  /** Joining the parts of a split gives back the original string. */
  lemma {:induction false} JoinSplit(s: string, sep: char)
    ensures Join(Split(s, sep), sep) == s
  {
    if s != [] {
      var rest := Split(s[1..], sep);
      JoinSplit(s[1..], sep);
      if s[0] == sep {
        assert Split(s, sep) == [[]] + rest;
      } else {
        var parts := Split(s, sep);
        assert parts == [[s[0]] + rest[0]] + rest[1..];
        if |rest| == 1 {
          assert Join(parts, sep) == [s[0]] + rest[0];
        } else {
          assert Join(rest, sep) == rest[0] + [sep] + Join(rest[1..], sep);
          assert parts[1..] == rest[1..];
          assert Join(parts, sep) == ([s[0]] + rest[0]) + [sep] + Join(rest[1..], sep);
        }
      }
    }
  }

  lemma {:induction false} JoinPrepend(p: string, parts: seq<string>, sep: char)
    requires |parts| >= 1
    ensures Join([p] + parts, sep) == p + [sep] + Join(parts, sep)
  {
    assert ([p] + parts)[1..] == parts;
  }

  /** Splitting the join of separator-free parts gives back the parts. */
  lemma {:induction false} SplitJoin(parts: seq<string>, sep: char)
    requires |parts| >= 1
    requires forall i :: 0 <= i < |parts| ==> sep !in parts[i]
    ensures Split(Join(parts, sep), sep) == parts
  {
    if |parts| == 1 {
      SplitNoSep(parts[0], sep);
    } else {
      SplitJoin(parts[1..], sep);
      JoinPrepend(parts[0], parts[1..], sep);
      SplitPrefix(parts[0], Join(parts[1..], sep), sep);
      assert [parts[0]] + parts[1..] == parts;
    }
  }

  lemma {:induction false} SplitNoSep(s: string, sep: char)
    requires sep !in s
    ensures Split(s, sep) == [s]
  {
    if s != [] {
      SplitNoSep(s[1..], sep);
      assert [s[0]] + s[1..] == s;
    }
  }

  lemma {:induction false} SplitPrefix(p: string, t: string, sep: char)
    requires sep !in p
    ensures Split(p + [sep] + t, sep) == [p] + Split(t, sep)
  {
    if p == [] {
      assert p + [sep] + t == [sep] + t;
      assert ([sep] + t)[1..] == t;
    } else {
      SplitPrefix(p[1..], t, sep);
      var s := p + [sep] + t;
      assert s[0] == p[0];
      assert s[1..] == p[1..] + [sep] + t;
      assert [p[0]] + p[1..] == p;
    }
  }

  function DigitChar(d: nat): char
    requires d < 10
  {
    ('0' as int + d) as char
  }

  /** `str(n)` for a natural number. */
  function NatToDecimal(n: nat): (r: string)
    ensures |r| >= 1
    ensures forall i :: 0 <= i < |r| ==> IsDigit(r[i])
    decreases n
  {
    if n < 10 then [DigitChar(n)] else NatToDecimal(n / 10) + [DigitChar(n % 10)]
  }

  /** `str(i)` for an integer. */
  function IntToDecimal(i: int): string {
    if i < 0 then "-" + NatToDecimal(-i) else NatToDecimal(i)
  }

  /** The digits of Python's integer literal syntax: one or more decimal
      digits, with single underscores allowed between two digits. */
  predicate DigitGroups(t: string)
    decreases |t|
  {
    && |t| > 0 && IsDigit(t[|t| - 1])
    && (|t| == 1 ||
        if t[|t| - 2] == '_' then |t| > 2 && DigitGroups(t[..|t| - 2])
        else DigitGroups(t[..|t| - 1]))
  }

  /** The value of a digit string, underscores ignored. */
  function DigitsValue(t: string): nat {
    if t == [] then 0
    else if t[|t| - 1] == '_' || !IsDigit(t[|t| - 1]) then DigitsValue(t[..|t| - 1])
    else DigitsValue(t[..|t| - 1]) * 10 + (t[|t| - 1] as int - '0' as int)
  }

  /** `int(s)` for a `str` argument, with ASCII digits only; `None` where
      Python raises `ValueError`. */
  function ParseInt(s: string): Option<int> {
    ParseStripped(Strip(s))
  }

  /** The sign and the digits of `int()`, once the whitespace is gone. */
  function ParseStripped(t: string): Option<int> {
    if |t| > 0 && (t[0] == '-' || t[0] == '+') then
      if DigitGroups(t[1..]) then
        var v: int := DigitsValue(t[1..]);
        Some(if t[0] == '-' then -v else v)
      else None
    else if DigitGroups(t) then Some(DigitsValue(t) as int)
    else None
  }

  lemma {:induction false} DecimalValue(n: nat)
    ensures DigitGroups(NatToDecimal(n)) && DigitsValue(NatToDecimal(n)) == n
    decreases n
  {
    var r := NatToDecimal(n);
    if n >= 10 {
      DecimalValue(n / 10);
      assert r[..|r| - 1] == NatToDecimal(n / 10);
    }
  }

  /** Digits and the minus sign are not whitespace. */
  lemma DigitNotSpace(c: char)
    requires IsDigit(c) || c == '-'
    ensures c !in Whitespace
  {
  }

  /** A run of digits parses to its value. */
  lemma ParseDigits(d: string)
    requires d != [] && IsDigit(d[0]) && DigitGroups(d)
    ensures ParseStripped(d) == Some(DigitsValue(d) as int)
  {
  }

  /** A minus sign and a run of digits parse to minus its value. */
  lemma ParseNegative(d: string)
    requires |d| > 1 && d[0] == '-' && DigitGroups(d[1..])
    ensures ParseStripped(d) == Some(-(DigitsValue(d[1..]) as int))
  {
  }

  /** `int(str(i)) == i`: the decimal form of every integer parses back. */
  lemma IntDecimalRoundTrip(i: int)
    ensures ParseInt(IntToDecimal(i)) == Some(i)
  {
    var n: nat := if i < 0 then -i else i;
    var digits := NatToDecimal(n);
    DecimalValue(n);
    DigitNotSpace(digits[|digits| - 1]);
    if i < 0 {
      var d := "-" + digits;
      DigitNotSpace(d[0]);
      assert d[|d| - 1] == digits[|digits| - 1];
      StripCharsNoOp(d, Whitespace);
      assert d[1..] == digits;
      ParseNegative(d);
    } else {
      DigitNotSpace(digits[0]);
      StripCharsNoOp(digits, Whitespace);
      ParseDigits(digits);
    }
  }

}
