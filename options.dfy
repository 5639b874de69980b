/** The options line of a MediaWiki parser test (`_parse_options`): a run of
    keys, each bare or followed by `=` and a comma-separated list of values; a
    value is a bare token, a quoted string, a `[[link]]` or a JSON object.
    The three regular expressions are modelled as anchored matchers plus a
    leftmost search, the brace scan and the key loop as methods. */
module Options {
  import opened Outcomes
  import opened Strings

  /** One value of an option: a string, or a JSON object kept as the text
      that was handed to `json.loads`. */
  datatype Value = Str(text: string) | Json(source: string)

  /** `True` for a bare key, the list of its values otherwise. */
  datatype OptionValue = Flag | Values(items: seq<Value>)

  /** The `ValueError`s `_parse_options` raises. */
  datatype OptionError = UnexpectedEnd | UnmatchedQuote | UnmatchedLink | UnbalancedBraces | ExpectedValue

  /** The three patterns: `\s*([\w-]+)\s*`, `\s*"([^"]*)"\s*` and
      `\s*\[\[([^\]]*)\]\]\s*`. */
  datatype Pattern = Unquoted | Quoted | Link

  /** `[\w-]`, with `\w` taken on ASCII: letters, digits and `_`. */
  predicate IsWord(c: char) {
    IsAsciiUpper(c) || IsAsciiLower(c) || IsDigit(c) || c == '_' || c == '-'
  }

  /** Whitespace lies at or below the space or above the ASCII range. */
  lemma SpaceOutsideAscii(c: char)
    requires ' ' < c < '\U{7F}'
    ensures !IsSpace(c)
  {
  }

  /** A `[\w-]` character is no whitespace. */
  lemma WordNotSpace(c: char)
    requires IsWord(c)
    ensures !IsSpace(c)
  {
    SpaceOutsideAscii(c);
  }

  /** The end of the run of whitespace starting at `i` (`\s*`, greedy). */
  function SkipSpaces(s: string, i: nat): (j: nat)
    requires i <= |s|
    ensures i <= j <= |s| && (j < |s| ==> !IsSpace(s[j]))
    decreases |s| - i
  {
    if i < |s| && IsSpace(s[i]) then SkipSpaces(s, i + 1) else i
  }

  /** What `SkipSpaces` skips is whitespace. */
  lemma {:induction false} SkipSpacesRun(s: string, i: nat)
    requires i <= |s|
    ensures forall k :: i <= k < SkipSpaces(s, i) ==> IsSpace(s[k])
    decreases |s| - i
  {
    if i < |s| && IsSpace(s[i]) {
      SkipSpacesRun(s, i + 1);
    }
  }

  /** The end of the run of `[\w-]` characters starting at `i`. */
  function SkipWord(s: string, i: nat): (j: nat)
    requires i <= |s|
    ensures i <= j <= |s| && (j < |s| ==> !IsWord(s[j]))
    decreases |s| - i
  {
    if i < |s| && IsWord(s[i]) then SkipWord(s, i + 1) else i
  }

  /** What `SkipWord` skips is a run of `[\w-]` characters. */
  lemma {:induction false} SkipWordRun(s: string, i: nat)
    requires i <= |s|
    ensures forall k :: i <= k < SkipWord(s, i) ==> IsWord(s[k])
    decreases |s| - i
  {
    if i < |s| && IsWord(s[i]) {
      SkipWordRun(s, i + 1);
    }
  }

  /** The first occurrence of `c` at or after `i`. */
  function Find(s: string, i: nat, c: char): (r: Option<nat>)
    requires i <= |s|
    ensures r.Some? ==> i <= r.value < |s| && s[r.value] == c
    decreases |s| - i
  {
    if i == |s| then None
    else if s[i] == c then Some(i)
    else Find(s, i + 1, c)
  }

  /** `Find` finds the first `c`, and `None` means there is none. */
  lemma {:induction false} FindFirst(s: string, i: nat, c: char)
    requires i <= |s|
    ensures Find(s, i, c).Some? ==> c !in s[i..Find(s, i, c).value]
    ensures Find(s, i, c).None? ==> c !in s[i..]
    decreases |s| - i
  {
    if i < |s| && s[i] != c {
      FindFirst(s, i + 1, c);
      var r := Find(s, i + 1, c);
      assert r.Some? ==> s[i..r.value] == [s[i]] + s[i + 1..r.value];
      assert s[i..] == [s[i]] + s[i + 1..];
    }
  }

  /** The pattern matched at exactly `p`: group 1 and the end of the whole
      match, or `None`. Greedy repetition never needs to back off here: a
      shorter `\s*` leaves whitespace where the next item needs something
      else, and a shorter `[^"]*` or `[^\]]*` leaves a character other than
      the closing one. */
  function At(pat: Pattern, s: string, p: nat): (m: Option<(string, nat)>)
    requires p <= |s|
    ensures m.Some? ==> p < m.value.1 <= |s|
    ensures m.Some? && pat == Unquoted ==> Token(m.value.0)
  {
    match pat
    case Unquoted => UnquotedAt(s, SkipSpaces(s, p))
    case Quoted => QuotedAt(s, SkipSpaces(s, p))
    case Link => LinkAt(s, SkipSpaces(s, p))
  }

  /** `([\w-]+)\s*` at `q`. */
  function UnquotedAt(s: string, q: nat): (m: Option<(string, nat)>)
    requires q <= |s|
    ensures m.Some? ==> q < m.value.1 <= |s| && Token(m.value.0)
  {
    if q < |s| && IsWord(s[q]) then
      var e := SkipWord(s, q);
      SkipWordRun(s, q);
      Some((s[q..e], SkipSpaces(s, e)))
    else None
  }

  /** `"([^"]*)"\s*` at `q`. */
  function QuotedAt(s: string, q: nat): (m: Option<(string, nat)>)
    requires q <= |s|
    ensures m.Some? ==> q < m.value.1 <= |s|
  {
    if q < |s| && s[q] == '"' then
      match Find(s, q + 1, '"')
      case Some(c) => Some((s[q + 1..c], SkipSpaces(s, c + 1)))
      case None => None
    else None
  }

  /** `\[\[([^\]]*)\]\]\s*` at `q`. */
  function LinkAt(s: string, q: nat): (m: Option<(string, nat)>)
    requires q <= |s|
    ensures m.Some? ==> q < m.value.1 <= |s|
  {
    if q + 1 < |s| && s[q] == '[' && s[q + 1] == '[' then
      match Find(s, q + 2, ']')
      case Some(c) =>
        if c + 1 < |s| && s[c + 1] == ']' then Some((s[q + 2..c], SkipSpaces(s, c + 2))) else None
      case None => None
    else None
  }

  /** `pattern.search(s, pos)`: the match at the first position from `pos`
      on where there is one. */
  function Search(pat: Pattern, s: string, pos: nat): (m: Option<(string, nat)>)
    requires pos <= |s|
    ensures m.Some? ==> pos < m.value.1 <= |s|
    ensures m.Some? && pat == Unquoted ==> Token(m.value.0)
    decreases |s| - pos
  {
    match At(pat, s, pos)
    case Some(m) => Some(m)
    case None => if pos == |s| then None else Search(pat, s, pos + 1)
  }

  /** The search is the leftmost anchored match: it succeeds exactly when
      some position from `pos` on matches, and then with the match of the
      first such position. */
  lemma {:induction false} SearchLeftmost(pat: Pattern, s: string, pos: nat, p: nat)
    requires pos <= p <= |s|
    requires forall k :: pos <= k < p ==> At(pat, s, k).None?
    ensures p == |s| || At(pat, s, p).Some? ==> Search(pat, s, pos) == At(pat, s, p)
    ensures Search(pat, s, pos) == Search(pat, s, p)
    decreases p - pos
  {
    if pos < p {
      assert At(pat, s, pos).None?;
      SearchLeftmost(pat, s, pos + 1, p);
    } else if p == |s| {
      assert At(pat, s, p).None? by {
        assert SkipSpaces(s, p) == p;
      }
    }
  }

  /** The first `[\w-]` character at or after `i`. */
  function FirstWord(s: string, i: nat): (r: Option<nat>)
    requires i <= |s|
    ensures r.Some? ==> i <= r.value < |s| && IsWord(s[r.value])
    decreases |s| - i
  {
    if i == |s| then None
    else if IsWord(s[i]) then Some(i)
    else FirstWord(s, i + 1)
  }

  /** An unquoted token is the maximal `[\w-]` run that begins with the
      first such character at or after the cursor; the cursor moves past it
      and its trailing whitespace. Without such a character there is no
      token. */
  lemma {:induction false} UnquotedIsFirstWord(s: string, pos: nat)
    requires pos <= |s|
    ensures Search(Unquoted, s, pos)
            == match FirstWord(s, pos)
               case None => None
               case Some(q) => Some((s[q..SkipWord(s, q)], SkipSpaces(s, SkipWord(s, q))))
    decreases |s| - pos
  {
    var q := SkipSpaces(s, pos);
    if q < |s| && IsWord(s[q]) {
      SkipSpacesRun(s, pos);
      forall k | pos <= k < q
        ensures !IsWord(s[k])
      {
        if IsWord(s[k]) {
          WordNotSpace(s[k]);
        }
      }
      assert FirstWord(s, pos) == Some(q) by {
        FirstWordIs(s, pos, q);
      }
    } else if pos < |s| {
      if IsWord(s[pos]) {
        WordNotSpace(s[pos]);
        assert false;
      }
      UnquotedIsFirstWord(s, pos + 1);
    }
  }

  lemma {:induction false} FirstWordIs(s: string, i: nat, q: nat)
    requires i <= q < |s| && IsWord(s[q])
    requires forall k :: i <= k < q ==> !IsWord(s[k])
    ensures FirstWord(s, i) == Some(q)
    decreases q - i
  {
    if i < q {
      FirstWordIs(s, i + 1, q);
    }
  }

  /** At an opening quote, the search finds the text up to the next quote,
      inner spaces included, and fails exactly when there is none. */
  lemma QuotedValue(s: string, pos: nat)
    requires pos < |s| && s[pos] == '"'
    ensures Search(Quoted, s, pos)
            == match Find(s, pos + 1, '"')
               case None => None
               case Some(c) => Some((s[pos + 1..c], SkipSpaces(s, c + 1)))
  {
    SpaceOutsideAscii('"');
    assert SkipSpaces(s, pos) == pos;
    if Find(s, pos + 1, '"').None? {
      FindFirst(s, pos + 1, '"');
      NoQuoteNoMatch(s, pos + 1);
    }
  }

  /** Without a quote from `p` on, the quoted pattern matches nowhere. */
  lemma {:induction false} NoQuoteNoMatch(s: string, p: nat)
    requires p <= |s| && '"' !in s[p..]
    ensures Search(Quoted, s, p).None?
    decreases |s| - p
  {
    var q := SkipSpaces(s, p);
    if q < |s| {
      assert s[q] == s[p..][q - p];
    }
    if p < |s| {
      assert s[p + 1..] == s[p..][1..];
      NoQuoteNoMatch(s, p + 1);
    }
  }

  /** At `[[`, a link whose inner text has no `]` and is followed by `]]`
      yields that inner text. */
  lemma LinkValue(s: string, pos: nat, c: nat)
    requires pos + 1 < |s| && s[pos] == '[' && s[pos + 1] == '['
    requires Find(s, pos + 2, ']') == Some(c) && c + 1 < |s| && s[c + 1] == ']'
    ensures Search(Link, s, pos) == Some((s[pos + 2..c], SkipSpaces(s, c + 2)))
  {
    SpaceOutsideAscii('[');
    assert SkipSpaces(s, pos) == pos;
  }

  /** A search fails exactly when the pattern matches at no position from
      `pos` on. */
  lemma {:induction false} SearchNone(pat: Pattern, s: string, pos: nat)
    requires pos <= |s|
    ensures Search(pat, s, pos).None? <==> forall k :: pos <= k <= |s| ==> At(pat, s, k).None?
    decreases |s| - pos
  {
    if pos < |s| {
      SearchNone(pat, s, pos + 1);
    }
  }

  /** There is no word character from `i` on exactly when `FirstWord` finds
      none. */
  lemma {:induction false} FirstWordNone(s: string, i: nat)
    requires i <= |s|
    ensures FirstWord(s, i).None? <==> forall k :: i <= k < |s| ==> !IsWord(s[k])
    decreases |s| - i
  {
    if i < |s| {
      FirstWordNone(s, i + 1);
    }
  }

  /** Without a `[\w-]` character from `p` on, the unquoted pattern matches
      nowhere. */
  lemma NoWordNoMatch(s: string, p: nat)
    requires p <= |s| && forall k :: p <= k < |s| ==> !IsWord(s[k])
    ensures Search(Unquoted, s, p).None?
  {
    FirstWordNone(s, p);
    UnquotedIsFirstWord(s, p);
  }

  /** Without a `]` from `p` on, the link pattern matches nowhere. */
  lemma NoCloseNoLink(s: string, p: nat)
    requires p <= |s| && ']' !in s[p..]
    ensures Search(Link, s, p).None?
  {
    forall k | p <= k <= |s|
      ensures At(Link, s, k).None?
    {
      var q := SkipSpaces(s, k);
      if q + 2 <= |s| {
        assert s[q + 2..] == s[p..][q + 2 - p..];
        FindAbsent(s, q + 2, ']');
      }
    }
    SearchNone(Link, s, p);
  }

  /** Without `c` from `i` on, `Find` finds nothing. */
  lemma {:induction false} FindAbsent(s: string, i: nat, c: char)
    requires i <= |s| && c !in s[i..]
    ensures Find(s, i, c).None?
    decreases |s| - i
  {
    if i < |s| {
      assert s[i] == s[i..][0];
      assert s[i + 1..] == s[i..][1..];
      FindAbsent(s, i + 1, c);
    }
  }

  /** A value that starts with none of `"`, `[` and `{` fails with "Expected
      a value." exactly when no word character follows. */
  lemma ExpectedValueIff(s: string, pos: nat)
    requires pos < |s|
    ensures ValueAt(s, pos) == Err(ExpectedValue)
            <==> s[pos] != '"' && s[pos] != '[' && s[pos] != '{' && FirstWord(s, pos).None?
  {
    UnquotedIsFirstWord(s, pos);
  }

  /** A value that starts with `[` fails with "Unmatched link." exactly when
      the link pattern matches at no position from there on. */
  lemma UnmatchedLinkIff(s: string, pos: nat)
    requires pos < |s|
    ensures ValueAt(s, pos) == Err(UnmatchedLink)
            <==> s[pos] == '[' && forall k :: pos <= k <= |s| ==> At(Link, s, k).None?
  {
    SearchNone(Link, s, pos);
  }

  /** A value that starts with `"` fails with "Unmatched quote." exactly
      when no quote closes it. */
  lemma UnmatchedQuoteIff(s: string, pos: nat)
    requires pos < |s|
    ensures ValueAt(s, pos) == Err(UnmatchedQuote) <==> s[pos] == '"' && Find(s, pos + 1, '"').None?
  {
    if s[pos] == '"' {
      QuotedValue(s, pos);
    }
  }

  /** `=` with nothing after it: "Unexpected end of string". */
  lemma ValuesAtEnd(s: string, values: seq<Value>)
    ensures ValuesFrom(s, |s|, values) == Err(UnexpectedEnd)
  {
  }

  /** A comma with no word character after it: "Expected a value." */
  lemma TrailingComma(s: string, pos: nat, values: seq<Value>)
    requires pos < |s| && s[pos] == ',' && forall k :: pos <= k < |s| ==> !IsWord(s[k])
    ensures ValuesFrom(s, pos, values) == Err(ExpectedValue)
  {
    FirstWordNone(s, pos);
    ExpectedValueIff(s, pos);
  }

  /** One step of the brace scan over `s[k]`: outside a string `{` and `}`
      count up and down; a quote not preceded by a backslash toggles the
      string state. */
  function ScanStep(s: string, k: nat, count: int, inString: bool): (int, bool)
    requires k < |s| && (s[k] == '"' ==> 0 < k)
  {
    var c := s[k];
    var count' := if !inString && c == '{' then count + 1
                  else if !inString && c == '}' then count - 1
                  else count;
    var inString' := if c == '"' && s[k - 1] != '\\' then !inString else inString;
    (count', inString')
  }

  /** The brace count and the string state after scanning `s[start..i]`. */
  function ScanState(s: string, start: nat, i: nat): (int, bool)
    requires start < |s| && s[start] == '{' && start <= i <= |s|
    decreases i - start
  {
    if i == start then (0, false)
    else
      var prev := ScanState(s, start, i - 1);
      ScanStep(s, i - 1, prev.0, prev.1)
  }

  /** The first index from `k` on at which the count drops to zero. */
  function Closing(s: string, start: nat, k: nat): (r: Option<nat>)
    requires start < |s| && s[start] == '{' && start <= k <= |s|
    ensures r.Some? ==> k <= r.value < |s| && ScanState(s, start, r.value + 1).0 == 0
    ensures r.Some? ==> forall j :: k < j <= r.value ==> ScanState(s, start, j).0 != 0
    ensures r.None? ==> forall j :: k < j <= |s| ==> ScanState(s, start, j).0 != 0
    decreases |s| - k
  {
    if k == |s| then None
    else if ScanState(s, start, k + 1).0 == 0 then Some(k)
    else Closing(s, start, k + 1)
  }

  /** The index of the brace that balances the `{` at `start`, if any. */
  function BraceEnd(s: string, start: nat): Option<nat>
    requires start < |s| && s[start] == '{'
  {
    Closing(s, start, start)
  }

  /** The JSON scan of `_parse_options`: count braces outside strings from
      the opening one until the count is back to zero. */
  method ScanBraces(s: string, start: nat) returns (r: Option<nat>)
    requires start < |s| && s[start] == '{'
    ensures r == BraceEnd(s, start)
  {
    var count := 0;
    var inString := false;
    var tempPos := start;
    while tempPos < |s|
      invariant start <= tempPos <= |s|
      invariant (count, inString) == ScanState(s, start, tempPos)
      invariant Closing(s, start, tempPos) == Closing(s, start, start)
      decreases |s| - tempPos
    {
      var c := s[tempPos];
      if !inString {
        if c == '{' {
          count := count + 1;
        } else if c == '}' {
          count := count - 1;
        }
      }
      if c == '"' {
        if s[tempPos - 1] != '\\' {
          inString := !inString;
        }
      }
      if count == 0 {
        return Some(tempPos);
      }
      tempPos := tempPos + 1;
    }
    return None;
  }

  /** Between the opening brace and the balancing one the count stays
      positive. */
  lemma {:induction false} ScanPositive(s: string, start: nat, k: nat)
    requires start < k <= |s| && s[start] == '{'
    requires forall j :: start < j <= k ==> ScanState(s, start, j).0 != 0
    ensures ScanState(s, start, k).0 >= 1
    decreases k - start
  {
    if k == start + 1 {
      assert ScanState(s, start, start) == (0, false);
    } else {
      ScanPositive(s, start, k - 1);
    }
  }

  /** A JSON value ends at a `}` outside any string, after the opening
      brace. */
  lemma BraceEndCloses(s: string, start: nat)
    requires start < |s| && s[start] == '{' && BraceEnd(s, start).Some?
    ensures var e := BraceEnd(s, start).value;
            start < e && s[e] == '}' && !ScanState(s, start, e).1
  {
    var e := BraceEnd(s, start).value;
    assert ScanState(s, start, start) == (0, false);
    assert ScanState(s, start, start + 1).0 == 1;
    ScanPositive(s, start, e);
  }

  /** One value at the cursor, chosen by its first character, and the
      cursor after it. */
  function ValueAt(s: string, pos: nat): (r: Result<(Value, nat), OptionError>)
    requires pos < |s|
    ensures r.Ok? ==> pos < r.value.1 <= |s|
  {
    if s[pos] == '"' then
      match Search(Quoted, s, pos)
      case None => Err(UnmatchedQuote)
      case Some((v, e)) => Ok((Str(v), e))
    else if s[pos] == '[' then
      match Search(Link, s, pos)
      case None => Err(UnmatchedLink)
      case Some((v, e)) => Ok((Str(v), e))
    else if s[pos] == '{' then
      match BraceEnd(s, pos)
      case None => Err(UnbalancedBraces)
      case Some(e) => Ok((Json(s[pos..e + 1]), e + 1))
    else
      match Search(Unquoted, s, pos)
      case None => Err(ExpectedValue)
      case Some((v, e)) => Ok((Str(v), e))
  }

  /** The values after `key=`, appended to `values`, while a comma follows
      each one; the cursor is left on the comma itself, so the next value
      is found from there. */
  function ValuesFrom(s: string, pos: nat, values: seq<Value>): (r: Result<(seq<Value>, nat), OptionError>)
    requires pos <= |s|
    ensures r.Ok? ==> pos < r.value.1 <= |s| && |values| < |r.value.0| && r.value.0[..|values|] == values
    decreases |s| - pos
  {
    if pos == |s| then Err(UnexpectedEnd)
    else
      var m :- ValueAt(s, pos);
      var more := values + [m.0];
      if m.1 == |s| || s[m.1] != ',' then Ok((more, m.1))
      else
        var r := ValuesFrom(s, m.1, more);
        assert r.Ok? ==> r.value.0[..|more|][..|values|] == values;
        r
  }

  /** The values of `ValuesFrom`, once the cursor is past one value. */
  lemma ValuesStep(s: string, pos: nat, values: seq<Value>, v: Value, next: nat)
    requires pos < |s| && ValueAt(s, pos) == Ok((v, next))
    ensures ValuesFrom(s, pos, values)
            == if next == |s| || s[next] != ',' then Ok((values + [v], next)) else ValuesFrom(s, next, values + [v])
  {
  }

  /** The body of the inner loop of `_parse_options`: one value, by its
      first character. */
  method ReadValue(s: string, pos: nat) returns (r: Result<(Value, nat), OptionError>)
    requires pos < |s|
    ensures r == ValueAt(s, pos)
  {
    if s[pos] == '"' {
      var m := Search(Quoted, s, pos);
      if m.None? {
        return Err(UnmatchedQuote);
      }
      return Ok((Str(m.value.0), m.value.1));
    } else if s[pos] == '[' {
      var m := Search(Link, s, pos);
      if m.None? {
        return Err(UnmatchedLink);
      }
      return Ok((Str(m.value.0), m.value.1));
    } else if s[pos] == '{' {
      var e := ScanBraces(s, pos);
      if e.None? {
        return Err(UnbalancedBraces);
      }
      return Ok((Json(s[pos..e.value + 1]), e.value + 1));
    } else {
      var m := Search(Unquoted, s, pos);
      if m.None? {
        return Err(ExpectedValue);
      }
      return Ok((Str(m.value.0), m.value.1));
    }
  }

  /** The inner loop of `_parse_options`: values while a comma follows. */
  method ReadValues(s: string, first: nat) returns (r: Result<(seq<Value>, nat), OptionError>)
    requires first <= |s|
    ensures r == ValuesFrom(s, first, [])
  {
    var pos := first;
    var values: seq<Value> := [];
    while true
      invariant first <= pos <= |s|
      invariant ValuesFrom(s, pos, values) == ValuesFrom(s, first, [])
      decreases |s| - pos
    {
      if pos == |s| {
        return Err(UnexpectedEnd);
      }
      var m := ReadValue(s, pos);
      if m.Err? {
        return Err(m.error);
      }
      ValuesStep(s, pos, values, m.value.0, m.value.1);
      values := values + [m.value.0];
      pos := m.value.1;
      if pos == |s| || s[pos] != ',' {
        return Ok((values, pos));
      }
    }
  }

  /** One round of the outer loop of `_parse_options`: the next key and
      its value. */
  method ReadOption(s: string, pos: nat) returns (r: Result<Option<(string, OptionValue, nat)>, OptionError>)
    requires pos < |s|
    ensures r == NextOption(s, pos)
  {
    var found := Search(Unquoted, s, pos);
    if found.None? {
      r := Ok(None);
    } else {
      var key := found.value.0;
      var p := found.value.1;
      assert found == Some((key, p));
      if p == |s| || s[p] != '=' {
        AfterKeyFlag(s, key, p);
        r := Ok(Some((key, Flag, p)));
      } else {
        var values := ReadValues(s, p + 1);
        if values.Err? {
          AfterKeyFails(s, key, p, values.error);
          r := Err(values.error);
        } else {
          AfterKeyValues(s, key, p, values.value.0, values.value.1);
          r := Ok(Some((key, Values(values.value.0), values.value.1)));
        }
      }
    }
  }

  /** A key without `=` is a flag. */
  lemma AfterKeyFlag(s: string, key: string, p: nat)
    requires p <= |s| && (p == |s| || s[p] != '=')
    ensures AfterKey(s, Some((key, p))) == Ok(Some((key, Flag, p)))
  {
  }

  /** A key with `=` whose values are read takes them. */
  lemma AfterKeyValues(s: string, key: string, p: nat, values: seq<Value>, next: nat)
    requires p < |s| && s[p] == '=' && ValuesFrom(s, p + 1, []) == Ok((values, next))
    ensures AfterKey(s, Some((key, p))) == Ok(Some((key, Values(values), next)))
  {
  }

  /** A key with `=` whose values fail fails. */
  lemma AfterKeyFails(s: string, key: string, p: nat, e: OptionError)
    requires p < |s| && s[p] == '=' && ValuesFrom(s, p + 1, []) == Err(e)
    ensures AfterKey(s, Some((key, p))) == Err(e)
  {
  }

  /** `_parse_options(options_str)`: a cursor over the string and a loop
      over keys, each added to the dictionary or replacing its earlier
      value. */
  method ParseOptions(s: string) returns (r: Result<map<string, OptionValue>, OptionError>)
    ensures r == OptionsOf(s)
  {
    var result: map<string, OptionValue> := map[];
    var pos := 0;
    while pos < |s|
      invariant pos <= |s|
      invariant OptionsFrom(s, pos, result) == OptionsOf(s)
      decreases |s| - pos
    {
      var next := ReadOption(s, pos);
      if next.Err? {
        return Err(next.error);
      }
      if next.value.None? {
        break;
      }
      var (key, v, p) := next.value.value;
      result := result[key := v];
      pos := p;
    }
    return Ok(result);
  }

  /** A key: a non-empty run of `[\w-]` characters. */
  predicate Token(k: string) {
    k != [] && forall i :: 0 <= i < |k| ==> IsWord(k[i])
  }

  /** One round of the outer loop: the next key, with `Flag` when no `=`
      follows it and its values otherwise, and the cursor after it; `None`
      when no key is left. */
  function NextOption(s: string, pos: nat): (r: Result<Option<(string, OptionValue, nat)>, OptionError>)
    requires pos < |s|
    ensures r.Ok? && r.value.Some? ==> pos < r.value.value.2 <= |s| && Token(r.value.value.0)
    ensures r.Ok? && r.value.Some? ==> r.value.value.1.Flag? || r.value.value.1.items != []
  {
    AfterKey(s, Search(Unquoted, s, pos))
  }

  /** The rest of the round once the key search is done. */
  function AfterKey(s: string, found: Option<(string, nat)>): (r: Result<Option<(string, OptionValue, nat)>, OptionError>)
    requires found.Some? ==> found.value.1 <= |s|
    ensures r.Ok? ==> r.value.Some? == found.Some?
    ensures r.Ok? && r.value.Some? ==> r.value.value.0 == found.value.0 && found.value.1 <= r.value.value.2 <= |s|
    ensures r.Ok? && r.value.Some? ==> r.value.value.1.Flag? || r.value.value.1.items != []
  {
    match found
    case None => Ok(None)
    case Some((key, p)) =>
      if p == |s| || s[p] != '=' then Ok(Some((key, Flag, p)))
      else
        var m :- ValuesFrom(s, p + 1, []);
        Ok(Some((key, Values(m.0), m.1)))
  }

  /** The options from the cursor on, added to `result`; a later key
      replaces an earlier one. */
  function OptionsFrom(s: string, pos: nat, result: map<string, OptionValue>)
    : (r: Result<map<string, OptionValue>, OptionError>)
    requires pos <= |s|
    decreases |s| - pos
  {
    if pos == |s| then Ok(result)
    else
      var next :- NextOption(s, pos);
      match next
      case None => Ok(result)
      case Some((key, v, p)) => OptionsFrom(s, p, result[key := v])
  }

  /** `_parse_options(options_str)`. */
  function OptionsOf(s: string): Result<map<string, OptionValue>, OptionError> {
    OptionsFrom(s, 0, map[])
  }

  /** What every parsed option looks like: its key is a token, and it is a
      flag or has at least one value. */
  predicate WellFormed(result: map<string, OptionValue>) {
    forall k :: k in result ==> Token(k) && (result[k].Flag? || result[k].items != [])
  }

  /** Parsing keeps the keys already there and adds only well-formed
      options. */
  lemma {:induction false} OptionsFromWellFormed(s: string, pos: nat, result: map<string, OptionValue>)
    requires pos <= |s| && WellFormed(result)
    ensures OptionsFrom(s, pos, result).Ok? ==> WellFormed(OptionsFrom(s, pos, result).value)
    ensures OptionsFrom(s, pos, result).Ok? ==> result.Keys <= OptionsFrom(s, pos, result).value.Keys
    decreases |s| - pos
  {
    if pos < |s| {
      var next := NextOption(s, pos);
      if next.Ok? && next.value.Some? {
        var (key, v, p) := next.value.value;
        OptionsFromWellFormed(s, p, result[key := v]);
      }
    }
  }

  /** Every option `_parse_options` returns is well formed. */
  lemma OptionsWellFormed(s: string)
    ensures OptionsOf(s).Ok? ==> WellFormed(OptionsOf(s).value)
  {
    OptionsFromWellFormed(s, 0, map[]);
  }

  /** Parsing onto a dictionary that already holds options `base` gives
      `base` overridden by what parsing onto an empty one gives, so a key met
      again keeps the value of its last occurrence. */
  lemma {:induction false} OptionsFromOverlay(s: string, pos: nat, base: map<string, OptionValue>,
                                              found: map<string, OptionValue>)
    requires pos <= |s|
    ensures OptionsFrom(s, pos, base + found)
            == match OptionsFrom(s, pos, found)
               case Ok(m) => Ok(base + m)
               case Err(e) => Err(e)
    decreases |s| - pos
  {
    if pos < |s| {
      var next := NextOption(s, pos);
      if next.Ok? && next.value.Some? {
        var (key, v, p) := next.value.value;
        assert (base + found)[key := v] == base + found[key := v];
        OptionsFromOverlay(s, p, base, found[key := v]);
      }
    }
  }
}

/** Step lemmas that compute the option parser on a given text: what the
    key search finds, how a value ends the list or leads to the next one,
    and how one round of the outer loop feeds the next. */
module OptionSteps {
  import opened Outcomes
  import opened Strings
  import opened Options

  /** The unquoted search from `pos` finds the first word character `q`,
      takes the word up to `e` and the whitespace after it up to `f`. */
  lemma WordAt(s: string, pos: nat, q: nat, e: nat, f: nat)
    requires pos <= |s| && FirstWord(s, pos) == Some(q) && SkipWord(s, q) == e && SkipSpaces(s, e) == f
    ensures Search(Unquoted, s, pos) == Some((s[q..e], f))
  {
    UnquotedIsFirstWord(s, pos);
  }

  /** A value that starts with none of `"`, `[` and `{` is the next word;
      when no comma follows it, it is the only value. */
  lemma LastWordValue(s: string, pos: nat, values: seq<Value>, w: string, f: nat)
    requires pos < |s| && s[pos] != '"' && s[pos] != '[' && s[pos] != '{'
    requires Search(Unquoted, s, pos) == Some((w, f))
    requires f == |s| || s[f] != ','
    ensures ValuesFrom(s, pos, values) == Ok((values + [Str(w)], f))
  {
  }

  /** A word value followed by a comma: the values go on from the comma. */
  lemma WordThenComma(s: string, pos: nat, values: seq<Value>, w: string, f: nat)
    requires pos < |s| && s[pos] != '"' && s[pos] != '[' && s[pos] != '{'
    requires Search(Unquoted, s, pos) == Some((w, f))
    requires f < |s| && s[f] == ','
    ensures ValuesFrom(s, pos, values) == ValuesFrom(s, f, values + [Str(w)])
  {
  }

  /** A key with `=` whose values fail makes the round fail. */
  lemma FailingOption(s: string, pos: nat, key: string, p: nat, e: OptionError)
    requires pos < |s| && Search(Unquoted, s, pos) == Some((key, p))
    requires p < |s| && s[p] == '=' && ValuesFrom(s, p + 1, []) == Err(e)
    ensures NextOption(s, pos) == Err(e)
    ensures OptionsFrom(s, pos, map[]) == Err(e)
  {
    AfterKeyFails(s, key, p, e);
  }

  /** A key found with no `=` after it is a flag. */
  lemma FlagOption(s: string, pos: nat, key: string, p: nat)
    requires pos < |s| && Search(Unquoted, s, pos) == Some((key, p))
    requires p == |s| || s[p] != '='
    ensures NextOption(s, pos) == Ok(Some((key, Flag, p)))
  {
    AfterKeyFlag(s, key, p);
  }

  /** A key found with `=` after it takes the values read after the `=`. */
  lemma ValuesOption(s: string, pos: nat, key: string, p: nat, values: seq<Value>, next: nat)
    requires pos < |s| && Search(Unquoted, s, pos) == Some((key, p))
    requires p < |s| && s[p] == '=' && ValuesFrom(s, p + 1, []) == Ok((values, next))
    ensures NextOption(s, pos) == Ok(Some((key, Values(values), next)))
  {
    AfterKeyValues(s, key, p, values, next);
  }

  /** One round of the outer loop: the option found is added and the loop
      goes on from the cursor after it. */
  lemma OptionStep(s: string, pos: nat, result: map<string, OptionValue>, key: string, v: OptionValue, p: nat)
    requires pos < |s| && NextOption(s, pos) == Ok(Some((key, v, p)))
    ensures OptionsFrom(s, pos, result) == OptionsFrom(s, p, result[key := v])
  {
  }

  /** Once no word character is left, the loop ends with what it has. */
  lemma NoKeysLeft(s: string, pos: nat, result: map<string, OptionValue>)
    requires pos <= |s| && FirstWord(s, pos).None?
    ensures OptionsFrom(s, pos, result) == Ok(result)
  {
    if pos < |s| {
      UnquotedIsFirstWord(s, pos);
    }
  }
}
