/** `_parse_options` on the option sections of the repository's own tests
    (tests/parser_tests/test_parser_tests_parser.py) and on the form
    `abc=def,"ghi jkl"` its docstring lists, and on short texts that reach
    each of its errors. Each text is taken character
    by character, and the parse is computed word by word with the step
    lemmas; a word lemma walks the scanning functions back from where a
    run ends. */
module OptionExamples {
  import opened Outcomes
  import opened Options
  import opened OptionSteps

  /** The characters of `"\npst\n"`. */
  predicate PstText(s: string) {
    |s| == 5
    && s[0] == '\n'
    && s[1] == 'p'
    && s[2] == 's'
    && s[3] == 't'
    && s[4] == '\n'
  }

  lemma PstTextIs(s: string)
    requires s == "\npst\n"
    ensures PstText(s)
  {
    assert |s| == 5 && s[0] == '\n' && s[1] == 'p' && s[2] == 's' && s[3] == 't' && s[4] == '\n';
  }

  lemma PstKey(s: string)
    requires PstText(s)
    ensures Search(Unquoted, s, 0) == Some(("pst", 5))
  {
    assert SkipSpaces(s, 5) == 5;
    assert SkipSpaces(s, 4) == 5;
    assert SkipWord(s, 4) == 4;
    assert SkipWord(s, 2) == 4;
    assert SkipWord(s, 1) == 4;
    assert FirstWord(s, 1) == Some(1);
    assert FirstWord(s, 0) == Some(1);
    WordAt(s, 0, 1, 4, 5);
    assert s[1..4] == "pst";
  }

  /** A bare key is a flag. */
  lemma BareKey(s: string)
    requires s == "\npst\n"
    ensures OptionsOf(s) == Ok(map["pst" := Flag])
  {
    PstTextIs(s);
    PstKey(s);
    FlagOption(s, 0, "pst", 5);
    OptionStep(s, 0, map[], "pst", Flag, 5);
  }

  /** The characters of `"\nthumbsize=0\nlanguage=en\n"`. */
  predicate ThumbsizeText(s: string) {
    |s| == 25
    && s[0] == '\n'
    && s[1] == 't'
    && s[2] == 'h'
    && s[3] == 'u'
    && s[4] == 'm'
    && s[5] == 'b'
    && s[6] == 's'
    && s[7] == 'i'
    && s[8] == 'z'
    && s[9] == 'e'
    && s[10] == '='
    && s[11] == '0'
    && s[12] == '\n'
    && s[13] == 'l'
    && s[14] == 'a'
    && s[15] == 'n'
    && s[16] == 'g'
    && s[17] == 'u'
    && s[18] == 'a'
    && s[19] == 'g'
    && s[20] == 'e'
    && s[21] == '='
    && s[22] == 'e'
    && s[23] == 'n'
    && s[24] == '\n'
  }

  lemma ThumbsizeTextIs(s: string)
    requires s == "\nthumbsize=0\nlanguage=en\n"
    ensures ThumbsizeText(s)
  {
    assert |s| == 25 && s[0] == '\n' && s[1] == 't' && s[2] == 'h' && s[3] == 'u' && s[4] == 'm' && s[5] == 'b' && s[6] == 's' && s[7] == 'i' && s[8] == 'z' && s[9] == 'e' && s[10] == '=' && s[11] == '0' && s[12] == '\n' && s[13] == 'l' && s[14] == 'a' && s[15] == 'n' && s[16] == 'g' && s[17] == 'u' && s[18] == 'a' && s[19] == 'g' && s[20] == 'e' && s[21] == '=' && s[22] == 'e' && s[23] == 'n' && s[24] == '\n';
  }

  lemma ThumbsizeKey(s: string)
    requires ThumbsizeText(s)
    ensures Search(Unquoted, s, 0) == Some(("thumbsize", 10))
  {
    assert SkipSpaces(s, 10) == 10;
    assert SkipWord(s, 10) == 10;
    assert SkipWord(s, 8) == 10;
    assert SkipWord(s, 6) == 10;
    assert SkipWord(s, 4) == 10;
    assert SkipWord(s, 2) == 10;
    assert SkipWord(s, 1) == 10;
    assert FirstWord(s, 1) == Some(1);
    assert FirstWord(s, 0) == Some(1);
    WordAt(s, 0, 1, 10, 10);
    assert s[1..10] == "thumbsize";
  }

  lemma ZeroWord(s: string)
    requires ThumbsizeText(s)
    ensures Search(Unquoted, s, 11) == Some(("0", 13))
  {
    assert SkipSpaces(s, 13) == 13;
    assert SkipSpaces(s, 12) == 13;
    assert SkipWord(s, 12) == 12;
    assert SkipWord(s, 11) == 12;
    assert FirstWord(s, 11) == Some(11);
    WordAt(s, 11, 11, 12, 13);
    assert s[11..12] == "0";
  }

  lemma LanguageKey(s: string)
    requires ThumbsizeText(s)
    ensures Search(Unquoted, s, 13) == Some(("language", 21))
  {
    assert SkipSpaces(s, 21) == 21;
    assert SkipWord(s, 21) == 21;
    assert SkipWord(s, 19) == 21;
    assert SkipWord(s, 17) == 21;
    assert SkipWord(s, 15) == 21;
    assert SkipWord(s, 13) == 21;
    assert FirstWord(s, 13) == Some(13);
    WordAt(s, 13, 13, 21, 21);
    assert s[13..21] == "language";
  }

  lemma EnWord(s: string)
    requires ThumbsizeText(s)
    ensures Search(Unquoted, s, 22) == Some(("en", 25))
  {
    assert SkipSpaces(s, 25) == 25;
    assert SkipSpaces(s, 24) == 25;
    assert SkipWord(s, 24) == 24;
    assert SkipWord(s, 22) == 24;
    assert FirstWord(s, 22) == Some(22);
    WordAt(s, 22, 22, 24, 25);
    assert s[22..24] == "en";
  }

  lemma ThumbsizeRound(s: string)
    requires ThumbsizeText(s)
    ensures NextOption(s, 0) == Ok(Some(("thumbsize", Values([Str("0")]), 13)))
  {
    ThumbsizeKey(s);
    ZeroWord(s);
    LastWordValue(s, 11, [], "0", 13);
    assert [] + [Str("0")] == [Str("0")];
    ValuesOption(s, 0, "thumbsize", 10, [Str("0")], 13);
  }

  lemma LanguageRound(s: string)
    requires ThumbsizeText(s)
    ensures NextOption(s, 13) == Ok(Some(("language", Values([Str("en")]), 25)))
  {
    LanguageKey(s);
    EnWord(s);
    LastWordValue(s, 22, [], "en", 25);
    assert [] + [Str("en")] == [Str("en")];
    ValuesOption(s, 13, "language", 21, [Str("en")], 25);
  }

  /** One option per line, each with a single value. */
  lemma OneValueEach(s: string)
    requires s == "\nthumbsize=0\nlanguage=en\n"
    ensures OptionsOf(s) == Ok(map["thumbsize" := Values([Str("0")]), "language" := Values([Str("en")])])
  {
    ThumbsizeTextIs(s);
    ThumbsizeRound(s);
    OptionStep(s, 0, map[], "thumbsize", Values([Str("0")]), 13);
    LanguageRound(s);
    OptionStep(s, 13, map["thumbsize" := Values([Str("0")])], "language", Values([Str("en")]), 25);
  }

  /** The characters of `"\ntest=\"foo bar\"\n"`. */
  predicate QuotedText(s: string) {
    |s| == 16
    && s[0] == '\n'
    && s[1] == 't'
    && s[2] == 'e'
    && s[3] == 's'
    && s[4] == 't'
    && s[5] == '='
    && s[6] == '"'
    && s[7] == 'f'
    && s[8] == 'o'
    && s[9] == 'o'
    && s[10] == ' '
    && s[11] == 'b'
    && s[12] == 'a'
    && s[13] == 'r'
    && s[14] == '"'
    && s[15] == '\n'
  }

  lemma QuotedTextIs(s: string)
    requires s == "\ntest=\"foo bar\"\n"
    ensures QuotedText(s)
  {
    assert |s| == 16 && s[0] == '\n' && s[1] == 't' && s[2] == 'e' && s[3] == 's' && s[4] == 't' && s[5] == '=' && s[6] == '"' && s[7] == 'f' && s[8] == 'o' && s[9] == 'o' && s[10] == ' ' && s[11] == 'b' && s[12] == 'a' && s[13] == 'r' && s[14] == '"' && s[15] == '\n';
  }

  lemma TestKeyBeforeQuote(s: string)
    requires QuotedText(s)
    ensures Search(Unquoted, s, 0) == Some(("test", 5))
  {
    assert SkipSpaces(s, 5) == 5;
    assert SkipWord(s, 5) == 5;
    assert SkipWord(s, 3) == 5;
    assert SkipWord(s, 1) == 5;
    assert FirstWord(s, 1) == Some(1);
    assert FirstWord(s, 0) == Some(1);
    WordAt(s, 0, 1, 5, 5);
    assert s[1..5] == "test";
  }

  lemma FooBarQuoted(s: string)
    requires QuotedText(s)
    ensures ValueAt(s, 6) == Ok((Str("foo bar"), 16))
  {
    assert Find(s, 14, '"') == Some(14);
    assert Find(s, 12, '"') == Some(14);
    assert Find(s, 10, '"') == Some(14);
    assert Find(s, 8, '"') == Some(14);
    assert Find(s, 7, '"') == Some(14);
    assert SkipSpaces(s, 16) == 16;
    assert SkipSpaces(s, 15) == 16;
    QuotedValue(s, 6);
    assert s[7..14] == "foo bar";
  }

  /** A quoted value keeps its inner space. */
  lemma QuotedWithSpace(s: string)
    requires s == "\ntest=\"foo bar\"\n"
    ensures OptionsOf(s) == Ok(map["test" := Values([Str("foo bar")])])
  {
    QuotedTextIs(s);
    TestKeyBeforeQuote(s);
    FooBarQuoted(s);
    ValuesStep(s, 6, [], Str("foo bar"), 16);
    assert [] + [Str("foo bar")] == [Str("foo bar")];
    ValuesOption(s, 0, "test", 5, [Str("foo bar")], 16);
    OptionStep(s, 0, map[], "test", Values([Str("foo bar")]), 16);
  }

  /** The characters of `"\ntest=foo,bar\n"`. */
  predicate CommaText(s: string) {
    |s| == 14
    && s[0] == '\n'
    && s[1] == 't'
    && s[2] == 'e'
    && s[3] == 's'
    && s[4] == 't'
    && s[5] == '='
    && s[6] == 'f'
    && s[7] == 'o'
    && s[8] == 'o'
    && s[9] == ','
    && s[10] == 'b'
    && s[11] == 'a'
    && s[12] == 'r'
    && s[13] == '\n'
  }

  lemma CommaTextIs(s: string)
    requires s == "\ntest=foo,bar\n"
    ensures CommaText(s)
  {
    assert |s| == 14 && s[0] == '\n' && s[1] == 't' && s[2] == 'e' && s[3] == 's' && s[4] == 't' && s[5] == '=' && s[6] == 'f' && s[7] == 'o' && s[8] == 'o' && s[9] == ',' && s[10] == 'b' && s[11] == 'a' && s[12] == 'r' && s[13] == '\n';
  }

  lemma TestKey(s: string)
    requires CommaText(s)
    ensures Search(Unquoted, s, 0) == Some(("test", 5))
  {
    assert SkipSpaces(s, 5) == 5;
    assert SkipWord(s, 5) == 5;
    assert SkipWord(s, 3) == 5;
    assert SkipWord(s, 1) == 5;
    assert FirstWord(s, 1) == Some(1);
    assert FirstWord(s, 0) == Some(1);
    WordAt(s, 0, 1, 5, 5);
    assert s[1..5] == "test";
  }

  lemma FooWord(s: string)
    requires CommaText(s)
    ensures Search(Unquoted, s, 6) == Some(("foo", 9))
  {
    assert SkipSpaces(s, 9) == 9;
    assert SkipWord(s, 9) == 9;
    assert SkipWord(s, 7) == 9;
    assert SkipWord(s, 6) == 9;
    assert FirstWord(s, 6) == Some(6);
    WordAt(s, 6, 6, 9, 9);
    assert s[6..9] == "foo";
  }

  lemma BarWord(s: string)
    requires CommaText(s)
    ensures Search(Unquoted, s, 9) == Some(("bar", 14))
  {
    assert SkipSpaces(s, 14) == 14;
    assert SkipSpaces(s, 13) == 14;
    assert SkipWord(s, 13) == 13;
    assert SkipWord(s, 11) == 13;
    assert SkipWord(s, 10) == 13;
    assert FirstWord(s, 10) == Some(10);
    assert FirstWord(s, 9) == Some(10);
    WordAt(s, 9, 10, 13, 14);
    assert s[10..13] == "bar";
  }

  /** Values separated by a comma. */
  lemma TwoValues(s: string)
    requires s == "\ntest=foo,bar\n"
    ensures OptionsOf(s) == Ok(map["test" := Values([Str("foo"), Str("bar")])])
  {
    CommaTextIs(s);
    TestKey(s);
    FooWord(s);
    WordThenComma(s, 6, [], "foo", 9);
    BarWord(s);
    LastWordValue(s, 9, [Str("foo")], "bar", 14);
    assert [] + [Str("foo")] == [Str("foo")] && [Str("foo")] + [Str("bar")] == [Str("foo"), Str("bar")];
    ValuesOption(s, 0, "test", 5, [Str("foo"), Str("bar")], 14);
    OptionStep(s, 0, map[], "test", Values([Str("foo"), Str("bar")]), 14);
  }

  /** The characters of `"\ntitle=[[Foo bar]]\n"`. */
  predicate LinkText(s: string) {
    |s| == 19
    && s[0] == '\n'
    && s[1] == 't'
    && s[2] == 'i'
    && s[3] == 't'
    && s[4] == 'l'
    && s[5] == 'e'
    && s[6] == '='
    && s[7] == '['
    && s[8] == '['
    && s[9] == 'F'
    && s[10] == 'o'
    && s[11] == 'o'
    && s[12] == ' '
    && s[13] == 'b'
    && s[14] == 'a'
    && s[15] == 'r'
    && s[16] == ']'
    && s[17] == ']'
    && s[18] == '\n'
  }

  lemma LinkTextIs(s: string)
    requires s == "\ntitle=[[Foo bar]]\n"
    ensures LinkText(s)
  {
    assert |s| == 19 && s[0] == '\n' && s[1] == 't' && s[2] == 'i' && s[3] == 't' && s[4] == 'l' && s[5] == 'e' && s[6] == '=' && s[7] == '[' && s[8] == '[' && s[9] == 'F' && s[10] == 'o' && s[11] == 'o' && s[12] == ' ' && s[13] == 'b' && s[14] == 'a' && s[15] == 'r' && s[16] == ']' && s[17] == ']' && s[18] == '\n';
  }

  lemma TitleKey(s: string)
    requires LinkText(s)
    ensures Search(Unquoted, s, 0) == Some(("title", 6))
  {
    assert SkipSpaces(s, 6) == 6;
    assert SkipWord(s, 6) == 6;
    assert SkipWord(s, 4) == 6;
    assert SkipWord(s, 2) == 6;
    assert SkipWord(s, 1) == 6;
    assert FirstWord(s, 1) == Some(1);
    assert FirstWord(s, 0) == Some(1);
    WordAt(s, 0, 1, 6, 6);
    assert s[1..6] == "title";
  }

  lemma FooBarLink(s: string)
    requires LinkText(s)
    ensures ValueAt(s, 7) == Ok((Str("Foo bar"), 19))
  {
    assert Find(s, 16, ']') == Some(16);
    assert Find(s, 14, ']') == Some(16);
    assert Find(s, 12, ']') == Some(16);
    assert Find(s, 10, ']') == Some(16);
    assert Find(s, 9, ']') == Some(16);
    assert SkipSpaces(s, 19) == 19;
    assert SkipSpaces(s, 18) == 19;
    LinkValue(s, 7, 16);
    assert s[9..16] == "Foo bar";
  }

  /** A link value is the title between the brackets. */
  lemma LinkTitle(s: string)
    requires s == "\ntitle=[[Foo bar]]\n"
    ensures OptionsOf(s) == Ok(map["title" := Values([Str("Foo bar")])])
  {
    LinkTextIs(s);
    TitleKey(s);
    FooBarLink(s);
    ValuesStep(s, 7, [], Str("Foo bar"), 19);
    assert [] + [Str("Foo bar")] == [Str("Foo bar")];
    ValuesOption(s, 0, "title", 6, [Str("Foo bar")], 19);
    OptionStep(s, 0, map[], "title", Values([Str("Foo bar")]), 19);
  }

  /** The characters of `"\npst foo = bar, baz\n"`. */
  predicate SpacedText(s: string) {
    |s| == 20
    && s[0] == '\n'
    && s[1] == 'p'
    && s[2] == 's'
    && s[3] == 't'
    && s[4] == ' '
    && s[5] == 'f'
    && s[6] == 'o'
    && s[7] == 'o'
    && s[8] == ' '
    && s[9] == '='
    && s[10] == ' '
    && s[11] == 'b'
    && s[12] == 'a'
    && s[13] == 'r'
    && s[14] == ','
    && s[15] == ' '
    && s[16] == 'b'
    && s[17] == 'a'
    && s[18] == 'z'
    && s[19] == '\n'
  }

  lemma SpacedTextIs(s: string)
    requires s == "\npst foo = bar, baz\n"
    ensures SpacedText(s)
  {
    assert |s| == 20 && s[0] == '\n' && s[1] == 'p' && s[2] == 's' && s[3] == 't' && s[4] == ' ' && s[5] == 'f' && s[6] == 'o' && s[7] == 'o' && s[8] == ' ' && s[9] == '=' && s[10] == ' ' && s[11] == 'b' && s[12] == 'a' && s[13] == 'r' && s[14] == ',' && s[15] == ' ' && s[16] == 'b' && s[17] == 'a' && s[18] == 'z' && s[19] == '\n';
  }

  lemma PstBeforeFoo(s: string)
    requires SpacedText(s)
    ensures Search(Unquoted, s, 0) == Some(("pst", 5))
  {
    assert SkipSpaces(s, 5) == 5;
    assert SkipSpaces(s, 4) == 5;
    assert SkipWord(s, 4) == 4;
    assert SkipWord(s, 2) == 4;
    assert SkipWord(s, 1) == 4;
    assert FirstWord(s, 1) == Some(1);
    assert FirstWord(s, 0) == Some(1);
    WordAt(s, 0, 1, 4, 5);
    assert s[1..4] == "pst";
  }

  lemma FooKey(s: string)
    requires SpacedText(s)
    ensures Search(Unquoted, s, 5) == Some(("foo", 9))
  {
    assert SkipSpaces(s, 9) == 9;
    assert SkipSpaces(s, 8) == 9;
    assert SkipWord(s, 8) == 8;
    assert SkipWord(s, 6) == 8;
    assert SkipWord(s, 5) == 8;
    assert FirstWord(s, 5) == Some(5);
    WordAt(s, 5, 5, 8, 9);
    assert s[5..8] == "foo";
  }

  lemma BarBeforeComma(s: string)
    requires SpacedText(s)
    ensures Search(Unquoted, s, 10) == Some(("bar", 14))
  {
    assert SkipSpaces(s, 14) == 14;
    assert SkipWord(s, 14) == 14;
    assert SkipWord(s, 12) == 14;
    assert SkipWord(s, 11) == 14;
    assert FirstWord(s, 11) == Some(11);
    assert FirstWord(s, 10) == Some(11);
    WordAt(s, 10, 11, 14, 14);
    assert s[11..14] == "bar";
  }

  lemma BazWord(s: string)
    requires SpacedText(s)
    ensures Search(Unquoted, s, 14) == Some(("baz", 20))
  {
    assert SkipSpaces(s, 20) == 20;
    assert SkipSpaces(s, 19) == 20;
    assert SkipWord(s, 19) == 19;
    assert SkipWord(s, 17) == 19;
    assert SkipWord(s, 16) == 19;
    assert FirstWord(s, 16) == Some(16);
    assert FirstWord(s, 14) == Some(16);
    WordAt(s, 14, 16, 19, 20);
    assert s[16..19] == "baz";
  }

  lemma FooRound(s: string)
    requires SpacedText(s)
    ensures NextOption(s, 5) == Ok(Some(("foo", Values([Str("bar"), Str("baz")]), 20)))
  {
    FooKey(s);
    BarBeforeComma(s);
    WordThenComma(s, 10, [], "bar", 14);
    BazWord(s);
    LastWordValue(s, 14, [Str("bar")], "baz", 20);
    assert [] + [Str("bar")] == [Str("bar")] && [Str("bar")] + [Str("baz")] == [Str("bar"), Str("baz")];
    ValuesOption(s, 5, "foo", 9, [Str("bar"), Str("baz")], 20);
  }

  /** Spaces around `=` and after a comma are skipped, and a key followed
      by another key is a flag. */
  lemma Spacing(s: string)
    requires s == "\npst foo = bar, baz\n"
    ensures OptionsOf(s) == Ok(map["pst" := Flag, "foo" := Values([Str("bar"), Str("baz")])])
  {
    SpacedTextIs(s);
    PstBeforeFoo(s);
    FlagOption(s, 0, "pst", 5);
    OptionStep(s, 0, map[], "pst", Flag, 5);
    FooRound(s);
    OptionStep(s, 5, map["pst" := Flag], "foo", Values([Str("bar"), Str("baz")]), 20);
  }

  /** The characters of `"abc=def,\"ghi jkl\""`. */
  predicate DocstringText(s: string) {
    |s| == 17
    && s[0] == 'a'
    && s[1] == 'b'
    && s[2] == 'c'
    && s[3] == '='
    && s[4] == 'd'
    && s[5] == 'e'
    && s[6] == 'f'
    && s[7] == ','
    && s[8] == '"'
    && s[9] == 'g'
    && s[10] == 'h'
    && s[11] == 'i'
    && s[12] == ' '
    && s[13] == 'j'
    && s[14] == 'k'
    && s[15] == 'l'
    && s[16] == '"'
  }

  lemma DocstringTextIs(s: string)
    requires s == "abc=def,\"ghi jkl\""
    ensures DocstringText(s)
  {
    assert |s| == 17 && s[0] == 'a' && s[1] == 'b' && s[2] == 'c' && s[3] == '=' && s[4] == 'd' && s[5] == 'e' && s[6] == 'f' && s[7] == ',' && s[8] == '"' && s[9] == 'g' && s[10] == 'h' && s[11] == 'i' && s[12] == ' ' && s[13] == 'j' && s[14] == 'k' && s[15] == 'l' && s[16] == '"';
  }

  lemma AbcKey(s: string)
    requires DocstringText(s)
    ensures Search(Unquoted, s, 0) == Some(("abc", 3))
  {
    assert SkipSpaces(s, 3) == 3;
    assert SkipWord(s, 3) == 3;
    assert SkipWord(s, 1) == 3;
    assert SkipWord(s, 0) == 3;
    assert FirstWord(s, 0) == Some(0);
    WordAt(s, 0, 0, 3, 3);
    assert s[0..3] == "abc";
  }

  lemma DefWord(s: string)
    requires DocstringText(s)
    ensures Search(Unquoted, s, 4) == Some(("def", 7))
  {
    assert SkipSpaces(s, 7) == 7;
    assert SkipWord(s, 7) == 7;
    assert SkipWord(s, 5) == 7;
    assert SkipWord(s, 4) == 7;
    assert FirstWord(s, 4) == Some(4);
    WordAt(s, 4, 4, 7, 7);
    assert s[4..7] == "def";
  }

  lemma GhiAfterQuote(s: string)
    requires DocstringText(s)
    ensures Search(Unquoted, s, 7) == Some(("ghi", 13))
  {
    assert SkipSpaces(s, 13) == 13;
    assert SkipSpaces(s, 12) == 13;
    assert SkipWord(s, 12) == 12;
    assert SkipWord(s, 10) == 12;
    assert SkipWord(s, 9) == 12;
    assert FirstWord(s, 9) == Some(9);
    assert FirstWord(s, 7) == Some(9);
    WordAt(s, 7, 9, 12, 13);
    assert s[9..12] == "ghi";
  }

  lemma JklKey(s: string)
    requires DocstringText(s)
    ensures Search(Unquoted, s, 13) == Some(("jkl", 16))
  {
    assert SkipSpaces(s, 16) == 16;
    assert SkipWord(s, 16) == 16;
    assert SkipWord(s, 14) == 16;
    assert SkipWord(s, 13) == 16;
    assert FirstWord(s, 13) == Some(13);
    WordAt(s, 13, 13, 16, 16);
    assert s[13..16] == "jkl";
  }

  lemma AbcRound(s: string)
    requires DocstringText(s)
    ensures NextOption(s, 0) == Ok(Some(("abc", Values([Str("def"), Str("ghi")]), 13)))
  {
    AbcKey(s);
    DefWord(s);
    WordThenComma(s, 4, [], "def", 7);
    GhiAfterQuote(s);
    LastWordValue(s, 7, [Str("def")], "ghi", 13);
    assert [] + [Str("def")] == [Str("def")] && [Str("def")] + [Str("ghi")] == [Str("def"), Str("ghi")];
    ValuesOption(s, 0, "abc", 3, [Str("def"), Str("ghi")], 13);
  }

  /** A quoted value right after a comma: the cursor is still on the comma,
      so the value is read unquoted. It is the word after the quote, and
      the rest of the quoted text becomes a flag of its own. */
  lemma QuotedAfterComma(s: string)
    requires s == "abc=def,\"ghi jkl\""
    ensures OptionsOf(s) == Ok(map["abc" := Values([Str("def"), Str("ghi")]), "jkl" := Flag])
  {
    DocstringTextIs(s);
    AbcRound(s);
    OptionStep(s, 0, map[], "abc", Values([Str("def"), Str("ghi")]), 13);
    JklKey(s);
    FlagOption(s, 13, "jkl", 16);
    OptionStep(s, 13, map["abc" := Values([Str("def"), Str("ghi")])], "jkl", Flag, 16);
    assert FirstWord(s, 16) == None;
    NoKeysLeft(s, 16, map["abc" := Values([Str("def"), Str("ghi")]), "jkl" := Flag]);
  }

  /** The key `a` at the start of a text whose second character is `=`. */
  lemma KeyA(s: string)
    requires |s| >= 2 && s[0] == 'a' && s[1] == '='
    ensures Search(Unquoted, s, 0) == Some(("a", 1))
  {
    assert SkipSpaces(s, 1) == 1;
    assert SkipWord(s, 1) == 1;
    assert SkipWord(s, 0) == 1;
    assert FirstWord(s, 0) == Some(0);
    WordAt(s, 0, 0, 1, 1);
    assert s[0..1] == "a";
  }

  /** `a=` with nothing after the `=`: "Unexpected end of string". */
  lemma EqualsAtEnd(s: string)
    requires s == "a="
    ensures OptionsOf(s) == Err(UnexpectedEnd)
  {
    assert |s| == 2 && s[0] == 'a' && s[1] == '=';
    KeyA(s);
    ValuesAtEnd(s, []);
    FailingOption(s, 0, "a", 1, UnexpectedEnd);
  }

  /** `a=b,` with nothing after the comma: "Expected a value." */
  lemma CommaAtEnd(s: string)
    requires s == "a=b,"
    ensures OptionsOf(s) == Err(ExpectedValue)
  {
    assert |s| == 4 && s[0] == 'a' && s[1] == '=' && s[2] == 'b' && s[3] == ',';
    KeyA(s);
    assert SkipSpaces(s, 3) == 3;
    assert SkipWord(s, 3) == 3;
    assert SkipWord(s, 2) == 3;
    assert FirstWord(s, 2) == Some(2);
    WordAt(s, 2, 2, 3, 3);
    assert s[2..3] == "b";
    WordThenComma(s, 2, [], "b", 3);
    TrailingComma(s, 3, [Str("b")]);
    FailingOption(s, 0, "a", 1, ExpectedValue);
  }

  /** `a=[[b` with the link never closed: "Unmatched link." */
  lemma LinkNotClosed(s: string)
    requires s == "a=[[b"
    ensures OptionsOf(s) == Err(UnmatchedLink)
  {
    assert |s| == 5 && s[0] == 'a' && s[1] == '=' && s[2] == '[' && s[3] == '[' && s[4] == 'b';
    KeyA(s);
    assert s[2..] == "[[b";
    NoCloseNoLink(s, 2);
    assert ValueAt(s, 2) == Err(UnmatchedLink);
    FailingOption(s, 0, "a", 1, UnmatchedLink);
  }

  /** The characters of `j={"k":"}"}`. */
  predicate JsonText(s: string) {
    |s| == 11
    && s[0] == 'j'
    && s[1] == '='
    && s[2] == '{'
    && s[3] == '"'
    && s[4] == 'k'
    && s[5] == '"'
    && s[6] == ':'
    && s[7] == '"'
    && s[8] == '}'
    && s[9] == '"'
    && s[10] == '}'
  }

  lemma JsonTextIs(s: string)
    requires s == "j={\"k\":\"}\"}"
    ensures JsonText(s)
  {
    assert |s| == 11 && s[0] == 'j' && s[1] == '=' && s[2] == '{' && s[3] == '"' && s[4] == 'k' && s[5] == '"' && s[6] == ':' && s[7] == '"' && s[8] == '}' && s[9] == '"' && s[10] == '}';
  }

  /** The brace inside the string is not counted: the object ends at the
      last character. */
  lemma JsonEnd(s: string)
    requires JsonText(s)
    ensures BraceEnd(s, 2) == Some(10)
  {
    assert ScanState(s, 2, 3) == (1, false);
    assert ScanState(s, 2, 4) == (1, true);
    assert ScanState(s, 2, 5) == (1, true);
    assert ScanState(s, 2, 6) == (1, false);
    assert ScanState(s, 2, 7) == (1, false);
    assert ScanState(s, 2, 8) == (1, true);
    assert ScanState(s, 2, 9) == (1, true);
    assert ScanState(s, 2, 10) == (1, false);
    assert ScanState(s, 2, 11) == (0, false);
    assert Closing(s, 2, 10) == Some(10);
    assert Closing(s, 2, 9) == Some(10);
    assert Closing(s, 2, 8) == Some(10);
    assert Closing(s, 2, 7) == Some(10);
    assert Closing(s, 2, 6) == Some(10);
    assert Closing(s, 2, 5) == Some(10);
    assert Closing(s, 2, 4) == Some(10);
    assert Closing(s, 2, 3) == Some(10);
    assert Closing(s, 2, 2) == Some(10);
  }

  /** A JSON value is the text from its opening brace to the one that
      balances it, a brace inside a string not counting. */
  lemma JsonValue(s: string)
    requires s == "j={\"k\":\"}\"}"
    ensures OptionsOf(s) == Ok(map["j" := Values([Json("{\"k\":\"}\"}")])])
  {
    JsonTextIs(s);
    assert SkipSpaces(s, 1) == 1;
    assert SkipWord(s, 1) == 1;
    assert SkipWord(s, 0) == 1;
    assert FirstWord(s, 0) == Some(0);
    WordAt(s, 0, 0, 1, 1);
    assert s[0..1] == "j";
    JsonEnd(s);
    assert s[2..11] == "{\"k\":\"}\"}";
    assert ValueAt(s, 2) == Ok((Json("{\"k\":\"}\"}"), 11));
    assert ValuesFrom(s, 2, []) == Ok(([Json("{\"k\":\"}\"}")], 11));
    ValuesOption(s, 0, "j", 1, [Json("{\"k\":\"}\"}")], 11);
    OptionStep(s, 0, map[], "j", Values([Json("{\"k\":\"}\"}")]), 11);
  }
}
