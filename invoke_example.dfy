/** `{{#invoke:String|len|target_string}}` and
    `{{#invoke:String|len|s=target_string}}` both compose to `13`: the first
    positional parameter names the function, the remaining positional one is
    renumbered to `1`, and a named `s` wins. */
module InvokeExample {
  import opened Outcomes
  import opened Strings
  import opened Params
  import opened Nodes
  import opened Modules
  import opened Rendering

  /** The parse of a plain piece of text. */
  function Plain(v: string): Node {
    Wikicode([Text(v)])
  }

  /** Text without a trailing newline, with no list queued, is written as
      it is. */
  lemma TextWritten(st: State, v: string)
    requires st.pending == [] && (v == [] || Last(v) != '\n')
    ensures RenderText(st, v) == Write(st, v)
  {
    assert TrailingNewlines(v) == 0;
  }

  lemma TextRenders(cfg: Config, fuel: nat, ctx: Option<Params>, v: string, st: State)
    ensures Render(cfg, fuel, ctx, Text(v), st) == Ok(RenderText(st, v))
  {
  }

  lemma PlainRenders(cfg: Config, fuel: nat, ctx: Option<Params>, v: string, st: State)
    ensures Render(cfg, fuel, ctx, Plain(v), st) == Ok(RenderText(st, v))
  {
    var done := RenderText(st, v);
    TextRenders(cfg, fuel, ctx, v, st);
    assert [Text(v)][0] == Text(v) && [Text(v)][1..] == [];
    assert RenderSeq(cfg, fuel, ctx, [], done) == Ok(done);
    assert RenderSeq(cfg, fuel, ctx, [Text(v)], st) == Ok(done);
  }

  /** A new composer renders plain text, without a trailing newline, as
      itself. */
  lemma FreshPlain(cfg: Config, fuel: nat, ctx: Option<Params>, v: string)
    requires v == [] || Last(v) != '\n'
    ensures Fresh(cfg, fuel, ctx, Plain(v)) == Ok(v)
  {
    TextWritten(Initial, v);
    PlainRenders(cfg, fuel, ctx, v, Initial);
    assert Write(Initial, v).out == v;
  }

  lemma StrippedWord(v: string)
    requires v != [] && v[0] !in Whitespace && v[|v| - 1] !in Whitespace
    ensures Strip(v) == v
  {
    StripCharsNoOp(v, Whitespace);
  }

  const Name := "#invoke:String"
  const Src := "{{#invoke:String|len|target_string}}"

  /** The configuration of the module tests: only the modules matter. */
  function ModuleConfig(baseUrl: string, store: map<string, Node>, quote: string -> string): Config {
    Config(baseUrl, store, Installed, quote)
  }

  lemma NameStripped()
    ensures Strip(Name) == Name
  {
    StrippedWord(Name);
  }

  lemma NamePrefix()
    ensures StartsWith(Name, "#invoke:") && InvokedModule(Name) == "String"
  {
    assert Name == "#invoke:" + "String";
  }

  lemma StrippedChar(c: char)
    requires c !in Whitespace
    ensures Strip([c]) == [c]
  {
    StripCharsNoOp([c], Whitespace);
  }

  lemma KeyCharsNotSpace()
    ensures '1' !in Whitespace && '2' !in Whitespace && 's' !in Whitespace
  {
  }

  lemma KeysStripped()
    ensures Strip("1") == "1" && Strip("2") == "2" && Strip("s") == "s"
  {
    KeyCharsNotSpace();
    StrippedChar('1');
    StrippedChar('2');
    StrippedChar('s');
  }

  lemma ValueStripped()
    ensures Strip("target_string") == "target_string"
  {
    StrippedWord("target_string");
  }

  lemma ParseS()
    ensures ParseInt("s") == None
  {
    assert 's' !in Whitespace;
    StrippedChar('s');
    var t := Strip("s");
    assert t == "s" && t[0] == 's';
    assert !IsDigit('s');
    assert !DigitGroups(t);
  }

  /** Positional parameter `2` arrives as `1`. */
  lemma RenumberTwo()
    ensures Renumber([("2", "target_string")]) == [("1", "target_string")]
  {
    assert IntToDecimal(2) == "2";
    assert IntToDecimal(1) == "1";
    IntDecimalRoundTrip(2);
    assert RenumberKey("2") == "1";
    assert RenumberKeys([("2", "target_string")]) == [("1", "target_string")];
  }

  /** The named parameter `s` arrives as it is. */
  lemma RenumberS()
    ensures Renumber([("s", "target_string")]) == [("s", "target_string")]
  {
    ParseS();
    assert RenumberKey("s") == "s";
    assert RenumberKeys([("s", "target_string")]) == [("s", "target_string")];
  }

  lemma LenFacts()
    ensures Len([("1", "target_string")]) == "13"
    ensures Len([("s", "target_string")]) == "13"
  {
    assert |"target_string"| == 13;
    assert NatToDecimal(13) == "13";
  }

  /** A parameter given as plain text with a stripped name renders as that
      name and value. */
  lemma PlainParam(cfg: Config, fuel: nat, ctx: Option<Params>, k: string, v: string, showkey: bool)
    requires k != [] && Last(k) != '\n' && Strip(k) == k
    requires v != [] && Last(v) != '\n' && (showkey ==> Strip(v) == v)
    ensures RenderParam(cfg, fuel, ctx, Param(Plain(k), Plain(v), showkey)) == Ok((k, v))
  {
    FreshPlain(cfg, fuel, ctx, k);
    FreshPlain(cfg, fuel, ctx, v);
  }

  /** Parameters given as plain text with stripped names render as those
      names and values. */
  lemma PlainParams(cfg: Config, fuel: nat, ctx: Option<Params>, k1: string, v1: string, k2: string, v2: string, showkey: bool)
    requires k1 != [] && Last(k1) != '\n' && Strip(k1) == k1
    requires k2 != [] && Last(k2) != '\n' && Strip(k2) == k2
    requires v1 != [] && Last(v1) != '\n' && v2 != [] && Last(v2) != '\n' && Strip(v2) == v2
    ensures RenderParams(cfg, fuel, ctx, [Param(Plain(k1), Plain(v1), false), Param(Plain(k2), Plain(v2), showkey)])
            == Ok([(k1, v1), (k2, v2)])
  {
    PlainParam(cfg, fuel, ctx, k1, v1, false);
    PlainParam(cfg, fuel, ctx, k2, v2, showkey);
    TwoParams(cfg, fuel, ctx, Param(Plain(k1), Plain(v1), false), Param(Plain(k2), Plain(v2), showkey), (k1, v1), (k2, v2));
  }

  /** Two parameters render as their two pairs. */
  lemma TwoParams(cfg: Config, fuel: nat, ctx: Option<Params>, p1: Param, p2: Param, x1: (string, string), x2: (string, string))
    requires RenderParam(cfg, fuel, ctx, p1) == Ok(x1) && RenderParam(cfg, fuel, ctx, p2) == Ok(x2)
    ensures RenderParams(cfg, fuel, ctx, [p1, p2]) == Ok([x1, x2])
  {
    assert [p1, p2][1..] == [p2] && [p2][1..] == [];
    assert RenderParams(cfg, fuel, ctx, []) == Ok([]);
    assert [x2] + [] == [x2];
    assert RenderParams(cfg, fuel, ctx, [p2]) == Ok([x2]);
    assert [x1] + [x2] == [x1, x2];
  }

  /** `PlainParams` for names and values without surrounding whitespace. */
  lemma StrippedParams(cfg: Config, fuel: nat, ctx: Option<Params>, k1: string, v1: string, k2: string, v2: string, showkey: bool)
    requires k1 != [] && Last(k1) != '\n' && Stripped(k1)
    requires k2 != [] && Last(k2) != '\n' && Stripped(k2)
    requires v1 != [] && Last(v1) != '\n' && v2 != [] && Last(v2) != '\n' && Stripped(v2)
    ensures RenderParams(cfg, fuel, ctx, [Param(Plain(k1), Plain(v1), false), Param(Plain(k2), Plain(v2), showkey)])
            == Ok([(k1, v1), (k2, v2)])
  {
    PlainParams(cfg, fuel, ctx, k1, v1, k2, v2, showkey);
  }

  /** Two pairs with different keys build the dictionary of those pairs. */
  lemma TwoPairs(k1: string, v1: string, k2: string, v2: string)
    requires k1 != k2
    ensures FromPairs([(k1, v1), (k2, v2)]) == [(k1, v1), (k2, v2)]
  {
    FromPairsDistinctKeys([(k1, v1), (k2, v2)]);
  }

  /** An `#invoke` whose function is found writes what the function returns
      for the renumbered parameters after the first. */
  lemma InvokeWrites(cfg: Config, fuel: nat, ctx: Option<Params>, n: Node, st: State, name: string,
                     pairs: seq<(string, string)>, first: (string, string), rest: Params, f: ModuleFunction)
    requires n.Template? && Fresh(cfg, fuel, ctx, n.name) == Ok(name)
    requires StartsWith(Strip(name), "#invoke:")
    requires RenderParams(cfg, fuel, ctx, n.params) == Ok(pairs)
    requires FromPairs(pairs) == [first] + rest
    requires GetFunction(cfg.modules, InvokedModule(Strip(name)), first.1) == Ok(f)
    ensures Render(cfg, fuel, ctx, n, st) == Ok(Write(st, Call(f, Renumber(rest))))
  {
    var context := FromPairs(pairs);
    assert PopFirst(context) == Some((first, rest));
    assert RenderTemplate(cfg, fuel, ctx, n, st) == Ok(Write(st, Call(f, Renumber(rest))));
    RenderIsTemplate(cfg, fuel, ctx, n, st);
  }

  lemma RenderIsTemplate(cfg: Config, fuel: nat, ctx: Option<Params>, n: Node, st: State)
    requires n.Template?
    ensures Render(cfg, fuel, ctx, n, st) == RenderTemplate(cfg, fuel, ctx, n, st)
  {
  }

  /** The template name renders as `#invoke:String`, which reaches
      `String.len` by the function name `len`. */
  lemma NameRenders(cfg: Config, fuel: nat)
    requires cfg.modules == Installed
    ensures Fresh(cfg, fuel, None, Plain(Name)) == Ok(Name)
    ensures StartsWith(Strip(Name), "#invoke:")
    ensures GetFunction(cfg.modules, InvokedModule(Strip(Name)), "len") == Ok(StringLen)
  {
    assert Last(Name) == 'g';
    FreshPlain(cfg, fuel, None, Name);
    NameStripped();
    NamePrefix();
    InstalledLen("len");
  }

  /** An `#invoke` of `String.len` whose parameters build `context` writes
      what `len` returns for the renumbered rest of them. */
  lemma InvokeString(cfg: Config, fuel: nat, params: seq<Param>, pairs: seq<(string, string)>, rest: Params)
    requires cfg.modules == Installed
    requires RenderParams(cfg, fuel, None, params) == Ok(pairs)
    requires pairs != []
    requires FromPairs(pairs) == [(pairs[0].0, "len")] + rest
    ensures Compose(cfg, fuel, None, Template(Plain(Name), params, Src)) == Ok(Len(Renumber(rest)))
  {
    var call := Template(Plain(Name), params, Src);
    NameRenders(cfg, fuel);
    InvokeWrites(cfg, fuel, None, call, Initial, Name, pairs, (pairs[0].0, "len"), rest, StringLen);
    ComposeWritten(cfg, fuel, call, Call(StringLen, Renumber(rest)));
  }

  /** A node that only writes `s` composes to `s`. */
  lemma ComposeWritten(cfg: Config, fuel: nat, n: Node, s: string)
    requires Render(cfg, fuel, None, n, Initial) == Ok(Write(Initial, s))
    ensures Compose(cfg, fuel, None, n) == Ok(s)
  {
    assert "" + s + Closers([]) == s;
  }

  /** The parameters `|len|target_string`. */
  function PositionalArgs(): seq<Param> {
    [Param(Plain("1"), Plain("len"), false), Param(Plain("2"), Plain("target_string"), false)]
  }

  /** The parameters `|len|s=target_string`. */
  function NamedArgs(): seq<Param> {
    [Param(Plain("1"), Plain("len"), false), Param(Plain("s"), Plain("target_string"), true)]
  }

  lemma PositionalPairs(cfg: Config, fuel: nat)
    ensures RenderParams(cfg, fuel, None, PositionalArgs()) == Ok([("1", "len"), ("2", "target_string")])
    ensures FromPairs([("1", "len"), ("2", "target_string")]) == [("1", "len")] + [("2", "target_string")]
  {
    KeyCharsNotSpace();
    assert 't' !in Whitespace && 'g' !in Whitespace && 'l' !in Whitespace;
    assert Stripped("1") && Stripped("2") && Stripped("target_string");
    StrippedParams(cfg, fuel, None, "1", "len", "2", "target_string", false);
    TwoPairs("1", "len", "2", "target_string");
  }

  lemma NamedPairs(cfg: Config, fuel: nat)
    ensures RenderParams(cfg, fuel, None, NamedArgs()) == Ok([("1", "len"), ("s", "target_string")])
    ensures FromPairs([("1", "len"), ("s", "target_string")]) == [("1", "len")] + [("s", "target_string")]
  {
    KeyCharsNotSpace();
    assert 't' !in Whitespace && 'g' !in Whitespace && 'l' !in Whitespace;
    assert Stripped("1") && Stripped("s") && Stripped("target_string");
    StrippedParams(cfg, fuel, None, "1", "len", "s", "target_string", true);
    TwoPairs("1", "len", "s", "target_string");
  }

  /** `{{#invoke:String|len|target_string}}` composes to `13`. */
  lemma InvokeLenPositional(baseUrl: string, store: map<string, Node>, quote: string -> string, fuel: nat)
    ensures Compose(ModuleConfig(baseUrl, store, quote), fuel, None, Template(Plain(Name), PositionalArgs(), Src)) == Ok("13")
  {
    var cfg := ModuleConfig(baseUrl, store, quote);
    PositionalPairs(cfg, fuel);
    InvokeString(cfg, fuel, PositionalArgs(), [("1", "len"), ("2", "target_string")], [("2", "target_string")]);
    RenumberTwo();
    LenFacts();
  }

  /** `{{#invoke:String|len|s=target_string}}` composes to `13`. */
  lemma InvokeLenNamed(baseUrl: string, store: map<string, Node>, quote: string -> string, fuel: nat)
    ensures Compose(ModuleConfig(baseUrl, store, quote), fuel, None, Template(Plain(Name), NamedArgs(), Src)) == Ok("13")
  {
    var cfg := ModuleConfig(baseUrl, store, quote);
    NamedPairs(cfg, fuel);
    InvokeString(cfg, fuel, NamedArgs(), [("1", "len"), ("s", "target_string")], [("s", "target_string")]);
    RenumberS();
    LenFacts();
  }
}
