/** What each visitor of `WikicodeToHtmlComposer` writes, case by case: the
    tags it opens and closes, the parameters a template call collects, and
    which of the fallbacks a transclusion, an `#invoke` or an argument takes. */
module VisitorFacts {
  import opened Outcomes
  import opened Strings
  import opened Params
  import opened Nodes
  import opened Templates
  import opened Modules
  import opened Rendering

  /** The output of a new composer written at the end of `st`, or its
      error. */
  function Written(st: State, r: Result<string, Error>): Result<State, Error> {
    if r.Ok? then Ok(Write(st, r.value)) else Err(r.error)
  }

  /** The source text of nodes, in order. */
  function Sources(ns: seq<Node>): string {
    if ns == [] then "" else Str(ns[0]) + Sources(ns[1..])
  }

  predicate AllAttributes(ns: seq<Node>) {
    forall i :: 0 <= i < |ns| ==> ns[i].Attribute?
  }

  /** A tag that is not a list marker. */
  predicate PlainTag(n: Node) {
    n.Tag? && !(n.markup.Some? && ListPair(n.markup.value).Some?)
  }

  /** A text node with no list queued and no trailing newline is written as
      it is and changes nothing else. */
  lemma TextWrites(cfg: Config, fuel: nat, ctx: Option<Params>, t: string, st: State)
    requires st.pending == [] && (t == [] || Last(t) != '\n')
    ensures Render(cfg, fuel, ctx, Text(t), st) == Ok(Write(st, t))
  {
    assert TrailingNewlines(t) == 0;
  }

  /** A new composer renders a text node as its text, trailing newlines
      included: there is no open tag for them to close. */
  lemma FreshText(cfg: Config, fuel: nat, ctx: Option<Params>, t: string)
    ensures Fresh(cfg, fuel, ctx, Text(t)) == Ok(t)
  {
    assert Write(Initial, t).stack == [];
    assert CloseTrailing(Write(Initial, t), TrailingNewlines(t)) == Write(Initial, t);
    assert RenderText(Initial, t) == Write(Initial, t);
    assert Render(cfg, fuel, ctx, Text(t), Initial) == Ok(Write(Initial, t));
    assert Write(Initial, t).out == t;
  }

  /** `visit_Attribute` on each attribute: their source texts are written in
      order and nothing else changes. */
  lemma {:induction false} AttributesWrite(cfg: Config, fuel: nat, ctx: Option<Params>, attrs: seq<Node>, st: State)
    requires AllAttributes(attrs)
    ensures RenderSeq(cfg, fuel, ctx, attrs, st) == Ok(Write(st, Sources(attrs)))
    decreases |attrs|
  {
    if attrs != [] {
      var first := Write(st, attrs[0].src);
      assert attrs[0].Attribute? && Str(attrs[0]) == attrs[0].src;
      assert Render(cfg, fuel, ctx, attrs[0], st) == Ok(first);
      assert AllAttributes(attrs[1..]) by {
        forall i | 0 <= i < |attrs[1..]|
          ensures attrs[1..][i].Attribute?
        {
          assert attrs[1..][i] == attrs[i + 1];
        }
      }
      AttributesWrite(cfg, fuel, ctx, attrs[1..], first);
      assert first.out + Sources(attrs[1..]) == st.out + Sources(attrs);
    } else {
      assert Write(st, Sources(attrs)) == st;
    }
  }

  /** The state after the start tag of a tag whose name renders as `name`:
      `<name attrs>` written and the stripped name pushed. */
  function Opened(st: State, name: string, attrs: seq<Node>): State {
    State(st.out + "<" + Strip(name) + Sources(attrs) + ">", st.stack + [Strip(name)], st.pending)
  }

  /** The first half of `visit_Tag` for a tag that is not a list marker: the
      name, rendered by a new composer and stripped, is written with the
      attributes and pushed; an error rendering the name escapes. */
  lemma TagOpens(cfg: Config, fuel: nat, ctx: Option<Params>, n: Node, st: State)
    requires PlainTag(n) && AllAttributes(n.attrs)
    ensures Fresh(cfg, fuel, ctx, n.tag).Err? ==> OpenTag(cfg, fuel, ctx, n, st) == Err(Fresh(cfg, fuel, ctx, n.tag).error)
    ensures Fresh(cfg, fuel, ctx, n.tag).Ok? ==>
              OpenTag(cfg, fuel, ctx, n, st) == Ok(Opened(st, Fresh(cfg, fuel, ctx, n.tag).value, n.attrs))
  {
    if Fresh(cfg, fuel, ctx, n.tag).Ok? {
      var tag := Strip(Fresh(cfg, fuel, ctx, n.tag).value);
      AttributesWrite(cfg, fuel, ctx, n.attrs, Write(st, "<" + tag));
      OpenString(st.out, tag, Sources(n.attrs));
    }
  }

  lemma OpenString(o: string, t: string, a: string)
    ensures o + ("<" + t) + a + ">" == o + "<" + t + a + ">"
  {
  }

  /** The last `tag` on a stack that has none above position `|below|`
      is there. */
  lemma {:induction false} CloseIndexAbove(below: seq<string>, tag: string, extra: seq<string>)
    requires tag !in extra
    ensures CloseIndex(below + [tag] + extra, tag) == |below|
    decreases |extra|
  {
    var s := below + [tag] + extra;
    if extra != [] {
      assert Last(s) == Last(extra);
      assert DropLast(s) == below + [tag] + DropLast(extra);
      CloseIndexAbove(below, tag, DropLast(extra));
    }
  }

  /** `_close_stack(tag)` on a stack whose last `tag` is at `|below|`: the
      tag and everything opened after it are closed, innermost first. */
  lemma CloseAbove(st: State, below: seq<string>, tag: string, extra: seq<string>)
    requires st.stack == below + [tag] + extra && tag !in extra
    ensures CloseTo(st, tag) == st.(out := st.out + Closers([tag] + extra), stack := below)
  {
    var top := [tag] + extra;
    assert st.stack == below + top;
    CloseIndexAbove(below, tag, extra);
    assert st.stack[|below|..] == top;
    assert st.stack[..|below|] == below;
    CloseToSpec(st, tag);
  }

  /** `visit_Tag` on a tag that does not close itself and whose rendered name
      is its source name: once the contents are rendered (into `inner`, which
      keeps the tag open with `extra` opened above it), the tag and whatever
      the contents left open are closed, and the stack is back to where it
      was. */
  lemma TagBalanced(cfg: Config, fuel: nat, ctx: Option<Params>, n: Node, st: State, name: string,
                    inner: State, extra: seq<string>)
    requires PlainTag(n) && AllAttributes(n.attrs) && !n.selfClosing
    requires Fresh(cfg, fuel, ctx, n.tag) == Ok(name) && Strip(name) == Str(n.tag)
    requires (if Truthy(n.contents) then Render(cfg, fuel, ctx, n.contents.value, Opened(st, name, n.attrs))
              else Ok(Opened(st, name, n.attrs))) == Ok(inner)
    requires inner.stack == st.stack + [Strip(name)] + extra && Strip(name) !in extra
    ensures RenderTag(cfg, fuel, ctx, n, st) == Ok(inner.(out := inner.out + Closers([Strip(name)] + extra), stack := st.stack))
  {
    TagOpens(cfg, fuel, ctx, n, st);
    CloseAbove(inner, st.stack, Strip(name), extra);
  }

  /** `visit_Tag` on a self-closing tag without contents: the start tag is
      written and the tag stays on the stack. */
  lemma TagSelfClosing(cfg: Config, fuel: nat, ctx: Option<Params>, n: Node, st: State, name: string)
    requires PlainTag(n) && AllAttributes(n.attrs) && n.selfClosing && !Truthy(n.contents)
    requires Fresh(cfg, fuel, ctx, n.tag) == Ok(name)
    ensures RenderTag(cfg, fuel, ctx, n, st) == Ok(Opened(st, name, n.attrs))
  {
    TagOpens(cfg, fuel, ctx, n, st);
  }

  /** Plain text contents without a trailing newline, rendered after a start
      tag, are written as they are. */
  lemma TextContents(cfg: Config, fuel: nat, ctx: Option<Params>, c: string, started: State)
    requires started.pending == [] && (c == [] || Last(c) != '\n')
    ensures (if Truthy(Some(Text(c))) then Render(cfg, fuel, ctx, Text(c), started) else Ok(started))
              == Ok(Write(started, c))
  {
    assert Str(Text(c)) == c;
    if c != [] {
      TextWrites(cfg, fuel, ctx, c, started);
    } else {
      assert Write(started, c) == started;
    }
  }

  /** `<t attrs>c</t>` for a tag named by plain text `t` around plain text
      `c`: both are written as they are and the stack ends as it began. */
  lemma TagAroundText(cfg: Config, fuel: nat, ctx: Option<Params>, t: string, attrs: seq<Node>, c: string,
                      src: string, st: State)
    requires t != [] && Stripped(t) && AllAttributes(attrs)
    requires st.pending == [] && (c == [] || Last(c) != '\n')
    ensures Render(cfg, fuel, ctx, Tag(None, Text(t), attrs, Some(Text(c)), false, src), st)
              == Ok(Write(st, "<" + t + Sources(attrs) + ">" + c + "</" + t + ">"))
  {
    var n := Tag(None, Text(t), attrs, Some(Text(c)), false, src);
    FreshText(cfg, fuel, ctx, t);
    var started := Opened(st, t, attrs);
    TextContents(cfg, fuel, ctx, c, started);
    var inner := Write(started, c);
    assert inner == State(st.out + "<" + t + Sources(attrs) + ">" + c, st.stack + [t], st.pending);
    assert inner.stack == st.stack + [Strip(t)] + [];
    TagBalanced(cfg, fuel, ctx, n, st, t, inner, []);
    ClosedAround(st, t, Sources(attrs), c);
    RenderIsTag(cfg, fuel, ctx, n, st);
  }

  lemma RenderIsTag(cfg: Config, fuel: nat, ctx: Option<Params>, n: Node, st: State)
    requires n.Tag?
    ensures Render(cfg, fuel, ctx, n, st) == RenderTag(cfg, fuel, ctx, n, st)
  {
  }

  /** The state after `<t a>c` with `t` open, once `t` is closed. */
  lemma ClosedAround(st: State, t: string, a: string, c: string)
    ensures var inner := State(st.out + "<" + t + a + ">" + c, st.stack + [t], st.pending);
            inner.(out := inner.out + Closers([t]), stack := st.stack) == Write(st, "<" + t + a + ">" + c + "</" + t + ">")
  {
    assert Closers([t]) == "</" + t + ">" by {
      assert DropLast([t]) == [];
    }
    AppendTag(st.out, t, a, c);
  }

  /** A composition of `<t attrs>c</t>` is exactly that markup. */
  lemma ComposeTagAroundText(cfg: Config, fuel: nat, ctx: Option<Params>, t: string, attrs: seq<Node>, c: string, src: string)
    requires t != [] && Stripped(t) && AllAttributes(attrs) && (c == [] || Last(c) != '\n')
    ensures Compose(cfg, fuel, ctx, Tag(None, Text(t), attrs, Some(Text(c)), false, src))
              == Ok("<" + t + Sources(attrs) + ">" + c + "</" + t + ">")
  {
    TagAroundText(cfg, fuel, ctx, t, attrs, c, src, Initial);
    assert "" + ("<" + t + Sources(attrs) + ">" + c + "</" + t + ">") == "<" + t + Sources(attrs) + ">" + c + "</" + t + ">";
  }

  /** A self-closing tag is left open by `visit_Tag`, so a composition of
      `<t attrs/>` still ends it: `<t attrs></t>`. */
  lemma ComposeSelfClosing(cfg: Config, fuel: nat, ctx: Option<Params>, t: string, attrs: seq<Node>, src: string)
    requires Stripped(t) && AllAttributes(attrs)
    ensures Compose(cfg, fuel, ctx, Tag(None, Text(t), attrs, None, true, src))
              == Ok("<" + t + Sources(attrs) + ">" + "</" + t + ">")
  {
    var n := Tag(None, Text(t), attrs, None, true, src);
    var done := Opened(Initial, t, attrs);
    SelfClosingRenders(cfg, fuel, ctx, t, attrs, src);
    ComposeOf(cfg, fuel, ctx, n, done);
    var a := Sources(attrs);
    assert done.stack == [t] && done.out == "" + "<" + t + a + ">";
    assert Closers([t]) == "</" + t + ">" by {
      assert DropLast([t]) == [];
    }
    assert "" + "<" + t + a + ">" == "<" + t + a + ">";
    assert ("<" + t + a + ">") + ("</" + t + ">") == "<" + t + a + ">" + "</" + t + ">";
  }

  lemma SelfClosingRenders(cfg: Config, fuel: nat, ctx: Option<Params>, t: string, attrs: seq<Node>, src: string)
    requires Stripped(t) && AllAttributes(attrs)
    ensures Render(cfg, fuel, ctx, Tag(None, Text(t), attrs, None, true, src), Initial) == Ok(Opened(Initial, t, attrs))
  {
    var n := Tag(None, Text(t), attrs, None, true, src);
    FreshText(cfg, fuel, ctx, t);
    TagSelfClosing(cfg, fuel, ctx, n, Initial, t);
    assert Render(cfg, fuel, ctx, n, Initial) == RenderTag(cfg, fuel, ctx, n, Initial);
  }

  /** `compose` closes what the visit left open. */
  lemma ComposeOf(cfg: Config, fuel: nat, ctx: Option<Params>, n: Node, done: State)
    requires Render(cfg, fuel, ctx, n, Initial) == Ok(done)
    ensures Compose(cfg, fuel, ctx, n) == Ok(done.out + Closers(done.stack))
  {
  }

  lemma AppendTag(o: string, t: string, a: string, c: string)
    ensures o + "<" + t + a + ">" + c + ("</" + t + ">") == o + ("<" + t + a + ">" + c + "</" + t + ">")
  {
  }

  /** The pairs of a template call, one per parameter in order, all
      rendered by new composers in the caller's context: the name stripped,
      the value stripped exactly when the name was written out. The first
      parameter whose name or value fails decides the error. */
  lemma RenderParamsEach(cfg: Config, fuel: nat, ctx: Option<Params>, ps: seq<Param>)
    ensures var r := RenderParams(cfg, fuel, ctx, ps);
            r.Ok? <==> forall i :: 0 <= i < |ps| ==> Fresh(cfg, fuel, ctx, ps[i].name).Ok? && Fresh(cfg, fuel, ctx, ps[i].value).Ok?
    ensures var r := RenderParams(cfg, fuel, ctx, ps);
            r.Ok? ==> forall i :: 0 <= i < |ps| ==>
              var v := Fresh(cfg, fuel, ctx, ps[i].value).value;
              r.value[i] == (Strip(Fresh(cfg, fuel, ctx, ps[i].name).value), if ps[i].showkey then Strip(v) else v)
    ensures var r := RenderParams(cfg, fuel, ctx, ps);
            r.Err? ==> exists i :: 0 <= i < |ps| && RenderParam(cfg, fuel, ctx, ps[i]).Err?
                                   && r.error == RenderParam(cfg, fuel, ctx, ps[i]).error
                                   && forall j :: 0 <= j < i ==> RenderParam(cfg, fuel, ctx, ps[j]).Ok?
  {
    ParamsOk(cfg, fuel, ctx, ps);
    ParamsValues(cfg, fuel, ctx, ps);
    ParamsFirstError(cfg, fuel, ctx, ps);
    forall i | 0 <= i < |ps| {
      ParamCases(cfg, fuel, ctx, ps[i]);
    }
  }

  lemma {:induction false} ParamsOk(cfg: Config, fuel: nat, ctx: Option<Params>, ps: seq<Param>)
    ensures RenderParams(cfg, fuel, ctx, ps).Ok? <==> forall i :: 0 <= i < |ps| ==> RenderParam(cfg, fuel, ctx, ps[i]).Ok?
    decreases |ps|
  {
    if ps != [] {
      ParamsOk(cfg, fuel, ctx, ps[1..]);
      ParamsStep(cfg, fuel, ctx, ps);
      forall i | 1 <= i < |ps|
        ensures ps[i] == ps[1..][i - 1]
      {
      }
    }
  }

  lemma {:induction false} ParamsValues(cfg: Config, fuel: nat, ctx: Option<Params>, ps: seq<Param>)
    ensures var r := RenderParams(cfg, fuel, ctx, ps);
            r.Ok? ==> forall i :: 0 <= i < |ps| ==> RenderParam(cfg, fuel, ctx, ps[i]) == Ok(r.value[i])
    decreases |ps|
  {
    if ps != [] {
      ParamsValues(cfg, fuel, ctx, ps[1..]);
      ParamsStep(cfg, fuel, ctx, ps);
      forall i | 1 <= i < |ps|
        ensures ps[i] == ps[1..][i - 1]
      {
      }
    }
  }

  lemma {:induction false} ParamsFirstError(cfg: Config, fuel: nat, ctx: Option<Params>, ps: seq<Param>)
    ensures var r := RenderParams(cfg, fuel, ctx, ps);
            r.Err? ==> exists i :: 0 <= i < |ps| && RenderParam(cfg, fuel, ctx, ps[i]).Err?
                                   && r.error == RenderParam(cfg, fuel, ctx, ps[i]).error
                                   && forall j :: 0 <= j < i ==> RenderParam(cfg, fuel, ctx, ps[j]).Ok?
    decreases |ps|
  {
    if ps != [] {
      ParamsFirstError(cfg, fuel, ctx, ps[1..]);
      ParamsStep(cfg, fuel, ctx, ps);
      var first := RenderParam(cfg, fuel, ctx, ps[0]);
      var rest := RenderParams(cfg, fuel, ctx, ps[1..]);
      if first.Ok? && rest.Err? {
        var k :| 0 <= k < |ps[1..]| && RenderParam(cfg, fuel, ctx, ps[1..][k]).Err?
                 && rest.error == RenderParam(cfg, fuel, ctx, ps[1..][k]).error
                 && forall j :: 0 <= j < k ==> RenderParam(cfg, fuel, ctx, ps[1..][j]).Ok?;
        forall j | 1 <= j < k + 1
          ensures RenderParam(cfg, fuel, ctx, ps[j]).Ok?
        {
          assert ps[j] == ps[1..][j - 1];
        }
        assert ps[k + 1] == ps[1..][k];
      }
    }
  }

  /** One parameter renders exactly when its name and its value do. */
  lemma ParamCases(cfg: Config, fuel: nat, ctx: Option<Params>, p: Param)
    ensures RenderParam(cfg, fuel, ctx, p).Ok? <==> Fresh(cfg, fuel, ctx, p.name).Ok? && Fresh(cfg, fuel, ctx, p.value).Ok?
    ensures RenderParam(cfg, fuel, ctx, p).Ok? ==>
              var v := Fresh(cfg, fuel, ctx, p.value).value;
              RenderParam(cfg, fuel, ctx, p).value == (Strip(Fresh(cfg, fuel, ctx, p.name).value), if p.showkey then Strip(v) else v)
  {
  }

  /** The parameters of a call render as the first, then the rest, the
      first error escaping. */
  lemma ParamsStep(cfg: Config, fuel: nat, ctx: Option<Params>, ps: seq<Param>)
    requires ps != []
    ensures var first := RenderParam(cfg, fuel, ctx, ps[0]);
            var rest := RenderParams(cfg, fuel, ctx, ps[1..]);
            RenderParams(cfg, fuel, ctx, ps) ==
              if first.Err? then Err(first.error)
              else if rest.Err? then Err(rest.error)
              else Ok([first.value] + rest.value)
  {
  }

  /** `visit_Template` up to the dispatch: an error rendering the name or a
      parameter escapes; otherwise the stripped name chooses between an
      `#invoke` and a transclusion, both given the parameters as a
      dictionary (a later duplicate name winning). */
  lemma TemplateDispatch(cfg: Config, fuel: nat, ctx: Option<Params>, n: Node, st: State)
    requires n.Template?
    ensures var rendered := Fresh(cfg, fuel, ctx, n.name);
            rendered.Err? ==> RenderTemplate(cfg, fuel, ctx, n, st) == Err(rendered.error)
    ensures var rendered := Fresh(cfg, fuel, ctx, n.name);
            var pairs := RenderParams(cfg, fuel, ctx, n.params);
            rendered.Ok? && pairs.Err? ==> RenderTemplate(cfg, fuel, ctx, n, st) == Err(pairs.error)
    ensures var rendered := Fresh(cfg, fuel, ctx, n.name);
            var pairs := RenderParams(cfg, fuel, ctx, n.params);
            rendered.Ok? && pairs.Ok? ==>
              var name := Strip(rendered.value);
              var context := FromPairs(pairs.value);
              RenderTemplate(cfg, fuel, ctx, n, st)
                == if StartsWith(name, "#invoke:") then RenderInvoke(cfg, name, context, n.src, st)
                   else RenderTransclusion(cfg, fuel, n, name, context, st)
  {
  }

  /** A transclusion: an empty name fails as `store[name]` does; a name the
      store does not hold writes the call's source text; a stored body is
      rendered by a new composer whose context is the call's parameters,
      its output written, unless the nesting is too deep. The name is found
      with its first character lower-cased. */
  lemma TransclusionCases(cfg: Config, fuel: nat, n: Node, name: string, context: Params, st: State)
    requires n.Template?
    ensures name == [] ==> RenderTransclusion(cfg, fuel, n, name, context, st) == Err(EmptyTemplateName)
    ensures name != [] && CleanName(name).value !in cfg.store ==>
              RenderTransclusion(cfg, fuel, n, name, context, st) == Ok(Write(st, n.src))
    ensures name != [] && CleanName(name).value in cfg.store && fuel == 0 ==>
              RenderTransclusion(cfg, fuel, n, name, context, st) == Err(RecursionLimit)
    ensures name != [] && CleanName(name).value in cfg.store && fuel > 0 ==>
              RenderTransclusion(cfg, fuel, n, name, context, st)
                == Written(st, Fresh(cfg, fuel - 1, Some(context), cfg.store[[Lower(name[0])] + name[1..]]))
  {
  }

  /** A template whose name (stripped) is stored and whose parameters
      render: its body is rendered with those parameters as the context. */
  lemma TemplateTranscludes(cfg: Config, fuel: nat, ctx: Option<Params>, n: Node, st: State,
                            rendered: string, pairs: seq<(string, string)>)
    requires n.Template? && fuel > 0
    requires Fresh(cfg, fuel, ctx, n.name) == Ok(rendered) && RenderParams(cfg, fuel, ctx, n.params) == Ok(pairs)
    requires Strip(rendered) != [] && !StartsWith(Strip(rendered), "#invoke:")
    requires CleanName(Strip(rendered)).value in cfg.store
    ensures Render(cfg, fuel, ctx, n, st)
              == Written(st, Fresh(cfg, fuel - 1, Some(FromPairs(pairs)), cfg.store[CleanName(Strip(rendered)).value]))
  {
    TemplateDispatch(cfg, fuel, ctx, n, st);
    TransclusionCases(cfg, fuel, n, Strip(rendered), FromPairs(pairs), st);
  }

  /** A template whose name (stripped, not empty, not an `#invoke`) is not
      stored writes its own source text. */
  lemma TemplateMissing(cfg: Config, fuel: nat, ctx: Option<Params>, n: Node, st: State,
                        rendered: string, pairs: seq<(string, string)>)
    requires n.Template?
    requires Fresh(cfg, fuel, ctx, n.name) == Ok(rendered) && RenderParams(cfg, fuel, ctx, n.params) == Ok(pairs)
    requires Strip(rendered) != [] && !StartsWith(Strip(rendered), "#invoke:")
    requires CleanName(Strip(rendered)).value !in cfg.store
    ensures Render(cfg, fuel, ctx, n, st) == Ok(Write(st, n.src))
  {
    TemplateDispatch(cfg, fuel, ctx, n, st);
    TransclusionCases(cfg, fuel, n, Strip(rendered), FromPairs(pairs), st);
  }

  /** `visit_Argument`: an error rendering the name escapes; outside a
      template the lookup fails; inside one the value under the stripped
      name is written, else its default rendered by a new composer in the
      same context, else the argument's own source text. */
  lemma ArgumentCases(cfg: Config, fuel: nat, ctx: Option<Params>, n: Node, st: State)
    requires n.Argument?
    ensures var rendered := Fresh(cfg, fuel, ctx, n.name);
            rendered.Err? ==> RenderArgument(cfg, fuel, ctx, n, st) == Err(rendered.error)
    ensures Fresh(cfg, fuel, ctx, n.name).Ok? && ctx.None? ==>
              RenderArgument(cfg, fuel, ctx, n, st) == Err(ArgumentOutsideTemplate)
    ensures var rendered := Fresh(cfg, fuel, ctx, n.name);
            rendered.Ok? && ctx.Some? && Strip(rendered.value) in Keys(ctx.value) ==>
              RenderArgument(cfg, fuel, ctx, n, st) == Ok(Write(st, Get(ctx.value, Strip(rendered.value)).value))
    ensures var rendered := Fresh(cfg, fuel, ctx, n.name);
            rendered.Ok? && ctx.Some? && Strip(rendered.value) !in Keys(ctx.value) && n.default.Some? ==>
              RenderArgument(cfg, fuel, ctx, n, st) == Written(st, Fresh(cfg, fuel, ctx, n.default.value))
    ensures var rendered := Fresh(cfg, fuel, ctx, n.name);
            rendered.Ok? && ctx.Some? && Strip(rendered.value) !in Keys(ctx.value) && n.default.None? ==>
              RenderArgument(cfg, fuel, ctx, n, st) == Ok(Write(st, n.src))
  {
  }

  /** `visit_Heading`: a title that only writes `x` gives `<hN>x</hN>`. */
  lemma HeadingWrites(cfg: Config, fuel: nat, ctx: Option<Params>, title: Node, level: nat, src: string,
                      st: State, x: string)
    requires Render(cfg, fuel, ctx, title, Write(st, "<h" + NatToDecimal(level) + ">"))
             == Ok(Write(Write(st, "<h" + NatToDecimal(level) + ">"), x))
    ensures Render(cfg, fuel, ctx, Heading(title, level, src), st)
              == Ok(Write(st, "<h" + NatToDecimal(level) + ">" + x + "</h" + NatToDecimal(level) + ">"))
  {
    var open := "<h" + NatToDecimal(level) + ">";
    var close := "</h" + NatToDecimal(level) + ">";
    assert Render(cfg, fuel, ctx, Heading(title, level, src), st) == Ok(Write(Write(Write(st, open), x), close));
    WriteThree(st, open, x, close);
    HeadingString(NatToDecimal(level), x);
  }

  lemma WriteThree(st: State, a: string, b: string, c: string)
    ensures Write(Write(Write(st, a), b), c) == Write(st, a + b + c)
  {
    assert st.out + a + b + c == st.out + (a + b + c);
  }

  lemma HeadingString(level: string, x: string)
    ensures ("<h" + level + ">") + x + ("</h" + level + ">") == "<h" + level + ">" + x + "</h" + level + ">"
  {
  }

  /** `== t ==` style headings: plain title text is written between the
      level's heading tags. */
  lemma HeadingText(cfg: Config, fuel: nat, ctx: Option<Params>, t: string, level: nat, src: string, st: State)
    requires st.pending == [] && (t == [] || Last(t) != '\n')
    ensures Render(cfg, fuel, ctx, Heading(Text(t), level, src), st)
              == Ok(Write(st, "<h" + NatToDecimal(level) + ">" + t + "</h" + NatToDecimal(level) + ">"))
  {
    TextWrites(cfg, fuel, ctx, t, Write(st, "<h" + NatToDecimal(level) + ">"));
    HeadingWrites(cfg, fuel, ctx, Text(t), level, src, st, t);
  }

  /** The start of a wiki link: the article URL of the title a new composer
      renders. */
  function LinkOpen(cfg: Config, title: string): string {
    "<a href=\"" + cfg.baseUrl + "/" + cfg.quote(title) + "\">"
  }

  /** `visit_Wikilink`: the URL is made from the title rendered by a new
      composer; the body is the text when it is not empty, else the title,
      rendered on this composer. */
  lemma WikilinkWrites(cfg: Config, fuel: nat, ctx: Option<Params>, n: Node, st: State, title: string, x: string)
    requires n.Wikilink? && Fresh(cfg, fuel, ctx, n.title) == Ok(title)
    requires var shown := if Truthy(n.text) then n.text.value else n.title;
             Render(cfg, fuel, ctx, shown, Write(st, LinkOpen(cfg, title))) == Ok(Write(Write(st, LinkOpen(cfg, title)), x))
    ensures Render(cfg, fuel, ctx, n, st) == Ok(Write(st, LinkOpen(cfg, title) + x + "</a>"))
  {
    var open := LinkOpen(cfg, title);
    assert open == "<a href=\"" + (cfg.baseUrl + "/" + cfg.quote(title)) + "\">";
    RenderIsWikilink(cfg, fuel, ctx, n, st);
    WriteThree(st, open, x, "</a>");
  }

  lemma RenderIsWikilink(cfg: Config, fuel: nat, ctx: Option<Params>, n: Node, st: State)
    requires n.Wikilink?
    ensures Render(cfg, fuel, ctx, n, st) == RenderWikilink(cfg, fuel, ctx, n, st)
  {
  }

  /** `[[t]]` links to the article `t` and shows `t`; `[[t|d]]`, with `d`
      not empty, shows `d`. */
  lemma WikilinkText(cfg: Config, fuel: nat, ctx: Option<Params>, t: string, d: string, src: string, st: State)
    requires st.pending == [] && (t == [] || Last(t) != '\n') && (d == [] || Last(d) != '\n')
    ensures Render(cfg, fuel, ctx, Wikilink(Text(t), None, src), st) == Ok(Write(st, LinkOpen(cfg, t) + t + "</a>"))
    ensures d != [] ==>
              Render(cfg, fuel, ctx, Wikilink(Text(t), Some(Text(d)), src), st) == Ok(Write(st, LinkOpen(cfg, t) + d + "</a>"))
  {
    FreshText(cfg, fuel, ctx, t);
    TextWrites(cfg, fuel, ctx, t, Write(st, LinkOpen(cfg, t)));
    WikilinkWrites(cfg, fuel, ctx, Wikilink(Text(t), None, src), st, t, t);
    if d != [] {
      TextWrites(cfg, fuel, ctx, d, Write(st, LinkOpen(cfg, t)));
      WikilinkWrites(cfg, fuel, ctx, Wikilink(Text(t), Some(Text(d)), src), st, t, d);
    }
  }

  /** `visit_ExternalLink`: the URL is rendered into the `href`, then the
      caption when it is not empty, else the URL again. */
  lemma ExternalLinkWrites(cfg: Config, fuel: nat, ctx: Option<Params>, n: Node, st: State, u: string, x: string)
    requires n.ExternalLink?
    requires Render(cfg, fuel, ctx, n.url, Write(st, "<a href=\"")) == Ok(Write(Write(st, "<a href=\""), u))
    requires var shown := if Truthy(n.caption) then n.caption.value else n.url;
             var s := Write(st, "<a href=\"" + u + "\">");
             Render(cfg, fuel, ctx, shown, s) == Ok(Write(s, x))
    ensures Render(cfg, fuel, ctx, n, st) == Ok(Write(st, "<a href=\"" + u + "\">" + x + "</a>"))
  {
    WriteThree(st, "<a href=\"", u, "\">");
    WriteThree(st, "<a href=\"" + u + "\">", x, "</a>");
  }


  /** `[u]` shows its URL; `[u c]`, with `c` not empty, shows `c`. */
  lemma ExternalLinkText(cfg: Config, fuel: nat, ctx: Option<Params>, u: string, c: string, src: string, st: State)
    requires st.pending == [] && (u == [] || Last(u) != '\n') && (c == [] || Last(c) != '\n')
    ensures Render(cfg, fuel, ctx, ExternalLink(Text(u), None, src), st)
              == Ok(Write(st, "<a href=\"" + u + "\">" + u + "</a>"))
    ensures c != [] ==>
              Render(cfg, fuel, ctx, ExternalLink(Text(u), Some(Text(c)), src), st)
                == Ok(Write(st, "<a href=\"" + u + "\">" + c + "</a>"))
  {
    TextWrites(cfg, fuel, ctx, u, Write(st, "<a href=\""));
    TextWrites(cfg, fuel, ctx, u, Write(st, "<a href=\"" + u + "\">"));
    ExternalLinkWrites(cfg, fuel, ctx, ExternalLink(Text(u), None, src), st, u, u);
    if c != [] {
      TextWrites(cfg, fuel, ctx, c, Write(st, "<a href=\"" + u + "\">"));
      ExternalLinkWrites(cfg, fuel, ctx, ExternalLink(Text(u), Some(Text(c)), src), st, u, c);
    }
  }
}
