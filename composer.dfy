/** `WikicodeToHtmlComposer` as a class: the output stream, the stack of open
    tags and the queued list markers are fields its methods update in
    place, and every method is proved to leave exactly the state (or raise
    exactly the error) that the functions of `Rendering` describe. */
module Composer {
  import opened Outcomes
  import opened Strings
  import opened Params
  import opened Nodes
  import opened Templates
  import opened Modules
  import opened Rendering
  import opened RenderFacts

  /** A procedure's outcome agrees with a rendering: it passes with the
      state `st` exactly when the rendering succeeds with `st`, and raises
      the rendering's error otherwise. */
  predicate Agrees(o: Outcome<Error>, r: Result<State, Error>, st: State) {
    match o
    case Pass => r == Ok(st)
    case Fail(e) => r == Err(e)
  }

  /** The pairs of a parameter list made into the call's `OrderedDict`. */
  function Built(r: Result<seq<(string, string)>, Error>): Result<Params, Error> {
    match r
    case Ok(pairs) => Ok(FromPairs(pairs))
    case Err(e) => Err(e)
  }

  /** The pairs already rendered followed by the rendering of the rest. */
  function Prepend(done: seq<(string, string)>, r: Result<seq<(string, string)>, Error>): Result<seq<(string, string)>, Error> {
    match r
    case Ok(rest) => Ok(done + rest)
    case Err(e) => Err(e)
  }

  /** What the constructor is given as `template_store`: nothing, a plain
      dictionary, or a store to share. */
  datatype TemplateSource =
    | NoTemplates
    | TemplateDict(dict: map<string, Node>)
    | ExistingStore(store: TemplateStore<Node>)

  lemma RStripIdempotent(s: string, cs: set<char>)
    ensures RStrip(RStrip(s, cs), cs) == RStrip(s, cs)
  {
  }

  /** The end tags of `[x] + t`: those of `t`, then that of `x`. */
  lemma {:induction false} ClosersCons(x: string, t: seq<string>)
    ensures Closers([x] + t) == Closers(t) + "</" + x + ">"
    decreases |t|
  {
    if t == [] {
      assert [x] + t == [x];
      assert DropLast([x]) == [];
    } else {
      assert Last([x] + t) == Last(t);
      assert DropLast([x] + t) == [x] + DropLast(t);
      ClosersCons(x, DropLast(t));
    }
  }

  /** An index where two sequences first differ, or where the shorter one
      ends, is their common prefix. */
  lemma CommonPrefixIs(a: seq<string>, b: seq<string>, i: nat)
    requires i <= |a| && i <= |b| && a[..i] == b[..i]
    requires i == |a| || i == |b| || a[i] != b[i]
    ensures CommonPrefix(a, b) == i
  {
    var j := CommonPrefix(a, b);
    PrefixPointwise(a, b, i);
    PrefixPointwise(a, b, j);
  }

  lemma PrefixPointwise(a: seq<string>, b: seq<string>, i: nat)
    requires i <= |a| && i <= |b| && a[..i] == b[..i]
    ensures forall k :: 0 <= k < i ==> a[k] == b[k]
  {
    forall k | 0 <= k < i
      ensures a[k] == b[k]
    {
      assert a[..i][k] == a[k] && b[..i][k] == b[k];
    }
  }

  /** Adding one pair to the dictionary built from `pairs`. */
  lemma FromPairsSnoc(pairs: seq<(string, string)>, x: (string, string))
    ensures FromPairs(pairs + [x]) == Put(FromPairs(pairs), x.0, x.1)
  {
    assert (pairs + [x])[..|pairs|] == pairs;
  }

  /** `RenderParams` of a non-empty list, unfolded once. */
  lemma RenderParamsCons(cfg: Config, fuel: nat, ctx: Option<Params>, ps: seq<Param>)
    requires ps != []
    ensures RenderParams(cfg, fuel, ctx, ps)
            == (var first := RenderParam(cfg, fuel, ctx, ps[0]);
                if first.Err? then Err(first.error)
                else var rest := RenderParams(cfg, fuel, ctx, ps[1..]);
                     if rest.Err? then Err(rest.error) else Ok([first.value] + rest.value))
  {
  }

  /** A parameter that fails to render fails the rest of the list. */
  lemma RenderParamsStepErr(cfg: Config, fuel: nat, ctx: Option<Params>, ps: seq<Param>, i: nat)
    requires i < |ps| && RenderParam(cfg, fuel, ctx, ps[i]).Err?
    ensures RenderParams(cfg, fuel, ctx, ps[i..]) == Err(RenderParam(cfg, fuel, ctx, ps[i]).error)
  {
    RenderParamsCons(cfg, fuel, ctx, ps[i..]);
    assert ps[i..][0] == ps[i];
  }

  /** A parameter that renders to `x` moves from the rest to the pairs done. */
  lemma RenderParamsStepOk(cfg: Config, fuel: nat, ctx: Option<Params>, ps: seq<Param>, i: nat,
                           done: seq<(string, string)>, x: (string, string))
    requires i < |ps| && RenderParam(cfg, fuel, ctx, ps[i]) == Ok(x)
    ensures Prepend(done, RenderParams(cfg, fuel, ctx, ps[i..])) == Prepend(done + [x], RenderParams(cfg, fuel, ctx, ps[i + 1..]))
  {
    RenderParamsCons(cfg, fuel, ctx, ps[i..]);
    assert ps[i..][0] == ps[i] && ps[i..][1..] == ps[i + 1..];
    var rest := RenderParams(cfg, fuel, ctx, ps[i + 1..]);
    if rest.Ok? {
      assert (done + [x]) + rest.value == done + ([x] + rest.value);
    }
  }

  lemma PrependNothing(r: Result<seq<(string, string)>, Error>)
    ensures Prepend([], r) == r
  {
    if r.Ok? {
      assert [] + r.value == r.value;
    }
  }

  /** Renumbering one more pair. */
  lemma RenumberKeysSnoc(pairs: seq<(string, string)>, i: nat)
    requires i < |pairs|
    ensures RenumberKeys(pairs[..i + 1]) == RenumberKeys(pairs[..i]) + [(RenumberKey(pairs[i].0), pairs[i].1)]
  {
    assert pairs[..i + 1][..i] == pairs[..i];
  }

  /** One more end tag, for the tag below the ones already closed. */
  lemma ClosersBelow(stack: seq<string>, k: nat)
    requires 0 < k <= |stack|
    ensures Closers(stack[k - 1..]) == Closers(stack[k..]) + "</" + stack[k - 1] + ">"
  {
    assert stack[k - 1..] == [stack[k - 1]] + stack[k..];
    ClosersCons(stack[k - 1], stack[k..]);
  }

  class HtmlComposer {
    /** The article root, without trailing slashes. */
    const baseUrl: string
    const templates: TemplateStore<Node>
    /** The URL quoting of a title. */
    const quote: string -> string
    /** The parameters of the template call being rendered, if any. */
    const context: Option<Params>
    /** What has been written to the stream. */
    var out: string
    var stack: seq<string>
    var pending: seq<(string, string)>

    function Current(): State
      reads this
    {
      State(out, stack, pending)
    }

    /** What this composer's renderings depend on. */
    function Setup(): Config
      reads templates
    {
      Config(baseUrl, templates.templates, Installed, quote)
    }

    predicate Valid() {
      RStrip(baseUrl, {'/'}) == baseUrl
    }

    /** `WikicodeToHtmlComposer(base_url, template_store=..., context=...)`
        writing to a new stream. */
    constructor (baseUrl: string, source: TemplateSource, quote: string -> string, context: Option<Params>)
      ensures this.baseUrl == RStrip(baseUrl, {'/'}) && this.quote == quote && this.context == context
      ensures source.NoTemplates? ==> fresh(templates) && templates.templates == map[]
      ensures source.TemplateDict? ==> fresh(templates) && templates.templates == source.dict
      ensures source.ExistingStore? ==> templates == source.store
      ensures Current() == Initial && Valid()
    {
      var store: TemplateStore<Node>;
      if source.NoTemplates? {
        store := new TemplateStore.Empty();
      } else if source.TemplateDict? {
        store := new TemplateStore(source.dict);
      } else {
        store := source.store;
      }
      RStripIdempotent(baseUrl, {'/'});
      this.baseUrl := RStrip(baseUrl, {'/'});
      templates := store;
      this.quote := quote;
      this.context := context;
      out := "";
      stack := [];
      pending := [];
    }

    /** `clone(context)`: a new composer sharing the root and the store. */
    method Clone(ctx: Option<Params>) returns (c: HtmlComposer)
      requires Valid()
      ensures fresh(c) && c.Valid() && c.Current() == Initial && c.context == ctx
      ensures c.baseUrl == baseUrl && c.templates == templates && c.quote == quote
    {
      c := new HtmlComposer(baseUrl, ExistingStore(templates), quote, ctx);
    }

    method Write(s: string)
      modifies this
      ensures Current() == Rendering.Write(old(Current()), s)
    {
      out := out + s;
    }

    /** `_close_stack(tag)`. */
    method CloseStack(tag: string)
      modifies this
      ensures Current() == CloseTo(old(Current()), tag)
    {
      while stack != []
        invariant CloseTo(Current(), tag) == CloseTo(old(Current()), tag)
        decreases |stack|
      {
        ghost var before := Current();
        var current := stack[|stack| - 1];
        stack := stack[..|stack| - 1];
        Write("</" + current + ">");
        if current == tag {
          assert CloseTo(before, tag) == Current();
          break;
        }
      }
    }

    /** A new composer's output for `n` (`clone`, `visit`, `getvalue`). */
    method RenderFresh(n: Node, fuel: nat, ctx: Option<Params>) returns (r: Result<string, Error>)
      requires Valid()
      ensures r == Fresh(Setup(), fuel, ctx, n)
      decreases fuel, n, 3, 0
    {
      var c := Clone(ctx);
      var o := c.Visit(n, fuel);
      if o.Fail? {
        return Err(o.error);
      }
      return Ok(c.out);
    }

    /** `visit(node)`. */
    method Visit(n: Node, fuel: nat) returns (o: Outcome<Error>)
      requires Valid()
      modifies this
      ensures Agrees(o, Render(Setup(), fuel, context, n, old(Current())), Current())
      decreases fuel, n, 2, 0
    {
      match n
      case Wikicode(ns) =>
        o := VisitNodes(ns, fuel);
      case Tag(_, _, _, _, _, _) =>
        o := VisitTag(n, fuel);
      case Heading(_, _, _) =>
        o := VisitHeading(n, fuel);
      case Wikilink(_, _, _) =>
        o := VisitWikilink(n, fuel);
      case ExternalLink(_, _, _) =>
        o := VisitExternalLink(n, fuel);
      case Comment(comment, _) =>
        Write("<!-- " + comment + " -->");
        o := Pass;
      case Text(value) =>
        VisitText(value);
        o := Pass;
      case HTMLEntity(src) =>
        Write(src);
        o := Pass;
      case Attribute(src) =>
        Write(src);
        o := Pass;
      case Template(_, _, _) =>
        o := VisitTemplate(n, fuel);
      case Argument(_, _, _) =>
        o := VisitArgument(n, fuel);
    }

    /** `visit_Wikicode`, and the loop over a tag's attributes: each node in
        turn, on this composer. */
    method VisitNodes(ns: seq<Node>, fuel: nat) returns (o: Outcome<Error>)
      requires Valid()
      modifies this
      ensures Agrees(o, RenderSeq(Setup(), fuel, context, ns, old(Current())), Current())
      decreases fuel, ns, 0, 0
    {
      var i := 0;
      while i < |ns|
        invariant 0 <= i <= |ns|
        invariant RenderSeq(Setup(), fuel, context, ns[i..], Current()) == RenderSeq(Setup(), fuel, context, ns, old(Current()))
      {
        assert ns[i..][0] == ns[i] && ns[i..][1..] == ns[i + 1..];
        o := Visit(ns[i], fuel);
        if o.Fail? {
          return;
        }
        i := i + 1;
      }
      assert ns[i..] == [];
      return Pass;
    }

    /** The opening half of `visit_Tag`. */
    method StartTag(n: Node, fuel: nat) returns (o: Outcome<Error>)
      requires Valid() && n.Tag?
      modifies this
      ensures Agrees(o, OpenTag(Setup(), fuel, context, n, old(Current())), Current())
      decreases fuel, n, 1, 0
    {
      if n.markup.Some? && ListPair(n.markup.value).Some? {
        var pair := ListPair(n.markup.value).value;
        pending := pending + [pair];
        if n.markup.value == "*" || n.markup.value == "#" {
          if "dl" in stack {
            CloseStack("dl");
          }
        } else {
          if "ol" in stack {
            CloseStack("ol");
          }
          if "ul" in stack {
            CloseStack("ul");
          }
        }
        return Pass;
      }
      var name := RenderFresh(n.tag, fuel, context);
      if name.Err? {
        return Fail(name.error);
      }
      var tag := Strip(name.value);
      Write("<" + tag);
      o := VisitNodes(n.attrs, fuel);
      if o.Fail? {
        return;
      }
      Write(">");
      stack := stack + [tag];
    }

    /** `visit_Tag`. */
    method VisitTag(n: Node, fuel: nat) returns (o: Outcome<Error>)
      requires Valid() && n.Tag?
      modifies this
      ensures Agrees(o, RenderTag(Setup(), fuel, context, n, old(Current())), Current())
      decreases fuel, n, 1, 1
    {
      o := StartTag(n, fuel);
      if o.Fail? {
        return;
      }
      if Truthy(n.contents) {
        o := Visit(n.contents.value, fuel);
        if o.Fail? {
          return;
        }
      }
      if !n.selfClosing {
        CloseStack(Str(n.tag));
      }
    }

    /** `visit_Heading`. */
    method VisitHeading(n: Node, fuel: nat) returns (o: Outcome<Error>)
      requires Valid() && n.Heading?
      modifies this
      ensures Agrees(o, Render(Setup(), fuel, context, n, old(Current())), Current())
      decreases fuel, n, 1, 0
    {
      Write("<h" + NatToDecimal(n.level) + ">");
      o := Visit(n.title, fuel);
      if o.Fail? {
        return;
      }
      Write("</h" + NatToDecimal(n.level) + ">");
    }

    /** `visit_Wikilink`. */
    method VisitWikilink(n: Node, fuel: nat) returns (o: Outcome<Error>)
      requires Valid() && n.Wikilink?
      modifies this
      ensures Agrees(o, RenderWikilink(Setup(), fuel, context, n, old(Current())), Current())
      decreases fuel, n, 1, 0
    {
      var title := RenderFresh(n.title, fuel, context);
      if title.Err? {
        return Fail(title.error);
      }
      var url := baseUrl + "/" + quote(title.value);
      Write("<a href=\"" + url + "\">");
      if Truthy(n.text) {
        o := Visit(n.text.value, fuel);
      } else {
        o := Visit(n.title, fuel);
      }
      if o.Fail? {
        return;
      }
      Write("</a>");
    }

    /** `visit_ExternalLink`. */
    method VisitExternalLink(n: Node, fuel: nat) returns (o: Outcome<Error>)
      requires Valid() && n.ExternalLink?
      modifies this
      ensures Agrees(o, Render(Setup(), fuel, context, n, old(Current())), Current())
      decreases fuel, n, 1, 0
    {
      Write("<a href=\"");
      o := Visit(n.url, fuel);
      if o.Fail? {
        return;
      }
      Write("\">");
      if Truthy(n.caption) {
        o := Visit(n.caption.value, fuel);
      } else {
        o := Visit(n.url, fuel);
      }
      if o.Fail? {
        return;
      }
      Write("</a>");
    }

    /** The first loop of the list flush: how many of the open lists
        match the queued ones, from the outermost. */
    static method MatchingLists(stackLists: seq<string>, pending: seq<(string, string)>) returns (i: nat)
      ensures i == CommonPrefix(stackLists, ListTagsOfPending(pending))
    {
      ghost var pendingLists := ListTagsOfPending(pending);
      var shortest := if |stackLists| < |pending| then |stackLists| else |pending|;
      i := 0;
      while i < shortest && stackLists[i] == pending[i].0
        invariant 0 <= i <= shortest
        invariant stackLists[..i] == pendingLists[..i]
      {
        assert stackLists[..i + 1] == stackLists[..i] + [stackLists[i]];
        assert pendingLists[..i + 1] == pendingLists[..i] + [pendingLists[i]];
        i := i + 1;
      }
      CommonPrefixIs(stackLists, pendingLists, i);
    }

    /** `_close_stack` for each tag in turn. */
    method CloseLists(tags: seq<string>)
      modifies this
      ensures Current() == CloseEach(old(Current()), tags)
    {
      var j := 0;
      while j < |tags|
        invariant 0 <= j <= |tags|
        invariant CloseEach(Current(), tags[j..]) == CloseEach(old(Current()), tags)
      {
        assert tags[j..][0] == tags[j] && tags[j..][1..] == tags[j + 1..];
        CloseStack(tags[j]);
        j := j + 1;
      }
      assert tags[j..] == [];
    }

    /** Push and open each list tag in turn. */
    method ReopenLists(tags: seq<string>)
      modifies this
      ensures Current() == OpenLists(old(Current()), tags)
    {
      var j := 0;
      while j < |tags|
        invariant 0 <= j <= |tags|
        invariant OpenLists(Current(), tags[j..]) == OpenLists(old(Current()), tags)
      {
        assert tags[j..][0] == tags[j] && tags[j..][1..] == tags[j + 1..];
        stack := stack + [tags[j]];
        Write("<" + tags[j] + ">");
        j := j + 1;
      }
      assert tags[j..] == [];
    }

    /** The list flush at the start of `visit_Text`. */
    method FlushLists()
      requires pending != []
      modifies this
      ensures Current() == Flush(old(Current()))
    {
      var stackLists := ListTagsOf(stack);
      var i := MatchingLists(stackLists, pending);
      CloseLists(Reverse(stackLists[i..]));
      ReopenLists(ListTagsOfPending(pending)[i..]);
      var item := pending[|pending| - 1].1;
      Write("<" + item + ">");
      stack := stack + [item];
      pending := [];
    }

    /** `visit_Text`. */
    method VisitText(value: string)
      modifies this
      ensures Current() == RenderText(old(Current()), value)
    {
      if pending != [] {
        FlushLists();
      }
      Write(value);
      var count := |value| - |RStrip(value, {'\n'})|;
      ghost var written := Current();
      var k := 0;
      while k < count
        invariant 0 <= k <= count
        invariant CloseTrailing(Current(), count - k) == CloseTrailing(written, count)
      {
        if stack == [] {
          break;
        }
        if stack[|stack| - 1] in ClosedByNewline {
          CloseStack(stack[|stack| - 1]);
        }
        k := k + 1;
      }
    }

    /** One parameter of a template call: its name and value, each rendered
        by a new composer. */
    method VisitParam(p: Param, fuel: nat) returns (r: Result<(string, string), Error>)
      requires Valid()
      ensures r == RenderParam(Setup(), fuel, context, p)
      decreases fuel, p, 1, 0
    {
      var name := RenderFresh(p.name, fuel, context);
      if name.Err? {
        return Err(name.error);
      }
      var value := RenderFresh(p.value, fuel, context);
      if value.Err? {
        return Err(value.error);
      }
      var v := value.value;
      if p.showkey {
        v := Strip(v);
      }
      return Ok((Strip(name.value), v));
    }

    /** The parameter loop of `visit_Template`: the rendered pairs stored
        in order into a new `OrderedDict`. */
    method CollectParams(ps: seq<Param>, fuel: nat) returns (r: Result<Params, Error>)
      requires Valid()
      ensures r == Built(RenderParams(Setup(), fuel, context, ps))
      decreases fuel, ps, 0, 0
    {
      var dict: Params := [];
      ghost var pairs: seq<(string, string)> := [];
      var i := 0;
      assert ps[i..] == ps;
      PrependNothing(RenderParams(Setup(), fuel, context, ps));
      while i < |ps|
        invariant 0 <= i <= |ps| && dict == FromPairs(pairs)
        invariant RenderParams(Setup(), fuel, context, ps) == Prepend(pairs, RenderParams(Setup(), fuel, context, ps[i..]))
      {
        var p := VisitParam(ps[i], fuel);
        if p.Err? {
          RenderParamsStepErr(Setup(), fuel, context, ps, i);
          return Err(p.error);
        }
        RenderParamsStepOk(Setup(), fuel, context, ps, i, pairs, p.value);
        FromPairsSnoc(pairs, p.value);
        dict := Put(dict, p.value.0, p.value.1);
        pairs := pairs + [p.value];
        i := i + 1;
      }
      assert ps[i..] == [] && pairs + [] == pairs;
      return Ok(dict);
    }

    /** The renumbering loop of the `#invoke` branch. */
    method RenumberParams(context: Params) returns (renumbered: Params)
      ensures renumbered == Renumber(context)
    {
      renumbered := [];
      var i := 0;
      while i < |context|
        invariant 0 <= i <= |context|
        invariant renumbered == FromPairs(RenumberKeys(context[..i]))
      {
        var key := RenumberKey(context[i].0);
        RenumberKeysSnoc(context, i);
        FromPairsSnoc(RenumberKeys(context[..i]), (key, context[i].1));
        renumbered := Put(renumbered, key, context[i].1);
        i := i + 1;
      }
      assert context[..i] == context;
    }

    /** The `#invoke:` branch of `visit_Template`. */
    method VisitInvoke(name: string, dict: Params, src: string) returns (o: Outcome<Error>)
      requires StartsWith(name, "#invoke:")
      modifies this
      ensures Agrees(o, RenderInvoke(Setup(), name, dict, src, old(Current())), Current())
    {
      var moduleName := name[8..];
      var popped := PopFirst(dict);
      if popped.None? {
        return Fail(InvokeWithoutFunction);
      }
      var functionName := popped.value.0.1;
      var found := GetFunction(Installed, moduleName, functionName);
      if found.Err? {
        if found.error == EmptyModuleName {
          return Fail(NoModuleName);
        }
        Write(src);
        return Pass;
      }
      var functionContext := RenumberParams(popped.value.1);
      Write(Call(found.value, functionContext));
      return Pass;
    }

    /** `visit_Template`. */
    method VisitTemplate(n: Node, fuel: nat) returns (o: Outcome<Error>)
      requires Valid() && n.Template?
      modifies this
      ensures Agrees(o, RenderTemplate(Setup(), fuel, context, n, old(Current())), Current())
      decreases fuel, n, 1, 0
    {
      var rendered := RenderFresh(n.name, fuel, context);
      if rendered.Err? {
        return Fail(rendered.error);
      }
      var name := Strip(rendered.value);
      var params := CollectParams(n.params, fuel);
      if params.Err? {
        return Fail(params.error);
      }
      var dict := params.value;
      if StartsWith(name, "#invoke:") {
        o := VisitInvoke(name, dict, n.src);
        return;
      }
      o := VisitTransclusion(n, name, dict, fuel);
    }

    /** The branch of `visit_Template` that renders a stored template. */
    method VisitTransclusion(n: Node, name: string, dict: Params, fuel: nat) returns (o: Outcome<Error>)
      requires Valid() && n.Template?
      modifies this
      ensures Agrees(o, RenderTransclusion(Setup(), fuel, n, name, dict, old(Current())), Current())
      decreases fuel, n, 0, 1
    {
      var template := templates.Get(name);
      if template.Err? {
        if template.error == EmptyName {
          return Fail(EmptyTemplateName);
        }
        Write(n.src);
        return Pass;
      }
      if fuel == 0 {
        return Fail(RecursionLimit);
      }
      var body := RenderFresh(template.value, fuel - 1, Some(dict));
      if body.Err? {
        return Fail(body.error);
      }
      Write(body.value);
      return Pass;
    }

    /** `visit_Argument`. */
    method VisitArgument(n: Node, fuel: nat) returns (o: Outcome<Error>)
      requires Valid() && n.Argument?
      modifies this
      ensures Agrees(o, RenderArgument(Setup(), fuel, context, n, old(Current())), Current())
      decreases fuel, n, 1, 0
    {
      var rendered := RenderFresh(n.name, fuel, context);
      if rendered.Err? {
        return Fail(rendered.error);
      }
      var name := Strip(rendered.value);
      if context.None? {
        return Fail(ArgumentOutsideTemplate);
      }
      var value := Get(context.value, name);
      if value.Some? {
        Write(value.value);
        return Pass;
      }
      if n.default.Some? {
        var shown := RenderFresh(n.default.value, fuel, context);
        if shown.Err? {
          return Fail(shown.error);
        }
        Write(shown.value);
        return Pass;
      }
      Write(n.src);
      return Pass;
    }

    /** `compose(node)`: visit, then write an end tag for every tag still
        open, innermost first, leaving the stack as it is. On a new
        composer the output is `Rendering.Compose`. */
    method Compose(n: Node, fuel: nat) returns (o: Outcome<Error>)
      requires Valid()
      modifies this
      ensures var r := Render(Setup(), fuel, context, n, old(Current()));
              (o.Pass? <==> r.Ok?)
              && (o.Fail? ==> r == Err(o.error))
              && (o.Pass? ==> Current() == r.value.(out := r.value.out + Closers(r.value.stack)))
      ensures old(Current()) == Initial && o.Pass? ==> Rendering.Compose(Setup(), fuel, context, n) == Ok(out)
    {
      o := Visit(n, fuel);
      if o.Fail? {
        return;
      }
      CloseAll();
    }

    /** The end of `compose`: an end tag for every open tag, innermost
        first; the stack is left as it is. */
    method CloseAll()
      modifies this
      ensures Current() == old(Current()).(out := old(out) + Closers(old(stack)))
    {
      ghost var visited := Current();
      var k := |stack|;
      assert stack[k..] == [];
      while k > 0
        invariant 0 <= k <= |stack|
        invariant stack == visited.stack && pending == visited.pending
        invariant out == visited.out + Closers(stack[k..])
      {
        ClosersBelow(stack, k);
        out := out + "</" + stack[k - 1] + ">";
        k := k - 1;
      }
      assert stack[0..] == stack;
    }
  }
}
