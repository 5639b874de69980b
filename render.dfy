/** What `WikicodeToHtmlComposer` does, as functions from the composer's state
    to its new state: the output written so far, the stack of open tags and
    the list tags waiting to be opened. The composer class mirrors these
    functions step by step. */
module Rendering {
  import opened Outcomes
  import opened Strings
  import opened Params
  import opened Nodes
  import opened Templates
  import opened Modules

  /** The exceptions that escape a composition. */
  datatype Error =
    | ArgumentOutsideTemplate  // `TypeError`: an argument subscripts the `None` context
    | InvokeWithoutFunction    // `KeyError`: `popitem` on an `#invoke` without parameters
    | EmptyTemplateName        // `IndexError`: the store cleans an empty name
    | NoModuleName             // `IndexError`: `#invoke:` names no module
    | RecursionLimit           // `RecursionError`: templates nested too deeply

  /** What every composer of one composition shares: the article root, the
      template store's map, the installed modules, and (as an uninterpreted
      function) the URL quoting of a title. */
  datatype Config = Config(baseUrl: string, store: map<string, Node>, modules: Registry,
                           quote: string -> string)

  datatype State = State(out: string, stack: seq<string>, pending: seq<(string, string)>)

  /** The state of a new composer. */
  const Initial := State("", [], [])

  function Write(st: State, s: string): State {
    st.(out := st.out + s)
  }

  /** `MARKUP_TO_LIST`: the list tag and item tag of a list marker. */
  function ListPair(markup: string): Option<(string, string)> {
    if markup == "*" then Some(("ul", "li"))
    else if markup == "#" then Some(("ol", "li"))
    else if markup == ";" then Some(("dl", "dt"))
    else None
  }

  const ListTags: set<string> := {"ul", "ol", "dl"}

  /** `TAGS_TO_CLOSE`: the tags a trailing newline closes. */
  const ClosedByNewline: set<string> := {"ul", "ol", "dl", "li", "dt"}

  /** Every queued pair is a (list tag, item tag) pair as `MARKUP_TO_LIST`
      makes them: an item tag is never a list tag. */
  predicate Queued(pending: seq<(string, string)>) {
    forall i :: 0 <= i < |pending| ==> pending[i].0 in ListTags && pending[i].1 in {"li", "dt"}
  }

  function Last<T>(s: seq<T>): T
    requires s != []
  {
    s[|s| - 1]
  }

  function DropLast<T>(s: seq<T>): seq<T>
    requires s != []
  {
    s[..|s| - 1]
  }

  /** The end tags of `tags`, innermost (last) first. */
  function Closers(tags: seq<string>): string {
    if tags == [] then "" else "</" + Last(tags) + ">" + Closers(DropLast(tags))
  }

  /** `_close_stack(tag)`: pop and close tags until `tag` has been closed or
      the stack is empty. */
  function CloseTo(st: State, tag: string): (r: State)
    ensures st.out <= r.out && r.pending == st.pending
    decreases |st.stack|
  {
    if st.stack == [] then st
    else
      var top := Last(st.stack);
      var next := Write(st, "</" + top + ">").(stack := DropLast(st.stack));
      if top == tag then next else CloseTo(next, tag)
  }

  /** Where `_close_stack(tag)` stops: the last position of `tag`, or the
      bottom of the stack when `tag` is not on it. */
  function CloseIndex(stack: seq<string>, tag: string): (j: nat)
    ensures j <= |stack|
    ensures tag in stack ==> j < |stack| && stack[j] == tag && tag !in stack[j + 1..]
    ensures tag !in stack ==> j == 0
  {
    if stack == [] then 0
    else if Last(stack) == tag then |stack| - 1
    else
      var j := CloseIndex(DropLast(stack), tag);
      assert tag in stack ==> tag in DropLast(stack) by {
        assert stack == DropLast(stack) + [Last(stack)];
      }
      assert tag in stack ==> stack[j + 1..] == DropLast(stack)[j + 1..] + [Last(stack)];
      j
  }

  lemma ClosersSplit(tags: seq<string>, j: nat)
    requires j < |tags|
    ensures Closers(tags[j..]) == "</" + Last(tags) + ">" + Closers(DropLast(tags)[j..])
  {
    assert DropLast(tags[j..]) == DropLast(tags)[j..];
  }

  /** `_close_stack(tag)` closes exactly the entries from the last `tag` up,
      innermost first, and keeps everything below; when `tag` is not open it
      closes the whole stack. */
  lemma {:induction false} CloseToSpec(st: State, tag: string)
    ensures var j := CloseIndex(st.stack, tag);
            CloseTo(st, tag) == st.(out := st.out + Closers(st.stack[j..]), stack := st.stack[..j])
    decreases |st.stack|
  {
    if st.stack != [] {
      var s := st.stack;
      var top := Last(s);
      var next := Write(st, "</" + top + ">").(stack := DropLast(s));
      var j := CloseIndex(s, tag);
      ClosersSplit(s, j);
      if top == tag {
        assert j == |s| - 1;
        assert DropLast(s)[j..] == [];
        assert CloseTo(st, tag) == next;
      } else {
        assert j == CloseIndex(DropLast(s), tag);
        assert CloseTo(st, tag) == CloseTo(next, tag);
        CloseToSpec(next, tag);
        assert DropLast(s)[..j] == s[..j];
        assert next.out + Closers(DropLast(s)[j..]) == st.out + Closers(s[j..]);
      }
    }
  }

  /** The list tags of a stack, in stack order. */
  function ListTagsOf(stack: seq<string>): (l: seq<string>)
    ensures |l| <= |stack|
    ensures forall t :: t in l ==> t in ListTags
  {
    if stack == [] then []
    else ListTagsOf(DropLast(stack)) + (if Last(stack) in ListTags then [Last(stack)] else [])
  }

  /** The list tags of queued (list tag, item tag) pairs. */
  function ListTagsOfPending(pending: seq<(string, string)>): (l: seq<string>)
    ensures |l| == |pending| && forall i :: 0 <= i < |l| ==> l[i] == pending[i].0
  {
    seq(|pending|, i requires 0 <= i < |pending| => pending[i].0)
  }

  /** The length of the common prefix, as `visit_Text`'s first loop finds it. */
  function CommonPrefix(a: seq<string>, b: seq<string>): (i: nat)
    ensures i <= |a| && i <= |b| && a[..i] == b[..i]
    ensures i < |a| && i < |b| ==> a[i] != b[i]
  {
    if a == [] || b == [] || a[0] != b[0] then 0
    else
      var i := CommonPrefix(a[1..], b[1..]);
      assert a[..i + 1] == [a[0]] + a[1..][..i];
      assert b[..i + 1] == [b[0]] + b[1..][..i];
      i + 1
  }

  /** `_close_stack` for each tag in turn. */
  function CloseEach(st: State, tags: seq<string>): (r: State)
    ensures st.out <= r.out && r.pending == st.pending
    decreases |tags|
  {
    if tags == [] then st else CloseEach(CloseTo(st, tags[0]), tags[1..])
  }

  function Reverse<T>(s: seq<T>): (r: seq<T>)
    ensures |r| == |s| && forall i :: 0 <= i < |s| ==> r[i] == s[|s| - 1 - i]
  {
    if s == [] then [] else [Last(s)] + Reverse(DropLast(s))
  }

  /** Push and open each list tag in turn. */
  function OpenLists(st: State, tags: seq<string>): (r: State)
    ensures st.out <= r.out && r.pending == st.pending
    ensures r.stack == st.stack + tags
    decreases |tags|
  {
    if tags == [] then st
    else OpenLists(Write(st.(stack := st.stack + [tags[0]]), "<" + tags[0] + ">"), tags[1..])
  }

  /** The flush at the start of `visit_Text`: close the open lists that do
      not match the queued ones, open the queued lists that are not open,
      open one item of the last queued list, empty the queue. */
  function Flush(st: State): (r: State)
    requires st.pending != []
    ensures st.out <= r.out && r.pending == []
  {
    var stackLists := ListTagsOf(st.stack);
    var pendingLists := ListTagsOfPending(st.pending);
    var i := CommonPrefix(stackLists, pendingLists);
    var closed := CloseEach(st, Reverse(stackLists[i..]));
    var withLists := OpenLists(closed, pendingLists[i..]);
    var item := Last(st.pending).1;
    Write(withLists, "<" + item + ">").(stack := withLists.stack + [item], pending := [])
  }

  /** The newline loop of `visit_Text`: `count` times, stop at an empty
      stack, close the top when it is a list or list-item tag. */
  function CloseTrailing(st: State, count: nat): (r: State)
    ensures st.out <= r.out && r.pending == st.pending
    decreases count
  {
    if count == 0 || st.stack == [] then st
    else if Last(st.stack) in ClosedByNewline then CloseTrailing(CloseTo(st, Last(st.stack)), count - 1)
    else CloseTrailing(st, count - 1)
  }

  /** The number of trailing newlines of a text. */
  function TrailingNewlines(value: string): (n: nat)
    ensures n <= |value|
    ensures n > 0 <==> value != [] && Last(value) == '\n'
  {
    |value| - |RStrip(value, {'\n'})|
  }

  /** `visit_Text`. */
  function RenderText(st: State, value: string): (r: State)
    ensures st.out <= r.out && r.pending == []
  {
    var flushed := if st.pending != [] then Flush(st) else st;
    CloseTrailing(Write(flushed, value), TrailingNewlines(value))
  }

  /** The list branch of `visit_Tag`: queue the marker's pair; a `*` or `#`
      first closes an open `dl`, a `;` an open `ol` and then an open `ul`. */
  function ListMarker(st: State, markup: string, pair: (string, string)): (r: State)
    ensures st.out <= r.out && r.pending == st.pending + [pair]
  {
    var queued := st.(pending := st.pending + [pair]);
    if markup == "*" || markup == "#" then
      if "dl" in queued.stack then CloseTo(queued, "dl") else queued
    else
      var a := if "ol" in queued.stack then CloseTo(queued, "ol") else queued;
      if "ul" in a.stack then CloseTo(a, "ul") else a
  }

  /** `int(key) - 1` rendered back, for the keys that parse as integers. */
  function RenumberKey(key: string): (r: string)
    ensures ParseInt(key).None? ==> r == key
    ensures ParseInt(key).Some? ==> ParseInt(r) == Some(ParseInt(key).value - 1)
  {
    match ParseInt(key)
    case Some(n) => IntDecimalRoundTrip(n - 1); IntToDecimal(n - 1)
    case None => key
  }

  /** The parameters passed to a module function: each key renumbered, in
      order, a later value winning where two keys renumber alike. */
  function Renumber(context: Params): (r: Params)
    ensures DistinctKeys(r)
  {
    FromPairsDistinct(RenumberKeys(context));
    FromPairs(RenumberKeys(context))
  }

  /** Each pair with its key renumbered. */
  function RenumberKeys(pairs: seq<(string, string)>): (r: seq<(string, string)>)
    ensures |r| == |pairs|
  {
    if pairs == [] then []
    else
      var last := pairs[|pairs| - 1];
      RenumberKeys(pairs[..|pairs| - 1]) + [(RenumberKey(last.0), last.1)]
  }

  /** The module name of an `#invoke:` call, the text after the first colon. */
  function InvokedModule(name: string): string
    requires StartsWith(name, "#invoke:")
  {
    name[8..]
  }

  /** The output of a new composer for `n` (`clone` and `visit`, then
      `getvalue`). Tags it leaves open stay unclosed. */
  function Fresh(cfg: Config, fuel: nat, ctx: Option<Params>, n: Node): (r: Result<string, Error>)
    decreases fuel, n, 3, 0
  {
    var st :- Render(cfg, fuel, ctx, n, Initial);
    Ok(st.out)
  }

  /** `visit(node)`. `fuel` bounds the depth of template transclusion. */
  function Render(cfg: Config, fuel: nat, ctx: Option<Params>, n: Node, st: State): (r: Result<State, Error>)
    ensures r.Ok? ==> st.out <= r.value.out
    ensures r.Ok? && Queued(st.pending) ==> Queued(r.value.pending)
    decreases fuel, n, 2, 0
  {
    match n
    case Wikicode(ns) => RenderSeq(cfg, fuel, ctx, ns, st)
    case Tag(_, _, _, _, _, _) => RenderTag(cfg, fuel, ctx, n, st)
    case Heading(title, level, _) =>
      var body :- Render(cfg, fuel, ctx, title, Write(st, "<h" + NatToDecimal(level) + ">"));
      Ok(Write(body, "</h" + NatToDecimal(level) + ">"))
    case Wikilink(_, _, _) => RenderWikilink(cfg, fuel, ctx, n, st)
    case ExternalLink(url, caption, _) =>
      var withUrl :- Render(cfg, fuel, ctx, url, Write(st, "<a href=\""));
      var shown := if Truthy(caption) then caption.value else url;
      var body :- Render(cfg, fuel, ctx, shown, Write(withUrl, "\">"));
      Ok(Write(body, "</a>"))
    case Comment(comment, _) => Ok(Write(st, "<!-- " + comment + " -->"))
    case Text(value) => Ok(RenderText(st, value))
    case HTMLEntity(src) => Ok(Write(st, src))
    case Attribute(src) => Ok(Write(st, src))
    case Template(_, _, _) => RenderTemplate(cfg, fuel, ctx, n, st)
    case Argument(_, _, _) => RenderArgument(cfg, fuel, ctx, n, st)
  }

  /** `visit_Wikicode`: the nodes in order, on the same composer. */
  function RenderSeq(cfg: Config, fuel: nat, ctx: Option<Params>, ns: seq<Node>, st: State): (r: Result<State, Error>)
    ensures r.Ok? ==> st.out <= r.value.out
    ensures r.Ok? && Queued(st.pending) ==> Queued(r.value.pending)
    decreases fuel, ns, 0, 0
  {
    if ns == [] then Ok(st)
    else
      var first :- Render(cfg, fuel, ctx, ns[0], st);
      RenderSeq(cfg, fuel, ctx, ns[1..], first)
  }

  /** The first half of `visit_Tag`: a list marker is queued; any other tag
      has its name rendered by a new composer and stripped, is written with
      its attributes, and is pushed. */
  function OpenTag(cfg: Config, fuel: nat, ctx: Option<Params>, n: Node, st: State): (r: Result<State, Error>)
    requires n.Tag?
    ensures r.Ok? ==> st.out <= r.value.out
    ensures r.Ok? && Queued(st.pending) ==> Queued(r.value.pending)
    decreases fuel, n, 1, 0
  {
    if n.markup.Some? && ListPair(n.markup.value).Some? then
      var pair := ListPair(n.markup.value).value;
      Ok(ListMarker(st, n.markup.value, pair))
    else
      var name :- Fresh(cfg, fuel, ctx, n.tag);
      var tag := Strip(name);
      var withAttrs :- RenderSeq(cfg, fuel, ctx, n.attrs, Write(st, "<" + tag));
      Ok(Write(withAttrs, ">").(stack := withAttrs.stack + [tag]))
  }

  /** `visit_Tag`: open, render the contents when they are not empty, and
      unless the tag closes itself, close the stack down to the tag (compared
      by its source text). */
  function RenderTag(cfg: Config, fuel: nat, ctx: Option<Params>, n: Node, st: State): (r: Result<State, Error>)
    requires n.Tag?
    ensures r.Ok? ==> st.out <= r.value.out
    ensures r.Ok? && Queued(st.pending) ==> Queued(r.value.pending)
    decreases fuel, n, 1, 1
  {
    var started :- OpenTag(cfg, fuel, ctx, n, st);
    var filled :- if Truthy(n.contents) then Render(cfg, fuel, ctx, n.contents.value, started) else Ok(started);
    Ok(if n.selfClosing then filled else CloseTo(filled, Str(n.tag)))
  }

  /** `visit_Wikilink`: the title rendered by a new composer makes the URL;
      the text, or else the title, is rendered as the link body. */
  function RenderWikilink(cfg: Config, fuel: nat, ctx: Option<Params>, n: Node, st: State): (r: Result<State, Error>)
    requires n.Wikilink?
    ensures r.Ok? ==> st.out <= r.value.out
    ensures r.Ok? && Queued(st.pending) ==> Queued(r.value.pending)
    decreases fuel, n, 1, 0
  {
    var title :- Fresh(cfg, fuel, ctx, n.title);
    var url := cfg.baseUrl + "/" + cfg.quote(title);
    var shown := if Truthy(n.text) then n.text.value else n.title;
    var body :- Render(cfg, fuel, ctx, shown, Write(st, "<a href=\"" + url + "\">"));
    Ok(Write(body, "</a>"))
  }

  /** The rendered (name, value) pair of each template parameter, in order:
      names are stripped, values only when the name was written out. */
  function RenderParams(cfg: Config, fuel: nat, ctx: Option<Params>, ps: seq<Param>): (r: Result<seq<(string, string)>, Error>)
    ensures r.Ok? ==> |r.value| == |ps|
    decreases fuel, ps, 0, 0
  {
    if ps == [] then Ok([])
    else
      var first :- RenderParam(cfg, fuel, ctx, ps[0]);
      var rest :- RenderParams(cfg, fuel, ctx, ps[1..]);
      Ok([first] + rest)
  }

  /** One parameter of a template call, each half rendered by a new
      composer. */
  function RenderParam(cfg: Config, fuel: nat, ctx: Option<Params>, p: Param): (r: Result<(string, string), Error>)
    ensures r.Ok? ==> Stripped(r.value.0) && (p.showkey ==> Stripped(r.value.1))
    decreases fuel, p, 1, 0
  {
    var name :- Fresh(cfg, fuel, ctx, p.name);
    var value :- Fresh(cfg, fuel, ctx, p.value);
    Ok((Strip(name), if p.showkey then Strip(value) else value))
  }

  /** The `#invoke:` branch of `visit_Template`: the first parameter's value
      names the function, which receives the other parameters renumbered; a
      missing module writes the call's source text. */
  function RenderInvoke(cfg: Config, name: string, context: Params, src: string, st: State): (r: Result<State, Error>)
    requires StartsWith(name, "#invoke:")
    ensures r.Ok? ==> st.out <= r.value.out && r.value.stack == st.stack && r.value.pending == st.pending
    ensures context == [] ==> r == Err(InvokeWithoutFunction)
    ensures context != [] && name == "#invoke:" ==> r == Err(NoModuleName)
    ensures context != [] && name != "#invoke:" && FindModule(cfg.modules, name[8..]).None? ==> r == Ok(Write(st, src))
    ensures context != [] && name != "#invoke:" && FindModule(cfg.modules, name[8..]).Some? ==>
              var m := FindModule(cfg.modules, name[8..]).value;
              r == if context[0].1 in m then Ok(Write(st, Call(m[context[0].1], Renumber(context[1..]))))
                   else Ok(Write(st, src))
  {
    match PopFirst(context)
    case None => Err(InvokeWithoutFunction)
    case Some(((_, functionName), rest)) =>
      match GetFunction(cfg.modules, InvokedModule(name), functionName)
      case Err(EmptyModuleName) => Err(NoModuleName)
      case Err(UnknownModule) => Ok(Write(st, src))
      case Ok(f) => Ok(Write(st, Call(f, Renumber(rest))))
  }

  /** `visit_Template`. */
  function RenderTemplate(cfg: Config, fuel: nat, ctx: Option<Params>, n: Node, st: State): (r: Result<State, Error>)
    requires n.Template?
    ensures r.Ok? ==> st.out <= r.value.out
    ensures r.Ok? && Queued(st.pending) ==> Queued(r.value.pending)
    decreases fuel, n, 1, 0
  {
    var rendered :- Fresh(cfg, fuel, ctx, n.name);
    var name := Strip(rendered);
    var pairs :- RenderParams(cfg, fuel, ctx, n.params);
    var context := FromPairs(pairs);
    if StartsWith(name, "#invoke:") then RenderInvoke(cfg, name, context, n.src, st)
    else RenderTransclusion(cfg, fuel, n, name, context, st)
  }

  /** The other branch of `visit_Template`: the named template's body is
      rendered by a new composer whose context is the call's parameters; a
      missing template writes the call's source text. */
  function RenderTransclusion(cfg: Config, fuel: nat, n: Node, name: string, context: Params, st: State)
    : (r: Result<State, Error>)
    requires n.Template?
    ensures r.Ok? ==> st.out <= r.value.out && r.value.stack == st.stack && r.value.pending == st.pending
    decreases fuel, n, 0, 1
  {
    match Lookup(cfg.store, name)
    case Err(EmptyName) => Err(EmptyTemplateName)
    case Err(Missing) => Ok(Write(st, n.src))
    case Ok(body) =>
      if fuel == 0 then Err(RecursionLimit)
      else
        var out :- Fresh(cfg, fuel - 1, Some(context), body);
        Ok(Write(st, out))
  }

  /** `visit_Argument`. */
  function RenderArgument(cfg: Config, fuel: nat, ctx: Option<Params>, n: Node, st: State): (r: Result<State, Error>)
    requires n.Argument?
    ensures r.Ok? ==> st.out <= r.value.out
    ensures r.Ok? && Queued(st.pending) ==> Queued(r.value.pending)
    decreases fuel, n, 1, 0
  {
    var rendered :- Fresh(cfg, fuel, ctx, n.name);
    var name := Strip(rendered);
    match ctx
    case None => Err(ArgumentOutsideTemplate)
    case Some(context) =>
      match Get(context, name)
      case Some(value) => Ok(Write(st, value))
      case None =>
        if n.default.Some? then
          var value :- Fresh(cfg, fuel, ctx, n.default.value);
          Ok(Write(st, value))
        else Ok(Write(st, n.src))
  }

  /** `compose(node)` on a new composer: render, then close every tag still
      open, innermost first, without popping them. */
  function Compose(cfg: Config, fuel: nat, ctx: Option<Params>, n: Node): (r: Result<string, Error>)
    ensures r.Ok? <==> Render(cfg, fuel, ctx, n, Initial).Ok?
    ensures r.Ok? ==> Render(cfg, fuel, ctx, n, Initial).value.out <= r.value
    ensures r.Ok? && Render(cfg, fuel, ctx, n, Initial).value.stack == [] ==> r.value == Render(cfg, fuel, ctx, n, Initial).value.out
  {
    var st :- Render(cfg, fuel, ctx, n, Initial);
    Ok(st.out + Closers(st.stack))
  }
}
