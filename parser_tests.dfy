/** The reader of MediaWiki parser-test files (`MediaWikiParserTestsParser`):
    the groups the line reader hands on are visited as they close, an
    article being stored under its stripped name (once only) and a test
    kept with its options parsed. */
module ParserTests {
  import opened Outcomes
  import opened Strings
  import opened Options
  import opened TestFileReader

  /** A test as it is kept: its fields without `options`, and the options
      parsed (empty when the test has none). */
  datatype TestCase = TestCase(fields: map<string, string>, options: map<string, OptionValue>)

  /** The `articles` and `test_cases` attributes. */
  datatype Parsed = Parsed(articles: map<string, string>, testCases: seq<TestCase>)

  /** True when every article of `before` is still in `after` with the same
      text, and the tests of `before` open those of `after`. */
  predicate Extends(before: Parsed, after: Parsed) {
    before.articles.Keys <= after.articles.Keys
    && (forall k :: k in before.articles ==> after.articles[k] == before.articles[k])
    && before.testCases <= after.testCases
  }

  lemma ExtendsTrans(a: Parsed, b: Parsed, c: Parsed)
    requires Extends(a, b) && Extends(b, c)
    ensures Extends(a, c)
  {
  }

  /** An article stored under a name not yet taken: nothing already stored
      is lost or changed. */
  function Store(p: Parsed, name: string, text: string): (r: Parsed)
    requires name !in p.articles
    ensures Extends(p, r) && r.testCases == p.testCases
    ensures r.articles.Keys == p.articles.Keys + {name} && r.articles[name] == text
  {
    Parsed(p.articles[name := text], p.testCases)
  }

  /** `visit_article`: only the fields `article` and `text` are allowed, the
      stripped name must be new, and the text is stored under it. */
  function AddArticle(p: Parsed, contents: map<string, string>): (r: Result<Parsed, ReadError>)
    ensures r.Ok? ==> Extends(p, r.value) && |r.value.articles| == |p.articles| + 1 && r.value.testCases == p.testCases
  {
    var unknown := contents.Keys - {"article", "text"};
    if unknown != {} then Err(UnknownParameters(unknown))
    else if "article" !in contents then Err(MissingField("article"))
    else
      var name := Strip(contents["article"]);
      if name in p.articles then Err(DuplicateArticle(name))
      else if "text" !in contents then Err(MissingField("text"))
      else Ok(Store(p, name, contents["text"]))
  }

  /** An article is accepted exactly when its fields are `article` and
      `text` and its stripped name is new; it is then stored under that
      name with its text unstripped. */
  lemma AddArticleOk(p: Parsed, contents: map<string, string>)
    ensures AddArticle(p, contents).Ok?
            <==> contents.Keys == {"article", "text"} && Strip(contents["article"]) !in p.articles
    ensures AddArticle(p, contents).Ok?
            ==> AddArticle(p, contents).value == Parsed(p.articles[Strip(contents["article"]) := contents["text"]], p.testCases)
  {
    if contents.Keys == {"article", "text"} {
      assert "article" in contents && "text" in contents;
    }
    if AddArticle(p, contents).Ok? {
      assert contents.Keys <= {"article", "text"};
      assert "article" in contents.Keys && "text" in contents.Keys;
    }
  }

  /** The errors of `visit_article`, tried in the source's order. */
  lemma AddArticleFails(p: Parsed, contents: map<string, string>)
    ensures AddArticle(p, contents).Err? && !(contents.Keys <= {"article", "text"})
            ==> AddArticle(p, contents).error == UnknownParameters(contents.Keys - {"article", "text"})
    ensures AddArticle(p, contents).Err? && contents.Keys <= {"article", "text"} && "article" in contents
            && Strip(contents["article"]) in p.articles
            ==> AddArticle(p, contents).error == DuplicateArticle(Strip(contents["article"]))
  {
  }

  /** The `options` field parsed, only when present and non-empty. */
  function TestOptions(contents: map<string, string>): (r: Result<map<string, OptionValue>, ReadError>)
    ensures r.Err? ==> "options" in contents && contents["options"] != "" && r.error.BadOptions?
    ensures ("options" !in contents || contents["options"] == "") ==> r == Ok(map[])
  {
    if "options" in contents && contents["options"] != "" then
      match OptionsOf(contents["options"])
      case Ok(options) => Ok(options)
      case Err(e) => Err(BadOptions(e))
    else Ok(map[])
  }

  /** `visit_test`: the test is appended with its options parsed; nothing
      else changes. */
  function AddTest(p: Parsed, contents: map<string, string>): (r: Result<Parsed, ReadError>)
    ensures r.Ok? ==> Extends(p, r.value) && r.value.articles == p.articles
                      && |r.value.testCases| == |p.testCases| + 1
                      && r.value.testCases[|p.testCases|].fields == contents - {"options"}
    ensures r.Err? <==> "options" in contents && contents["options"] != "" && OptionsOf(contents["options"]).Err?
  {
    var options :- TestOptions(contents);
    Ok(Parsed(p.articles, p.testCases + [TestCase(contents - {"options"}, options)]))
  }

  /** The errors `visit_article` and `visit_test` raise on a group that
      holds its own name. */
  predicate VisitError(e: ReadError) {
    e.UnknownParameters? || e.DuplicateArticle? || e == MissingField("text") || e.BadOptions?
  }

  /** `visit`: a group goes to `visit_article` or `visit_test` after its
      kind; any other kind has no visitor. */
  function VisitGroup(p: Parsed, g: Group): (r: Result<Parsed, ReadError>)
    ensures r.Ok? ==> Extends(p, r.value)
    ensures r.Err? && r.error.UnknownSectionType? ==> !GroupKind(g.kind)
    ensures GroupOk(g) && r.Err? ==> VisitError(r.error)
  {
    if g.kind == "article" then AddArticle(p, g.fields)
    else if g.kind == "test" then AddTest(p, g.fields)
    else Err(UnknownSectionType(g.kind))
  }

  /** The groups visited in turn from `start`, stopping at the first that
      fails: what was stored, and the error, if one was raised. */
  function VisitAll(start: Parsed, gs: seq<Group>): (r: (Parsed, Option<ReadError>))
    ensures Extends(start, r.0)
  {
    if gs == [] then (start, None)
    else
      var (p, f) := VisitAll(start, gs[..|gs| - 1]);
      if f.Some? then (p, f)
      else
        match VisitGroup(p, gs[|gs| - 1])
        case Ok(q) => (ExtendsTrans(start, p, q); (q, None))
        case Err(e) => (p, Some(e))
  }

  /** One group more. */
  lemma VisitAllSnoc(start: Parsed, gs: seq<Group>, g: Group)
    ensures VisitAll(start, gs + [g])
            == var (p, f) := VisitAll(start, gs);
               if f.Some? then (p, f)
               else match VisitGroup(p, g)
                    case Ok(q) => (q, None)
                    case Err(e) => (p, Some(e))
  {
    assert (gs + [g])[..|gs|] == gs;
  }

  /** After a failure, later groups are not visited. */
  lemma {:induction false} VisitAllStops(start: Parsed, gs: seq<Group>, more: seq<Group>)
    requires VisitAll(start, gs).1.Some?
    ensures VisitAll(start, gs + more) == VisitAll(start, gs)
    decreases |more|
  {
    if more != [] {
      var front := more[..|more| - 1];
      VisitAllStops(start, gs, front);
      ConcatSnoc(gs, more);
      VisitAllSnoc(start, gs + front, more[|more| - 1]);
    } else {
      assert gs + more == gs;
    }
  }

  /** Groups that are each an article or a test never meet the
      `RuntimeError` of `visit` nor a missing `article` field. */
  lemma {:induction false} VisitAllErrors(start: Parsed, gs: seq<Group>)
    requires forall i :: 0 <= i < |gs| ==> GroupOk(gs[i])
    ensures VisitAll(start, gs).1.Some? ==> VisitError(VisitAll(start, gs).1.value)
    decreases |gs|
  {
    if gs != [] {
      var front := gs[..|gs| - 1];
      assert forall i :: 0 <= i < |front| ==> GroupOk(front[i]) by {
        forall i | 0 <= i < |front|
          ensures GroupOk(front[i])
        {
          assert front[i] == gs[i];
        }
      }
      VisitAllErrors(start, front);
      assert GroupOk(gs[|gs| - 1]);
    }
  }

  /** The fields of the tests, in order. */
  function FieldsOf(tcs: seq<TestCase>): seq<map<string, string>> {
    if tcs == [] then [] else FieldsOf(tcs[..|tcs| - 1]) + [tcs[|tcs| - 1].fields]
  }

  /** The parameters of some tests without their `options` field. */
  function WithoutOptions(ms: seq<map<string, string>>): seq<map<string, string>> {
    if ms == [] then [] else WithoutOptions(ms[..|ms| - 1]) + [ms[|ms| - 1] - {"options"}]
  }

  /** The articles of a legacy list stored by stripped name, a later one
      replacing an earlier one. */
  function ArticleMap(articles: seq<map<string, string>>): map<string, string> {
    if articles == [] then map[]
    else
      var last := articles[|articles| - 1];
      var before := ArticleMap(articles[..|articles| - 1]);
      if "article" in last && "text" in last then before[Strip(last["article"]) := last["text"]] else before
  }

  lemma FieldsOfSnoc(tcs: seq<TestCase>, t: TestCase)
    ensures FieldsOf(tcs + [t]) == FieldsOf(tcs) + [t.fields]
  {
    assert (tcs + [t])[..|tcs|] == tcs;
  }

  lemma WithoutOptionsAppend(ms: seq<map<string, string>>, extra: seq<map<string, string>>)
    requires |extra| <= 1
    ensures WithoutOptions(ms + extra) == WithoutOptions(ms) + WithoutOptions(extra)
  {
    if extra != [] {
      assert (ms + extra)[..|ms|] == ms;
      assert WithoutOptions(extra) == [extra[0] - {"options"}];
    } else {
      assert ms + extra == ms;
    }
  }

  lemma ArticleMapAppend(ms: seq<map<string, string>>, extra: seq<map<string, string>>)
    requires |extra| == 1 && "article" in extra[0] && "text" in extra[0]
    ensures ArticleMap(ms + extra) == ArticleMap(ms)[Strip(extra[0]["article"]) := extra[0]["text"]]
  {
    assert (ms + extra)[..|ms|] == ms;
  }

  /** A test that is accepted is appended with its fields as read. */
  lemma AddTestValue(p: Parsed, contents: map<string, string>)
    requires AddTest(p, contents).Ok?
    ensures AddTest(p, contents).value
            == Parsed(p.articles, p.testCases + [TestCase(contents - {"options"}, TestOptions(contents).value)])
  {
  }

  lemma MapUnionUpdate<K, V>(a: map<K, V>, b: map<K, V>, k: K, v: V)
    ensures (a + b)[k := v] == a + b[k := v]
  {
  }

  /** What `p` holds after visiting `gs` from `start`: the fields of the
      tests of `gs` appended in order, and their articles stored. */
  predicate HoldsGroups(start: Parsed, gs: seq<Group>, p: Parsed) {
    FieldsOf(p.testCases) == FieldsOf(start.testCases) + WithoutOptions(TestsOf(gs))
    && p.articles == start.articles + ArticleMap(ArticlesOf(gs))
  }

  lemma ArticleStep(start: Parsed, gs: seq<Group>, p: Parsed, g: Group)
    requires HoldsGroups(start, gs, p) && g.kind == "article" && AddArticle(p, g.fields).Ok?
    ensures HoldsGroups(start, gs + [g], AddArticle(p, g.fields).value)
  {
    AddArticleOk(p, g.fields);
    OfKindSnoc(gs, g, "test");
    OfKindSnoc(gs, g, "article");
    assert TestsOf(gs + [g]) == TestsOf(gs) + [] == TestsOf(gs);
    ArticleMapAppend(ArticlesOf(gs), [g.fields]);
    MapUnionUpdate(start.articles, ArticleMap(ArticlesOf(gs)), Strip(g.fields["article"]), g.fields["text"]);
  }

  lemma TestStep(start: Parsed, gs: seq<Group>, p: Parsed, g: Group)
    requires HoldsGroups(start, gs, p) && g.kind == "test" && AddTest(p, g.fields).Ok?
    ensures HoldsGroups(start, gs + [g], AddTest(p, g.fields).value)
  {
    var t := TestCase(g.fields - {"options"}, TestOptions(g.fields).value);
    AddTestValue(p, g.fields);
    OfKindSnoc(gs, g, "test");
    OfKindSnoc(gs, g, "article");
    assert ArticlesOf(gs + [g]) == ArticlesOf(gs) + [] == ArticlesOf(gs);
    FieldsOfSnoc(p.testCases, t);
    WithoutOptionsAppend(TestsOf(gs), [g.fields]);
  }

  /** When every group is visited without error, the tests are appended in
      file order with their fields as read, and every article is stored
      under its stripped name with its text. */
  lemma {:induction false} VisitAllContents(start: Parsed, gs: seq<Group>)
    requires VisitAll(start, gs).1.None?
    ensures HoldsGroups(start, gs, VisitAll(start, gs).0)
    decreases |gs|
  {
    if gs == [] {
      assert FieldsOf(start.testCases) + [] == FieldsOf(start.testCases);
      assert start.articles + map[] == start.articles;
    } else {
      var front := gs[..|gs| - 1];
      var g := gs[|gs| - 1];
      FrontLast(gs);
      VisitAllSnoc(start, front, g);
      VisitAllContents(start, front);
      var p := VisitAll(start, front).0;
      if g.kind == "article" {
        ArticleStep(start, front, p, g);
      } else {
        TestStep(start, front, p, g);
      }
    }
  }

  /** The progress of `parse` after some lines: the locals of its loop, the
      attributes, and the error that stopped it, if one did. */
  datatype Progress = Progress(reader: Reader, parsed: Parsed, failure: Option<ReadError>)

  /** What one line does to `parse` once `Advance` has dealt with it: an
      error stops it, and a closed group is visited at once. */
  function Feed(pr: Progress, a: Result<(Reader, Option<Group>), ReadError>): Progress {
    match a
    case Err(e) => pr.(failure := Some(e))
    case Ok((rd, None)) => pr.(reader := rd)
    case Ok((rd, Some(g))) =>
      match VisitGroup(pr.parsed, g)
      case Ok(q) => Progress(rd, q, None)
      case Err(e) => Progress(rd, pr.parsed, Some(e))
  }

  /** The loop of `parse` over `lines` from the attributes `start`: each
      group is visited as soon as the line ending it is read. */
  function RunCurrent(lines: seq<string>, start: Parsed): Progress {
    if lines == [] then Progress(Idle, start, None)
    else
      var pr := RunCurrent(lines[..|lines| - 1], start);
      if pr.failure.Some? then pr else Feed(pr, Advance(pr.reader, lines[|lines| - 1]))
  }

  lemma RunCurrentSnoc(lines: seq<string>, line: string, start: Parsed)
    ensures RunCurrent(lines + [line], start)
            == if RunCurrent(lines, start).failure.Some? then RunCurrent(lines, start)
               else Feed(RunCurrent(lines, start), Advance(RunCurrent(lines, start).reader, line))
  {
    assert (lines + [line])[..|lines|] == lines;
  }

  /** The first of two failures. */
  function FirstFailure(a: Option<ReadError>, b: Option<ReadError>): Option<ReadError> {
    if a.Some? then a else b
  }

  /** Visiting each group as it closes agrees with reading the whole file
      and visiting the groups afterwards. */
  predicate Agrees(pr: Progress, c: Collected, start: Parsed) {
    var (p, f) := VisitAll(start, c.groups);
    pr.parsed == p && pr.failure == FirstFailure(f, c.failure) && (pr.failure.None? ==> pr.reader == c.reader)
  }

  /** One line keeps the agreement, whatever `Advance` made of it. */
  lemma FeedGather(pr: Progress, c: Collected, start: Parsed, a: Result<(Reader, Option<Group>), ReadError>)
    requires Agrees(pr, c, start) && pr.failure.None?
    ensures Agrees(Feed(pr, a), Gather(c, a), start)
  {
    if a.Ok? && a.value.1.Some? {
      VisitAllSnoc(start, c.groups, a.value.1.value);
    }
  }

  /** After the visits have failed, no line changes `parse` and the
      reading goes on without effect on the agreement. */
  lemma StoppedGather(pr: Progress, c: Collected, start: Parsed, a: Result<(Reader, Option<Group>), ReadError>)
    requires Agrees(pr, c, start) && VisitAll(start, c.groups).1.Some? && c.failure.None?
    ensures Agrees(pr, Gather(c, a), start)
  {
    if a.Ok? && a.value.1.Some? {
      VisitAllStops(start, c.groups, [a.value.1.value]);
    }
  }

  /** Visiting each group as it closes is reading the whole file and then
      visiting the groups in order: the attributes are those the visits
      leave, and the error is the first visit's error, otherwise the
      reading's own. */
  lemma {:induction false} RunCurrentCollect(lines: seq<string>, start: Parsed)
    ensures Agrees(RunCurrent(lines, start), Collect(lines), start)
    decreases |lines|
  {
    if lines != [] {
      var front := lines[..|lines| - 1];
      var line := lines[|lines| - 1];
      FrontLast(lines);
      RunCurrentCollect(front, start);
      RunCurrentSnoc(front, line, start);
      CollectSnoc(front, line);
      var pr := RunCurrent(front, start);
      var c := Collect(front);
      if pr.failure.None? {
        FeedGather(pr, c, start, Advance(c.reader, line));
      } else if c.failure.None? {
        StoppedGather(pr, c, start, Advance(c.reader, line));
      }
    }
  }

  /** The errors `parse` can raise: an unexpected opening section, or an
      error of `visit_article` or `visit_test` other than a missing
      `article` field; never the `RuntimeError` of `visit`. */
  lemma ParseErrors(lines: seq<string>, start: Parsed)
    requires RunCurrent(lines, start).failure.Some?
    ensures RunCurrent(lines, start).failure.value.UnexpectedSection? || VisitError(RunCurrent(lines, start).failure.value)
  {
    RunCurrentCollect(lines, start);
    CollectOk(lines);
    VisitAllErrors(start, Collect(lines).groups);
    if VisitAll(start, Collect(lines).groups).1.None? {
      var k := CollectFailure(lines);
    }
  }

  /** From empty attributes, a file read without error leaves every test
      of the file, in order, with its fields as read, and every article
      stored under its stripped name. */
  lemma ParseContents(lines: seq<string>)
    requires RunCurrent(lines, Parsed(map[], [])).failure.None?
    ensures FieldsOf(RunCurrent(lines, Parsed(map[], [])).parsed.testCases) == WithoutOptions(TestsOf(Collect(lines).groups))
    ensures RunCurrent(lines, Parsed(map[], [])).parsed.articles == ArticleMap(ArticlesOf(Collect(lines).groups))
  {
    var start := Parsed(map[], []);
    RunCurrentCollect(lines, start);
    VisitAllContents(start, Collect(lines).groups);
    assert FieldsOf(start.testCases) == [];
    assert map[] + ArticleMap(ArticlesOf(Collect(lines).groups)) == ArticleMap(ArticlesOf(Collect(lines).groups));
    assert [] + WithoutOptions(TestsOf(Collect(lines).groups)) == WithoutOptions(TestsOf(Collect(lines).groups));
  }

  /** Once `parse` has failed, later lines change nothing. */
  lemma {:induction false} RunCurrentStops(lines: seq<string>, k: nat, start: Parsed)
    requires k <= |lines| && RunCurrent(lines[..k], start).failure.Some?
    ensures RunCurrent(lines, start) == RunCurrent(lines[..k], start)
    decreases |lines| - k
  {
    if k < |lines| {
      FrontPrefix(lines, k);
      RunCurrentStops(lines[..|lines| - 1], k, start);
    } else {
      assert lines[..k] == lines;
    }
  }

  /** A line naming no section, as `parse` reads it. */
  lemma PlainStep(lines: seq<string>, line: string, start: Parsed, rd: Reader, p: Parsed)
    requires RunCurrent(lines, start) == Progress(rd, p, None) && !IsSection(line)
    ensures RunCurrent(lines + [line], start) == Progress(Append(rd, line), p, None)
  {
    RunCurrentSnoc(lines, line, start);
  }

  /** A `!!` line, as `parse` reads it. */
  lemma HeaderStep(lines: seq<string>, line: string, start: Parsed, rd: Reader, p: Parsed)
    requires RunCurrent(lines, start) == Progress(rd, p, None) && IsSection(line)
    ensures RunCurrent(lines + [line], start) == Feed(Progress(rd, p, None), Header(rd, SectionName(line)))
  {
    RunCurrentSnoc(lines, line, start);
  }

  /** An opening line outside a group. */
  lemma OpenStep(lines: seq<string>, line: string, start: Parsed, p: Parsed)
    requires RunCurrent(lines, start) == Progress(Idle, p, None) && IsSection(line)
    ensures var n := SectionName(line);
            RunCurrent(lines + [line], start)
            == if GroupKind(n) then Progress(InGroup(n, n, "", GroupEnd(n), map[]), p, None)
               else Progress(Idle, p, Some(UnexpectedSection(n)))
  {
    HeaderStep(lines, line, start, Idle, p);
  }

  /** A line inside a group naming a section other than the group's end:
      the parameter being read is complete and the next one starts. */
  lemma NextStep(lines: seq<string>, line: string, start: Parsed, p: Parsed,
                 group: string, parameter: string, contents: string, groupEnd: string, parameters: map<string, string>)
    requires RunCurrent(lines, start) == Progress(InGroup(group, parameter, contents, groupEnd, parameters), p, None)
    requires IsSection(line) && SectionName(line) != groupEnd
    ensures RunCurrent(lines + [line], start)
            == Progress(InGroup(group, SectionName(line), "", groupEnd, parameters[parameter := contents]), p, None)
  {
    HeaderStep(lines, line, start, InGroup(group, parameter, contents, groupEnd, parameters), p);
  }

  /** The end line of a group: the group is visited. */
  lemma CloseStep(lines: seq<string>, line: string, start: Parsed, p: Parsed,
                  group: string, parameter: string, contents: string, groupEnd: string, parameters: map<string, string>)
    requires RunCurrent(lines, start) == Progress(InGroup(group, parameter, contents, groupEnd, parameters), p, None)
    requires IsSection(line) && SectionName(line) == groupEnd
    ensures var r := VisitGroup(p, Group(group, parameters[parameter := contents]));
            RunCurrent(lines + [line], start) == if r.Ok? then Progress(Idle, r.value, None) else Progress(Idle, p, Some(r.error))
  {
    HeaderStep(lines, line, start, InGroup(group, parameter, contents, groupEnd, parameters), p);
  }

  /** The locals of the loop of `parse` as the reader they stand for; an
      empty group name is Python's `None`. */
  function ReaderOf(group: string, parameter: string, contents: string, groupEnd: string, parameters: map<string, string>): Reader {
    if group == "" then Idle else InGroup(group, parameter, contents, groupEnd, parameters)
  }

  /** Outside a group the locals keep their initial values. */
  predicate Reset(group: string, contents: string, parameters: map<string, string>) {
    group == "" ==> contents == "" && parameters == map[]
  }

  /** An exception raised by a visitor or by `parse`, or none. */
  function OutcomeOf(failure: Option<ReadError>): Outcome<ReadError> {
    if failure.Some? then Fail(failure.value) else Pass
  }

  /** `MediaWikiParserTestsParser`: the file as its lines, the articles by
      name and the tests in file order. */
  class TestsParser {
    const file: seq<string>
    var articles: map<string, string>
    var testCases: seq<TestCase>

    function State(): Parsed
      reads this
    {
      Parsed(articles, testCases)
    }

    constructor(file: seq<string>)
      ensures this.file == file && State() == Parsed(map[], [])
    {
      this.file := file;
      articles := map[];
      testCases := [];
    }

    method VisitArticle(contents: map<string, string>) returns (outcome: Outcome<ReadError>)
      modifies this
      ensures var r := AddArticle(old(State()), contents);
              outcome == (if r.Ok? then Pass else Fail(r.error)) && State() == (if r.Ok? then r.value else old(State()))
    {
      var unknown := contents.Keys - {"article", "text"};
      if unknown != {} {
        return Fail(UnknownParameters(unknown));
      }
      if "article" !in contents {
        return Fail(MissingField("article"));
      }
      var name := Strip(contents["article"]);
      if name in articles {
        return Fail(DuplicateArticle(name));
      }
      if "text" !in contents {
        return Fail(MissingField("text"));
      }
      articles := articles[name := contents["text"]];
      return Pass;
    }

    method VisitTest(contents: map<string, string>) returns (outcome: Outcome<ReadError>)
      modifies this
      ensures var r := AddTest(old(State()), contents);
              outcome == (if r.Ok? then Pass else Fail(r.error)) && State() == (if r.Ok? then r.value else old(State()))
    {
      var options: map<string, OptionValue> := map[];
      if "options" in contents && contents["options"] != "" {
        var parsed := ParseOptions(contents["options"]);
        if parsed.Err? {
          return Fail(BadOptions(parsed.error));
        }
        options := parsed.value;
      }
      testCases := testCases + [TestCase(contents - {"options"}, options)];
      return Pass;
    }

    method Visit(section: string, contents: map<string, string>) returns (outcome: Outcome<ReadError>)
      modifies this
      ensures var r := VisitGroup(old(State()), Group(section, contents));
              outcome == (if r.Ok? then Pass else Fail(r.error)) && State() == (if r.Ok? then r.value else old(State()))
    {
      if section == "article" {
        outcome := VisitArticle(contents);
      } else if section == "test" {
        outcome := VisitTest(contents);
      } else {
        outcome := Fail(UnknownSectionType(section));
      }
    }

    /** One line of the loop of `parse`, with the loop's locals passed in
        and handed back; `lines` are the lines read before. */
    method ReadLine(ghost lines: seq<string>, ghost start: Parsed, line: string,
                    group: string, parameter: string, contents: string, groupEnd: string, parameters: map<string, string>)
      returns (group': string, parameter': string, contents': string, groupEnd': string, parameters': map<string, string>,
               failure: Option<ReadError>)
      requires Reset(group, contents, parameters)
      requires RunCurrent(lines, start) == Progress(ReaderOf(group, parameter, contents, groupEnd, parameters), State(), None)
      modifies this
      ensures var pr := RunCurrent(lines + [line], start);
              State() == pr.parsed && failure == pr.failure
              && (failure.None? ==> pr.reader == ReaderOf(group', parameter', contents', groupEnd', parameters')
                                    && Reset(group', contents', parameters'))
    {
      group', parameter', contents', groupEnd', parameters' := group, parameter, contents, groupEnd, parameters;
      failure := None;
      if IsSection(line) {
        var section := SectionName(line);
        if group == "" {
          OpenStep(lines, line, start, State());
          if section != "article" && section != "test" {
            failure := Some(UnexpectedSection(section));
            return;
          }
          group' := section;
          parameter' := section;
          if section == "article" {
            groupEnd' := "endarticle";
          } else {
            groupEnd' := "end";
          }
        } else if section == groupEnd {
          CloseStep(lines, line, start, State(), group, parameter, contents, groupEnd, parameters);
          parameters' := parameters[parameter := contents];
          var visited := Visit(group, parameters');
          if visited.Fail? {
            failure := Some(visited.error);
            return;
          }
          group', parameter', contents', groupEnd' := "", "", "", "";
          parameters' := map[];
        } else {
          NextStep(lines, line, start, State(), group, parameter, contents, groupEnd, parameters);
          parameters' := parameters[parameter := contents];
          parameter' := section;
          contents' := "";
        }
      } else {
        PlainStep(lines, line, start, ReaderOf(group, parameter, contents, groupEnd, parameters), State());
        if group != "" {
          contents' := contents + line;
        }
      }
    }

    /** `parse`: the lines in order, each group visited when its end line
        comes; the first error stops it, the attributes keeping what the
        visits before it stored. */
    method Parse() returns (outcome: Outcome<ReadError>)
      modifies this
      ensures State() == RunCurrent(file, old(State())).parsed
      ensures outcome == OutcomeOf(RunCurrent(file, old(State())).failure)
    {
      ghost var start := State();
      var group, parameter, contents, groupEnd := "", "", "", "";
      var parameters: map<string, string> := map[];
      var i := 0;
      while i < |file|
        invariant i <= |file| && Reset(group, contents, parameters)
        invariant RunCurrent(file[..i], start) == Progress(ReaderOf(group, parameter, contents, groupEnd, parameters), State(), None)
      {
        TakeSnoc(file, i);
        var failure;
        group, parameter, contents, groupEnd, parameters, failure :=
          ReadLine(file[..i], start, file[i], group, parameter, contents, groupEnd, parameters);
        if failure.Some? {
          RunCurrentStops(file, i + 1, start);
          return Fail(failure.value);
        }
        i := i + 1;
      }
      TakeAll(file);
      return Pass;
    }
  }
}
