/** The older parser-test reader kept beside the tests: the same line loop
    as `MediaWikiParserTestsParser.parse`, but `visit_article` and
    `visit_test` only append the parameters they are given, so it checks
    nothing beyond the opening sections. */
module LegacyParser {
  import opened Outcomes
  import opened TestFileReader
  import opened ParserTests

  /** An opening line outside a group. */
  lemma OpenLine(lines: seq<string>, line: string, gs: seq<Group>)
    requires Collect(lines) == Collected(Idle, gs, None) && IsSection(line)
    ensures var n := SectionName(line);
            Collect(lines + [line])
            == if GroupKind(n) then Collected(InGroup(n, n, "", GroupEnd(n), map[]), gs, None)
               else Collected(Idle, gs, Some(UnexpectedSection(n)))
  {
    CollectHeader(lines, line);
  }

  /** A line inside a group naming a section other than the group's end. */
  lemma NextLine(lines: seq<string>, line: string, gs: seq<Group>,
                 group: string, parameter: string, contents: string, groupEnd: string, parameters: map<string, string>)
    requires Collect(lines) == Collected(InGroup(group, parameter, contents, groupEnd, parameters), gs, None)
    requires IsSection(line) && SectionName(line) != groupEnd
    ensures Collect(lines + [line])
            == Collected(InGroup(group, SectionName(line), "", groupEnd, parameters[parameter := contents]), gs, None)
  {
    CollectHeader(lines, line);
  }

  /** The end line of a group: the group is handed on. */
  lemma CloseLine(lines: seq<string>, line: string, gs: seq<Group>,
                  group: string, parameter: string, contents: string, groupEnd: string, parameters: map<string, string>)
    requires Collect(lines) == Collected(InGroup(group, parameter, contents, groupEnd, parameters), gs, None)
    requires IsSection(line) && SectionName(line) == groupEnd
    ensures Collect(lines + [line]) == Collected(Idle, gs + [Group(group, parameters[parameter := contents])], None)
  {
    CollectHeader(lines, line);
  }

  /** A line naming no section. */
  lemma PlainLine(lines: seq<string>, line: string, gs: seq<Group>, rd: Reader)
    requires Collect(lines) == Collected(rd, gs, None) && !IsSection(line)
    ensures Collect(lines + [line]) == Collected(Append(rd, line), gs, None)
  {
    CollectPlain(lines, line);
  }

  /** The articles and the tests after one group more. */
  lemma KindsSnoc(gs: seq<Group>, g: Group)
    ensures ArticlesOf(gs + [g]) == ArticlesOf(gs) + (if g.kind == "article" then [g.fields] else [])
    ensures TestsOf(gs + [g]) == TestsOf(gs) + (if g.kind == "test" then [g.fields] else [])
  {
    OfKindSnoc(gs, g, "article");
    OfKindSnoc(gs, g, "test");
  }

  /** `MediaWikiParserTestCasesParser`: the file as its lines, and the
      parameters of the articles and of the tests in file order. */
  class TestCasesParser {
    const file: seq<string>
    var articles: seq<map<string, string>>
    var testCases: seq<map<string, string>>

    constructor(file: seq<string>)
      ensures this.file == file && articles == [] && testCases == []
    {
      this.file := file;
      articles := [];
      testCases := [];
    }

    method VisitArticle(contents: map<string, string>)
      modifies this
      ensures articles == old(articles) + [contents] && testCases == old(testCases)
    {
      articles := articles + [contents];
    }

    method VisitTest(contents: map<string, string>)
      modifies this
      ensures testCases == old(testCases) + [contents] && articles == old(articles)
    {
      testCases := testCases + [contents];
    }

    /** `visit`: the visitor named after the section, and the
        `RuntimeError` when there is none. */
    method Visit(section: string, contents: map<string, string>) returns (outcome: Outcome<ReadError>)
      modifies this
      ensures outcome == if GroupKind(section) then Pass else Fail(UnknownSectionType(section))
      ensures articles == old(articles) + (if section == "article" then [contents] else [])
      ensures testCases == old(testCases) + (if section == "test" then [contents] else [])
    {
      if section == "article" {
        VisitArticle(contents);
        outcome := Pass;
      } else if section == "test" {
        VisitTest(contents);
        outcome := Pass;
      } else {
        outcome := Fail(UnknownSectionType(section));
      }
    }

    /** One line of the loop of `parse`, with the loop's locals passed in
        and handed back; `lines` are the lines read before, and `a0` and
        `t0` the lists the parse started from. */
    method ReadLine(ghost lines: seq<string>, ghost a0: seq<map<string, string>>, ghost t0: seq<map<string, string>>,
                    line: string,
                    group: string, parameter: string, contents: string, groupEnd: string, parameters: map<string, string>)
      returns (group': string, parameter': string, contents': string, groupEnd': string, parameters': map<string, string>,
               failure: Option<ReadError>)
      requires Reset(group, contents, parameters)
      requires Collect(lines) == Collected(ReaderOf(group, parameter, contents, groupEnd, parameters), Collect(lines).groups, None)
      requires articles == a0 + ArticlesOf(Collect(lines).groups) && testCases == t0 + TestsOf(Collect(lines).groups)
      modifies this
      ensures var c := Collect(lines + [line]);
              failure == c.failure
              && articles == a0 + ArticlesOf(c.groups) && testCases == t0 + TestsOf(c.groups)
              && (failure.None? ==> c.reader == ReaderOf(group', parameter', contents', groupEnd', parameters')
                                    && Reset(group', contents', parameters'))
    {
      ghost var gs := Collect(lines).groups;
      group', parameter', contents', groupEnd', parameters' := group, parameter, contents, groupEnd, parameters;
      failure := None;
      if IsSection(line) {
        var section := SectionName(line);
        if group == "" {
          OpenLine(lines, line, gs);
          if section != "article" && section != "test" {
            failure := Some(UnexpectedSection(section));
            return;
          }
          group' := section;
          parameter' := section;
          groupEnd' := "end";
          if section == "article" {
            groupEnd' := "endarticle";
          }
        } else if section == groupEnd {
          CloseLine(lines, line, gs, group, parameter, contents, groupEnd, parameters);
          CollectOk(lines);
          parameters' := parameters[parameter := contents];
          KindsSnoc(gs, Group(group, parameters'));
          var visited := Visit(group, parameters');
          assert visited == Pass;
          group', parameter', contents', groupEnd' := "", "", "", "";
          parameters' := map[];
        } else {
          NextLine(lines, line, gs, group, parameter, contents, groupEnd, parameters);
          parameters' := parameters[parameter := contents];
          parameter' := section;
          contents' := "";
        }
      } else {
        PlainLine(lines, line, gs, ReaderOf(group, parameter, contents, groupEnd, parameters));
        if group != "" {
          contents' := contents + line;
        }
      }
    }

    /** `parse`: the groups of the file appended in order, articles and
        tests apart; an unexpected opening section raises `ValueError`,
        the lists keeping the groups read before it. */
    method Parse() returns (outcome: Outcome<ReadError>)
      modifies this
      ensures articles == old(articles) + ArticlesOf(Collect(file).groups)
      ensures testCases == old(testCases) + TestsOf(Collect(file).groups)
      ensures outcome == OutcomeOf(Collect(file).failure)
    {
      ghost var a0, t0 := articles, testCases;
      var group, parameter, contents, groupEnd := "", "", "", "";
      var parameters: map<string, string> := map[];
      var i := 0;
      while i < |file|
        invariant i <= |file| && Reset(group, contents, parameters)
        invariant Collect(file[..i]) == Collected(ReaderOf(group, parameter, contents, groupEnd, parameters), Collect(file[..i]).groups, None)
        invariant articles == a0 + ArticlesOf(Collect(file[..i]).groups) && testCases == t0 + TestsOf(Collect(file[..i]).groups)
      {
        TakeSnoc(file, i);
        var failure;
        group, parameter, contents, groupEnd, parameters, failure :=
          ReadLine(file[..i], a0, t0, file[i], group, parameter, contents, groupEnd, parameters);
        if failure.Some? {
          CollectStops(file, i + 1);
          return Fail(failure.value);
        }
        i := i + 1;
      }
      TakeAll(file);
      return Pass;
    }
  }

  /** The current reader is stricter than the legacy one and keeps the
      same contents: every file the legacy reader rejects it rejects too,
      and a file it reads without error leaves the legacy reader's tests
      without their `options` field, and the legacy reader's articles
      stored under their stripped names. */
  lemma CurrentRefinesLegacy(lines: seq<string>)
    ensures Collect(lines).failure.Some? ==> RunCurrent(lines, Parsed(map[], [])).failure.Some?
    ensures RunCurrent(lines, Parsed(map[], [])).failure.None? ==>
              RunCurrent(lines, Parsed(map[], [])).parsed.articles == ArticleMap(ArticlesOf(Collect(lines).groups))
              && FieldsOf(RunCurrent(lines, Parsed(map[], [])).parsed.testCases) == WithoutOptions(TestsOf(Collect(lines).groups))
  {
    RunCurrentCollect(lines, Parsed(map[], []));
    if RunCurrent(lines, Parsed(map[], [])).failure.None? {
      ParseContents(lines);
    }
  }
}
