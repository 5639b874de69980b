/** The line reader shared by the two parser-test file readers: a file is a
    sequence of lines (each with its line break, as `readlines()` gives
    them); a line starting with `!!` names a section; `!! article` and
    `!! test` open a group, the sections inside it collect the lines after
    them, and `!! endarticle` or `!! end` closes it and hands it on. */
module TestFileReader {
  import opened Outcomes
  import opened Strings
  import opened Options

  /** What reading a test file can raise. */
  datatype ReadError =
    | UnexpectedSection(section: string)     // a group must open with `article` or `test`
    | UnknownParameters(names: set<string>)  // an article has fields other than `article` and `text`
    | DuplicateArticle(name: string)         // an article name met twice
    | MissingField(field: string)            // the `KeyError` of a missing field
    | BadOptions(error: OptionError)         // the options of a test do not parse
    | UnknownSectionType(section: string)    // the `RuntimeError` of a group with no visitor

  /** The locals of the loop in `parse` between two lines: outside any
      group (the locals at their initial values), or inside a group with
      the parameter being read, its contents so far, the section name
      that ends the group and the parameters already complete. */
  datatype Reader =
    | Idle
    | InGroup(group: string, parameter: string, contents: string, groupEnd: string, parameters: map<string, string>)

  /** A group as it is handed on: `article` or `test`, and its parameters. */
  datatype Group = Group(kind: string, fields: map<string, string>)

  predicate IsSection(line: string) {
    StartsWith(line, "!!")
  }

  /** `line[2:].strip().lower()`: the section a `!!` line names. */
  function SectionName(line: string): (r: string)
    ensures |line| < 2 ==> r == []
    ensures |line| >= 2 ==> |r| == |Strip(line[2..])|
    ensures |line| >= 2 ==> forall i :: 0 <= i < |r| ==> r[i] == Lower(Strip(line[2..])[i])
    ensures forall i :: 0 <= i < |r| ==> !IsAsciiUpper(r[i])
  {
    if |line| < 2 then "" else LowerAll(Strip(line[2..]))
  }

  /** The sections that may open a group. */
  predicate GroupKind(section: string) {
    section == "article" || section == "test"
  }

  /** The section that closes a group of the given kind. */
  function GroupEnd(kind: string): string {
    if kind == "article" then "endarticle" else "end"
  }

  /** A line that names no section: outside a group it is ignored, inside
      one it is added to the contents of the parameter being read. */
  function Append(rd: Reader, line: string): Reader {
    match rd
    case Idle => Idle
    case InGroup(group, parameter, contents, groupEnd, parameters) =>
      InGroup(group, parameter, contents + line, groupEnd, parameters)
  }

  /** A `!!` line naming `section`: outside a group it opens one (only
      `article` and `test` may); inside one it completes the parameter
      being read and either ends the group, handing it on, or starts the
      parameter `section` with empty contents. */
  function Header(rd: Reader, section: string): Result<(Reader, Option<Group>), ReadError> {
    match rd
    case Idle =>
      if GroupKind(section) then Ok((InGroup(section, section, "", GroupEnd(section), map[]), None))
      else Err(UnexpectedSection(section))
    case InGroup(group, parameter, contents, groupEnd, parameters) =>
      var complete := parameters[parameter := contents];
      if section == groupEnd then Ok((Idle, Some(Group(group, complete))))
      else Ok((InGroup(group, section, "", groupEnd, complete), None))
  }

  /** One line of the loop of `parse`, and the group it closes, if any. */
  function Advance(rd: Reader, line: string): Result<(Reader, Option<Group>), ReadError> {
    if IsSection(line) then Header(rd, SectionName(line)) else Ok((Append(rd, line), None))
  }

  /** The reader after some lines, the groups closed so far in file order,
      and the error that stopped the reading, if one did. */
  datatype Collected = Collected(reader: Reader, groups: seq<Group>, failure: Option<ReadError>)

  /** What one line does to the reading, once `Advance` has dealt with it:
      an error stops it, a closed group is recorded. */
  function Gather(c: Collected, a: Result<(Reader, Option<Group>), ReadError>): Collected {
    match a
    case Err(e) => c.(failure := Some(e))
    case Ok((rd, None)) => c.(reader := rd)
    case Ok((rd, Some(g))) => Collected(rd, c.groups + [g], None)
  }

  /** The loop of `parse` over `lines`, recording the groups it closes. */
  function Collect(lines: seq<string>): Collected {
    if lines == [] then Collected(Idle, [], None)
    else
      var c := Collect(lines[..|lines| - 1]);
      if c.failure.Some? then c else Gather(c, Advance(c.reader, lines[|lines| - 1]))
  }

  /** One line more. */
  lemma CollectSnoc(lines: seq<string>, line: string)
    ensures Collect(lines + [line])
            == if Collect(lines).failure.Some? then Collect(lines) else Gather(Collect(lines), Advance(Collect(lines).reader, line))
  {
    assert (lines + [line])[..|lines|] == lines;
  }

  /** One line more that names no section. */
  lemma CollectPlain(lines: seq<string>, line: string)
    requires Collect(lines).failure.None? && !IsSection(line)
    ensures Collect(lines + [line]) == Collect(lines).(reader := Append(Collect(lines).reader, line))
  {
    CollectSnoc(lines, line);
  }

  /** One `!!` line more. */
  lemma CollectHeader(lines: seq<string>, line: string)
    requires Collect(lines).failure.None? && IsSection(line)
    ensures Collect(lines + [line]) == Gather(Collect(lines), Header(Collect(lines).reader, SectionName(line)))
  {
    CollectSnoc(lines, line);
  }

  /** A sequence is its front and its last element. */
  lemma FrontLast<T>(s: seq<T>)
    requires s != []
    ensures s[..|s| - 1] + [s[|s| - 1]] == s
  {
  }

  /** A prefix of the front is a prefix of the whole. */
  lemma FrontPrefix<T>(s: seq<T>, k: nat)
    requires k < |s|
    ensures s[..|s| - 1][..k] == s[..k]
  {
  }

  /** The first `i + 1` elements are the first `i` and one more. */
  lemma TakeSnoc<T>(s: seq<T>, i: nat)
    requires i < |s|
    ensures s[..i + 1] == s[..i] + [s[i]]
  {
  }

  lemma TakeAll<T>(s: seq<T>)
    ensures s[..|s|] == s
  {
  }

  lemma Assoc<T>(a: seq<T>, b: seq<T>, c: seq<T>)
    ensures a + (b + c) == (a + b) + c
  {
  }

  /** Splitting off the last of the lines added. */
  lemma ConcatSnoc<T>(lines: seq<T>, body: seq<T>)
    requires body != []
    ensures lines + body == (lines + body[..|body| - 1]) + [body[|body| - 1]]
  {
    assert body == body[..|body| - 1] + [body[|body| - 1]];
  }

  /** The reader inside a group: its kind opens groups, its end is the
      kind's end, and the group name is a parameter from the first
      section on. */
  predicate ReaderOk(rd: Reader) {
    rd.InGroup? ==> GroupKind(rd.group) && rd.groupEnd == GroupEnd(rd.group)
                    && (rd.parameter == rd.group || rd.group in rd.parameters)
  }

  /** A closed group is an article or a test and holds its own name as a
      parameter (the text right after its opening line). */
  predicate GroupOk(g: Group) {
    GroupKind(g.kind) && g.kind in g.fields
  }

  lemma AdvanceOk(rd: Reader, line: string)
    requires ReaderOk(rd)
    ensures Advance(rd, line).Ok? ==> ReaderOk(Advance(rd, line).value.0)
    ensures Advance(rd, line).Ok? && Advance(rd, line).value.1.Some? ==> GroupOk(Advance(rd, line).value.1.value)
  {
  }

  /** The reader stays well formed, so every group handed on is an article
      or a test with its name as a parameter, and the `RuntimeError` for
      an unknown section type and the `KeyError` for a missing
      `article` field cannot happen. */
  lemma {:induction false} CollectOk(lines: seq<string>)
    ensures ReaderOk(Collect(lines).reader)
    ensures forall i :: 0 <= i < |Collect(lines).groups| ==> GroupOk(Collect(lines).groups[i])
    decreases |lines|
  {
    if lines != [] {
      var init := lines[..|lines| - 1];
      CollectOk(init);
      FrontLast(lines);
      CollectSnoc(init, lines[|lines| - 1]);
      AdvanceOk(Collect(init).reader, lines[|lines| - 1]);
    }
  }

  /** Once the reading has failed, later lines change nothing. */
  lemma {:induction false} CollectStops(lines: seq<string>, k: nat)
    requires k <= |lines| && Collect(lines[..k]).failure.Some?
    ensures Collect(lines) == Collect(lines[..k])
    decreases |lines| - k
  {
    if k < |lines| {
      var init := lines[..|lines| - 1];
      FrontPrefix(lines, k);
      CollectStops(init, k);
    } else {
      assert lines[..k] == lines;
    }
  }

  /** The reading fails only at a `!!` line read outside any group whose
      name is neither `article` nor `test`, and names that section; `k` is
      that line. */
  lemma {:induction false} CollectFailure(lines: seq<string>) returns (k: nat)
    requires Collect(lines).failure.Some?
    ensures k < |lines| && Collect(lines[..k]).reader == Idle && Collect(lines[..k]).failure.None?
    ensures IsSection(lines[k]) && Collect(lines).failure == Some(UnexpectedSection(SectionName(lines[k])))
    ensures !GroupKind(SectionName(lines[k]))
    decreases |lines|
  {
    var init := lines[..|lines| - 1];
    var last := lines[|lines| - 1];
    FrontLast(lines);
    CollectSnoc(init, last);
    if Collect(init).failure.Some? {
      k := CollectFailure(init);
      FrontPrefix(lines, k);
    } else {
      k := |lines| - 1;
    }
  }

  /** The lines joined, as `contents += line` joins them. */
  function Joined(lines: seq<string>): string {
    if lines == [] then "" else Joined(lines[..|lines| - 1]) + lines[|lines| - 1]
  }

  /** No line of `body` names a section. */
  predicate PlainLines(body: seq<string>) {
    forall i :: 0 <= i < |body| ==> !IsSection(body[i])
  }

  /** Outside a group, lines that name no section are ignored. */
  lemma {:induction false} OutsideIgnored(lines: seq<string>, body: seq<string>)
    requires Collect(lines).reader == Idle && Collect(lines).failure.None? && PlainLines(body)
    ensures Collect(lines + body) == Collect(lines)
    decreases |body|
  {
    if body == [] {
      assert lines + body == lines;
    } else {
      PlainLinesFront(body);
      OutsideIgnored(lines, body[..|body| - 1]);
      ConcatSnoc(lines, body);
      CollectPlain(lines + body[..|body| - 1], body[|body| - 1]);
    }
  }

  lemma PlainLinesFront(body: seq<string>)
    requires body != [] && PlainLines(body)
    ensures PlainLines(body[..|body| - 1]) && !IsSection(body[|body| - 1])
  {
    var front := body[..|body| - 1];
    forall i | 0 <= i < |front|
      ensures !IsSection(front[i])
    {
      assert front[i] == body[i];
    }
  }

  /** Inside a group, lines that name no section are appended to the
      contents of the parameter being read. */
  lemma {:induction false} BodyAccumulates(lines: seq<string>, body: seq<string>)
    requires Collect(lines).reader.InGroup? && Collect(lines).failure.None? && PlainLines(body)
    ensures var c := Collect(lines);
            Collect(lines + body)
            == Collected(InGroup(c.reader.group, c.reader.parameter, c.reader.contents + Joined(body), c.reader.groupEnd, c.reader.parameters),
                         c.groups, None)
    decreases |body|
  {
    var c := Collect(lines);
    if body == [] {
      assert lines + body == lines;
      assert c.reader.contents + Joined(body) == c.reader.contents;
    } else {
      var front := body[..|body| - 1];
      var last := body[|body| - 1];
      PlainLinesFront(body);
      BodyAccumulates(lines, front);
      ConcatSnoc(lines, body);
      CollectPlain(lines + front, last);
      Assoc(c.reader.contents, Joined(front), last);
    }
  }

  /** A section in a group: its name line, then its lines. */
  datatype Section = Section(header: string, body: seq<string>)

  function SectionLines(sections: seq<Section>): seq<string> {
    if sections == [] then []
    else SectionLines(sections[..|sections| - 1]) + [sections[|sections| - 1].header] + sections[|sections| - 1].body
  }

  /** Splitting off the last section of those added. */
  lemma SectionLinesSnoc(prefix: seq<string>, sections: seq<Section>)
    requires sections != []
    ensures prefix + SectionLines(sections)
            == (prefix + SectionLines(sections[..|sections| - 1]) + [sections[|sections| - 1].header]) + sections[|sections| - 1].body
  {
    var front := sections[..|sections| - 1];
    var last := sections[|sections| - 1];
    assert SectionLines(sections) == (SectionLines(front) + [last.header]) + last.body;
    Assoc(prefix, SectionLines(front) + [last.header], last.body);
    Assoc(prefix, SectionLines(front), [last.header]);
  }

  /** The parameter being read after some sections: the group's own
      name before the first one. */
  function LastName(first: string, sections: seq<Section>): string {
    if sections == [] then first else SectionName(sections[|sections| - 1].header)
  }

  /** The lines of the parameter being read after some sections. */
  function LastBody(lead: seq<string>, sections: seq<Section>): seq<string> {
    if sections == [] then lead else sections[|sections| - 1].body
  }

  /** The parameters complete after the given sections, each one's lines
      joined under its (stripped, lower-cased) name, a later one replacing
      an earlier one of the same name; `first` is the group's own name and
      `lead` the lines right after the opening line. */
  function FieldsAfter(first: string, lead: seq<string>, sections: seq<Section>): map<string, string> {
    if sections == [] then map[]
    else
      var front := sections[..|sections| - 1];
      FieldsAfter(first, lead, front)[LastName(first, front) := Joined(LastBody(lead, front))]
  }

  /** The reader inside a group of the given kind after some sections. */
  function ReaderAfter(kind: string, lead: seq<string>, sections: seq<Section>): Reader {
    InGroup(kind, LastName(kind, sections), Joined(LastBody(lead, sections)), GroupEnd(kind), FieldsAfter(kind, lead, sections))
  }

  /** A section inside a group: a `!!` line that does not close the group,
      then lines that name no section. */
  predicate InnerSection(s: Section, groupEnd: string) {
    IsSection(s.header) && SectionName(s.header) != groupEnd && PlainLines(s.body)
  }

  predicate InnerHeaders(sections: seq<Section>, groupEnd: string) {
    forall i :: 0 <= i < |sections| ==> InnerSection(sections[i], groupEnd)
  }

  lemma InnerHeadersFront(sections: seq<Section>, groupEnd: string)
    requires sections != [] && InnerHeaders(sections, groupEnd)
    ensures InnerHeaders(sections[..|sections| - 1], groupEnd) && InnerSection(sections[|sections| - 1], groupEnd)
  {
    var front := sections[..|sections| - 1];
    forall i | 0 <= i < |front|
      ensures InnerSection(front[i], groupEnd)
    {
      assert front[i] == sections[i];
    }
  }

  /** One section inside a group: its name line completes the parameter
      being read, and its lines become the contents of the next one. */
  lemma SectionStep(before: seq<string>, header: string, body: seq<string>)
    requires Collect(before).reader.InGroup? && Collect(before).failure.None?
    requires IsSection(header) && SectionName(header) != Collect(before).reader.groupEnd && PlainLines(body)
    ensures var rd := Collect(before).reader;
            Collect(before + [header] + body)
            == Collected(InGroup(rd.group, SectionName(header), Joined(body), rd.groupEnd, rd.parameters[rd.parameter := rd.contents]),
                         Collect(before).groups, None)
  {
    CollectHeader(before, header);
    BodyAccumulates(before + [header], body);
    assert "" + Joined(body) == Joined(body);
  }

  /** A group being read through: the reader after the opening line, the
      lines right after it, and some sections. */
  lemma {:induction false} ReadSections(lines: seq<string>, kind: string, lead: seq<string>, sections: seq<Section>)
    requires Collect(lines).reader == InGroup(kind, kind, "", GroupEnd(kind), map[]) && Collect(lines).failure.None?
    requires PlainLines(lead) && InnerHeaders(sections, GroupEnd(kind))
    ensures Collect(lines + lead + SectionLines(sections)) == Collected(ReaderAfter(kind, lead, sections), Collect(lines).groups, None)
    decreases |sections|
  {
    if sections == [] {
      BodyAccumulates(lines, lead);
      assert SectionLines(sections) == [];
      assert lines + lead + [] == lines + lead;
      assert "" + Joined(lead) == Joined(lead);
    } else {
      var front := sections[..|sections| - 1];
      var last := sections[|sections| - 1];
      InnerHeadersFront(sections, GroupEnd(kind));
      ReadSections(lines, kind, lead, front);
      SectionLinesSnoc(lines + lead, sections);
      SectionStep(lines + lead + SectionLines(front), last.header, last.body);
    }
  }

  /** The parameters of a group: those of its sections, and the last
      section's lines stored when the end line comes. */
  function GroupFields(kind: string, lead: seq<string>, sections: seq<Section>): map<string, string> {
    FieldsAfter(kind, lead, sections)[LastName(kind, sections) := Joined(LastBody(lead, sections))]
  }

  /** A whole group, from the line that opens it to the line that ends it:
      it is handed on with each section's lines joined under the section's
      name and the lines after the opening line under the group's name,
      and the reader is back outside any group. */
  lemma ReadGroup(lines: seq<string>, open: string, lead: seq<string>, sections: seq<Section>, close: string)
    requires Collect(lines).reader == Idle && Collect(lines).failure.None?
    requires IsSection(open) && GroupKind(SectionName(open))
    requires PlainLines(lead) && InnerHeaders(sections, GroupEnd(SectionName(open)))
    requires IsSection(close) && SectionName(close) == GroupEnd(SectionName(open))
    ensures Collect(lines + [open] + lead + SectionLines(sections) + [close])
            == Collected(Idle, Collect(lines).groups + [Group(SectionName(open), GroupFields(SectionName(open), lead, sections))], None)
  {
    var kind := SectionName(open);
    CollectHeader(lines, open);
    ReadSections(lines + [open], kind, lead, sections);
    CollectHeader(lines + [open] + lead + SectionLines(sections), close);
  }

  /** A group left open at the end of the file is never handed on: after
      its opening line, no line names the end of the group, so no group is
      closed and no error is raised however the file goes on. */
  lemma {:induction false} OpenGroupDropped(lines: seq<string>, k: nat)
    requires k < |lines| && Collect(lines[..k]).reader == Idle && Collect(lines[..k]).failure.None?
    requires IsSection(lines[k]) && GroupKind(SectionName(lines[k]))
    requires forall j :: k < j < |lines| && IsSection(lines[j]) ==> SectionName(lines[j]) != GroupEnd(SectionName(lines[k]))
    ensures Collect(lines).failure.None? && Collect(lines).groups == Collect(lines[..k]).groups
    ensures Collect(lines).reader.InGroup? && Collect(lines).reader.groupEnd == GroupEnd(SectionName(lines[k]))
    decreases |lines|
  {
    var init := lines[..|lines| - 1];
    var last := lines[|lines| - 1];
    FrontLast(lines);
    if |lines| - 1 == k {
      CollectHeader(init, last);
    } else {
      FrontPrefix(lines, k);
      assert init[k] == lines[k];
      OpenGroupDropped(init, k);
      if IsSection(last) {
        CollectHeader(init, last);
      } else {
        CollectPlain(init, last);
      }
    }
  }

  /** The parameters of the groups of the given kind, in file order. */
  function OfKind(gs: seq<Group>, kind: string): seq<map<string, string>> {
    if gs == [] then []
    else OfKind(gs[..|gs| - 1], kind) + (if gs[|gs| - 1].kind == kind then [gs[|gs| - 1].fields] else [])
  }

  function ArticlesOf(gs: seq<Group>): seq<map<string, string>> {
    OfKind(gs, "article")
  }

  function TestsOf(gs: seq<Group>): seq<map<string, string>> {
    OfKind(gs, "test")
  }

  /** One group more. */
  lemma OfKindSnoc(gs: seq<Group>, g: Group, kind: string)
    ensures OfKind(gs + [g], kind) == OfKind(gs, kind) + (if g.kind == kind then [g.fields] else [])
  {
    assert (gs + [g])[..|gs|] == gs;
  }

  /** When every group is an article or a test, the articles and the tests
      share out the groups between them. */
  lemma {:induction false} KindsPartition(gs: seq<Group>)
    requires forall i :: 0 <= i < |gs| ==> GroupOk(gs[i])
    ensures |ArticlesOf(gs)| + |TestsOf(gs)| == |gs|
    decreases |gs|
  {
    if gs != [] {
      var front := gs[..|gs| - 1];
      assert forall i :: 0 <= i < |front| ==> GroupOk(front[i]) by {
        forall i | 0 <= i < |front|
          ensures GroupOk(front[i])
        {
          assert front[i] == gs[i];
        }
      }
      KindsPartition(front);
      assert GroupOk(gs[|gs| - 1]);
    }
  }
}
