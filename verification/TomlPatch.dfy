/** The edit of an agent option over a whole file: finding the project, making the missing
    tables, re-indexing and setting the key (config/config.go, patchProjectAgentOption). */
module TomlPatch {
  import opened Text
  import opened TomlLines
  import opened Search
  import opened TomlSpans
  import opened TomlSections
  import opened TomlEdits

  /** The file after the edit: the lines of one project replaced. None if there is no such
      project in the text. */
  ghost function PatchedLines(lines: seq<string>, project: nat, key: string, value: string,
      wide: Printable): Option<seq<string>> {
    var h := ProjectStarts(lines);
    if project >= |h| then None
    else
      ProjectBound(lines, project);
      var lo, hi := h[project], NextOf(h, project, |lines|);
      Some(lines[..lo] + PatchedProject(lines[lo..hi], key, value, wide) + lines[hi..])
  }

  // ----- line numbers of one project

  /** The section with this header in the project of lines st up to hi, by line numbers of the file. */
  ghost predicate SpanIs(lines: seq<string>, st: nat, hi: nat, header: string, first: int, last: int)
    requires st < hi <= |lines|
  {
    var s := lines[st..hi];
    var at := Last(s, Header(header));
    if at < 0 then first == -1 && last == -1 else first == st + at && last == first + |Cut(s, at).body|
  }

  lemma SectionSpan(lines: seq<string>, st: nat, hi: nat, header: string)
    requires st < hi <= |lines| && !MatchTableHeader(lines[st], header)
    ensures var a := Last(lines[st + 1..hi], Header(header));
      SpanIs(lines, st, hi, header, if a >= 0 then st + 1 + a else -1, if a >= 0 then SectionEnd(lines, st + 1 + a, hi) else -1)
  {
    hide MatchTableHeader, IsAnyTableHeader;
    LastCons(lines[st], lines[st + 1..hi], Header(header));
    hide Last;
    assert lines[st..hi] == [lines[st]] + lines[st + 1..hi];
    var a := Last(lines[st + 1..hi], Header(header));
    if a >= 0 {
      assert lines[st + 1 + a + 1..hi] == lines[st..hi][a + 2..];
    }
  }

  lemma ProjectHeaderOnly(line: string)
    requires MatchTableHeader(line, PROJECTS)
    ensures !MatchTableHeader(line, AGENT) && !MatchTableHeader(line, AGENT_OPTIONS)
  {
    assert AGENT[1] == 'p' && AGENT_OPTIONS[1] == 'p' && PROJECTS[1] == '[';
    hide MatchTableHeader;
    HeadersDiffer(line, PROJECTS, AGENT, 1);
    HeadersDiffer(line, PROJECTS, AGENT_OPTIONS, 1);
  }

  lemma AgentSpans(lines: seq<string>, st: nat, hi: nat)
    requires st < hi <= |lines| && MatchTableHeader(lines[st], PROJECTS)
    ensures var span := ProjectAt(lines, st, hi);
      && span.start == st && span.end == hi - 1
      && SpanIs(lines, st, hi, AGENT, span.agentStart, span.agentEnd)
      && SpanIs(lines, st, hi, AGENT_OPTIONS, span.agentOptionsStart, span.agentOptionsEnd)
  {
    hide *;
    ProjectHeaderOnly(lines[st]);
    SectionSpan(lines, st, hi, AGENT);
    SectionSpan(lines, st, hi, AGENT_OPTIONS);
    ProjectFields(lines, st, hi);
  }

  /** The project with this number: its lines, those before and after, and its span. */
  lemma ProjectAround(lines: seq<string>, i: nat) returns (a: seq<string>, s: seq<string>, c: seq<string>)
    requires i < |ProjectSpans(lines)|
    ensures lines == a + s + c && IsProject(s) && (c == [] || MatchTableHeader(c[0], PROJECTS))
    ensures i < |ProjectStarts(lines)| && |a| == ProjectStarts(lines)[i] && |a| + |s| == NextOf(ProjectStarts(lines), i, |lines|)
    ensures ProjectSpans(lines)[i] == ProjectAt(lines, |a|, |a| + |s|)
    ensures |Groups(a, Header(PROJECTS)).1| == i
  {
    hide *;
    SpansCount(lines);
    ProjectBound(lines, i);
    SpansEntry(lines, i);
    StartsAre(lines);
    a, s, c := GroupAt(lines, Header(PROJECTS), i);
    IsProjectIs(s);
    if c != [] { HeaderIs(c[0], PROJECTS); }
  }

  lemma StartsAre(lines: seq<string>)
    ensures ProjectStarts(lines) == Hits(lines, Header(PROJECTS), 0)
  {
  }

  lemma HeaderIs(line: string, header: string)
    ensures Header(header)(line) == MatchTableHeader(line, header)
  {
  }

  lemma IsProjectIs(s: seq<string>)
    ensures IsProject(s) <==> IsGroup(s, Header(PROJECTS))
    ensures IsProject(s) ==> s != [] && MatchTableHeader(s[0], PROJECTS)
  {
    hide MatchTableHeader;
  }

  /** A project between other lines is the one its place says. */
  lemma ProjectPlace(a: seq<string>, s: seq<string>, c: seq<string>, i: nat)
    requires IsProject(s) && (c == [] || MatchTableHeader(c[0], PROJECTS)) && |Groups(a, Header(PROJECTS)).1| == i
    ensures i < |ProjectSpans(a + s + c)| && ProjectSpans(a + s + c)[i] == ProjectAt(a + s + c, |a|, |a| + |s|)
    ensures i < |ProjectStarts(a + s + c)|
    ensures ProjectStarts(a + s + c)[i] == |a| && NextOf(ProjectStarts(a + s + c), i, |a + s + c|) == |a| + |s|
  {
    hide *;
    IsProjectIs(s);
    if c != [] { HeaderIs(c[0], PROJECTS); }
    HitsAround(a, s, c, Header(PROJECTS), 0);
    GroupCount(a, Header(PROJECTS));
    StartsAre(a + s + c);
    SpansCount(a + s + c);
    SpansEntry(a + s + c, i);
  }

  lemma PatchedAround(a: seq<string>, s: seq<string>, c: seq<string>, i: nat, key: string, value: string, wide: Printable)
    requires IsProject(s) && (c == [] || MatchTableHeader(c[0], PROJECTS)) && |Groups(a, Header(PROJECTS)).1| == i
    ensures PatchedLines(a + s + c, i, key, value, wide) == Some(a + PatchedProject(s, key, value, wide) + c)
  {
    ProjectPlace(a, s, c, i);
    var lines := a + s + c;
    hide MatchTableHeader, ProjectSpans, ProjectAt, Groups, Hits, PatchedProject, ProjectStarts;
    assert lines[..|a|] == a && lines[|a|..|a| + |s|] == s && lines[|a| + |s|..] == c;
  }

  // ----- the edit

  /** The line before which a table without its own place goes: the first header of the
      project, or its end. */
  method FirstTable(lines: seq<string>, start: nat, end: nat) returns (insertAt: nat)
    requires start <= end < |lines|
    ensures insertAt == start + 1 + First(lines[start + 1..end + 1], AnyHeader())
  {
    hide IsAnyTableHeader;
    insertAt := start + 1;
    var ln := start + 1;
    while ln <= end
      invariant start < ln == insertAt <= end + 1
      invariant First(lines[start + 1..end + 1], AnyHeader()) == ln - start - 1 + First(lines[ln..end + 1], AnyHeader())
    {
      if IsAnyTableHeader(lines[ln]) {
        insertAt := ln;
        break;
      }
      insertAt := ln + 1;
      assert lines[ln..end + 1][1..] == lines[ln + 1..end + 1];
      ln := ln + 1;
    }
  }

  /** Inserting into the middle part. */
  lemma InsertedInside(a: seq<string>, s: seq<string>, c: seq<string>, at: nat, block: seq<string>)
    requires at <= |s|
    ensures InsertLines(a + s + c, |a| + at, block) == a + InsertLines(s, at, block) + c
  {
    var lines := a + s + c;
    assert lines[..|a| + at] == a + s[..at] && lines[|a| + at..] == s[at..] + c;
  }

  /** The line numbers of one project's agent tables, by the project's own lines. */
  lemma ProjectSections(a: seq<string>, s: seq<string>, c: seq<string>)
    requires IsProject(s)
    ensures var span := ProjectAt(a + s + c, |a|, |a| + |s|);
      && span.start == |a| && span.end == |a| + |s| - 1
      && At(s, AGENT, |a|, span.agentStart, span.agentEnd)
      && At(s, AGENT_OPTIONS, |a|, span.agentOptionsStart, span.agentOptionsEnd)
  {
    hide *;
    var lines := a + s + c;
    IsProjectIs(s);
    Middle(a, s, c);
    AgentSpans(lines, |a|, |a| + |s|);
    AtIs(lines, s, |a|, AGENT, ProjectAt(lines, |a|, |a| + |s|).agentStart, ProjectAt(lines, |a|, |a| + |s|).agentEnd);
    AtIs(lines, s, |a|, AGENT_OPTIONS, ProjectAt(lines, |a|, |a| + |s|).agentOptionsStart,
         ProjectAt(lines, |a|, |a| + |s|).agentOptionsEnd);
  }

  lemma Middle(a: seq<string>, s: seq<string>, c: seq<string>)
    ensures (a + s + c)[|a|..|a| + |s|] == s && (s != [] ==> (a + s + c)[|a|] == s[0])
  {
  }

  /** The last section with this header runs from line `first` to line `last`, if the project
      starts at line `off`. */
  ghost predicate At(s: seq<string>, header: string, off: nat, first: int, last: int) {
    var at := Last(s, Header(header));
    if at < 0 then first == -1 && last == -1 else first == off + at && last == first + |Cut(s, at).body|
  }

  lemma AtIs(lines: seq<string>, s: seq<string>, off: nat, header: string, first: int, last: int)
    requires off < off + |s| <= |lines| && lines[off..off + |s|] == s
    ensures SpanIs(lines, off, off + |s|, header, first, last) <==> At(s, header, off, first, last)
  {
    hide Header, Cut, Last;
  }

  /** Makes the options section of a project that has none. */
  method CreateOptions(lines: seq<string>, span: ProjectSpan, ghost a: seq<string>, ghost s: seq<string>, ghost c: seq<string>)
      returns (out: seq<string>)
    requires lines == a + s + c && IsProject(s) && OptionsAt(s) < 0
    requires span == ProjectAt(lines, |a|, |a| + |s|)
    ensures out == a + WithOptions(s) + c
  {
    hide *;
    IsProjectIs(s);
    ProjectSections(a, s, c);
    Created(a, s, c, span.agentStart, span.agentEnd);
    var insertAt := span.agentEnd + 1;
    if span.agentStart < 0 {
      insertAt := FirstTable(lines, span.start, span.end);
      FirstTableIs(a, s, c);
      out := InsertLines(lines, insertAt, NEW_AGENT);
    } else {
      out := InsertLines(lines, insertAt, NEW_OPTIONS);
    }
  }

  lemma Created(a: seq<string>, s: seq<string>, c: seq<string>, first: int, last: int)
    requires s != [] && OptionsAt(s) < 0 && At(s, AGENT, |a|, first, last)
    ensures if first < 0
      then InsertLines(a + s + c, |a| + 1 + |Cut(s, 0).body|, NEW_AGENT) == a + WithOptions(s) + c
      else InsertLines(a + s + c, last + 1, NEW_OPTIONS) == a + WithOptions(s) + c
  {
    hide *;
    MissingIs(s);
    MissingWhere(s, |a|, first, last);
    InsertedInside(a, s, c, Missing(s).0, Missing(s).1);
    WithOptionsInserts(s);
  }

  lemma MissingWhere(s: seq<string>, off: nat, first: int, last: int)
    requires s != [] && At(s, AGENT, off, first, last)
    ensures if first < 0 then Missing(s) == (1 + |Cut(s, 0).body|, NEW_AGENT)
        else off + Missing(s).0 == last + 1 && Missing(s).1 == NEW_OPTIONS
  {
    if AgentAt(s) >= 0 { CutIs(s, AgentAt(s)); }
    hide Header, Cut, Last;
  }

  lemma FirstTableIs(a: seq<string>, s: seq<string>, c: seq<string>)
    requires s != []
    ensures First((a + s + c)[|a| + 1..|a| + |s|], AnyHeader()) == |Cut(s, 0).body|
  {
    hide IsAnyTableHeader, First;
    assert (a + s + c)[|a| + 1..|a| + |s|] == s[1..];
  }

  /** Setting the key between the line numbers of the options section. */
  lemma SetInside(a: seq<string>, t: seq<string>, c: seq<string>, at: nat, key: string, value: string, wide: Printable)
    requires at < |t|
    ensures UpsertedIn(a + t + c, |a| + at + 1, |a| + at + |Cut(t, at).body|, key, value, wide)
         == a + SetIn(t, at, key, value, wide) + c
  {
    CutIs(t, at);
    var k := Cut(t, at);
    var body := Upserted(k.body, key, value, wide);
    SplitInside(a, k, k.body, c);
    SplitInside(a, k, body, c);
    assert SetIn(t, at, key, value, wide) == k.(body := body).Lines() && t == k.(body := k.body).Lines();
    hide *;
    UpsertedAt(a + k.before + [k.header], k.body, k.after + c, key, value, wide);
  }

  lemma SplitInside(a: seq<string>, k: Section, body: seq<string>, c: seq<string>)
    ensures a + k.(body := body).Lines() + c == a + k.before + [k.header] + body + (k.after + c)
  {
  }

  lemma OptionsSpan(lines: seq<string>, a: seq<string>, t: seq<string>, c: seq<string>)
    requires lines == a + t + c && IsProject(t)
    ensures var span, at := ProjectAt(lines, |a|, |a| + |t|), OptionsAt(t);
      && (at < 0 ==> span.agentOptionsStart == -1)
      && (at >= 0 ==> at < |t| && span.agentOptionsStart == |a| + at)
      && (at >= 0 ==> span.agentOptionsEnd == |a| + at + |Cut(t, at).body|)
  {
    ProjectSections(a, t, c);
    hide Header, ProjectAt, Cut, Last;
  }

  method PatchProjectAgentOption(lines: seq<string>, projectIdx: nat, key: string, value: string, wide: Printable)
      returns (r: Option<seq<string>>)
    ensures r == PatchedLines(lines, projectIdx, key, value, wide)
  {
    hide *;
    SpansCount(lines);
    var spans := BuildRawProjectSpans(lines);
    if projectIdx >= |spans| {
      NoSuchProject(lines, projectIdx, key, value, wide);
      return None;
    }
    ghost var a, s, c := ProjectAround(lines, projectIdx);
    IsProjectIs(s);
    PatchedAround(a, s, c, projectIdx, key, value, wide);
    OptionsSpan(lines, a, s, c);
    PatchSteps(s, key, value, wide);
    ghost var t := WithOptions(s);
    var projSpan := spans[projectIdx];
    var out := lines;
    if projSpan.agentOptionsStart < 0 {
      out := CreateOptions(lines, projSpan, a, s, c);
      ProjectPlace(a, t, c, projectIdx);
      OptionsSpan(out, a, t, c);
      spans := BuildRawProjectSpans(out);
      projSpan := spans[projectIdx];
    }
    SetInside(a, t, c, OptionsAt(t), key, value, wide);
    out := UpsertTomlStringKey(out, projSpan.agentOptionsStart + 1, projSpan.agentOptionsEnd, key, value, wide);
    return Some(out);
  }

  lemma NoSuchProject(lines: seq<string>, i: nat, key: string, value: string, wide: Printable)
    requires i >= |ProjectSpans(lines)|
    ensures PatchedLines(lines, i, key, value, wide) == None
  {
    SpansCount(lines);
  }

  lemma PatchSteps(s: seq<string>, key: string, value: string, wide: Printable)
    requires IsProject(s)
    ensures IsProject(WithOptions(s)) && 0 <= OptionsAt(WithOptions(s)) < |WithOptions(s)|
    ensures OptionsAt(s) >= 0 ==> WithOptions(s) == s
    ensures PatchedProject(s, key, value, wide) == SetIn(WithOptions(s), OptionsAt(WithOptions(s)), key, value, wide)
  {
    WithOptionsHas(s);
    WithOptionsGroup(s, PROJECTS);
    hide SetIn, MatchTableHeader, Last;
  }

  // ----- what the edit does to the file

  /** The edit changes the lines of one project and keeps the number, the order and the lines
      of all others, so every project index still names the same project. */
  lemma OnlyThatProject(lines: seq<string>, i: nat, key: string, value: string, wide: Printable)
    requires BareKey(key)
    ensures var p, r := Header(PROJECTS), PatchedLines(lines, i, key, value, wide);
      if i < |Groups(lines, p).1|
      then r.Some? && Groups(lines, p).1[i] != []
        && Groups(r.value, p) ==
           (Groups(lines, p).0, Groups(lines, p).1[i := PatchedProject(Groups(lines, p).1[i], key, value, wide)])
      else r == None
  {
    var p := Header(PROJECTS);
    GroupCount(lines, p);
    SpansCount(lines);
    if i < |Groups(lines, p).1| {
      var a, s, c := ProjectAround(lines, i);
      PatchedAround(a, s, c, i, key, value, wide);
      PatchedIsProject(s, key, value, wide);
      hide *;
      GroupReplaced(a, s, c, p, PatchedProject(s, key, value, wide));
      GroupInside(a, s, c, p);
    }
  }

  lemma PatchedIsProject(s: seq<string>, key: string, value: string, wide: Printable)
    requires IsProject(s) && BareKey(key)
    ensures IsProject(PatchedProject(s, key, value, wide))
  {
    PatchSteps(s, key, value, wide);
    SetInGroup(WithOptions(s), OptionsAt(WithOptions(s)), key, value, wide, PROJECTS);
  }

  /** Last write wins over the whole file: setting v1 and then v2 leaves what v2 alone leaves. */
  lemma PatchedLinesTwice(lines: seq<string>, i: nat, key: string, v1: string, v2: string, wide: Printable)
    requires BareKey(key) && PatchedLines(lines, i, key, v1, wide).Some?
    ensures PatchedLines(PatchedLines(lines, i, key, v1, wide).value, i, key, v2, wide) == PatchedLines(lines, i, key, v2, wide)
  {
    SpansCount(lines);
    var a, s, c := ProjectAround(lines, i);
    PatchedIsProject(s, key, v1, wide);
    PatchedTwice(s, key, v1, v2, wide);
    hide IsProject, PatchedProject, PatchedLines;
    PatchedAround(a, s, c, i, key, v1, wide);
    PatchedAround(a, s, c, i, key, v2, wide);
    PatchedAround(a, PatchedProject(s, key, v1, wide), c, i, key, v2, wide);
  }
}
