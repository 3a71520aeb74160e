/** The whole write path of an agent option: split, edit, join, tidy, read again
    (config/config.go, patchProjectAgentOption and writeRawConfig). */
module TomlSave {
  import opened Text
  import opened TomlLines
  import opened TomlValues
  import opened Search
  import opened TomlSpans
  import opened TomlSections
  import opened TomlEdits
  import opened TomlPatch
  import opened TomlFormat
  import opened TomlFormatProperties
  import opened TomlTidying
  import opened TomlKept

  // ----- what tidying keeps

  /** Tidying keeps the number of projects exactly if no project header is directly followed,
      blank lines aside, by another header or the end; otherwise it drops that project. */
  lemma ProjectsKept(lines: seq<string>)
    ensures |Groups(Formatted(lines), Header(PROJECTS)).1| <= |Groups(lines, Header(PROJECTS)).1|
    ensures |Groups(Formatted(lines), Header(PROJECTS)).1| == |Groups(lines, Header(PROJECTS)).1|
       <==> NoneDropped(NonBlank(lines), PROJECTS)
  {
    MeaningKept(lines);
    CountNonBlank(Formatted(lines), PROJECTS);
    CountLeft(lines, PROJECTS);
    CountGroups(lines, Header(PROJECTS));
    CountGroups(Formatted(lines), Header(PROJECTS));
    hide Count, NonBlank, Surviving, NoneDropped, MatchTableHeader, Groups, Formatted;
  }

  /** Tidying keeps the number and the agent options of a project, if it drops no project up to
      the one behind it: that one's tables would become part of this project. */
  lemma FormatKeepsOption(lines: seq<string>, i: nat, key: string)
    requires i < |Groups(lines, Header(PROJECTS)).1| && StayTo(lines, PROJECTS, i + 1)
    requires OptionsSafe(Groups(lines, Header(PROJECTS)).1[i])
    ensures i < |Groups(Formatted(lines), Header(PROJECTS)).1|
    ensures OptionValue(Groups(Formatted(lines), Header(PROJECTS)).1[i], key)
      == OptionValue(Groups(lines, Header(PROJECTS)).1[i], key)
  {
    hide *;
    var p, f := Header(PROJECTS), Formatted(lines);
    ProjectsBracket();
    FormatKeepsGroup(lines, PROJECTS, i);
    TidyLeft(lines);
    GroupCount(f, p);
    var a', s', c' := GroupAt(f, p, i);
    GroupsFacts(s', c');
    FormattedFilled(a', s', c');
    FilledIsSafe(s');
    OptionKept(Groups(lines, p).1[i], key);
    OptionKept(s', key);
  }

  lemma FilledIsSafe(s: seq<string>)
    ensures OptionsFilled(s) ==> OptionsSafe(s)
  {
    hide OptionsFilled;
  }

  // ----- files

  /** The lines of a file without the line feed that ends it, and whether it was there. */
  function SplitConfigLines(raw: string): (seq<string>, bool) {
    if raw == "" then ([], false)
    else
      var hadTrailing := raw[|raw| - 1] == '\n';
      var rest := if hadTrailing then raw[..|raw| - 1] else raw;
      if rest == "" then ([], hadTrailing) else (SplitLines(rest), hadTrailing)
  }

  function JoinConfigLines(lines: seq<string>, hadTrailing: bool): string {
    Join(lines) + if hadTrailing || |lines| > 0 then "\n" else ""
  }

  /** The file after setting an option, as it is written. */
  ghost function SavedFile(raw: string, project: nat, key: string, value: string, wide: Printable): Option<string> {
    var (lines, hadTrailing) := SplitConfigLines(raw);
    match PatchedLines(lines, project, key, value, wide)
    case None => None
    case Some(out) => Some(FormatToml(JoinConfigLines(out, hadTrailing)))
  }

  /** Reading a written file gives the tidied lines. */
  lemma WrittenLines(out: seq<string>, hadTrailing: bool)
    requires out != [] && AllOneLine(out)
    ensures SplitConfigLines(FormatToml(JoinConfigLines(out, hadTrailing))).0 == Formatted(out)
  {
    hide *;
    var f := Formatted(out);
    SplitFormatted(out);
    FormattedBlankTail(out);
    JoinedIs(out, hadTrailing);
    FormatTomlIs(Join(out) + "\n");
    FormattedOneLine(out);
    FormattedIsFormatted(out);
    IsFormattedIs(f);
    if f == [] {
      JoinNothing();
      SplitNewline("");
    } else {
      JoinThenSplit(f);
      JoinNonEmpty(f);
      SplitNewline(Join(f));
    }
  }

  lemma JoinedIs(out: seq<string>, hadTrailing: bool)
    requires out != []
    ensures JoinConfigLines(out, hadTrailing) == Join(out) + "\n"
  {
  }

  lemma JoinNothing()
    ensures Join([]) == ""
  {
  }

  lemma JoinNonEmpty(f: seq<string>)
    requires f != [] && !IsBlank(f[0])
    ensures Join(f) != ""
  {
    BlankIsBlank();
    hide IsBlank;
  }

  lemma SplitNewline(text: string)
    ensures SplitConfigLines(text + "\n").0 == if text == "" then [] else SplitLines(text)
  {
    hide SplitLines;
    var raw := text + "\n";
    assert raw[..|raw| - 1] == text && raw[|raw| - 1] == '\n';
  }

  // ----- written lines hold no line feed

  lemma {:induction false} QuoteBodyOneLine(v: string, wide: Printable)
    ensures OneLine(QuoteBody(v, wide))
  {
    if v != "" {
      QuoteBodyOneLine(v[1..], wide);
      QuoteCharShape(v[0], wide);
      hide QuoteChar;
      var q := QuoteChar(v[0], wide);
      assert forall i :: 0 <= i < |q| ==> q[i] != '\n';
    }
  }

  lemma KeyLineOneLine(key: string, value: string, wide: Printable)
    requires BareKey(key)
    ensures OneLine(KeyLine(key, value, wide))
  {
    QuoteBodyOneLine(value, wide);
    hide QuoteBody;
  }

  lemma {:induction false} CommentOneLine(line: string, inQuote: bool, escaped: bool)
    requires OneLine(line)
    ensures OneLine(CommentFrom(line, inQuote, escaped))
  {
    if line != "" {
      assert forall c :: c in line[1..] ==> c in line;
      CommentOneLine(line[1..], inQuote, false);
      CommentOneLine(line[1..], inQuote, true);
      CommentOneLine(line[1..], !inQuote, false);
      var a, b := TrimSpaceSlice(line);
      assert forall c :: c in line[a..b] ==> c in line;
      hide TrimSpace;
    }
  }

  lemma ReplacedOneLine(line: string, key: string, value: string, wide: Printable)
    requires BareKey(key) && OneLine(line)
    ensures OneLine(ReplacedLine(line, key, value, wide))
  {
    KeyLineOneLine(key, value, wide);
    CommentOneLine(line, false, false);
    IndentPlain(line);
    hide KeyLine, CommentFrom, LeadingWhitespace;
  }

  lemma AllOneLineConcat(a: seq<string>, b: seq<string>)
    ensures AllOneLine(a + b) <==> AllOneLine(a) && AllOneLine(b)
  {
    hide OneLine;
    if AllOneLine(a + b) {
      assert forall i :: 0 <= i < |a| ==> a[i] == (a + b)[i];
      assert forall i :: 0 <= i < |b| ==> b[i] == (a + b)[|a| + i];
    }
  }

  lemma UpsertedOneLine(body: seq<string>, key: string, value: string, wide: Printable)
    requires BareKey(key) && AllOneLine(body)
    ensures AllOneLine(Upserted(body, key, value, wide))
  {
    KeyLineOneLine(key, value, wide);
    var i := First(body, ForKey(key));
    if i < |body| { ReplacedOneLine(body[i], key, value, wide); }
    hide OneLine, KeyLine, ReplacedLine, First, BareKey;
  }

  lemma SetInOneLine(seg: seq<string>, at: nat, key: string, value: string, wide: Printable)
    requires at < |seg| && BareKey(key) && AllOneLine(seg)
    ensures AllOneLine(SetIn(seg, at, key, value, wide))
  {
    hide *;
    CutIs(seg, at);
    SetInBody(seg, at, key, value, wide);
    var c := Cut(seg, at);
    var body := Upserted(c.body, key, value, wide);
    SectionLinesIs(c);
    SectionLinesIs(c.(body := body));
    var x := c.before + [c.header];
    AllOneLineConcat(x + c.body, c.after);
    AllOneLineConcat(x, c.body);
    UpsertedOneLine(c.body, key, value, wide);
    AllOneLineConcat(x, body);
    AllOneLineConcat(x + body, c.after);
  }

  lemma SectionLinesIs(c: Section)
    ensures c.Lines() == c.before + [c.header] + c.body + c.after
  {
  }

  lemma WithOptionsOneLine(s: seq<string>)
    requires s != [] && AllOneLine(s)
    ensures AllOneLine(WithOptions(s))
  {
    hide *;
    if OptionsAt(s) < 0 {
      MissingIs(s);
      WithOptionsInserts(s);
      var at, block := Missing(s).0, Missing(s).1;
      Inserted(s, at, block);
      NewTablesOneLine(s);
      assert s == s[..at] + s[at..];
      AllOneLineConcat(s[..at], s[at..]);
      AllOneLineConcat(s[..at], block);
      AllOneLineConcat(s[..at] + block, s[at..]);
    } else {
      WithOptionsSame(s);
    }
  }

  lemma WithOptionsSame(s: seq<string>)
    requires s != [] && OptionsAt(s) >= 0
    ensures WithOptions(s) == s
  {
    hide OptionsAt;
  }

  lemma NewTablesOneLine(s: seq<string>)
    requires s != []
    ensures AllOneLine(Missing(s).1)
  {
    assert OneLine("") && OneLine(AGENT) && OneLine(AGENT_TYPE) && OneLine(AGENT_OPTIONS);
    hide OneLine, Cut, AgentAt, AGENT, AGENT_TYPE, AGENT_OPTIONS;
  }

  // ----- the edit drops no project

  /** The lines of a project up to its first table stay in front. */
  lemma PatchedMain(s: seq<string>, key: string, value: string, wide: Printable)
      returns (main: seq<string>, rest: seq<string>, rest': seq<string>)
    requires IsProject(s) && BareKey(key)
    ensures s == [s[0]] + main + rest && NoHeaders(main) && StartsSection(rest)
    ensures PatchedProject(s, key, value, wide) == [s[0]] + main + rest'
  {
    hide *;
    IsProjectIs(s);
    ProjectHeaderOnly(s[0]);
    OptionsNotFirst(s);
    var at, gone, put := PatchedFrame(s, key, value, wide);
    SectionPlace(s, 0);
    CutIs(s, 0);
    var c := Cut(s, 0);
    var n := 1 + |c.body|;
    main, rest := c.body, s[n..];
    StartsIs(rest);
    ProperBody(c);
    rest' := s[n..at] + put + s[at + |gone|..];
    FrontStays(s, main, n, at, put, s[at + |gone|..]);
  }

  lemma FrontStays(s: seq<string>, main: seq<string>, n: nat, at: nat, put: seq<string>, tail: seq<string>)
    requires 1 <= n <= at <= |s| && s[..n] == [] + [s[0]] + main
    ensures s == [s[0]] + main + s[n..]
    ensures s[..at] + put + tail == [s[0]] + main + (s[n..at] + put + tail)
  {
    assert s == s[..n] + s[n..] && s[..at] == s[..n] + s[n..at];
  }

  lemma OptionsNotFirst(s: seq<string>)
    requires s != [] && !MatchTableHeader(s[0], AGENT_OPTIONS)
    ensures OptionsAt(s) != 0
  {
    LastIs(s, Header(AGENT_OPTIONS));
    hide Last, MatchTableHeader;
  }

  /** Setting an option empties no project. */
  lemma PatchKeepsProject(s: seq<string>, key: string, value: string, wide: Printable)
    requires IsProject(s) && BareKey(key) && Count(Left(s), Header(PROJECTS)) == 1
    ensures var r := PatchedProject(s, key, value, wide);
      IsProject(r) && Count(Left(r), Header(PROJECTS)) == 1 == Count(r, Header(PROJECTS))
  {
    hide *;
    IsProjectIs(s);
    var p, r := Header(PROJECTS), PatchedProject(s, key, value, wide);
    PatchedIsProject(s, key, value, wide);
    IsProjectIs(r);
    var main, rest, rest' := PatchedMain(s, key, value, wide);
    assert s == [s[0]] + (main + rest) && r == [s[0]] + (main + rest');
    GroupHead(s[0], main + rest, p);
    GroupHead(s[0], main + rest', p);
    ProjectsBracket();
    HeaderStays(s[0], PROJECTS, main, rest);
    HeaderStays(s[0], PROJECTS, main, rest');
    OneProject(r);
  }

  lemma OneProject(s: seq<string>)
    requires IsProject(s)
    ensures Count(s, Header(PROJECTS)) == 1
  {
    hide *;
    IsProjectIs(s);
    assert s == [s[0]] + s[1..];
    GroupHead(s[0], s[1..], Header(PROJECTS));
    CountFree(s[1..], Header(PROJECTS));
    CountCons(s[0], s[1..], Header(PROJECTS));
  }

  /** An edit of a file whose projects are all kept leaves one whose projects are all kept. */
  lemma PatchDropsNone(lines: seq<string>, i: nat, key: string, value: string, wide: Printable)
    requires BareKey(key) && NoneDropped(NonBlank(lines), PROJECTS) && PatchedLines(lines, i, key, value, wide).Some?
    ensures NoneDropped(NonBlank(PatchedLines(lines, i, key, value, wide).value), PROJECTS)
  {
    hide *;
    var p := Header(PROJECTS);
    PatchedSome(lines, i, key, value, wide);
    var a, s, c := ProjectAround(lines, i);
    PatchedAround(a, s, c, i, key, value, wide);
    IsProjectIs(s);
    var r := PatchedProject(s, key, value, wide);
    ProjectsBracket();
    EveryProjectKept(a, s, c);
    PatchKeepsProject(s, key, value, wide);
    CountLeft(a + s + c, PROJECTS);
    CountLeft(a + r + c, PROJECTS);
    LeftsAdd(a, s, c);
    LeftsAdd(a, r, c);
    CountsAdd(a, s, c, p);
    CountsAdd(a, r, c, p);
    OneProject(s);
  }

  lemma PatchedSome(lines: seq<string>, i: nat, key: string, value: string, wide: Printable)
    requires PatchedLines(lines, i, key, value, wide).Some?
    ensures i < |ProjectSpans(lines)|
  {
    SpansCount(lines);
    hide PatchedProject;
  }

  lemma LeftsAdd(a: seq<string>, s: seq<string>, c: seq<string>)
    requires IsProject(s) && (c == [] || MatchTableHeader(c[0], PROJECTS))
    ensures Count(Left(a + s + c), Header(PROJECTS))
         == Count(Left(a), Header(PROJECTS)) + Count(Left(s), Header(PROJECTS)) + Count(Left(c), Header(PROJECTS))
  {
    hide *;
    ProjectsBracket();
    IsProjectIs(s);
    HeaderIsAny(s[0], PROJECTS);
    if c != [] { HeaderIsAny(c[0], PROJECTS); }
    StartsIs(c);
    StartsIs(s);
    LeftConcat(a + s, c);
    LeftConcat(a, s);
    CountsAdd(Left(a), Left(s), Left(c), Header(PROJECTS));
  }

  lemma EveryProjectKept(a: seq<string>, s: seq<string>, c: seq<string>)
    requires IsProject(s) && (c == [] || MatchTableHeader(c[0], PROJECTS)) && NoneDropped(NonBlank(a + s + c), PROJECTS)
    ensures Count(Left(s), Header(PROJECTS)) == 1
  {
    hide *;
    var p := Header(PROJECTS);
    ProjectsBracket();
    LeftsAdd(a, s, c);
    CountsAdd(a, s, c, p);
    CountLeft(a + s + c, PROJECTS);
    CountLeft(a, PROJECTS);
    CountLeft(s, PROJECTS);
    CountLeft(c, PROJECTS);
    OneProject(s);
  }

  // ----- the laws for saved files

  lemma PatchedOneLine(lines: seq<string>, i: nat, key: string, value: string, wide: Printable)
    requires BareKey(key) && AllOneLine(lines) && PatchedLines(lines, i, key, value, wide).Some?
    ensures PatchedLines(lines, i, key, value, wide).value != [] && AllOneLine(PatchedLines(lines, i, key, value, wide).value)
  {
    hide *;
    PatchedSome(lines, i, key, value, wide);
    var a, s, c := ProjectAround(lines, i);
    PatchedAround(a, s, c, i, key, value, wide);
    PatchedIsProject(s, key, value, wide);
    PatchSteps(s, key, value, wide);
    IsProjectIs(s);
    var r := PatchedProject(s, key, value, wide);
    IsProjectIs(r);
    AllOneLineConcat(a + s, c);
    AllOneLineConcat(a, s);
    WithOptionsOneLine(s);
    SetInOneLine(WithOptions(s), OptionsAt(WithOptions(s)), key, value, wide);
    AllOneLineConcat(a, r);
    AllOneLineConcat(a + r, c);
  }

  /** A project's options hold at least the key just set. */
  lemma PatchedIsFilled(s: seq<string>, key: string, value: string, wide: Printable)
    requires IsProject(s) && BareKey(key)
    ensures OptionsFilled(PatchedProject(s, key, value, wide))
  {
    hide *;
    IsProjectIs(s);
    PatchedIs(s, key, value, wide);
    var r := PatchedProject(s, key, value, wide);
    PatchedIsProject(s, key, value, wide);
    IsProjectIs(r);
    OptionsFilledIs(r);
    LastIs(r, Header(AGENT_OPTIONS));
    OptionsIs(r);
    UpsertedFilled(Cut(WithOptions(s), OptionsAt(WithOptions(s))).body, key, value, wide);
    CutBody(Cut(WithOptions(s), OptionsAt(WithOptions(s))),
            Upserted(Cut(WithOptions(s), OptionsAt(WithOptions(s))).body, key, value, wide));
  }

  lemma CutBody(c: Section, body: seq<string>)
    ensures c.(body := body).body == body
  {
  }

  lemma UpsertedFilled(body: seq<string>, key: string, value: string, wide: Printable)
    requires BareKey(key)
    ensures NonBlank(Upserted(body, key, value, wide)) != []
  {
    var line := UpsertedShape(body, key, value, wide);
    BlankNoKey(line, key);
    var r, i := Upserted(body, key, value, wide), First(body, ForKey(key));
    assert r[i] == line;
    hide Upserted, First, IsBlank, MatchTomlStringKey;
    NonBlankHas(r, i);
  }

  /** The lines read back from the saved file. */
  ghost function Reread(raw: string, i: nat, key: string, value: string, wide: Printable): seq<string>
    requires SavedFile(raw, i, key, value, wide).Some?
  {
    SplitConfigLines(SavedFile(raw, i, key, value, wide).value).0
  }

  lemma RereadIs(raw: string, i: nat, key: string, value: string, wide: Printable)
    requires BareKey(key) && SavedFile(raw, i, key, value, wide).Some?
    ensures var out := PatchedLines(SplitConfigLines(raw).0, i, key, value, wide);
      out.Some? && Reread(raw, i, key, value, wide) == Formatted(out.value)
  {
    SplitIsOneLine(raw);
    var (lines, hadTrailing) := SplitConfigLines(raw);
    PatchedOneLine(lines, i, key, value, wide);
    WrittenLines(PatchedLines(lines, i, key, value, wide).value, hadTrailing);
    hide PatchedLines, SplitConfigLines, FormatToml, JoinConfigLines, Formatted, AllOneLine, BareKey;
  }

  lemma SplitIsOneLine(raw: string)
    ensures AllOneLine(SplitConfigLines(raw).0)
  {
    hide SplitLines;
    if raw != "" {
      SplitThenJoin(raw);
      SplitThenJoin(raw[..|raw| - 1]);
    }
  }

  /** Setting an option leaves the project's own table what it holds. */
  lemma PatchStays(s: seq<string>, key: string, value: string, wide: Printable)
    requires IsProject(s) && BareKey(key) && Stays(s)
    ensures Stays(PatchedProject(s, key, value, wide))
  {
    hide *;
    IsProjectIs(s);
    PatchedIsProject(s, key, value, wide);
    var r := PatchedProject(s, key, value, wide);
    StaysIff(s);
    StaysIff(r);
    PatchKeepsProject(s, key, value, wide);
  }

  lemma StaysIff(s: seq<string>)
    requires IsProject(s)
    ensures Stays(s) <==> Count(Left(s), Header(PROJECTS)) == 1
  {
    hide *;
    ProjectsBracket();
    IsProjectIs(s);
    GroupFront(s, PROJECTS);
    StaysIs(s);
    CutIs(s, 0);
    var c := Cut(s, 0);
    EmptyFront(c.before);
    TailOfSection(c);
    ProperBody(c);
    ProperEnds(c);
    StartsIs(c.after);
    HeaderStays(c.header, PROJECTS, c.body, c.after);
  }

  /** An edit changes none of the tables that decide about the numbers. */
  lemma PatchStaysTo(lines: seq<string>, i: nat, key: string, value: string, wide: Printable, k: nat)
    requires BareKey(key) && PatchedLines(lines, i, key, value, wide).Some? && StayTo(lines, PROJECTS, k)
    ensures StayTo(PatchedLines(lines, i, key, value, wide).value, PROJECTS, k)
  {
    hide *;
    OnlyThatProject(lines, i, key, value, wide);
    var s := Groups(lines, Header(PROJECTS)).1[i];
    GroupIsProject(lines, i);
    IsProjectIs(s);
    if Stays(s) { PatchStays(s, key, value, wide); }
    StayToUpdated(lines, PatchedLines(lines, i, key, value, wide).value, PROJECTS, i, k);
  }

  lemma StayToUpdated(lines: seq<string>, out: seq<string>, header: string, i: nat, k: nat)
    requires i < |Groups(lines, Header(header)).1| && StayTo(lines, header, k)
    requires |Groups(out, Header(header)).1| == |Groups(lines, Header(header)).1|
    requires forall j :: 0 <= j < |Groups(lines, Header(header)).1| && j != i ==>
      Groups(out, Header(header)).1[j] == Groups(lines, Header(header)).1[j]
    requires Stays(Groups(lines, Header(header)).1[i]) ==> Stays(Groups(out, Header(header)).1[i])
    ensures StayTo(out, header, k)
  {
    hide Stays, Groups;
  }

  /** Get after put through the whole write path: after editing, joining and tidying, the file
      read again holds the new value in the same project, if no project up to the one behind it
      is dropped. */
  lemma SavedReads(raw: string, i: nat, key: string, value: string, wide: Printable)
    requires BareKey(key) && SavedFile(raw, i, key, value, wide).Some?
    requires StayTo(SplitConfigLines(raw).0, PROJECTS, i + 1)
    ensures var projects := Groups(Reread(raw, i, key, value, wide), Header(PROJECTS)).1;
      i < |projects| && OptionValue(projects[i], key) == ReadBack(value)
  {
    hide *;
    var p, lines := Header(PROJECTS), SplitConfigLines(raw).0;
    RereadIs(raw, i, key, value, wide);
    var out := PatchedLines(lines, i, key, value, wide).value;
    OnlyThatProject(lines, i, key, value, wide);
    PatchStaysTo(lines, i, key, value, wide, i + 1);
    var s := Groups(lines, p).1[i];
    GroupIsProject(lines, i);
    IsProjectIs(s);
    PatchedReads(s, key, value, wide);
    PatchedIsFilled(s, key, value, wide);
    FilledIsSafe(PatchedProject(s, key, value, wide));
    FormatKeepsOption(out, i, key);
  }

  lemma GroupIsProject(lines: seq<string>, i: nat)
    requires i < |Groups(lines, Header(PROJECTS)).1|
    ensures IsProject(Groups(lines, Header(PROJECTS)).1[i])
  {
    hide *;
    GroupCount(lines, Header(PROJECTS));
    var a, s, c := GroupAt(lines, Header(PROJECTS), i);
    IsProjectIs(s);
  }

  /** The frame through the whole write path: every other option of every project keeps its
      value and its place, if no project up to the one behind is dropped. */
  lemma SavedKeepsOthers(raw: string, i: nat, key: string, value: string, wide: Printable, k: nat, other: string)
    requires BareKey(key) && BareKey(other) && SavedFile(raw, i, key, value, wide).Some?
    requires k < |Groups(SplitConfigLines(raw).0, Header(PROJECTS)).1| && (k != i || other != key)
    requires StayTo(SplitConfigLines(raw).0, PROJECTS, k + 1)
    requires k == i || OptionsSafe(Groups(SplitConfigLines(raw).0, Header(PROJECTS)).1[k])
    ensures var before := Groups(SplitConfigLines(raw).0, Header(PROJECTS)).1;
            var after := Groups(Reread(raw, i, key, value, wide), Header(PROJECTS)).1;
      && k < |after| <= |before| && OptionValue(after[k], other) == OptionValue(before[k], other)
      && (NoneDropped(NonBlank(SplitConfigLines(raw).0), PROJECTS) ==> |after| == |before|)
  {
    hide *;
    var p, lines := Header(PROJECTS), SplitConfigLines(raw).0;
    RereadIs(raw, i, key, value, wide);
    var out := PatchedLines(lines, i, key, value, wide).value;
    OnlyThatProject(lines, i, key, value, wide);
    PatchStaysTo(lines, i, key, value, wide, k + 1);
    if NoneDropped(NonBlank(lines), PROJECTS) { PatchDropsNone(lines, i, key, value, wide); }
    ProjectsKept(out);
    var s := Groups(lines, p).1[i];
    GroupIsProject(lines, i);
    IsProjectIs(s);
    if k == i {
      PatchedIsFilled(s, key, value, wide);
      FilledIsSafe(PatchedProject(s, key, value, wide));
      PatchedOthers(s, key, value, wide, other);
      SameLineSameOption(PatchedProject(s, key, value, wide), s, other);
    }
    FormatKeepsOption(out, k, other);
  }

  lemma SameLineSameOption(r: seq<string>, s: seq<string>, key: string)
    requires OptionLine(r, key) == OptionLine(s, key)
    ensures OptionValue(r, key) == OptionValue(s, key)
  {
    hide OptionsAt, Cut, LineOf, ReadKeyLine;
  }
}
