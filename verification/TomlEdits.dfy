/** Setting one option of a project's agent in the text of a configuration file
    (config/config.go, patchProjectAgentOption). */
module TomlEdits {
  import opened Text
  import opened TomlLines
  import opened Search
  import opened TomlSpans
  import opened TomlSections

  const NEW_OPTIONS := ["", AGENT_OPTIONS]
  const AGENT_TYPE := "type = \"claudecode\""
  const NEW_AGENT := ["", AGENT, AGENT_TYPE, "", AGENT_OPTIONS]

  // ----- headers

  lemma HeaderIsAny(line: string, header: string)
    requires "[" <= header && MatchTableHeader(line, header)
    ensures IsAnyTableHeader(line)
  {
    hide TrimSpace;
  }

  lemma HeaderMatchesItself(header: string)
    requires "[" <= header && Trimmed(header)
    ensures MatchTableHeader(header, header) && IsAnyTableHeader(header)
  {
    TrimSpaceTrimmed(header);
  }

  /** No line is two headers that differ in some place. */
  lemma HeadersDiffer(line: string, h1: string, h2: string, k: nat)
    requires k < |h1| && k < |h2| && h1[k] != h2[k] && MatchTableHeader(line, h1)
    ensures !MatchTableHeader(line, h2)
  {
    hide TrimSpace;
    var t := TrimSpace(line);
    if h2 <= t { assert t[k] == h1[k]; }
  }

  lemma BlankIsNoHeader()
    ensures !IsAnyTableHeader("")
  {
  }

  /** Where there is no header there is none in particular. */
  lemma NoHeadersFree(lines: seq<string>, header: string)
    requires "[" <= header && NoHeaders(lines)
    ensures Free(lines, Header(header))
  {
    hide IsAnyTableHeader, MatchTableHeader;
    forall k | 0 <= k < |lines|
      ensures !MatchTableHeader(lines[k], header)
    {
      if MatchTableHeader(lines[k], header) { HeaderIsAny(lines[k], header); }
    }
  }

  // ----- one section of a run of lines

  /** The run with `key` set in the section whose header is line `at`. */
  function SetIn(seg: seq<string>, at: nat, key: string, value: string, wide: Printable): seq<string>
    requires at < |seg|
  {
    var s := Cut(seg, at);
    s.(body := Upserted(s.body, key, value, wide)).Lines()
  }

  lemma SetInIs(seg: seq<string>, at: nat, key: string, value: string, wide: Printable)
    requires at < |seg| && BareKey(key)
    ensures at < |SetIn(seg, at, key, value, wide)|
    ensures Cut(SetIn(seg, at, key, value, wide), at)
         == Cut(seg, at).(body := Upserted(Cut(seg, at).body, key, value, wide))
    ensures Proper(Cut(SetIn(seg, at, key, value, wide), at))
  {
    CutIs(seg, at);
    hide Cut, Upserted;
    var s := Cut(seg, at);
    UpsertedPlain(s.body, key, value, wide);
    CutUnique(s.(body := Upserted(s.body, key, value, wide)));
  }

  /** Neither body of a section can hold a table header, so the run keeps its groups. */
  lemma SectionGroup(s: Section, body: seq<string>, header: string)
    requires "[" <= header && NoHeaders(s.body) && NoHeaders(body) && IsGroup(s.Lines(), Header(header))
    ensures IsGroup(s.(body := body).Lines(), Header(header))
  {
    var p, x := Header(header), s.before + [s.header];
    NoHeadersFree(s.body, header);
    NoHeadersFree(body, header);
    SplitLinesOf(s);
    SplitLinesOf(s.(body := body));
    hide *;
    GroupWithBody(x, s.body, s.after, p);
    GroupWithBody(x, body, s.after, p);
  }

  lemma SplitLinesOf(s: Section)
    ensures s.Lines() == s.before + [s.header] + (s.body + s.after)
  {
  }

  lemma GroupWithBody(x: seq<string>, body: seq<string>, after: seq<string>, p: string -> bool)
    requires x != [] && Free(body, p)
    ensures IsGroup(x + (body + after), p) <==> IsGroup(x, p) && Free(after, p)
  {
    hide Free, IsGroup;
    IsGroupParts(x, body + after, p);
    FreeConcat(body, after, p);
  }

  lemma SetInGroup(seg: seq<string>, at: nat, key: string, value: string, wide: Printable, header: string)
    requires at < |seg| && BareKey(key) && "[" <= header && IsGroup(seg, Header(header))
    ensures IsGroup(SetIn(seg, at, key, value, wide), Header(header))
  {
    CutIs(seg, at);
    hide Cut, Upserted, MatchTableHeader;
    var s := Cut(seg, at);
    UpsertedPlain(s.body, key, value, wide);
    SectionGroup(s, Upserted(s.body, key, value, wide), header);
  }

  lemma SetInTwice(seg: seq<string>, at: nat, key: string, v1: string, v2: string, wide: Printable)
    requires at < |seg| && BareKey(key)
    ensures at < |SetIn(seg, at, key, v1, wide)|
    ensures SetIn(SetIn(seg, at, key, v1, wide), at, key, v2, wide) == SetIn(seg, at, key, v2, wide)
  {
    SetInIs(seg, at, key, v1, wide);
    UpsertedTwice(Cut(seg, at).body, key, v1, v2, wide);
  }

  // ----- the agent options of a project

  ghost predicate IsProject(s: seq<string>) {
    IsGroup(s, Header(PROJECTS))
  }

  /** The header line of the agent options, or -1. */
  function OptionsAt(s: seq<string>): int {
    Last(s, Header(AGENT_OPTIONS))
  }

  function AgentAt(s: seq<string>): int {
    Last(s, Header(AGENT))
  }

  function OptionLine(s: seq<string>, key: string): Option<string> {
    if OptionsAt(s) < 0 then None else LineOf(Cut(s, OptionsAt(s)).body, key)
  }

  function OptionValue(s: seq<string>, key: string): Option<string> {
    if OptionsAt(s) < 0 then None else ValueOf(Cut(s, OptionsAt(s)).body, key)
  }

  /** Where the missing tables go, and which: behind the agent table, or before the first
      table of the project. */
  function Missing(s: seq<string>): (nat, seq<string>)
    requires s != []
  {
    if AgentAt(s) >= 0 then
      var c := Cut(s, AgentAt(s));
      (|c.before| + 1 + |c.body|, NEW_OPTIONS)
    else (1 + |Cut(s, 0).body|, NEW_AGENT)
  }

  function WithOptions(s: seq<string>): seq<string>
    requires s != []
  {
    if OptionsAt(s) >= 0 then s
    else
      var (at, block) := Missing(s);
      InsertLines(s, at, block)
  }

  /** Every line of a new table is blank, a key or one of the two agent headers. */
  ghost predicate AgentLines(block: seq<string>) {
    forall k :: 0 <= k < |block| ==> AgentLine(block[k])
  }

  ghost predicate AgentLine(line: string) {
    !IsAnyTableHeader(line) || MatchTableHeader(line, AGENT) || MatchTableHeader(line, AGENT_OPTIONS)
  }

  lemma NewTables()
    ensures MatchTableHeader(AGENT_OPTIONS, AGENT_OPTIONS) && IsAnyTableHeader(AGENT_OPTIONS)
    ensures AgentLines(NEW_OPTIONS) && AgentLines(NEW_AGENT)
  {
    HeaderMatchesItself(AGENT_OPTIONS);
    HeaderMatchesItself(AGENT);
    TrimSpaceTrimmed(AGENT_TYPE);
    BlankIsNoHeader();
    hide MatchTableHeader;
    Blocks("", AGENT, AGENT_TYPE, AGENT_OPTIONS);
  }

  lemma Blocks(blank: string, agent: string, kind: string, options: string)
    requires AgentLine(blank) && AgentLine(agent) && AgentLine(kind) && AgentLine(options)
    ensures AgentLines([blank, options]) && AgentLines([blank, agent, kind, blank, options])
  {
    hide AgentLine;
  }

  /** New agent tables start neither a project nor a platform. */
  lemma AgentLinesFree(block: seq<string>, header: string)
    requires AgentLines(block) && header in [PROJECTS, PLATFORMS]
    ensures Free(block, Header(header))
  {
    assert AGENT[1] == 'p' && AGENT_OPTIONS[1] == 'p' && header[0] == '[' && header[1] == '[';
    hide MatchTableHeader, IsAnyTableHeader;
    forall k | 0 <= k < |block|
      ensures !MatchTableHeader(block[k], header)
    {
      var line := block[k];
      assert AgentLine(line);
      if MatchTableHeader(line, header) {
        HeaderIsAny(line, header);
        HeadersDiffer(line, header, AGENT, 1);
        HeadersDiffer(line, header, AGENT_OPTIONS, 1);
      }
    }
  }

  lemma MissingIs(s: seq<string>)
    requires s != []
    ensures var (at, block) := Missing(s);
      && 1 <= at <= |s| && (s[at..] == [] || IsAnyTableHeader(s[at]))
      && AgentLines(block) && block != [] && block[|block| - 1] == AGENT_OPTIONS
  {
    NewTables();
    hide IsAnyTableHeader, MatchTableHeader, AgentLines;
    if AgentAt(s) >= 0 {
      SectionPlace(s, AgentAt(s));
    } else {
      SectionPlace(s, 0);
    }
  }

  lemma SectionPlace(s: seq<string>, i: nat)
    requires i < |s|
    ensures var c, end := Cut(s, i), i + 1 + |Cut(s, i).body|;
      && |c.before| == i && end <= |s|
      && s[..end] == c.before + [c.header] + c.body && s[end..] == c.after
      && (s[end..] == [] || IsAnyTableHeader(s[end]))
  {
    CutIs(s, i);
    hide Cut, IsAnyTableHeader;
    var c, end := Cut(s, i), i + 1 + |Cut(s, i).body|;
    var x := c.before + [c.header] + c.body;
    assert s == x + c.after && |x| == end;
  }

  /** The options section is there, and where it had to be made it is empty. */
  lemma WithOptionsNew(s: seq<string>)
    requires s != [] && OptionsAt(s) < 0
    ensures var (at, block) := Missing(s); var t := WithOptions(s);
      && 1 <= at <= |s| && AgentLines(block) && block != [] && block[|block| - 1] == AGENT_OPTIONS
      && t == s[..at] + block + s[at..]
      && OptionsAt(t) == at + |block| - 1
      && Cut(t, OptionsAt(t)) == Section(s[..at] + block[..|block| - 1], AGENT_OPTIONS, [], s[at..])
  {
    hide *;
    MissingIs(s);
    var (at, block) := Missing(s);
    OptionsIs(s);
    LastNone(s, Header(AGENT_OPTIONS));
    assert s == s[..at] + s[at..];
    FreeConcat(s[..at], s[at..], Header(AGENT_OPTIONS));
    WithOptionsInserts(s);
    Inserted(s, at, block);
    OptionsBehind(s[..at], block, s[at..]);
  }

  /** A block that ends with the options header makes an empty options section. */
  lemma OptionsBehind(front: seq<string>, block: seq<string>, rest: seq<string>)
    requires block != [] && block[|block| - 1] == AGENT_OPTIONS && Free(rest, Header(AGENT_OPTIONS))
    requires rest == [] || IsAnyTableHeader(rest[0])
    ensures var t := front + block + rest;
      && OptionsAt(t) == |front| + |block| - 1 < |t|
      && Cut(t, OptionsAt(t)) == Section(front + block[..|block| - 1], AGENT_OPTIONS, [], rest)
  {
    NewTables();
    assert Header(AGENT_OPTIONS)(AGENT_OPTIONS);
    hide *;
    NewSection(front, block, AGENT_OPTIONS, [], rest);
    EmptySection(front + block[..|block| - 1], AGENT_OPTIONS, rest);
    LastOf(front + block[..|block| - 1], AGENT_OPTIONS, rest, Header(AGENT_OPTIONS));
    OptionsIs(front + block + rest);
  }

  lemma OptionsIs(s: seq<string>)
    ensures OptionsAt(s) == Last(s, Header(AGENT_OPTIONS))
  {
  }

  lemma Inserted(s: seq<string>, at: nat, block: seq<string>)
    requires at <= |s|
    ensures InsertLines(s, at, block) == s[..at] + block + s[at..]
  {
  }

  lemma WithOptionsInserts(s: seq<string>)
    requires s != [] && OptionsAt(s) < 0
    ensures WithOptions(s) == InsertLines(s, Missing(s).0, Missing(s).1)
  {
    hide OptionsAt, Missing, InsertLines;
  }

  lemma EmptySection(before: seq<string>, header: string, after: seq<string>)
    requires after == [] || IsAnyTableHeader(after[0])
    ensures |before| < |before + [header] + after|
    ensures Cut(before + [header] + after, |before|) == Section(before, header, [], after)
  {
    var s := Section(before, header, [], after);
    assert s.Lines() == before + [header] + after;
    CutUnique(s);
  }

  lemma NewSection(x: seq<string>, block: seq<string>, header: string, body: seq<string>, y: seq<string>)
    requires block != [] && block[|block| - 1] == header
    ensures Section(x + block[..|block| - 1], header, body, y).Lines() == x + (block + body) + y
    ensures x + block[..|block| - 1] + [header] + y == x + block + y && block + [] == block
  {
    assert block == block[..|block| - 1] + [header];
  }

  lemma WithOptionsHas(s: seq<string>)
    requires s != []
    ensures 0 <= OptionsAt(WithOptions(s)) < |WithOptions(s)|
  {
    if OptionsAt(s) < 0 { WithOptionsNew(s); }
  }

  /** The project's lines with the option set, its tables created if need be. */
  ghost function PatchedProject(s: seq<string>, key: string, value: string, wide: Printable): seq<string>
    requires s != []
  {
    WithOptionsHas(s);
    SetIn(WithOptions(s), OptionsAt(WithOptions(s)), key, value, wide)
  }

  lemma WithOptionsGroup(s: seq<string>, header: string)
    requires s != [] && header in [PROJECTS, PLATFORMS] && IsGroup(s, Header(header))
    ensures IsGroup(WithOptions(s), Header(header))
  {
    if OptionsAt(s) < 0 {
      WithOptionsNew(s);
      var (at, block) := Missing(s);
      AgentLinesFree(block, header);
      hide *;
      GroupInserted(s, at, block, Header(header), WithOptions(s));
    } else {
      assert WithOptions(s) == s;
    }
  }

  lemma GroupInserted(s: seq<string>, at: nat, block: seq<string>, p: string -> bool, t: seq<string>)
    requires 1 <= at <= |s| && IsGroup(s, p) && Free(block, p) && t == s[..at] + block + s[at..]
    ensures IsGroup(t, p)
  {
    hide IsGroup, Free;
    assert s == s[..at] + s[at..] && t == s[..at] + (block + s[at..]);
    IsGroupParts(s[..at], s[at..], p);
    IsGroupParts(s[..at], block + s[at..], p);
    FreeConcat(block, s[at..], p);
  }

  /** After the edit the options section is where it was, with the option set in its body. */
  lemma PatchedIs(s: seq<string>, key: string, value: string, wide: Printable)
    requires s != [] && BareKey(key)
    ensures var t, r := WithOptions(s), PatchedProject(s, key, value, wide);
      && 0 <= OptionsAt(t) < |t| && OptionsAt(r) == OptionsAt(t) && r == SetIn(t, OptionsAt(t), key, value, wide)
      && Cut(r, OptionsAt(r)) == Cut(t, OptionsAt(t)).(body := Upserted(Cut(t, OptionsAt(t)).body, key, value, wide))
  {
    WithOptionsHas(s);
    var t := WithOptions(s);
    SetKeepsLast(t, OptionsAt(t), key, value, wide, AGENT_OPTIONS);
    SetInIs(t, OptionsAt(t), key, value, wide);
  }

  lemma SetKeepsLast(t: seq<string>, at: nat, key: string, value: string, wide: Printable, header: string)
    requires at < |t| && at == Last(t, Header(header)) && BareKey(key) && "[" <= header
    ensures Last(SetIn(t, at, key, value, wide), Header(header)) == at
  {
    CutIs(t, at);
    LastIs(t, Header(header));
    var c := Cut(t, at);
    var body := Upserted(c.body, key, value, wide);
    UpsertedPlain(c.body, key, value, wide);
    NoHeadersFree(body, header);
    AfterLast(t, at, c, Header(header));
    SplitLinesOf(c.(body := body));
    assert SetIn(t, at, key, value, wide) == c.(body := body).Lines();
    assert Header(header)(c.header);
    hide *;
    FreeConcat(body, c.after, Header(header));
    LastOf(c.before, c.header, body + c.after, Header(header));
  }

  lemma AfterLast(t: seq<string>, at: nat, c: Section, p: string -> bool)
    requires t == c.Lines() && |c.before| == at && NoHit(t, p, at + 1, |t|)
    ensures Free(c.after, p)
  {
    assert forall k :: 0 <= k < |c.after| ==> c.after[k] == t[at + 1 + |c.body| + k];
  }

  // ----- the laws

  /** Get after put: in that project the option reads back as the value just set, even when
      its tables had to be made. */
  lemma PatchedReads(s: seq<string>, key: string, value: string, wide: Printable)
    requires s != [] && BareKey(key)
    ensures OptionValue(PatchedProject(s, key, value, wide), key) == ReadBack(value)
  {
    PatchedIs(s, key, value, wide);
    var t := WithOptions(s);
    UpsertedReads(Cut(t, OptionsAt(t)).body, key, value, wide);
    hide PatchedProject, WithOptions, OptionsAt, SetIn, Cut, ReadBack, ValueOf;
  }

  /** Every other option of the agent keeps its line. */
  lemma PatchedOthers(s: seq<string>, key: string, value: string, wide: Printable, other: string)
    requires s != [] && BareKey(key) && BareKey(other) && key != other
    ensures OptionLine(PatchedProject(s, key, value, wide), other) == OptionLine(s, other)
  {
    PatchedIs(s, key, value, wide);
    var t := WithOptions(s);
    UpsertedOthers(Cut(t, OptionsAt(t)).body, key, value, wide, other);
    if OptionsAt(s) < 0 { WithOptionsNew(s); }
    hide PatchedProject, OptionsAt, SetIn, Cut, Missing;
  }

  /** Last write wins for a whole project. */
  lemma PatchedTwice(s: seq<string>, key: string, v1: string, v2: string, wide: Printable)
    requires s != [] && BareKey(key)
    ensures PatchedProject(s, key, v1, wide) != []
    ensures PatchedProject(PatchedProject(s, key, v1, wide), key, v2, wide) == PatchedProject(s, key, v2, wide)
  {
    PatchedIs(s, key, v1, wide);
    var t := WithOptions(s);
    SetInTwice(t, OptionsAt(t), key, v1, v2, wide);
    var r := PatchedProject(s, key, v1, wide);
    assert WithOptions(r) == r;
    hide OptionsAt, SetIn, Cut;
  }

  lemma PatchedSame(s: seq<string>, key: string, value: string, wide: Printable)
    requires s != [] && OptionsAt(s) >= 0
    ensures OptionsAt(s) < |s| && PatchedProject(s, key, value, wide) == SetIn(s, OptionsAt(s), key, value, wide)
  {
    hide SetIn, Header;
  }

  lemma PatchedNew(s: seq<string>, key: string, value: string, wide: Printable)
    requires s != [] && BareKey(key) && OptionsAt(s) < 0 && Missing(s).0 <= |s|
    ensures var (at, block) := Missing(s);
      PatchedProject(s, key, value, wide) == s[..at] + (block + Upserted([], key, value, wide)) + s[at..]
  {
    WithOptionsNew(s);
    PatchedIs(s, key, value, wide);
    CutIs(PatchedProject(s, key, value, wide), OptionsAt(PatchedProject(s, key, value, wide)));
    hide PatchedProject, OptionsAt, Missing, Upserted, Cut, SetIn, WithOptions, AgentLines, IsAnyTableHeader;
    var (at, block) := Missing(s);
    NewSection(s[..at], block, AGENT_OPTIONS, Upserted([], key, value, wide), s[at..]);
  }

  /** Between these two lines there is no table header. */
  ghost predicate OneTable(s: seq<string>, from: int, to: int) {
    forall k :: from < k < to && 0 <= k < |s| ==> !IsAnyTableHeader(s[k])
  }

  /** Where the table that holds this line ends. */
  ghost predicate TableEnd(s: seq<string>, from: int, at: int) {
    from < at <= |s| && 0 <= at && OneTable(s, from, at) && (at == |s| || IsAnyTableHeader(s[at]))
  }

  /** The frame: one line of the options section that matched the key is replaced, or lines
      are inserted at the end of one table: the options, else the agent table, else the
      project's main table. Every other line stays, in order. */
  lemma PatchedFrame(s: seq<string>, key: string, value: string, wide: Printable)
      returns (at: nat, gone: seq<string>, put: seq<string>)
    requires s != [] && BareKey(key)
    ensures 1 <= at && at + |gone| <= |s| && gone == s[at..at + |gone|]
    ensures PatchedProject(s, key, value, wide) == s[..at] + put + s[at + |gone|..]
    ensures gone == [] || (|gone| == |put| == 1 && MatchTomlStringKey(gone[0], key) && OptionsAt(s) < at)
    ensures gone == [] ==> TableEnd(s, if OptionsAt(s) >= 0 then OptionsAt(s) else if AgentAt(s) >= 0 then AgentAt(s) else 0, at)
    ensures gone != [] ==> OneTable(s, OptionsAt(s), at)
    ensures put != [] && Wrote(put[|put| - 1], key, value) && (OptionsAt(s) >= 0 ==> |put| == 1)
    ensures OptionsAt(s) != 0 ==> 1 + |Cut(s, 0).body| <= at
  {
    hide *;
    if OptionsAt(s) >= 0 {
      PatchedSame(s, key, value, wide);
      at, gone, put := SetFrame(s, OptionsAt(s), key, value, wide);
      LastIsHeader(s, AGENT_OPTIONS);
      OptionsIs(s);
      if OptionsAt(s) > 0 { BeyondMain(s, OptionsAt(s)); }
    } else {
      WithOptionsNew(s);
      MissingBeyondMain(s);
      MissingPlace(s);
      PatchedNew(s, key, value, wide);
      var (place, block) := Missing(s);
      at, gone, put := place, [], block + Upserted([], key, value, wide);
      var n, line := BodyFrame([], key, value, wide);
    }
  }

  /** The main table ends before any header. */
  lemma BeyondMain(s: seq<string>, k: nat)
    requires 0 < k < |s| && IsAnyTableHeader(s[k])
    ensures 1 + |Cut(s, 0).body| <= k
  {
    hide IsAnyTableHeader;
    FirstIs(s[1..], AnyHeader());
    hide First;
    assert s[1..][k - 1] == s[k];
  }

  lemma LastIsHeader(s: seq<string>, header: string)
    ensures var k := Last(s, Header(header)); k >= 0 && "[" <= header ==> IsAnyTableHeader(s[k])
    ensures "[" <= AGENT_OPTIONS && "[" <= AGENT
  {
    LastIs(s, Header(header));
    var k := Last(s, Header(header));
    if k >= 0 && "[" <= header { HeaderIsAny(s[k], header); }
    hide Last, MatchTableHeader, IsAnyTableHeader;
  }

  lemma MissingBeyondMain(s: seq<string>)
    requires s != []
    ensures 1 + |Cut(s, 0).body| <= Missing(s).0
  {
    LastIsHeader(s, AGENT);
    if AgentAt(s) >= 0 {
      CutIs(s, AgentAt(s));
      if AgentAt(s) > 0 { BeyondMain(s, AgentAt(s)); }
    }
    hide IsAnyTableHeader, Last, First;
  }

  lemma MissingPlace(s: seq<string>)
    requires s != []
    ensures TableEnd(s, if AgentAt(s) >= 0 then AgentAt(s) else 0, Missing(s).0)
  {
    hide Cut, TableEnd, Last;
    if AgentAt(s) >= 0 {
      CutEnds(s, AgentAt(s));
    } else {
      CutEnds(s, 0);
    }
  }

  lemma CutEnds(s: seq<string>, i: nat)
    requires i < |s|
    ensures |Cut(s, i).before| == i
    ensures forall n {:trigger OneTable(s, i, n)} :: n <= i + 1 + |Cut(s, i).body| ==> OneTable(s, i, n)
    ensures TableEnd(s, i, i + 1 + |Cut(s, i).body|)
  {
    CutIs(s, i);
    SectionPlace(s, i);
    hide Cut, IsAnyTableHeader;
    var c := Cut(s, i);
    var x := s[..i + 1 + |c.body|];
    forall k | i < k < |x|
      ensures !IsAnyTableHeader(s[k])
    {
      assert s[k] == x[k] == c.body[k - i - 1];
    }
  }

  lemma SetFrame(seg: seq<string>, at: nat, key: string, value: string, wide: Printable)
      returns (i: nat, gone: seq<string>, put: seq<string>)
    requires at < |seg| && BareKey(key)
    ensures at < i && i + |gone| <= |seg| && gone == seg[i..i + |gone|]
    ensures SetIn(seg, at, key, value, wide) == seg[..i] + put + seg[i + |gone|..]
    ensures |put| == 1 && Wrote(put[0], key, value) && (gone == [] || (|gone| == 1 && MatchTomlStringKey(gone[0], key)))
    ensures if gone == [] then TableEnd(seg, at, i) else OneTable(seg, at, i)
  {
    hide *;
    CutIs(seg, at);
    CutEnds(seg, at);
    var c := Cut(seg, at);
    var n, line := BodyFrame(c.body, key, value, wide);
    i, put := at + 1 + n, [line];
    gone := if n < |c.body| then [c.body[n]] else [];
    FrameParts(seg, at, c, n, line);
    SetInBody(seg, at, key, value, wide);
  }

  lemma SetInBody(seg: seq<string>, at: nat, key: string, value: string, wide: Printable)
    requires at < |seg|
    ensures var c := Cut(seg, at);
      SetIn(seg, at, key, value, wide) == c.(body := Upserted(c.body, key, value, wide)).Lines()
  {
    hide Cut, Upserted;
  }

  lemma BodyFrame(body: seq<string>, key: string, value: string, wide: Printable) returns (n: nat, line: string)
    requires BareKey(key)
    ensures n <= |body| && (n < |body| ==> MatchTomlStringKey(body[n], key)) && Wrote(line, key, value)
    ensures Upserted(body, key, value, wide) == if n < |body| then body[n := line] else body + [line]
  {
    line := UpsertedShape(body, key, value, wide);
    FirstIs(body, ForKey(key));
    n := First(body, ForKey(key));
    hide First, MatchTomlStringKey, Upserted, Wrote, BareKey, NoHit;
  }

  lemma FrameParts(seg: seq<string>, at: nat, c: Section, n: nat, line: string)
    requires |c.before| == at && n <= |c.body| && c.Lines() == seg
    ensures var body := if n < |c.body| then c.body[n := line] else c.body + [line];
      c.(body := body).Lines() == seg[..at + 1 + n] + [line] + seg[at + 1 + n + (if n < |c.body| then 1 else 0)..]
    ensures at + 1 + |c.body| <= |seg| && (n < |c.body| ==> [c.body[n]] == seg[at + 1 + n..at + 2 + n])
  {
    hide *;
    var front := c.before + [c.header];
    FrontBodyAfter(c);
    if n < |c.body| {
      FrontBodyAfter(c.(body := c.body[n := line]));
      LineReplaced(front, c.body, c.after, n, line);
    } else {
      FrontBodyAfter(c.(body := c.body + [line]));
      LineAdded(front, c.body, c.after, line);
    }
  }

  lemma FrontBodyAfter(c: Section)
    ensures c.Lines() == c.before + [c.header] + (c.body + c.after)
  {
  }

  lemma LineReplaced(front: seq<string>, body: seq<string>, after: seq<string>, n: nat, line: string)
    requires n < |body|
    ensures var s, i := front + (body + after), |front| + n;
      && i < |s| && s[i] == body[n] && [body[n]] == s[i..i + 1]
      && front + (body[n := line] + after) == s[..i] + [line] + s[i + 1..]
  {
    var s, i := front + (body + after), |front| + n;
    assert s[i := line] == s[..i] + [line] + s[i + 1..];
    assert front + (body[n := line] + after) == s[i := line];
  }

  lemma LineAdded(front: seq<string>, body: seq<string>, after: seq<string>, line: string)
    ensures var s, i := front + (body + after), |front| + |body|;
      && i <= |s| && front + (body + [line] + after) == s[..i] + [line] + s[i..]
  {
    var s, i := front + (body + after), |front| + |body|;
    assert s == (front + body) + after;
    assert s[..i] == front + body && s[i..] == after;
  }
}
