/** Which projects, and which platforms of a project, keep their numbers when a file is tidied,
    and that a table that keeps its place keeps its values (config/config.go, formatTOML). */
module TomlKept {
  import opened Text
  import opened TomlLines
  import opened Search
  import opened TomlSpans
  import opened TomlSections
  import opened TomlEdits
  import opened TomlPatch
  import opened TomlFormat
  import opened TomlFormatProperties
  import opened TomlTidying

  /** The table that a run of lines begins with holds anything. */
  ghost predicate Stays(g: seq<string>) {
    g != [] && NonBlank(Cut(g, 0).body) != []
  }

  ghost predicate AllStay(gs: seq<seq<string>>) {
    forall k :: 0 <= k < |gs| ==> Stays(gs[k])
  }

  /** The tables of this kind up to number `i` are not empty. */
  ghost predicate StayTo(lines: seq<string>, header: string, i: nat) {
    var gs := Groups(lines, Header(header)).1;
    forall k :: 0 <= k < |gs| && k <= i ==> Stays(gs[k])
  }

  /** Tidying leaves the header of a table that holds anything, and its own lines. */
  lemma LeftOfStaying(g: seq<string>, header: string)
    requires "[" <= header && IsGroup(g, Header(header)) && Stays(g)
    ensures IsGroup(Left(g), Header(header)) && Left(g) != [] && MatchTableHeader(Left(g)[0], header)
    ensures Cut(Left(g), 0).body == Cuts(NonBlank(Cut(g, 0).body))
  {
    hide *;
    GroupFront(g, header);
    StaysIs(g);
    CutIs(g, 0);
    var c := Cut(g, 0);
    LeftOfSection(c);
    LeftNothing();
    EmptyFront(c.before);
    var t := Section(Left(c.before), TrimTail(c.header), Cuts(NonBlank(c.body)), Left(c.after));
    CutUnique(t);
    TrimTailMatches(g[0], header);
    HeaderIs(TrimTail(g[0]), header);
    TailOfSection(c);
    TailOfSection(t);
    LeftOfBody(c);
    FreeLeft(g[1..], header);
    GroupHead(TrimTail(g[0]), Left(g[1..]), Header(header));
  }

  lemma StaysIs(g: seq<string>)
    ensures Stays(g) <==> g != [] && NonBlank(Cut(g, 0).body) != []
  {
    hide NonBlank, Cut;
  }

  lemma EmptyFront(before: seq<string>)
    ensures |before| == 0 ==> before == []
  {
  }

  lemma GroupFront(g: seq<string>, header: string)
    requires "[" <= header && IsGroup(g, Header(header))
    ensures g != [] && MatchTableHeader(g[0], header) && IsAnyTableHeader(g[0]) && Free(g[1..], Header(header))
  {
    HeaderIsAny(g[0], header);
    hide MatchTableHeader, IsAnyTableHeader;
    assert g == [g[0]] + g[1..];
    IsGroupParts([g[0]], g[1..], Header(header));
  }

  lemma TailOfSection(c: Section)
    requires c.before == []
    ensures c.Lines() == [c.header] + (c.body + c.after) && c.Lines()[1..] == c.body + c.after
  {
  }

  lemma LeftOfBody(c: Section)
    requires Proper(c)
    ensures Left(c.body + c.after) == Cuts(NonBlank(c.body)) + Left(c.after)
  {
    hide *;
    ProperBody(c);
    ProperEnds(c);
    StartsIs(c.after);
    LeftConcat(c.body, c.after);
    LeftIs(c.body);
    NonBlankPlain(c.body);
    SurvivingPlain(NonBlank(c.body));
  }

  lemma OneHeader(g: seq<string>, p: string -> bool)
    requires IsGroup(g, p)
    ensures Count(g, p) == 1 && g != [] && p(g[0])
  {
    assert g == [g[0]] + g[1..];
    IsGroupParts([g[0]], g[1..], p);
    CountFree(g[1..], p);
    CountCons(g[0], g[1..], p);
    hide Count, Free;
  }

  // ----- numbers

  /** Tables that all hold something all keep their headers. */
  lemma {:induction false} CountStaying(a: seq<string>, header: string, n: nat)
    requires "[" <= header && n == |Groups(a, Header(header)).1| && AllStay(Groups(a, Header(header)).1)
    ensures Count(Left(a), Header(header)) == n
    decreases n
  {
    hide *;
    var p := Header(header);
    CountGroups(a, p);
    CountLeft(a, header);
    if n > 0 {
      var x, g := LastGroup(a, p);
      GroupFront(g, header);
      GroupsSnoc(x, g, p);
      AllStaySnoc(Groups(x, p).1, g);
      CountStaying(x, header, n - 1);
      StartsIs(g);
      LeftConcat(x, g);
      LeftOfStaying(g, header);
      OneHeader(Left(g), p);
      CountConcat(Left(x), Left(g), p);
    }
  }

  lemma AllStaySnoc(gs: seq<seq<string>>, g: seq<string>)
    ensures AllStay(gs + [g]) <==> AllStay(gs) && Stays(g)
  {
    hide Stays;
    if AllStay(gs + [g]) {
      assert (gs + [g])[|gs|] == g && forall k :: 0 <= k < |gs| ==> (gs + [g])[k] == gs[k];
    }
  }

  lemma LastGroup(a: seq<string>, p: string -> bool) returns (x: seq<string>, g: seq<string>)
    requires |Groups(a, p).1| > 0
    ensures a == x + g && IsGroup(g, p) && |Groups(x, p).1| == |Groups(a, p).1| - 1
  {
    hide *;
    var n := |Groups(a, p).1|;
    GroupCount(a, p);
    var c;
    x, g, c := GroupAt(a, p, n - 1);
    GroupsThree(x, g, c, p);
    NothingBehind(c, p);
    assert x + g + [] == x + g;
  }

  lemma NothingBehind(c: seq<string>, p: string -> bool)
    requires Groups(c, p).1 == [] && (c == [] || p(c[0]))
    ensures c == []
  {
  }

  lemma GroupsThree(x: seq<string>, g: seq<string>, c: seq<string>, p: string -> bool)
    requires IsGroup(g, p) && (c == [] || p(c[0]))
    ensures Groups(x + g + c, p).1 == Groups(x, p).1 + [g] + Groups(c, p).1
  {
    GroupsAround(x, g, c, p);
    hide Groups;
  }

  lemma GroupsSnoc(x: seq<string>, g: seq<string>, p: string -> bool)
    requires IsGroup(g, p)
    ensures Groups(x + g, p).1 == Groups(x, p).1 + [g]
  {
    GroupsThree(x, g, [], p);
    assert x + g + [] == x + g && Groups([], p).1 == [];
    hide Groups;
    assert Groups(x, p).1 + [g] + [] == Groups(x, p).1 + [g];
  }

  /** The first table behind another one. */
  lemma FirstGroup(c: seq<string>, p: string -> bool) returns (g: seq<string>, rest: seq<string>)
    requires c != [] && p(c[0])
    ensures c == g + rest && IsGroup(g, p) && (rest == [] || p(rest[0]))
    ensures |Groups(c, p).1| > 0 && Groups(c, p).1[0] == g
  {
    assert |Groups(c, p).1| > 0;
    GroupCount(c, p);
    var x;
    x, g, rest := GroupAt(c, p, 0);
    assert c == x + (g + rest);
    NoGroupNoFront(x, g + rest, p);
    hide Groups;
    assert [] + g + rest == g + rest;
  }

  lemma NoGroupNoFront(x: seq<string>, y: seq<string>, p: string -> bool)
    requires Groups(x, p).1 == []
    ensures x + y != [] && p((x + y)[0]) ==> x == []
  {
  }

  /** If the tables up to the one behind number `i` hold anything, tidying leaves table `i` its
      number: what is left of the file has in its place what is left of the table. */
  lemma GroupLeft(lines: seq<string>, header: string, i: nat)
    requires "[" <= header && i < |Groups(lines, Header(header)).1| && StayTo(lines, header, i + 1)
    ensures i < |Groups(Left(lines), Header(header)).1|
    ensures Groups(Left(lines), Header(header)).1[i] == Left(Groups(lines, Header(header)).1[i])
  {
    hide *;
    var p := Header(header);
    GroupCount(lines, p);
    var a, g, c := GroupAt(lines, p, i);
    GroupsThree(a, g, c, p);
    StaysAround(lines, header, i, Groups(a, p).1, g, Groups(c, p).1);
    GroupFront(g, header);
    StartsIs(g);
    FrontOf(c, header);
    StartsIs(c);
    LeftConcat(a + g, c);
    LeftConcat(a, g);
    LeftOfStaying(g, header);
    if c == [] {
      LeftNothing();
    } else {
      NextLeft(c, header);
    }
    CountStaying(a, header, i);
    CountGroups(Left(a), p);
    GroupInside(Left(a), Left(g), Left(c), p);
  }

  lemma StaysAround(lines: seq<string>, header: string, i: nat, gs: seq<seq<string>>, g: seq<string>, rest: seq<seq<string>>)
    requires StayTo(lines, header, i + 1) && Groups(lines, Header(header)).1 == gs + [g] + rest && |gs| == i
    ensures AllStay(gs) && Stays(g) && (rest != [] ==> Stays(rest[0]))
  {
    hide Stays, Groups;
    var all := gs + [g] + rest;
    assert forall k :: 0 <= k < i ==> all[k] == gs[k];
    assert all[i] == g && (rest != [] ==> all[i + 1] == rest[0]);
  }

  lemma FrontOf(c: seq<string>, header: string)
    requires "[" <= header && (c == [] || Header(header)(c[0]))
    ensures c == [] || IsAnyTableHeader(c[0])
  {
    if c != [] { HeaderIsAny(c[0], header); }
    hide MatchTableHeader, IsAnyTableHeader;
  }

  lemma NextLeft(c: seq<string>, header: string)
    requires "[" <= header && c != [] && Header(header)(c[0])
    requires Groups(c, Header(header)).1 != [] ==> Stays(Groups(c, Header(header)).1[0])
    ensures Left(c) != [] && Header(header)(Left(c)[0])
  {
    hide *;
    var p := Header(header);
    var g, rest := FirstGroup(c, p);
    FrontOf(rest, header);
    StartsIs(rest);
    LeftConcat(g, rest);
    LeftOfStaying(g, header);
    HeadOfConcat(Left(g), Left(rest));
    HeaderIs(Left(g)[0], header);
  }

  /** If only the tables up to number `i` hold anything, what is left of table `i` keeps its
      number, and the tables of dropped headers behind it may follow it. */
  lemma GroupLeftFront(lines: seq<string>, extra: seq<string>, header: string, i: nat) returns (more: seq<string>)
    requires "[" <= header && i < |Groups(lines, Header(header)).1| && StayTo(lines, header, i) && StartsSection(extra)
    ensures i < |Groups(Left(lines) + extra, Header(header)).1| && StartsSection(more)
    ensures Groups(Left(lines) + extra, Header(header)).1[i] == Left(Groups(lines, Header(header)).1[i]) + more
  {
    hide *;
    var p := Header(header);
    GroupCount(lines, p);
    var a, g, c := GroupAt(lines, p, i);
    GroupsThree(a, g, c, p);
    StaysBefore(lines, header, i, Groups(a, p).1, g, Groups(c, p).1);
    GroupFront(g, header);
    StartsIs(g);
    FrontOf(c, header);
    StartsIs(c);
    LeftConcat(a + g, c);
    LeftConcat(a, g);
    LeftOfStaying(g, header);
    LeftStarts(c);
    BothStart(Left(c), extra);
    CountStaying(a, header, i);
    CountGroups(Left(a), p);
    var rest;
    more, rest := UpToNext(Left(c) + extra, p);
    IsGroupParts(Left(g), more, p);
    GroupInside(Left(a), Left(g) + more, rest, p);
    Reassociated(Left(a), Left(g), Left(c), extra, more, rest);
  }

  lemma Reassociated(a: seq<string>, g: seq<string>, c: seq<string>, extra: seq<string>, more: seq<string>, rest: seq<string>)
    requires c + extra == more + rest
    ensures a + g + c + extra == a + (g + more) + rest
  {
    assert a + g + c + extra == a + g + (c + extra) && a + (g + more) + rest == a + g + (more + rest);
  }

  lemma StaysBefore(lines: seq<string>, header: string, i: nat, gs: seq<seq<string>>, g: seq<string>, rest: seq<seq<string>>)
    requires StayTo(lines, header, i) && Groups(lines, Header(header)).1 == gs + [g] + rest && |gs| == i
    ensures AllStay(gs) && Stays(g)
  {
    hide Stays, Groups;
    var all := gs + [g] + rest;
    assert forall k :: 0 <= k < i ==> all[k] == gs[k];
    assert all[i] == g;
  }

  lemma BothStart(x: seq<string>, y: seq<string>)
    requires StartsSection(x) && StartsSection(y)
    ensures StartsSection(x + y)
  {
    hide IsAnyTableHeader;
  }

  /** The lines in front of the next header of a kind, and the rest. */
  lemma UpToNext(lines: seq<string>, p: string -> bool) returns (x: seq<string>, y: seq<string>)
    requires StartsSection(lines)
    ensures lines == x + y && Free(x, p) && (y == [] || p(y[0])) && StartsSection(x)
  {
    FirstIs(lines, p);
    hide First, IsAnyTableHeader;
    var n := First(lines, p);
    x, y := lines[..n], lines[n..];
  }

  // ----- tidy files

  /** In a tidy file every table holds something. */
  lemma TidyStays(x: seq<string>, seg: seq<string>, y: seq<string>, header: string)
    requires "[" <= header && NoneSkipped(x + seg + y) && (y == [] || IsAnyTableHeader(y[0]))
    ensures AllStay(Groups(seg, Header(header)).1)
  {
    hide *;
    var p := Header(header);
    GroupCount(seg, p);
    forall k | 0 <= k < |Groups(seg, p).1|
      ensures Stays(Groups(seg, p).1[k])
    {
      var a, g, c := GroupAt(seg, p, k);
      FrontOf(c, header);
      GroupFront(g, header);
      HeadOfConcat(c, y);
      Nested(x, a, g, c, y);
      TableStays(x + a, g, c + y);
    }
    AllStayIs(Groups(seg, p).1);
  }

  lemma AllStayIs(gs: seq<seq<string>>)
    requires forall k :: 0 <= k < |gs| ==> Stays(gs[k])
    ensures AllStay(gs)
  {
    hide Stays;
  }

  lemma Nested(x: seq<string>, a: seq<string>, g: seq<string>, c: seq<string>, y: seq<string>)
    ensures x + (a + g + c) + y == (x + a) + g + (c + y)
  {
  }

  lemma TableStays(x: seq<string>, g: seq<string>, y: seq<string>)
    requires NoneSkipped(x + g + y) && g != [] && IsAnyTableHeader(g[0]) && (y == [] || IsAnyTableHeader(y[0]))
    ensures Stays(g)
  {
    hide *;
    StaysIs(g);
    CutIs(g, 0);
    var c := Cut(g, 0);
    EmptyFront(c.before);
    TailOfSection(c);
    ProperEnds(c);
    HeadOfConcat(c.after, y);
    assert x + g + y == x + [g[0]] + (c.body + (c.after + y));
    SectionFilled(x, g[0], c.body, c.after + y);
  }

  /** What a table of the tidied file and its like in the file before leave is the same. */
  lemma FormatKeepsGroup(lines: seq<string>, header: string, i: nat)
    requires "[" <= header && i < |Groups(lines, Header(header)).1| && StayTo(lines, header, i + 1)
    ensures i < |Groups(Formatted(lines), Header(header)).1|
    ensures Left(Groups(Formatted(lines), Header(header)).1[i]) == Left(Groups(lines, Header(header)).1[i])
  {
    hide *;
    var p, f := Header(header), Formatted(lines);
    TidyLeft(lines);
    assert [] + f + [] == f;
    TidyStays([], f, [], header);
    GroupLeft(lines, header, i);
    SameNumbers(f, lines, header, i);
  }

  /** Two runs of lines that leave the same, one of them tidy. */
  lemma SameNumbers(f: seq<string>, lines: seq<string>, header: string, i: nat)
    requires "[" <= header && AllStay(Groups(f, Header(header)).1) && Left(f) == Left(lines)
    requires i < |Groups(lines, Header(header)).1| && i < |Groups(Left(lines), Header(header)).1|
    requires Groups(Left(lines), Header(header)).1[i] == Left(Groups(lines, Header(header)).1[i])
    ensures i < |Groups(f, Header(header)).1|
    ensures Left(Groups(f, Header(header)).1[i]) == Left(Groups(lines, Header(header)).1[i])
  {
    hide *;
    var p := Header(header);
    CountStaying(f, header, |Groups(f, p).1|);
    CountGroups(Left(f), p);
    StayToAll(f, header, i + 1);
    GroupLeft(f, header, i);
  }

  /** The same for a run of lines that a tidy one leaves, with more behind it. */
  lemma SameNumbersFront(f: seq<string>, lines: seq<string>, extra: seq<string>, header: string, i: nat)
      returns (more: seq<string>)
    requires "[" <= header && AllStay(Groups(f, Header(header)).1) && Left(f) == Left(lines) + extra && StartsSection(extra)
    requires i < |Groups(lines, Header(header)).1| && StayTo(lines, header, i)
    ensures i < |Groups(f, Header(header)).1| && StartsSection(more)
    ensures Left(Groups(f, Header(header)).1[i]) == Left(Groups(lines, Header(header)).1[i]) + more
  {
    hide *;
    more := GroupLeftFront(lines, extra, header, i);
    CountStaying(f, header, |Groups(f, Header(header)).1|);
    CountGroups(Left(f), Header(header));
    StayToAll(f, header, i + 1);
    GroupLeft(f, header, i);
  }

  lemma StayToAll(f: seq<string>, header: string, i: nat)
    requires AllStay(Groups(f, Header(header)).1)
    ensures StayTo(f, header, i)
  {
    hide Stays, Groups;
  }

  // ----- values

  /** Of a table that stays, tidying keeps every value. */
  lemma MainLeft(g: seq<string>, header: string, key: string)
    requires "[" <= header && IsGroup(g, Header(header)) && Stays(g)
    ensures g != [] && Left(g) != [] && ValueOf(Cut(Left(g), 0).body, key) == ValueOf(Cut(g, 0).body, key)
  {
    hide *;
    GroupFront(g, header);
    LeftOfStaying(g, header);
    ValueCuts(NonBlank(Cut(g, 0).body), key);
    ValueNonBlank(Cut(g, 0).body, key);
  }

  /** Two platforms or projects that leave the same and both stay have the same values in their
      own tables. */
  lemma SameMain(g: seq<string>, g': seq<string>, header: string, key: string)
    requires "[" <= header && IsGroup(g, Header(header)) && Stays(g) && IsGroup(g', Header(header)) && Stays(g')
    requires Left(g) == Left(g')
    ensures g != [] && g' != [] && ValueOf(Cut(g, 0).body, key) == ValueOf(Cut(g', 0).body, key)
  {
    MainLeft(g, header, key);
    MainLeft(g', header, key);
    hide *;
  }

  /** A header stays exactly if its table holds anything. */
  lemma HeaderStays(h: string, header: string, main: seq<string>, rest: seq<string>)
    requires "[" <= header && MatchTableHeader(h, header) && NoHeaders(main) && Free(main + rest, Header(header))
    ensures NonBlank(main) != [] ==> Count(Left([h] + (main + rest)), Header(header)) == 1
    ensures StartsSection(rest) && NonBlank(main) == [] ==> Count(Left([h] + (main + rest)), Header(header)) == 0
  {
    hide *;
    var p, tail := Header(header), main + rest;
    HeaderIsAny(h, header);
    HeaderNotBlank(h);
    HeaderIs(TrimTail(h), header);
    TrimTailMatches(h, header);
    NonBlankOne(h);
    NonBlankConcat([h], tail);
    SurvivingCons(h, NonBlank(tail));
    LeftIs([h] + tail);
    LeftIs(tail);
    FreeLeft(tail, header);
    CountFree(Left(tail), p);
    CountCons(TrimTail(h), Left(tail), p);
    Nothing(Left(tail));
    NonBlankConcat(main, rest);
    StartsIs(rest);
    if StartsSection(rest) { NonBlankStarts(rest); }
    StartsIs(NonBlank(rest));
    NonBlankPlain(main);
    HeadPlain(NonBlank(main));
    HeadOfConcat(NonBlank(main), NonBlank(rest));
  }

  lemma HeadPlain(n: seq<string>)
    requires NoHeaders(n)
    ensures n != [] ==> !IsAnyTableHeader(n[0])
  {
    hide IsAnyTableHeader;
  }

  /** The last options table holds something, or it is the only one. */
  ghost predicate OptionsSafe(s: seq<string>) {
    OptionsFilled(s) || (0 <= OptionsAt(s) < |s| && Free(Cut(s, OptionsAt(s)).before, Header(AGENT_OPTIONS)))
  }

  /** Tidying a project keeps the value of every agent option, also if the only options table is
      empty and goes. */
  lemma OptionKept(s: seq<string>, key: string)
    requires OptionsSafe(s)
    ensures OptionValue(Left(s), key) == OptionValue(s, key)
  {
    hide *;
    OptionsSafeIs(s);
    OptionsFilledIs(s);
    if OptionsFilled(s) {
      OptionLeft(s, key);
    } else {
      OnlyTableGoes(s);
      OptionsIs(Left(s));
      LastNone(Left(s), Header(AGENT_OPTIONS));
      NoOption(Left(s), key);
      OptionIs(s, key);
      ValueNonBlank(Cut(s, OptionsAt(s)).body, key);
      NoValue(key);
    }
  }

  lemma OptionsSafeIs(s: seq<string>)
    requires OptionsSafe(s)
    ensures OptionsFilled(s) || (0 <= OptionsAt(s) < |s| && Free(Cut(s, OptionsAt(s)).before, Header(AGENT_OPTIONS)))
  {
    hide OptionsFilled, OptionsAt, Cut, Free;
  }

  lemma NoValue(key: string)
    ensures ValueOf([], key) == None
  {
  }

  lemma OnlyTableGoes(s: seq<string>)
    requires 0 <= OptionsAt(s) < |s| && Free(Cut(s, OptionsAt(s)).before, Header(AGENT_OPTIONS))
    requires NonBlank(Cut(s, OptionsAt(s)).body) == []
    ensures Free(Left(s), Header(AGENT_OPTIONS))
  {
    hide *;
    var p := Header(AGENT_OPTIONS);
    AgentOptionsBracket();
    OptionsIs(s);
    LastIs(s, p);
    CutIs(s, OptionsAt(s));
    var c := Cut(s, OptionsAt(s));
    HeaderIs(c.header, AGENT_OPTIONS);
    HeaderIsAny(c.header, AGENT_OPTIONS);
    AfterLast(s, OptionsAt(s), c, p);
    ProperBody(c);
    ProperEnds(c);
    StartsIs(c.after);
    NoHeadersFree(c.body, AGENT_OPTIONS);
    FreeConcat(c.body, c.after, p);
    HeaderStays(c.header, AGENT_OPTIONS, c.body, c.after);
    var tail := [c.header] + (c.body + c.after);
    SplitLinesOf(c);
    assert s == c.before + tail;
    StartsIs(tail);
    LeftConcat(c.before, tail);
    FreeLeft(c.before, AGENT_OPTIONS);
    CountFree(Left(tail), p);
    FreeConcat(Left(c.before), Left(tail), p);
  }
}
