/** What tidying leaves of a run of lines, section by section (config/config.go, formatTOML).
    The lines left are the non-blank ones without the headers of empty sections. Cutting a file
    at a header and tidying the pieces gives the same lines as tidying the file and cutting it
    there, so what is known about one project or one section carries over: a section that holds
    anything keeps its header and all its keys, and a project that is not dropped keeps its
    number. The final statements about whole files are in module TomlSave. */
module TomlTidying {
  import opened Text
  import opened TomlLines
  import opened TomlValues
  import opened Search
  import opened TomlSpans
  import opened TomlSections
  import opened TomlEdits
  import opened TomlPatch
  import opened TomlFormat
  import opened TomlFormatProperties

  // ----- what tidying leaves of a run of lines

  /** The non-blank lines that tidying leaves. */
  function Left(lines: seq<string>): seq<string> {
    Surviving(NonBlank(lines))
  }

  ghost predicate StartsSection(lines: seq<string>) {
    lines == [] || IsAnyTableHeader(lines[0])
  }

  lemma {:induction false} SurvivingConcat(a: seq<string>, b: seq<string>)
    requires StartsSection(b)
    ensures Surviving(a + b) == Surviving(a) + Surviving(b)
  {
    hide *;
    if a == [] {
      assert a + b == b;
      SurvivingNothing();
      Nothing(Surviving(b));
    } else {
      var rest := a[1..];
      SurvivingConcat(rest, b);
      assert a == [a[0]] + rest && a + b == [a[0]] + (rest + b);
      SurvivingCons(a[0], rest);
      SurvivingCons(a[0], rest + b);
      HeadOfConcat(rest, b);
      StartsIs(b);
    }
  }

  lemma SurvivingNothing()
    ensures Surviving([]) == []
  {
  }

  lemma StartsIs(lines: seq<string>)
    ensures StartsSection(lines) <==> lines == [] || IsAnyTableHeader(lines[0])
  {
  }

  lemma HeadOfConcat(a: seq<string>, b: seq<string>)
    ensures a + b != [] ==> (a + b)[0] == if a != [] then a[0] else b[0]
    ensures a + b == [] <==> a == [] && b == []
  {
  }

  lemma NonBlankStarts(b: seq<string>)
    requires StartsSection(b)
    ensures StartsSection(NonBlank(b))
  {
    if b != [] { HeaderNotBlank(b[0]); }
    hide IsAnyTableHeader, IsBlank;
  }

  /** Cutting at a header commutes with tidying. */
  lemma LeftConcat(a: seq<string>, b: seq<string>)
    requires StartsSection(b)
    ensures Left(a + b) == Left(a) + Left(b)
  {
    NonBlankStarts(b);
    NonBlankConcat(a, b);
    SurvivingConcat(NonBlank(a), NonBlank(b));
    hide NonBlank, Surviving, StartsSection;
  }

  lemma {:induction false} SurvivingStarts(n: seq<string>)
    requires StartsSection(n)
    ensures StartsSection(Surviving(n))
  {
    if n != [] {
      TrimTailKeeps(n[0]);
      if Dangling(n) {
        SurvivingStarts(n[1..]);
      }
    }
    hide IsAnyTableHeader, TrimTail;
  }

  lemma LeftStarts(b: seq<string>)
    requires StartsSection(b)
    ensures StartsSection(Left(b))
  {
    NonBlankStarts(b);
    SurvivingStarts(NonBlank(b));
    hide NonBlank, Surviving, StartsSection;
  }

  function Cuts(lines: seq<string>): seq<string> {
    if lines == [] then [] else [TrimTail(lines[0])] + Cuts(lines[1..])
  }

  /** A run without headers keeps all its non-blank lines, whatever section follows. */
  lemma {:induction false} SurvivingPlain(body: seq<string>)
    requires NoHeaders(body)
    ensures Surviving(body) == Cuts(body)
  {
    hide IsAnyTableHeader, TrimTail;
    if body != [] {
      assert forall k :: 0 <= k < |body| - 1 ==> body[1..][k] == body[k + 1];
      SurvivingPlain(body[1..]);
    }
  }

  lemma {:induction false} NonBlankPlain(body: seq<string>)
    requires NoHeaders(body)
    ensures NoHeaders(NonBlank(body))
  {
    hide IsAnyTableHeader, IsBlank;
    if body != [] {
      assert forall k :: 0 <= k < |body| - 1 ==> body[1..][k] == body[k + 1];
      NonBlankPlain(body[1..]);
    }
  }

  lemma {:induction false} CutsPlain(body: seq<string>)
    requires NoHeaders(body)
    ensures NoHeaders(Cuts(body))
  {
    if body != [] {
      assert forall k :: 0 <= k < |body| - 1 ==> body[1..][k] == body[k + 1];
      TrimTailKeeps(body[0]);
      hide IsAnyTableHeader, TrimTail;
      CutsPlain(body[1..]);
    }
  }

  /** A section with something in it keeps its header and its body. */
  lemma LeftSection(h: string, body: seq<string>)
    requires IsAnyTableHeader(h) && NoHeaders(body) && NonBlank(body) != []
    ensures Left([h] + body) == [TrimTail(h)] + Cuts(NonBlank(body))
  {
    HeaderNotBlank(h);
    NonBlankPlain(body);
    SurvivingPlain(NonBlank(body));
    NonBlankOne(h);
    NonBlankConcat([h], body);
    SurvivingCons(h, NonBlank(body));
    var n := NonBlank(body);
    assert !IsAnyTableHeader(n[0]);
    hide IsAnyTableHeader, IsBlank, NonBlank, Surviving;
  }

  // ----- counting headers

  function Count(seg: seq<string>, p: string -> bool): nat {
    if seg == [] then 0 else (if p(seg[0]) then 1 else 0) + Count(seg[1..], p)
  }

  lemma {:induction false} CountConcat(a: seq<string>, b: seq<string>, p: string -> bool)
    ensures Count(a + b, p) == Count(a, p) + Count(b, p)
  {
    if a == [] {
      assert a + b == b;
    } else {
      assert (a + b)[1..] == a[1..] + b;
      CountConcat(a[1..], b, p);
    }
  }

  lemma {:induction false} CountGroups(seg: seq<string>, p: string -> bool)
    ensures |Groups(seg, p).1| == Count(seg, p)
  {
    if seg != [] { CountGroups(seg[1..], p); }
  }

  lemma {:induction false} CountFree(seg: seq<string>, p: string -> bool)
    ensures Count(seg, p) == 0 <==> Free(seg, p)
  {
    if seg != [] {
      CountFree(seg[1..], p);
      assert seg == [seg[0]] + seg[1..];
      FreeConcat([seg[0]], seg[1..], p);
      assert Free([seg[0]], p) <==> !p(seg[0]);
      hide Free;
    }
  }

  lemma {:induction false} CountNonBlank(lines: seq<string>, header: string)
    requires "[" <= header
    ensures Count(NonBlank(lines), Header(header)) == Count(lines, Header(header))
  {
    if lines != [] {
      CountNonBlank(lines[1..], header);
      HeaderNotBlank(lines[0]);
      if MatchTableHeader(lines[0], header) { HeaderIsAny(lines[0], header); }
      hide MatchTableHeader, IsBlank, IsAnyTableHeader, Count;
      CountCons(lines[0], lines[1..], Header(header));
      CountCons(lines[0], NonBlank(lines[1..]), Header(header));
      assert lines == [lines[0]] + lines[1..];
      Nothing(NonBlank(lines[1..]));
    }
  }

  lemma TrimTailMatches(line: string, header: string)
    ensures MatchTableHeader(TrimTail(line), header) == MatchTableHeader(line, header)
  {
    TrimTailSame(line);
    hide TrimSpace, TrimTail;
  }

  /** No header of this kind is dropped. */
  ghost predicate NoneDropped(n: seq<string>, header: string) {
    forall i :: 0 <= i < |n| && Dangling(n[i..]) ==> !MatchTableHeader(n[i], header)
  }

  lemma NoneDroppedCons(n: seq<string>, header: string)
    requires n != []
    ensures NoneDropped(n, header) <==> NoneDropped(n[1..], header) && (Dangling(n) ==> !MatchTableHeader(n[0], header))
  {
    hide IsAnyTableHeader, MatchTableHeader;
    assert n[0..] == n;
    assert forall i :: 0 < i < |n| ==> n[i..] == n[1..][i - 1..] && n[i] == n[1..][i - 1];
    if NoneDropped(n, header) {
      forall i | 0 <= i < |n[1..]| && Dangling(n[1..][i..])
        ensures !MatchTableHeader(n[1..][i], header)
      {
        assert n[i + 1..] == n[1..][i..];
      }
    }
  }

  /** Dropping headers lowers their number, and keeps it exactly if none of the kind is dropped. */
  lemma {:induction false} CountSurviving(n: seq<string>, header: string)
    ensures Count(Surviving(n), Header(header)) <= Count(n, Header(header))
    ensures Count(Surviving(n), Header(header)) == Count(n, Header(header)) <==> NoneDropped(n, header)
  {
    if n != [] {
      CountSurviving(n[1..], header);
      hide *;
      NoneDroppedCons(n, header);
      TrimTailMatches(n[0], header);
      HeaderIs(n[0], header);
      HeaderIs(TrimTail(n[0]), header);
      SurvivingIs(n);
      CountCons(n[0], n[1..], Header(header));
      CountCons(TrimTail(n[0]), Surviving(n[1..]), Header(header));
      assert n == [n[0]] + n[1..];
      Nothing(Surviving(n[1..]));
    }
  }

  lemma CountCons(line: string, rest: seq<string>, p: string -> bool)
    ensures Count([line] + rest, p) == (if p(line) then 1 else 0) + Count(rest, p)
  {
    assert ([line] + rest)[1..] == rest;
  }

  lemma SurvivingIs(n: seq<string>)
    requires n != []
    ensures Surviving(n) == (if Dangling(n) then [] else [TrimTail(n[0])]) + Surviving(n[1..])
  {
    hide Dangling, TrimTail;
  }

  lemma CountLeft(lines: seq<string>, header: string)
    requires "[" <= header
    ensures Count(Left(lines), Header(header)) <= Count(lines, Header(header))
    ensures Count(Left(lines), Header(header)) == Count(lines, Header(header)) <==> NoneDropped(NonBlank(lines), header)
  {
    CountNonBlank(lines, header);
    CountSurviving(NonBlank(lines), header);
    hide Count, NonBlank, Surviving, NoneDropped, MatchTableHeader;
  }

  // ----- reading a tidied section

  lemma TrimTailReads(line: string, key: string)
    ensures MatchTomlStringKey(TrimTail(line), key) == MatchTomlStringKey(line, key)
    ensures ReadKeyLine(TrimTail(line), key) == ReadKeyLine(line, key)
  {
    TrimTailSame(line);
    hide TrimSpace, TrimTail, ReadBasicString;
  }

  lemma ValueCons(line: string, rest: seq<string>, key: string)
    ensures ValueOf([line] + rest, key) == if MatchTomlStringKey(line, key) then ReadKeyLine(line, key) else ValueOf(rest, key)
  {
    hide MatchTomlStringKey, ReadKeyLine;
    assert ([line] + rest)[1..] == rest;
  }

  lemma {:induction false} ValueNonBlank(body: seq<string>, key: string)
    ensures ValueOf(NonBlank(body), key) == ValueOf(body, key)
  {
    if body != [] {
      ValueNonBlank(body[1..], key);
      BlankNoKey(body[0], key);
      hide MatchTomlStringKey, ReadKeyLine, IsBlank, ValueOf;
      ValueCons(body[0], body[1..], key);
      ValueCons(body[0], NonBlank(body[1..]), key);
      assert body == [body[0]] + body[1..];
      Nothing(NonBlank(body[1..]));
    }
  }

  lemma BlankNoKey(line: string, key: string)
    ensures IsBlank(line) ==> !MatchTomlStringKey(line, key)
  {
    hide TrimSpace;
  }

  lemma {:induction false} ValueCuts(body: seq<string>, key: string)
    ensures ValueOf(Cuts(body), key) == ValueOf(body, key)
  {
    if body != [] {
      ValueCuts(body[1..], key);
      TrimTailReads(body[0], key);
      hide MatchTomlStringKey, ReadKeyLine, TrimTail, ValueOf;
      ValueCons(body[0], body[1..], key);
      ValueCons(TrimTail(body[0]), Cuts(body[1..]), key);
      assert body == [body[0]] + body[1..];
    }
  }

  lemma FreeLeft(lines: seq<string>, header: string)
    requires "[" <= header && Free(lines, Header(header))
    ensures Free(Left(lines), Header(header))
  {
    CountLeft(lines, header);
    CountFree(lines, Header(header));
    CountFree(Left(lines), Header(header));
    hide Count, Left, NoneDropped, Free, MatchTableHeader;
  }

  /** A section with something in it, in a run of lines, as tidying leaves it. */
  lemma LeftOfSection(s: Section)
    requires Proper(s) && IsAnyTableHeader(s.header) && NonBlank(s.body) != []
    ensures var t := Section(Left(s.before), TrimTail(s.header), Cuts(NonBlank(s.body)), Left(s.after));
      Left(s.Lines()) == t.Lines() && Proper(t)
  {
    hide *;
    var body := [s.header] + s.body;
    ProperBody(s);
    ProperEnds(s);
    StartsIs(s.after);
    StartsIs(body + s.after);
    LeftSection(s.header, s.body);
    NonBlankPlain(s.body);
    CutsPlain(NonBlank(s.body));
    LeftStarts(s.after);
    StartsIs(Left(s.after));
    LeftConcat(s.before, body + s.after);
    LeftConcat(body, s.after);
    SplitLinesOf(s);
    assert s.before + [s.header] + (s.body + s.after) == s.before + (body + s.after);
    var t := Section(Left(s.before), TrimTail(s.header), Cuts(NonBlank(s.body)), Left(s.after));
    SplitLinesOf(t);
    IsProper(t);
  }

  lemma IsProper(t: Section)
    requires NoHeaders(t.body) && (t.after == [] || IsAnyTableHeader(t.after[0]))
    ensures Proper(t)
  {
  }

  /** Tidying a project keeps the value of every agent option whose section holds anything. */
  lemma OptionLeft(s: seq<string>, key: string)
    requires OptionsAt(s) >= 0 ==> OptionsAt(s) < |s| && NonBlank(Cut(s, OptionsAt(s)).body) != []
    ensures OptionValue(Left(s), key) == OptionValue(s, key)
  {
    hide *;
    var p := Header(AGENT_OPTIONS);
    OptionsIs(s);
    OptionsIs(Left(s));
    AgentOptionsBracket();
    if OptionsAt(s) < 0 {
      LastNone(s, p);
      FreeLeft(s, AGENT_OPTIONS);
      LastNone(Left(s), p);
      NoOption(s, key);
      NoOption(Left(s), key);
    } else {
      LastIs(s, p);
      CutIs(s, OptionsAt(s));
      var c := Cut(s, OptionsAt(s));
      HeaderIs(c.header, AGENT_OPTIONS);
      HeaderIsAny(c.header, AGENT_OPTIONS);
      LeftOfSection(c);
      AfterLast(s, OptionsAt(s), c, p);
      FreeLeft(c.after, AGENT_OPTIONS);
      OptionLeftHas(s, c, key);
    }
  }

  lemma AgentOptionsBracket()
    ensures "[" <= AGENT_OPTIONS
  {
  }

  lemma NoOption(s: seq<string>, key: string)
    requires OptionsAt(s) < 0
    ensures OptionValue(s, key) == None
  {
  }

  lemma OptionIs(s: seq<string>, key: string)
    requires 0 <= OptionsAt(s) < |s|
    ensures OptionValue(s, key) == ValueOf(Cut(s, OptionsAt(s)).body, key)
  {
    hide OptionsAt, Cut, ValueOf;
  }

  lemma OptionLeftHas(s: seq<string>, c: Section, key: string)
    requires 0 <= OptionsAt(s) < |s| && c == Cut(s, OptionsAt(s)) && c.Lines() == s && MatchTableHeader(c.header, AGENT_OPTIONS)
    requires Free(Left(c.after), Header(AGENT_OPTIONS)) && "[" <= AGENT_OPTIONS
    requires var t := Section(Left(c.before), TrimTail(c.header), Cuts(NonBlank(c.body)), Left(c.after));
      Left(s) == t.Lines() && Proper(t)
    ensures OptionValue(Left(s), key) == OptionValue(s, key)
  {
    hide *;
    var p := Header(AGENT_OPTIONS);
    var t := Section(Left(c.before), TrimTail(c.header), Cuts(NonBlank(c.body)), Left(c.after));
    TrimTailMatches(c.header, AGENT_OPTIONS);
    HeaderIs(TrimTail(c.header), AGENT_OPTIONS);
    ProperBody(t);
    NoHeadersFree(t.body, AGENT_OPTIONS);
    FreeConcat(t.body, t.after, p);
    LastOf(t.before, t.header, t.body + t.after, p);
    SplitLinesOf(t);
    OptionsIs(Left(s));
    CutUnique(t);
    OptionIs(s, key);
    OptionIs(Left(s), key);
    ValueCuts(NonBlank(c.body), key);
    ValueNonBlank(c.body, key);
  }

  lemma ProperBody(t: Section)
    requires Proper(t)
    ensures NoHeaders(t.body)
  {
  }

  // ----- projects of a tidied file

  lemma ProjectsBracket()
    ensures "[" <= PROJECTS
  {
  }

  lemma LeftIs(lines: seq<string>)
    ensures Left(lines) == Surviving(NonBlank(lines))
  {
  }

  lemma GroupHead(h: string, rest: seq<string>, p: string -> bool)
    ensures IsGroup([h] + rest, p) <==> p(h) && Free(rest, p)
  {
    IsGroupParts([h], rest, p);
    hide Free;
  }

  lemma LeftNothing()
    ensures Left([]) == []
  {
  }

  lemma CountsAdd(a: seq<string>, s: seq<string>, c: seq<string>, p: string -> bool)
    ensures Count(a + s + c, p) == Count(a, p) + Count(s, p) + Count(c, p)
  {
    CountConcat(a + s, c, p);
    CountConcat(a, s, p);
  }

  ghost predicate OptionsFilled(s: seq<string>) {
    OptionsAt(s) >= 0 ==> OptionsAt(s) < |s| && NonBlank(Cut(s, OptionsAt(s)).body) != []
  }

  /** In a tidy file no section is empty, so no agent options are. */
  lemma FormattedFilled(a: seq<string>, s: seq<string>, c: seq<string>)
    requires NoneSkipped(a + s + c) && (c == [] || IsAnyTableHeader(c[0]))
    ensures OptionsFilled(s)
  {
    hide *;
    OptionsFilledIs(s);
    OptionsIs(s);
    LastIs(s, Header(AGENT_OPTIONS));
    if OptionsAt(s) >= 0 {
      CutIs(s, OptionsAt(s));
      var k := Cut(s, OptionsAt(s));
      HeaderIs(k.header, AGENT_OPTIONS);
      AgentOptionsBracket();
      HeaderIsAny(k.header, AGENT_OPTIONS);
      SplitLinesOf(k);
      var rest := k.after + c;
      assert a + s + c == (a + k.before) + [k.header] + (k.body + rest);
      ProperEnds(k);
      HeadOfConcat(k.after, c);
      SectionFilled(a + k.before, k.header, k.body, rest);
    }
  }

  lemma OptionsFilledIs(s: seq<string>)
    ensures OptionsFilled(s) <==> (OptionsAt(s) >= 0 ==> OptionsAt(s) < |s| && NonBlank(Cut(s, OptionsAt(s)).body) != [])
  {
    hide OptionsAt, NonBlank, Cut;
  }

  lemma ProperEnds(k: Section)
    requires Proper(k)
    ensures k.after == [] || IsAnyTableHeader(k.after[0])
  {
  }

  lemma SectionFilled(x: seq<string>, h: string, body: seq<string>, rest: seq<string>)
    requires NoneSkipped(x + [h] + (body + rest)) && IsAnyTableHeader(h) && (rest == [] || IsAnyTableHeader(rest[0]))
    ensures NonBlank(body) != []
  {
    var lines := x + [h] + (body + rest);
    NothingAheadIs(body + rest);
    NonBlankConcat(body, rest);
    StartsIs(rest);
    NonBlankStarts(rest);
    assert lines[|x|] == h && lines[|x| + 1..] == body + rest;
    assert !Skipped(lines, |x|);
    hide NonBlank, IsAnyTableHeader, NothingAhead;
    Nothing(NonBlank(rest));
  }

  lemma GroupsFacts(s: seq<string>, c: seq<string>)
    requires IsGroup(s, Header(PROJECTS)) && (c == [] || Header(PROJECTS)(c[0]))
    ensures IsProject(s) && (c == [] || (MatchTableHeader(c[0], PROJECTS) && IsAnyTableHeader(c[0])))
  {
    if c != [] { HeaderIsAny(c[0], PROJECTS); }
    hide MatchTableHeader, IsAnyTableHeader;
  }

  /** Tidying a tidied file leaves the same lines. */
  lemma TidyLeft(lines: seq<string>)
    ensures Left(Formatted(lines)) == Left(lines)
    ensures NoneSkipped(Formatted(lines)) && NoneDropped(NonBlank(Formatted(lines)), PROJECTS)
  {
    hide *;
    var f := Formatted(lines);
    FormattedIsFormatted(lines);
    IsFormattedIs(f);
    FormattedSame(f);
    MeaningKept(lines);
    MeaningKept(f);
    LeftIs(lines);
    LeftIs(f);
    SurvivingNoneDangling(NonBlank(lines));
    NoneDanglingDropped(NonBlank(f), PROJECTS);
  }

  lemma NoneDanglingDropped(n: seq<string>, header: string)
    requires NoneDangling(n)
    ensures NoneDropped(n, header)
  {
    hide IsAnyTableHeader, MatchTableHeader;
  }
}
