/** What tidying a configuration file keeps, what it establishes, and that doing it again
    changes nothing (config/config.go, formatTOML). */
module TomlFormatProperties {
  import opened Text
  import opened TomlLines
  import opened TomlFormat

  // ----- the lines that matter

  function NonBlank(lines: seq<string>): seq<string> {
    if lines == [] then []
    else (if IsBlank(lines[0]) then [] else [lines[0]]) + NonBlank(lines[1..])
  }

  /** A header that no content follows. */
  predicate Dangling(n: seq<string>)
    requires n != []
  {
    IsAnyTableHeader(n[0]) && (|n| == 1 || IsAnyTableHeader(n[1]))
  }

  /** The non-blank lines, ends cut, without the headers whose next non-blank line is another
      header or the end. */
  function Surviving(n: seq<string>): seq<string> {
    if n == [] then []
    else (if Dangling(n) then [] else [TrimTail(n[0])]) + Surviving(n[1..])
  }

  lemma {:induction false} NonBlankConcat(a: seq<string>, b: seq<string>)
    ensures NonBlank(a + b) == NonBlank(a) + NonBlank(b)
  {
    hide IsBlank;
    if a == [] {
      assert a + b == b;
    } else {
      assert (a + b)[1..] == a[1..] + b;
      NonBlankConcat(a[1..], b);
    }
  }

  lemma NonBlankOne(line: string)
    ensures NonBlank([line]) == if IsBlank(line) then [] else [line]
  {
    hide IsBlank;
  }

  lemma NonBlankSnoc(a: seq<string>, line: string)
    ensures NonBlank(a + [line]) == NonBlank(a) + if IsBlank(line) then [] else [line]
  {
    NonBlankConcat(a, [line]);
    NonBlankOne(line);
  }

  /** Nothing ahead means that the next non-blank line is a header or missing. */
  lemma {:induction false} NothingAheadIs(rest: seq<string>)
    ensures NothingAhead(rest) <==> NonBlank(rest) == [] || IsAnyTableHeader(NonBlank(rest)[0])
  {
    if rest != [] {
      HeaderNotBlank(rest[0]);
      hide IsBlank, IsAnyTableHeader;
      NothingAheadIs(rest[1..]);
    }
  }

  /** What is kept of the lines from i on. */
  function KeptFrom(lines: seq<string>, i: nat): seq<string>
    requires i <= |lines|
    decreases |lines| - i
  {
    if i == |lines| then []
    else (if Skipped(lines, i) then [] else [TrimTail(lines[i])]) + KeptFrom(lines, i + 1)
  }

  lemma {:induction false} KeptSplits(lines: seq<string>, i: nat)
    requires i <= |lines|
    ensures Kept(lines, |lines|) == Kept(lines, i) + KeptFrom(lines, i)
    decreases |lines| - i
  {
    hide Skipped, TrimTail;
    if i < |lines| {
      KeptSplits(lines, i + 1);
    }
  }

  lemma {:induction false} KeptFromSurvives(lines: seq<string>, i: nat)
    requires i <= |lines|
    ensures NonBlank(KeptFrom(lines, i)) == Surviving(NonBlank(lines[i..]))
    decreases |lines| - i
  {
    hide *;
    if i < |lines| {
      KeptFromSurvives(lines, i + 1);
      NothingAheadIs(lines[i + 1..]);
      KeptFromIs(lines, i);
      assert lines[i..] == [lines[i]] + lines[i + 1..];
      KeptLine(lines[i], lines[i + 1..], KeptFrom(lines, i + 1), Skipped(lines, i));
    } else {
      assert lines[i..] == [];
      NothingKept(lines);
    }
  }

  lemma NothingKept(lines: seq<string>)
    ensures NonBlank(KeptFrom(lines, |lines|)) == Surviving(NonBlank([]))
  {
  }

  lemma KeptFromIs(lines: seq<string>, i: nat)
    requires i < |lines|
    ensures KeptFrom(lines, i) == (if Skipped(lines, i) then [] else [TrimTail(lines[i])]) + KeptFrom(lines, i + 1)
    ensures Skipped(lines, i) <==> IsAnyTableHeader(lines[i]) && NothingAhead(lines[i + 1..])
  {
    hide TrimTail, NothingAhead, IsAnyTableHeader;
  }

  lemma KeptLine(line: string, rest: seq<string>, kept: seq<string>, skipped: bool)
    requires NonBlank(kept) == Surviving(NonBlank(rest))
    requires skipped <==> IsAnyTableHeader(line) && (NonBlank(rest) == [] || IsAnyTableHeader(NonBlank(rest)[0]))
    ensures NonBlank((if skipped then [] else [TrimTail(line)]) + kept) == Surviving(NonBlank([line] + rest))
  {
    hide *;
    HeaderNotBlank(line);
    TrimTailKeeps(line);
    NonBlankOne(line);
    NonBlankConcat([line], rest);
    NonBlankOne(TrimTail(line));
    NonBlankConcat([TrimTail(line)], kept);
    SurvivingCons(line, NonBlank(rest));
    Nothing(kept);
    Nothing(NonBlank(rest));
    Nothing(Surviving(NonBlank(rest)));
  }

  lemma Nothing(lines: seq<string>)
    ensures [] + lines == lines
  {
  }

  lemma SurvivingCons(line: string, n: seq<string>)
    ensures Surviving([line] + n)
         == (if IsAnyTableHeader(line) && (n == [] || IsAnyTableHeader(n[0])) then [] else [TrimTail(line)]) + Surviving(n)
  {
    hide IsAnyTableHeader, TrimTail;
    assert ([line] + n)[1..] == n;
  }

  // ----- output lines

  lemma EmitNonBlank(out: seq<string>, line: string)
    ensures NonBlank(Emit(out, line)) == NonBlank(out) + if IsBlank(line) then [] else [line]
  {
    BlankIsBlank();
    hide IsBlank, IsAnyTableHeader;
    NonBlankSnoc(out, line);
    NonBlankSnoc(out, "");
    NonBlankSnoc(out + [""], line);
    assert out + ["", line] == out + [""] + [line];
  }

  lemma {:induction false} EmitAllNonBlank(lines: seq<string>)
    ensures NonBlank(EmitAll(lines)) == NonBlank(lines)
  {
    if lines != [] {
      var init := lines[..|lines| - 1];
      hide Emit, IsBlank;
      EmitAllNonBlank(init);
      EmitNonBlank(EmitAll(init), lines[|lines| - 1]);
      NonBlankSnoc(init, lines[|lines| - 1]);
      assert lines == init + [lines[|lines| - 1]];
    }
  }

  lemma {:induction false} CutFrontNonBlank(out: seq<string>)
    ensures NonBlank(CutFront(out)) == NonBlank(out)
  {
    hide IsBlank;
    if out != [] && IsBlank(out[0]) { CutFrontNonBlank(out[1..]); }
  }

  lemma {:induction false} CutBackNonBlank(out: seq<string>)
    ensures NonBlank(CutBack(out)) == NonBlank(out)
  {
    hide IsBlank;
    if out != [] && IsBlank(out[|out| - 1]) {
      CutBackNonBlank(out[..|out| - 1]);
      NonBlankSnoc(out[..|out| - 1], out[|out| - 1]);
      assert out == out[..|out| - 1] + [out[|out| - 1]];
    }
  }

  /** Tidying keeps exactly the non-blank lines of the input, in order and with their ends cut,
      except the headers of empty sections. */
  lemma MeaningKept(lines: seq<string>)
    ensures NonBlank(Formatted(lines)) == Surviving(NonBlank(lines))
  {
    hide *;
    FormattedIs(lines);
    KeptSplits(lines, 0);
    KeptNothing(lines);
    KeptFromSurvives(lines, 0);
    assert lines[0..] == lines;
    EmitAllNonBlank(Kept(lines, |lines|));
    CutFrontNonBlank(EmitAll(Kept(lines, |lines|)));
    CutBackNonBlank(CutFront(EmitAll(Kept(lines, |lines|))));
    assert [] + KeptFrom(lines, 0) == KeptFrom(lines, 0);
  }

  lemma FormattedIs(lines: seq<string>)
    ensures Formatted(lines) == CutBack(CutFront(EmitAll(Kept(lines, |lines|))))
  {
  }

  lemma KeptNothing(lines: seq<string>)
    ensures Kept(lines, 0) == []
  {
  }

  // ----- layout

  /** One line after another: no two blank lines, a blank line before a header. */
  ghost predicate Follows(before: string, line: string) {
    !(IsBlank(before) && IsBlank(line)) && (IsAnyTableHeader(line) ==> IsBlank(before))
  }

  ghost predicate EndsVisibly(line: string) {
    line != "" ==> line[|line| - 1] !in {' ', '\t'}
  }

  lemma VisibleEndStays(line: string)
    ensures EndsVisibly(line) <==> TrimTail(line) == line
  {
    var pad := TrimTailCuts(line);
    if line != "" && line[|line| - 1] in {' ', '\t'} {
      var init := line[..|line| - 1];
      var more := TrimTailCuts(init);
      assert |TrimTail(line)| == |TrimTail(init)| <= |init|;
    }
  }

  /** Nothing invisible at the end, and nothing at all if nothing is visible. */
  ghost predicate Clean(line: string) {
    EndsVisibly(line) && (IsBlank(line) ==> line == "")
  }

  ghost predicate Tidy(out: seq<string>) {
    && (forall i :: 0 <= i < |out| ==> Clean(out[i]))
    && (forall i :: 0 < i < |out| ==> Follows(out[i - 1], out[i]))
  }

  ghost predicate NoOuterBlank(out: seq<string>) {
    out != [] ==> !IsBlank(out[0]) && !IsBlank(out[|out| - 1])
  }

  lemma TidySnoc(out: seq<string>, line: string)
    requires Tidy(out) && Clean(line) && (out != [] ==> Follows(out[|out| - 1], line))
    ensures Tidy(out + [line])
  {
    hide Clean, Follows;
  }

  lemma TidySlice(out: seq<string>, lo: nat, hi: nat)
    requires Tidy(out) && lo <= hi <= |out|
    ensures Tidy(out[lo..hi])
  {
    hide Clean, Follows;
    var r := out[lo..hi];
    forall i | 0 < i < |r|
      ensures Follows(r[i - 1], r[i])
    {
      assert r[i - 1] == out[lo + i - 1] && r[i] == out[lo + i];
    }
  }

  lemma EmptyIsClean()
    ensures Clean("")
  {
  }

  lemma EmitTidy(out: seq<string>, line: string)
    requires Tidy(out) && (IsBlank(line) || Clean(line))
    ensures Tidy(Emit(out, line))
  {
    BlankIsBlank();
    EmptyIsClean();
    HeaderNotBlank(line);
    hide IsBlank, IsAnyTableHeader, Clean, Tidy;
    var afterBlank := out != [] && IsBlank(out[|out| - 1]);
    if IsBlank(line) {
      if !afterBlank { TidySnoc(out, ""); }
    } else if IsAnyTableHeader(line) && out != [] && !afterBlank {
      TidySnoc(out, "");
      TidySnoc(out + [""], line);
      assert out + ["", line] == out + [""] + [line];
    } else {
      TidySnoc(out, line);
    }
  }

  ghost predicate AllCut(lines: seq<string>) {
    forall i :: 0 <= i < |lines| ==> TrimTail(lines[i]) == lines[i]
  }

  lemma {:induction false} EmitAllTidy(lines: seq<string>)
    requires AllCut(lines)
    ensures Tidy(EmitAll(lines))
  {
    hide TrimTail, IsBlank, Emit;
    if lines != [] {
      EmitAllTidy(lines[..|lines| - 1]);
      VisibleEndStays(lines[|lines| - 1]);
      hide Tidy;
      EmitTidy(EmitAll(lines[..|lines| - 1]), lines[|lines| - 1]);
    }
  }

  lemma {:induction false} KeptCut(lines: seq<string>, n: nat)
    requires n <= |lines|
    ensures AllCut(Kept(lines, n))
  {
    if n > 0 {
      KeptCut(lines, n - 1);
      TrimTailSame(lines[n - 1]);
      hide TrimTail, Skipped;
    }
  }

  lemma {:induction false} CutFrontTidy(out: seq<string>)
    requires Tidy(out)
    ensures Tidy(CutFront(out)) && (CutFront(out) != [] ==> !IsBlank(CutFront(out)[0]))
  {
    hide IsBlank, Tidy;
    if out != [] && IsBlank(out[0]) {
      TidySlice(out, 1, |out|);
      assert out[1..|out|] == out[1..];
      CutFrontTidy(out[1..]);
    }
  }

  lemma {:induction false} CutBackTidy(out: seq<string>)
    requires Tidy(out) && (out != [] ==> !IsBlank(out[0]))
    ensures Tidy(CutBack(out)) && NoOuterBlank(CutBack(out))
  {
    hide IsBlank, Tidy;
    if out != [] && IsBlank(out[|out| - 1]) {
      var init := out[..|out| - 1];
      TidySlice(out, 0, |out| - 1);
      assert out[0..|out| - 1] == init;
      CutBackTidy(init);
    }
  }

  /** The layout: no adjacent blank lines, a blank line before every header but a first-line
      one, none at either end, and no spaces at the end of a line. */
  lemma LayoutEstablished(lines: seq<string>)
    ensures Tidy(Formatted(lines)) && NoOuterBlank(Formatted(lines))
  {
    hide *;
    FormattedIs(lines);
    KeptCut(lines, |lines|);
    EmitAllTidy(Kept(lines, |lines|));
    CutFrontTidy(EmitAll(Kept(lines, |lines|)));
    CutBackTidy(CutFront(EmitAll(Kept(lines, |lines|))));
  }

  // ----- tidying again

  ghost predicate NoneSkipped(lines: seq<string>) {
    forall i :: 0 <= i < |lines| ==> !Skipped(lines, i)
  }

  /** A file that tidying has nothing to do with. */
  ghost predicate IsFormatted(lines: seq<string>) {
    Tidy(lines) && NoOuterBlank(lines) && NoneSkipped(lines)
  }

  /** No header of an empty section is left among the non-blank lines. */
  ghost predicate NoneDangling(n: seq<string>) {
    forall i :: 0 <= i < |n| ==> !Dangling(n[i..])
  }

  /** The first line left is a header only if the first line was one. */
  lemma {:induction false} SurvivingHead(n: seq<string>)
    ensures n != [] && !IsAnyTableHeader(n[0]) ==> Surviving(n) != [] && !IsAnyTableHeader(Surviving(n)[0])
  {
    if n != [] { TrimTailKeeps(n[0]); }
    hide IsAnyTableHeader, TrimTail;
  }

  /** Dropping the headers of empty sections makes no other section empty. */
  lemma {:induction false} SurvivingNoneDangling(n: seq<string>)
    ensures NoneDangling(Surviving(n))
  {
    if n != [] {
      SurvivingNoneDangling(n[1..]);
      if !Dangling(n) {
        TrimTailKeeps(n[0]);
        if |n| > 1 { SurvivingHead(n[1..]); }
        var r, rest := Surviving(n), Surviving(n[1..]);
        hide IsAnyTableHeader, TrimTail, Surviving;
        assert r == [TrimTail(n[0])] + rest;
        forall i | 0 <= i < |r|
          ensures !Dangling(r[i..])
        {
          if i > 0 { assert r[i..] == rest[i - 1..]; }
        }
      } else {
        assert Surviving(n) == Surviving(n[1..]);
      }
    }
  }

  lemma {:induction false} SkippedDangles(lines: seq<string>, i: nat)
    requires i < |lines| && Skipped(lines, i)
    ensures !NoneDangling(NonBlank(lines))
  {
    HeaderNotBlank(lines[i]);
    NothingAheadIs(lines[i + 1..]);
    hide IsBlank, IsAnyTableHeader, NothingAhead;
    NonBlankConcat(lines[..i], lines[i..]);
    assert lines == lines[..i] + lines[i..] && lines[i..][1..] == lines[i + 1..];
    var n, k := NonBlank(lines), |NonBlank(lines[..i])|;
    var tail := NonBlank(lines[i..]);
    assert n[k..] == tail;
    assert Dangling(n[k..]);
  }

  lemma FormattedIsFormatted(lines: seq<string>)
    ensures IsFormatted(Formatted(lines))
  {
    LayoutEstablished(lines);
    MeaningKept(lines);
    SurvivingNoneDangling(NonBlank(lines));
    hide Tidy, NoOuterBlank, Formatted, Skipped, NoneDangling, Surviving, NonBlank;
    var out := Formatted(lines);
    forall i | 0 <= i < |out|
      ensures !Skipped(out, i)
    {
      if Skipped(out, i) { SkippedDangles(out, i); }
    }
  }

  lemma {:induction false} KeptAll(lines: seq<string>, n: nat)
    requires n <= |lines| && Tidy(lines) && NoneSkipped(lines)
    ensures Kept(lines, n) == lines[..n]
  {
    if n > 0 {
      KeptAll(lines, n - 1);
      assert Clean(lines[n - 1]) && lines[..n] == lines[..n - 1] + [lines[n - 1]];
      hide Skipped, IsBlank, TrimTail;
    }
  }

  lemma {:induction false} EmitAllSame(lines: seq<string>)
    requires Tidy(lines) && (lines != [] ==> !IsBlank(lines[0]))
    ensures EmitAll(lines) == lines
  {
    hide IsBlank, IsAnyTableHeader, TrimTail, Emit;
    if lines != [] {
      var init, line := lines[..|lines| - 1], lines[|lines| - 1];
      TidySlice(lines, 0, |lines| - 1);
      assert lines[0..|lines| - 1] == init && lines == init + [line];
      EmitAllSame(init);
      assert Clean(line) && (init != [] ==> Follows(init[|init| - 1], line));
      EmitSame(init, line);
    }
  }

  lemma EmitSame(init: seq<string>, line: string)
    requires Clean(line) && (if init == [] then !IsBlank(line) else Follows(init[|init| - 1], line))
    ensures Emit(init, line) == init + [line]
  {
    HeaderNotBlank(line);
    hide IsBlank, IsAnyTableHeader;
  }

  /** Tidy files stay as they are. */
  lemma FormattedSame(lines: seq<string>)
    requires IsFormatted(lines)
    ensures Formatted(lines) == lines
  {
    KeptAll(lines, |lines|);
    EmitAllSame(lines);
    assert lines[..|lines|] == lines;
    hide IsBlank, Tidy, Skipped, Kept, EmitAll;
  }

  /** Exactly the tidy files are left unchanged. */
  lemma FixedPoints(lines: seq<string>)
    ensures Formatted(lines) == lines <==> IsFormatted(lines)
  {
    FormattedIsFormatted(lines);
    hide IsFormatted, Formatted;
    if IsFormatted(lines) { FormattedSame(lines); }
  }

  // ----- as text

  lemma {:induction false} KeptSame(lines: seq<string>, tail: seq<string>, n: nat)
    requires n <= |lines| && NonBlank(tail) == []
    ensures Kept(lines + tail, n) == Kept(lines, n)
  {
    hide *;
    if n > 0 {
      KeptSame(lines, tail, n - 1);
      SkippedSame(lines, tail, n - 1);
      KeptStep(lines, n - 1);
      KeptStep(lines + tail, n - 1);
    } else {
      KeptNothing(lines);
      KeptNothing(lines + tail);
    }
  }

  /** Blank lines at the end empty no section. */
  lemma SkippedSame(lines: seq<string>, tail: seq<string>, i: nat)
    requires i < |lines| && NonBlank(tail) == []
    ensures Skipped(lines + tail, i) == Skipped(lines, i)
  {
    hide IsAnyTableHeader, NothingAhead, NonBlank;
    assert (lines + tail)[i + 1..] == lines[i + 1..] + tail;
    NonBlankConcat(lines[i + 1..], tail);
    NothingAheadIs(lines[i + 1..]);
    NothingAheadIs(lines[i + 1..] + tail);
    assert NonBlank(lines[i + 1..]) + [] == NonBlank(lines[i + 1..]);
  }

  lemma IsFormattedIs(lines: seq<string>)
    requires IsFormatted(lines)
    ensures Tidy(lines) && NoOuterBlank(lines) && NoneSkipped(lines) && (lines != [] ==> !IsBlank(lines[0]))
  {
    hide Tidy, NoneSkipped, IsBlank;
  }

  lemma KeptBlank(lines: seq<string>)
    ensures Kept(lines + [""], |lines + [""]|) == Kept(lines + [""], |lines|) + [""]
  {
    hide *;
    assert (lines + [""])[|lines|] == "";
    NotSkipped(lines + [""], |lines|);
    KeptStep(lines + [""], |lines|);
    TrimTailEmpty();
  }

  lemma NotSkipped(lines: seq<string>, i: nat)
    requires i < |lines| && lines[i] == ""
    ensures !Skipped(lines, i)
  {
    BlankIsBlank();
    hide NothingAhead;
  }

  lemma TrimTailEmpty()
    ensures TrimTail("") == ""
  {
  }

  lemma {:induction false} CutFrontTail(x: seq<string>)
    ensures CutBack(CutFront(x + [""])) == CutBack(CutFront(x))
  {
    BlankIsBlank();
    hide IsBlank;
    if x == [] {
      assert [] + [""] == [""];
    } else if IsBlank(x[0]) {
      assert (x + [""])[1..] == x[1..] + [""];
      CutFrontTail(x[1..]);
    } else {
      assert (x + [""])[..|x|] == x;
    }
  }

  /** A blank line more at the end of the input makes no difference. */
  lemma FormattedBlankTail(lines: seq<string>)
    ensures Formatted(lines + [""]) == Formatted(lines)
  {
    hide *;
    BlankIsBlank();
    NonBlankOne("");
    KeptSame(lines, [""], |lines|);
    KeptBlank(lines);
    EmitStep(Kept(lines, |lines|), "");
    FormattedIs(lines + [""]);
    FormattedIs(lines);
    CutFrontTail(EmitAll(Kept(lines, |lines|)));
    EmitEmpty(EmitAll(Kept(lines, |lines|)));
  }

  lemma EmitEmpty(out: seq<string>)
    ensures Emit(out, "") == out || Emit(out, "") == out + [""]
  {
    BlankIsBlank();
    hide IsBlank;
  }

  /** Lines that go in without line feeds come out without them. */
  lemma {:induction false} NonBlankFrom(lines: seq<string>, x: string)
    requires x in NonBlank(lines)
    ensures x in lines
  {
    hide IsBlank;
    if !(lines[0] == x) { NonBlankFrom(lines[1..], x); }
  }

  lemma {:induction false} TrimTailOneLine(line: string)
    requires OneLine(line)
    ensures OneLine(TrimTail(line))
  {
    if line != "" && line[|line| - 1] in {' ', '\t'} {
      assert forall c :: c in line[..|line| - 1] ==> c in line;
      TrimTailOneLine(line[..|line| - 1]);
    }
  }

  lemma {:induction false} SurvivingOneLine(n: seq<string>)
    requires AllOneLine(n)
    ensures AllOneLine(Surviving(n))
  {
    if n != [] {
      assert forall i :: 0 <= i < |n| - 1 ==> n[1..][i] == n[i + 1];
      SurvivingOneLine(n[1..]);
      TrimTailOneLine(n[0]);
      hide IsAnyTableHeader, TrimTail, OneLine;
    }
  }

  lemma {:induction false} NonBlankOneLine(lines: seq<string>)
    requires AllOneLine(lines)
    ensures AllOneLine(NonBlank(lines))
  {
    hide IsBlank, OneLine;
    forall i | 0 <= i < |NonBlank(lines)|
      ensures OneLine(NonBlank(lines)[i])
    {
      NonBlankFrom(lines, NonBlank(lines)[i]);
    }
  }

  lemma {:induction false} NonBlankHas(lines: seq<string>, i: nat)
    requires i < |lines| && !IsBlank(lines[i])
    ensures lines[i] in NonBlank(lines)
  {
    hide IsBlank;
    if i > 0 { NonBlankHas(lines[1..], i - 1); }
  }

  lemma FormattedOneLine(lines: seq<string>)
    requires AllOneLine(lines)
    ensures AllOneLine(Formatted(lines))
  {
    LayoutEstablished(lines);
    MeaningKept(lines);
    NonBlankOneLine(lines);
    SurvivingOneLine(NonBlank(lines));
    var out := Formatted(lines);
    hide IsBlank, Formatted, NonBlank, Surviving, TrimTail;
    forall i | 0 <= i < |out|
      ensures OneLine(out[i])
    {
      assert Clean(out[i]);
      if !IsBlank(out[i]) { NonBlankHas(out, i); }
    }
  }

  /** Tidying is idempotent on whole files. */
  lemma FormatTomlTwice(raw: string)
    ensures FormatToml(FormatToml(raw)) == FormatToml(raw)
  {
    hide *;
    var lines := SplitLines(raw);
    var out := Formatted(lines);
    FormatTomlIs(raw);
    FormatTomlIs(FormatToml(raw));
    SplitThenJoin(raw);
    FormattedOneLine(lines);
    FormattedIsFormatted(lines);
    SplitFormatted(out);
    FormattedTail(out);
  }

  lemma FormatTomlIs(raw: string)
    ensures FormatToml(raw) == Join(Formatted(SplitLines(raw))) + "\n"
  {
  }

  /** Splitting what was written gives the lines and the empty one behind the last feed. */
  lemma SplitFormatted(out: seq<string>)
    requires AllOneLine(out)
    ensures SplitLines(Join(out) + "\n") == if out == [] then ["", ""] else out + [""]
  {
    hide Formatted;
    if out == [] {
      assert SplitLines("") == [""];
      SplitCons("", "");
    } else {
      assert OneLine("");
      JoinSnoc(out, "");
      assert Join(out) + "\n" + "" == Join(out) + "\n";
      JoinThenSplit(out + [""]);
    }
  }

  lemma FormattedTail(out: seq<string>)
    requires IsFormatted(out)
    ensures Formatted(if out == [] then ["", ""] else out + [""]) == out
  {
    if out == [] {
      FormattedBlanks();
    } else {
      FormattedBlankTail(out);
      FormattedSame(out);
    }
  }

  lemma FormattedBlanks()
    ensures Formatted(["", ""]) == []
  {
    LayoutEstablished(["", ""]);
    MeaningKept(["", ""]);
    BlankIsBlank();
    hide IsBlank, Formatted, IsAnyTableHeader;
    assert NonBlank(["", ""]) == NonBlank([""]) == [];
    NonBlankNone(Formatted(["", ""]));
  }

  lemma {:induction false} NonBlankNone(out: seq<string>)
    requires NonBlank(out) == [] && NoOuterBlank(out)
    ensures out == []
  {
    hide IsBlank;
  }
}
