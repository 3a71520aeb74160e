/** The credential update over a whole file: each edit is made by line number and the index is
    rebuilt after it, with the same project and platform numbers (config/config.go,
    SaveFeishuPlatformCredentials). */
module TomlCredentialUpdate {
  import opened Text
  import opened TomlLines
  import opened Search
  import opened TomlSpans
  import opened TomlSections
  import opened TomlEdits
  import opened TomlPatch
  import opened TomlPlatform
  import opened TomlCredentials

  /** The lines around one platform: before its project, in the project before and after it,
      and after the project. */
  datatype Place = Place(a: seq<string>, b: seq<string>, d: seq<string>, c: seq<string>) {
    function With(q: seq<string>): seq<string> {
      a + (b + q + d) + c
    }

    /** The number of the platform's first line. */
    function Start(): nat {
      |a| + |b|
    }

    /** Does the file go on behind the platform? */
    predicate More() {
      d + c != []
    }
  }

  /** A platform put in this place is number j of project number p. */
  ghost predicate Located(w: Place, p: nat, j: nat) {
    && IsGroup(w.b, Header(PROJECTS)) && Free(w.d, Header(PROJECTS)) && (w.c == [] || MatchTableHeader(w.c[0], PROJECTS))
    && (w.d == [] || MatchTableHeader(w.d[0], PLATFORMS))
    && |Groups(w.a, Header(PROJECTS)).1| == p && |Groups(w.b, Header(PLATFORMS)).1| == j
  }

  // ----- finding the platform by its numbers

  lemma ProjectNoPlatform(line: string)
    requires MatchTableHeader(line, PROJECTS)
    ensures !MatchTableHeader(line, PLATFORMS)
  {
    assert PROJECTS[10] == ']' && PLATFORMS[10] == '.';
    HeadersDiffer(line, PROJECTS, PLATFORMS, 10);
  }

  /** The index counts the platforms of a project as cutting it at their headers does. */
  lemma PlatformCount(s: seq<string>, off: nat)
    requires IsProject(s)
    ensures |Hits(s[1..], Header(PLATFORMS), off)| == |Groups(s, Header(PLATFORMS)).1|
  {
    IsProjectIs(s);
    ProjectNoPlatform(s[0]);
    HitsCount(s[1..], Header(PLATFORMS), off);
    hide Hits, MatchTableHeader;
  }

  lemma ProjectIsGroup(w: Place, q: seq<string>, p: nat, j: nat)
    requires Located(w, p, j) && IsPlatform(q)
    ensures IsProject(w.b + q + w.d) && w.b != []
  {
    IsGroupParts(w.b + q, w.d, Header(PROJECTS));
    IsGroupParts(w.b, q, Header(PROJECTS));
    hide MatchTableHeader, Groups;
  }

  /** Wherever the lines of the platform end, its numbers stay those of the place. */
  lemma PlatformPlace(w: Place, q: seq<string>, p: nat, j: nat)
    requires Located(w, p, j) && IsPlatform(q)
    ensures var spans := ProjectSpans(w.With(q));
      && p < |spans| && j < |spans[p].platforms|
      && w.Start() + |q| <= |w.With(q)| && q != []
      && spans[p].platforms[j] == PlatformAt(w.With(q), w.Start(), w.Start() + |q|)
  {
    hide *;
    ProjectIsGroup(w, q, p, j);
    var s := w.b + q + w.d;
    var lines := w.a + s + w.c;
    PlatformHits(w, q, p, j);
    PlatformIsGroup(q);
    WithIs(w, q);
    LocatedEnds(w, p, j);
    TailOf(w.a, s, w.c);
    ProjectPlace(w.a, s, w.c, p);
    ProjectFields(lines, |w.a|, |w.a| + |s|);
    var h := Hits(s[1..], Header(PLATFORMS), |w.a| + 1);
    PlatformsEntry(lines, h, |w.a| + |s|, j);
  }

  lemma WithIs(w: Place, q: seq<string>)
    ensures w.With(q) == w.a + (w.b + q + w.d) + w.c && w.Start() == |w.a| + |w.b|
  {
  }

  lemma LocatedEnds(w: Place, p: nat, j: nat)
    requires Located(w, p, j)
    ensures (w.c == [] || MatchTableHeader(w.c[0], PROJECTS)) && (w.d == [] || MatchTableHeader(w.d[0], PLATFORMS))
    ensures |Groups(w.a, Header(PROJECTS)).1| == p && |Groups(w.b, Header(PLATFORMS)).1| == j
    ensures IsProject(w.b)
  {
  }

  lemma TailOf(a: seq<string>, s: seq<string>, c: seq<string>)
    requires s != []
    ensures (a + s + c)[|a| + 1..|a| + |s|] == s[1..]
  {
  }

  lemma PlatformHits(w: Place, q: seq<string>, p: nat, j: nat)
    requires Located(w, p, j) && IsPlatform(q) && w.b != []
    ensures var s := w.b + q + w.d; var h := Hits(s[1..], Header(PLATFORMS), |w.a| + 1);
      j < |h| && h[j] == |w.a| + |w.b| && NextOf(h, j, |w.a| + |s|) == |w.a| + |w.b| + |q|
  {
    hide *;
    LocatedEnds(w, p, j);
    PlatformCount(w.b, |w.a| + 1);
    if w.d != [] { HeaderIs(w.d[0], PLATFORMS); }
    PlatformGroupIs(q);
    HitsAround(w.b[1..], q, w.d, Header(PLATFORMS), |w.a| + 1);
    assert (w.b + q + w.d)[1..] == w.b[1..] + q + w.d;
  }

  lemma PlatformGroupIs(q: seq<string>)
    requires IsPlatform(q)
    ensures IsGroup(q, Header(PLATFORMS)) && Free(q, Header(PROJECTS))
  {
  }

  /** Numbers that the index knows name a platform of the file. */
  lemma Locate(lines: seq<string>, p: nat, j: nat) returns (w: Place, q: seq<string>)
    requires p < |ProjectSpans(lines)| && j < |ProjectSpans(lines)[p].platforms|
    ensures Located(w, p, j) && IsPlatform(q) && lines == w.With(q)
  {
    var a, s, c := ProjectAround(lines, p);
    PlatformCount(s, |a| + 1);
    SamePlatforms(lines, a, s, c);
    HitsCount(s, Header(PLATFORMS), 0);
    var b, g, d := GroupAt(s, Header(PLATFORMS), j);
    w, q := Place(a, b, d, c), g;
    IsProjectIs(s);
    ProjectNoPlatform(s[0]);
    hide *;
    LocatedIs(w, s, q, p, j);
  }

  lemma SamePlatforms(lines: seq<string>, a: seq<string>, s: seq<string>, c: seq<string>)
    requires lines == a + s + c && s != []
    ensures |ProjectAt(lines, |a|, |a| + |s|).platforms| == |Hits(s[1..], Header(PLATFORMS), |a| + 1)|
  {
    hide *;
    ProjectFields(lines, |a|, |a| + |s|);
    assert lines[|a| + 1..|a| + |s|] == s[1..];
    PlatformsCount(lines, Hits(s[1..], Header(PLATFORMS), |a| + 1), |a| + |s|);
  }

  lemma LocatedIs(w: Place, s: seq<string>, q: seq<string>, p: nat, j: nat)
    requires s == w.b + q + w.d && IsProject(s) && IsGroup(q, Header(PLATFORMS)) && !MatchTableHeader(s[0], PLATFORMS)
    requires (w.c == [] || MatchTableHeader(w.c[0], PROJECTS)) && (w.d == [] || MatchTableHeader(w.d[0], PLATFORMS))
    requires |Groups(w.a, Header(PROJECTS)).1| == p && |Groups(w.b, Header(PLATFORMS)).1| == j
    ensures Located(w, p, j) && IsPlatform(q)
  {
    hide MatchTableHeader, Groups;
    FirstLine(w.b, q, w.d);
    IsGroupParts(w.b, q + w.d, Header(PROJECTS));
    FreeConcat(q, w.d, Header(PROJECTS));
    assert s == w.b + (q + w.d);
  }

  lemma FirstLine(b: seq<string>, q: seq<string>, d: seq<string>)
    requires q != []
    ensures b == [] ==> (b + q + d)[0] == q[0]
  {
  }

  // ----- the line numbers of one platform

  lemma {:induction false} FirstPrefix(seg: seq<string>, n: nat, p: string -> bool)
    requires n <= |seg|
    ensures First(seg[..n], p) == if First(seg, p) < n then First(seg, p) else n
  {
    FirstIs(seg, p);
    FirstUnique(seg[..n], p, if First(seg, p) < n then First(seg, p) else n);
  }

  /** The span of platform `q` behind the lines `x`, by the platform's own lines. */
  ghost predicate SpanOf(q: seq<string>, off: nat, ps: PlatformSpan)
    requires q != []
  {
    var t, f := First(Main(q), ForKey(TYPE)), First(q, Header(PLATFORM_OPTIONS));
    && ps.start == off && ps.end == off + |q| - 1
    && ps.typeLine == (if t < |Main(q)| then off + 1 + t else -1)
    && (if f < |q| then ps.optionsStart == off + f && ps.optionsEnd == off + f + |Cut(q, f).body| else ps.optionsStart == -1)
  }

  lemma SpanOfIs(x: seq<string>, q: seq<string>, y: seq<string>)
    requires IsPlatform(q)
    ensures q != [] && SpanOf(q, |x|, PlatformAt(x + q + y, |x|, |x| + |q|))
  {
    hide *;
    PlatformIsGroup(q);
    PlatformHeaderOnly(q[0]);
    var lines := x + q + y;
    TypeLineIs(q);
    OptionsStartIs(q);
    PlatformFields(lines, |x|, |x| + |q|);
    TailOf(x, q, y);
    var o := First(q[1..], Header(PLATFORM_OPTIONS));
    if o < |q| - 1 {
      SectionEndIn(x, q, y, 1 + o);
    }
    SpanOfFields(q, |x|, PlatformAt(lines, |x|, |x| + |q|));
  }

  lemma SpanOfFields(q: seq<string>, off: nat, ps: PlatformSpan)
    requires q != [] && ps.start == off && ps.end == off + |q| - 1
    requires var t := First(Main(q), ForKey(TYPE)); ps.typeLine == if t < |Main(q)| then off + 1 + t else -1
    requires var f := First(q, Header(PLATFORM_OPTIONS));
      if f < |q| then ps.optionsStart == off + f && ps.optionsEnd == off + f + |Cut(q, f).body| else ps.optionsStart == -1
    ensures SpanOf(q, off, ps)
  {
  }

  lemma TypeLineIs(q: seq<string>)
    requires q != []
    ensures var t := First(q[1..], ForKey(TYPE));
      First(Main(q), ForKey(TYPE)) == (if t < First(q[1..], AnyHeader()) then t else |Main(q)|)
      && (t < First(q[1..], AnyHeader()) ==> t < |Main(q)|)
  {
    hide MatchTomlStringKey, IsAnyTableHeader, First;
    FirstPrefix(q[1..], First(q[1..], AnyHeader()), ForKey(TYPE));
  }

  lemma OptionsStartIs(q: seq<string>)
    requires q != [] && !MatchTableHeader(q[0], PLATFORM_OPTIONS)
    ensures First(q, Header(PLATFORM_OPTIONS)) == 1 + First(q[1..], Header(PLATFORM_OPTIONS))
  {
    hide MatchTableHeader;
  }

  lemma SectionEndIn(x: seq<string>, q: seq<string>, y: seq<string>, f: nat)
    requires f < |q|
    ensures SectionEnd(x + q + y, |x| + f, |x| + |q|) == |x| + f + |Cut(q, f).body|
  {
    hide First, AnyHeader;
    assert (x + q + y)[|x| + f + 1..|x| + |q|] == q[f + 1..];
  }

  // ----- the edits, by line number

  lemma Flat(w: Place, q: seq<string>)
    ensures w.With(q) == (w.a + w.b) + q + (w.d + w.c) && |w.a + w.b| == w.Start()
    ensures w.More() <==> w.d + w.c != []
  {
  }

  /** Rebuilds the index and looks the platform up by its numbers. */
  method ReloadSpan(lines: seq<string>, p: nat, j: nat, ghost w: Place, ghost q: seq<string>) returns (span: PlatformSpan)
    requires Located(w, p, j) && IsPlatform(q) && lines == w.With(q)
    ensures q != [] && SpanOf(q, w.Start(), span)
  {
    hide *;
    PlatformPlace(w, q, p, j);
    Flat(w, q);
    SpanOfIs(w.a + w.b, q, w.d + w.c);
    var spans := BuildRawProjectSpans(lines);
    span := spans[p].platforms[j];
  }

  /** An edit of line i of the middle part, or an insertion there. */
  lemma EditInside(x: seq<string>, q: seq<string>, y: seq<string>, i: nat, line: string)
    requires i < |q|
    ensures (x + q + y)[|x| + i] == q[i] && (x + q + y)[|x| + i := line] == x + q[i := line] + y
  {
  }

  lemma TypeEdits(q: seq<string>, value: string, wide: Printable)
    requires q != [] && value != ""
    ensures var t, r := First(Main(q), ForKey(TYPE)), WithType(q, value, wide);
      if t < |Main(q)| then 1 + t < |q| && r == q[1 + t := ReplacedLine(q[1 + t], TYPE, value, wide)]
      else r == InsertLines(q, 1, [KeyLine(TYPE, value, wide)])
  {
    hide *;
    MainSplit(q);
    WithTypeIsSet(q, value, wide);
    TypeSetIs(Main(q), value, wide);
    SetInParts(q[0], Main(q), Cut(q, 0).after, KeyLine(TYPE, value, wide));
    var t := First(Main(q), ForKey(TYPE));
    if t < |Main(q)| {
      UpdateInParts(q[0], Main(q), Cut(q, 0).after, t, ReplacedLine(Main(q)[t], TYPE, value, wide));
    }
  }

  lemma WithTypeIsSet(q: seq<string>, value: string, wide: Printable)
    requires q != [] && value != ""
    ensures WithType(q, value, wide) == [q[0]] + TypeSet(Main(q), value, wide) + Cut(q, 0).after
  {
    CutIs(q, 0);
    hide Cut, TypeSet;
    assert [] + [q[0]] == [q[0]];
  }

  lemma TypeSetIs(body: seq<string>, value: string, wide: Printable)
    ensures var i := First(body, ForKey(TYPE));
      TypeSet(body, value, wide) == if i < |body| then body[i := ReplacedLine(body[i], TYPE, value, wide)]
          else [KeyLine(TYPE, value, wide)] + body
  {
  }

  lemma SetInParts(h: string, body: seq<string>, after: seq<string>, line: string)
    ensures InsertLines([h] + body + after, 1, [line]) == [h] + ([line] + body) + after
  {
    assert ([h] + body + after)[..1] == [h] && ([h] + body + after)[1..] == body + after;
  }

  lemma UpdateInParts(h: string, body: seq<string>, after: seq<string>, t: nat, line: string)
    requires t < |body|
    ensures 1 + t < |[h] + body + after| && ([h] + body + after)[1 + t] == body[t]
    ensures ([h] + body + after)[1 + t := line] == [h] + body[t := line] + after
  {
  }

  method SetType(lines: seq<string>, span: PlatformSpan, value: string, wide: Printable, ghost w: Place, ghost q: seq<string>)
      returns (out: seq<string>)
    requires q != [] && SpanOf(q, w.Start(), span) && lines == w.With(q) && value != ""
    ensures out == w.With(WithType(q, value, wide))
  {
    hide *;
    SpanStarts(q, w.Start(), span);
    Flat(w, q);
    Flat(w, WithType(q, value, wide));
    TypeEdits(q, value, wide);
    if span.typeLine >= 0 {
      ghost var t := First(Main(q), ForKey(TYPE));
      var line := ReplaceTomlStringKeyLine(lines[span.typeLine], TYPE, value, wide);
      EditInside(w.a + w.b, q, w.d + w.c, 1 + t, line);
      out := lines[span.typeLine := line];
    } else {
      InsertedInside(w.a + w.b, q, w.d + w.c, 1, [KeyLine(TYPE, value, wide)]);
      out := InsertLines(lines, span.start + 1, [KeyLine(TYPE, value, wide)]);
    }
  }

  lemma SpanStarts(q: seq<string>, off: nat, span: PlatformSpan)
    requires q != [] && SpanOf(q, off, span)
    ensures var t, f := First(Main(q), ForKey(TYPE)), First(q, Header(PLATFORM_OPTIONS));
      && span.start == off && span.end == off + |q| - 1
      && (span.typeLine >= 0 <==> t < |Main(q)|) && (span.typeLine >= 0 ==> span.typeLine == off + 1 + t < off + |q|)
      && (span.optionsStart >= 0 <==> f < |q|)
      && (span.optionsStart >= 0 ==> span.optionsStart == off + f && span.optionsEnd == off + f + |Cut(q, f).body|)
      && (f < |q| <==> OptionsBody(q).Some?)
  {
    CutIs(q, 0);
    SplitLinesOf(Cut(q, 0));
    hide First, Header, AnyHeader, ForKey;
  }

  /** The line behind a platform is a header, so never blank. */
  lemma NextIsHeader(w: Place, p: nat, j: nat)
    requires Located(w, p, j) && w.More()
    ensures TrimSpace((w.d + w.c)[0]) != ""
  {
    hide TrimSpace;
    assert (w.d + w.c)[0] == if w.d != [] then w.d[0] else w.c[0];
  }

  lemma BehindPlatform(w: Place, q: seq<string>)
    requires q != []
    ensures var lines, n := w.With(q), w.Start() + |q|;
      && 0 < n <= |lines| && lines[n - 1] == q[|q| - 1]
      && (n < |lines| <==> w.More()) && (n < |lines| ==> lines[n] == (w.d + w.c)[0])
  {
  }

  method MakeOptions(lines: seq<string>, span: PlatformSpan, p: nat, j: nat, ghost w: Place, ghost q: seq<string>)
      returns (out: seq<string>)
    requires Located(w, p, j) && lines == w.With(q) && q != [] && SpanOf(q, w.Start(), span) && span.optionsStart < 0
    ensures out == w.With(WithOptionsTable(q, w.More()))
  {
    hide *;
    SpanStarts(q, w.Start(), span);
    BehindPlatform(w, q);
    if w.More() { NextIsHeader(w, p, j); }
    var insertAt := span.end + 1;
    var block := [];
    if insertAt > 0 && TrimSpace(lines[insertAt - 1]) != "" {
      block := block + [""];
    }
    block := block + [PLATFORM_OPTIONS];
    if insertAt < |lines| && TrimSpace(lines[insertAt]) != "" {
      block := block + [""];
    }
    TableIs(q, w.More(), block);
    Flat(w, q);
    Flat(w, WithOptionsTable(q, w.More()));
    InsertedInside(w.a + w.b, q, w.d + w.c, |q|, block);
    InsertedLast(q, block);
    out := InsertLines(lines, insertAt, block);
  }

  lemma InsertedLast(q: seq<string>, block: seq<string>)
    ensures InsertLines(q, |q|, block) == q + block
  {
  }

  lemma TableIs(q: seq<string>, more: bool, block: seq<string>)
    requires q != [] && OptionsBody(q) == None
    requires block == [] + (if TrimSpace(q[|q| - 1]) != "" then [""] else []) + [PLATFORM_OPTIONS] + (if more then [""] else [])
    ensures WithOptionsTable(q, more) == q + block
  {
    hide First, Cut, TrimSpace, Header, PLATFORM_OPTIONS;
  }

  method SetOption(lines: seq<string>, span: PlatformSpan, key: string, value: string, wide: Printable,
      ghost w: Place, ghost q: seq<string>)
      returns (out: seq<string>)
    requires q != [] && SpanOf(q, w.Start(), span) && lines == w.With(q) && OptionsBody(q).Some?
    ensures out == w.With(WithOption(q, key, value, wide))
  {
    hide *;
    SpanStarts(q, w.Start(), span);
    Flat(w, q);
    Flat(w, WithOption(q, key, value, wide));
    WithOptionSets(q, key, value, wide);
    SetInside(w.a + w.b, q, w.d + w.c, First(q, Header(PLATFORM_OPTIONS)), key, value, wide);
    out := UpsertTomlStringKey(lines, span.optionsStart + 1, span.optionsEnd, key, value, wide);
  }

  lemma WithOptionSets(q: seq<string>, key: string, value: string, wide: Printable)
    requires OptionsBody(q).Some?
    ensures var f := First(q, Header(PLATFORM_OPTIONS));
      f < |q| && WithOption(q, key, value, wide) == SetIn(q, f, key, value, wide)
  {
    hide First, Cut, SetIn, Header;
  }

  // ----- the update

  /** The span of a located platform bounds exactly its lines. */
  lemma PlatformSlice(w: Place, q: seq<string>, p: nat, j: nat)
    requires Located(w, p, j) && IsPlatform(q)
    ensures var lines, spans := w.With(q), ProjectSpans(w.With(q));
      && p < |spans| && j < |spans[p].platforms|
      && var ps := spans[p].platforms[j];
      && 0 <= ps.start <= ps.end < |lines| && lines[ps.start..ps.end + 1] == q
      && lines[..ps.start] == w.a + w.b && lines[ps.end + 1..] == w.d + w.c
      && (ps.end + 1 < |lines| <==> w.More())
  {
    hide *;
    PlatformPlace(w, q, p, j);
    Flat(w, q);
    SpanOfIs(w.a + w.b, q, w.d + w.c);
    SpanStarts(q, w.Start(), ProjectSpans(w.With(q))[p].platforms[j]);
    SliceOf(w.a + w.b, q, w.d + w.c);
  }

  lemma SliceOf(x: seq<string>, q: seq<string>, y: seq<string>)
    ensures var lines := x + q + y;
      lines[..|x|] == x && lines[|x|..|x| + |q|] == q && lines[|x| + |q|..] == y && (|x| + |q| < |lines| <==> y != [])
  {
  }

  /** The text holds project p and in it platform j. */
  ghost predicate HasPlatform(lines: seq<string>, p: nat, j: nat) {
    var projects := Groups(lines, Header(PROJECTS)).1;
    p < |projects| && j < |Groups(projects[p], Header(PLATFORMS)).1|
  }

  /** The file after the update is the file before it with the lines of that one platform
      replaced. */
  ghost predicate IsUpdate(lines: seq<string>, p: nat, j: nat, cred: Credentials, wide: Printable, out: seq<string>) {
    exists w: Place, q :: Located(w, p, j) && IsPlatform(q) && lines == w.With(q)
        && out == w.With(Updated(q, w.More(), cred, wide))
  }

  /** The index finds exactly the platforms of the text. */
  lemma IndexComplete(lines: seq<string>, p: nat, j: nat)
    ensures HasPlatform(lines, p, j) <==> p < |ProjectSpans(lines)| && j < |ProjectSpans(lines)[p].platforms|
  {
    hide *;
    SpansCount(lines);
    StartsAre(lines);
    HitsCount(lines, Header(PROJECTS), 0);
    HasPlatformIs(lines, p, j);
    if p < |ProjectSpans(lines)| {
      var a, s, c := ProjectAround(lines, p);
      IsProjectIs(s);
      if c != [] { HeaderIs(c[0], PROJECTS); }
      GroupInside(a, s, c, Header(PROJECTS));
      PlatformCount(s, |a| + 1);
      SamePlatforms(lines, a, s, c);
    }
  }

  lemma HasPlatformIs(lines: seq<string>, p: nat, j: nat)
    ensures HasPlatform(lines, p, j) <==>
      p < |Groups(lines, Header(PROJECTS)).1| && j < |Groups(Groups(lines, Header(PROJECTS)).1[p], Header(PLATFORMS)).1|
  {
    hide Groups, Header;
  }

  method SaveCredentials(lines: seq<string>, projectIdx: nat, absIdx: nat, cred: Credentials, wide: Printable)
      returns (r: Option<seq<string>>)
    ensures r.Some? <==> HasPlatform(lines, projectIdx, absIdx)
    ensures r.Some? ==> IsUpdate(lines, projectIdx, absIdx, cred, wide, r.value)
  {
    hide *;
    IndexComplete(lines, projectIdx, absIdx);
    var spans := BuildRawProjectSpans(lines);
    if projectIdx >= |spans| || absIdx >= |spans[projectIdx].platforms| {
      return None;
    }
    ghost var w, q := Locate(lines, projectIdx, absIdx);
    var span := ReloadSpan(lines, projectIdx, absIdx, w, q);
    var out := lines;
    ghost var q0 := q;
    if cred.platformType != "" {
      WithTypeIs(q, cred.platformType, wide);
      out := SetType(out, span, cred.platformType, wide, w, q);
      q0 := WithType(q, cred.platformType, wide);
      span := ReloadSpan(out, projectIdx, absIdx, w, q0);
    }
    PreparedSteps(q, q0, w.More(), cred.platformType, wide);
    SpanStarts(q0, w.Start(), span);
    if span.optionsStart < 0 {
      out := MakeOptions(out, span, projectIdx, absIdx, w, q0);
      q0 := WithOptionsTable(q0, w.More());
      span := ReloadSpan(out, projectIdx, absIdx, w, q0);
    }
    out := WriteKeys(out, span, projectIdx, absIdx, cred, wide, w, q0);
    UpdatedIsWritten(q, w.More(), cred, wide);
    UpdateIs(w, q, projectIdx, absIdx, cred, wide);
    return Some(out);
  }

  lemma UpdateIs(w: Place, q: seq<string>, p: nat, j: nat, cred: Credentials, wide: Printable)
    requires Located(w, p, j) && IsPlatform(q)
    ensures IsUpdate(w.With(q), p, j, cred, wide, w.With(Updated(q, w.More(), cred, wide)))
  {
    hide Located, IsPlatform, Updated;
  }

  lemma PreparedSteps(q: seq<string>, q0: seq<string>, more: bool, value: string, wide: Printable)
    requires IsPlatform(q) && q != [] && q0 == if value != "" then WithType(q, value, wide) else q
    ensures IsPlatform(q0) && q0 != [] && Prepared(q, more, value, wide) == WithOptionsTable(q0, more)
    ensures OptionsBody(q0).Some? ==> WithOptionsTable(q0, more) == q0
    ensures IsPlatform(WithOptionsTable(q0, more)) && OptionsBody(WithOptionsTable(q0, more)).Some?
  {
    hide IsPlatform, OptionsBody, WithOptionsTable, WithType;
    if value != "" { WithTypeIs(q, value, wide); }
    WithOptionsTableIs(q0, more);
  }

  ghost function KeysWritten(q0: seq<string>, cred: Credentials, wide: Printable): seq<string> {
    var q2 := WithOption(WithOption(q0, APP_ID, cred.appId, wide), APP_SECRET, cred.appSecret, wide);
    match cred.allowFrom case None => q2 case Some(users) => WithOption(q2, ALLOW_FROM, users, wide)
  }

  lemma UpdatedIsWritten(q: seq<string>, more: bool, cred: Credentials, wide: Printable)
    requires IsPlatform(q)
    ensures Updated(q, more, cred, wide) == KeysWritten(Prepared(q, more, cred.platformType, wide), cred, wide)
  {
    hide Prepared, WithOption, IsPlatform;
  }

  lemma KeysWrittenIs(q0: seq<string>, cred: Credentials, wide: Printable)
    ensures var q2 := WithOption(WithOption(q0, APP_ID, cred.appId, wide), APP_SECRET, cred.appSecret, wide);
      KeysWritten(q0, cred, wide) == if cred.allowFrom.Some? then WithOption(q2, ALLOW_FROM, cred.allowFrom.value, wide) else q2
  {
    hide WithOption;
  }

  /** Writes the keys one after the other, re-indexing in between. */
  method WriteKeys(lines: seq<string>, span0: PlatformSpan, p: nat, j: nat, cred: Credentials, wide: Printable,
                   ghost w: Place, ghost q0: seq<string>) returns (out: seq<string>)
    requires Located(w, p, j) && lines == w.With(q0) && q0 != [] && SpanOf(q0, w.Start(), span0)
    requires IsPlatform(q0) && OptionsBody(q0).Some?
    ensures out == w.With(KeysWritten(q0, cred, wide))
  {
    hide *;
    KeysAreBare();
    KeysWrittenIs(q0, cred, wide);
    out := SetOption(lines, span0, APP_ID, cred.appId, wide, w, q0);
    WithOptionIs(q0, APP_ID, cred.appId, wide);
    ghost var q1 := WithOption(q0, APP_ID, cred.appId, wide);
    var span := ReloadSpan(out, p, j, w, q1);
    out := SetOption(out, span, APP_SECRET, cred.appSecret, wide, w, q1);
    WithOptionIs(q1, APP_SECRET, cred.appSecret, wide);
    ghost var q2 := WithOption(q1, APP_SECRET, cred.appSecret, wide);
    span := ReloadSpan(out, p, j, w, q2);
    if cred.allowFrom.Some? {
      out := SetOption(out, span, ALLOW_FROM, cred.allowFrom.value, wide, w, q2);
    }
  }

  // ----- what the update does to the file

  lemma GroupsOfPlace(w: Place, q: seq<string>, p: nat, j: nat)
    requires Located(w, p, j) && IsPlatform(q)
    ensures var s := w.b + q + w.d;
      && Groups(w.With(q), Header(PROJECTS)).1 == Groups(w.a, Header(PROJECTS)).1 + [s] + Groups(w.c, Header(PROJECTS)).1
      && Groups(w.With(q), Header(PROJECTS)).0 == Groups(w.a, Header(PROJECTS)).0
      && Groups(s, Header(PLATFORMS)).1 == Groups(w.b, Header(PLATFORMS)).1 + [q] + Groups(w.d, Header(PLATFORMS)).1
      && Groups(s, Header(PLATFORMS)).0 == Groups(w.b, Header(PLATFORMS)).0
  {
    hide *;
    LocatedEnds(w, p, j);
    ProjectIsGroup(w, q, p, j);
    var s := w.b + q + w.d;
    IsProjectIs(s);
    PlatformGroupIs(q);
    WithIs(w, q);
    if w.c != [] { HeaderIs(w.c[0], PROJECTS); }
    if w.d != [] { HeaderIs(w.d[0], PLATFORMS); }
    GroupsOfThree(w.a, s, w.c, Header(PROJECTS));
    GroupsOfThree(w.b, q, w.d, Header(PLATFORMS));
  }

  lemma GroupsOfThree(a: seq<string>, g: seq<string>, c: seq<string>, p: string -> bool)
    requires IsGroup(g, p) && (c == [] || p(c[0]))
    ensures Groups(a + g + c, p).1 == Groups(a, p).1 + [g] + Groups(c, p).1 && Groups(a + g + c, p).0 == Groups(a, p).0
  {
    GroupsAround(a, g, c, p);
    GroupsAppend(a, g + c, p);
    hide Groups;
    assert a + g + c == a + (g + c);
  }

  /** Index stability: how many projects the file has, and how many platforms the project,
      depends only on the place. So after every single edit of the update the numbers are
      still in range and name the edited platform. */
  lemma NumbersKept(w: Place, q: seq<string>, p: nat, j: nat)
    requires Located(w, p, j) && IsPlatform(q)
    ensures var spans := ProjectSpans(w.With(q));
      && |spans| == |Groups(w.a, Header(PROJECTS)).1| + 1 + |Groups(w.c, Header(PROJECTS)).1| > p
      && |spans[p].platforms| == |Groups(w.b, Header(PLATFORMS)).1| + 1 + |Groups(w.d, Header(PLATFORMS)).1| > j
      && var ps := spans[p].platforms[j];
      0 <= ps.start <= ps.end < |w.With(q)| && w.With(q)[ps.start..ps.end + 1] == q
  {
    hide *;
    LocatedEnds(w, p, j);
    PlatformPlace(w, q, p, j);
    GroupsOfPlace(w, q, p, j);
    SpanCounts(w, q, p, j);
    PlatformSlice(w, q, p, j);
  }

  lemma SpanCounts(w: Place, q: seq<string>, p: nat, j: nat)
    requires Located(w, p, j) && IsPlatform(q) && p < |ProjectSpans(w.With(q))|
    ensures |ProjectSpans(w.With(q))| == |Groups(w.With(q), Header(PROJECTS)).1|
    ensures |ProjectSpans(w.With(q))[p].platforms| == |Groups(w.b + q + w.d, Header(PLATFORMS)).1|
  {
    hide *;
    var lines, s := w.With(q), w.b + q + w.d;
    SpansCount(lines);
    StartsAre(lines);
    HitsCount(lines, Header(PROJECTS), 0);
    ProjectIsGroup(w, q, p, j);
    IsProjectIs(s);
    LocatedEnds(w, p, j);
    WithIs(w, q);
    ProjectPlace(w.a, s, w.c, p);
    SamePlatforms(lines, w.a, s, w.c);
    PlatformCount(s, |w.a| + 1);
  }

  /** The frame: one platform's lines become its updated lines; every other platform of the
      project and every other project keeps its lines and its number. */
  lemma OnlyThatPlatform(lines: seq<string>, p: nat, j: nat, cred: Credentials, wide: Printable, out: seq<string>)
      returns (s: seq<string>, q: seq<string>, s': seq<string>, q': seq<string>)
    requires IsUpdate(lines, p, j, cred, wide, out)
    ensures p < |Groups(lines, Header(PROJECTS)).1| && s == Groups(lines, Header(PROJECTS)).1[p]
    ensures j < |Groups(s, Header(PLATFORMS)).1| && q == Groups(s, Header(PLATFORMS)).1[j]
    ensures IsPlatform(q) && exists more :: q' == Updated(q, more, cred, wide)
    ensures Groups(s', Header(PLATFORMS)) == (Groups(s, Header(PLATFORMS)).0, Groups(s, Header(PLATFORMS)).1[j := q'])
    ensures Groups(out, Header(PROJECTS))
         == (Groups(lines, Header(PROJECTS)).0, Groups(lines, Header(PROJECTS)).1[p := s'])
  {
    hide *;
    var w, q0 := TheUpdate(lines, p, j, cred, wide, out);
    q := q0;
    q' := Updated(q, w.More(), cred, wide);
    s, s' := w.b + q + w.d, w.b + q' + w.d;
    CredentialsRead(q, w.More(), cred, wide);
    LocatedEnds(w, p, j);
    GroupsOfPlace(w, q, p, j);
    GroupsOfPlace(w, q', p, j);
    MiddleReplaced(Groups(w.a, Header(PROJECTS)).1, s, s', Groups(w.c, Header(PROJECTS)).1);
    MiddleReplaced(Groups(w.b, Header(PLATFORMS)).1, q, q', Groups(w.d, Header(PLATFORMS)).1);
    PairIs(Groups(w.With(q'), Header(PROJECTS)));
    PairIs(Groups(s', Header(PLATFORMS)));
  }

  lemma TheUpdate(lines: seq<string>, p: nat, j: nat, cred: Credentials, wide: Printable, out: seq<string>)
      returns (w: Place, q: seq<string>)
    requires IsUpdate(lines, p, j, cred, wide, out)
    ensures Located(w, p, j) && IsPlatform(q) && lines == w.With(q) && out == w.With(Updated(q, w.More(), cred, wide))
  {
    hide Located, IsPlatform, Updated;
    w, q :| Located(w, p, j) && IsPlatform(q) && lines == w.With(q) && out == w.With(Updated(q, w.More(), cred, wide));
  }

  lemma PairIs(g: (seq<string>, seq<seq<string>>))
    ensures g == (g.0, g.1)
  {
  }

  lemma MiddleReplaced(x: seq<seq<string>>, g: seq<string>, g': seq<string>, y: seq<seq<string>>)
    ensures (x + [g] + y)[|x|] == g && (x + [g] + y)[|x| := g'] == x + [g'] + y
  {
  }
}
