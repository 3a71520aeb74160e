/** The line index of a configuration file: where each project, its agent tables and its
    platforms begin and end (config/config.go, buildRawProjectSpans). Line numbers are those
    of the source: ends are inclusive and -1 stands for "absent". */
module TomlSpans {
  import opened Text
  import opened TomlLines
  import opened Search

  const PROJECTS := "[[projects]]"
  const AGENT := "[projects.agent]"
  const AGENT_OPTIONS := "[projects.agent.options]"
  const PROVIDERS := "[[projects.agent.providers]]"
  const PLATFORMS := "[[projects.platforms]]"
  const TYPE := "type"
  const PLATFORM_OPTIONS := "[projects.platforms.options]"

  datatype ProviderSpan = ProviderSpan(start: int, end: int, nameLine: int)

  datatype PlatformSpan = PlatformSpan(start: int, end: int, typeLine: int, optionsStart: int, optionsEnd: int)

  datatype ProjectSpan = ProjectSpan(
    start: int, end: int, platforms: seq<PlatformSpan>,
    agentStart: int, agentEnd: int, agentOptionsStart: int, agentOptionsEnd: int, agentProviders: seq<ProviderSpan>)

  // ----- the tests lines are searched for

  function Header(header: string): string -> bool {
    (line: string) => MatchTableHeader(line, header)
  }

  function AnyHeader(): string -> bool {
    (line: string) => IsAnyTableHeader(line)
  }

  function ForKey(key: string): string -> bool {
    (line: string) => MatchTomlStringKey(line, key)
  }

  // ----- the spans

  /** Where the section opened at line `at` ends, searching up to `hi`. */
  function SectionEnd(lines: seq<string>, at: nat, hi: nat): nat
    requires at < hi <= |lines|
  {
    at + First(lines[at + 1..hi], AnyHeader())
  }

  function ProviderAt(lines: seq<string>, at: nat, hi: nat): ProviderSpan
    requires at < hi <= |lines|
  {
    var body := lines[at + 1..hi];
    var n := First(body, AnyHeader());
    var k := First(body, ForKey("name"));
    ProviderSpan(at, at + n, if k < n then at + 1 + k else -1)
  }

  function PlatformAt(lines: seq<string>, at: nat, hi: nat): PlatformSpan
    requires at < hi <= |lines|
  {
    var body := lines[at + 1..hi];
    var t := First(body, ForKey(TYPE));
    var o := First(body, Header(PLATFORM_OPTIONS));
    PlatformSpan(at, hi - 1, if t < First(body, AnyHeader()) then at + 1 + t else -1,
                 if o < |body| then at + 1 + o else -1,
                 if o < |body| then SectionEnd(lines, at + 1 + o, hi) else -1)
  }

  function PlatformsOf(lines: seq<string>, starts: seq<nat>, hi: nat): seq<PlatformSpan>
    requires hi <= |lines|
  {
    seq(|starts|, i requires 0 <= i < |starts| =>
      if starts[i] < NextOf(starts, i, hi) <= |lines| then PlatformAt(lines, starts[i], NextOf(starts, i, hi))
      else PlatformSpan(-1, -1, -1, -1, -1))
  }

  function ProvidersOf(lines: seq<string>, starts: seq<nat>, hi: nat): seq<ProviderSpan>
    requires hi <= |lines|
  {
    seq(|starts|, i requires 0 <= i < |starts| =>
      if starts[i] < hi then ProviderAt(lines, starts[i], hi) else ProviderSpan(-1, -1, -1))
  }

  function ProjectAt(lines: seq<string>, at: nat, hi: nat): ProjectSpan
    requires at < hi <= |lines|
  {
    var body := lines[at + 1..hi];
    var a := Last(body, Header(AGENT));
    var o := Last(body, Header(AGENT_OPTIONS));
    ProjectSpan(at, hi - 1, PlatformsOf(lines, Hits(body, Header(PLATFORMS), at + 1), hi),
                if a >= 0 then at + 1 + a else -1,
                if a >= 0 then SectionEnd(lines, at + 1 + a, hi) else -1,
                if o >= 0 then at + 1 + o else -1,
                if o >= 0 then SectionEnd(lines, at + 1 + o, hi) else -1,
                ProvidersOf(lines, Hits(body, Header(PROVIDERS), at + 1), hi))
  }

  function ProjectStarts(lines: seq<string>): seq<nat> {
    Hits(lines, Header(PROJECTS), 0)
  }

  function ProjectSpans(lines: seq<string>): seq<ProjectSpan> {
    var starts := ProjectStarts(lines);
    seq(|starts|, i requires 0 <= i < |starts| =>
      if starts[i] < NextOf(starts, i, |lines|) <= |lines| then ProjectAt(lines, starts[i], NextOf(starts, i, |lines|))
      else ProjectSpan(-1, -1, [], -1, -1, -1, -1, []))
  }

  lemma PlatformFields(lines: seq<string>, at: nat, hi: nat)
    requires at < hi <= |lines|
    ensures var ps, body := PlatformAt(lines, at, hi), lines[at + 1..hi];
      var t, o := First(body, ForKey(TYPE)), First(body, Header(PLATFORM_OPTIONS));
      && ps.start == at && ps.end == hi - 1
      && ps.typeLine == (if t < First(body, AnyHeader()) then at + 1 + t else -1)
      && ps.optionsStart == (if o < |body| then at + 1 + o else -1)
      && ps.optionsEnd == (if o < |body| then SectionEnd(lines, at + 1 + o, hi) else -1)
  {
    hide SectionEnd, First, Header, AnyHeader, ForKey;
  }

  lemma ProjectFields(lines: seq<string>, at: nat, hi: nat)
    requires at < hi <= |lines|
    ensures var sp, body := ProjectAt(lines, at, hi), lines[at + 1..hi];
      var a, o := Last(body, Header(AGENT)), Last(body, Header(AGENT_OPTIONS));
      && sp.start == at && sp.end == hi - 1
      && sp.platforms == PlatformsOf(lines, Hits(body, Header(PLATFORMS), at + 1), hi)
      && sp.agentProviders == ProvidersOf(lines, Hits(body, Header(PROVIDERS), at + 1), hi)
      && sp.agentStart == (if a >= 0 then at + 1 + a else -1)
      && sp.agentEnd == (if a >= 0 then SectionEnd(lines, at + 1 + a, hi) else -1)
      && sp.agentOptionsStart == (if o >= 0 then at + 1 + o else -1)
      && sp.agentOptionsEnd == (if o >= 0 then SectionEnd(lines, at + 1 + o, hi) else -1)
  {
    hide SectionEnd, PlatformsOf, ProvidersOf, Hits, Last, Header;
  }

  // ----- the scanner

  /** Collects the line numbers in [lo, hi) with this header. */
  method FindHeaders(lines: seq<string>, lo: nat, hi: nat, header: string) returns (starts: seq<nat>)
    requires lo <= hi <= |lines|
    ensures starts == Hits(lines[lo..hi], Header(header), lo)
  {
    hide MatchTableHeader;
    starts := [];
    var ln := lo;
    while ln < hi
      invariant lo <= ln <= hi && starts == Hits(lines[lo..ln], Header(header), lo)
    {
      assert lines[lo..ln + 1] == lines[lo..ln] + [lines[ln]];
      HitsAppend(lines[lo..ln], [lines[ln]], Header(header), lo);
      if MatchTableHeader(lines[ln], header) {
        starts := starts + [ln];
      }
      ln := ln + 1;
    }
  }

  /** The last line before the next header after `at`, up to line `end`. */
  method FindSectionEnd(lines: seq<string>, at: nat, end: nat) returns (last: nat)
    requires at <= end < |lines|
    ensures last == SectionEnd(lines, at, end + 1)
  {
    hide IsAnyTableHeader;
    last := end;
    var j := at + 1;
    while j <= end
      invariant at < j <= end + 1 && last == end
      invariant First(lines[at + 1..end + 1], AnyHeader()) == j - at - 1 + First(lines[j..end + 1], AnyHeader())
    {
      if IsAnyTableHeader(lines[j]) {
        last := j - 1;
        break;
      }
      assert lines[j..end + 1][1..] == lines[j + 1..end + 1];
      j := j + 1;
    }
  }

  method FindProvider(lines: seq<string>, ln: nat, end: nat) returns (span: ProviderSpan)
    requires ln <= end < |lines|
    ensures span == ProviderAt(lines, ln, end + 1)
  {
    hide MatchTomlStringKey, IsAnyTableHeader;
    FirstIs(lines[ln + 1..end + 1], AnyHeader());
    var last := FindSectionEnd(lines, ln, end);
    span := ProviderSpan(ln, last, -1);
    var j := ln + 1;
    while j <= last
      invariant ln < j <= last + 1 && span == ProviderSpan(ln, last, -1)
      invariant First(lines[ln + 1..end + 1], ForKey("name")) == j - ln - 1 + First(lines[j..end + 1], ForKey("name"))
    {
      if MatchTomlStringKey(lines[j], "name") {
        span := span.(nameLine := j);
        break;
      }
      assert lines[j..end + 1][1..] == lines[j + 1..end + 1];
      j := j + 1;
    }
  }

  /** What one line of a platform adds to its span. */
  ghost function PlatformScanned(lines: seq<string>, ln: nat, hi: nat, inMain: bool, ps: PlatformSpan): PlatformSpan
    requires ln < hi <= |lines|
  {
    var found := ps.optionsStart < 0 && MatchTableHeader(lines[ln], PLATFORM_OPTIONS);
    ps.(typeLine := if inMain && ps.typeLine < 0 && MatchTomlStringKey(lines[ln], TYPE) then ln else ps.typeLine,
        optionsStart := if found then ln else ps.optionsStart,
        optionsEnd := if found then SectionEnd(lines, ln, hi) else ps.optionsEnd)
  }

  method ScanPlatformLine(lines: seq<string>, ln: nat, pend: nat, inMain: bool, ps: PlatformSpan)
      returns (stillMain: bool, next: PlatformSpan)
    requires ln <= pend < |lines|
    ensures stillMain == (inMain && !IsAnyTableHeader(lines[ln]))
    ensures next == PlatformScanned(lines, ln, pend + 1, stillMain, ps)
  {
    hide MatchTomlStringKey, IsAnyTableHeader, MatchTableHeader;
    stillMain, next := inMain, ps;
    if IsAnyTableHeader(lines[ln]) {
      stillMain := false;
    }
    if stillMain && next.typeLine < 0 && MatchTomlStringKey(lines[ln], TYPE) {
      next := next.(typeLine := ln);
    }
    if next.optionsStart < 0 && MatchTableHeader(lines[ln], PLATFORM_OPTIONS) {
      var last := FindSectionEnd(lines, ln, pend);
      next := next.(optionsStart := ln, optionsEnd := last);
    }
  }

  /** The span after the first `n` lines of the platform's body. */
  ghost predicate PlatformFound(lines: seq<string>, pstart: nat, hi: nat, n: nat, inMain: bool, ps: PlatformSpan)
    requires pstart < hi <= |lines|
  {
    var body := lines[pstart + 1..hi];
    var h, t, o := First(body, AnyHeader()), First(body, ForKey(TYPE)), First(body, Header(PLATFORM_OPTIONS));
    && ps.start == pstart && ps.end == hi - 1 && inMain == (h >= n)
    && ps.typeLine == (if t < h && t < n then pstart + 1 + t else -1)
    && ps.optionsStart == (if o < |body| && o < n then pstart + 1 + o else -1)
    && ps.optionsEnd == if o < |body| && o < n then SectionEnd(lines, pstart + 1 + o, hi) else -1
  }

  lemma FirstStep(body: seq<string>, p: string -> bool, n: nat)
    requires n < |body|
    ensures First(body, p) >= n ==> (First(body, p) == n <==> p(body[n]))
  {
    FirstIs(body, p);
    hide First;
  }

  lemma PlatformStep(lines: seq<string>, pstart: nat, hi: nat, ln: nat, inMain: bool, ps: PlatformSpan, next: PlatformSpan)
    requires pstart < ln < hi <= |lines| && PlatformFound(lines, pstart, hi, ln - pstart - 1, inMain, ps)
    requires next == PlatformScanned(lines, ln, hi, inMain && !IsAnyTableHeader(lines[ln]), ps)
    ensures PlatformFound(lines, pstart, hi, ln - pstart, inMain && !IsAnyTableHeader(lines[ln]), next)
  {
    hide MatchTableHeader, IsAnyTableHeader, MatchTomlStringKey, First, SectionEnd;
    var body, n := lines[pstart + 1..hi], ln - pstart - 1;
    assert body[n] == lines[ln];
    FirstStep(body, AnyHeader(), n);
    FirstStep(body, ForKey(TYPE), n);
    FirstStep(body, Header(PLATFORM_OPTIONS), n);
  }

  method FindPlatform(lines: seq<string>, pstart: nat, pend: nat) returns (ps: PlatformSpan)
    requires pstart <= pend < |lines|
    ensures ps == PlatformAt(lines, pstart, pend + 1)
  {
    hide MatchTableHeader, IsAnyTableHeader, MatchTomlStringKey, First, SectionEnd, PlatformScanned;
    ps := PlatformSpan(pstart, pend, -1, -1, -1);
    var inMainPlatformTable := true;
    var ln := pstart + 1;
    while ln <= pend
      invariant pstart < ln <= pend + 1
      invariant PlatformFound(lines, pstart, pend + 1, ln - pstart - 1, inMainPlatformTable, ps)
    {
      ghost var was, before := inMainPlatformTable, ps;
      inMainPlatformTable, ps := ScanPlatformLine(lines, ln, pend, inMainPlatformTable, ps);
      PlatformStep(lines, pstart, pend + 1, ln, was, before, ps);
      ln := ln + 1;
    }
  }

  /** The last section with this header among the lines of a project before `ln`. */
  ghost predicate SectionFound(lines: seq<string>, start: nat, hi: nat, ln: nat, header: string, first: int, last: int)
    requires start < ln <= hi <= |lines|
  {
    var a := Last(lines[start + 1..ln], Header(header));
    if a >= 0 then first == start + 1 + a && last == SectionEnd(lines, start + 1 + a, hi) else first == -1 && last == -1
  }

  lemma SectionStep(lines: seq<string>, start: nat, hi: nat, ln: nat, header: string, first: int, last: int)
    requires start < ln < hi <= |lines| && SectionFound(lines, start, hi, ln, header, first, last)
    ensures var found := MatchTableHeader(lines[ln], header);
      SectionFound(lines, start, hi, ln + 1, header, if found then ln else first,
                   if found then SectionEnd(lines, ln, hi) else last)
  {
    hide MatchTableHeader, SectionEnd, Last;
    var seen := lines[start + 1..ln];
    LastSnoc(seen, lines[ln], Header(header));
    assert lines[start + 1..ln + 1] == seen + [lines[ln]];
  }

  lemma NothingFound(lines: seq<string>, start: nat, hi: nat, header: string)
    requires start < hi <= |lines|
    ensures SectionFound(lines, start, hi, start + 1, header, -1, -1)
    ensures Hits(lines[start + 1..start + 1], Header(header), start + 1) == []
  {
    assert lines[start + 1..start + 1] == [];
    hide MatchTableHeader, SectionEnd;
  }

  /** What one line of a project adds to its span. */
  ghost function Scanned(lines: seq<string>, ln: nat, hi: nat, span: ProjectSpan): ProjectSpan
    requires ln < hi <= |lines|
  {
    var agent := MatchTableHeader(lines[ln], AGENT);
    var options := MatchTableHeader(lines[ln], AGENT_OPTIONS);
    span.(
      agentStart := if agent then ln else span.agentStart,
      agentEnd := if agent then SectionEnd(lines, ln, hi) else span.agentEnd,
      agentOptionsStart := if options then ln else span.agentOptionsStart,
      agentOptionsEnd := if options then SectionEnd(lines, ln, hi) else span.agentOptionsEnd,
      agentProviders := span.agentProviders + if MatchTableHeader(lines[ln], PROVIDERS) then [ProviderAt(lines, ln, hi)] else [])
  }

  method ScanProjectLine(lines: seq<string>, ln: nat, end: nat, span: ProjectSpan) returns (next: ProjectSpan)
    requires ln <= end < |lines|
    ensures next == Scanned(lines, ln, end + 1, span)
  {
    AgentHeaderAlone(lines[ln]);
    hide MatchTableHeader;
    next := span;
    if MatchTableHeader(lines[ln], AGENT) && !MatchTableHeader(lines[ln], AGENT_OPTIONS)
       && !MatchTableHeader(lines[ln], PROVIDERS) {
      var last := FindSectionEnd(lines, ln, end);
      next := next.(agentStart := ln, agentEnd := last);
    }
    if MatchTableHeader(lines[ln], AGENT_OPTIONS) {
      var last := FindSectionEnd(lines, ln, end);
      next := next.(agentOptionsStart := ln, agentOptionsEnd := last);
    }
    if MatchTableHeader(lines[ln], PROVIDERS) {
      var p := FindProvider(lines, ln, end);
      next := next.(agentProviders := next.agentProviders + [p]);
    }
    assert span.agentProviders + [] == span.agentProviders;
  }

  /** A line is the agent header only if it is none of the headers below it. */
  lemma AgentHeaderAlone(line: string)
    ensures MatchTableHeader(line, AGENT) ==> !MatchTableHeader(line, AGENT_OPTIONS) && !MatchTableHeader(line, PROVIDERS)
  {
    var t := TrimSpace(line);
    hide TrimSpace;
    if AGENT <= t {
      assert t[|AGENT| - 1] == ']';
      assert AGENT_OPTIONS[|AGENT| - 1] == '.' && PROVIDERS[1] == '[' && AGENT[1] == 'p';
    }
  }

  /** Both agent sections and the providers found in the lines of a project before `ln`. */
  ghost predicate AgentFound(lines: seq<string>, start: nat, hi: nat, ln: nat, span: ProjectSpan)
    requires start < ln <= hi <= |lines|
  {
    && SectionFound(lines, start, hi, ln, AGENT, span.agentStart, span.agentEnd)
    && SectionFound(lines, start, hi, ln, AGENT_OPTIONS, span.agentOptionsStart, span.agentOptionsEnd)
    && span.agentProviders == ProvidersOf(lines, Hits(lines[start + 1..ln], Header(PROVIDERS), start + 1), hi)
  }

  lemma ProvidersStep(lines: seq<string>, start: nat, hi: nat, ln: nat)
    requires start < ln < hi <= |lines|
    ensures ProvidersOf(lines, Hits(lines[start + 1..ln + 1], Header(PROVIDERS), start + 1), hi)
         == ProvidersOf(lines, Hits(lines[start + 1..ln], Header(PROVIDERS), start + 1), hi)
          + if MatchTableHeader(lines[ln], PROVIDERS) then [ProviderAt(lines, ln, hi)] else []
  {
    hide *;
    var seen, p := lines[start + 1..ln], Header(PROVIDERS);
    OneHit(lines[ln], PROVIDERS, ln);
    HitsAppend(seen, [lines[ln]], p, start + 1);
    assert lines[start + 1..ln + 1] == seen + [lines[ln]];
    ProvidersSnoc(lines, Hits(seen, p, start + 1), ln, hi);
  }

  lemma OneHit(line: string, header: string, ln: nat)
    ensures Hits([line], Header(header), ln) == if MatchTableHeader(line, header) then [ln] else []
  {
    hide MatchTableHeader;
  }

  lemma AgentStep(lines: seq<string>, start: nat, hi: nat, ln: nat, span: ProjectSpan, next: ProjectSpan)
    requires start < ln < hi <= |lines| && AgentFound(lines, start, hi, ln, span)
    requires next == Scanned(lines, ln, hi, span)
    ensures AgentFound(lines, start, hi, ln + 1, next)
    ensures next.start == span.start && next.end == span.end && next.platforms == span.platforms
  {
    hide MatchTableHeader, SectionEnd, ProviderAt, ProvidersOf, Last, Hits, SectionFound;
    SectionStep(lines, start, hi, ln, AGENT, span.agentStart, span.agentEnd);
    SectionStep(lines, start, hi, ln, AGENT_OPTIONS, span.agentOptionsStart, span.agentOptionsEnd);
    ProvidersStep(lines, start, hi, ln);
  }

  lemma ProvidersSnoc(lines: seq<string>, starts: seq<nat>, ln: nat, hi: nat)
    requires ln < hi <= |lines|
    ensures ProvidersOf(lines, starts + [ln], hi) == ProvidersOf(lines, starts, hi) + [ProviderAt(lines, ln, hi)]
    ensures starts + [] == starts
  {
    hide ProviderAt;
  }

  lemma PlatformsCount(lines: seq<string>, starts: seq<nat>, hi: nat)
    requires hi <= |lines|
    ensures |PlatformsOf(lines, starts, hi)| == |starts|
  {
    hide PlatformAt;
  }

  lemma PlatformsEntry(lines: seq<string>, starts: seq<nat>, hi: nat, i: nat)
    requires i < |starts| && starts[i] < NextOf(starts, i, hi) <= hi <= |lines|
    ensures |PlatformsOf(lines, starts, hi)| == |starts|
    ensures PlatformsOf(lines, starts, hi)[i] == PlatformAt(lines, starts[i], NextOf(starts, i, hi))
  {
    hide PlatformAt;
  }

  method FindPlatforms(lines: seq<string>, start: nat, end: nat) returns (platforms: seq<PlatformSpan>)
    requires start <= end < |lines|
    ensures platforms == PlatformsOf(lines, Hits(lines[start + 1..end + 1], Header(PLATFORMS), start + 1), end + 1)
  {
    hide PlatformAt, PlatformsOf, MatchTableHeader, Hits;
    var platformStarts := FindHeaders(lines, start + 1, end + 1, PLATFORMS);
    PlatformBounds(lines, start, end + 1);
    ghost var all := PlatformsOf(lines, platformStarts, end + 1);
    PlatformsCount(lines, platformStarts, end + 1);
    platforms := [];
    var p := 0;
    while p < |platformStarts|
      invariant p <= |platformStarts| && platforms == all[..p]
    {
      var pend: nat := end;
      if p + 1 < |platformStarts| {
        pend := platformStarts[p + 1] - 1;
      }
      var ps := FindPlatform(lines, platformStarts[p], pend);
      PlatformsEntry(lines, platformStarts, end + 1, p);
      platforms := platforms + [ps];
      p := p + 1;
    }
  }

  method FindProject(lines: seq<string>, start: nat, end: nat) returns (span: ProjectSpan)
    requires start <= end < |lines|
    ensures span == ProjectAt(lines, start, end + 1)
  {
    hide AgentFound, Scanned, MatchTableHeader, SectionEnd, ProviderAt, PlatformsOf, ProvidersOf, SectionFound, Hits, Last;
    span := ProjectSpan(start, end, [], -1, -1, -1, -1, []);
    NothingFoundYet(lines, start, end + 1, span);
    var ln := start + 1;
    while ln <= end
      invariant start < ln <= end + 1 && span.start == start && span.end == end && span.platforms == []
      invariant AgentFound(lines, start, end + 1, ln, span)
    {
      ghost var before := span;
      span := ScanProjectLine(lines, ln, end, span);
      AgentStep(lines, start, end + 1, ln, before, span);
      ln := ln + 1;
    }
    var platforms := FindPlatforms(lines, start, end);
    AllFound(lines, start, end + 1, span);
    span := span.(platforms := platforms);
  }

  lemma NothingFoundYet(lines: seq<string>, start: nat, hi: nat, span: ProjectSpan)
    requires start < hi <= |lines|
    requires span == ProjectSpan(start, hi - 1, [], -1, -1, -1, -1, [])
    ensures AgentFound(lines, start, hi, start + 1, span)
  {
    hide MatchTableHeader, Hits, SectionFound;
    NothingFound(lines, start, hi, AGENT);
    NothingFound(lines, start, hi, AGENT_OPTIONS);
    NothingFound(lines, start, hi, PROVIDERS);
  }

  lemma AllFound(lines: seq<string>, start: nat, hi: nat, span: ProjectSpan)
    requires start < hi <= |lines| && AgentFound(lines, start, hi, hi, span)
    requires span.start == start && span.end == hi - 1
    ensures ProjectAt(lines, start, hi) ==
        span.(platforms := PlatformsOf(lines, Hits(lines[start + 1..hi], Header(PLATFORMS), start + 1), hi))
  {
    hide MatchTableHeader, SectionEnd, ProviderAt, PlatformsOf, ProvidersOf, Hits, Last;
  }

  /** Headers are found in order and inside the lines searched. */
  lemma PlatformBounds(lines: seq<string>, start: nat, hi: nat)
    requires start < hi <= |lines|
    ensures var starts := Hits(lines[start + 1..hi], Header(PLATFORMS), start + 1);
      forall i :: 0 <= i < |starts| ==> start < starts[i] < NextOf(starts, i, hi) <= hi
  {
    HitsAre(lines[start + 1..hi], Header(PLATFORMS), start + 1);
    hide Hits, MatchTableHeader;
  }

  lemma ProjectBounds(lines: seq<string>)
    ensures var starts := ProjectStarts(lines);
      forall i :: 0 <= i < |starts| ==> starts[i] < NextOf(starts, i, |lines|) <= |lines|
  {
    HitsAre(lines, Header(PROJECTS), 0);
    hide Hits, MatchTableHeader;
  }

  lemma SpansCount(lines: seq<string>)
    ensures |ProjectSpans(lines)| == |ProjectStarts(lines)|
  {
    hide ProjectAt, ProjectStarts;
  }

  lemma SpansEntry(lines: seq<string>, i: nat)
    requires var starts := ProjectStarts(lines); i < |starts| && starts[i] < NextOf(starts, i, |lines|) <= |lines|
    ensures |ProjectSpans(lines)| == |ProjectStarts(lines)|
    ensures var starts := ProjectStarts(lines);
      ProjectSpans(lines)[i] == ProjectAt(lines, starts[i], NextOf(starts, i, |lines|))
  {
    hide ProjectAt, ProjectStarts;
  }

  /** The header lines of the projects, and the line after each project. */
  method FindProjectStarts(lines: seq<string>) returns (projectStarts: seq<nat>)
    ensures projectStarts == ProjectStarts(lines)
  {
    hide MatchTableHeader, Hits;
    assert lines[0..|lines|] == lines;
    projectStarts := FindHeaders(lines, 0, |lines|, PROJECTS);
  }

  method BuildRawProjectSpans(lines: seq<string>) returns (spans: seq<ProjectSpan>)
    ensures spans == ProjectSpans(lines)
  {
    hide *;
    var projectStarts := FindProjectStarts(lines);
    SpansCount(lines);
    spans := [];
    var i := 0;
    while i < |projectStarts|
      invariant i <= |projectStarts| && spans == ProjectSpans(lines)[..i]
    {
      ProjectBound(lines, i);
      NextIs(projectStarts, i, |lines|);
      var end := |lines| - 1;
      if i + 1 < |projectStarts| {
        end := projectStarts[i + 1] - 1;
      }
      var span := FindProject(lines, projectStarts[i], end);
      SpansEntry(lines, i);
      spans := spans + [span];
      i := i + 1;
    }
  }

  lemma NextIs(starts: seq<nat>, i: nat, hi: nat)
    ensures NextOf(starts, i, hi) == if i + 1 < |starts| then starts[i + 1] else hi
  {
  }

  lemma ProjectBound(lines: seq<string>, i: nat)
    requires i < |ProjectStarts(lines)|
    ensures ProjectStarts(lines)[i] < NextOf(ProjectStarts(lines), i, |lines|) <= |lines|
  {
    ProjectBounds(lines);
  }
}
