/** The line index is well nested: projects tile the file from the first project on, platforms
    tile their project's tail, and every section ends at its next header. */
module TomlNesting {
  import opened TomlLines
  import opened Search
  import opened TomlSpans

  /** A section with this header inside [lo, hi): no header in its body, and a header or the
      end right behind it. */
  ghost predicate SectionOk(lines: seq<string>, header: string, first: int, last: int, lo: int, hi: int)
    requires 0 <= lo <= hi <= |lines|
  {
    && lo < first <= last < hi && MatchTableHeader(lines[first], header)
    && (forall k :: first < k <= last ==> !IsAnyTableHeader(lines[k]))
    && (last + 1 == hi || IsAnyTableHeader(lines[last + 1]))
  }

  /** Between these lines, both excluded, there is no such header. */
  ghost predicate NoneBetween(lines: seq<string>, header: string, lo: int, hi: int) {
    forall k :: lo < k < hi && 0 <= k < |lines| ==> !MatchTableHeader(lines[k], header)
  }

  /** The first section with this header inside [lo, hi), or -1 twice if there is none. */
  ghost predicate FirstSection(lines: seq<string>, header: string, first: int, last: int, lo: int, hi: int)
    requires 0 <= lo <= hi <= |lines|
  {
    if first == -1 then last == -1 && NoneBetween(lines, header, lo, hi)
    else SectionOk(lines, header, first, last, lo, hi) && NoneBetween(lines, header, lo, first)
  }

  /** The last one. */
  ghost predicate LastSection(lines: seq<string>, header: string, first: int, last: int, lo: int, hi: int)
    requires 0 <= lo <= hi <= |lines|
  {
    if first == -1 then last == -1 && NoneBetween(lines, header, lo, hi)
    else SectionOk(lines, header, first, last, lo, hi) && NoneBetween(lines, header, first, hi)
  }

  /** Between these lines, both excluded, there is no line of this key. */
  ghost predicate NoKeyBetween(lines: seq<string>, key: string, lo: int, hi: int) {
    forall k :: lo < k < hi && 0 <= k < |lines| ==> !MatchTomlStringKey(lines[k], key)
  }

  /** The first line of the key in the table that ends before line `end`, or -1. */
  ghost predicate KeyLineOk(lines: seq<string>, key: string, start: int, line: int, end: int)
    requires 0 <= start < end <= |lines|
  {
    if line == -1 then NoKeyBetween(lines, key, start, end)
    else start < line < end && MatchTomlStringKey(lines[line], key) && NoKeyBetween(lines, key, start, line)
  }

  /** The main table that starts at this line ends before line `end`. */
  ghost predicate MainEnds(lines: seq<string>, start: int, end: int, hi: int)
    requires 0 <= start < hi <= |lines|
  {
    && start < end <= hi && (forall k :: start < k < end ==> !IsAnyTableHeader(lines[k]))
    && (end == hi || IsAnyTableHeader(lines[end]))
  }

  /** The type line is the first type key of the main table. */
  ghost predicate TypeOk(lines: seq<string>, start: int, line: int, hi: int)
    requires 0 <= start < hi <= |lines|
  {
    forall end :: MainEnds(lines, start, end, hi) ==> KeyLineOk(lines, TYPE, start, line, end)
  }

  /** A platform from its header up to `hi`, with its type line and options inside. */
  ghost predicate PlatformOk(lines: seq<string>, ps: PlatformSpan, hi: int)
    requires 0 <= hi <= |lines|
  {
    && 0 <= ps.start <= ps.end == hi - 1 && MatchTableHeader(lines[ps.start], PLATFORMS)
    && TypeOk(lines, ps.start, ps.typeLine, hi)
    && FirstSection(lines, PLATFORM_OPTIONS, ps.optionsStart, ps.optionsEnd, ps.start, hi)
  }

  /** Where the platform after the i-th begins, or the end. */
  function PlatformEnd(ps: seq<PlatformSpan>, i: nat, hi: int): int {
    if i + 1 < |ps| then ps[i + 1].start else hi
  }

  /** Platforms follow one another without gap or overlap, the last one up to `hi`. */
  ghost predicate PlatformsTile(lines: seq<string>, ps: seq<PlatformSpan>, lo: int, hi: int)
    requires 0 <= lo < hi <= |lines|
  {
    forall i :: 0 <= i < |ps| ==>
      lo < ps[i].start < PlatformEnd(ps, i, hi) <= hi && PlatformOk(lines, ps[i], PlatformEnd(ps, i, hi))
  }

  /** Every line with this header starts one of the listed sections. */
  ghost predicate AllListed(lines: seq<string>, header: string, starts: seq<int>, lo: int, hi: int)
    requires 0 <= lo <= hi <= |lines|
  {
    forall k :: lo <= k < hi && MatchTableHeader(lines[k], header) ==> k in starts
  }

  ghost predicate ProviderOk(lines: seq<string>, p: ProviderSpan, lo: int, hi: int)
    requires 0 <= lo <= hi <= |lines|
  {
    && SectionOk(lines, PROVIDERS, p.start, p.end, lo, hi)
    && KeyLineOk(lines, "name", p.start, p.nameLine, p.end + 1)
  }

  ghost predicate ProvidersOk(lines: seq<string>, ps: seq<ProviderSpan>, lo: int, hi: int)
    requires 0 <= lo <= hi <= |lines|
  {
    forall i :: 0 <= i < |ps| ==> ProviderOk(lines, ps[i], lo, hi)
  }

  function PlatformStarts(ps: seq<PlatformSpan>): seq<int> {
    seq(|ps|, i requires 0 <= i < |ps| => ps[i].start)
  }

  function ProviderStarts(ps: seq<ProviderSpan>): seq<int> {
    seq(|ps|, i requires 0 <= i < |ps| => ps[i].start)
  }

  /** A project from its header up to `hi`, with everything indexed inside it. */
  ghost predicate ProjectOk(lines: seq<string>, sp: ProjectSpan, hi: int)
    requires 0 <= hi <= |lines|
  {
    && 0 <= sp.start <= sp.end == hi - 1 && MatchTableHeader(lines[sp.start], PROJECTS)
    && PlatformsTile(lines, sp.platforms, sp.start, hi)
    && AllListed(lines, PLATFORMS, PlatformStarts(sp.platforms), sp.start + 1, hi)
    && LastSection(lines, AGENT, sp.agentStart, sp.agentEnd, sp.start, hi)
    && LastSection(lines, AGENT_OPTIONS, sp.agentOptionsStart, sp.agentOptionsEnd, sp.start, hi)
    && ProvidersOk(lines, sp.agentProviders, sp.start, hi)
    && AllListed(lines, PROVIDERS, ProviderStarts(sp.agentProviders), sp.start + 1, hi)
  }

  function ProjectEnd(spans: seq<ProjectSpan>, i: nat, hi: int): int {
    if i + 1 < |spans| then spans[i + 1].start else hi
  }

  /** Projects follow one another without gap or overlap up to the end of the file, and every
      line before the first is no project header. */
  ghost predicate FileOk(lines: seq<string>, spans: seq<ProjectSpan>) {
    && (forall i :: 0 <= i < |spans| ==>
          0 <= spans[i].start < ProjectEnd(spans, i, |lines|) <= |lines|
              && ProjectOk(lines, spans[i], ProjectEnd(spans, i, |lines|)))
    && AllListed(lines, PROJECTS, SpanStarts(spans), 0, |lines|)
  }

  function SpanStarts(spans: seq<ProjectSpan>): seq<int> {
    seq(|spans|, i requires 0 <= i < |spans| => spans[i].start)
  }

  // ----- sections

  lemma SectionEndIs(lines: seq<string>, header: string, at: nat, lo: nat, hi: nat)
    requires lo < at < hi <= |lines| && MatchTableHeader(lines[at], header)
    ensures SectionOk(lines, header, at, SectionEnd(lines, at, hi), lo, hi)
  {
    hide MatchTableHeader, IsAnyTableHeader;
    var body := lines[at + 1..hi];
    FirstIs(body, AnyHeader());
    hide First;
    assert forall k :: at < k < hi ==> lines[k] == body[k - at - 1];
  }

  lemma MainEndsAt(lines: seq<string>, at: nat, hi: nat, end: int)
    requires at < hi <= |lines| && MainEnds(lines, at, end, hi)
    ensures at < end <= hi && end == at + 1 + First(lines[at + 1..hi], AnyHeader())
  {
    hide IsAnyTableHeader;
    var body := lines[at + 1..hi];
    assert forall k :: at < k < hi ==> lines[k] == body[k - at - 1];
    FirstUnique(body, AnyHeader(), end - at - 1);
    hide First;
  }

  lemma FirstKeyOk(lines: seq<string>, at: nat, hi: nat, key: string, end: int)
    requires at < hi <= |lines| && at < end == at + 1 + First(lines[at + 1..hi], AnyHeader())
    ensures end <= hi
    ensures var k := First(lines[at + 1..hi], ForKey(key));
      KeyLineOk(lines, key, at, if k < First(lines[at + 1..hi], AnyHeader()) then at + 1 + k else -1, end)
  {
    hide IsAnyTableHeader, MatchTomlStringKey;
    var body := lines[at + 1..hi];
    FirstIs(body, ForKey(key));
    hide First;
    assert forall k :: at < k < hi ==> lines[k] == body[k - at - 1];
  }

  lemma TypeIsOk(lines: seq<string>, at: nat, hi: nat)
    requires at < hi <= |lines|
    ensures var body := lines[at + 1..hi]; var t := First(body, ForKey(TYPE));
      TypeOk(lines, at, if t < First(body, AnyHeader()) then at + 1 + t else -1, hi)
  {
    hide First, MainEnds, KeyLineOk, AnyHeader, ForKey;
    forall end | MainEnds(lines, at, end, hi)
      ensures at < end <= hi
      ensures var t := First(lines[at + 1..hi], ForKey(TYPE));
        KeyLineOk(lines, TYPE, at, if t < First(lines[at + 1..hi], AnyHeader()) then at + 1 + t else -1, end)
    {
      MainEndsAt(lines, at, hi, end);
      FirstKeyOk(lines, at, hi, TYPE, end);
    }
  }

  lemma OptionsOk(lines: seq<string>, at: nat, hi: nat)
    requires at < hi <= |lines|
    ensures var body := lines[at + 1..hi]; var o := First(body, Header(PLATFORM_OPTIONS));
      FirstSection(lines, PLATFORM_OPTIONS, if o < |body| then at + 1 + o else -1,
                   if o < |body| then SectionEnd(lines, at + 1 + o, hi) else -1, at, hi)
  {
    hide First, SectionEnd, SectionOk, NoneBetween, MatchTableHeader;
    NoneBeforeFirst(lines, at, hi, PLATFORM_OPTIONS);
    var o := First(lines[at + 1..hi], Header(PLATFORM_OPTIONS));
    if at + 1 + o < hi {
      SectionEndIs(lines, PLATFORM_OPTIONS, at + 1 + o, at, hi);
    }
  }

  lemma NoneBeforeFirst(lines: seq<string>, at: nat, hi: nat, header: string)
    requires at < hi <= |lines|
    ensures var o := First(lines[at + 1..hi], Header(header));
      && o <= hi - at - 1 && NoneBetween(lines, header, at, at + 1 + o)
      && (at + 1 + o < hi ==> MatchTableHeader(lines[at + 1 + o], header))
  {
    hide MatchTableHeader;
    var body := lines[at + 1..hi];
    var o := First(body, Header(header));
    FirstIs(body, Header(header));
    hide First;
    if at + 1 + o < hi { assert body[o] == lines[at + 1 + o]; }
    forall k | at < k < at + 1 + o
      ensures !MatchTableHeader(lines[k], header)
    {
      assert lines[k] == body[k - at - 1];
    }
  }

  lemma LastOk(lines: seq<string>, at: nat, hi: nat, header: string)
    requires at < hi <= |lines|
    ensures var body := lines[at + 1..hi]; var o := Last(body, Header(header));
      LastSection(lines, header, if o >= 0 then at + 1 + o else -1,
                  if o >= 0 then SectionEnd(lines, at + 1 + o, hi) else -1, at, hi)
  {
    hide Last, SectionEnd, SectionOk, NoneBetween, MatchTableHeader;
    NoneBehindLast(lines, at, hi, header);
    var o := Last(lines[at + 1..hi], Header(header));
    if o >= 0 {
      SectionEndIs(lines, header, at + 1 + o, at, hi);
    }
  }

  lemma NoneBehindLast(lines: seq<string>, at: nat, hi: nat, header: string)
    requires at < hi <= |lines|
    ensures var o := Last(lines[at + 1..hi], Header(header));
      && -1 <= o < hi - at - 1 && NoneBetween(lines, header, at + 1 + o, hi)
      && (o >= 0 ==> MatchTableHeader(lines[at + 1 + o], header))
  {
    hide MatchTableHeader;
    var body := lines[at + 1..hi];
    var o := Last(body, Header(header));
    LastIs(body, Header(header));
    hide Last;
    if o >= 0 { assert body[o] == lines[at + 1 + o]; }
    forall k | at + 1 + o < k < hi
      ensures !MatchTableHeader(lines[k], header)
    {
      assert lines[k] == body[k - at - 1];
    }
  }

  lemma PlatformIsOk(lines: seq<string>, at: nat, hi: nat)
    requires at < hi <= |lines| && MatchTableHeader(lines[at], PLATFORMS)
    ensures PlatformOk(lines, PlatformAt(lines, at, hi), hi)
    ensures PlatformAt(lines, at, hi).start == at
  {
    hide *;
    TypeIsOk(lines, at, hi);
    OptionsOk(lines, at, hi);
    PlatformFields(lines, at, hi);
    PlatformOkIs(lines, PlatformAt(lines, at, hi), hi);
  }

  lemma PlatformOkIs(lines: seq<string>, ps: PlatformSpan, hi: int)
    requires 0 <= ps.start <= ps.end == hi - 1 < |lines| && MatchTableHeader(lines[ps.start], PLATFORMS)
    requires TypeOk(lines, ps.start, ps.typeLine, hi)
    requires FirstSection(lines, PLATFORM_OPTIONS, ps.optionsStart, ps.optionsEnd, ps.start, hi)
    ensures PlatformOk(lines, ps, hi)
  {
    hide MatchTableHeader, TypeOk, FirstSection;
  }

  lemma ProviderIsOk(lines: seq<string>, at: nat, lo: nat, hi: nat)
    requires lo < at < hi <= |lines| && MatchTableHeader(lines[at], PROVIDERS)
    ensures ProviderOk(lines, ProviderAt(lines, at, hi), lo, hi)
    ensures ProviderAt(lines, at, hi).start == at
  {
    hide *;
    SectionEndIs(lines, PROVIDERS, at, lo, hi);
    ProviderFields(lines, at, hi);
    FirstKeyOk(lines, at, hi, "name", SectionEnd(lines, at, hi) + 1);
    ProviderOkIs(lines, ProviderAt(lines, at, hi), lo, hi);
  }

  lemma ProviderFields(lines: seq<string>, at: nat, hi: nat)
    requires at < hi <= |lines|
    ensures var k, n := First(lines[at + 1..hi], ForKey("name")), First(lines[at + 1..hi], AnyHeader());
      && ProviderAt(lines, at, hi) == ProviderSpan(at, SectionEnd(lines, at, hi), if k < n then at + 1 + k else -1)
      && SectionEnd(lines, at, hi) == at + n && n < hi - at
  {
    hide First, AnyHeader, ForKey;
  }

  lemma ProviderOkIs(lines: seq<string>, p: ProviderSpan, lo: int, hi: int)
    requires 0 <= lo <= hi <= |lines| && SectionOk(lines, PROVIDERS, p.start, p.end, lo, hi)
    requires 0 <= p.start <= p.end < |lines| && KeyLineOk(lines, "name", p.start, p.nameLine, p.end + 1)
    ensures ProviderOk(lines, p, lo, hi)
  {
    hide MatchTomlStringKey, MatchTableHeader, KeyLineOk;
  }

  // ----- lists of sections

  lemma HitsListed(lines: seq<string>, lo: nat, hi: nat, header: string)
    requires lo <= hi <= |lines|
    ensures AllListed(lines, header, Hits(lines[lo..hi], Header(header), lo), lo, hi)
  {
    hide MatchTableHeader, Hits;
    var seg := lines[lo..hi];
    forall k | lo <= k < hi && MatchTableHeader(lines[k], header)
      ensures k in Hits(seg, Header(header), lo)
    {
      assert seg[k - lo] == lines[k];
      HitsAll(seg, Header(header), lo, k - lo);
    }
  }

  /** Hits among the lines lo up to hi are headers there, in order. */
  lemma HitsInside(lines: seq<string>, lo: nat, hi: nat, header: string, i: nat)
    requires lo <= hi <= |lines| && i < |Hits(lines[lo..hi], Header(header), lo)|
    ensures var h := Hits(lines[lo..hi], Header(header), lo);
      lo <= h[i] < NextOf(h, i, hi) <= hi && MatchTableHeader(lines[h[i]], header)
  {
    HitsAre(lines[lo..hi], Header(header), lo);
    hide MatchTableHeader, Hits;
    var h := Hits(lines[lo..hi], Header(header), lo);
    assert lines[lo..hi][h[i] - lo] == lines[h[i]];
  }

  lemma PlatformsAre(lines: seq<string>, at: nat, hi: nat)
    requires at < hi <= |lines|
    ensures var ps := PlatformsOf(lines, Hits(lines[at + 1..hi], Header(PLATFORMS), at + 1), hi);
      PlatformsTile(lines, ps, at, hi) && AllListed(lines, PLATFORMS, PlatformStarts(ps), at + 1, hi)
  {
    hide *;
    var h := Hits(lines[at + 1..hi], Header(PLATFORMS), at + 1);
    var ps := PlatformsOf(lines, h, hi);
    PlatformsCount(lines, h, hi);
    forall i | 0 <= i < |h|
      ensures at < h[i] < NextOf(h, i, hi) <= hi && ps[i].start == h[i] && PlatformOk(lines, ps[i], NextOf(h, i, hi))
    {
      HitsInside(lines, at + 1, hi, PLATFORMS, i);
      PlatformsEntry(lines, h, hi, i);
      PlatformIsOk(lines, h[i], NextOf(h, i, hi));
    }
    PlatformsAreTiles(lines, ps, h, at, hi);
    HitsListed(lines, at + 1, hi, PLATFORMS);
  }

  lemma PlatformsAreTiles(lines: seq<string>, ps: seq<PlatformSpan>, h: seq<nat>, at: nat, hi: nat)
    requires at < hi <= |lines| && |ps| == |h|
    requires forall i :: 0 <= i < |h| ==>
      at < h[i] < NextOf(h, i, hi) <= hi && ps[i].start == h[i] && PlatformOk(lines, ps[i], NextOf(h, i, hi))
    ensures PlatformsTile(lines, ps, at, hi) && PlatformStarts(ps) == h
  {
    hide PlatformOk;
    forall i | 0 <= i < |ps|
      ensures at < ps[i].start < PlatformEnd(ps, i, hi) <= hi && PlatformOk(lines, ps[i], PlatformEnd(ps, i, hi))
    {
      if i + 1 < |h| { assert ps[i + 1].start == h[i + 1]; }
      assert PlatformEnd(ps, i, hi) == NextOf(h, i, hi);
    }
  }

  lemma ProvidersAre(lines: seq<string>, at: nat, hi: nat)
    requires at < hi <= |lines|
    ensures var ps := ProvidersOf(lines, Hits(lines[at + 1..hi], Header(PROVIDERS), at + 1), hi);
      ProvidersOk(lines, ps, at, hi) && AllListed(lines, PROVIDERS, ProviderStarts(ps), at + 1, hi)
  {
    hide *;
    var h := Hits(lines[at + 1..hi], Header(PROVIDERS), at + 1);
    var ps := ProvidersOf(lines, h, hi);
    ProvidersCount(lines, h, hi);
    forall i | 0 <= i < |h|
      ensures ps[i].start == h[i] && ProviderOk(lines, ps[i], at, hi)
    {
      HitsInside(lines, at + 1, hi, PROVIDERS, i);
      ProvidersEntry(lines, h, hi, i);
      ProviderIsOk(lines, h[i], at, hi);
    }
    ProvidersAreOk(lines, ps, h, at, hi);
    HitsListed(lines, at + 1, hi, PROVIDERS);
  }

  lemma ProvidersAreOk(lines: seq<string>, ps: seq<ProviderSpan>, h: seq<nat>, at: nat, hi: nat)
    requires at < hi <= |lines| && |ps| == |h|
    requires forall i :: 0 <= i < |h| ==> ps[i].start == h[i] && ProviderOk(lines, ps[i], at, hi)
    ensures ProvidersOk(lines, ps, at, hi) && ProviderStarts(ps) == h
  {
    hide ProviderOk;
  }

  lemma ProvidersCount(lines: seq<string>, starts: seq<nat>, hi: nat)
    requires hi <= |lines|
    ensures |ProvidersOf(lines, starts, hi)| == |starts|
  {
    hide ProviderAt;
  }

  lemma ProvidersEntry(lines: seq<string>, starts: seq<nat>, hi: nat, i: nat)
    requires i < |starts| && starts[i] < hi <= |lines|
    ensures |ProvidersOf(lines, starts, hi)| == |starts| && ProvidersOf(lines, starts, hi)[i] == ProviderAt(lines, starts[i], hi)
  {
    hide ProviderAt;
  }

  // ----- the whole index

  lemma ProjectIsOk(lines: seq<string>, at: nat, hi: nat)
    requires at < hi <= |lines| && MatchTableHeader(lines[at], PROJECTS)
    ensures ProjectOk(lines, ProjectAt(lines, at, hi), hi) && ProjectAt(lines, at, hi).start == at
  {
    hide *;
    PlatformsAre(lines, at, hi);
    ProvidersAre(lines, at, hi);
    LastOk(lines, at, hi, AGENT);
    LastOk(lines, at, hi, AGENT_OPTIONS);
    ProjectFields(lines, at, hi);
    ProjectOkIs(lines, ProjectAt(lines, at, hi), hi);
  }

  lemma ProjectOkIs(lines: seq<string>, sp: ProjectSpan, hi: int)
    requires 0 <= sp.start <= sp.end == hi - 1 < |lines| && MatchTableHeader(lines[sp.start], PROJECTS)
    requires PlatformsTile(lines, sp.platforms, sp.start, hi)
    requires AllListed(lines, PLATFORMS, PlatformStarts(sp.platforms), sp.start + 1, hi)
    requires LastSection(lines, AGENT, sp.agentStart, sp.agentEnd, sp.start, hi)
    requires LastSection(lines, AGENT_OPTIONS, sp.agentOptionsStart, sp.agentOptionsEnd, sp.start, hi)
    requires ProvidersOk(lines, sp.agentProviders, sp.start, hi)
    requires AllListed(lines, PROVIDERS, ProviderStarts(sp.agentProviders), sp.start + 1, hi)
    ensures ProjectOk(lines, sp, hi)
  {
    hide MatchTableHeader, PlatformsTile, AllListed, LastSection, ProvidersOk, PlatformStarts, ProviderStarts;
  }

  /** For every file: projects are ordered and disjoint and cover everything from the first
      project header to the end, platforms likewise in their project, and no body of an agent,
      options or provider section holds a table header. */
  lemma WellNested(lines: seq<string>)
    ensures FileOk(lines, ProjectSpans(lines))
  {
    hide *;
    var h, spans := ProjectStarts(lines), ProjectSpans(lines);
    SpansCount(lines);
    forall i | 0 <= i < |h|
      ensures h[i] < NextOf(h, i, |lines|) <= |lines| && spans[i].start == h[i]
          && ProjectOk(lines, spans[i], NextOf(h, i, |lines|))
    {
      ProjectBound(lines, i);
      SpansEntry(lines, i);
      StartIsProject(lines, i);
      ProjectIsOk(lines, h[i], NextOf(h, i, |lines|));
    }
    StartsListed(lines);
    FileIsOk(lines, spans, h);
  }

  lemma StartIsProject(lines: seq<string>, i: nat)
    requires i < |ProjectStarts(lines)| && ProjectStarts(lines)[i] < |lines|
    ensures MatchTableHeader(lines[ProjectStarts(lines)[i]], PROJECTS)
  {
    HitsAre(lines, Header(PROJECTS), 0);
    hide MatchTableHeader, Hits;
  }

  lemma StartsListed(lines: seq<string>)
    ensures AllListed(lines, PROJECTS, ProjectStarts(lines), 0, |lines|)
  {
    assert lines[0..|lines|] == lines;
    HitsListed(lines, 0, |lines|, PROJECTS);
    hide AllListed, Hits, MatchTableHeader;
  }

  lemma FileIsOk(lines: seq<string>, spans: seq<ProjectSpan>, h: seq<nat>)
    requires |spans| == |h| && AllListed(lines, PROJECTS, h, 0, |lines|)
    requires forall i :: 0 <= i < |h| ==>
      h[i] < NextOf(h, i, |lines|) <= |lines| && spans[i].start == h[i] && ProjectOk(lines, spans[i], NextOf(h, i, |lines|))
    ensures FileOk(lines, spans)
  {
    hide ProjectOk, MatchTableHeader;
    forall i | 0 <= i < |spans|
      ensures 0 <= spans[i].start < ProjectEnd(spans, i, |lines|) <= |lines|
          && ProjectOk(lines, spans[i], ProjectEnd(spans, i, |lines|))
    {
      if i + 1 < |h| { assert spans[i + 1].start == h[i + 1]; }
      assert ProjectEnd(spans, i, |lines|) == NextOf(h, i, |lines|);
    }
    assert SpanStarts(spans) == h;
  }
}
