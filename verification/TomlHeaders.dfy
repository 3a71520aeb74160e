/** Which lines are taken for a table header and which for the line of a key, told on the runes
    of the line, and what that means for the line index (config/config.go). */
module TomlHeaders {
  import opened Text
  import opened TomlLines
  import opened Search
  import opened TomlSpans
  import opened TomlValues
  import opened TomlSections
  import opened TomlEdits

  // ----- single lines

  /** From rune `k` on the line reads `word`, behind nothing but white space. */
  ghost predicate ReadsAt(line: string, word: string, k: nat) {
    k + |word| <= |line| && AllSpace(line[..k]) && line[k..k + |word|] == word
  }

  /** What may stand behind a header: nothing, or something set off by a blank, a tab or a hash. */
  ghost predicate SetOff(rest: string) {
    AllSpace(rest) || rest[0] in {' ', '\t', '#'}
  }

  /** Trimming begins where the white space in front ends. */
  lemma TrimBegins(line: string, k: nat) returns (b: nat)
    requires k < |line| && AllSpace(line[..k]) && !IsSpace(line[k])
    ensures k < b <= |line| && TrimSpace(line) == line[k..b] && AllSpace(line[b..]) && !IsSpace(line[b - 1])
  {
    hide *;
    var rest := line[k..];
    assert line == line[..k] + rest && rest[0] == line[k];
    TrimLeftPadded(line[..k], rest);
    TrimSpaceIs(line);
    var n := TrimRightSlice(rest);
    TrimRightHead(rest);
    b := k + n;
    assert rest[..n] == line[k..b] && rest[n..] == line[b..] && rest[n - 1] == line[b - 1];
  }

  lemma TrimSpaceIs(s: string)
    ensures TrimSpace(s) == TrimRight(TrimLeft(s))
  {
  }

  lemma BeforeSpace(line: string, b: nat, i: nat)
    requires b <= |line| && AllSpace(line[b..]) && i < |line| && !IsSpace(line[i])
    ensures i < b
  {
    hide *;
    if b <= i { SpaceAt(line, b, i); }
  }

  lemma SpaceAt(line: string, b: nat, i: nat)
    requires b <= i < |line| && AllSpace(line[b..])
    ensures IsSpace(line[i])
  {
    assert line[b..][i - b] == line[i];
  }

  /** A line is taken for a header exactly if it is that header, indented or not, with nothing
      behind it that is not set off. */
  lemma HeaderIff(line: string, header: string)
    requires header != "" && Trimmed(header)
    ensures MatchTableHeader(line, header) <==> exists k: nat :: ReadsAt(line, header, k) && SetOff(line[k + |header|..])
  {
    if MatchTableHeader(line, header) {
      HeaderReads(line, header);
    }
    forall k: nat | ReadsAt(line, header, k) && SetOff(line[k + |header|..])
      ensures MatchTableHeader(line, header)
    {
      ReadHeader(line, header, k);
    }
  }

  lemma HeaderReads(line: string, header: string)
    requires header != "" && Trimmed(header) && MatchTableHeader(line, header)
    ensures exists k: nat :: ReadsAt(line, header, k) && SetOff(line[k + |header|..])
  {
    var a, b := TrimSpaceSlice(line);
    hide TrimSpace, IsSpace;
    var t, n := line[a..b], |header|;
    assert t[..n] == header == line[a..a + n];
    if |t| == n {
      assert line[a + n..] == line[b..];
    } else {
      assert line[a + n..][0] == t[n];
    }
    assert ReadsAt(line, header, a) && SetOff(line[a + n..]);
  }

  lemma ReadHeader(line: string, header: string, k: nat)
    requires header != "" && Trimmed(header) && ReadsAt(line, header, k) && SetOff(line[k + |header|..])
    ensures MatchTableHeader(line, header)
  {
    var n := |header|;
    assert line[k..k + n][0] == line[k] && line[k..k + n][n - 1] == line[k + n - 1];
    hide TrimSpace, IsSpace;
    var b := TrimBegins(line, k);
    BeforeSpace(line, b, k + n - 1);
    assert line[k..b][..n] == header;
    if b > k + n {
      assert line[k + n..][b - 1 - k - n] == line[b - 1];
      assert line[k..b][n] == line[k + n..][0];
    }
  }

  /** A line is taken for some header exactly if its first rune behind white space is a bracket. */
  lemma AnyHeaderIff(line: string)
    ensures IsAnyTableHeader(line) <==> exists k: nat :: ReadsAt(line, "[", k)
  {
    if IsAnyTableHeader(line) {
      var a, b := TrimSpaceSlice(line);
      hide TrimSpace, IsSpace;
      assert line[a..b][..1] == "[" == line[a..a + 1];
      assert ReadsAt(line, "[", a);
    }
    forall k: nat | ReadsAt(line, "[", k)
      ensures IsAnyTableHeader(line)
    {
      assert line[k..k + 1][0] == line[k];
      var b := TrimBegins(line, k);
      assert line[k..b][..1] == line[k..k + 1];
      hide TrimSpace;
    }
  }

  /** The key stands in front, and the equals sign is what comes next, white space aside. */
  ghost predicate KeyAt(line: string, key: string, k: nat, n: nat) {
    && k + |key| <= n < |line| && AllSpace(line[..k]) && line[k..k + |key|] == key
    && AllSpace(line[k + |key|..n]) && line[n] == '='
  }

  /** A line is taken for that of a key exactly if it reads so. */
  lemma KeyIff(line: string, key: string)
    requires BareKey(key)
    ensures MatchTomlStringKey(line, key) <==> exists k: nat, n: nat :: KeyAt(line, key, k, n)
  {
    if MatchTomlStringKey(line, key) {
      KeyReads(line, key);
    }
    forall k: nat, n: nat | KeyAt(line, key, k, n)
      ensures MatchTomlStringKey(line, key)
    {
      ReadKey(line, key, k, n);
    }
  }

  lemma KeyReads(line: string, key: string)
    requires BareKey(key) && MatchTomlStringKey(line, key)
    ensures exists k: nat, n: nat :: KeyAt(line, key, k, n)
  {
    var a, b := TrimSpaceSlice(line);
    var t := line[a..b];
    var rest := t[|key|..];
    var c, d := TrimSpaceSlice(rest);
    hide TrimSpace, IsSpace, BareKey;
    assert rest[c..d][..1] == "=" && rest[c..d][0] == rest[c];
    KeyPlace(line, key, a, b, c);
  }

  lemma KeyPlace(line: string, key: string, a: nat, b: nat, c: nat)
    requires a <= b <= |line| && AllSpace(line[..a]) && key <= line[a..b]
    requires var rest := line[a..b][|key|..]; c < |rest| && rest[c] == '=' && AllSpace(rest[..c])
    ensures KeyAt(line, key, a, a + |key| + c)
  {
    hide IsSpace;
    var t, rest := line[a..b], line[a..b][|key|..];
    assert rest[c] == t[|key| + c] == line[a + |key| + c];
    assert t[..|key|] == line[a..a + |key|];
    assert rest[..c] == line[a + |key|..a + |key| + c];
  }

  lemma ReadKey(line: string, key: string, k: nat, n: nat)
    requires BareKey(key) && KeyAt(line, key, k, n)
    ensures MatchTomlStringKey(line, key)
  {
    assert line[k..k + |key|][0] == line[k];
    BareNotSpace(key[0]);
    assert !IsSpace('=') && key[0] != '#' && key[0] != '[';
    hide TrimSpace, IsSpace, BareKey;
    var b := TrimBegins(line, k);
    BeforeSpace(line, b, n);
    var t := line[k..b];
    assert t[..|key|] == key;
    var rest := t[|key|..];
    var m := n - k - |key|;
    assert rest[m] == line[n] && rest[..m] == line[k + |key|..n];
    var d := TrimBegins(rest, m);
    assert rest[m..d][..1] == "=";
  }

  /** A table is never taken for one with another name: the names end at the first closing
      bracket, so neither may be longer. */
  lemma NamesDecide(line: string, k: nat, name: string, rest: string, other: string, tail: string)
    requires k <= |line| && AllSpace(line[..k]) && line[k..] == name + "]" + rest
    requires name != "" && !IsSpace(name[0]) && other != "" && !IsSpace(other[0]) && ']' !in name && ']' !in other
    requires tail in {"]", "]]"} && MatchTableHeader(line, other + tail)
    ensures other == name
  {
    var h := other + tail;
    assert h[0] == other[0] && h[|h| - 1] == ']';
    assert !IsSpace(']');
    HeaderReads(line, h);
    hide MatchTableHeader, IsSpace, SetOff, AllSpace;
    var j: nat :| ReadsAt(line, h, j) && SetOff(line[j + |h|..]);
    assert line[j..j + |h|][0] == line[j] == h[0] && line[k..][0] == line[k] == name[0];
    SameStart(line, j, k);
    assert line[k..][..|h|] == h;
    SameName(line[k..], name, rest, other, tail);
  }

  lemma SameName(r: string, name: string, rest: string, other: string, tail: string)
    requires r == name + "]" + rest && other + tail <= r && tail in {"]", "]]"} && ']' !in name && ']' !in other
    ensures other == name
  {
    assert r[|name|] == ']' && r[..|name|] == name;
    assert r[|other|] == (other + tail)[|other|] == ']' && r[..|other|] == (other + tail)[..|other|] == other;
    EndsFirst(r, name, other);
    EndsFirst(r, other, name);
  }

  /** A name without the bracket does not reach beyond the first one. */
  lemma EndsFirst(r: string, name: string, other: string)
    requires |name| < |r| && r[|name|] == ']' && other <= r && ']' !in other
    ensures |other| <= |name|
  {
    assert forall i :: 0 <= i < |other| ==> other[i] == r[i];
  }

  /** Two places with nothing but white space in front and none there are the same. */
  lemma SameStart(line: string, j: nat, k: nat)
    requires j < |line| && k < |line| && AllSpace(line[..j]) && AllSpace(line[..k]) && !IsSpace(line[j]) && !IsSpace(line[k])
    ensures j == k
  {
    hide *;
    if j < k { SpaceBefore(line, k, j); }
    if k < j { SpaceBefore(line, j, k); }
  }

  lemma SpaceBefore(line: string, a: nat, i: nat)
    requires i < a <= |line| && AllSpace(line[..a])
    ensures IsSpace(line[i])
  {
    assert line[..a][i] == line[i];
  }

  // ----- the index of a file

  /** The two lines are alike to the index: taken for the same headers and for the same keys. */
  ghost predicate Alike(a: string, b: string) {
    && IsAnyTableHeader(a) == IsAnyTableHeader(b)
    && (forall h :: h in {PROJECTS, AGENT, AGENT_OPTIONS, PROVIDERS, PLATFORMS, PLATFORM_OPTIONS} ==>
          MatchTableHeader(a, h) == MatchTableHeader(b, h))
    && (forall key :: key in {TYPE, "name"} ==> MatchTomlStringKey(a, key) == MatchTomlStringKey(b, key))
  }

  ghost predicate SameHits(a: seq<string>, b: seq<string>, p: string -> bool) {
    |a| == |b| && forall i :: 0 <= i < |a| ==> p(a[i]) == p(b[i])
  }

  lemma {:induction false} FirstSame(a: seq<string>, b: seq<string>, p: string -> bool)
    requires SameHits(a, b, p)
    ensures First(a, p) == First(b, p)
  {
    if a != [] {
      assert forall i :: 0 <= i < |a| - 1 ==> a[1..][i] == a[i + 1] && b[1..][i] == b[i + 1];
      FirstSame(a[1..], b[1..], p);
    }
  }

  lemma {:induction false} LastSame(a: seq<string>, b: seq<string>, p: string -> bool)
    requires SameHits(a, b, p)
    ensures Last(a, p) == Last(b, p)
  {
    if a != [] {
      LastSame(a[..|a| - 1], b[..|b| - 1], p);
    }
  }

  lemma {:induction false} HitsSame(a: seq<string>, b: seq<string>, p: string -> bool, off: nat)
    requires SameHits(a, b, p)
    ensures Hits(a, p, off) == Hits(b, p, off)
  {
    if a != [] {
      assert forall i :: 0 <= i < |a| - 1 ==> a[1..][i] == a[i + 1] && b[1..][i] == b[i + 1];
      HitsSame(a[1..], b[1..], p, off + 1);
    }
  }

  ghost predicate AllAlike(a: seq<string>, b: seq<string>) {
    |a| == |b| && forall i :: 0 <= i < |a| ==> Alike(a[i], b[i])
  }

  lemma AlikeSlice(a: seq<string>, b: seq<string>, lo: nat, hi: nat)
    requires AllAlike(a, b) && lo <= hi <= |a|
    ensures AllAlike(a[lo..hi], b[lo..hi])
  {
    hide Alike;
  }

  lemma AlikeHits(a: seq<string>, b: seq<string>)
    requires AllAlike(a, b)
    ensures SameHits(a, b, AnyHeader())
    ensures SameHits(a, b, Header(PROJECTS)) && SameHits(a, b, Header(AGENT)) && SameHits(a, b, Header(AGENT_OPTIONS))
    ensures SameHits(a, b, Header(PROVIDERS)) && SameHits(a, b, Header(PLATFORMS)) && SameHits(a, b, Header(PLATFORM_OPTIONS))
    ensures SameHits(a, b, ForKey(TYPE)) && SameHits(a, b, ForKey("name"))
  {
    hide MatchTableHeader, MatchTomlStringKey, IsAnyTableHeader;
  }

  lemma SectionEndSame(a: seq<string>, b: seq<string>, at: nat, hi: nat)
    requires AllAlike(a, b) && at < hi <= |a|
    ensures SectionEnd(a, at, hi) == SectionEnd(b, at, hi)
  {
    AlikeSlice(a, b, at + 1, hi);
    AlikeHits(a[at + 1..hi], b[at + 1..hi]);
    FirstSame(a[at + 1..hi], b[at + 1..hi], AnyHeader());
    hide Alike, First;
  }

  lemma ProviderSame(a: seq<string>, b: seq<string>, at: nat, hi: nat)
    requires AllAlike(a, b) && at < hi <= |a|
    ensures ProviderAt(a, at, hi) == ProviderAt(b, at, hi)
  {
    AlikeSlice(a, b, at + 1, hi);
    AlikeHits(a[at + 1..hi], b[at + 1..hi]);
    hide Alike, First;
    FirstSame(a[at + 1..hi], b[at + 1..hi], AnyHeader());
    FirstSame(a[at + 1..hi], b[at + 1..hi], ForKey("name"));
  }

  lemma PlatformSame(a: seq<string>, b: seq<string>, at: nat, hi: nat)
    requires AllAlike(a, b) && at < hi <= |a|
    ensures |a| == |b| && PlatformAt(a, at, hi) == PlatformAt(b, at, hi)
  {
    hide *;
    AlikeLength(a, b);
    AlikeSlice(a, b, at + 1, hi);
    var x, y := a[at + 1..hi], b[at + 1..hi];
    PlatformHits(x, y);
    var o := First(x, Header(PLATFORM_OPTIONS));
    if o < |x| { SectionEndSame(a, b, at + 1 + o, hi); }
    PlatformFields(a, at, hi);
    PlatformFields(b, at, hi);
    PlatformSpanFields(PlatformAt(a, at, hi), PlatformAt(b, at, hi));
  }

  lemma PlatformHits(x: seq<string>, y: seq<string>)
    requires AllAlike(x, y)
    ensures First(x, AnyHeader()) == First(y, AnyHeader()) && First(x, ForKey(TYPE)) == First(y, ForKey(TYPE))
    ensures First(x, Header(PLATFORM_OPTIONS)) == First(y, Header(PLATFORM_OPTIONS))
  {
    AlikeHits(x, y);
    hide AllAlike, SameHits, First;
    FirstSame(x, y, AnyHeader());
    FirstSame(x, y, ForKey(TYPE));
    FirstSame(x, y, Header(PLATFORM_OPTIONS));
  }

  lemma PlatformSpanFields(p: PlatformSpan, q: PlatformSpan)
    requires p.start == q.start && p.end == q.end && p.typeLine == q.typeLine
    requires p.optionsStart == q.optionsStart && p.optionsEnd == q.optionsEnd
    ensures p == q
  {
  }

  lemma PlatformsSame(a: seq<string>, b: seq<string>, starts: seq<nat>, hi: nat)
    requires AllAlike(a, b) && hi <= |a|
    ensures PlatformsOf(a, starts, hi) == PlatformsOf(b, starts, hi)
  {
    hide AllAlike, PlatformAt;
    AlikeLength(a, b);
    forall i | 0 <= i < |starts| && starts[i] < NextOf(starts, i, hi) <= |a|
      ensures PlatformAt(a, starts[i], NextOf(starts, i, hi)) == PlatformAt(b, starts[i], NextOf(starts, i, hi))
    {
      PlatformSame(a, b, starts[i], NextOf(starts, i, hi));
    }
  }

  lemma AlikeLength(a: seq<string>, b: seq<string>)
    requires AllAlike(a, b)
    ensures |a| == |b|
  {
    hide Alike;
  }

  lemma ProvidersSame(a: seq<string>, b: seq<string>, starts: seq<nat>, hi: nat)
    requires AllAlike(a, b) && hi <= |a|
    ensures |a| == |b| && ProvidersOf(a, starts, hi) == ProvidersOf(b, starts, hi)
  {
    hide AllAlike, ProviderAt;
    AlikeLength(a, b);
    forall i | 0 <= i < |starts| && starts[i] < hi
      ensures ProviderAt(a, starts[i], hi) == ProviderAt(b, starts[i], hi)
    {
      ProviderSame(a, b, starts[i], hi);
    }
  }

  lemma TableSame(a: seq<string>, b: seq<string>, at: nat, hi: nat, header: string)
    requires AllAlike(a, b) && at < hi <= |a| == |b| && SameHits(a[at + 1..hi], b[at + 1..hi], Header(header))
    ensures var l := Last(a[at + 1..hi], Header(header));
      l == Last(b[at + 1..hi], Header(header)) && (l >= 0 ==> SectionEnd(a, at + 1 + l, hi) == SectionEnd(b, at + 1 + l, hi))
  {
    hide AllAlike, SameHits, Last, SectionEnd;
    LastSame(a[at + 1..hi], b[at + 1..hi], Header(header));
    var l := Last(a[at + 1..hi], Header(header));
    if l >= 0 { SectionEndSame(a, b, at + 1 + l, hi); }
  }

  lemma ListsSame(a: seq<string>, b: seq<string>, at: nat, hi: nat)
    requires AllAlike(a, b) && at < hi <= |a|
    ensures |a| == |b|
    ensures PlatformsOf(a, Hits(a[at + 1..hi], Header(PLATFORMS), at + 1), hi)
         == PlatformsOf(b, Hits(b[at + 1..hi], Header(PLATFORMS), at + 1), hi)
    ensures ProvidersOf(a, Hits(a[at + 1..hi], Header(PROVIDERS), at + 1), hi)
         == ProvidersOf(b, Hits(b[at + 1..hi], Header(PROVIDERS), at + 1), hi)
  {
    AlikeLength(a, b);
    AlikeSlice(a, b, at + 1, hi);
    var x, y := a[at + 1..hi], b[at + 1..hi];
    AlikeHits(x, y);
    hide AllAlike, SameHits, Hits, PlatformsOf, ProvidersOf;
    HitsSame(x, y, Header(PLATFORMS), at + 1);
    HitsSame(x, y, Header(PROVIDERS), at + 1);
    PlatformsSame(a, b, Hits(x, Header(PLATFORMS), at + 1), hi);
    ProvidersSame(a, b, Hits(x, Header(PROVIDERS), at + 1), hi);
  }

  lemma ProjectSame(a: seq<string>, b: seq<string>, at: nat, hi: nat)
    requires AllAlike(a, b) && at < hi <= |a|
    ensures |a| == |b| && ProjectAt(a, at, hi) == ProjectAt(b, at, hi)
  {
    hide *;
    AlikeLength(a, b);
    AlikeSlice(a, b, at + 1, hi);
    AlikeHits(a[at + 1..hi], b[at + 1..hi]);
    TableSame(a, b, at, hi, AGENT);
    TableSame(a, b, at, hi, AGENT_OPTIONS);
    ListsSame(a, b, at, hi);
    ProjectFields(a, at, hi);
    ProjectFields(b, at, hi);
    SpanFields(ProjectAt(a, at, hi), ProjectAt(b, at, hi));
  }

  lemma SpanFields(p: ProjectSpan, q: ProjectSpan)
    requires p.start == q.start && p.end == q.end && p.platforms == q.platforms && p.agentProviders == q.agentProviders
    requires p.agentStart == q.agentStart && p.agentEnd == q.agentEnd
    requires p.agentOptionsStart == q.agentOptionsStart && p.agentOptionsEnd == q.agentOptionsEnd
    ensures p == q
  {
  }

  /** Files whose lines are alike have the same index. */
  lemma SpansSame(a: seq<string>, b: seq<string>)
    requires AllAlike(a, b)
    ensures ProjectSpans(a) == ProjectSpans(b)
  {
    AlikeLength(a, b);
    AlikeHits(a, b);
    HitsSame(a, b, Header(PROJECTS), 0);
    hide AllAlike, SameHits, Hits, ProjectAt;
    var starts := ProjectStarts(a);
    forall i | 0 <= i < |starts| && starts[i] < NextOf(starts, i, |a|) <= |a|
      ensures ProjectAt(a, starts[i], NextOf(starts, i, |a|)) == ProjectAt(b, starts[i], NextOf(starts, i, |a|))
    {
      ProjectSame(a, b, starts[i], NextOf(starts, i, |a|));
    }
  }

  // ----- comments behind headers

  /** A comment set off by blanks and tabs, or by nothing. */
  ghost predicate IsComment(tail: string) {
    exists k: nat :: k < |tail| && tail[k] == '#' && forall i :: 0 <= i < k ==> tail[i] in {' ', '\t'}
  }

  /** A header as it is written: in brackets, without blanks or a hash. */
  ghost predicate PlainHeader(h: string) {
    h != "" && Trimmed(h) && h[0] == '[' && forall i :: 0 <= i < |h| ==> h[i] !in {' ', '\t', '#'}
  }

  lemma CommentStarts(tail: string)
    requires IsComment(tail)
    ensures tail != "" && tail[0] in {' ', '\t', '#'} && SetOff(tail)
  {
    hide IsSpace;
  }

  lemma CommentHeader(line: string, tail: string, h: string, a: nat)
    requires ReadsAt(line, "[", a) && !IsSpace(line[|line| - 1]) && IsComment(tail) && PlainHeader(h)
    ensures MatchTableHeader(line, h) <==> MatchTableHeader(line + tail, h)
  {
    HeaderIff(line, h);
    HeaderIff(line + tail, h);
    CommentStarts(tail);
    assert line[a..a + 1][0] == line[a];
    hide MatchTableHeader, IsSpace, IsComment;
    forall k: nat | ReadsAt(line, h, k) && SetOff(line[k + |h|..])
      ensures ReadsAt(line + tail, h, k) && SetOff((line + tail)[k + |h|..])
    {
      StillSetOff(line, tail, h, k);
    }
    forall k: nat | ReadsAt(line + tail, h, k) && SetOff((line + tail)[k + |h|..])
      ensures ReadsAt(line, h, k) && SetOff(line[k + |h|..])
    {
      WasSetOff(line, tail, h, k, a);
    }
  }

  lemma StillSetOff(line: string, tail: string, h: string, k: nat)
    requires ReadsAt(line, h, k) && SetOff(line[k + |h|..]) && SetOff(tail) && tail != "" && tail[0] in {' ', '\t', '#'}
    requires h != "" && !IsSpace(line[|line| - 1])
    ensures ReadsAt(line + tail, h, k) && SetOff((line + tail)[k + |h|..])
  {
    hide IsSpace;
    var rest := line[k + |h|..];
    assert (line + tail)[..k] == line[..k] && (line + tail)[k..k + |h|] == line[k..k + |h|];
    assert (line + tail)[k + |h|..] == rest + tail;
    if rest != "" { assert rest[|rest| - 1] == line[|line| - 1]; }
  }

  lemma WasSetOff(line: string, tail: string, h: string, k: nat, a: nat)
    requires ReadsAt(line + tail, h, k) && SetOff((line + tail)[k + |h|..]) && PlainHeader(h)
    requires a < |line| && AllSpace(line[..a]) && line[a] == '[' && !IsSpace(line[|line| - 1])
    requires tail != "" && tail[0] in {' ', '\t', '#'}
    ensures ReadsAt(line, h, k) && SetOff(line[k + |h|..])
  {
    var all := line + tail;
    assert !IsSpace('[');
    hide IsSpace;
    assert all[k..k + |h|][0] == all[k] == '[' && all[a] == '[' && all[..a] == line[..a];
    SameStart(all, k, a);
    HeaderInside(line, tail, h, k);
    assert all[..k] == line[..k] && all[k..k + |h|] == line[k..k + |h|];
    var rest := line[k + |h|..];
    assert all[k + |h|..] == rest + tail;
    if rest != "" {
      assert rest[|rest| - 1] == line[|line| - 1] == (rest + tail)[|rest| - 1];
      assert (rest + tail)[0] == rest[0];
    }
  }

  lemma HeaderInside(line: string, tail: string, h: string, k: nat)
    requires k < |line| && k + |h| <= |line + tail| && (line + tail)[k..k + |h|] == h
    requires tail != "" && tail[0] in {' ', '\t', '#'} && forall i :: 0 <= i < |h| ==> h[i] !in {' ', '\t', '#'}
    ensures k + |h| <= |line|
  {
    assert forall j :: k <= j < k + |h| ==> (line + tail)[j] == h[j - k];
    assert (line + tail)[|line|] == tail[0];
  }

  lemma HeadersPlain(h: string)
    requires h in {PROJECTS, AGENT, AGENT_OPTIONS, PROVIDERS, PLATFORMS, PLATFORM_OPTIONS}
    ensures PlainHeader(h)
  {
    hide *;
    ProjectHeadersPlain();
    PlatformHeadersPlain();
  }

  lemma ProjectHeadersPlain()
    ensures PlainHeader(PROJECTS) && PlainHeader(AGENT) && PlainHeader(AGENT_OPTIONS)
  {
    assert !IsSpace('[') && !IsSpace(']');
    hide IsSpace;
  }

  lemma PlatformHeadersPlain()
    ensures PlainHeader(PROVIDERS) && PlainHeader(PLATFORMS) && PlainHeader(PLATFORM_OPTIONS)
  {
    assert !IsSpace('[') && !IsSpace(']');
    hide IsSpace;
  }

  /** A comment behind a table header makes no difference to the index. */
  lemma CommentAlike(line: string, tail: string)
    requires IsAnyTableHeader(line) && !IsSpace(line[|line| - 1]) && IsComment(tail)
    ensures Alike(line, line + tail)
  {
    AnyHeaderIff(line);
    AnyHeaderIff(line + tail);
    hide MatchTableHeader, IsSpace, IsComment, TrimSpace, PlainHeader, SetOff;
    var a: nat :| ReadsAt(line, "[", a);
    assert (line + tail)[..a] == line[..a] && (line + tail)[a..a + 1] == line[a..a + 1];
    assert ReadsAt(line + tail, "[", a);
    forall h | h in {PROJECTS, AGENT, AGENT_OPTIONS, PROVIDERS, PLATFORMS, PLATFORM_OPTIONS}
      ensures MatchTableHeader(line, h) == MatchTableHeader(line + tail, h)
    {
      HeadersPlain(h);
      CommentHeader(line, tail, h, a);
    }
  }

  /** A comment added behind a table header, any table header, leaves the index as it is. */
  lemma CommentKeepsSpans(lines: seq<string>, i: nat, tail: string)
    requires i < |lines| && IsAnyTableHeader(lines[i]) && !IsSpace(lines[i][|lines[i]| - 1]) && IsComment(tail)
    ensures ProjectSpans(lines[i := lines[i] + tail]) == ProjectSpans(lines)
  {
    CommentAlike(lines[i], tail);
    hide Alike, IsComment, IsAnyTableHeader, ProjectSpans, IsSpace;
    var after := lines[i := lines[i] + tail];
    forall k | 0 <= k < |lines|
      ensures Alike(lines[k], after[k])
    {
      if k != i { SelfAlike(lines[k]); }
    }
    SpansSame(lines, after);
  }

  lemma SelfAlike(line: string)
    ensures Alike(line, line)
  {
  }

  /** So no second options table is made beside one that has a comment or is indented. */
  lemma NoSecondTable(s: seq<string>, i: nat, k: nat)
    requires s != [] && i < |s| && ReadsAt(s[i], "[projects.agent.options]", k) && SetOff(s[i][k + 24..])
    ensures OptionsAt(s) >= i && WithOptions(s) == s
  {
    ProjectHeadersPlain();
    HeaderIff(s[i], AGENT_OPTIONS);
    hide MatchTableHeader, ReadsAt, SetOff, PlainHeader;
    var p := Header(AGENT_OPTIONS);
    assert p(s[i]);
    LastIs(s, p);
    hide Last, Missing;
  }

  // ----- the tables that are made

  lemma {:induction false} QuotedPlain(v: string, wide: Printable)
    requires forall i :: 0 <= i < |v| ==> 'a' <= v[i] <= 'z'
    ensures QuoteBody(v, wide) == v && AllReadable(v)
  {
    if v != "" {
      QuotedPlain(v[1..], wide);
      assert [v[0]] + v[1..] == v;
      AllReadableHead(v);
    }
  }

  lemma TypeLine(wide: Printable)
    ensures AGENT_TYPE == KeyLine("type", "claudecode", wide) && AllReadable("claudecode") && BareKey("type")
  {
    QuotedPlain("claudecode", wide);
    KeyLineIs("type", "claudecode", wide);
    hide *;
    TypeSpelled();
    assert QuoteBody("claudecode", wide) == "claudecode";
  }

  lemma KeyLineIs(key: string, value: string, wide: Printable)
    ensures KeyLine(key, value, wide) == key + " = " + ("\"" + QuoteBody(value, wide) + "\"")
  {
    hide QuoteBody;
  }

  lemma TypeSpelled()
    ensures "type" + " = " + ("\"" + "claudecode" + "\"") == AGENT_TYPE && BareKey("type")
  {
    assert "\"" + "claudecode" + "\"" == "\"claudecode\"";
    assert "type" + " = " == "type = ";
    assert "type = " + "\"claudecode\"" == AGENT_TYPE;
  }

  /** The line of the made agent table is no header and reads as the default type. */
  lemma TypeReads(wide: Printable)
    ensures MatchTomlStringKey(AGENT_TYPE, "type") && !IsAnyTableHeader(AGENT_TYPE) && ReadKeyLine(AGENT_TYPE, "type") == Some("claudecode")
  {
    hide *;
    TypeLine(wide);
    NewLineReads("type", "claudecode", wide);
  }

  /** In a project without agent tables the edit makes one whose type is the default, and its
      options table. */
  lemma NewAgentTable(s: seq<string>)
    requires s != [] && AgentAt(s) < 0 && OptionsAt(s) < 0
    ensures var t := WithOptions(s);
      && 0 <= AgentAt(t) < OptionsAt(t) < |t| && t[AgentAt(t)] == "[projects.agent]"
      && ValueOf(Cut(t, AgentAt(t)).body, "type") == Some("claudecode")
  {
    hide *;
    WithOptionsNew(s);
    MadeBlock(s);
    var at := Missing(s).0;
    var front, rest := s[..at] + [""], ["", AGENT_OPTIONS] + s[at..];
    NoAgentBehind(s, at);
    var sec := Section(front, AGENT, [AGENT_TYPE, ""], [AGENT_OPTIONS] + s[at..]);
    AgentHere();
    LastOf(front, AGENT, [AGENT_TYPE] + rest, Header(AGENT));
    AgentIs(WithOptions(s));
    MadeSection(s, at, sec);
    CutUnique(sec);
    TypeFirst();
  }

  lemma AgentHere()
    ensures AGENT == "[projects.agent]" && Header(AGENT)(AGENT) && IsAnyTableHeader(AGENT_OPTIONS) && !IsAnyTableHeader("")
  {
    HeaderMatchesItself(AGENT_OPTIONS);
    HeaderMatchesItself(AGENT);
    BlankIsNoHeader();
    hide MatchTableHeader, IsAnyTableHeader;
  }

  lemma AgentIs(s: seq<string>)
    ensures AgentAt(s) == Last(s, Header(AGENT))
  {
  }

  lemma MadeBlock(s: seq<string>)
    requires s != [] && AgentAt(s) < 0
    ensures Missing(s).1 == ["", AGENT, AGENT_TYPE, "", AGENT_OPTIONS]
  {
    hide AgentAt, Cut;
  }

  /** Nothing from the made type line on is an agent header. */
  lemma NoAgentBehind(s: seq<string>, at: nat)
    requires AgentAt(s) < 0 && at <= |s|
    ensures Free([AGENT_TYPE] + (["", AGENT_OPTIONS] + s[at..]), Header(AGENT))
  {
    hide *;
    AgentIs(s);
    LastNone(s, Header(AGENT));
    assert s == s[..at] + s[at..];
    FreeConcat(s[..at], s[at..], Header(AGENT));
    TypeReads(c => true);
    AgentHere();
    OptionsNoAgent();
    NotTheHeader(AGENT_TYPE);
    NotTheHeader("");
    FreeThree(AGENT_TYPE, "", AGENT_OPTIONS, s[at..], Header(AGENT));
  }

  lemma FreeThree(a: string, b: string, c: string, rest: seq<string>, p: string -> bool)
    requires !p(a) && !p(b) && !p(c) && Free(rest, p)
    ensures Free([a] + ([b, c] + rest), p)
  {
  }

  lemma OptionsNoAgent()
    ensures !MatchTableHeader(AGENT_OPTIONS, AGENT) && !Header(AGENT)(AGENT_OPTIONS)
  {
    assert |AGENT| == 16 && AGENT[15] == ']' && |AGENT_OPTIONS| == 24 && AGENT_OPTIONS[15] == '.';
    AgentHere();
    hide MatchTableHeader, AGENT, AGENT_OPTIONS;
    OptionsMatch();
    HeadersDiffer(AGENT_OPTIONS, AGENT_OPTIONS, AGENT, 15);
  }

  lemma OptionsMatch()
    ensures MatchTableHeader(AGENT_OPTIONS, AGENT_OPTIONS)
  {
    HeaderMatchesItself(AGENT_OPTIONS);
  }

  lemma NotTheHeader(line: string)
    requires !IsAnyTableHeader(line)
    ensures !MatchTableHeader(line, AGENT) && !Header(AGENT)(line)
  {
    if MatchTableHeader(line, AGENT) { HeaderIsAny(line, AGENT); }
    hide MatchTableHeader, IsAnyTableHeader;
  }

  lemma MadeSection(s: seq<string>, at: nat, sec: Section)
    requires at <= |s| && sec == Section(s[..at] + [""], AGENT, [AGENT_TYPE, ""], [AGENT_OPTIONS] + s[at..])
    ensures Proper(sec)
    ensures sec.Lines() == s[..at] + ["", AGENT, AGENT_TYPE, "", AGENT_OPTIONS] + s[at..]
    ensures sec.Lines() == (s[..at] + [""]) + [AGENT] + ([AGENT_TYPE] + (["", AGENT_OPTIONS] + s[at..]))
  {
    hide *;
    AgentHere();
    TypeReads(c => true);
    MadeLines(s[..at], "", AGENT, AGENT_TYPE, AGENT_OPTIONS, s[at..]);
  }

  lemma MadeLines(x: seq<string>, blank: string, agent: string, kind: string, options: string, y: seq<string>)
    requires !IsAnyTableHeader(blank) && !IsAnyTableHeader(kind) && IsAnyTableHeader(options)
    ensures var sec := Section(x + [blank], agent, [kind, blank], [options] + y);
      && Proper(sec) && sec.Lines() == x + [blank, agent, kind, blank, options] + y
      && sec.Lines() == (x + [blank]) + [agent] + ([kind] + ([blank, options] + y))
  {
    hide IsAnyTableHeader;
  }

  lemma TypeFirst()
    ensures ValueOf([AGENT_TYPE, ""], "type") == Some("claudecode")
  {
    TypeReads(c => true);
    hide MatchTomlStringKey, ReadKeyLine;
    assert ForKey("type")([AGENT_TYPE, ""][0]);
  }
}
