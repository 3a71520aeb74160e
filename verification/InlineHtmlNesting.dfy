/** Tags of the rendered text: when they nest, and how often runes are escaped
    (core/markdown_html.go, convertInlineHTML). */
module InlineHtmlNesting {
  import opened InlineTokens
  import opened InlineHtml
  import opened InlineHtmlProperties
  import opened InlineRestore

  predicate InAddressOnTop(open: seq<Frame>) {
    open != [] && open[|open| - 1] == InAddress
  }

  /** What stands in front of the end of a link's address. */
  function Address(ts: Tokens): Tokens {
    if ts == [] || ts[0].LinkMid? then [] else [ts[0]] + Address(ts[1..])
  }

  /** A link with a placeholder key in its address. */
  ghost predicate KeyInAddress(html: Tokens) {
    html != [] && html[0].LinkOpen? && !NoKeys(Address(html[1..]))
  }

  /** Html that leaves any open tags as they were and may stand anywhere but in an address, or,
      with a key in its own address, nowhere. */
  ghost predicate Uniform(html: Tokens) {
    forall open: seq<Frame> ::
      Run(Stack(open), html) == if InAddressOnTop(open) || KeyInAddress(html) then Fail else Stack(open)
  }

  lemma RunOne(st: Nesting, t: Token)
    ensures Run(st, [t]) == Next(st, t)
  {
    assert Run(Next(st, t), [t][1..]) == Next(st, t);
  }

  lemma RunCons(st: Nesting, t: Token, ts: Tokens)
    ensures Run(st, [t] + ts) == Run(Next(st, t), ts)
  {
    assert ([t] + ts)[1..] == ts;
  }

  /** One tag around runes and keys. */
  lemma RunTagged(open: seq<Frame>, tag: Tag, inner: Tokens)
    requires Flat(inner)
    ensures Run(Stack(open), [Open(tag)] + inner + [Close(tag)]) == if InAddressOnTop(open) then Fail else Stack(open)
  {
    var ts := inner + [Close(tag)];
    assert [Open(tag)] + inner + [Close(tag)] == [Open(tag)] + ts;
    RunCons(Stack(open), Open(tag), ts);
    if InAddressOnTop(open) {
      RunFail(ts);
    } else {
      var deeper := open + [InTag(tag)];
      RunConcat(Stack(deeper), inner, [Close(tag)]);
      RunFlat(deeper, inner);
      RunOne(Stack(deeper), Close(tag));
      assert deeper[..|open|] == open;
    }
  }

  lemma RunTaggedTwice(open: seq<Frame>, t1: Tag, t2: Tag, inner: Tokens)
    requires Flat(inner)
    ensures Run(Stack(open), [Open(t1), Open(t2)] + inner + [Close(t2), Close(t1)]) ==
        if InAddressOnTop(open) then Fail else Stack(open)
  {
    var mid := [Open(t2)] + inner + [Close(t2)];
    var ts := mid + [Close(t1)];
    assert [Open(t1), Open(t2)] + inner + [Close(t2), Close(t1)] == [Open(t1)] + ts;
    RunCons(Stack(open), Open(t1), ts);
    if InAddressOnTop(open) {
      RunFail(ts);
    } else {
      var deeper := open + [InTag(t1)];
      RunConcat(Stack(deeper), mid, [Close(t1)]);
      RunTagged(deeper, t2, inner);
      RunOne(Stack(deeper), Close(t1));
      assert deeper[..|open|] == open;
    }
  }

  /** A link nests exactly if its address holds no key. */
  lemma RunLink(open: seq<Frame>, url: Tokens, inner: Tokens)
    requires Flat(url) && Flat(inner)
    ensures Run(Stack(open), [LinkOpen] + url + [LinkMid] + inner + [LinkClose])
         == if InAddressOnTop(open) || !NoKeys(url) then Fail else Stack(open)
  {
    var tail := [LinkMid] + (inner + [LinkClose]);
    var ts := url + tail;
    assert [LinkOpen] + url + [LinkMid] + inner + [LinkClose] == [LinkOpen] + ts;
    RunCons(Stack(open), LinkOpen, ts);
    if InAddressOnTop(open) {
      RunFail(ts);
    } else {
      var deeper := open + [InAddress];
      RunConcat(Stack(deeper), url, tail);
      RunFlat(deeper, url);
      if NoKeys(url) {
        RunCons(Stack(deeper), LinkMid, inner + [LinkClose]);
        RunLinkText(open, inner);
        assert deeper[..|open|] == open;
      } else {
        RunFail(tail);
      }
    }
  }

  lemma RunLinkText(open: seq<Frame>, inner: Tokens)
    requires Flat(inner)
    ensures Run(Stack(open + [InLink]), inner + [LinkClose]) == Stack(open)
  {
    var inside := open + [InLink];
    RunConcat(Stack(inside), inner, [LinkClose]);
    RunFlat(inside, inner);
    RunOne(Stack(inside), LinkClose);
    assert inside[..|open|] == open;
  }

  lemma {:induction false} EscapedFlat(ts: Tokens)
    requires Flat(ts)
    ensures Flat(Escaped(ts)) && (NoKeys(Escaped(ts)) <==> NoKeys(ts))
  {
    if ts != [] {
      assert forall i :: 0 <= i < |ts| - 1 ==> ts[1..][i] == ts[i + 1];
      EscapedFlat(ts[1..]);
      var r := Escaped(ts);
      assert forall i :: 0 < i < |r| ==> r[i] == Escaped(ts[1..])[i - 1];
      NoKeysCons(ts);
      NoKeysCons(r);
      assert r[1..] == Escaped(ts[1..]);
    }
  }

  lemma NoKeysCons(ts: Tokens)
    requires ts != []
    ensures NoKeys(ts) <==> !ts[0].Key? && NoKeys(ts[1..])
  {
    assert forall i :: 0 < i < |ts| ==> ts[i] == ts[1..][i - 1];
    if NoKeys(ts) {
      assert forall i :: 0 <= i < |ts| - 1 ==> ts[1..][i] == ts[i + 1];
    }
  }

  /** Stored html nests exactly if it is not a link with a key in its address. */
  lemma HtmlRun(kind: Kind, ts: Tokens, m: Match, open: seq<Frame>)
    requires m.lo <= m.hi <= m.urlLo <= m.urlHi <= |ts| && Flat(ts)
    ensures Run(Stack(open), Html(kind, ts, m))
         == if InAddressOnTop(open) || (kind == Link && !NoKeys(ts[m.urlLo..m.urlHi])) then Fail else Stack(open)
  {
    var inner, url := ts[m.lo..m.hi], ts[m.urlLo..m.urlHi];
    EscapedFlat(inner);
    EscapedFlat(url);
    hide Run, Next, Escaped, NoKeys;
    match kind
    case CodeSpan => RunTagged(open, Code, Escaped(inner));
    case Link => RunLink(open, Escaped(url), Escaped(inner));
    case BoldItalic => RunTaggedTwice(open, Bold, Italic, inner);
    case BoldText => RunTagged(open, Bold, inner);
    case StrikeText => RunTagged(open, Strike, inner);
  }

  lemma HtmlUniform(kind: Kind, ts: Tokens, m: Match)
    requires m.lo <= m.hi <= m.urlLo <= m.urlHi <= |ts| && Flat(ts)
    ensures Uniform(Html(kind, ts, m))
    ensures KeyInAddress(Html(kind, ts, m)) <==> kind == Link && !NoKeys(ts[m.urlLo..m.urlHi])
  {
    HtmlAddress(kind, ts, m);
    hide Run, Html, NoKeys, KeyInAddress;
    forall open: seq<Frame>
      ensures Run(Stack(open), Html(kind, ts, m)) ==
          if InAddressOnTop(open) || KeyInAddress(Html(kind, ts, m)) then Fail else Stack(open)
    {
      HtmlRun(kind, ts, m, open);
    }
  }

  lemma {:induction false} AddressIs(url: Tokens, rest: Tokens)
    requires Flat(url)
    ensures Address(url + ([LinkMid] + rest)) == url
  {
    if url == [] {
      assert url + ([LinkMid] + rest) == [LinkMid] + rest;
    } else {
      assert forall i :: 0 <= i < |url| - 1 ==> url[1..][i] == url[i + 1];
      assert (url + ([LinkMid] + rest))[1..] == url[1..] + ([LinkMid] + rest);
      AddressIs(url[1..], rest);
      assert [url[0]] + url[1..] == url;
    }
  }

  lemma HtmlAddress(kind: Kind, ts: Tokens, m: Match)
    requires m.lo <= m.hi <= m.urlLo <= m.urlHi <= |ts| && Flat(ts)
    ensures KeyInAddress(Html(kind, ts, m)) <==> kind == Link && !NoKeys(ts[m.urlLo..m.urlHi])
  {
    hide NoKeys, Escaped, Address;
    if kind == Link {
      var inner, url := Escaped(ts[m.lo..m.hi]), ts[m.urlLo..m.urlHi];
      FlatSlice(ts, m.urlLo, m.urlHi);
      EscapedFlat(url);
      var tail := Escaped(url) + ([LinkMid] + (inner + [LinkClose]));
      assert Html(kind, ts, m) == [LinkOpen] + tail;
      assert ([LinkOpen] + tail)[1..] == tail;
      AddressIs(Escaped(url), inner + [LinkClose]);
    } else {
      assert Html(kind, ts, m)[0].Open?;
    }
  }

  // ----- nesting of the expansion

  /** No link that is reached from the text has a key in its address. */
  ghost predicate AddressesFree(ts: Tokens, phs: seq<Tokens>, b: nat)
    requires b <= |phs|
    decreases b, |ts|
  {
    ts != [] ==>
      && (ts[0].Key? && ts[0].n < b ==> !KeyInAddress(phs[ts[0].n]) && AddressesFree(phs[ts[0].n], phs, ts[0].n))
      && AddressesFree(ts[1..], phs, b)
  }

  ghost predicate AllUniform(phs: seq<Tokens>) {
    forall k :: 0 <= k < |phs| ==> Uniform(phs[k])
  }

  /** Expanding keys changes nothing about the tags around them, unless some link reached has a
      key in its address; then nothing nests. */
  lemma {:induction false} RunFull(st: Nesting, ts: Tokens, phs: seq<Tokens>, b: nat)
    requires b <= |phs| && AllUniform(phs)
    ensures Run(st, Full(ts, phs, b)) == if AddressesFree(ts, phs, b) then Run(st, ts) else Fail
    decreases b, |ts|
  {
    if ts != [] {
      var t, rest := ts[0], ts[1..];
      RunFull(Next(st, t), rest, phs, b);
      if t.Key? && t.n < b {
        RunFull(st, phs[t.n], phs, t.n);
        RunConcat(st, Full(phs[t.n], phs, t.n), Full(rest, phs, b));
        RunFail(Full(rest, phs, b));
        RunFail(phs[t.n]);
        KeyRuns(st, t.n, phs);
      } else {
        RunCons(st, t, Full(rest, phs, b));
      }
    }
  }

  lemma KeyRuns(st: Nesting, n: nat, phs: seq<Tokens>)
    requires n < |phs| && AllUniform(phs)
    ensures Run(st, phs[n]) == if KeyInAddress(phs[n]) then Fail else Next(st, Key(n))
  {
    RunFail(phs[n]);
    assert Uniform(phs[n]);
    if st.Stack? { assert Run(Stack(st.open), phs[n]) == Run(st, phs[n]); }
    hide Run, KeyInAddress;
  }

  // ----- the passes

  lemma FlatConcat(a: Tokens, b: Tokens)
    ensures Flat(a + b) <==> Flat(a) && Flat(b)
  {
    if Flat(a + b) {
      assert forall i :: 0 <= i < |a| ==> a[i] == (a + b)[i];
      assert forall i :: 0 <= i < |b| ==> b[i] == (a + b)[|a| + i];
    }
  }

  lemma FlatSlice(ts: Tokens, lo: nat, hi: nat)
    requires lo <= hi <= |ts| && Flat(ts)
    ensures Flat(ts[lo..hi])
  {
  }

  lemma {:induction false} KeyedFlat(ts: Tokens, ms: seq<Match>, from: nat, base: nat)
    requires Fits(ms, from, |ts|) && Flat(ts)
    ensures Flat(Keyed(ts, ms, from, base))
    decreases |ms|
  {
    FitsBelow(ms, from, |ts|);
    if ms == [] {
      FlatSlice(ts, from, |ts|);
      assert ts[from..|ts|] == ts[from..];
    } else {
      KeyedFlat(ts, ms[1..], ms[0].end, base + 1);
      KeyedIs(ts, ms, from, base);
      hide Keyed, Flat, Fits;
      FlatSlice(ts, from, ms[0].start);
      FlatKey(base);
      FlatConcat(ts[from..ms[0].start], [Key(base)]);
      FlatConcat(ts[from..ms[0].start] + [Key(base)], Keyed(ts, ms[1..], ms[0].end, base + 1));
    }
  }

  lemma FlatKey(n: nat)
    ensures Flat([Key(n)])
  {
  }

  lemma {:induction false} UnlinkedFlat(ts: Tokens, ms: seq<Match>, from: nat)
    requires Fits(ms, from, |ts|) && Flat(ts)
    ensures Flat(Unlinked(ts, ms, from))
    decreases |ms|
  {
    FitsBelow(ms, from, |ts|);
    if ms == [] {
      FlatSlice(ts, from, |ts|);
      assert ts[from..|ts|] == ts[from..];
    } else {
      var m := ms[0];
      UnlinkedFlat(ts, ms[1..], m.end);
      UnlinkedIs(ts, ms, from);
      hide Unlinked, Flat, Fits;
      FlatSlice(ts, from, m.start);
      FlatSlice(ts, m.lo, m.hi);
      FlatConcat(ts[from..m.start], ts[m.lo..m.hi]);
      FlatConcat(ts[from..m.start] + ts[m.lo..m.hi], Unlinked(ts, ms[1..], m.end));
    }
  }

  /** Runes and keys in the text; every html stored leaves open tags alone. */
  ghost predicate Orderly(st: State) {
    Flat(st.s) && AllUniform(st.phs)
  }

  ghost predicate EachFree(phs: seq<Tokens>) {
    forall k :: 0 <= k < |phs| ==> !KeyInAddress(phs[k])
  }

  /** No match of the link pattern has a key in its address. */
  ghost predicate AddressesPlain(ts: Tokens, ms: seq<Match>) {
    forall i :: 0 <= i < |ms| && ms[i].urlLo <= ms[i].urlHi <= |ts| ==> NoKeys(ts[ms[i].urlLo..ms[i].urlHi])
  }

  lemma StoredHtml(ts: Tokens, ms: seq<Match>, kind: Kind, i: nat)
    requires Fits(ms, 0, |ts|) && Flat(ts) && i < |ms|
    ensures |Stored(ts, ms, 0, kind)| == |ms| && Uniform(Stored(ts, ms, 0, kind)[i])
    ensures AddressesPlain(ts, ms) || kind != Link ==> !KeyInAddress(Stored(ts, ms, 0, kind)[i])
  {
    StoredEach(ts, ms, 0, kind, i);
    HtmlUniform(kind, ts, ms[i]);
    hide Html, Stored, Uniform, KeyInAddress, NoKeys, Fits, Flat;
  }

  lemma ExtractOrderly(st: State, p: Pattern, kind: Kind)
    requires IsPattern(p) && Orderly(st)
    ensures Orderly(Extract(st, p, kind))
    ensures EachFree(st.phs) && (AddressesPlain(st.s, p(st.s)) || kind != Link) ==> EachFree(Extract(st, p, kind).phs)
  {
    hide *;
    var ms := ExtractIs(st, p, kind);
    OrderlyIs(st);
    KeyedFlat(st.s, ms, 0, |st.phs|);
    forall i | 0 <= i < |ms|
      ensures Uniform(Stored(st.s, ms, 0, kind)[i])
      ensures AddressesPlain(st.s, ms) || kind != Link ==> !KeyInAddress(Stored(st.s, ms, 0, kind)[i])
    {
      StoredHtml(st.s, ms, kind, i);
    }
    HtmlConcat(st.phs, Stored(st.s, ms, 0, kind), AddressesPlain(st.s, ms) || kind != Link);
    OrderlyIs(Extract(st, p, kind));
  }

  lemma ExtractIs(st: State, p: Pattern, kind: Kind) returns (ms: seq<Match>)
    requires IsPattern(p)
    ensures ms == p(st.s) && Fits(ms, 0, |st.s|) && |Stored(st.s, ms, 0, kind)| == |ms|
    ensures Extract(st, p, kind) == State(Keyed(st.s, ms, 0, |st.phs|), st.phs + Stored(st.s, ms, 0, kind))
  {
    ms := p(st.s);
    assert Fits(ms, 0, |st.s|);
    StoredLength(st.s, ms, 0, kind);
    hide Html, Stored, Keyed, Fits;
  }

  lemma OrderlyIs(st: State)
    ensures Orderly(st) <==> Flat(st.s) && AllUniform(st.phs)
  {
  }

  lemma HtmlConcat(a: seq<Tokens>, b: seq<Tokens>, plain: bool)
    requires AllUniform(a) && forall i :: 0 <= i < |b| ==> Uniform(b[i]) && (plain ==> !KeyInAddress(b[i]))
    ensures AllUniform(a + b) && (EachFree(a) && plain ==> EachFree(a + b))
  {
    hide Uniform, KeyInAddress;
  }

  lemma {:induction false} InputFlat(text: string)
    ensures Flat(Input(text)) && EscapedTimes(Input(text), 0)
  {
    if text != "" { InputFlat(text[1..]); }
  }

  /** The text the link pattern is matched against. */
  ghost function BeforeLinks(text: string, p: Patterns): State
    requires ArePatterns(p)
  {
    Extract(State(Input(text), []), p.code, CodeSpan)
  }

  lemma ProtectedOrderly(text: string, p: Patterns)
    requires ArePatterns(p)
    ensures Orderly(Protected(text, p))
    ensures AddressesPlain(BeforeLinks(text, p).s, p.link(BeforeLinks(text, p).s)) ==> EachFree(Protected(text, p).phs)
  {
    InputFlat(text);
    var st := State(Input(text), []);
    assert Orderly(st) && EachFree(st.phs);
    hide Orderly, Extract, EachFree, AddressesPlain;
    ExtractOrderly(st, p.code, CodeSpan);
    ExtractOrderly(Extract(st, p.code, CodeSpan), p.link, Link);
  }

  lemma PlainOrderly(text: string, p: Patterns)
    requires ArePatterns(p)
    ensures Orderly(Plain(text, p)) && Plain(text, p).phs == Protected(text, p).phs
  {
    ProtectedOrderly(text, p);
    var st := Protected(text, p);
    var ms := p.wikilink(st.s);
    assert Fits(ms, 0, |st.s|);
    UnlinkedFlat(st.s, ms, 0);
    EscapedFlat(Unlinked(st.s, ms, 0));
    hide Protected, Flat, AllUniform, Unlinked, Escaped;
  }

  lemma FormattedOrderly(text: string, p: Patterns)
    requires ArePatterns(p)
    ensures Orderly(Formatted(text, p))
    ensures EachFree(Protected(text, p).phs) ==> EachFree(Formatted(text, p).phs)
  {
    PlainOrderly(text, p);
    var st := Plain(text, p);
    hide Orderly, Extract, Plain, Protected, EachFree, AddressesPlain;
    ExtractOrderly(st, p.boldItalic, BoldItalic);
    var st1 := Extract(st, p.boldItalic, BoldItalic);
    ExtractOrderly(st1, p.boldAst, BoldText);
    var st2 := Extract(st1, p.boldAst, BoldText);
    ExtractOrderly(st2, p.boldUnd, BoldText);
    ExtractOrderly(Extract(st2, p.boldUnd, BoldText), p.strike, StrikeText);
  }

  lemma {:induction false} SlantedNested(ts: Tokens, ms: seq<Match>, from: nat)
    requires Fits(ms, from, |ts|) && Flat(ts)
    ensures Nested(Slanted(ts, ms, from))
    decreases |ms|
  {
    FitsBelow(ms, from, |ts|);
    if ms == [] {
      FlatSlice(ts, from, |ts|);
      assert ts[from..|ts|] == ts[from..];
      RunFlat([], ts[from..]);
    } else {
      var m := ms[0];
      SlantedNested(ts, ms[1..], m.end);
      SlantedIs(ts, ms, from);
      hide Slanted, Flat, Fits, Run;
      FlatSlice(ts, from, m.start);
      RunFlat([], ts[from..m.start]);
      ItalicisedNested(ts, m);
      RunConcat(Stack([]), ts[from..m.start], Italicised(ts, m));
      RunConcat(Stack([]), ts[from..m.start] + Italicised(ts, m), Slanted(ts, ms[1..], m.end));
    }
  }

  lemma ItalicisedNested(ts: Tokens, m: Match)
    requires m.start <= m.lo <= m.hi <= m.end <= |ts| && Flat(ts)
    ensures Run(Stack([]), Italicised(ts, m)) == Stack([])
  {
    hide Run, Flat;
    if m.start < m.lo && m.hi < m.end {
      var a, b, c := ts[m.start..m.lo - 1], ts[m.lo..m.hi], ts[m.hi + 1..m.end];
      FlatSlice(ts, m.start, m.lo - 1);
      FlatSlice(ts, m.lo, m.hi);
      FlatSlice(ts, m.hi + 1, m.end);
      RunFlat([], a);
      RunTagged([], Italic, b);
      RunFlat([], c);
      var mid := [Open(Italic)] + b + [Close(Italic)];
      RunConcat(Stack([]), a, mid);
      RunConcat(Stack([]), a + mid, c);
      assert Italicised(ts, m) == a + mid + c;
    } else {
      FlatSlice(ts, m.start, m.end);
      RunFlat([], ts[m.start..m.end]);
    }
  }

  /** The rendered text: all placeholders expanded. */
  ghost function Rendered(text: string, p: Patterns): Tokens
    requires ArePatterns(p)
  {
    var st := Converted(text, p);
    Full(st.s, st.phs, |st.phs|)
  }

  /** Whatever the patterns match, the tags of the rendered text nest exactly if no link that is
      reached from the text has a placeholder key in its address. */
  lemma RenderedNests(text: string, p: Patterns)
    requires ArePatterns(p)
    ensures var st := Converted(text, p); Nested(Rendered(text, p)) <==> AddressesFree(st.s, st.phs, |st.phs|)
  {
    FormattedOrderly(text, p);
    var st := Formatted(text, p);
    var ms := p.italic(st.s);
    assert Fits(ms, 0, |st.s|);
    SlantedNested(st.s, ms, 0);
    RunFull(Stack([]), Slanted(st.s, ms, 0), st.phs, |st.phs|);
    hide Formatted, Flat, AllUniform, Slanted, Full, AddressesFree, Run;
  }

  lemma {:induction false} EachFreeAll(ts: Tokens, phs: seq<Tokens>, b: nat)
    requires b <= |phs| && EachFree(phs)
    ensures AddressesFree(ts, phs, b)
    decreases b, |ts|
  {
    hide KeyInAddress;
    if ts != [] {
      EachFreeAll(ts[1..], phs, b);
      if ts[0].Key? && ts[0].n < b { EachFreeAll(phs[ts[0].n], phs, ts[0].n); }
    }
  }

  /** In particular they nest when no inline code stands inside the address of a link. */
  lemma RenderedNestsWithoutCodeInAddress(text: string, p: Patterns)
    requires ArePatterns(p) && AddressesPlain(BeforeLinks(text, p).s, p.link(BeforeLinks(text, p).s))
    ensures Nested(Rendered(text, p))
  {
    RenderedNests(text, p);
    ProtectedOrderly(text, p);
    FormattedOrderly(text, p);
    var st := Converted(text, p);
    assert st.phs == Formatted(text, p).phs;
    hide Formatted, Protected, AddressesFree, EachFree, Nested, AddressesPlain;
    EachFreeAll(st.s, st.phs, |st.phs|);
  }

  // ----- escaping

  ghost predicate HtmlEscaped(phs: seq<Tokens>) {
    forall k :: 0 <= k < |phs| ==> EscapedTimes(phs[k], 1)
  }

  /** Code and links are escaped as they are stored; later html comes from escaped text. */
  lemma HtmlEscapedOnce(kind: Kind, ts: Tokens, m: Match)
    requires m.lo <= m.hi <= m.urlLo <= m.urlHi <= |ts|
    requires EscapedTimes(ts, if kind.CodeSpan? || kind.Link? then 0 else 1)
    ensures EscapedTimes(Html(kind, ts, m), 1)
  {
    var e: nat := if kind.CodeSpan? || kind.Link? then 0 else 1;
    var inner, url := ts[m.lo..m.hi], ts[m.urlLo..m.urlHi];
    EscapedTimesSlice(ts, m.lo, m.hi, e);
    EscapedTimesSlice(ts, m.urlLo, m.urlHi, e);
    match kind
    case CodeSpan =>
      EscapedOnceMore(inner, 0);
      Between([Open(Code)], Escaped(inner), [Close(Code)]);
    case Link =>
      EscapedOnceMore(inner, 0);
      EscapedOnceMore(url, 0);
      Between([LinkOpen], Escaped(url), [LinkMid]);
      EscapedTimesConcat([LinkOpen] + Escaped(url) + [LinkMid], Escaped(inner), 1);
      EscapedTimesConcat([LinkOpen] + Escaped(url) + [LinkMid] + Escaped(inner), [LinkClose], 1);
    case BoldItalic => Between([Open(Bold), Open(Italic)], inner, [Close(Italic), Close(Bold)]);
    case BoldText => Between([Open(Bold)], inner, [Close(Bold)]);
    case StrikeText => Between([Open(Strike)], inner, [Close(Strike)]);
  }

  lemma Between(a: Tokens, inner: Tokens, b: Tokens)
    requires EscapedTimes(a, 1) && EscapedTimes(inner, 1) && EscapedTimes(b, 1)
    ensures EscapedTimes(a + inner + b, 1)
  {
  }

  lemma {:induction false} KeyedEscaped(ts: Tokens, ms: seq<Match>, from: nat, base: nat, e: nat)
    requires Fits(ms, from, |ts|) && EscapedTimes(ts, e)
    ensures EscapedTimes(Keyed(ts, ms, from, base), e)
    decreases |ms|
  {
    FitsBelow(ms, from, |ts|);
    if ms != [] {
      KeyedEscaped(ts, ms[1..], ms[0].end, base + 1, e);
      KeyedIs(ts, ms, from, base);
      hide Keyed, Fits;
    }
  }

  lemma {:induction false} UnlinkedEscaped(ts: Tokens, ms: seq<Match>, from: nat, e: nat)
    requires Fits(ms, from, |ts|) && EscapedTimes(ts, e)
    ensures EscapedTimes(Unlinked(ts, ms, from), e)
    decreases |ms|
  {
    FitsBelow(ms, from, |ts|);
    if ms != [] {
      UnlinkedEscaped(ts, ms[1..], ms[0].end, e);
      UnlinkedIs(ts, ms, from);
      hide Unlinked, Fits;
    }
  }

  lemma {:induction false} SlantedEscaped(ts: Tokens, ms: seq<Match>, from: nat, e: nat)
    requires Fits(ms, from, |ts|) && EscapedTimes(ts, e)
    ensures EscapedTimes(Slanted(ts, ms, from), e)
    decreases |ms|
  {
    FitsBelow(ms, from, |ts|);
    if ms != [] {
      SlantedEscaped(ts, ms[1..], ms[0].end, e);
      SlantedIs(ts, ms, from);
      var m, rest := ms[0], Slanted(ts, ms[1..], ms[0].end);
      hide *;
      EscapedTimesSlice(ts, from, m.start, e);
      ItalicisedEscaped(ts, m, e);
      EscapedTimesConcat(ts[from..m.start], Italicised(ts, m), e);
      EscapedTimesConcat(ts[from..m.start] + Italicised(ts, m), rest, e);
    }
  }

  lemma ItalicisedEscaped(ts: Tokens, m: Match, e: nat)
    requires m.start <= m.lo <= m.hi <= m.end <= |ts| && EscapedTimes(ts, e)
    ensures EscapedTimes(Italicised(ts, m), e)
  {
  }

  ghost predicate Level(st: State, e: nat) {
    EscapedTimes(st.s, e) && HtmlEscaped(st.phs)
  }

  lemma ExtractLevel(st: State, p: Pattern, kind: Kind)
    requires IsPattern(p) && Level(st, if kind.CodeSpan? || kind.Link? then 0 else 1)
    ensures Level(Extract(st, p, kind), if kind.CodeSpan? || kind.Link? then 0 else 1)
  {
    hide *;
    var e: nat := if kind.CodeSpan? || kind.Link? then 0 else 1;
    var ms := ExtractIs(st, p, kind);
    LevelIs(st, e);
    KeyedEscaped(st.s, ms, 0, |st.phs|, e);
    forall i | 0 <= i < |ms|
      ensures EscapedTimes(Stored(st.s, ms, 0, kind)[i], 1)
    {
      StoredEach(st.s, ms, 0, kind, i);
      HtmlEscapedOnce(kind, st.s, ms[i]);
    }
    HtmlEscapedConcat(st.phs, Stored(st.s, ms, 0, kind));
    LevelIs(Extract(st, p, kind), e);
  }

  lemma LevelIs(st: State, e: nat)
    ensures Level(st, e) <==> EscapedTimes(st.s, e) && HtmlEscaped(st.phs)
  {
  }

  lemma HtmlEscapedConcat(a: seq<Tokens>, b: seq<Tokens>)
    requires HtmlEscaped(a) && forall i :: 0 <= i < |b| ==> EscapedTimes(b[i], 1)
    ensures HtmlEscaped(a + b)
  {
    hide EscapedTimes;
  }

  lemma ConvertedLevel(text: string, p: Patterns)
    requires ArePatterns(p)
    ensures Level(Converted(text, p), 1)
  {
    PlainLevel(text, p);
    var st := Plain(text, p);
    hide Level, Extract, Plain, Fits, Slanted;
    ExtractLevel(st, p.boldItalic, BoldItalic);
    var st1 := Extract(st, p.boldItalic, BoldItalic);
    ExtractLevel(st1, p.boldAst, BoldText);
    var st2 := Extract(st1, p.boldAst, BoldText);
    ExtractLevel(st2, p.boldUnd, BoldText);
    ExtractLevel(Extract(st2, p.boldUnd, BoldText), p.strike, StrikeText);
    SlantLevel(Formatted(text, p), p.italic);
  }

  lemma SlantLevel(st: State, p: Pattern)
    requires IsPattern(p) && Level(st, 1)
    ensures Fits(p(st.s), 0, |st.s|) && Level(State(Slanted(st.s, p(st.s), 0), st.phs), 1)
  {
    assert Fits(p(st.s), 0, |st.s|);
    SlantedEscaped(st.s, p(st.s), 0, 1);
  }

  lemma PlainLevel(text: string, p: Patterns)
    requires ArePatterns(p)
    ensures Level(Plain(text, p), 1)
  {
    InputFlat(text);
    var st := State(Input(text), []);
    assert Level(st, 0);
    ExtractLevel(st, p.code, CodeSpan);
    ExtractLevel(Extract(st, p.code, CodeSpan), p.link, Link);
    var st2 := Protected(text, p);
    assert Level(st2, 0);
    assert Fits(p.wikilink(st2.s), 0, |st2.s|);
    UnlinkedEscaped(st2.s, p.wikilink(st2.s), 0, 0);
    EscapedOnceMore(Unlinked(st2.s, p.wikilink(st2.s), 0), 0);
    hide Extract, Protected, Unlinked, Fits, EscapedTimes, Escaped;
  }

  lemma {:induction false} FullEscaped(ts: Tokens, phs: seq<Tokens>, b: nat)
    requires b <= |phs| && EscapedTimes(ts, 1) && HtmlEscaped(phs)
    ensures EscapedTimes(Full(ts, phs, b), 1)
    decreases b, |ts|
  {
    if ts != [] {
      EscapedTimesSlice(ts, 1, |ts|, 1);
      assert ts[1..|ts|] == ts[1..];
      FullEscaped(ts[1..], phs, b);
      if ts[0].Key? && ts[0].n < b {
        FullEscaped(phs[ts[0].n], phs, ts[0].n);
        EscapedTimesConcat(Full(phs[ts[0].n], phs, ts[0].n), Full(ts[1..], phs, b), 1);
      } else {
        EscapedTimesConcat([ts[0]], Full(ts[1..], phs, b), 1);
      }
    }
  }

  /** Whatever the patterns match, every rune of the input that is rendered has been escaped
      exactly once, inside code, links and all formatting. */
  lemma RenderedEscapedOnce(text: string, p: Patterns)
    requires ArePatterns(p)
    ensures EscapedTimes(Rendered(text, p), 1)
  {
    ConvertedLevel(text, p);
    var st := Converted(text, p);
    FullEscaped(st.s, st.phs, |st.phs|);
    hide Converted, Full, EscapedTimes;
  }
}
