/** What the passes of the inline renderer keep: which keys a placeholder mentions and how
    often a key occurs, how often runes are escaped, and how tags nest
    (core/markdown_html.go, convertInlineHTML). */
module InlineHtmlProperties {
  import opened InlineTokens
  import opened InlineHtml

  // ----- keys

  function Total(st: State, n: nat): nat {
    Count(st.s, n) + CountAll(st.phs, n)
  }

  /** Html number k mentions only keys below k. */
  ghost predicate Lower(phs: seq<Tokens>) {
    forall k :: 0 <= k < |phs| ==> KeysBelow(phs[k], k)
  }

  /** Every key occurs at most once overall, and only keys that stand for something occur. */
  ghost predicate OnceEach(st: State) {
    forall n: nat :: Total(st, n) <= if n < |st.phs| then 1 else 0
  }

  ghost predicate Sound(st: State) {
    OnceEach(st) && Lower(st.phs)
  }

  lemma CountWrapped(a: Tokens, inner: Tokens, b: Tokens, n: nat)
    requires Count(a, n) == 0 && Count(b, n) == 0
    ensures Count(a + inner + b, n) == Count(inner, n)
  {
    CountConcat(a + inner, b, n);
    CountConcat(a, inner, n);
  }

  /** Stored html holds no more keys than the span it came from. */
  lemma HtmlCount(kind: Kind, ts: Tokens, m: Match, n: nat)
    requires m.start <= m.lo <= m.hi <= m.urlLo <= m.urlHi <= m.end <= |ts|
    ensures Count(Html(kind, ts, m), n) <= Count(ts[m.start..m.end], n)
  {
    CountSlice(ts, m.start, m.lo, m.end, n);
    CountSlice(ts, m.lo, m.hi, m.end, n);
    CountSlice(ts, m.hi, m.urlLo, m.end, n);
    CountSlice(ts, m.urlLo, m.urlHi, m.end, n);
    var inner, url := ts[m.lo..m.hi], ts[m.urlLo..m.urlHi];
    EscapedCount(inner, n);
    EscapedCount(url, n);
    HtmlKeys(kind, ts, m, n);
  }

  lemma HtmlKeys(kind: Kind, ts: Tokens, m: Match, n: nat)
    requires m.lo <= m.hi <= m.urlLo <= m.urlHi <= |ts|
    ensures Count(Html(kind, ts, m), n)
         == match kind
            case CodeSpan => Count(Escaped(ts[m.lo..m.hi]), n)
            case Link => Count(Escaped(ts[m.urlLo..m.urlHi]), n) + Count(Escaped(ts[m.lo..m.hi]), n)
            case _ => Count(ts[m.lo..m.hi], n)
  {
    var inner, url := ts[m.lo..m.hi], ts[m.urlLo..m.urlHi];
    match kind
    case CodeSpan => CountWrapped([Open(Code)], Escaped(inner), [Close(Code)], n);
    case Link =>
      CountWrapped([LinkOpen], Escaped(url), [LinkMid], n);
      CountConcat([LinkOpen] + Escaped(url) + [LinkMid], Escaped(inner), n);
      CountConcat([LinkOpen] + Escaped(url) + [LinkMid] + Escaped(inner), [LinkClose], n);
    case BoldItalic =>
      CountConcat([Open(Bold)], [Open(Italic)], n);
      CountConcat([Close(Italic)], [Close(Bold)], n);
      assert [Open(Bold)] + [Open(Italic)] == [Open(Bold), Open(Italic)];
      assert [Close(Italic)] + [Close(Bold)] == [Close(Italic), Close(Bold)];
      CountWrapped([Open(Bold), Open(Italic)], inner, [Close(Italic), Close(Bold)], n);
    case BoldText => CountWrapped([Open(Bold)], inner, [Close(Bold)], n);
    case StrikeText => CountWrapped([Open(Strike)], inner, [Close(Strike)], n);
  }

  /** A pass moves keys from the text into html, drops some, and adds its own. */
  lemma {:induction false} KeyedCount(ts: Tokens, ms: seq<Match>, from: nat, base: nat, kind: Kind, n: nat)
    requires Fits(ms, from, |ts|)
    ensures from <= |ts|
    ensures Count(Keyed(ts, ms, from, base), n) + CountAll(Stored(ts, ms, from, kind), n)
         <= Count(ts[from..], n) + if base <= n < base + |ms| then 1 else 0
    decreases |ms|
  {
    hide Html;
    FitsBelow(ms, from, |ts|);
    if ms != [] {
      var m := ms[0];
      KeyedCount(ts, ms[1..], m.end, base + 1, kind, n);
      hide *;
      FitsBelow(ms[1..], m.end, |ts|);
      HtmlCount(kind, ts, m, n);
      KeyedIs(ts, ms, from, base);
      StoredIs(ts, ms, from, kind);
      CountAround(ts[from..m.start], base, Keyed(ts, ms[1..], m.end, base + 1), n);
      CountThree(ts, from, m.start, m.end, n);
      CountAllCons(Html(kind, ts, m), Stored(ts, ms[1..], m.end, kind), n);
    } else {
      hide Count;
    }
  }

  lemma CountAround(a: Tokens, k: nat, b: Tokens, n: nat)
    ensures Count(a + [Key(k)] + b, n) == Count(a, n) + (if k == n then 1 else 0) + Count(b, n)
  {
    CountConcat(a + [Key(k)], b, n);
    CountConcat(a, [Key(k)], n);
    CountKey(k, n);
    hide Count;
  }

  lemma CountThree(ts: Tokens, from: nat, start: nat, end: nat, n: nat)
    requires from <= start <= end <= |ts|
    ensures Count(ts[from..], n) == Count(ts[from..start], n) + Count(ts[start..end], n) + Count(ts[end..], n)
  {
    CountSlice(ts, from, start, |ts|, n);
    CountSlice(ts, start, end, |ts|, n);
    hide Count;
    assert ts[from..|ts|] == ts[from..] && ts[end..|ts|] == ts[end..];
  }

  lemma CountAllCons(html: Tokens, rest: seq<Tokens>, n: nat)
    ensures CountAll([html] + rest, n) == Count(html, n) + CountAll(rest, n)
  {
    assert ([html] + rest)[1..] == rest;
  }

  lemma CountKey(k: nat, n: nat)
    ensures Count([Key(k)], n) == if k == n then 1 else 0
  {
    assert [Key(k)][1..] == [];
  }

  lemma KeyedIs(ts: Tokens, ms: seq<Match>, from: nat, base: nat)
    requires ms != [] && Fits(ms, from, |ts|)
    ensures from <= ms[0].start <= ms[0].end <= |ts| && Fits(ms[1..], ms[0].end, |ts|)
    ensures Keyed(ts, ms, from, base) == ts[from..ms[0].start] + [Key(base)] + Keyed(ts, ms[1..], ms[0].end, base + 1)
  {
    FitsBelow(ms, from, |ts|);
  }

  lemma StoredIs(ts: Tokens, ms: seq<Match>, from: nat, kind: Kind)
    requires ms != [] && Fits(ms, from, |ts|)
    ensures Fits(ms[1..], ms[0].end, |ts|) && ms[0].lo <= ms[0].hi <= ms[0].urlLo <= ms[0].urlHi <= |ts|
    ensures Stored(ts, ms, from, kind) == [Html(kind, ts, ms[0])] + Stored(ts, ms[1..], ms[0].end, kind)
  {
    FitsBelow(ms, from, |ts|);
    hide Html;
  }

  /** Each stored html comes from one match. */
  lemma {:induction false} StoredEach(ts: Tokens, ms: seq<Match>, from: nat, kind: Kind, i: nat)
    requires Fits(ms, from, |ts|) && i < |ms|
    ensures |Stored(ts, ms, from, kind)| == |ms|
    ensures var m := ms[i];
      && m.start <= m.lo <= m.hi <= m.urlLo <= m.urlHi <= m.end <= |ts|
      && Stored(ts, ms, from, kind)[i] == Html(kind, ts, m)
    decreases |ms|
  {
    hide Html;
    FitsBelow(ms, from, |ts|);
    StoredLength(ts, ms, from, kind);
    if i > 0 { StoredEach(ts, ms[1..], ms[0].end, kind, i - 1); }
  }

  lemma {:induction false} StoredLength(ts: Tokens, ms: seq<Match>, from: nat, kind: Kind)
    requires Fits(ms, from, |ts|)
    ensures |Stored(ts, ms, from, kind)| == |ms|
    decreases |ms|
  {
    hide Html;
    FitsBelow(ms, from, |ts|);
    if ms != [] { StoredLength(ts, ms[1..], ms[0].end, kind); }
  }

  lemma SliceCount(ts: Tokens, lo: nat, hi: nat, n: nat)
    requires lo <= hi <= |ts|
    ensures Count(ts[lo..hi], n) <= Count(ts, n)
  {
    assert ts[0..|ts|] == ts;
    CountSlice(ts, 0, lo, |ts|, n);
    CountSlice(ts, lo, hi, |ts|, n);
  }

  lemma ExtractOnce(st: State, p: Pattern, kind: Kind, n: nat)
    requires IsPattern(p) && OnceEach(st)
    ensures var after := Extract(st, p, kind); Total(after, n) <= if n < |after.phs| then 1 else 0
  {
    var ms, base := p(st.s), |st.phs|;
    assert Fits(ms, 0, |st.s|);
    var stored := Stored(st.s, ms, 0, kind);
    StoredLength(st.s, ms, 0, kind);
    hide Html, Count, Keyed, Stored, CountAll, IsPattern;
    assert st.s[0..] == st.s;
    KeyedCount(st.s, ms, 0, base, kind, n);
    CountAllConcat(st.phs, stored, n);
    assert Total(st, n) <= if n < base then 1 else 0;
  }

  /** What a pass stores mentions only keys that were there before. */
  lemma StoredLower(st: State, ms: seq<Match>, kind: Kind, i: nat, n: nat)
    requires Fits(ms, 0, |st.s|) && i < |ms| && OnceEach(st) && n >= |st.phs|
    ensures |Stored(st.s, ms, 0, kind)| == |ms| && Count(Stored(st.s, ms, 0, kind)[i], n) == 0
  {
    StoredEach(st.s, ms, 0, kind, i);
    var m := ms[i];
    hide Html, Count, Stored, CountAll;
    HtmlCount(kind, st.s, m, n);
    SliceCount(st.s, m.start, m.end, n);
    assert Total(st, n) == 0;
  }

  /** A pass keeps every key single and every html lower. */
  lemma ExtractSound(st: State, p: Pattern, kind: Kind)
    requires IsPattern(p) && Sound(st)
    ensures Sound(Extract(st, p, kind))
  {
    hide *;
    SoundIs(st);
    ExtractEach(st, p, kind);
    ExtractLower(st, p, kind);
    SoundIs(Extract(st, p, kind));
  }

  lemma SoundIs(st: State)
    ensures Sound(st) <==> OnceEach(st) && Lower(st.phs)
  {
  }

  lemma ExtractEach(st: State, p: Pattern, kind: Kind)
    requires IsPattern(p) && OnceEach(st)
    ensures OnceEach(Extract(st, p, kind))
  {
    var after := Extract(st, p, kind);
    hide Extract, Total, IsPattern;
    forall n: nat
      ensures Total(after, n) <= if n < |after.phs| then 1 else 0
    {
      ExtractOnce(st, p, kind, n);
    }
  }

  lemma ExtractLower(st: State, p: Pattern, kind: Kind)
    requires IsPattern(p) && OnceEach(st) && Lower(st.phs)
    ensures Lower(Extract(st, p, kind).phs)
  {
    var ms := p(st.s);
    assert Fits(ms, 0, |st.s|);
    StoredLength(st.s, ms, 0, kind);
    hide Fits, Html, Keyed, Stored, OnceEach, Lower, IsPattern, KeysBelow;
    var stored := Stored(st.s, ms, 0, kind);
    forall i | 0 <= i < |stored|
      ensures KeysBelow(stored[i], |st.phs| + i)
    {
      StoredBelow(st, ms, kind, i);
    }
    LowerConcat(st.phs, stored);
  }

  lemma LowerConcat(a: seq<Tokens>, b: seq<Tokens>)
    requires Lower(a) && forall i :: 0 <= i < |b| ==> KeysBelow(b[i], |a| + i)
    ensures Lower(a + b)
  {
    hide KeysBelow;
    forall k | 0 <= k < |a + b|
      ensures KeysBelow((a + b)[k], k)
    {
      if k < |a| {
        assert (a + b)[k] == a[k];
      } else {
        assert (a + b)[k] == b[k - |a|];
      }
    }
  }

  lemma StoredBelow(st: State, ms: seq<Match>, kind: Kind, i: nat)
    requires Fits(ms, 0, |st.s|) && i < |ms| && OnceEach(st)
    ensures |Stored(st.s, ms, 0, kind)| == |ms| && KeysBelow(Stored(st.s, ms, 0, kind)[i], |st.phs| + i)
  {
    StoredLower(st, ms, kind, i, |st.phs|);
    hide Count, Stored, OnceEach, Fits;
    forall n: nat | n >= |st.phs| + i
      ensures Count(Stored(st.s, ms, 0, kind)[i], n) == 0
    {
      StoredLower(st, ms, kind, i, n);
    }
  }

  lemma {:induction false} UnlinkedCount(ts: Tokens, ms: seq<Match>, from: nat, n: nat)
    requires Fits(ms, from, |ts|)
    ensures from <= |ts|
    ensures Count(Unlinked(ts, ms, from), n) <= Count(ts[from..], n)
    decreases |ms|
  {
    FitsBelow(ms, from, |ts|);
    if ms != [] {
      var m := ms[0];
      UnlinkedCount(ts, ms[1..], m.end, n);
      FitsBelow(ms[1..], m.end, |ts|);
      UnlinkedIs(ts, ms, from);
      var rest := Unlinked(ts, ms[1..], m.end);
      hide Unlinked, Fits;
      CountConcat(ts[from..m.start] + ts[m.lo..m.hi], rest, n);
      CountConcat(ts[from..m.start], ts[m.lo..m.hi], n);
      assert ts[from..|ts|] == ts[from..] && ts[m.end..|ts|] == ts[m.end..];
      CountSlice(ts, from, m.start, |ts|, n);
      CountSlice(ts, m.start, m.lo, |ts|, n);
      CountSlice(ts, m.lo, m.hi, |ts|, n);
      CountSlice(ts, m.hi, m.end, |ts|, n);
    }
  }

  lemma UnlinkedIs(ts: Tokens, ms: seq<Match>, from: nat)
    requires ms != [] && Fits(ms, from, |ts|)
    ensures from <= ms[0].start <= ms[0].lo <= ms[0].hi <= ms[0].end <= |ts| && Fits(ms[1..], ms[0].end, |ts|)
    ensures Unlinked(ts, ms, from) == ts[from..ms[0].start] + ts[ms[0].lo..ms[0].hi] + Unlinked(ts, ms[1..], ms[0].end)
  {
    FitsBelow(ms, from, |ts|);
  }

  lemma ItalicisedCount(ts: Tokens, m: Match, n: nat)
    requires m.start <= m.lo <= m.hi <= m.end <= |ts|
    ensures Count(Italicised(ts, m), n) <= Count(ts[m.start..m.end], n)
  {
    hide Count;
    if m.start < m.lo && m.hi < m.end {
      CountSlice(ts, m.start, m.lo - 1, m.end, n);
      CountSlice(ts, m.lo - 1, m.lo, m.end, n);
      CountSlice(ts, m.lo, m.hi, m.end, n);
      CountSlice(ts, m.hi, m.hi + 1, m.end, n);
      Slant3(ts[m.start..m.lo - 1], ts[m.lo..m.hi], ts[m.hi + 1..m.end], n);
    }
  }

  lemma Slant3(a: Tokens, b: Tokens, c: Tokens, n: nat)
    ensures Count(a + [Open(Italic)] + b + [Close(Italic)] + c, n) == Count(a, n) + Count(b, n) + Count(c, n)
  {
    CountConcat(a + [Open(Italic)] + b + [Close(Italic)], c, n);
    CountConcat(a + [Open(Italic)] + b, [Close(Italic)], n);
    CountConcat(a + [Open(Italic)], b, n);
    CountConcat(a, [Open(Italic)], n);
  }

  lemma {:induction false} SlantedCount(ts: Tokens, ms: seq<Match>, from: nat, n: nat)
    requires Fits(ms, from, |ts|)
    ensures from <= |ts|
    ensures Count(Slanted(ts, ms, from), n) <= Count(ts[from..], n)
    decreases |ms|
  {
    hide Italicised;
    FitsBelow(ms, from, |ts|);
    if ms != [] {
      var m := ms[0];
      SlantedCount(ts, ms[1..], m.end, n);
      FitsBelow(ms[1..], m.end, |ts|);
      ItalicisedCount(ts, m, n);
      SlantedIs(ts, ms, from);
      var rest := Slanted(ts, ms[1..], m.end);
      hide Slanted, Fits;
      CountConcat(ts[from..m.start] + Italicised(ts, m), rest, n);
      CountConcat(ts[from..m.start], Italicised(ts, m), n);
      assert ts[from..|ts|] == ts[from..] && ts[m.end..|ts|] == ts[m.end..];
      CountSlice(ts, from, m.start, |ts|, n);
      CountSlice(ts, m.start, m.end, |ts|, n);
    }
  }

  lemma SlantedIs(ts: Tokens, ms: seq<Match>, from: nat)
    requires ms != [] && Fits(ms, from, |ts|)
    ensures from <= ms[0].start <= ms[0].lo <= ms[0].hi <= ms[0].end <= |ts| && Fits(ms[1..], ms[0].end, |ts|)
    ensures Slanted(ts, ms, from) == ts[from..ms[0].start] + Italicised(ts, ms[0]) + Slanted(ts, ms[1..], ms[0].end)
  {
    FitsBelow(ms, from, |ts|);
    hide Italicised;
  }

  lemma {:induction false} InputCount(text: string, n: nat)
    ensures Count(Input(text), n) == 0
  {
    if text != "" { InputCount(text[1..], n); }
  }

  /** Dropping keys from the text keeps soundness. */
  lemma FewerSound(st: State, s: Tokens)
    requires Sound(st) && forall n: nat :: Count(s, n) <= Count(st.s, n)
    ensures Sound(State(s, st.phs))
  {
    forall n: nat
      ensures Total(State(s, st.phs), n) <= if n < |st.phs| then 1 else 0
    {
      assert Total(st, n) <= if n < |st.phs| then 1 else 0;
    }
  }

  lemma ProtectedSound(text: string, p: Patterns)
    requires ArePatterns(p)
    ensures Sound(Protected(text, p))
  {
    forall n: nat
      ensures Count(Input(text), n) == 0
    {
      InputCount(text, n);
    }
    var st := State(Input(text), []);
    assert Sound(st);
    hide Sound, Extract;
    ExtractSound(st, p.code, CodeSpan);
    ExtractSound(Extract(st, p.code, CodeSpan), p.link, Link);
  }

  lemma PlainSound(text: string, p: Patterns)
    requires ArePatterns(p)
    ensures Sound(Plain(text, p))
  {
    ProtectedSound(text, p);
    var st := Protected(text, p);
    var ms := p.wikilink(st.s);
    assert Fits(ms, 0, |st.s|) && st.s[0..] == st.s;
    hide Sound, Protected;
    forall n: nat
      ensures Count(Escaped(Unlinked(st.s, ms, 0)), n) <= Count(st.s, n)
    {
      UnlinkedCount(st.s, ms, 0, n);
      EscapedCount(Unlinked(st.s, ms, 0), n);
    }
    FewerSound(st, Escaped(Unlinked(st.s, ms, 0)));
  }

  /** Whatever the patterns match: before restoring, each placeholder's html mentions only
      lower keys, and each key occurs at most once in the text and all html together. */
  lemma ConvertedSound(text: string, p: Patterns)
    requires ArePatterns(p)
    ensures Sound(Converted(text, p))
  {
    PlainSound(text, p);
    FormattedSound(text, p);
    var st := Formatted(text, p);
    var ms := p.italic(st.s);
    assert Fits(ms, 0, |st.s|) && st.s[0..] == st.s;
    hide Sound, Formatted;
    forall n: nat
      ensures Count(Slanted(st.s, ms, 0), n) <= Count(st.s, n)
    {
      SlantedCount(st.s, ms, 0, n);
    }
    FewerSound(st, Slanted(st.s, ms, 0));
  }

  lemma FormattedSound(text: string, p: Patterns)
    requires ArePatterns(p)
    ensures Sound(Formatted(text, p))
  {
    PlainSound(text, p);
    var st := Plain(text, p);
    hide Sound, Extract, Plain;
    ExtractSound(st, p.boldItalic, BoldItalic);
    var st1 := Extract(st, p.boldItalic, BoldItalic);
    ExtractSound(st1, p.boldAst, BoldText);
    var st2 := Extract(st1, p.boldAst, BoldText);
    ExtractSound(st2, p.boldUnd, BoldText);
    ExtractSound(Extract(st2, p.boldUnd, BoldText), p.strike, StrikeText);
  }
}
