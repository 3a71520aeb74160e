/** The whole inline renderer: passes, then restoring by searching the string
    (core/markdown_html.go, convertInlineHTML). */
module InlineRendering {
  import opened Decimals
  import opened InlineTokens
  import opened InlineHtml
  import opened InlineHtmlProperties
  import opened InlineRestore
  import opened InlineHtmlNesting
  import opened InlineText
  import opened InlineTextRestore
  import opened InlineLayers

  // ----- only runes of the input are rendered

  /** Every rune of the text is one of `text`. */
  ghost predicate Drawn(ts: Tokens, text: string) {
    forall i :: 0 <= i < |ts| && ts[i].Text? ==> ts[i].c in text
  }

  lemma DrawnTail(ts: Tokens, text: string)
    requires ts != [] && Drawn(ts, text)
    ensures Drawn(ts[1..], text) && (ts[0].Text? ==> ts[0].c in text)
  {
  }

  lemma DrawnSlice(ts: Tokens, lo: nat, hi: nat, text: string)
    requires lo <= hi <= |ts| && Drawn(ts, text)
    ensures Drawn(ts[lo..hi], text)
  {
  }

  lemma DrawnRest(ts: Tokens, from: nat, text: string)
    requires from <= |ts| && Drawn(ts, text)
    ensures Drawn(ts[from..], text)
  {
  }

  lemma {:induction false} DrawnEscaped(ts: Tokens, text: string)
    requires Drawn(ts, text)
    ensures Drawn(Escaped(ts), text)
  {
    if ts != [] {
      DrawnTail(ts, text);
      DrawnEscaped(ts[1..], text);
    }
  }

  lemma {:induction false} DrawnInput(part: string, text: string)
    requires forall c :: c in part ==> c in text
    ensures Drawn(Input(part), text)
  {
    if part != "" {
      assert part[0] in part && forall c :: c in part[1..] ==> c in part;
      DrawnInput(part[1..], text);
    }
  }

  lemma DrawnHtml(kind: Kind, ts: Tokens, m: Match, text: string)
    requires m.lo <= m.hi <= m.urlLo <= m.urlHi <= |ts| && Drawn(ts, text)
    ensures Drawn(Html(kind, ts, m), text) && Tagged(Html(kind, ts, m))
  {
    DrawnSlice(ts, m.lo, m.hi, text);
    DrawnSlice(ts, m.urlLo, m.urlHi, text);
    var inner, url := ts[m.lo..m.hi], ts[m.urlLo..m.urlHi];
    DrawnEscaped(inner, text);
    DrawnEscaped(url, text);
    match kind
    case CodeSpan => Wrapped([Open(Code)], Escaped(inner), [Close(Code)], text);
    case Link =>
      Wrapped([LinkOpen], Escaped(url), [LinkMid], text);
      Wrapped([LinkOpen] + Escaped(url) + [LinkMid], Escaped(inner), [LinkClose], text);
    case BoldItalic => Wrapped([Open(Bold), Open(Italic)], inner, [Close(Italic), Close(Bold)], text);
    case BoldText => Wrapped([Open(Bold)], inner, [Close(Bold)], text);
    case StrikeText => Wrapped([Open(Strike)], inner, [Close(Strike)], text);
  }

  lemma Wrapped(a: Tokens, inner: Tokens, b: Tokens, text: string)
    requires Drawn(a, text) && Drawn(inner, text) && Drawn(b, text)
    ensures Drawn(a + inner + b, text)
  {
  }

  lemma {:induction false} DrawnKeyed(ts: Tokens, ms: seq<Match>, from: nat, base: nat, text: string)
    requires Fits(ms, from, |ts|) && Drawn(ts, text)
    ensures Drawn(Keyed(ts, ms, from, base), text)
    decreases |ms|
  {
    FitsBelow(ms, from, |ts|);
    if ms == [] {
      DrawnRest(ts, from, text);
    } else {
      DrawnKeyed(ts, ms[1..], ms[0].end, base + 1, text);
      KeyedIs(ts, ms, from, base);
      var rest := Keyed(ts, ms[1..], ms[0].end, base + 1);
      hide Keyed, Fits;
      DrawnSlice(ts, from, ms[0].start, text);
      Wrapped(ts[from..ms[0].start], [Key(base)], rest, text);
    }
  }

  lemma {:induction false} DrawnUnlinked(ts: Tokens, ms: seq<Match>, from: nat, text: string)
    requires Fits(ms, from, |ts|) && Drawn(ts, text)
    ensures Drawn(Unlinked(ts, ms, from), text)
    decreases |ms|
  {
    FitsBelow(ms, from, |ts|);
    if ms == [] {
      DrawnRest(ts, from, text);
    } else {
      var m := ms[0];
      DrawnUnlinked(ts, ms[1..], m.end, text);
      UnlinkedIs(ts, ms, from);
      var rest := Unlinked(ts, ms[1..], m.end);
      hide Unlinked, Fits;
      DrawnSlice(ts, from, m.start, text);
      DrawnSlice(ts, m.lo, m.hi, text);
      Wrapped(ts[from..m.start], ts[m.lo..m.hi], rest, text);
    }
  }

  lemma DrawnItalicised(ts: Tokens, m: Match, text: string)
    requires m.start <= m.lo <= m.hi <= m.end <= |ts| && Drawn(ts, text)
    ensures Drawn(Italicised(ts, m), text)
  {
  }

  lemma {:induction false} DrawnSlanted(ts: Tokens, ms: seq<Match>, from: nat, text: string)
    requires Fits(ms, from, |ts|) && Drawn(ts, text)
    ensures Drawn(Slanted(ts, ms, from), text)
    decreases |ms|
  {
    FitsBelow(ms, from, |ts|);
    if ms == [] {
      DrawnRest(ts, from, text);
    } else {
      var m := ms[0];
      DrawnSlanted(ts, ms[1..], m.end, text);
      SlantedIs(ts, ms, from);
      var rest := Slanted(ts, ms[1..], m.end);
      hide Slanted, Fits, Italicised;
      DrawnSlice(ts, from, m.start, text);
      DrawnItalicised(ts, m, text);
      Wrapped(ts[from..m.start], Italicised(ts, m), rest, text);
    }
  }

  ghost predicate AllDrawn(phs: seq<Tokens>, text: string) {
    forall k :: 0 <= k < |phs| ==> Drawn(phs[k], text) && Tagged(phs[k])
  }

  ghost predicate DrawnState(st: State, text: string) {
    Drawn(st.s, text) && AllDrawn(st.phs, text)
  }

  lemma ExtractDrawn(st: State, p: Pattern, kind: Kind, text: string)
    requires IsPattern(p) && DrawnState(st, text)
    ensures DrawnState(Extract(st, p, kind), text)
  {
    hide *;
    var ms := ExtractIs(st, p, kind);
    DrawnStateIs(st, text);
    DrawnKeyed(st.s, ms, 0, |st.phs|, text);
    forall i | 0 <= i < |ms|
      ensures Drawn(Stored(st.s, ms, 0, kind)[i], text) && Tagged(Stored(st.s, ms, 0, kind)[i])
    {
      StoredEach(st.s, ms, 0, kind, i);
      DrawnHtml(kind, st.s, ms[i], text);
    }
    DrawnConcat(st.phs, Stored(st.s, ms, 0, kind), text);
    DrawnStateIs(Extract(st, p, kind), text);
  }

  lemma DrawnStateIs(st: State, text: string)
    ensures DrawnState(st, text) <==> Drawn(st.s, text) && AllDrawn(st.phs, text)
  {
  }

  lemma DrawnConcat(a: seq<Tokens>, b: seq<Tokens>, text: string)
    requires AllDrawn(a, text) && forall i :: 0 <= i < |b| ==> Drawn(b[i], text) && Tagged(b[i])
    ensures AllDrawn(a + b, text)
  {
    hide Drawn, Tagged;
  }

  lemma PlainDrawn(text: string, p: Patterns)
    requires ArePatterns(p)
    ensures DrawnState(Plain(text, p), text)
  {
    DrawnInput(text, text);
    var st := State(Input(text), []);
    assert DrawnState(st, text);
    ExtractDrawn(st, p.code, CodeSpan, text);
    ExtractDrawn(Extract(st, p.code, CodeSpan), p.link, Link, text);
    var st2 := Protected(text, p);
    assert DrawnState(st2, text) && Fits(p.wikilink(st2.s), 0, |st2.s|);
    DrawnUnlinked(st2.s, p.wikilink(st2.s), 0, text);
    DrawnEscaped(Unlinked(st2.s, p.wikilink(st2.s), 0), text);
    hide Extract, Protected, Unlinked, Fits, Escaped, Drawn, Tagged;
  }

  /** The passes make up no rune, and every html they store begins and ends with a tag. */
  lemma ConvertedDrawn(text: string, p: Patterns)
    requires ArePatterns(p)
    ensures DrawnState(Converted(text, p), text)
  {
    PlainDrawn(text, p);
    var st := Plain(text, p);
    hide Extract, Plain, Fits, Slanted, DrawnState;
    ExtractDrawn(st, p.boldItalic, BoldItalic, text);
    var st1 := Extract(st, p.boldItalic, BoldItalic);
    ExtractDrawn(st1, p.boldAst, BoldText, text);
    var st2 := Extract(st1, p.boldAst, BoldText);
    ExtractDrawn(st2, p.boldUnd, BoldText, text);
    ExtractDrawn(Extract(st2, p.boldUnd, BoldText), p.strike, StrikeText, text);
    SlantDrawn(Formatted(text, p), p.italic, text);
  }

  lemma SlantDrawn(st: State, p: Pattern, text: string)
    requires IsPattern(p) && DrawnState(st, text)
    ensures Fits(p(st.s), 0, |st.s|) && DrawnState(State(Slanted(st.s, p(st.s), 0), st.phs), text)
  {
    assert Fits(p(st.s), 0, |st.s|);
    DrawnSlanted(st.s, p(st.s), 0, text);
    hide Slanted, Tagged;
  }

  lemma ConvertedClean(text: string, p: Patterns)
    requires ArePatterns(p) && NulFree(text)
    ensures Clean(Converted(text, p).s) && AllTagged(Converted(text, p).phs)
  {
    ConvertedDrawn(text, p);
    hide *;
    CleanIfDrawn(Converted(text, p), text);
  }

  lemma CleanIfDrawn(st: State, text: string)
    requires DrawnState(st, text) && NulFree(text)
    ensures Clean(st.s) && AllTagged(st.phs)
  {
    hide Tagged;
    DrawnClean(st.s, text);
    forall k | 0 <= k < |st.phs|
      ensures Clean(st.phs[k])
    {
      DrawnClean(st.phs[k], text);
    }
  }

  lemma DrawnClean(ts: Tokens, text: string)
    requires Drawn(ts, text) && NulFree(text)
    ensures Clean(ts)
  {
  }

  // ----- the result

  /** What restoring makes of the text as a string. */
  ghost function RestoredText(st: State): string {
    SweepsText(Render(st.s), RenderAll(st.phs), |st.phs| + 1)
  }

  /** The whole conversion: the passes, then the sweeps over the string. */
  method ConvertInline(text: string, p: Patterns) returns (out: string)
    requires ArePatterns(p)
    ensures out == RestoredText(Converted(text, p))
  {
    hide Converted, Render, SweepsText;
    var c := Convert(text, p);
    out := RestoreText(Render(c.s), RenderAll(c.phs));
  }

  /** In some layer of the text, text between two keys that are still there when a key is
      searched for spells that key, and no such key stands before it. */
  ghost predicate LedAstray(st: State) {
    Misled(st, |st.phs| + 1)
  }

  /** Whatever the patterns match in NUL-free input: the string the sweeps produce is the full
      expansion exactly if no search is led astray, and otherwise a NUL is left in it. No key
      is left in the expansion. */
  lemma RestoredIsRendered(text: string, p: Patterns)
    requires ArePatterns(p) && NulFree(text)
    ensures RestoredText(Converted(text, p)) == Render(Rendered(text, p)) <==> !LedAstray(Converted(text, p))
    ensures NulFree(RestoredText(Converted(text, p))) <==> !LedAstray(Converted(text, p))
    ensures NoKeys(Rendered(text, p))
  {
    ConvertedClean(text, p);
    ConvertedSound(text, p);
    var st := Converted(text, p);
    var rounds := |st.phs| + 1;
    assert Rendered(text, p) == Full(st.s, st.phs, |st.phs|);
    hide *;
    SlipsInIsMisled(st, rounds);
    SweepsRender(st.s, st.phs, rounds);
    SweepsReachAll(st, rounds);
    SweepsClean(st.s, st.phs, rounds);
    NoKeysNulFree(Full(st.s, st.phs, |st.phs|));
    RestoredIs(st);
    if LedAstray(st) { TornHoldsNul(RestoredText(st)); }
  }

  lemma RestoredIs(st: State)
    ensures RestoredText(st) == SweepsText(Render(st.s), RenderAll(st.phs), |st.phs| + 1)
    ensures LedAstray(st) <==> Misled(st, |st.phs| + 1)
  {
    hide SweepsText, RenderAll, Render, Misled;
  }

  lemma {:induction false} NoKeysNulFree(ts: Tokens)
    requires NoKeys(ts) && Clean(ts)
    ensures NulFree(Render(ts))
  {
    if ts == [] {
      assert Render(ts) == "";
    } else {
      NoKeysCons(ts);
      CleanTail(ts);
      NoKeysNulFree(ts[1..]);
      SpelledNulFree(ts[0]);
      NulFreeConcat(Spelled(ts[0]), Render(ts[1..]));
      hide Spelled, NulFree;
    }
  }

  // ----- input that cannot spell a key

  /** The input has the runes a key is spelled with: both letters and a digit. */
  ghost predicate Spellable(text: string) {
    'P' in text && 'H' in text && exists c :: c in text && '0' <= c <= '9'
  }

  predicate Special(c: char) {
    c in {'&', '<', '>', '"'}
  }

  /** A rune that escaping changes is spelled as itself or as an entity; others as themselves. */
  lemma {:induction false} EscapedRune(c: char, e: nat)
    ensures EscapeTimes([c], e) != ""
    ensures EscapeTimes([c], e) == [c] || (Special(c) && EscapeTimes([c], e)[0] == '&')
  {
    if e > 0 {
      EscapedRune(c, e - 1);
      var s := EscapeTimes([c], e - 1);
      hide EscapeHtml;
      if Special(s[0]) {
        assert s == [s[0]] + s[1..];
        EscapeCons(s[0], s[1..]);
      } else {
        EscapeUnchanged(s);
      }
    }
  }

  /** The runes of a plain word at the beginning of a text are runes of the text. */
  lemma {:induction false} WordRunes(ts: Tokens, w: string, text: string)
    requires Drawn(ts, text) && w <= Render(ts) && forall c :: c in w ==> c != '\0' && !Special(c)
    ensures forall c :: c in w ==> c in text
  {
    if w != "" {
      var t, rest := ts[0], ts[1..];
      DrawnTail(ts, text);
      assert ts == [t] + rest;
      RenderCons(t, rest);
      assert w[0] in w && !Special(w[0]) && w[0] != '\0';
      FirstRune(t);
      hide Spelled, Drawn;
      assert w[0] == Render(ts)[0] == Spelled(t)[0];
      assert Render(rest) == Render(ts)[1..];
      PrefixTail(w, Render(ts));
      assert forall c :: c in w[1..] ==> c in w;
      WordRunes(rest, w[1..], text);
      assert forall c :: c in w ==> c == w[0] || c in w[1..];
    }
  }

  lemma FirstRune(t: Token)
    ensures Spelled(t) != ""
    ensures !Special(Spelled(t)[0]) && Spelled(t)[0] != '\0' ==> t.Text? && Spelled(t) == [t.c]
  {
    if t.Text? { EscapedRune(t.c, t.escapes); }
    if t.Key? { KeySpelled(t.n); }
    hide EscapeTimes, KeyBody;
  }

  lemma GoesOnSpellable(ts: Tokens, n: nat, text: string)
    requires Drawn(ts, text) && GoesOn(ts, n)
    ensures Spellable(text)
  {
    KeyBodyPlain(n);
    DecimalDigits(n);
    var w := KeyBody(n);
    assert w[0] == 'P' && w[1] == 'H' && w[2] == Decimal(n)[0];
    assert w[0] in w && w[1] in w && w[2] in w;
    hide KeyBody, Decimal, Render;
    assert w <= w + "\0";
    WordRunes(ts, w, text);
    assert w[2] in text && '0' <= w[2] <= '9';
  }

  lemma {:induction false} FoundSpellable(ts: Tokens, n: nat, text: string)
    requires Drawn(ts, text) && FoundInText(ts, n)
    ensures Spellable(text)
  {
    DrawnTail(ts, text);
    hide Spellable, GoesOn, Drawn;
    if FoundInText(ts[1..], n) { FoundSpellable(ts[1..], n, text); } else { GoesOnSpellable(ts[1..], n, text); }
  }

  lemma {:induction false} StraysSpellable(ts: Tokens, phs: seq<Tokens>, n: nat, text: string)
    requires n < |phs| && Drawn(ts, text) && AllDrawn(phs, text) && Strays(ts, phs, n)
    ensures Spellable(text)
  {
    DrawnTail(ts, text);
    hide Spellable, GoesOn, Drawn, FoundInText, NextKeyFrom, Tagged;
    if Strays(ts[1..], phs, n) {
      StraysSpellable(ts[1..], phs, n, text);
    } else if ts[0].n > n {
      GoesOnSpellable(ts[1..], n, text);
    } else {
      FoundSpellable(phs[ts[0].n], n, text);
    }
  }

  lemma {:induction false} OnceDrawn(ts: Tokens, phs: seq<Tokens>, b: nat, text: string)
    requires b <= |phs| && Drawn(ts, text) && AllDrawn(phs, text)
    ensures Drawn(Once(ts, phs, b), text)
  {
    hide Tagged;
    if ts != [] {
      DrawnTail(ts, text);
      OnceDrawn(ts[1..], phs, b, text);
    }
  }

  lemma {:induction false} LayerDrawn(st: State, depth: nat, text: string)
    requires DrawnState(st, text)
    ensures Drawn(Layer(st.s, st.phs, depth), text)
  {
    hide Drawn, AllDrawn, Once;
    if depth > 0 {
      LayerDrawn(st, depth - 1, text);
      OnceDrawn(Layer(st.s, st.phs, depth - 1), st.phs, |st.phs|, text);
    }
  }

  /** Input without P, without H or without digits is always restored. */
  lemma RestoredUnlessSpellable(text: string, p: Patterns)
    requires ArePatterns(p) && NulFree(text) && !Spellable(text)
    ensures RestoredText(Converted(text, p)) == Render(Rendered(text, p)) && NulFree(RestoredText(Converted(text, p)))
  {
    RestoredIsRendered(text, p);
    ConvertedDrawn(text, p);
    var st := Converted(text, p);
    hide *;
    if LedAstray(st) {
      var d, n := AstrayAt(st);
      LayerDrawn(st, d, text);
      DrawnStateIs(st, text);
      StraysSpellable(Layer(st.s, st.phs, d), st.phs, n, text);
    }
  }

  lemma AstrayAt(st: State) returns (d: nat, n: nat)
    requires LedAstray(st)
    ensures n < |st.phs| && Strays(Layer(st.s, st.phs, d), st.phs, n)
  {
    hide Layer, Strays;
    d :| d < |st.phs| + 1 && StraysBelow(Layer(st.s, st.phs, d), st.phs, |st.phs|);
    n :| n < |st.phs| && Strays(Layer(st.s, st.phs, d), st.phs, n);
  }
}
