/** Reading the rendered string back: which tags and which text it holds
    (core/markdown_html.go, convertInlineHTML and escapeHTML). */
module InlineReading {
  import opened InlineTokens
  import opened InlineHtml
  import opened InlineHtmlProperties
  import opened InlineRestore
  import opened InlineHtmlNesting
  import opened InlineText
  import opened InlineLayers
  import opened InlineRendering

  // ----- the strings the passes build

  /** The html a match is stored as, spelled: code, addresses and link texts are escaped as they
      are stored, the rest is not, because it has been escaped before. */
  lemma HtmlSpelled(kind: Kind, ts: Tokens, m: Match)
    requires m.lo <= m.hi <= m.urlLo <= m.urlHi <= |ts| && Flat(ts)
    ensures var inner, url := Render(ts[m.lo..m.hi]), Render(ts[m.urlLo..m.urlHi]);
      Render(Html(kind, ts, m)) ==
      match kind
      case CodeSpan => "<code>" + EscapeHtml(inner) + "</code>"
      case Link => "<a href=\"" + EscapeHtml(url) + "\">" + EscapeHtml(inner) + "</a>"
      case BoldItalic => "<b><i>" + inner + "</i></b>"
      case BoldText => "<b>" + inner + "</b>"
      case StrikeText => "<s>" + inner + "</s>"
  {
    var inner, url := ts[m.lo..m.hi], ts[m.urlLo..m.urlHi];
    FlatSlice(ts, m.lo, m.hi);
    FlatSlice(ts, m.urlLo, m.urlHi);
    EscapeRender(inner);
    EscapeRender(url);
    TagsSpelled();
    hide Render, EscapeHtml, Escaped, Flat;
    match kind
    case CodeSpan => SpelledAround([Open(Code)], Escaped(inner), [Close(Code)]);
    case Link =>
      SpelledAround([LinkOpen], Escaped(url), [LinkMid]);
      SpelledAround([LinkOpen] + Escaped(url) + [LinkMid], Escaped(inner), [LinkClose]);
    case BoldItalic => SpelledAround([Open(Bold), Open(Italic)], inner, [Close(Italic), Close(Bold)]);
    case BoldText => SpelledAround([Open(Bold)], inner, [Close(Bold)]);
    case StrikeText => SpelledAround([Open(Strike)], inner, [Close(Strike)]);
  }

  lemma SpelledAround(a: Tokens, inner: Tokens, b: Tokens)
    ensures Render(a + inner + b) == Render(a) + Render(inner) + Render(b)
  {
    RenderConcat(a, inner);
    RenderConcat(a + inner, b);
  }

  lemma SpelledAlone(t: Token)
    ensures Render([t]) == Spelled(t)
  {
    RenderCons(t, []);
    assert [t] + [] == [t] && Spelled(t) + "" == Spelled(t);
    hide Spelled;
  }

  lemma TagsSpelled()
    ensures Render([Open(Code)]) == "<code>" && Render([Close(Code)]) == "</code>"
    ensures Render([LinkOpen]) == "<a href=\"" && Render([LinkMid]) == "\">" && Render([LinkClose]) == "</a>"
    ensures Render([Open(Bold), Open(Italic)]) == "<b><i>" && Render([Close(Italic), Close(Bold)]) == "</i></b>"
    ensures Render([Open(Bold)]) == "<b>" && Render([Close(Bold)]) == "</b>"
    ensures Render([Open(Strike)]) == "<s>" && Render([Close(Strike)]) == "</s>"
  {
    SpelledAlone(Open(Code));
    SpelledAlone(Close(Code));
    SpelledAlone(LinkOpen);
    SpelledAlone(LinkMid);
    SpelledAlone(LinkClose);
    SpelledAlone(Open(Bold));
    SpelledAlone(Close(Bold));
    SpelledAlone(Open(Strike));
    SpelledAlone(Close(Strike));
    SpelledAlone(Open(Italic));
    SpelledAlone(Close(Italic));
    hide Render;
    RenderCons(Open(Bold), [Open(Italic)]);
    RenderCons(Close(Italic), [Close(Bold)]);
    assert [Open(Bold)] + [Open(Italic)] == [Open(Bold), Open(Italic)];
    assert [Close(Italic)] + [Close(Bold)] == [Close(Italic), Close(Bold)];
  }

  /** Pass 3 on tokens is escaping the whole string: keys stay, every rune is escaped. */
  lemma PlainSpelled(text: string, p: Patterns)
    requires ArePatterns(p)
    ensures var st := Protected(text, p);
      && Fits(p.wikilink(st.s), 0, |st.s|)
      && Render(Plain(text, p).s) == EscapeHtml(Render(Unlinked(st.s, p.wikilink(st.s), 0)))
  {
    ProtectedOrderly(text, p);
    var st := Protected(text, p);
    assert Fits(p.wikilink(st.s), 0, |st.s|);
    UnlinkedFlat(st.s, p.wikilink(st.s), 0);
    EscapeRender(Unlinked(st.s, p.wikilink(st.s), 0));
    hide Protected, Unlinked, Escaped, EscapeHtml, Render, Flat, AllUniform;
  }

  // ----- reading

  /** The token the text begins with, and its length: a tag, an entity, or a rune. */
  function First(s: string): (r: (Token, nat))
    requires s != ""
    ensures 0 < r.1 <= |s|
  {
    if s[0] == '<' then FirstTag(s)
    else if "\">" <= s then (LinkMid, 2)
    else if "&amp;" <= s then (Text('&', 1), 5)
    else if "&lt;" <= s then (Text('<', 1), 4)
    else if "&gt;" <= s then (Text('>', 1), 4)
    else if "&quot;" <= s then (Text('"', 1), 6)
    else (Text(s[0], 1), 1)
  }

  function FirstTag(s: string): (r: (Token, nat))
    requires s != ""
    ensures 0 < r.1 <= |s|
  {
    if "<code>" <= s then (Open(Code), 6)
    else if "</code>" <= s then (Close(Code), 7)
    else if "<b>" <= s then (Open(Bold), 3)
    else if "</b>" <= s then (Close(Bold), 4)
    else if "<i>" <= s then (Open(Italic), 3)
    else if "</i>" <= s then (Close(Italic), 4)
    else if "<s>" <= s then (Open(Strike), 3)
    else if "</s>" <= s then (Close(Strike), 4)
    else if "<a href=\"" <= s then (LinkOpen, 9)
    else if "</a>" <= s then (LinkClose, 4)
    else (Text('<', 1), 1)
  }

  function Read(s: string): Tokens
    decreases |s|
  {
    if s == "" then [] else [First(s).0] + Read(s[First(s).1..])
  }

  lemma FirstOpen(tag: Tag, s: string)
    requires "<" + TagName(tag) + ">" <= s
    ensures First(s) == (Open(tag), |TagName(tag)| + 2)
  {
    match tag
    case Code => assert s[1] == 'c';
    case Bold => assert s[1] == 'b';
    case Italic => assert s[1] == 'i';
    case Strike => assert s[1] == 's';
  }

  lemma FirstClose(tag: Tag, s: string)
    requires "</" + TagName(tag) + ">" <= s
    ensures First(s) == (Close(tag), |TagName(tag)| + 3)
  {
    assert s[1] == '/';
    match tag
    case Code => assert s[2] == 'c';
    case Bold => assert s[2] == 'b';
    case Italic => assert s[2] == 'i';
    case Strike => assert s[2] == 's';
  }

  lemma FirstOfLink(s: string)
    ensures "<a href=\"" <= s ==> First(s) == (LinkOpen, 9)
    ensures "\">" <= s ==> First(s) == (LinkMid, 2)
    ensures "</a>" <= s ==> First(s) == (LinkClose, 4)
  {
    if "<a href=\"" <= s { assert s[1] == 'a'; }
    if "</a>" <= s { assert s[1] == '/' && s[2] == 'a'; }
  }

  lemma FirstRuneRead(c: char, rest: string)
    ensures First(Entity(c) + rest) == (Text(c, 1), |Entity(c)|)
  {
    var s := Entity(c) + rest;
    match c
    case '&' => assert s[1] == 'a';
    case '<' => assert s[1] == 'l';
    case '>' => assert s[1] == 'g';
    case '"' => assert s[1] == 'q';
    case _ => assert s[0] == c;
  }

  lemma EscapedOnceIs(c: char)
    ensures EscapeTimes([c], 1) == Entity(c)
  {
    EscapeOne(c);
    assert EscapeTimes([c], 0) == [c];
    hide EscapeHtml, Entity;
  }

  /** No token but a key can be mistaken for another, whatever follows. */
  lemma FirstSpelled(t: Token, rest: string)
    requires !t.Key? && (t.Text? ==> t.escapes == 1)
    ensures Spelled(t) != "" && First(Spelled(t) + rest) == (t, |Spelled(t)|)
  {
    var s := Spelled(t) + rest;
    assert Spelled(t) <= s;
    match t
    case Text(c, e) =>
      EscapedOnceIs(c);
      FirstRuneRead(c, rest);
    case Open(tag) => FirstOpen(tag, s);
    case Close(tag) => FirstClose(tag, s);
    case _ => FirstOfLink(s);
  }

  /** What is spelled without keys and escaped once reads back as it was. */
  lemma {:induction false} ReadRender(ts: Tokens)
    requires NoKeys(ts) && EscapedTimes(ts, 1)
    ensures Read(Render(ts)) == ts
  {
    if ts != [] {
      var t, rest := ts[0], ts[1..];
      NoKeysCons(ts);
      EscapedTimesSlice(ts, 1, |ts|, 1);
      assert ts[1..|ts|] == rest;
      ReadRender(rest);
      FirstSpelled(t, Render(rest));
      hide First, Spelled, EscapedTimes, NoKeys;
      assert (Spelled(t) + Render(rest))[|Spelled(t)|..] == Render(rest);
    }
  }

  // ----- text

  function Runes(ts: Tokens): string {
    if ts == [] then "" else (if ts[0].Text? then [ts[0].c] else "") + Runes(ts[1..])
  }

  ghost predicate AllText(ts: Tokens) {
    forall i :: 0 <= i < |ts| ==> ts[i].Text?
  }

  /** Text between tags is spelled as its runes, escaped as a whole. */
  lemma {:induction false} TextSpelled(ts: Tokens)
    requires AllText(ts) && EscapedTimes(ts, 1)
    ensures Render(ts) == EscapeHtml(Runes(ts))
  {
    if ts == [] {
      assert EscapeHtml("") == "";
    } else {
      assert forall i :: 0 <= i < |ts| - 1 ==> ts[1..][i] == ts[i + 1];
      TextSpelled(ts[1..]);
      EscapedOnceIs(ts[0].c);
      EscapeCons(ts[0].c, Runes(ts[1..]));
      hide EscapeHtml, Entity;
    }
  }

  /** Every stretch of text holds no bracket and no quote, and reading its entities gives its
      runes. */
  ghost predicate TextSafe(ts: Tokens) {
    forall lo, hi :: 0 <= lo <= hi <= |ts| && AllText(ts[lo..hi]) ==>
      Harmless(Render(ts[lo..hi])) && Unescape(Render(ts[lo..hi])) == Runes(ts[lo..hi])
  }

  lemma TextIsSafe(ts: Tokens)
    requires EscapedTimes(ts, 1)
    ensures TextSafe(ts)
  {
    hide *;
    forall lo, hi | 0 <= lo <= hi <= |ts| && AllText(ts[lo..hi])
      ensures Harmless(Render(ts[lo..hi])) && Unescape(Render(ts[lo..hi])) == Runes(ts[lo..hi])
    {
      EscapedTimesSlice(ts, lo, hi, 1);
      TextSpelled(ts[lo..hi]);
      UnescapeEscape(Runes(ts[lo..hi]));
      EscapedHarmless(Runes(ts[lo..hi]));
    }
    TextSafeIs(ts);
  }

  lemma TextSafeIs(ts: Tokens)
    requires forall lo, hi :: 0 <= lo <= hi <= |ts| && AllText(ts[lo..hi]) ==>
      Harmless(Render(ts[lo..hi])) && Unescape(Render(ts[lo..hi])) == Runes(ts[lo..hi])
    ensures TextSafe(ts)
  {
    hide Harmless, Render, Unescape, Runes, AllText;
  }

  // ----- the output

  lemma RenderedDrawn(text: string, p: Patterns)
    requires ArePatterns(p)
    ensures Drawn(Rendered(text, p), text)
  {
    ConvertedDrawn(text, p);
    ConvertedSound(text, p);
    var st := Converted(text, p);
    assert Rendered(text, p) == Full(st.s, st.phs, |st.phs|);
    hide *;
    LayerDrawn(st, |st.phs|, text);
    SweepsAreLayers(st, |st.phs|);
    SweepsReachAll(st, |st.phs|);
  }

  /** Unless a search is led astray, the output reads as tags and text: it is exactly the
      spelling of what it reads as, which is the expansion, its tags nest unless a link reached
      has a key in its address, its text is safe, and every rune comes from the input. */
  lemma OutputReads(text: string, p: Patterns)
    requires ArePatterns(p) && NulFree(text) && !LedAstray(Converted(text, p))
    ensures var st := Converted(text, p); var out := RestoredText(st); var ts := Read(out);
      && ts == Rendered(text, p) && out == Render(ts) && NoKeys(ts)
      && (Nested(ts) <==> AddressesFree(st.s, st.phs, |st.phs|))
      && TextSafe(ts) && Drawn(ts, text)
  {
    hide *;
    RestoredIsRendered(text, p);
    RenderedEscapedOnce(text, p);
    RenderedNests(text, p);
    RenderedDrawn(text, p);
    var ts := Rendered(text, p);
    ReadRender(ts);
    TextIsSafe(ts);
  }
}
