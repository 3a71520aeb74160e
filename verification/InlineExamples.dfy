/** Inputs on which the inline renderer does not do what it is for: a placeholder that is not
    restored, and tags that do not nest (core/markdown_html.go, convertInlineHTML). */
module InlineExamples {
  import opened Decimals
  import opened InlineTokens
  import opened InlineHtml
  import opened InlineHtmlProperties
  import opened InlineHtmlNesting
  import opened InlineText
  import opened InlineTextRestore
  import opened InlineLayers
  import opened InlineRendering
  import opened InlineMarkup

  // ----- input whose placeholders are not all restored

  const SPOILER := "[x](y)PH0[z](w)`c`"

  function Nothing(): Pattern {
    (ts: Tokens) => []
  }

  /** The inline code at the end. */
  function CodeAtEnd(): Pattern {
    (ts: Tokens) => if |ts| == 18 then [Match(15, 18, 16, 17, 17, 17)] else []
  }

  /** The two links, once the code is a key. */
  function TwoLinks(): Pattern {
    (ts: Tokens) => if |ts| == 16 then [Match(0, 6, 1, 2, 4, 5), Match(9, 15, 10, 11, 13, 14)] else []
  }

  function SpoilerPatterns(): Patterns {
    Patterns(CodeAtEnd(), TwoLinks(), Nothing(), Nothing(), Nothing(), Nothing(), Nothing(), Nothing())
  }

  lemma ExamplePatterns()
    ensures IsPattern(CodeAtEnd()) && IsPattern(TwoLinks()) && IsPattern(Nothing()) && ArePatterns(SpoilerPatterns())
  {
    forall ts: Tokens
      ensures Fits(CodeAtEnd()(ts), 0, |ts|) && Fits(TwoLinks()(ts), 0, |ts|) && Fits(Nothing()(ts), 0, |ts|)
    {
      if |ts| == 18 {
        assert CodeAtEnd()(ts)[1..] == [];
      }
      if |ts| == 16 {
        assert TwoLinks()(ts)[1..] == [Match(9, 15, 10, 11, 13, 14)] && TwoLinks()(ts)[1..][1..] == [];
      }
    }
  }

  lemma ExtractTwo(st: State, p: Pattern, kind: Kind, m1: Match, m2: Match)
    requires IsPattern(p) && p(st.s) == [m1, m2] && 0 == m1.start && m1.end <= m2.start
    requires m2.start <= m2.lo <= m2.hi <= m2.urlLo <= m2.urlHi <= m2.end <= |st.s|
    ensures var r := Extract(st, p, kind);
      && r.s == [Key(|st.phs|)] + st.s[m1.end..m2.start] + [Key(|st.phs| + 1)] + st.s[m2.end..]
      && |r.phs| == |st.phs| + 2
  {
    hide *;
    var ms := ExtractIs(st, p, kind);
    KeyedOne(st.s, m2, m1.end, |st.phs| + 1, kind);
    assert ms[1..] == [m2];
    KeyedIs(st.s, ms, 0, |st.phs|);
    assert st.s[0..0] == [];
    Join3([Key(|st.phs|)], st.s[m1.end..m2.start], [Key(|st.phs| + 1)], st.s[m2.end..]);
  }

  lemma Join3(a: Tokens, b: Tokens, c: Tokens, d: Tokens)
    ensures [] + a + (b + c + d) == a + b + c + d
  {
  }

  lemma SpoilerLetters()
    ensures |SPOILER| == 18 && SPOILER[6] == 'P' && SPOILER[7] == 'H' && SPOILER[8] == '0'
  {
  }

  lemma SpoilerInput()
    ensures |Input(SPOILER)| == 18
    ensures Input(SPOILER)[6..9] == [Text('P', 0), Text('H', 0), Text('0', 0)]
  {
    hide *;
    SpoilerLetters();
    InputIs(SPOILER);
  }

  lemma PatternsAre(ts: Tokens)
    ensures SpoilerPatterns().code == CodeAtEnd() && SpoilerPatterns().link == TwoLinks()
    ensures |ts| == 18 ==> CodeAtEnd()(ts) == [Match(15, 18, 16, 17, 17, 17)]
    ensures |ts| == 16 ==> TwoLinks()(ts) == [Match(0, 6, 1, 2, 4, 5), Match(9, 15, 10, 11, 13, 14)]
  {
  }

  /** The state after passes 1 and 2. */
  lemma SpoilerProtected()
    ensures ArePatterns(SpoilerPatterns())
    ensures var st := Protected(SPOILER, SpoilerPatterns());
      && st.s == [Key(1), Text('P', 0), Text('H', 0), Text('0', 0), Key(2), Key(0)]
      && |st.phs| == 3
  {
    hide *;
    ExamplePatterns();
    SpoilerInput();
    ProtectedIs(SPOILER, SpoilerPatterns());
    var t := Input(SPOILER);
    var st := State(t, []);
    var st1 := Extract(st, CodeAtEnd(), CodeSpan);
    PatternsAre(t);
    PatternsAre(st1.s);
    ExtractOne(st, CodeAtEnd(), CodeSpan, Match(15, 18, 16, 17, 17, 17));
    OneKey(t, 0, st1.s);
    ExtractTwo(st1, TwoLinks(), Link, Match(0, 6, 1, 2, 4, 5), Match(9, 15, 10, 11, 13, 14));
  }

  lemma ProtectedIs(text: string, p: Patterns)
    requires ArePatterns(p)
    ensures Protected(text, p) == Extract(Extract(State(Input(text), []), p.code, CodeSpan), p.link, Link)
  {
    hide Extract, Input;
  }

  lemma OneKey(t: Tokens, k: nat, s: Tokens)
    requires |t| == 18 && s == t[..15] + [Key(k)] + t[18..]
    ensures |s| == 16 && s[6..9] == t[6..9] && s[15..] == [Key(k)]
  {
  }

  /** The state before restoring. */
  lemma SpoilerConverted()
    ensures ArePatterns(SpoilerPatterns())
    ensures var st := Converted(SPOILER, SpoilerPatterns());
      && st.s == [Key(1), Text('P', 1), Text('H', 1), Text('0', 1), Key(2), Key(0)]
      && |st.phs| == 3
  {
    SpoilerProtected();
    var p := SpoilerPatterns();
    var st := Protected(SPOILER, p);
    ExamplePatterns();
    hide Extract, Protected, SPOILER, Escaped;
    assert Unlinked(st.s, [], 0) == st.s;
    SpoilerEscaped();
    var plain := Plain(SPOILER, p);
    assert plain == State(Escaped(st.s), st.phs);
    ExtractNone(plain, p.boldItalic, BoldItalic);
    ExtractNone(plain, p.boldAst, BoldText);
    ExtractNone(plain, p.boldUnd, BoldText);
    ExtractNone(plain, p.strike, StrikeText);
    assert Slanted(plain.s, [], 0) == plain.s;
  }

  lemma SpoilerEscaped()
    ensures Escaped([Key(1), Text('P', 0), Text('H', 0), Text('0', 0), Key(2), Key(0)])
         == [Key(1), Text('P', 1), Text('H', 1), Text('0', 1), Key(2), Key(0)]
  {
    var a := [Key(1), Text('P', 0), Text('H', 0), Text('0', 0), Key(2), Key(0)];
    EscapedCount(a, 0);
    EscapedAt(a, 0);
    EscapedAt(a, 1);
    EscapedAt(a, 2);
    EscapedAt(a, 3);
    EscapedAt(a, 4);
    EscapedAt(a, 5);
    hide Escaped;
  }

  /** NUL-free input that leads a search astray: with these links and this inline code matched,
      the output is not the expansion and still holds NUL. */
  lemma SpoilerSpoils()
    ensures ArePatterns(SpoilerPatterns()) && NulFree(SPOILER)
    ensures var st := Converted(SPOILER, SpoilerPatterns());
      RestoredText(st) != Render(Rendered(SPOILER, SpoilerPatterns())) && !NulFree(RestoredText(st))
  {
    hide *;
    SpoilerIsNulFree();
    SpoilerConverted();
    var st := Converted(SPOILER, SpoilerPatterns());
    SpoilerStrays(st.s, st.phs);
    AstrayAtOnce(st, 0);
    RestoredIsRendered(SPOILER, SpoilerPatterns());
  }

  lemma SpoilerIsNulFree()
    ensures NulFree(SPOILER)
  {
  }

  lemma AstrayAtOnce(st: State, n: nat)
    requires n < |st.phs| && Strays(st.s, st.phs, n)
    ensures LedAstray(st)
  {
    hide Strays;
    assert Layer(st.s, st.phs, 0) == st.s;
    assert StraysBelow(st.s, st.phs, |st.phs|);
  }

  lemma SpoilerStrays(s: Tokens, phs: seq<Tokens>)
    requires s == [Key(1), Text('P', 1), Text('H', 1), Text('0', 1), Key(2), Key(0)] && |phs| == 3
    ensures Strays(s, phs, 0)
  {
    SpelledOnce('P');
    SpelledOnce('H');
    SpelledOnce('0');
    NextAnyKey(s[1..]);
    hide Spelled, Render, NextKeyFrom, KeyText, GoesOn;
    RenderAt(s, 1);
    RenderAt(s, 2);
    RenderAt(s, 3);
    RenderAt(s, 4);
    KeySpelled(2);
    SpellsZero(s[1..], Render(s[5..]));
  }

  lemma NextAnyKey(ts: Tokens)
    ensures NextKeyFrom(ts, 0)
  {
  }

  lemma RenderAt(s: Tokens, i: nat)
    requires i < |s|
    ensures Render(s[i..]) == Spelled(s[i]) + Render(s[i + 1..])
  {
    hide Spelled;
    assert s[i..][1..] == s[i + 1..];
  }

  lemma SpellsZero(ts: Tokens, rest: string)
    requires Render(ts) == "P" + ("H" + ("0" + (KeyText(2) + rest)))
    ensures GoesOn(ts, 0)
  {
    ZeroBody();
    hide Decimal, KeyBody, Render;
    var tail := (KeyBody(2) + "\0") + rest;
    assert KeyText(2) + rest == "\0" + tail;
    assert Render(ts) == "PH0" + "\0" + tail;
  }

  lemma ZeroBody()
    ensures KeyBody(0) == "PH0"
  {
    assert Decimal(0) == "0";
    assert "PH" + "0" == "PH0";
  }

  lemma SpelledOnce(c: char)
    requires c !in {'&', '<', '>', '"'}
    ensures Spelled(Text(c, 1)) == [c]
  {
    EscapeOne(c);
    assert EscapeTimes([c], 0) == [c];
    hide EscapeHtml;
  }

  // ----- input whose tags do not nest

  const TAGGED_ADDRESS := "[x](`y`)"

  /** The inline code in the address. */
  function CodeInAddress(): Pattern {
    (ts: Tokens) => if |ts| == 8 then [Match(4, 7, 5, 6, 6, 6)] else []
  }

  /** The link, once the code is a key. */
  function OneLink(): Pattern {
    (ts: Tokens) => if |ts| == 6 then [Match(0, 6, 1, 2, 4, 5)] else []
  }

  function AddressPatterns(): Patterns {
    Patterns(CodeInAddress(), OneLink(), Nothing(), Nothing(), Nothing(), Nothing(), Nothing(), Nothing())
  }

  lemma AddressPatternsFit()
    ensures IsPattern(CodeInAddress()) && IsPattern(OneLink()) && IsPattern(Nothing()) && ArePatterns(AddressPatterns())
  {
    forall ts: Tokens
      ensures Fits(CodeInAddress()(ts), 0, |ts|) && Fits(OneLink()(ts), 0, |ts|) && Fits(Nothing()(ts), 0, |ts|)
    {
      if |ts| == 8 {
        assert CodeInAddress()(ts)[1..] == [];
      }
      if |ts| == 6 {
        assert OneLink()(ts)[1..] == [];
      }
    }
  }

  lemma AddressPatternsAre(ts: Tokens)
    ensures AddressPatterns().code == CodeInAddress() && AddressPatterns().link == OneLink()
    ensures |ts| == 8 ==> CodeInAddress()(ts) == [Match(4, 7, 5, 6, 6, 6)]
    ensures |ts| == 6 ==> OneLink()(ts) == [Match(0, 6, 1, 2, 4, 5)]
  {
  }

  lemma AddressInput() returns (t: Tokens)
    ensures t == Input(TAGGED_ADDRESS) && |t| == 8 && Flat(t)
  {
    t := Input(TAGGED_ADDRESS);
    InputFlat(TAGGED_ADDRESS);
    hide Input, Flat;
    InputIs(TAGGED_ADDRESS);
  }

  /** The state after passes 1 and 2. */
  lemma AddressProtected()
    ensures ArePatterns(AddressPatterns())
    ensures var st := Protected(TAGGED_ADDRESS, AddressPatterns());
      st.s == [Key(1)] && |st.phs| == 2 && KeyInAddress(st.phs[1])
  {
    hide *;
    var t := AddressInput();
    AddressPatternsFit();
    ProtectedIs(TAGGED_ADDRESS, AddressPatterns());
    var st := State(t, []);
    var st1 := Extract(st, CodeInAddress(), CodeSpan);
    AddressPatternsAre(t);
    ExtractOne(st, CodeInAddress(), CodeSpan, Match(4, 7, 5, 6, 6, 6));
    KeyInside(t, st1.s);
    AddressPatternsAre(st1.s);
    var m := Match(0, 6, 1, 2, 4, 5);
    ExtractOne(st1, OneLink(), Link, m);
    HtmlAddress(Link, st1.s, m);
    assert st1.s[..0] + [Key(1)] + st1.s[6..] == [Key(1)];
  }

  lemma KeyInside(t: Tokens, s: Tokens)
    requires |t| == 8 && Flat(t) && s == t[..4] + [Key(0)] + t[7..]
    ensures |s| == 6 && Flat(s) && !NoKeys(s[4..5])
  {
    assert s[4..5][0] == Key(0);
  }

  /** Inline code inside the address of a link: the tags of the result do not nest. */
  lemma TaggedAddressFails()
    ensures ArePatterns(AddressPatterns()) && !Nested(Rendered(TAGGED_ADDRESS, AddressPatterns()))
  {
    AddressProtected();
    var p := AddressPatterns();
    var st := Protected(TAGGED_ADDRESS, p);
    AddressPatternsFit();
    hide Extract, Protected, TAGGED_ADDRESS, Escaped, KeyInAddress, Nested, Rendered, AddressesFree;
    assert Unlinked(st.s, [], 0) == st.s;
    assert Escaped([Key(1)]) == [Key(1)] by { OneKeyEscaped(); }
    var plain := Plain(TAGGED_ADDRESS, p);
    assert plain == State(Escaped(st.s), st.phs);
    ExtractNone(plain, p.boldItalic, BoldItalic);
    ExtractNone(plain, p.boldAst, BoldText);
    ExtractNone(plain, p.boldUnd, BoldText);
    ExtractNone(plain, p.strike, StrikeText);
    assert Slanted(plain.s, [], 0) == plain.s;
    RenderedNests(TAGGED_ADDRESS, p);
    ReachedAtOnce(st.phs);
  }

  lemma OneKeyEscaped()
    ensures Escaped([Key(1)]) == [Key(1)]
  {
    assert [Key(1)][1..] == [];
  }

  lemma ReachedAtOnce(phs: seq<Tokens>)
    requires |phs| == 2 && KeyInAddress(phs[1])
    ensures !AddressesFree([Key(1)], phs, 2)
  {
    hide KeyInAddress;
  }
}
