/** What the inline renderer makes of its input, as strings: which markup each pattern's matches
    get, and in which order the passes are made (core/markdown_html.go, convertInlineHTML). */
module InlineMarkup {
  import opened InlineTokens
  import opened InlineHtml
  import opened InlineHtmlProperties
  import opened InlineHtmlNesting
  import opened InlineRestore
  import opened InlineText
  import opened InlineTextRestore
  import opened InlineLayers
  import opened InlineReading
  import opened InlineRendering

  // ----- single passes on tokens

  lemma {:induction false} InputIs(text: string)
    ensures |Input(text)| == |text| && forall i :: 0 <= i < |text| ==> Input(text)[i] == Text(text[i], 0)
  {
    if text != "" { InputIs(text[1..]); }
  }

  lemma KeyedOne(ts: Tokens, m: Match, from: nat, base: nat, kind: Kind)
    requires from <= m.start <= m.lo <= m.hi <= m.urlLo <= m.urlHi <= m.end <= |ts|
    ensures Fits([m], from, |ts|)
    ensures Keyed(ts, [m], from, base) == ts[from..m.start] + [Key(base)] + ts[m.end..]
    ensures Stored(ts, [m], from, kind) == [Html(kind, ts, m)]
  {
    hide Html, Keyed, Stored;
    assert [m][1..] == [];
    KeyedIs(ts, [m], from, base);
    StoredIs(ts, [m], from, kind);
    ReplaceDone(ts, m.end, kind, base + 1);
    assert [Html(kind, ts, m)] + [] == [Html(kind, ts, m)];
  }

  lemma ExtractOne(st: State, p: Pattern, kind: Kind, m: Match)
    requires IsPattern(p) && p(st.s) == [m] && m.start <= m.lo <= m.hi <= m.urlLo <= m.urlHi <= m.end <= |st.s|
    ensures Extract(st, p, kind)
         == State(st.s[..m.start] + [Key(|st.phs|)] + st.s[m.end..], st.phs + [Html(kind, st.s, m)])
  {
    hide *;
    var ms := ExtractIs(st, p, kind);
    KeyedOne(st.s, m, 0, |st.phs|, kind);
    assert st.s[0..m.start] == st.s[..m.start];
  }

  lemma ExtractNone(st: State, p: Pattern, kind: Kind)
    requires IsPattern(p) && p(st.s) == []
    ensures Extract(st, p, kind) == st
  {
    assert st.s[0..] == st.s && st.phs + [] == st.phs;
  }

  // ----- escaping piece by piece

  lemma {:induction false} EscapedAt(ts: Tokens, i: nat)
    requires i < |ts| == |Escaped(ts)|
    ensures Escaped(ts)[i] == if ts[i].Text? then ts[i].(escapes := ts[i].escapes + 1) else ts[i]
  {
    if i > 0 { EscapedAt(ts[1..], i - 1); }
  }

  lemma {:induction false} EscapedConcat(a: Tokens, b: Tokens)
    ensures Escaped(a + b) == Escaped(a) + Escaped(b)
  {
    if a == [] {
      assert a + b == b;
    } else {
      assert (a + b)[1..] == a[1..] + b;
      EscapedConcat(a[1..], b);
    }
  }

  lemma EscapedSlice(ts: Tokens, lo: nat, hi: nat)
    requires lo <= hi <= |ts|
    ensures |Escaped(ts)| == |ts| && Escaped(ts)[lo..hi] == Escaped(ts[lo..hi])
    ensures Escaped(ts)[..lo] == Escaped(ts[..lo]) && Escaped(ts)[hi..] == Escaped(ts[hi..])
  {
    var a, b, c := ts[..lo], ts[lo..hi], ts[hi..];
    assert ts == a + b + c;
    EscapedConcat(a + b, c);
    EscapedConcat(a, b);
    EscapedCount(a, 0);
    EscapedCount(b, 0);
    EscapedCount(c, 0);
    hide *;
    Middle(Escaped(a), Escaped(b), Escaped(c));
  }

  lemma Middle(a: Tokens, b: Tokens, c: Tokens)
    ensures var s := a + b + c; s[|a|..|a| + |b|] == b && s[..|a|] == a && s[|a| + |b|..] == c
  {
  }

  lemma EscapedKey(n: nat)
    ensures Escaped([Key(n)]) == [Key(n)]
  {
    assert [Key(n)][1..] == [];
  }

  // ----- the passes and their markup

  datatype Pass = CodePass | LinkPass | WikilinkPass | BoldItalicPass | BoldAstPass | BoldUndPass | StrikePass | ItalicPass
  {
    /** The place of the pass in the conversion. */
    function Place(): nat {
      match this
      case CodePass => 0
      case LinkPass => 1
      case WikilinkPass => 2
      case BoldItalicPass => 3
      case BoldAstPass => 4
      case BoldUndPass => 5
      case StrikePass => 6
      case ItalicPass => 7
    }

    function PatternOf(p: Patterns): Pattern {
      match this
      case CodePass => p.code
      case LinkPass => p.link
      case WikilinkPass => p.wikilink
      case BoldItalicPass => p.boldItalic
      case BoldAstPass => p.boldAst
      case BoldUndPass => p.boldUnd
      case StrikePass => p.strike
      case ItalicPass => p.italic
    }

    /** The passes before this one's step leave the text unescaped up to the third. */
    function Sees(ts: Tokens): Tokens {
      if Place() <= 2 then ts else Escaped(ts)
    }

    /** The matches become placeholders. */
    predicate Keeps() {
      this != WikilinkPass && this != ItalicPass
    }

    /** The markup of a match, around its inner part; only links have an address. */
    function Markup(url: string, inner: string): string {
      match this
      case CodePass => "<code>" + inner + "</code>"
      case LinkPass => "<a href=\"" + url + "\">" + inner + "</a>"
      case WikilinkPass => inner
      case BoldItalicPass => "<b><i>" + inner + "</i></b>"
      case BoldAstPass => "<b>" + inner + "</b>"
      case BoldUndPass => "<b>" + inner + "</b>"
      case StrikePass => "<s>" + inner + "</s>"
      case ItalicPass => "<i>" + inner + "</i>"
    }

    function Front(url: Tokens): Tokens {
      match this
      case CodePass => [Open(Code)]
      case LinkPass => [LinkOpen] + url + [LinkMid]
      case WikilinkPass => []
      case BoldItalicPass => [Open(Bold), Open(Italic)]
      case BoldAstPass => [Open(Bold)]
      case BoldUndPass => [Open(Bold)]
      case StrikePass => [Open(Strike)]
      case ItalicPass => [Open(Italic)]
    }

    function Back(): Tokens {
      match this
      case CodePass => [Close(Code)]
      case LinkPass => [LinkClose]
      case WikilinkPass => []
      case BoldItalicPass => [Close(Italic), Close(Bold)]
      case BoldAstPass => [Close(Bold)]
      case BoldUndPass => [Close(Bold)]
      case StrikePass => [Close(Strike)]
      case ItalicPass => [Close(Italic)]
    }
  }

  lemma MarkupSpelled(pass: Pass, url: Tokens, inner: Tokens)
    ensures Render(pass.Front(url) + inner + pass.Back()) == pass.Markup(Render(url), Render(inner))
  {
    SpelledAround(pass.Front(url), inner, pass.Back());
    FrontAndBack(pass, url, Render(inner));
    hide *;
  }

  lemma FrontAndBack(pass: Pass, url: Tokens, inner: string)
    ensures Render(pass.Front(url)) + inner + Render(pass.Back()) == pass.Markup(Render(url), inner)
  {
    match pass
    case LinkPass => LinkSpelled(url); hide Render;
    case WikilinkPass => NothingSpelled(); hide Render; assert "" + inner + "" == inner;
    case ItalicPass => SpelledAlone(Open(Italic)); SpelledAlone(Close(Italic)); hide Render;
    case _ => TagsSpelled(); hide Render;
  }

  lemma NothingSpelled()
    ensures Render([]) == ""
  {
  }

  lemma LinkSpelled(url: Tokens)
    ensures Render([LinkOpen] + url + [LinkMid]) == "<a href=\"" + Render(url) + "\">" && Render([LinkClose]) == "</a>"
  {
    TagsSpelled();
    SpelledAround([LinkOpen], url, [LinkMid]);
    hide Render;
  }

  function KindOf(pass: Pass): Kind {
    match pass
    case CodePass => CodeSpan
    case LinkPass => Link
    case BoldItalicPass => BoldItalic
    case StrikePass => StrikeText
    case _ => BoldText
  }

  /** One step of the conversion; the escaping goes with the wikilinks. */
  ghost function Step(pass: Pass, st: State, p: Patterns): State
    requires ArePatterns(p)
  {
    match pass
    case CodePass => Extract(st, p.code, CodeSpan)
    case LinkPass => Extract(st, p.link, Link)
    case WikilinkPass => State(Escaped(Unlinked(st.s, p.wikilink(st.s), 0)), st.phs)
    case BoldItalicPass => Extract(st, p.boldItalic, BoldItalic)
    case BoldAstPass => Extract(st, p.boldAst, BoldText)
    case BoldUndPass => Extract(st, p.boldUnd, BoldText)
    case StrikePass => Extract(st, p.strike, StrikeText)
    case ItalicPass => State(Slanted(st.s, p.italic(st.s), 0), st.phs)
  }

  function PassAt(n: nat): (pass: Pass)
    requires n < 8
    ensures pass.Place() == n
  {
    if n == 0 then CodePass
    else if n == 1 then LinkPass
    else if n == 2 then WikilinkPass
    else if n == 3 then BoldItalicPass
    else if n == 4 then BoldAstPass
    else if n == 5 then BoldUndPass
    else if n == 6 then StrikePass
    else ItalicPass
  }

  lemma PassAtPlace(pass: Pass)
    ensures pass.Place() < 8 && PassAt(pass.Place()) == pass
  {
  }

  /** The steps from number `n` on. */
  ghost function Steps(n: nat, st: State, p: Patterns): State
    requires n <= 8 && ArePatterns(p)
    decreases 8 - n
  {
    if n == 8 then st else Steps(n + 1, Step(PassAt(n), st, p), p)
  }

  lemma StepsIs(n: nat, st: State, p: Patterns)
    requires n <= 8 && ArePatterns(p)
    ensures Steps(n, st, p) == if n == 8 then st else Steps(n + 1, Step(PassAt(n), st, p), p)
  {
    hide Step;
  }

  /** The conversion is all steps in order. */
  lemma ConvertedSteps(text: string, p: Patterns)
    requires ArePatterns(p)
    ensures Converted(text, p) == Steps(0, State(Input(text), []), p)
  {
    hide Extract, Unlinked, Slanted, Escaped, Steps;
    var s0 := State(Input(text), []);
    var s1 := Step(CodePass, s0, p);
    var s2 := Step(LinkPass, s1, p);
    var s3 := Step(WikilinkPass, s2, p);
    var s4 := Step(BoldItalicPass, s3, p);
    var s5 := Step(BoldAstPass, s4, p);
    var s6 := Step(BoldUndPass, s5, p);
    var s7 := Step(StrikePass, s6, p);
    StepsIs(0, s0, p);
    StepsIs(1, s1, p);
    StepsIs(2, s2, p);
    StepsIs(3, s3, p);
    StepsIs(4, s4, p);
    StepsIs(5, s5, p);
    StepsIs(6, s6, p);
    StepsIs(7, s7, p);
    StepsIs(8, Step(ItalicPass, s7, p), p);
  }

  // ----- steps whose pattern matches nothing, and once

  /** The text a step sees if `ts` is the text without its escaping. */
  function Shown(n: nat, ts: Tokens): Tokens {
    if n <= 2 then ts else Escaped(ts)
  }

  /** The pattern matches nothing when it is its turn. */
  ghost predicate Quiet(pass: Pass, ts: Tokens, p: Patterns) {
    pass.PatternOf(p)(pass.Sees(ts)) == []
  }

  ghost predicate QuietFrom(lo: nat, hi: nat, ts: Tokens, p: Patterns) {
    forall pass: Pass :: lo <= pass.Place() < hi ==> Quiet(pass, ts, p)
  }

  lemma PatternsFit(pass: Pass, p: Patterns)
    requires ArePatterns(p)
    ensures IsPattern(pass.PatternOf(p))
  {
    hide IsPattern;
  }

  lemma QuietStep(pass: Pass, ts: Tokens, phs: seq<Tokens>, p: Patterns)
    requires ArePatterns(p) && Quiet(pass, ts, p)
    ensures Step(pass, State(Shown(pass.Place(), ts), phs), p) == State(Shown(pass.Place() + 1, ts), phs)
  {
    PatternsFit(pass, p);
    var st := State(Shown(pass.Place(), ts), phs);
    if pass.Keeps() { ExtractNone(st, pass.PatternOf(p), KindOf(pass)); }
    hide Extract, Escaped, IsPattern;
    assert st.s[0..] == st.s;
  }

  /** Steps without a match do nothing but escape. */
  lemma {:induction false} QuietSteps(lo: nat, hi: nat, ts: Tokens, phs: seq<Tokens>, p: Patterns)
    requires lo <= hi <= 8 && ArePatterns(p) && QuietFrom(lo, hi, ts, p)
    ensures Steps(lo, State(Shown(lo, ts), phs), p) == Steps(hi, State(Shown(hi, ts), phs), p)
    decreases hi - lo
  {
    if lo < hi {
      hide *;
      StepsIs(lo, State(Shown(lo, ts), phs), p);
      QuietAt(lo, hi, ts, p);
      QuietStep(PassAt(lo), ts, phs, p);
      QuietSteps(lo + 1, hi, ts, phs, p);
    }
  }

  lemma QuietAt(lo: nat, hi: nat, ts: Tokens, p: Patterns)
    requires lo < hi <= 8 && QuietFrom(lo, hi, ts, p)
    ensures Quiet(PassAt(lo), ts, p) && QuietFrom(lo + 1, hi, ts, p)
  {
    hide Quiet, PassAt;
  }

  ghost predicate Within(m: Match, n: nat) {
    m.start <= m.lo <= m.hi <= m.urlLo <= m.urlHi <= m.end <= n
  }

  /** The pattern matches once, when it is its turn. */
  ghost predicate MatchesOnce(pass: Pass, ts: Tokens, m: Match, p: Patterns) {
    Within(m, |ts|) && pass.PatternOf(p)(pass.Sees(ts)) == [m]
  }

  /** A match that is kept as a placeholder: its html is the escaped inner part in its markup. */
  lemma KeyStep(pass: Pass, ts: Tokens, phs: seq<Tokens>, m: Match, p: Patterns)
    requires ArePatterns(p) && pass.Keeps() && MatchesOnce(pass, ts, m, p)
    ensures var html := pass.Front(Escaped(ts[m.urlLo..m.urlHi])) + Escaped(ts[m.lo..m.hi]) + pass.Back();
      Step(pass, State(Shown(pass.Place(), ts), phs), p)
      == State(Shown(pass.Place() + 1, ts[..m.start] + [Key(|phs|)] + ts[m.end..]), phs + [html])
  {
    hide *;
    var seen := Shown(pass.Place(), ts);
    SeesShown(pass, ts, m, p);
    StepExtracts(pass, State(seen, phs), p);
    PatternsFit(pass, p);
    ExtractOne(State(seen, phs), pass.PatternOf(p), KindOf(pass), m);
    ShownHtml(pass, ts, m);
    ShownAround(pass, ts, m.start, m.end, |phs|);
  }

  lemma SeesShown(pass: Pass, ts: Tokens, m: Match, p: Patterns)
    requires MatchesOnce(pass, ts, m, p)
    ensures var seen := Shown(pass.Place(), ts);
      && pass.PatternOf(p)(seen) == [m] && |seen| == |ts|
      && m.start <= m.lo <= m.hi <= m.urlLo <= m.urlHi <= m.end <= |ts|
  {
    EscapedCount(ts, 0);
    hide Escaped;
  }

  lemma StepExtracts(pass: Pass, st: State, p: Patterns)
    requires ArePatterns(p) && pass.Keeps()
    ensures IsPattern(pass.PatternOf(p)) && Step(pass, st, p) == Extract(st, pass.PatternOf(p), KindOf(pass))
  {
    hide Extract, IsPattern;
  }

  lemma ShownHtml(pass: Pass, ts: Tokens, m: Match)
    requires m.start <= m.lo <= m.hi <= m.urlLo <= m.urlHi <= m.end <= |ts| && pass.Keeps()
    ensures |Shown(pass.Place(), ts)| == |ts|
    ensures Html(KindOf(pass), Shown(pass.Place(), ts), m)
         == pass.Front(Escaped(ts[m.urlLo..m.urlHi])) + Escaped(ts[m.lo..m.hi]) + pass.Back()
  {
    EscapedSlice(ts, m.lo, m.hi);
    hide Escaped;
  }

  lemma ShownAround(pass: Pass, ts: Tokens, a: nat, b: nat, key: nat)
    requires a <= b <= |ts| && pass.Keeps()
    ensures var n := pass.Place();
      |Shown(n, ts)| == |ts| && Shown(n, ts)[..a] + [Key(key)] + Shown(n, ts)[b..] == Shown(n + 1, ts[..a] + [Key(key)] + ts[b..])
  {
    EscapedAround(ts, a, b, key);
    hide Escaped;
  }

  lemma EscapedAround(ts: Tokens, a: nat, b: nat, n: nat)
    requires a <= b <= |ts|
    ensures |Escaped(ts)| == |ts| && Escaped(ts)[..a] + [Key(n)] + Escaped(ts)[b..] == Escaped(ts[..a] + [Key(n)] + ts[b..])
  {
    EscapedSlice(ts, a, b);
    EscapedConcat(ts[..a] + [Key(n)], ts[b..]);
    EscapedConcat(ts[..a], [Key(n)]);
    EscapedKey(n);
    hide Escaped;
  }

  /** A wikilink gives way to its inner part. */
  lemma WikilinkStep(ts: Tokens, phs: seq<Tokens>, m: Match, p: Patterns)
    requires ArePatterns(p) && MatchesOnce(WikilinkPass, ts, m, p)
    ensures Step(WikilinkPass, State(ts, phs), p) == State(Escaped(ts[..m.start] + ts[m.lo..m.hi] + ts[m.end..]), phs)
  {
    PatternsFit(WikilinkPass, p);
    var ms := p.wikilink(ts);
    assert Fits(ms, 0, |ts|);
    UnlinkedIs(ts, ms, 0);
    assert ms[1..] == [] && ts[0..m.start] == ts[..m.start];
    assert Unlinked(ts, [], m.end) == ts[m.end..];
    hide Unlinked, Escaped, IsPattern, Fits;
  }

  /** An italic match: the runes around its stars stay. */
  lemma ItalicStep(ts: Tokens, phs: seq<Tokens>, m: Match, p: Patterns)
    requires ArePatterns(p) && MatchesOnce(ItalicPass, ts, m, p) && m.start < m.lo && m.hi < m.end
    ensures Step(ItalicPass, State(Escaped(ts), phs), p)
      == State(Escaped(ts[..m.lo - 1]) + [Open(Italic)] + Escaped(ts[m.lo..m.hi]) + [Close(Italic)] + Escaped(ts[m.hi + 1..]), phs)
  {
    hide *;
    SeesShown(ItalicPass, ts, m, p);
    ShownLast(ts);
    EscapedSlice(ts, m.lo, m.hi);
    EscapedSlice(ts, m.lo - 1, m.hi + 1);
    PatternsFit(ItalicPass, p);
    ItalicIs(State(Escaped(ts), phs), p);
    SlantedOne(Escaped(ts), m);
  }

  lemma ShownLast(ts: Tokens)
    ensures Shown(ItalicPass.Place(), ts) == Escaped(ts)
  {
  }

  lemma ItalicIs(st: State, p: Patterns)
    requires ArePatterns(p)
    ensures ItalicPass.PatternOf(p) == p.italic && Fits(p.italic(st.s), 0, |st.s|)
    ensures Step(ItalicPass, st, p) == State(Slanted(st.s, p.italic(st.s), 0), st.phs)
  {
    assert Fits(p.italic(st.s), 0, |st.s|);
    hide Slanted, Fits;
  }

  lemma SlantedOne(es: Tokens, m: Match)
    requires m.start < m.lo <= m.hi <= m.urlLo <= m.urlHi <= m.end <= |es| && m.hi < m.end
    ensures Fits([m], 0, |es|)
    ensures Slanted(es, [m], 0) == es[..m.lo - 1] + [Open(Italic)] + es[m.lo..m.hi] + [Close(Italic)] + es[m.hi + 1..]
  {
    assert [m][1..] == [];
    SlantedIs(es, [m], 0);
    assert Slanted(es, [], m.end) == es[m.end..];
    hide Slanted, Italicised;
    SlantParts(es, m);
  }

  lemma SlantParts(es: Tokens, m: Match)
    requires m.start < m.lo <= m.hi < m.end <= |es|
    ensures es[0..m.start] + Italicised(es, m) + es[m.end..]
         == es[..m.lo - 1] + [Open(Italic)] + es[m.lo..m.hi] + [Close(Italic)] + es[m.hi + 1..]
  {
    assert es[..m.lo - 1] == es[0..m.start] + es[m.start..m.lo - 1];
    assert es[m.hi + 1..] == es[m.hi + 1..m.end] + es[m.end..];
  }

  // ----- nothing leads a search astray

  /** At most one key. */
  ghost predicate Lonely(ts: Tokens) {
    forall i, j :: 0 <= i < j < |ts| ==> !(ts[i].Key? && ts[j].Key?)
  }

  ghost predicate AllLonely(phs: seq<Tokens>) {
    forall k :: 0 <= k < |phs| ==> Lonely(phs[k]) && Clean(phs[k])
  }

  lemma LonelyTail(ts: Tokens)
    requires ts != [] && Lonely(ts) && Clean(ts)
    ensures Lonely(ts[1..]) && Clean(ts[1..]) && (ts[0].Key? ==> NoKeys(ts[1..]))
  {
    assert forall i :: 0 <= i < |ts| - 1 ==> ts[1..][i] == ts[i + 1];
  }

  lemma LonelyConcat(a: Tokens, b: Tokens)
    requires Lonely(a) && Lonely(b) && Clean(a) && Clean(b) && (NoKeys(a) || NoKeys(b))
    ensures Lonely(a + b) && Clean(a + b) && (NoKeys(a) && NoKeys(b) ==> NoKeys(a + b))
  {
  }

  lemma {:induction false} OnceLonely(ts: Tokens, phs: seq<Tokens>, b: nat)
    requires b <= |phs| && Lonely(ts) && Clean(ts) && AllLonely(phs)
    ensures Lonely(Once(ts, phs, b)) && Clean(Once(ts, phs, b)) && (NoKeys(ts) ==> NoKeys(Once(ts, phs, b)))
  {
    if ts != [] {
      LonelyTail(ts);
      OnceLonely(ts[1..], phs, b);
      NoKeysCons(ts);
      var t := if ts[0].Key? && ts[0].n < b then phs[ts[0].n] else [ts[0]];
      assert Once(ts, phs, b) == t + Once(ts[1..], phs, b);
      hide Once, NoKeys, Lonely, Clean;
      OneLonely(ts[0]);
      CleanHead(ts);
      LonelyConcat(t, Once(ts[1..], phs, b));
    }
  }

  lemma OneLonely(t: Token)
    ensures Lonely([t]) && (NoKeys([t]) <==> !t.Key?)
  {
    assert [t][0] == t;
  }

  lemma CleanHead(ts: Tokens)
    requires ts != [] && Clean(ts)
    ensures Clean([ts[0]])
  {
  }

  lemma {:induction false} LayerLonely(ts: Tokens, phs: seq<Tokens>, depth: nat)
    requires Lonely(ts) && Clean(ts) && AllLonely(phs)
    ensures Lonely(Layer(ts, phs, depth)) && Clean(Layer(ts, phs, depth))
  {
    hide Lonely, Clean, Once;
    if depth > 0 {
      LayerLonely(ts, phs, depth - 1);
      OnceLonely(Layer(ts, phs, depth - 1), phs, |phs|);
    }
  }

  /** Without a key the text has no NUL to go on with. */
  lemma NoKeysEnds(ts: Tokens, n: nat)
    requires NoKeys(ts) && Clean(ts)
    ensures !GoesOn(ts, n)
  {
    NoKeysNulFree(ts);
    var w := KeyBody(n) + "\0";
    assert w[|w| - 1] == '\0';
    hide KeyBody, Render, NulFree;
    if w <= Render(ts) { NulInside(w, Render(ts)); }
  }

  lemma NulInside(w: string, s: string)
    requires w != "" && w <= s && w[|w| - 1] == '\0'
    ensures !NulFree(s)
  {
    assert s[|w| - 1] == w[|w| - 1];
  }

  lemma {:induction false} LonelyNotFound(ts: Tokens, n: nat)
    requires Lonely(ts) && Clean(ts)
    ensures !FoundInText(ts, n)
  {
    if ts != [] {
      LonelyTail(ts);
      hide Lonely, Clean, GoesOn, NoKeys;
      LonelyNotFound(ts[1..], n);
      if ts[0].Key? { NoKeysEnds(ts[1..], n); }
    }
  }

  lemma {:induction false} LonelyStraysNot(ts: Tokens, phs: seq<Tokens>, n: nat)
    requires n < |phs| && Lonely(ts) && Clean(ts) && AllLonely(phs)
    ensures !Strays(ts, phs, n)
  {
    if ts != [] {
      LonelyTail(ts);
      hide Lonely, Clean, GoesOn, NoKeys, FoundInText, NextKeyFrom;
      LonelyStraysNot(ts[1..], phs, n);
      if ts[0].Key? {
        NoKeysEnds(ts[1..], n);
        if ts[0].n < n { LonelyNotFound(phs[ts[0].n], n); }
      }
    }
  }

  lemma RenderedIs(text: string, p: Patterns)
    requires ArePatterns(p)
    ensures var st := Converted(text, p); Rendered(text, p) == Full(st.s, st.phs, |st.phs|)
  {
    hide Full, Converted;
  }

  lemma CleanLonely(phs: seq<Tokens>)
    requires AllTagged(phs) && forall k :: 0 <= k < |phs| ==> Lonely(phs[k])
    ensures AllLonely(phs)
  {
    hide Lonely, Clean, Tagged;
  }

  /** With one key at a time everything is restored. */
  lemma LonelyRestored(text: string, p: Patterns, st: State)
    requires ArePatterns(p) && NulFree(text) && Converted(text, p) == st
    requires Lonely(st.s) && forall k :: 0 <= k < |st.phs| ==> Lonely(st.phs[k])
    ensures RestoredText(Converted(text, p)) == Render(Full(st.s, st.phs, |st.phs|))
  {
    hide *;
    ConvertedClean(text, p);
    RestoredIsRendered(text, p);
    RenderedIs(text, p);
    CleanLonely(st.phs);
    if LedAstray(st) {
      var d, n := AstrayAt(st);
      LayerLonely(st.s, st.phs, d);
      LonelyStraysNot(Layer(st.s, st.phs, d), st.phs, n);
    }
  }

  // ----- strings

  lemma {:induction false} InputConcat(a: string, b: string)
    ensures Input(a + b) == Input(a) + Input(b)
  {
    if a == "" {
      assert a + b == b;
    } else {
      assert (a + b)[1..] == a[1..] + b;
      InputConcat(a[1..], b);
    }
  }

  lemma InputSlice(text: string, lo: nat, hi: nat)
    requires lo <= hi <= |text|
    ensures |Input(text)| == |text| && Input(text)[lo..hi] == Input(text[lo..hi])
    ensures Input(text)[..lo] == Input(text[..lo]) && Input(text)[hi..] == Input(text[hi..])
  {
    var a, b, c := text[..lo], text[lo..hi], text[hi..];
    assert text == a + b + c;
    InputConcat(a + b, c);
    InputConcat(a, b);
    InputIs(a);
    InputIs(b);
    InputIs(c);
    hide *;
    Middle(Input(a), Input(b), Input(c));
  }

  lemma {:induction false} InputRender(text: string)
    ensures Render(Input(text)) == text
  {
    if text != "" {
      InputRender(text[1..]);
      RenderCons(Text(text[0], 0), Input(text[1..]));
      assert [text[0]] + text[1..] == text;
    }
  }

  /** Text of the input, escaped. */
  lemma PlainRender(text: string)
    ensures Render(Escaped(Input(text))) == EscapeHtml(text) && NoKeys(Escaped(Input(text))) && Lonely(Escaped(Input(text)))
  {
    InputFlat(text);
    EscapeRender(Input(text));
    InputRender(text);
    InputIs(text);
    EscapedCount(Input(text), 0);
    forall i | 0 <= i < |text|
      ensures !Escaped(Input(text))[i].Key?
    {
      EscapedAt(Input(text), i);
    }
    hide Escaped, Input, Render, EscapeHtml;
  }

  lemma {:induction false} FullText(ts: Tokens, phs: seq<Tokens>, b: nat)
    requires b <= |phs| && NoKeys(ts)
    ensures Full(ts, phs, b) == ts
    decreases |ts|
  {
    if ts != [] {
      NoKeysCons(ts);
      FullText(ts[1..], phs, b);
      assert [ts[0]] + ts[1..] == ts;
    }
  }

  lemma FullAround(a: Tokens, n: nat, b: Tokens, phs: seq<Tokens>, k: nat)
    requires n < k <= |phs| && NoKeys(a) && NoKeys(b)
    ensures Full(a + [Key(n)] + b, phs, k) == a + Full(phs[n], phs, n) + b
  {
    FullText(a, phs, k);
    FullText(b, phs, k);
    FullConcat(a + [Key(n)], b, phs, k);
    FullConcat(a, [Key(n)], phs, k);
    FullKey(n, phs, k);
    hide Full;
  }

  lemma FullKey(n: nat, phs: seq<Tokens>, k: nat)
    requires n < k <= |phs|
    ensures Full([Key(n)], phs, k) == Full(phs[n], phs, n)
  {
    assert [Key(n)][1..] == [];
    assert Full([], phs, k) == [];
    assert Full(phs[n], phs, n) + [] == Full(phs[n], phs, n);
  }

  // ----- one match

  /** Where the part of the text that stays in front of a match ends. */
  function StaysTo(pass: Pass, m: Match): nat {
    if pass.ItalicPass? && m.lo > 0 then m.lo - 1 else m.start
  }

  /** Where the part that stays behind it begins. */
  function StaysFrom(pass: Pass, m: Match): nat {
    if pass.ItalicPass? then m.hi + 1 else m.end
  }

  /** Italic matches have their two stars; the others need nothing. */
  predicate Starred(pass: Pass, m: Match) {
    pass.ItalicPass? ==> m.start < m.lo && m.hi < m.end
  }

  /** What a match leaves in the text for the later passes. */
  function Leaves(pass: Pass, ts: Tokens, m: Match, key: nat): Tokens
    requires m.start <= m.lo <= m.hi <= m.end <= |ts|
  {
    if pass.WikilinkPass? then ts[..m.start] + ts[m.lo..m.hi] + ts[m.end..]
    else ts[..m.start] + [Key(key)] + ts[m.end..]
  }

  /** The text around and inside of a match, as the conversion ends. */
  function Marked(pass: Pass, ts: Tokens, m: Match): Tokens
    requires Within(m, |ts|) && Starred(pass, m)
  {
    Escaped(ts[..StaysTo(pass, m)])
    + (pass.Front(Escaped(ts[m.urlLo..m.urlHi])) + Escaped(ts[m.lo..m.hi]) + pass.Back())
    + Escaped(ts[StaysFrom(pass, m)..])
  }

  lemma StepsAt(pass: Pass, st: State, p: Patterns)
    requires ArePatterns(p)
    ensures pass.Place() < 8 && Steps(pass.Place(), st, p) == Steps(pass.Place() + 1, Step(pass, st, p), p)
  {
    PassAtPlace(pass);
    hide Step, PassAt;
  }

  lemma EscapedThree(a: Tokens, b: Tokens, c: Tokens)
    ensures Escaped(a + b + c) == Escaped(a) + Escaped(b) + Escaped(c)
  {
    EscapedConcat(a + b, c);
    EscapedConcat(a, b);
    hide Escaped;
  }

  lemma ShownIs(n: nat, ts: Tokens)
    ensures Shown(n, ts) == if n <= 2 then ts else Escaped(ts)
  {
  }

  lemma LeavesIs(pass: Pass, ts: Tokens, m: Match, key: nat)
    requires Within(m, |ts|)
    ensures m.start <= m.lo <= m.hi <= m.urlLo <= m.urlHi <= m.end <= |ts|
    ensures Leaves(pass, ts, m, key)
         == ts[..m.start] + (if pass.WikilinkPass? then ts[m.lo..m.hi] else [Key(key)]) + ts[m.end..]
  {
  }

  /** A match kept as a placeholder, and after it only passes that match nothing. */
  lemma KeptLast(pass: Pass, ts: Tokens, phs: seq<Tokens>, m: Match, p: Patterns)
    requires ArePatterns(p) && pass.Keeps() && MatchesOnce(pass, ts, m, p)
    requires Within(m, |ts|) && QuietFrom(pass.Place() + 1, 8, Leaves(pass, ts, m, |phs|), p)
    ensures var html := pass.Front(Escaped(ts[m.urlLo..m.urlHi])) + Escaped(ts[m.lo..m.hi]) + pass.Back();
      Steps(pass.Place(), State(Shown(pass.Place(), ts), phs), p)
      == State(Escaped(ts[..m.start]) + [Key(|phs|)] + Escaped(ts[m.end..]), phs + [html])
  {
    hide *;
    LeavesIs(pass, ts, m, |phs|);
    KeepsIs(pass);
    var html := pass.Front(Escaped(ts[m.urlLo..m.urlHi])) + Escaped(ts[m.lo..m.hi]) + pass.Back();
    var left := ts[..m.start] + [Key(|phs|)] + ts[m.end..];
    StepsAt(pass, State(Shown(pass.Place(), ts), phs), p);
    KeyStep(pass, ts, phs, m, p);
    QuietSteps(pass.Place() + 1, 8, left, phs + [html], p);
    StepsIs(8, State(Shown(8, left), phs + [html]), p);
    ShownIs(8, left);
    EscapedThree(ts[..m.start], [Key(|phs|)], ts[m.end..]);
    EscapedKey(|phs|);
  }

  lemma KeepsIs(pass: Pass)
    ensures pass.Keeps() <==> !pass.WikilinkPass? && !pass.ItalicPass?
    ensures pass.WikilinkPass? ==> pass.Place() == 2
    ensures pass.ItalicPass? ==> pass.Place() == 7
  {
  }

  /** A match marked up in place, and after it only passes that match nothing. */
  lemma PlacedLast(pass: Pass, ts: Tokens, phs: seq<Tokens>, m: Match, p: Patterns)
    requires ArePatterns(p) && !pass.Keeps() && MatchesOnce(pass, ts, m, p)
    requires Within(m, |ts|) && Starred(pass, m) && QuietFrom(pass.Place() + 1, 8, Leaves(pass, ts, m, |phs|), p)
    ensures Steps(pass.Place(), State(Shown(pass.Place(), ts), phs), p) == State(Marked(pass, ts, m), phs)
  {
    hide *;
    KeepsIs(pass);
    StepsAt(pass, State(Shown(pass.Place(), ts), phs), p);
    if pass.WikilinkPass? { WikilinkLast(ts, phs, m, p); } else { ItalicLast(ts, phs, m, p); }
  }

  lemma WikilinkLast(ts: Tokens, phs: seq<Tokens>, m: Match, p: Patterns)
    requires ArePatterns(p) && MatchesOnce(WikilinkPass, ts, m, p)
    requires Within(m, |ts|) && QuietFrom(3, 8, Leaves(WikilinkPass, ts, m, |phs|), p)
    ensures WikilinkPass.Place() == 2
    ensures Steps(3, Step(WikilinkPass, State(Shown(2, ts), phs), p), p) == State(Marked(WikilinkPass, ts, m), phs)
  {
    hide *;
    KeepsIs(WikilinkPass);
    LeavesIs(WikilinkPass, ts, m, |phs|);
    var left := ts[..m.start] + ts[m.lo..m.hi] + ts[m.end..];
    ShownIs(2, ts);
    ShownIs(3, left);
    ShownIs(8, left);
    WikilinkStep(ts, phs, m, p);
    QuietSteps(3, 8, left, phs, p);
    StepsIs(8, State(Shown(8, left), phs), p);
    EscapedThree(ts[..m.start], ts[m.lo..m.hi], ts[m.end..]);
    MarkedWikilink(ts, m);
  }

  lemma ItalicLast(ts: Tokens, phs: seq<Tokens>, m: Match, p: Patterns)
    requires ArePatterns(p) && MatchesOnce(ItalicPass, ts, m, p) && Within(m, |ts|) && Starred(ItalicPass, m)
    ensures ItalicPass.Place() == 7
    ensures Steps(8, Step(ItalicPass, State(Shown(7, ts), phs), p), p) == State(Marked(ItalicPass, ts, m), phs)
  {
    hide *;
    KeepsIs(ItalicPass);
    StarsAre(ts, m);
    ShownIs(7, ts);
    ItalicStep(ts, phs, m, p);
    StepsIs(8, Step(ItalicPass, State(Shown(7, ts), phs), p), p);
    MarkedItalic(ts, m);
  }

  lemma StarsAre(ts: Tokens, m: Match)
    requires Within(m, |ts|) && Starred(ItalicPass, m)
    ensures m.start < m.lo <= m.hi < m.end <= |ts|
  {
  }

  lemma MarkedItalic(ts: Tokens, m: Match)
    requires Within(m, |ts|) && Starred(ItalicPass, m)
    ensures m.start < m.lo <= m.hi < m.end <= |ts|
    ensures Marked(ItalicPass, ts, m)
         == Escaped(ts[..m.lo - 1]) + [Open(Italic)] + Escaped(ts[m.lo..m.hi]) + [Close(Italic)] + Escaped(ts[m.hi + 1..])
  {
    hide Escaped;
    var a, x, b := Escaped(ts[..m.lo - 1]), Escaped(ts[m.lo..m.hi]), Escaped(ts[m.hi + 1..]);
    assert a + [Open(Italic)] + x + [Close(Italic)] + b == a + ([Open(Italic)] + x + [Close(Italic)]) + b;
  }

  lemma MarkedWikilink(ts: Tokens, m: Match)
    requires Within(m, |ts|)
    ensures m.start <= m.lo <= m.hi <= m.end <= |ts|
    ensures Marked(WikilinkPass, ts, m) == Escaped(ts[..m.start]) + Escaped(ts[m.lo..m.hi]) + Escaped(ts[m.end..])
  {
    hide Escaped;
    assert [] + Escaped(ts[m.lo..m.hi]) + [] == Escaped(ts[m.lo..m.hi]);
  }

  lemma WithinIs(m: Match, n: nat)
    requires Within(m, n)
    ensures m.start <= m.lo <= m.hi <= m.urlLo <= m.urlHi <= m.end <= n
  {
  }

  lemma StaysWithin(pass: Pass, m: Match, n: nat)
    requires Within(m, n) && Starred(pass, m)
    ensures StaysTo(pass, m) <= m.lo && m.hi <= StaysFrom(pass, m) <= n
    ensures !pass.ItalicPass? ==> StaysTo(pass, m) == m.start && StaysFrom(pass, m) == m.end
  {
  }

  /** Markup adds no key. */
  lemma MarkupKeys(pass: Pass, url: Tokens, inner: Tokens)
    requires NoKeys(url)
    ensures Lonely(inner) ==> Lonely(pass.Front(url) + inner + pass.Back())
    ensures NoKeys(inner) ==> NoKeys(pass.Front(url) + inner + pass.Back())
    ensures NoKeys(pass.Front(url)) && NoKeys(pass.Back())
  {
    FrontKeys(pass, url);
    hide Pass.Front, Pass.Back;
    KeysAround(pass.Front(url), inner, pass.Back());
  }

  lemma FrontKeys(pass: Pass, url: Tokens)
    requires NoKeys(url)
    ensures NoKeys(pass.Front(url)) && NoKeys(pass.Back())
  {
  }

  /** Text without keys around something adds none. */
  lemma KeysAround(a: Tokens, x: Tokens, b: Tokens)
    requires NoKeys(a) && NoKeys(b)
    ensures Lonely(x) ==> Lonely(a + x + b)
    ensures NoKeys(x) ==> NoKeys(a + x + b) && Lonely(a + x + b)
  {
  }

  lemma RenderThree(a: Tokens, x: Tokens, b: Tokens)
    ensures Render(a + x + b) == Render(a) + Render(x) + Render(b)
  {
    SpelledAround(a, x, b);
  }

  /** A marked-up match of the input, spelled. */
  lemma MarkedSpelled(pass: Pass, text: string, m: Match)
    requires Within(m, |text|) && Starred(pass, m)
    ensures |Input(text)| == |text| && NoKeys(Marked(pass, Input(text), m)) && Lonely(Marked(pass, Input(text), m))
    ensures StaysTo(pass, m) <= StaysFrom(pass, m) <= |text| && m.lo <= m.hi <= m.urlLo <= m.urlHi <= |text|
    ensures Render(Marked(pass, Input(text), m))
         == EscapeHtml(text[..StaysTo(pass, m)])
          + pass.Markup(EscapeHtml(text[m.urlLo..m.urlHi]), EscapeHtml(text[m.lo..m.hi]))
          + EscapeHtml(text[StaysFrom(pass, m)..])
  {
    hide *;
    WithinIs(m, |text|);
    StaysWithin(pass, m, |text|);
    InputSlice(text, m.lo, m.hi);
    InputSlice(text, m.urlLo, m.urlHi);
    InputSlice(text, StaysTo(pass, m), StaysFrom(pass, m));
    var a, b := text[..StaysTo(pass, m)], text[StaysFrom(pass, m)..];
    var u, x := text[m.urlLo..m.urlHi], text[m.lo..m.hi];
    PlainRender(a);
    PlainRender(b);
    PlainRender(u);
    PlainRender(x);
    var html := pass.Front(Escaped(Input(u))) + Escaped(Input(x)) + pass.Back();
    MarkedIs(pass, Input(text), m);
    MarkupKeys(pass, Escaped(Input(u)), Escaped(Input(x)));
    KeysAround(Escaped(Input(a)), html, Escaped(Input(b)));
    MarkupSpelled(pass, Escaped(Input(u)), Escaped(Input(x)));
    RenderThree(Escaped(Input(a)), html, Escaped(Input(b)));
  }

  lemma MarkedIs(pass: Pass, ts: Tokens, m: Match)
    requires Within(m, |ts|) && Starred(pass, m)
    ensures StaysTo(pass, m) <= |ts| && StaysFrom(pass, m) <= |ts| && m.lo <= m.hi <= m.urlLo <= m.urlHi <= |ts|
    ensures Marked(pass, ts, m)
         == Escaped(ts[..StaysTo(pass, m)])
          + (pass.Front(Escaped(ts[m.urlLo..m.urlHi])) + Escaped(ts[m.lo..m.hi]) + pass.Back())
          + Escaped(ts[StaysFrom(pass, m)..])
  {
    hide Escaped, Pass.Front, Pass.Back;
  }

  /** Whatever the pass: if its pattern matches one span of the input and the other patterns
      nothing, the result is the escaped text in front, the pass's own markup around the escaped
      inner part, and the escaped text behind. */
  lemma OneMatch(text: string, p: Patterns, pass: Pass, m: Match)
    requires ArePatterns(p) && NulFree(text) && Within(m, |text|) && Starred(pass, m)
    requires MatchesOnce(pass, Input(text), m, p) && QuietFrom(0, pass.Place(), Input(text), p)
    requires |Input(text)| == |text| && QuietFrom(pass.Place() + 1, 8, Leaves(pass, Input(text), m, 0), p)
    ensures StaysTo(pass, m) <= StaysFrom(pass, m) <= |text| && m.lo <= m.hi <= m.urlLo <= m.urlHi <= |text|
    ensures RestoredText(Converted(text, p))
         == EscapeHtml(text[..StaysTo(pass, m)])
          + pass.Markup(EscapeHtml(text[m.urlLo..m.urlHi]), EscapeHtml(text[m.lo..m.hi]))
          + EscapeHtml(text[StaysFrom(pass, m)..])
  {
    hide *;
    var ts := Input(text);
    ConvertedSteps(text, p);
    ShownIs(0, ts);
    PassAtPlace(pass);
    QuietSteps(0, pass.Place(), ts, [], p);
    MarkedSpelled(pass, text, m);
    MarkedIs(pass, ts, m);
    WithinIs(m, |text|);
    if pass.Keeps() {
      KeptLast(pass, ts, [], m, p);
      KeptOnce(text, p, pass, m);
    } else {
      PlacedLast(pass, ts, [], m, p);
      var st := Converted(text, p);
      LonelyRestored(text, p, st);
      FullText(st.s, [], 0);
    }
  }

  lemma KeptOnce(text: string, p: Patterns, pass: Pass, m: Match)
    requires ArePatterns(p) && NulFree(text) && Within(m, |text|) && pass.Keeps() && |Input(text)| == |text|
    requires m.start <= m.lo <= m.hi <= m.urlLo <= m.urlHi <= m.end <= |text|
    requires var ts := Input(text);
      var html := pass.Front(Escaped(ts[m.urlLo..m.urlHi])) + Escaped(ts[m.lo..m.hi]) + pass.Back();
      Converted(text, p) == State(Escaped(ts[..m.start]) + [Key(0)] + Escaped(ts[m.end..]), [html])
    ensures Starred(pass, m) && RestoredText(Converted(text, p)) == Render(Marked(pass, Input(text), m))
  {
    hide *;
    var ts, st := Input(text), Converted(text, p);
    KeepsIs(pass);
    StarredIs(pass, m);
    StaysWithin(pass, m, |text|);
    MarkedIs(pass, ts, m);
    InputSlice(text, m.lo, m.hi);
    InputSlice(text, m.urlLo, m.urlHi);
    InputSlice(text, m.start, m.end);
    PlainRender(text[..m.start]);
    PlainRender(text[m.end..]);
    PlainRender(text[m.lo..m.hi]);
    PlainRender(text[m.urlLo..m.urlHi]);
    MarkupKeys(pass, Escaped(ts[m.urlLo..m.urlHi]), Escaped(ts[m.lo..m.hi]));
    OneLonely(Key(0));
    KeysAround(Escaped(ts[..m.start]), [Key(0)], Escaped(ts[m.end..]));
    LonelyRestored(text, p, st);
    FullAround(Escaped(ts[..m.start]), 0, Escaped(ts[m.end..]), st.phs, 1);
    FullText(st.phs[0], st.phs, 0);
  }

  lemma StarredIs(pass: Pass, m: Match)
    ensures Starred(pass, m) <==> (pass.ItalicPass? ==> m.start < m.lo && m.hi < m.end)
  {
  }

  // ----- two matches, one inside the other

  /** The text with one match gone, cut around a second one that encloses its key. */
  lemma CutAround(text: string, m1: Match, ts: Tokens, lo: nat, hi: nat)
    requires m1.start <= m1.end <= |text| == |Input(text)|
    requires ts == Input(text)[..m1.start] + [Key(0)] + Input(text)[m1.end..] && lo <= m1.start < hi <= |ts|
    ensures var a, b, k := text[..m1.start], text[m1.end..], m1.start + 1;
      && |ts| == k + |b| && hi - k <= |b|
      && Escaped(ts[lo..hi]) == Escaped(Input(a[lo..])) + [Key(0)] + Escaped(Input(b[..hi - k]))
  {
    hide *;
    var a, b, k := text[..m1.start], text[m1.end..], m1.start + 1;
    InputSlice(text, m1.start, m1.end);
    InputSlice(a, lo, lo);
    InputSlice(b, hi - k, hi - k);
    CutTokens(Input(a), Input(b), ts, lo, hi);
    EscapedThree(Input(a[lo..]), [Key(0)], Input(b[..hi - k]));
    EscapedKey(0);
  }

  lemma CutFront(text: string, m1: Match, ts: Tokens, u: nat)
    requires m1.start <= m1.end <= |text| == |Input(text)| && u <= m1.start
    requires ts == Input(text)[..m1.start] + [Key(0)] + Input(text)[m1.end..]
    ensures ts[..u] == Input(text[..m1.start][..u])
  {
    hide *;
    InputSlice(text, m1.start, m1.end);
    InputSlice(text[..m1.start], u, u);
    assert ts[..u] == Input(text)[..m1.start][..u];
  }

  lemma CutBehind(text: string, m1: Match, ts: Tokens, u: nat, v: nat)
    requires m1.start <= m1.end <= |text| == |Input(text)|
    requires ts == Input(text)[..m1.start] + [Key(0)] + Input(text)[m1.end..] && m1.start < u <= v <= |ts|
    ensures var b, k := text[m1.end..], m1.start + 1;
      |ts| == k + |b| && ts[u..v] == Input(b[u - k..v - k]) && ts[u..] == Input(b[u - k..])
  {
    hide *;
    var b, k := text[m1.end..], m1.start + 1;
    InputSlice(text, m1.start, m1.end);
    InputSlice(b, u - k, v - k);
    assert |ts| == k + |b|;
    InputSlice(b, u - k, u - k);
    assert ts[k..] == Input(b);
    assert ts[u..v] == ts[k..][u - k..v - k] && ts[u..] == ts[k..][u - k..];
  }

  lemma CutTokens(a: Tokens, b: Tokens, ts: Tokens, lo: nat, hi: nat)
    requires ts == a + [Key(0)] + b && lo <= |a| < hi <= |ts|
    ensures ts[lo..hi] == a[lo..] + [Key(0)] + b[..hi - |a| - 1] && ts[..lo] == a[..lo] && ts[hi..] == b[hi - |a| - 1..]
  {
  }

  /** What is left when both are expanded, spelled. */
  lemma EnclosedSpelled(pass: Pass, a: string, url: string, x: string, html: Tokens, y: string, b: string)
    ensures var inner := Escaped(Input(x)) + html + Escaped(Input(y));
      Render(Escaped(Input(a)) + (pass.Front(Escaped(Input(url))) + inner + pass.Back()) + Escaped(Input(b)))
      == EscapeHtml(a) + pass.Markup(EscapeHtml(url), EscapeHtml(x) + Render(html) + EscapeHtml(y)) + EscapeHtml(b)
  {
    hide *;
    var inner := Escaped(Input(x)) + html + Escaped(Input(y));
    PlainRender(a);
    PlainRender(b);
    PlainRender(x);
    PlainRender(y);
    PlainRender(url);
    RenderThree(Escaped(Input(x)), html, Escaped(Input(y)));
    MarkupSpelled(pass, Escaped(Input(url)), inner);
    RenderThree(Escaped(Input(a)), pass.Front(Escaped(Input(url))) + inner + pass.Back(), Escaped(Input(b)));
  }

  lemma NoKeysThree(a: Tokens, b: Tokens, c: Tokens)
    requires NoKeys(a) && NoKeys(b) && NoKeys(c)
    ensures NoKeys(a + b + c) && NoKeys(a + b)
  {
  }

  /** Expanding a key among text that has none. */
  lemma FullWithin(a: Tokens, f: Tokens, x: Tokens, y: Tokens, g: Tokens, b: Tokens, phs: seq<Tokens>, k: nat)
    requires 0 < k <= |phs| && NoKeys(phs[0])
    requires NoKeys(a) && NoKeys(f) && NoKeys(x) && NoKeys(y) && NoKeys(g) && NoKeys(b)
    ensures Full(a + (f + (x + [Key(0)] + y) + g) + b, phs, k) == a + (f + (x + phs[0] + y) + g) + b
    ensures Lonely(a + (f + (x + [Key(0)] + y) + g) + b)
  {
    hide *;
    NoKeysThree(a, f, x);
    NoKeysThree(y, g, b);
    FullAround(a + f + x, 0, y + g + b, phs, k);
    FullText(phs[0], phs, 0);
    OneLonely(Key(0));
    KeysAround(a + f + x, [Key(0)], y + g + b);
    Reassociate(a, f, x, [Key(0)], y, g, b);
    Reassociate(a, f, x, phs[0], y, g, b);
  }

  lemma Reassociate(a: Tokens, f: Tokens, x: Tokens, t: Tokens, y: Tokens, g: Tokens, b: Tokens)
    ensures a + (f + (x + t + y) + g) + b == (a + f + x) + t + (y + g + b)
  {
  }

  /** What the conversion makes of text around a match that encloses an earlier one. */
  function Enclosed(pass: Pass, m: Match, a: string, b: string, k: nat, html: string): string
    requires StaysTo(pass, m) <= |a| && m.lo <= |a| && k <= m.hi <= m.urlLo <= m.urlHi <= k + |b| && k <= StaysFrom(pass, m) <= k + |b|
  {
    EscapeHtml(a[..StaysTo(pass, m)])
    + pass.Markup(EscapeHtml(b[m.urlLo - k..m.urlHi - k]), EscapeHtml(a[m.lo..]) + html + EscapeHtml(b[..m.hi - k]))
    + EscapeHtml(b[StaysFrom(pass, m) - k..])
  }

  lemma BeforeSecond(text: string, p: Patterns, first: Pass, m1: Match, second: Pass, ts1: Tokens)
    requires ArePatterns(p) && first.Keeps() && first.Place() < second.Place()
    requires Within(m1, |Input(text)|) && ts1 == Leaves(first, Input(text), m1, 0)
    requires QuietFrom(0, first.Place(), Input(text), p) && MatchesOnce(first, Input(text), m1, p)
    requires QuietFrom(first.Place() + 1, second.Place(), ts1, p)
    ensures m1.start <= m1.lo <= m1.hi <= m1.urlLo <= m1.urlHi <= m1.end <= |Input(text)|
    ensures var ts := Input(text);
      var html := first.Front(Escaped(ts[m1.urlLo..m1.urlHi])) + Escaped(ts[m1.lo..m1.hi]) + first.Back();
      && second.Place() < 8
      && Converted(text, p) == Steps(second.Place(), State(Shown(second.Place(), ts1), [html]), p)
  {
    hide *;
    var ts := Input(text);
    WithinIs(m1, |ts|);
    var html := first.Front(Escaped(ts[m1.urlLo..m1.urlHi])) + Escaped(ts[m1.lo..m1.hi]) + first.Back();
    PassAtPlace(second);
    KeepsIs(first);
    LeavesIs(first, ts, m1, 0);
    ConvertedSteps(text, p);
    ShownIs(0, ts);
    QuietSteps(0, first.Place(), ts, [], p);
    StepsAt(first, State(Shown(first.Place(), ts), []), p);
    KeyStep(first, ts, [], m1, p);
    assert [] + [html] == [html];
    QuietSteps(first.Place() + 1, second.Place(), ts1, [html], p);
  }

  /** The html of a match of the input has no key, and spells the input's own text. */
  lemma FirstHtml(text: string, pass: Pass, m: Match)
    requires Within(m, |text|) && |Input(text)| == |text|
    ensures m.lo <= m.hi <= m.urlLo <= m.urlHi <= |text|
    ensures var ts := Input(text);
      var html := pass.Front(Escaped(ts[m.urlLo..m.urlHi])) + Escaped(ts[m.lo..m.hi]) + pass.Back();
      NoKeys(html) && Lonely(html) && Render(html) == pass.Markup(EscapeHtml(text[m.urlLo..m.urlHi]), EscapeHtml(text[m.lo..m.hi]))
  {
    hide *;
    WithinIs(m, |text|);
    InputSlice(text, m.lo, m.hi);
    InputSlice(text, m.urlLo, m.urlHi);
    PlainRender(text[m.lo..m.hi]);
    PlainRender(text[m.urlLo..m.urlHi]);
    var url, inner := Escaped(Input(text[m.urlLo..m.urlHi])), Escaped(Input(text[m.lo..m.hi]));
    MarkupKeys(pass, url, inner);
    MarkupSpelled(pass, url, inner);
  }

  /** The first match's key inside the second match. */
  ghost predicate Encloses(pass: Pass, m1: Match, m2: Match, text: string, ts1: Tokens) {
    && m1.start <= m1.end <= |text| == |Input(text)| && ts1 == Input(text)[..m1.start] + [Key(0)] + Input(text)[m1.end..]
    && StaysTo(pass, m2) <= m2.lo <= m1.start < m2.hi <= m2.urlLo <= m2.urlHi <= |ts1| && m2.hi <= StaysFrom(pass, m2) <= |ts1|
  }

  /** The second match around `t`, in front of it and behind it the rest of the text. */
  function Around(pass: Pass, m1: Match, m2: Match, text: string, t: Tokens): Tokens
    requires m1.start <= m1.end <= |text|
    requires var a, b, k := text[..m1.start], text[m1.end..], m1.start + 1;
      && StaysTo(pass, m2) <= |a| && m2.lo <= |a| && k <= m2.hi <= m2.urlLo <= m2.urlHi <= k + |b|
      && k <= StaysFrom(pass, m2) <= k + |b|
  {
    var a, b, k := text[..m1.start], text[m1.end..], m1.start + 1;
    Escaped(Input(a[..StaysTo(pass, m2)]))
    + (pass.Front(Escaped(Input(b[m2.urlLo - k..m2.urlHi - k])))
       + (Escaped(Input(a[m2.lo..])) + t + Escaped(Input(b[..m2.hi - k]))) + pass.Back())
    + Escaped(Input(b[StaysFrom(pass, m2) - k..]))
  }

  /** The parts of the text the second match sees. */
  lemma SecondParts(pass: Pass, m1: Match, m2: Match, text: string, ts1: Tokens)
    requires Encloses(pass, m1, m2, text, ts1)
    ensures var a, b, k := text[..m1.start], text[m1.end..], m1.start + 1;
      && |ts1| == k + |b|
      && Escaped(ts1[m2.lo..m2.hi]) == Escaped(Input(a[m2.lo..])) + [Key(0)] + Escaped(Input(b[..m2.hi - k]))
      && ts1[..StaysTo(pass, m2)] == Input(a[..StaysTo(pass, m2)])
      && ts1[m2.urlLo..m2.urlHi] == Input(b[m2.urlLo - k..m2.urlHi - k])
      && ts1[StaysFrom(pass, m2)..] == Input(b[StaysFrom(pass, m2) - k..])
  {
    hide Input, Escaped, StaysTo, StaysFrom;
    CutAround(text, m1, ts1, m2.lo, m2.hi);
    CutFront(text, m1, ts1, StaysTo(pass, m2));
    CutBehind(text, m1, ts1, m2.urlLo, m2.urlHi);
    CutBehind(text, m1, ts1, StaysFrom(pass, m2), |ts1|);
  }

  lemma AroundFull(pass: Pass, m1: Match, m2: Match, text: string, ts1: Tokens, phs: seq<Tokens>)
    requires Encloses(pass, m1, m2, text, ts1) && phs != [] && NoKeys(phs[0])
    ensures |ts1| == m1.start + 1 + |text[m1.end..]|
    ensures Full(Around(pass, m1, m2, text, [Key(0)]), phs, |phs|) == Around(pass, m1, m2, text, phs[0])
    ensures Lonely(Around(pass, m1, m2, text, [Key(0)]))
  {
    hide *;
    EnclosesIs(pass, m1, m2, text, ts1);
    var a, b, k := text[..m1.start], text[m1.end..], m1.start + 1;
    PlainRender(a[..StaysTo(pass, m2)]);
    PlainRender(b[m2.urlLo - k..m2.urlHi - k]);
    PlainRender(a[m2.lo..]);
    PlainRender(b[..m2.hi - k]);
    PlainRender(b[StaysFrom(pass, m2) - k..]);
    FrontKeys(pass, Escaped(Input(b[m2.urlLo - k..m2.urlHi - k])));
    FullWithin(Escaped(Input(a[..StaysTo(pass, m2)])), pass.Front(Escaped(Input(b[m2.urlLo - k..m2.urlHi - k]))),
               Escaped(Input(a[m2.lo..])), Escaped(Input(b[..m2.hi - k])), pass.Back(),
               Escaped(Input(b[StaysFrom(pass, m2) - k..])), phs, |phs|);
    AroundIs(pass, m1, m2, text, [Key(0)]);
    AroundIs(pass, m1, m2, text, phs[0]);
  }

  lemma EnclosesIs(pass: Pass, m1: Match, m2: Match, text: string, ts1: Tokens)
    requires Encloses(pass, m1, m2, text, ts1)
    ensures m1.start <= m1.end <= |text| == |Input(text)|
    ensures ts1 == Input(text)[..m1.start] + [Key(0)] + Input(text)[m1.end..]
    ensures var b, k := text[m1.end..], m1.start + 1;
      && |ts1| == k + |b| && StaysTo(pass, m2) <= m2.lo <= m1.start && k <= m2.hi <= m2.urlLo <= m2.urlHi <= k + |b|
      && m2.hi <= StaysFrom(pass, m2) <= k + |b|
  {
    hide Input, StaysTo, StaysFrom;
  }

  lemma AroundIs(pass: Pass, m1: Match, m2: Match, text: string, t: Tokens)
    requires m1.start <= m1.end <= |text|
    requires var b, k := text[m1.end..], m1.start + 1;
      && StaysTo(pass, m2) <= m2.lo <= m1.start && k <= m2.hi <= m2.urlLo <= m2.urlHi <= k + |b|
      && k <= StaysFrom(pass, m2) <= k + |b|
    ensures var a, b, k := text[..m1.start], text[m1.end..], m1.start + 1;
      Around(pass, m1, m2, text, t)
      == Escaped(Input(a[..StaysTo(pass, m2)]))
       + (pass.Front(Escaped(Input(b[m2.urlLo - k..m2.urlHi - k])))
          + (Escaped(Input(a[m2.lo..])) + t + Escaped(Input(b[..m2.hi - k]))) + pass.Back())
       + Escaped(Input(b[StaysFrom(pass, m2) - k..]))
  {
    hide Escaped, Input, StaysTo, StaysFrom, Pass.Front, Pass.Back;
  }

  /** The second match kept as a placeholder of its own. */
  lemma EnclosedKept(text: string, p: Patterns, pass: Pass, m1: Match, m2: Match, ts1: Tokens, html: Tokens)
    requires ArePatterns(p) && NulFree(text) && pass.Keeps() && Encloses(pass, m1, m2, text, ts1) && NoKeys(html) && Lonely(html)
    requires m2.start <= m2.lo <= m2.hi <= m2.urlLo <= m2.urlHi <= m2.end <= |ts1|
    requires var second := pass.Front(Escaped(ts1[m2.urlLo..m2.urlHi])) + Escaped(ts1[m2.lo..m2.hi]) + pass.Back();
      Converted(text, p) == State(Escaped(ts1[..m2.start]) + [Key(1)] + Escaped(ts1[m2.end..]), [html] + [second])
    ensures |ts1| == m1.start + 1 + |text[m1.end..]|
    ensures RestoredText(Converted(text, p)) == Render(Around(pass, m1, m2, text, html))
  {
    hide *;
    EnclosesIs(pass, m1, m2, text, ts1);
    SecondParts(pass, m1, m2, text, ts1);
    KeepsIs(pass);
    StaysIs(pass, m2);
    var a, b, k := text[..m1.start], text[m1.end..], m1.start + 1;
    PlainRender(a[..StaysTo(pass, m2)]);
    PlainRender(b[StaysFrom(pass, m2) - k..]);
    PlainRender(b[m2.urlLo - k..m2.urlHi - k]);
    PlainRender(a[m2.lo..]);
    PlainRender(b[..m2.hi - k]);
    var f := pass.Front(Escaped(Input(b[m2.urlLo - k..m2.urlHi - k])));
    FrontKeys(pass, Escaped(Input(b[m2.urlLo - k..m2.urlHi - k])));
    KeptExpands(text, p, Escaped(Input(a[..StaysTo(pass, m2)])), f, Escaped(Input(a[m2.lo..])), Escaped(Input(b[..m2.hi - k])),
                pass.Back(), Escaped(Input(b[StaysFrom(pass, m2) - k..])), html);
    AroundIs(pass, m1, m2, text, html);
  }

  lemma StaysIs(pass: Pass, m: Match)
    ensures !pass.ItalicPass? ==> StaysTo(pass, m) == m.start && StaysFrom(pass, m) == m.end
    ensures pass.ItalicPass? && m.lo > 0 ==> StaysTo(pass, m) == m.lo - 1 && StaysFrom(pass, m) == m.hi + 1
  {
  }

  lemma KeptExpands(text: string, p: Patterns, a: Tokens, f: Tokens, x: Tokens, y: Tokens, g: Tokens, b: Tokens, html: Tokens)
    requires ArePatterns(p) && NulFree(text) && NoKeys(html) && Lonely(html)
    requires NoKeys(a) && NoKeys(f) && NoKeys(x) && NoKeys(y) && NoKeys(g) && NoKeys(b)
    requires Converted(text, p) == State(a + [Key(1)] + b, [html] + [f + (x + [Key(0)] + y) + g])
    ensures RestoredText(Converted(text, p)) == Render(a + (f + (x + html + y) + g) + b)
  {
    hide *;
    var inside, done := f + (x + [Key(0)] + y) + g, f + (x + html + y) + g;
    NothingHasNoKeys();
    FullWithin([], f, x, y, g, [], [html] + [inside], 1);
    NothingAround(inside);
    NothingAround(done);
    TwoExpand(text, p, a, b, html, inside, done);
  }

  lemma NothingAround(s: Tokens)
    ensures [] + s + [] == s
  {
  }

  lemma TwoExpand(text: string, p: Patterns, a: Tokens, b: Tokens, html: Tokens, inside: Tokens, done: Tokens)
    requires ArePatterns(p) && NulFree(text) && Lonely(html) && Lonely(inside) && NoKeys(a) && NoKeys(b)
    requires Full(inside, [html] + [inside], 1) == done && Converted(text, p) == State(a + [Key(1)] + b, [html] + [inside])
    ensures RestoredText(Converted(text, p)) == Render(a + done + b)
  {
    hide *;
    FullAround(a, 1, b, [html] + [inside], 2);
    OneLonely(Key(1));
    KeysAround(a, [Key(1)], b);
    LonelyRestored(text, p, Converted(text, p));
  }

  lemma NothingHasNoKeys()
    ensures NoKeys([])
  {
  }

  /** The second match marked up in place. */
  lemma EnclosedPlaced(text: string, p: Patterns, pass: Pass, m1: Match, m2: Match, ts1: Tokens, html: Tokens)
    requires ArePatterns(p) && NulFree(text) && Encloses(pass, m1, m2, text, ts1) && NoKeys(html) && Lonely(html)
    requires Within(m2, |ts1|) && Starred(pass, m2) && Converted(text, p) == State(Marked(pass, ts1, m2), [html])
    ensures |ts1| == m1.start + 1 + |text[m1.end..]|
    ensures RestoredText(Converted(text, p)) == Render(Around(pass, m1, m2, text, html))
  {
    hide *;
    EnclosesIs(pass, m1, m2, text, ts1);
    SecondParts(pass, m1, m2, text, ts1);
    MarkedIs(pass, ts1, m2);
    AroundIs(pass, m1, m2, text, [Key(0)]);
    AroundFull(pass, m1, m2, text, ts1, [html]);
    LonelyRestored(text, p, Converted(text, p));
  }

  /** The order of the passes: an earlier one keeps its match as a placeholder, and if the match
      of a later one encloses that, the later markup is put around the earlier. `a` and `b` are the
      text in front of and behind the first match, and rune k + i of what the later pass sees is
      rune i of `b`. */
  lemma TwoMatches(text: string, p: Patterns, first: Pass, m1: Match, second: Pass, m2: Match, ts1: Tokens)
    requires ArePatterns(p) && NulFree(text) && first.Keeps() && first.Place() < second.Place() && Starred(second, m2)
    requires Within(m1, |text|) && |Input(text)| == |text| && ts1 == Leaves(first, Input(text), m1, 0)
    requires QuietFrom(0, first.Place(), Input(text), p) && MatchesOnce(first, Input(text), m1, p)
    requires QuietFrom(first.Place() + 1, second.Place(), ts1, p) && MatchesOnce(second, ts1, m2, p)
    requires Within(m2, |ts1|) && m2.lo <= m1.start < m2.hi && QuietFrom(second.Place() + 1, 8, Leaves(second, ts1, m2, 1), p)
    ensures var a, b, k := text[..m1.start], text[m1.end..], m1.start + 1;
      && StaysTo(second, m2) <= |a| && k <= StaysFrom(second, m2) <= k + |b|
      && m2.lo <= |a| && k <= m2.hi <= m2.urlLo <= m2.urlHi <= k + |b|
      && RestoredText(Converted(text, p))
         == Enclosed(second, m2, a, b, k, first.Markup(EscapeHtml(text[m1.urlLo..m1.urlHi]), EscapeHtml(text[m1.lo..m1.hi])))
  {
    hide *;
    var ts := Input(text);
    BeforeSecond(text, p, first, m1, second, ts1);
    var html := first.Front(Escaped(ts[m1.urlLo..m1.urlHi])) + Escaped(ts[m1.lo..m1.hi]) + first.Back();
    WithinIs(m2, |ts1|);
    LeavesIs(first, ts, m1, 0);
    KeepsIs(first);
    FirstHtml(text, first, m1);
    StaysWithin(second, m2, |ts1|);
    IsEnclosed(second, m1, m2, text, ts1);
    EnclosesIs(second, m1, m2, text, ts1);
    if second.Keeps() {
      KeptLast(second, ts1, [html], m2, p);
      EnclosedKept(text, p, second, m1, m2, ts1, html);
    } else {
      PlacedLast(second, ts1, [html], m2, p);
      EnclosedPlaced(text, p, second, m1, m2, ts1, html);
    }
    AroundIs(second, m1, m2, text, html);
    var a, b, k := text[..m1.start], text[m1.end..], m1.start + 1;
    EnclosedSpelled(second, a[..StaysTo(second, m2)], b[m2.urlLo - k..m2.urlHi - k], a[m2.lo..], html, b[..m2.hi - k],
                    b[StaysFrom(second, m2) - k..]);
    EnclosedIs(second, m2, a, b, k, Render(html));
  }

  lemma IsEnclosed(pass: Pass, m1: Match, m2: Match, text: string, ts1: Tokens)
    requires m1.start <= m1.end <= |text| == |Input(text)| && ts1 == Input(text)[..m1.start] + [Key(0)] + Input(text)[m1.end..]
    requires StaysTo(pass, m2) <= m2.lo <= m1.start < m2.hi <= m2.urlLo <= m2.urlHi <= |ts1|
    requires m2.hi <= StaysFrom(pass, m2) <= |ts1|
    ensures Encloses(pass, m1, m2, text, ts1)
  {
    hide Input, StaysTo, StaysFrom;
  }

  lemma EnclosedIs(pass: Pass, m: Match, a: string, b: string, k: nat, html: string)
    requires StaysTo(pass, m) <= |a| && m.lo <= |a| && k <= m.hi <= m.urlLo <= m.urlHi <= k + |b| && k <= StaysFrom(pass, m) <= k + |b|
    ensures Enclosed(pass, m, a, b, k, html)
         == EscapeHtml(a[..StaysTo(pass, m)])
          + pass.Markup(EscapeHtml(b[m.urlLo - k..m.urlHi - k]), EscapeHtml(a[m.lo..]) + html + EscapeHtml(b[..m.hi - k]))
          + EscapeHtml(b[StaysFrom(pass, m) - k..])
  {
    hide EscapeHtml, StaysTo, StaysFrom, Pass.Markup;
  }
}
