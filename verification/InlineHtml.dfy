/** The passes of the inline renderer. Each pass takes the spans its pattern matched and puts a
    placeholder key, or other tokens, in their place (core/markdown_html.go,
    convertInlineHTML). A pattern is any function to spans that do not overlap. */
module InlineHtml {
  import opened InlineTokens

  /** A matched span with its inner part; for a link also its address. */
  datatype Match = Match(start: nat, end: nat, lo: nat, hi: nat, urlLo: nat, urlHi: nat)

  datatype Kind = CodeSpan | Link | BoldItalic | BoldText | StrikeText

  ghost predicate Fits(ms: seq<Match>, from: nat, n: nat)
    decreases |ms|
  {
    if ms == [] then from <= n
    else
      var m := ms[0];
      && from <= m.start <= m.lo <= m.hi <= m.urlLo <= m.urlHi <= m.end
      && Fits(ms[1..], m.end, n)
  }

  lemma {:induction false} FitsBelow(ms: seq<Match>, from: nat, n: nat)
    requires Fits(ms, from, n)
    ensures from <= n && (ms != [] ==> Fits(ms[1..], ms[0].end, n))
    ensures ms != [] ==> ms[0].end <= n && from <= ms[0].start <= ms[0].lo <= ms[0].hi <= ms[0].urlLo <= ms[0].urlHi <= ms[0].end
    decreases |ms|
  {
    if ms != [] { FitsBelow(ms[1..], ms[0].end, n); }
  }

  /** A pattern: spans in order, without overlap, for every text. */
  type Pattern = Tokens -> seq<Match>

  ghost predicate IsPattern(p: Pattern) {
    forall ts: Tokens :: Fits(p(ts), 0, |ts|)
  }

  // ----- placeholders

  /** The html a match is stored as. */
  function Html(kind: Kind, ts: Tokens, m: Match): Tokens
    requires m.lo <= m.hi <= m.urlLo <= m.urlHi <= |ts|
  {
    var inner := ts[m.lo..m.hi];
    match kind
    case CodeSpan => [Open(Code)] + Escaped(inner) + [Close(Code)]
    case Link => [LinkOpen] + Escaped(ts[m.urlLo..m.urlHi]) + [LinkMid] + Escaped(inner) + [LinkClose]
    case BoldItalic => [Open(Bold), Open(Italic)] + inner + [Close(Italic), Close(Bold)]
    case BoldText => [Open(Bold)] + inner + [Close(Bold)]
    case StrikeText => [Open(Strike)] + inner + [Close(Strike)]
  }

  /** The text with the matched spans replaced by the keys `base`, `base + 1`, and so on. */
  function Keyed(ts: Tokens, ms: seq<Match>, from: nat, base: nat): Tokens
    requires Fits(ms, from, |ts|)
    decreases |ms|
  {
    FitsBelow(ms, from, |ts|);
    if ms == [] then ts[from..]
    else ts[from..ms[0].start] + [Key(base)] + Keyed(ts, ms[1..], ms[0].end, base + 1)
  }

  function Stored(ts: Tokens, ms: seq<Match>, from: nat, kind: Kind): seq<Tokens>
    requires Fits(ms, from, |ts|)
    decreases |ms|
  {
    FitsBelow(ms, from, |ts|);
    if ms == [] then [] else [Html(kind, ts, ms[0])] + Stored(ts, ms[1..], ms[0].end, kind)
  }

  // ----- replacements in place

  /** A wikilink leaves its inner part. */
  function Unlinked(ts: Tokens, ms: seq<Match>, from: nat): Tokens
    requires Fits(ms, from, |ts|)
    decreases |ms|
  {
    FitsBelow(ms, from, |ts|);
    if ms == [] then ts[from..]
    else ts[from..ms[0].start] + ts[ms[0].lo..ms[0].hi] + Unlinked(ts, ms[1..], ms[0].end)
  }

  /** One italic match: the runes around the stars stay, the stars go. A match without two
      stars is left alone. */
  function Italicised(ts: Tokens, m: Match): Tokens
    requires m.start <= m.lo <= m.hi <= m.end <= |ts|
  {
    if m.start < m.lo && m.hi < m.end then
      ts[m.start..m.lo - 1] + [Open(Italic)] + ts[m.lo..m.hi] + [Close(Italic)] + ts[m.hi + 1..m.end]
    else ts[m.start..m.end]
  }

  function Slanted(ts: Tokens, ms: seq<Match>, from: nat): Tokens
    requires Fits(ms, from, |ts|)
    decreases |ms|
  {
    FitsBelow(ms, from, |ts|);
    if ms == [] then ts[from..]
    else ts[from..ms[0].start] + Italicised(ts, ms[0]) + Slanted(ts, ms[1..], ms[0].end)
  }

  // ----- the state of the conversion

  datatype State = State(s: Tokens, phs: seq<Tokens>)

  ghost function Extract(st: State, p: Pattern, kind: Kind): State
    requires IsPattern(p)
  {
    var ms := p(st.s);
    State(Keyed(st.s, ms, 0, |st.phs|), st.phs + Stored(st.s, ms, 0, kind))
  }

  /** The patterns of the passes, in the order of the passes. */
  datatype Patterns = Patterns(
    code: Pattern, link: Pattern, wikilink: Pattern, boldItalic: Pattern,
    boldAst: Pattern, boldUnd: Pattern, strike: Pattern, italic: Pattern)

  ghost predicate ArePatterns(p: Patterns) {
    && IsPattern(p.code) && IsPattern(p.link) && IsPattern(p.wikilink) && IsPattern(p.boldItalic)
    && IsPattern(p.boldAst) && IsPattern(p.boldUnd) && IsPattern(p.strike) && IsPattern(p.italic)
  }

  function Input(text: string): Tokens {
    if text == "" then [] else [Text(text[0], 0)] + Input(text[1..])
  }

  /** Passes 1 and 2: code and links become placeholders. */
  ghost function Protected(text: string, p: Patterns): State
    requires ArePatterns(p)
  {
    Extract(Extract(State(Input(text), []), p.code, CodeSpan), p.link, Link)
  }

  /** Passes 2b and 3: wikilinks are undone, then everything left is escaped. */
  ghost function Plain(text: string, p: Patterns): State
    requires ArePatterns(p)
  {
    var st := Protected(text, p);
    State(Escaped(Unlinked(st.s, p.wikilink(st.s), 0)), st.phs)
  }

  /** Passes 4 to 6: bold and struck text become placeholders. */
  ghost function Formatted(text: string, p: Patterns): State
    requires ArePatterns(p)
  {
    Extract(Extract(Extract(Extract(Plain(text, p), p.boldItalic, BoldItalic), p.boldAst, BoldText), p.boldUnd, BoldText),
            p.strike, StrikeText)
  }

  /** Pass 7: italic text gets its tags in place. */
  ghost function Converted(text: string, p: Patterns): State
    requires ArePatterns(p)
  {
    var st := Formatted(text, p);
    State(Slanted(st.s, p.italic(st.s), 0), st.phs)
  }

  lemma Regroup(a: Tokens, b: Tokens, m: Tokens, c: Tokens)
    ensures a + (b + m + c) == a + b + m + c
  {
  }

  lemma RegroupHtml(phs: seq<Tokens>, html: Tokens, rest: seq<Tokens>)
    ensures phs + ([html] + rest) == phs + [html] + rest
  {
  }

  lemma ReplaceStep(ts: Tokens, rest: seq<Match>, from: nat, kind: Kind, out: Tokens, phs: seq<Tokens>)
    requires rest != [] && Fits(rest, from, |ts|) && from <= rest[0].start <= |ts|
    requires rest[0].lo <= rest[0].hi <= rest[0].urlLo <= rest[0].urlHi <= |ts|
    ensures out + Keyed(ts, rest, from, |phs|)
         == out + ts[from..rest[0].start] + [Key(|phs|)] + Keyed(ts, rest[1..], rest[0].end, |phs| + 1)
    ensures phs + Stored(ts, rest, from, kind)
         == phs + [Html(kind, ts, rest[0])] + Stored(ts, rest[1..], rest[0].end, kind)
  {
    Regroup(out, ts[from..rest[0].start], [Key(|phs|)], Keyed(ts, rest[1..], rest[0].end, |phs| + 1));
    RegroupHtml(phs, Html(kind, ts, rest[0]), Stored(ts, rest[1..], rest[0].end, kind));
    hide Html;
  }

  lemma ReplaceDone(ts: Tokens, from: nat, kind: Kind, base: nat)
    requires Fits([], from, |ts|)
    ensures from <= |ts| && Keyed(ts, [], from, base) == ts[from..] && Stored(ts, [], from, kind) == []
  {
  }

  // ----- the passes as they run

  class Converter {
    var s: Tokens
    var phs: seq<Tokens>

    ghost function Value(): State
      reads this
    {
      State(s, phs)
    }

    constructor (text: Tokens)
      ensures s == text && phs == []
    {
      s := text;
      phs := [];
    }

    /** Stores a piece of html and returns the key that stands for it. */
    method NextPlaceholder(html: Tokens) returns (key: Token)
      modifies this`phs
      ensures phs == old(phs) + [html] && key == Key(|old(phs)|)
    {
      key := Key(|phs|);
      phs := phs + [html];
    }

    /** One pass of a pattern whose matches become placeholders. */
    method ReplaceByKeys(p: Pattern, kind: Kind)
      requires IsPattern(p)
      modifies this
      ensures Value() == Extract(old(Value()), p, kind)
    {
      hide Html, Keyed, Stored, Fits;
      ghost var before := phs;
      var ts := s;
      var ms := p(ts);
      var out: Tokens := [];
      var from: nat := 0;
      var rest := ms;
      while rest != []
        modifies this`phs
        invariant Fits(rest, from, |ts|)
        invariant out + Keyed(ts, rest, from, |phs|) == Keyed(ts, ms, 0, |before|)
        invariant phs + Stored(ts, rest, from, kind) == before + Stored(ts, ms, 0, kind)
        decreases |rest|
      {
        FitsBelow(rest, from, |ts|);
        var m := rest[0];
        ReplaceStep(ts, rest, from, kind, out, phs);
        var key := NextPlaceholder(Html(kind, ts, m));
        out := out + ts[from..m.start] + [key];
        from := m.end;
        rest := rest[1..];
      }
      ReplaceDone(ts, from, kind, |phs|);
      s := out + ts[from..];
      assert phs + [] == phs;
    }

    /** Wikilinks give way to their inner part. */
    method Unlink(p: Pattern)
      requires IsPattern(p)
      modifies this`s
      ensures s == Unlinked(old(s), p(old(s)), 0)
    {
      var ts := s;
      var ms := p(ts);
      var out: Tokens := [];
      var from: nat := 0;
      var rest := ms;
      while rest != []
        modifies {}
        invariant Fits(rest, from, |ts|) && out + Unlinked(ts, rest, from) == Unlinked(ts, ms, 0)
        decreases |rest|
      {
        FitsBelow(rest, from, |ts|);
        var m := rest[0];
        Regroup(out, ts[from..m.start], ts[m.lo..m.hi], Unlinked(ts, rest[1..], m.end));
        out := out + ts[from..m.start] + ts[m.lo..m.hi];
        from := m.end;
        rest := rest[1..];
      }
      FitsBelow(rest, from, |ts|);
      s := out + ts[from..];
    }

    method Escape()
      modifies this`s
      ensures s == Escaped(old(s))
    {
      s := Escaped(s);
    }

    /** Italic matches get their tags in place. */
    method Slant(p: Pattern)
      requires IsPattern(p)
      modifies this`s
      ensures s == Slanted(old(s), p(old(s)), 0)
    {
      hide Italicised;
      var ts := s;
      var ms := p(ts);
      var out: Tokens := [];
      var from: nat := 0;
      var rest := ms;
      while rest != []
        modifies {}
        invariant Fits(rest, from, |ts|) && out + Slanted(ts, rest, from) == Slanted(ts, ms, 0)
        decreases |rest|
      {
        FitsBelow(rest, from, |ts|);
        var m := rest[0];
        Regroup(out, ts[from..m.start], Italicised(ts, m), Slanted(ts, rest[1..], m.end));
        out := out + ts[from..m.start] + Italicised(ts, m);
        from := m.end;
        rest := rest[1..];
      }
      FitsBelow(rest, from, |ts|);
      s := out + ts[from..];
    }
  }

  /** All passes before the placeholders are restored. */
  method Convert(text: string, p: Patterns) returns (c: Converter)
    requires ArePatterns(p)
    ensures fresh(c) && c.Value() == Converted(text, p)
  {
    hide Extract, Unlinked, Slanted, Escaped;
    c := new Converter(Input(text));
    c.ReplaceByKeys(p.code, CodeSpan);
    c.ReplaceByKeys(p.link, Link);
    c.Unlink(p.wikilink);
    c.Escape();
    c.ReplaceByKeys(p.boldItalic, BoldItalic);
    c.ReplaceByKeys(p.boldAst, BoldText);
    c.ReplaceByKeys(p.boldUnd, BoldText);
    c.ReplaceByKeys(p.strike, StrikeText);
    c.Slant(p.italic);
  }
}
