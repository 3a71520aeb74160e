/** The rendered text as a string: escaping, how tokens are spelled, and restoring placeholders
    by searching for their keys (core/markdown_html.go, convertInlineHTML and escapeHTML). */
module InlineText {
  import opened Decimals
  import opened InlineTokens

  // ----- escaping

  /** Every `c` replaced by `t`. */
  function ReplaceAll(s: string, c: char, t: string): string {
    if s == "" then "" else (if s[0] == c then t else [s[0]]) + ReplaceAll(s[1..], c, t)
  }

  function EscapeHtml(s: string): string {
    ReplaceAll(ReplaceAll(ReplaceAll(ReplaceAll(s, '&', "&amp;"), '<', "&lt;"), '>', "&gt;"), '"', "&quot;")
  }

  function Entity(c: char): string {
    match c
    case '&' => "&amp;"
    case '<' => "&lt;"
    case '>' => "&gt;"
    case '"' => "&quot;"
    case _ => [c]
  }

  lemma {:induction false} ReplaceAllConcat(a: string, b: string, c: char, t: string)
    ensures ReplaceAll(a + b, c, t) == ReplaceAll(a, c, t) + ReplaceAll(b, c, t)
  {
    if a == "" {
      assert a + b == b;
    } else {
      assert (a + b)[1..] == a[1..] + b;
      ReplaceAllConcat(a[1..], b, c, t);
    }
  }

  lemma EscapeConcat(a: string, b: string)
    ensures EscapeHtml(a + b) == EscapeHtml(a) + EscapeHtml(b)
  {
    var a1, b1 := ReplaceAll(a, '&', "&amp;"), ReplaceAll(b, '&', "&amp;");
    var a2, b2 := ReplaceAll(a1, '<', "&lt;"), ReplaceAll(b1, '<', "&lt;");
    var a3, b3 := ReplaceAll(a2, '>', "&gt;"), ReplaceAll(b2, '>', "&gt;");
    ReplaceAllConcat(a, b, '&', "&amp;");
    ReplaceAllConcat(a1, b1, '<', "&lt;");
    ReplaceAllConcat(a2, b2, '>', "&gt;");
    ReplaceAllConcat(a3, b3, '"', "&quot;");
    hide ReplaceAll;
  }

  lemma {:induction false} ReplaceAllPlain(s: string, c: char, t: string)
    requires c !in s
    ensures ReplaceAll(s, c, t) == s
  {
    if s != "" {
      AbsentBehind(s, c);
      ReplaceAllPlain(s[1..], c, t);
      assert [s[0]] + s[1..] == s;
    }
  }

  lemma AbsentBehind(s: string, c: char)
    requires s != "" && c !in s
    ensures s[0] != c && c !in s[1..]
  {
    forall i | 0 <= i < |s| - 1
      ensures s[1..][i] != c
    {
      assert s[1..][i] == s[i + 1];
    }
  }

  /** The four replacements in turn escape each rune once: none touches what another wrote. */
  lemma EscapeOne(c: char)
    ensures EscapeHtml([c]) == Entity(c)
  {
    match c
    case '&' => EscapeAmp();
    case '<' => EscapeLess();
    case '>' => EscapeMore();
    case '"' => EscapeQuote();
    case _ =>
      ReplaceAllPlain([c], '&', "&amp;");
      ReplaceAllPlain([c], '<', "&lt;");
      ReplaceAllPlain([c], '>', "&gt;");
      ReplaceAllPlain([c], '"', "&quot;");
      hide ReplaceAll;
  }

  lemma Steps(s: string, s1: string, s2: string, s3: string, s4: string)
    requires ReplaceAll(s, '&', "&amp;") == s1 && ReplaceAll(s1, '<', "&lt;") == s2
    requires ReplaceAll(s2, '>', "&gt;") == s3 && ReplaceAll(s3, '"', "&quot;") == s4
    ensures EscapeHtml(s) == s4
  {
    hide ReplaceAll;
  }

  lemma EscapeAmp()
    ensures EscapeHtml("&") == "&amp;"
  {
    hide *;
    SingleReplaced('&', "&amp;");
    ReplaceAllPlain("&amp;", '<', "&lt;");
    ReplaceAllPlain("&amp;", '>', "&gt;");
    ReplaceAllPlain("&amp;", '"', "&quot;");
    Steps("&", "&amp;", "&amp;", "&amp;", "&amp;");
  }

  lemma EscapeLess()
    ensures EscapeHtml("<") == "&lt;"
  {
    hide *;
    ReplaceAllPlain("<", '&', "&amp;");
    SingleReplaced('<', "&lt;");
    ReplaceAllPlain("&lt;", '>', "&gt;");
    ReplaceAllPlain("&lt;", '"', "&quot;");
    Steps("<", "<", "&lt;", "&lt;", "&lt;");
  }

  lemma EscapeMore()
    ensures EscapeHtml(">") == "&gt;"
  {
    hide *;
    ReplaceAllPlain(">", '&', "&amp;");
    ReplaceAllPlain(">", '<', "&lt;");
    SingleReplaced('>', "&gt;");
    ReplaceAllPlain("&gt;", '"', "&quot;");
    Steps(">", ">", ">", "&gt;", "&gt;");
  }

  lemma EscapeQuote()
    ensures EscapeHtml("\"") == "&quot;"
  {
    hide *;
    ReplaceAllPlain("\"", '&', "&amp;");
    ReplaceAllPlain("\"", '<', "&lt;");
    ReplaceAllPlain("\"", '>', "&gt;");
    SingleReplaced('"', "&quot;");
    Steps("\"", "\"", "\"", "\"", "&quot;");
  }

  lemma SingleReplaced(c: char, t: string)
    ensures ReplaceAll([c], c, t) == t
  {
    assert [c][1..] == "" && t + "" == t;
  }

  lemma EscapeCons(c: char, s: string)
    ensures EscapeHtml([c] + s) == Entity(c) + EscapeHtml(s)
  {
    EscapeConcat([c], s);
    EscapeOne(c);
    hide EscapeHtml, Entity;
  }

  /** Reading escaped text back. */
  function Unescape(s: string): string {
    if s == "" then ""
    else if "&amp;" <= s then "&" + Unescape(s[5..])
    else if "&lt;" <= s then "<" + Unescape(s[4..])
    else if "&gt;" <= s then ">" + Unescape(s[4..])
    else if "&quot;" <= s then "\"" + Unescape(s[6..])
    else [s[0]] + Unescape(s[1..])
  }

  /** Escaping loses nothing: reading the entities back gives the text, so every special rune
      was escaped exactly once. */
  lemma {:induction false} UnescapeEscape(s: string)
    ensures Unescape(EscapeHtml(s)) == s
  {
    if s != "" {
      UnescapeEscape(s[1..]);
      hide *;
      assert s == [s[0]] + s[1..];
      EscapeCons(s[0], s[1..]);
      UnescapeEntity(s[0], EscapeHtml(s[1..]));
    } else {
      assert EscapeHtml("") == "";
    }
  }

  ghost predicate Harmless(s: string) {
    forall i :: 0 <= i < |s| ==> s[i] != '<' && s[i] != '>' && s[i] != '"'
  }

  /** Escaped text holds no rune that could open a tag or close an attribute. */
  lemma {:induction false} EscapedHarmless(s: string)
    ensures Harmless(EscapeHtml(s))
  {
    if s != "" {
      EscapedHarmless(s[1..]);
      hide EscapeHtml;
      assert s == [s[0]] + s[1..];
      EscapeCons(s[0], s[1..]);
      assert Harmless(Entity(s[0]));
    } else {
      assert EscapeHtml("") == "";
    }
  }

  lemma UnescapeEntity(c: char, rest: string)
    ensures Unescape(Entity(c) + rest) == [c] + Unescape(rest)
  {
    var s := Entity(c) + rest;
    match c
    case '&' => UnescapeFirst(s, "&amp;", rest);
    case '<' => UnescapeFirst(s, "&lt;", rest);
    case '>' => UnescapeFirst(s, "&gt;", rest);
    case '"' => UnescapeFirst(s, "&quot;", rest);
    case _ => UnescapePlain(c, rest);
    hide Unescape;
  }

  lemma UnescapePlain(c: char, rest: string)
    requires c != '&'
    ensures Unescape([c] + rest) == [c] + Unescape(rest)
  {
    var s := [c] + rest;
    assert s[0] != '&' && s[1..] == rest;
  }

  lemma UnescapeFirst(s: string, entity: string, rest: string)
    requires s == entity + rest && entity in {"&amp;", "&lt;", "&gt;", "&quot;"}
    ensures Unescape(s) == (match entity[1] case 'a' => "&" case 'l' => "<" case 'g' => ">" case _ => "\"") + Unescape(rest)
  {
    assert s[1] == entity[1] && s[|entity|..] == rest && entity <= s;
  }

  // ----- spelling

  function KeyBody(n: nat): string {
    "PH" + Decimal(n)
  }

  function KeyText(n: nat): string {
    "\0" + KeyBody(n) + "\0"
  }

  function TagName(tag: Tag): string {
    match tag
    case Code => "code"
    case Bold => "b"
    case Italic => "i"
    case Strike => "s"
  }

  function EscapeTimes(s: string, e: nat): string {
    if e == 0 then s else EscapeHtml(EscapeTimes(s, e - 1))
  }

  function Spelled(t: Token): string {
    match t
    case Text(c, e) => EscapeTimes([c], e)
    case Key(n) => KeyText(n)
    case Open(tag) => "<" + TagName(tag) + ">"
    case Close(tag) => "</" + TagName(tag) + ">"
    case LinkOpen => "<a href=\""
    case LinkMid => "\">"
    case LinkClose => "</a>"
  }

  function Render(ts: Tokens): string {
    if ts == [] then "" else Spelled(ts[0]) + Render(ts[1..])
  }

  lemma {:induction false} RenderConcat(a: Tokens, b: Tokens)
    ensures Render(a + b) == Render(a) + Render(b)
  {
    hide Spelled;
    if a == [] {
      assert a + b == b;
    } else {
      assert (a + b)[1..] == a[1..] + b;
      RenderConcat(a[1..], b);
    }
  }

  lemma RenderCons(t: Token, rest: Tokens)
    ensures Render([t] + rest) == Spelled(t) + Render(rest)
  {
    hide Spelled;
    assert ([t] + rest)[1..] == rest;
  }

  /** Free of NUL, the rune that keys are marked with. */
  ghost predicate NulFree(s: string) {
    '\0' !in s
  }

  lemma KeyBodyPlain(n: nat)
    ensures NulFree(KeyBody(n)) && forall i :: 0 <= i < |KeyBody(n)| ==> KeyBody(n)[i] !in {'&', '<', '>', '"'}
  {
    DecimalDigits(n);
    hide Decimal;
  }

  /** Keys hold nothing that escaping would change. */
  lemma {:induction false} EscapeUnchanged(s: string)
    requires forall i :: 0 <= i < |s| ==> s[i] !in {'&', '<', '>', '"'}
    ensures EscapeHtml(s) == s
  {
    if s == "" {
      assert EscapeHtml("") == "";
    } else {
      EscapeUnchanged(s[1..]);
      EscapeCons(s[0], s[1..]);
      assert s == [s[0]] + s[1..];
      hide EscapeHtml;
    }
  }

  /** Escaping the string of a flat text escapes each rune once more and leaves the keys. */
  lemma {:induction false} EscapeRender(ts: Tokens)
    requires Flat(ts)
    ensures EscapeHtml(Render(ts)) == Render(Escaped(ts))
  {
    if ts == [] {
      assert EscapeHtml("") == "";
    } else {
      var t, rest := ts[0], ts[1..];
      assert forall i :: 0 <= i < |ts| - 1 ==> rest[i] == ts[i + 1];
      EscapeRender(rest);
      assert t.Text? || t.Key?;
      hide *;
      assert ts == [t] + rest;
      EscapeConcat(Spelled(t), Render(rest));
      EscapeSpelled(t);
      EscapedCons(t, rest);
      RenderCons(t, rest);
      RenderCons(if t.Text? then t.(escapes := t.escapes + 1) else t, Escaped(rest));
    }
  }

  lemma EscapedCons(t: Token, rest: Tokens)
    ensures Escaped([t] + rest) == [if t.Text? then t.(escapes := t.escapes + 1) else t] + Escaped(rest)
  {
    assert ([t] + rest)[1..] == rest;
  }

  lemma EscapeSpelled(t: Token)
    requires t.Text? || t.Key?
    ensures EscapeHtml(Spelled(t)) == Spelled(if t.Text? then t.(escapes := t.escapes + 1) else t)
  {
    if t.Key? {
      KeyBodyPlain(t.n);
      hide KeyBody;
      assert forall i :: 0 <= i < |KeyText(t.n)| ==> KeyText(t.n)[i] !in {'&', '<', '>', '"'};
      EscapeUnchanged(KeyText(t.n));
    }
    hide EscapeHtml;
  }

  // ----- restoring

  /** Where `t` first occurs in `s`, or -1. */
  function IndexOf(s: string, t: string): int {
    if t <= s then 0
    else if s == "" then -1
    else if IndexOf(s[1..], t) < 0 then -1 else 1 + IndexOf(s[1..], t)
  }

  lemma {:induction false} IndexOfIs(s: string, t: string)
    ensures var k := IndexOf(s, t); k < 0 || (k + |t| <= |s| && s[k..k + |t|] == t)
  {
    if !(t <= s) && s != "" {
      IndexOfIs(s[1..], t);
      var k := IndexOf(s[1..], t);
      if k >= 0 { SliceBehind(s, k, k + |t|); }
    }
  }

  lemma SliceBehind(s: string, lo: nat, hi: nat)
    requires lo <= hi < |s|
    ensures s[1..][lo..hi] == s[lo + 1..hi + 1]
  {
    forall i | 0 <= i < hi - lo
      ensures s[1..][lo..hi][i] == s[lo + 1..hi + 1][i]
    {
      assert s[1..][lo + i] == s[lo + 1 + i];
    }
  }

  function ReplaceOnce(s: string, t: string, put: string): string {
    IndexOfIs(s, t);
    var k := IndexOf(s, t);
    if k < 0 then s else s[..k] + put + s[k + |t|..]
  }

  function SweepText(s: string, htmls: seq<string>, k: nat): string
    requires k <= |htmls|
  {
    if k == 0 then s else ReplaceOnce(SweepText(s, htmls, k - 1), KeyText(k - 1), htmls[k - 1])
  }

  function SweepsText(s: string, htmls: seq<string>, rounds: nat): string {
    if rounds == 0 then s else SweepText(SweepsText(s, htmls, rounds - 1), htmls, |htmls|)
  }

  /** Sweeps until nothing changes, at most once more than there are placeholders. */
  method RestoreText(text: string, htmls: seq<string>) returns (s: string)
    ensures s == SweepsText(text, htmls, |htmls| + 1)
  {
    hide ReplaceOnce, KeyText;
    s := text;
    var i := 0;
    while i <= |htmls|
      invariant i <= |htmls| + 1 && s == SweepsText(text, htmls, i)
    {
      ghost var before := s;
      var changed := false;
      var k := 0;
      while k < |htmls|
        invariant k <= |htmls| && s == SweepText(before, htmls, k) && (!changed ==> s == before)
      {
        if IndexOf(s, KeyText(k)) >= 0 {
          s := ReplaceOnce(s, KeyText(k), htmls[k]);
          changed := true;
        } else {
          NotFound(s, KeyText(k), htmls[k]);
        }
        k := k + 1;
      }
      i := i + 1;
      if !changed {
        NothingMore(text, htmls, i - 1, |htmls| + 1);
        break;
      }
    }
  }

  lemma NotFound(s: string, t: string, put: string)
    requires IndexOf(s, t) < 0
    ensures ReplaceOnce(s, t, put) == s
  {
  }

  /** Once a sweep changes nothing, no later one does. */
  lemma {:induction false} NothingMore(text: string, htmls: seq<string>, i: nat, rounds: nat)
    requires i <= rounds
    requires SweepText(SweepsText(text, htmls, i), htmls, |htmls|) == SweepsText(text, htmls, i)
    ensures SweepsText(text, htmls, rounds) == SweepsText(text, htmls, i)
  {
    if i < rounds { NothingMore(text, htmls, i, rounds - 1); }
  }
}
