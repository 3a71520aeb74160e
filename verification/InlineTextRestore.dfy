/** Restoring placeholders by searching the string for their keys, compared with replacing the
    keys as tokens (core/markdown_html.go, convertInlineHTML, step 8). A key is spelled as its
    number between two NULs, so in a NUL-free text a search can succeed only at a NUL that
    belongs to a key: at the opening NUL of the key searched for, or at the closing NUL of
    another one if the text behind it goes on like a key. In the first case the search does
    what replacing the token does; in the second it tears the key in front apart, and from
    then on the string holds an odd number of NULs between two brackets, whatever follows. */
module InlineTextRestore {
  import opened Decimals
  import opened InlineTokens
  import opened InlineRestore
  import opened InlineText

  // ----- NUL

  lemma NulFreeConcat(a: string, b: string)
    ensures NulFree(a + b) <==> NulFree(a) && NulFree(b)
  {
  }

  lemma {:induction false} ReplaceAllNulFree(s: string, c: char, t: string)
    requires NulFree(s) && NulFree(t)
    ensures NulFree(ReplaceAll(s, c, t))
  {
    if s != "" {
      assert s[0] in s && forall x :: x in s[1..] ==> x in s;
      ReplaceAllNulFree(s[1..], c, t);
      NulFreeConcat(if s[0] == c then t else [s[0]], ReplaceAll(s[1..], c, t));
    }
  }

  lemma EscapeNulFree(s: string)
    requires NulFree(s)
    ensures NulFree(EscapeHtml(s))
  {
    assert NulFree("&amp;") && NulFree("&lt;") && NulFree("&gt;") && NulFree("&quot;");
    hide ReplaceAll, NulFree;
    var s1 := ReplaceAll(s, '&', "&amp;");
    ReplaceAllNulFree(s, '&', "&amp;");
    ReplaceAllNulFree(s1, '<', "&lt;");
    ReplaceAllNulFree(ReplaceAll(s1, '<', "&lt;"), '>', "&gt;");
    ReplaceAllNulFree(ReplaceAll(ReplaceAll(s1, '<', "&lt;"), '>', "&gt;"), '"', "&quot;");
  }

  lemma {:induction false} EscapeTimesNulFree(s: string, e: nat)
    requires NulFree(s)
    ensures NulFree(EscapeTimes(s, e))
  {
    if e > 0 {
      EscapeTimesNulFree(s, e - 1);
      EscapeNulFree(EscapeTimes(s, e - 1));
      hide EscapeHtml;
    }
  }

  /** No rune of the text is NUL. */
  ghost predicate Clean(ts: Tokens) {
    forall i :: 0 <= i < |ts| && ts[i].Text? ==> ts[i].c != '\0'
  }

  lemma SpelledNulFree(t: Token)
    requires !t.Key? && (t.Text? ==> t.c != '\0')
    ensures NulFree(Spelled(t))
  {
    if t.Text? { EscapeTimesNulFree([t.c], t.escapes); }
    hide EscapeTimes;
  }

  // ----- searching

  /** A search that cannot succeed in `r` goes on behind it. */
  lemma {:induction false} SkipOnce(r: string, rest: string, t: string, put: string)
    requires forall j :: 0 <= j < |r| ==> !(t <= r[j..] + rest)
    ensures ReplaceOnce(r + rest, t, put) == r + ReplaceOnce(rest, t, put)
  {
    hide *;
    SkipIndex(r, rest, t);
    ReplaceOnceIs(rest, t, put);
    ReplaceOnceIs(r + rest, t, put);
    var k := IndexOf(rest, t);
    if k >= 0 { ShiftedCut(r, rest, k, |t|, put); }
  }

  lemma ReplaceOnceIs(s: string, t: string, put: string)
    ensures var k := IndexOf(s, t);
      (k < 0 || k + |t| <= |s|) && ReplaceOnce(s, t, put) == if k < 0 then s else s[..k] + put + s[k + |t|..]
  {
    IndexOfIs(s, t);
    hide IndexOf;
  }

  lemma ShiftedCut(r: string, rest: string, k: nat, n: nat, put: string)
    requires k + n <= |rest|
    ensures (r + rest)[..|r| + k] + put + (r + rest)[|r| + k + n..] == r + (rest[..k] + put + rest[k + n..])
  {
  }

  lemma {:induction false} SkipIndex(r: string, rest: string, t: string)
    requires forall j :: 0 <= j < |r| ==> !(t <= r[j..] + rest)
    ensures IndexOf(r + rest, t) == if IndexOf(rest, t) < 0 then -1 else |r| + IndexOf(rest, t)
  {
    if r == "" {
      assert r + rest == rest;
      IndexAtLeast(rest, t);
    } else {
      assert r[0..] + rest == r + rest && (r + rest)[1..] == r[1..] + rest;
      forall j | 0 <= j < |r| - 1
        ensures !(t <= r[1..][j..] + rest)
      {
        assert r[1..][j..] == r[j + 1..];
      }
      SkipIndex(r[1..], rest, t);
    }
  }

  lemma {:induction false} IndexAtLeast(s: string, t: string)
    ensures IndexOf(s, t) >= -1
  {
    if !(t <= s) && s != "" { IndexAtLeast(s[1..], t); }
  }

  /** Text without NUL cannot hold the start of a key. */
  lemma SkipPlain(r: string, rest: string, n: nat, put: string)
    requires NulFree(r)
    ensures ReplaceOnce(r + rest, KeyText(n), put) == r + ReplaceOnce(rest, KeyText(n), put)
  {
    hide ReplaceOnce;
    forall j | 0 <= j < |r|
      ensures !(KeyText(n) <= r[j..] + rest)
    {
      assert (r[j..] + rest)[0] == r[j] && r[j] in r;
    }
    SkipOnce(r, rest, KeyText(n), put);
  }

  // ----- keys

  lemma DigitsDiffer(n: nat, m: nat)
    requires KeyBody(n) == KeyBody(m)
    ensures n == m
  {
    DecimalRoundTrip(n);
    DecimalRoundTrip(m);
    hide Decimal, DecimalValue;
    assert KeyBody(n)[2..] == Decimal(n) && KeyBody(m)[2..] == Decimal(m);
  }

  function NulAt(s: string): nat {
    if s == "" || s[0] == '\0' then 0 else 1 + NulAt(s[1..])
  }

  lemma {:induction false} NulAtIs(a: string, rest: string)
    requires NulFree(a)
    ensures NulAt(a + "\0" + rest) == |a|
  {
    if a != "" {
      assert a[0] in a && forall x :: x in a[1..] ==> x in a;
      assert (a + "\0" + rest)[1..] == a[1..] + "\0" + rest;
      NulAtIs(a[1..], rest);
    }
  }

  /** Two strings that begin the same text up to its first NUL are the same. */
  lemma SameToNul(a: string, b: string, rest: string)
    requires NulFree(a) && NulFree(b) && a + "\0" <= b + "\0" + rest
    ensures a == b
  {
    var s := b + "\0" + rest;
    var rest' := s[|a| + 1..];
    assert s == a + "\0" + rest';
    NulAtIs(a, rest');
    NulAtIs(b, rest);
    hide NulAt, NulFree;
    assert s[..|a|] == a && s[..|b|] == b;
  }

  lemma SameKey(n: nat, m: nat, rest: string)
    requires KeyText(n) <= KeyText(m) + rest
    ensures n == m
  {
    KeyBodyPlain(n);
    KeyBodyPlain(m);
    hide KeyBody, NulFree;
    var a, b := KeyBody(n), KeyBody(m);
    assert KeyText(n)[1..] == a + "\0" && (KeyText(m) + rest)[1..] == b + "\0" + rest;
    PrefixTail(KeyText(n), KeyText(m) + rest);
    SameToNul(a, b, rest);
    DigitsDiffer(n, m);
  }

  lemma PrefixTail(t: string, s: string)
    requires t <= s && t != ""
    ensures t[1..] <= s[1..]
  {
  }

  /** Inside a key there is no NUL. */
  lemma InsideKey(m: nat, j: nat, rest: string, n: nat)
    requires 0 < j < |KeyText(m)| - 1
    ensures !(KeyText(n) <= KeyText(m)[j..] + rest)
  {
    KeyBodyPlain(m);
    hide KeyBody;
    assert (KeyText(m)[j..] + rest)[0] == KeyText(m)[j] == KeyBody(m)[j - 1];
    assert KeyBody(m)[j - 1] in KeyBody(m);
    assert KeyText(n)[0] == '\0';
  }

  /** The text goes on as key `n` does after its opening NUL. */
  ghost predicate GoesOn(ts: Tokens, n: nat) {
    KeyBody(n) + "\0" <= Render(ts)
  }

  /** The first thing a search for key `n` finds is text behind another key. */
  ghost predicate FoundInText(ts: Tokens, n: nat) {
    ts != [] && ts[0] != Key(n) && ((ts[0].Key? && GoesOn(ts[1..], n)) || FoundInText(ts[1..], n))
  }

  /** The NUL that ends a key starts key `n` only if the text goes on like it. */
  lemma BehindKey(m: nat, rest: Tokens, n: nat)
    requires KeyText(n) <= KeyText(m)[|KeyText(m)| - 1..] + Render(rest)
    ensures GoesOn(rest, n)
  {
    hide KeyBody, Render;
    assert KeyText(m)[|KeyText(m)| - 1..] == "\0";
    assert ("\0" + Render(rest))[1..] == Render(rest) && KeyText(n)[1..] == KeyBody(n) + "\0";
    PrefixTail(KeyText(n), "\0" + Render(rest));
  }

  /** Before the NUL that ends key `m` no other key starts. */
  lemma NotBefore(m: nat, rest: Tokens, n: nat, j: nat)
    requires m != n && j < |KeyText(m)| - 1
    ensures !(KeyText(n) <= KeyText(m)[j..] + Render(rest))
  {
    hide *;
    if j == 0 {
      assert KeyText(m)[0..] == KeyText(m);
      if KeyText(n) <= KeyText(m) + Render(rest) { SameKey(n, m, Render(rest)); }
    } else {
      InsideKey(m, j, Render(rest), n);
    }
  }

  /** Another key is no obstacle to the search unless the text behind it goes on like the key. */
  lemma SkipKey(m: nat, rest: Tokens, n: nat, put: string)
    requires m != n && !GoesOn(rest, n)
    ensures ReplaceOnce(KeyText(m) + Render(rest), KeyText(n), put)
         == KeyText(m) + ReplaceOnce(Render(rest), KeyText(n), put)
  {
    hide *;
    var r, t := KeyText(m), KeyText(n);
    forall j | 0 <= j < |r|
      ensures !(t <= r[j..] + Render(rest))
    {
      if j < |r| - 1 {
        NotBefore(m, rest, n, j);
      } else if t <= r[j..] + Render(rest) {
        BehindKey(m, rest, n);
      }
    }
    SkipOnce(r, Render(rest), t, put);
  }

  // ----- one replacement

  /** Replacing the first occurrence of a key's spelling replaces the first such key, unless
      text behind another key is found before it. */
  lemma {:induction false} ReplaceRenders(ts: Tokens, n: nat, html: Tokens)
    requires Clean(ts) && !FoundInText(ts, n)
    ensures ReplaceOnce(Render(ts), KeyText(n), Render(html)) == Render(ReplaceFirst(ts, n, html))
  {
    if ts == [] {
      hide *;
      NothingToReplace(n, Render(html));
      RenderNothing(n, html);
    } else {
      var t, rest := ts[0], ts[1..];
      CleanTail(ts);
      if t != Key(n) { ReplaceRenders(rest, n, html); }
      hide *;
      RenderCons(t, rest);
      assert ts == [t] + rest;
      ReplaceFirstCons(t, rest, n, html);
      if t == Key(n) {
        KeySpelled(n);
        FoundAtOnce(Render(rest), n, Render(html));
        RenderConcat(html, rest);
      } else {
        RenderCons(t, ReplaceFirst(rest, n, html));
        FoundIs(ts, n);
        if t.Key? {
          KeySpelled(t.n);
          SkipKey(t.n, rest, n, Render(html));
        } else {
          SpelledNulFree(t);
          SkipPlain(Spelled(t), Render(rest), n, Render(html));
        }
      }
    }
  }

  lemma FoundIs(ts: Tokens, n: nat)
    requires ts != []
    ensures FoundInText(ts, n)
        <==> ts[0] != Key(n) && ((ts[0].Key? && GoesOn(ts[1..], n)) || FoundInText(ts[1..], n))
  {
    hide GoesOn;
  }

  lemma CleanTail(ts: Tokens)
    requires ts != [] && Clean(ts)
    ensures Clean(ts[1..]) && (ts[0].Text? ==> ts[0].c != '\0')
  {
  }

  lemma KeySpelled(n: nat)
    ensures Spelled(Key(n)) == KeyText(n)
  {
  }

  lemma ReplaceFirstCons(t: Token, rest: Tokens, n: nat, html: Tokens)
    ensures ReplaceFirst([t] + rest, n, html) == if t == Key(n) then html + rest else [t] + ReplaceFirst(rest, n, html)
  {
    assert ([t] + rest)[1..] == rest;
  }

  lemma RenderNothing(n: nat, html: Tokens)
    ensures Render([]) == "" && ReplaceFirst([], n, html) == []
  {
  }

  lemma NothingToReplace(n: nat, put: string)
    ensures ReplaceOnce("", KeyText(n), put) == ""
  {
    hide KeyBody;
  }

  lemma FoundAtOnce(rest: string, n: nat, put: string)
    ensures ReplaceOnce(KeyText(n) + rest, KeyText(n), put) == put + rest
  {
    hide KeyText;
    var t := KeyText(n);
    assert t <= t + rest;
    assert (t + rest)[..0] + put + (t + rest)[|t|..] == put + rest;
  }

  // ----- html

  /** Html begins and ends with a tag. */
  predicate Tagged(html: Tokens) {
    && |html| >= 2 && (html[0].Open? || html[0].LinkOpen?)
    && (html[|html| - 1].Close? || html[|html| - 1].LinkClose?)
  }

  lemma {:induction false} EndsWithTag(ts: Tokens)
    requires ts != [] && (ts[|ts| - 1].Close? || ts[|ts| - 1].LinkClose?)
    ensures Render(ts) != "" && Render(ts)[|Render(ts)| - 1] == '>'
  {
    var init, t := ts[..|ts| - 1], ts[|ts| - 1];
    assert ts == init + [t];
    RenderConcat(init, [t]);
    RenderCons(t, []);
    assert [t] + [] == [t] && Spelled(t)[|Spelled(t)| - 1] == '>';
    hide Render, Spelled;
  }

  lemma StartsWithTag(html: Tokens)
    requires Tagged(html)
    ensures Render(html) != "" && Render(html)[0] == '<'
  {
    hide TagName;
  }

  // ----- keys torn apart

  /** The NULs since the last bracket, and whether between two brackets they were ever odd. */
  datatype Scan = Scan(torn: bool, odd: bool)

  function ScanStep(st: Scan, c: char): Scan {
    if c == '<' || c == '>' then Scan(st.torn || st.odd, false)
    else if c == '\0' then Scan(st.torn, !st.odd)
    else st
  }

  function Scanned(st: Scan, s: string): Scan
    decreases |s|
  {
    if s == "" then st else Scanned(ScanStep(st, s[0]), s[1..])
  }

  /** Between two brackets, or before the first or behind the last, there is an odd number of
      NULs. A key is never spelled across a bracket, so at least one of them stays. */
  predicate Torn(s: string) {
    var r := Scanned(Scan(false, false), s);
    r.torn || r.odd
  }

  lemma {:induction false} ScannedConcat(st: Scan, a: string, b: string)
    ensures Scanned(st, a + b) == Scanned(Scanned(st, a), b)
    decreases |a|
  {
    if a == "" {
      assert a + b == b;
    } else {
      assert (a + b)[1..] == a[1..] + b;
      ScannedConcat(ScanStep(st, a[0]), a[1..], b);
    }
  }

  /** Text without NUL changes nothing while the number of NULs is even. */
  lemma {:induction false} ScannedNulFree(st: Scan, s: string)
    requires NulFree(s) && !st.odd
    ensures Scanned(st, s) == st
    decreases |s|
  {
    if s != "" {
      assert s[0] in s && forall c :: c in s[1..] ==> c in s;
      ScannedNulFree(st, s[1..]);
    }
  }

  /** Text without NUL and bracket never changes anything. */
  lemma {:induction false} ScannedPlain(st: Scan, s: string)
    requires NulFree(s) && '<' !in s && '>' !in s
    ensures Scanned(st, s) == st
    decreases |s|
  {
    if s != "" {
      assert s[0] in s && forall c :: c in s[1..] ==> c in s;
      ScannedPlain(st, s[1..]);
    }
  }

  /** What was torn stays torn, and more torn before is more torn after. */
  lemma {:induction false} ScannedMore(a: Scan, b: Scan, s: string)
    requires a.odd == b.odd && (a.torn ==> b.torn)
    ensures Scanned(a, s).odd == Scanned(b, s).odd && (Scanned(a, s).torn ==> Scanned(b, s).torn)
    ensures a.torn ==> Scanned(a, s).torn
    decreases |s|
  {
    if s != "" { ScannedMore(ScanStep(a, s[0]), ScanStep(b, s[0]), s[1..]); }
  }

  lemma {:induction false} TornStaysTorn(st: Scan, s: string)
    requires st.torn
    ensures Scanned(st, s).torn
    decreases |s|
  {
    if s != "" { TornStaysTorn(ScanStep(st, s[0]), s[1..]); }
  }

  lemma ScannedNul(st: Scan)
    ensures Scanned(st, "\0") == Scan(st.torn, !st.odd)
  {
    assert "\0"[1..] == "";
  }

  lemma ScannedOpening(st: Scan, n: nat)
    ensures Scanned(st, "\0" + KeyBody(n)) == Scan(st.torn, !st.odd)
  {
    KeyBodyPlain(n);
    hide KeyBody;
    ScannedConcat(st, "\0", KeyBody(n));
    ScannedNul(st);
    ScannedPlain(Scan(st.torn, !st.odd), KeyBody(n));
  }

  lemma ScannedKey(st: Scan, n: nat)
    ensures Scanned(st, KeyText(n)) == st
  {
    hide KeyBody, Scanned;
    ScannedOpening(st, n);
    ScannedConcat(st, "\0" + KeyBody(n), "\0");
    ScannedNul(Scan(st.torn, !st.odd));
  }

  ghost predicate Bracketed(put: string) {
    put != "" && put[0] == '<' && put[|put| - 1] == '>'
  }

  /** Html put in ends what was odd before it. */
  lemma ScannedHtml(st: Scan, put: string)
    requires Bracketed(put)
    ensures var r := Scanned(st, put); !r.odd && (st.torn || st.odd ==> r.torn)
  {
    var init := put[..|put| - 1];
    assert put == init + ">";
    ScannedConcat(st, init, ">");
    assert Scanned(Scanned(st, init), ">") == ScanStep(Scanned(st, init), '>') by { assert ">"[1..] == ""; }
    if st.torn || st.odd {
      assert Scanned(st, put) == Scanned(ScanStep(st, '<'), put[1..]);
      TornStaysTorn(ScanStep(st, '<'), put[1..]);
    }
  }

  /** No replacement of a key by html mends a torn string. */
  lemma TornStays(s: string, n: nat, put: string)
    requires Torn(s) && Bracketed(put)
    ensures Torn(ReplaceOnce(s, KeyText(n), put))
  {
    hide *;
    ReplaceOnceIs(s, KeyText(n), put);
    var k := IndexOf(s, KeyText(n));
    if k >= 0 {
      IndexOfIs(s, KeyText(n));
      var u, v := s[..k], s[k + |KeyText(n)|..];
      assert s == u + KeyText(n) + v;
      TornThrough(u, n, v, put);
    }
  }

  lemma TornThrough(u: string, n: nat, v: string, put: string)
    requires Torn(u + KeyText(n) + v) && Bracketed(put)
    ensures Torn(u + put + v)
  {
    hide Scanned, KeyText, Bracketed;
    var st := Scanned(Scan(false, false), u);
    ScannedConcat(Scan(false, false), u, KeyText(n));
    ScannedConcat(Scan(false, false), u + KeyText(n), v);
    ScannedKey(st, n);
    ScannedConcat(Scan(false, false), u, put);
    ScannedConcat(Scan(false, false), u + put, v);
    ScannedHtml(st, put);
    if st.odd {
      TornStaysTorn(Scanned(st, put), v);
    } else {
      ScannedMore(st, Scanned(st, put), v);
    }
  }

  lemma TornHoldsNul(s: string)
    requires Torn(s)
    ensures !NulFree(s)
  {
    if NulFree(s) { ScannedNulFree(Scan(false, false), s); }
  }

  /** A token in front, spelled as a whole, mends nothing. */
  lemma TornBehind(t: Token, x: string)
    requires Torn(x) && (t.Text? ==> t.c != '\0')
    ensures Torn(Spelled(t) + x)
  {
    var start := Scan(false, false);
    ScannedConcat(start, Spelled(t), x);
    if t.Key? {
      KeySpelled(t.n);
      ScannedKey(start, t.n);
    } else {
      SpelledNulFree(t);
      ScannedNulFree(start, Spelled(t));
    }
    hide Scanned, Spelled;
  }

  /** A search that succeeds in the text tears the key in front of it. */
  lemma {:induction false} SearchTears(ts: Tokens, n: nat, put: string)
    requires Clean(ts) && FoundInText(ts, n) && Bracketed(put)
    ensures Torn(ReplaceOnce(Render(ts), KeyText(n), put))
  {
    var t, rest := ts[0], ts[1..];
    CleanTail(ts);
    if FoundInText(rest, n) { SearchTears(rest, n, put); }
    hide *;
    FoundIs(ts, n);
    RenderCons(t, rest);
    assert ts == [t] + rest;
    if t.Key? && GoesOn(rest, n) {
      KeySpelled(t.n);
      SearchTearsHere(t.n, rest, n, put);
    } else {
      if t.Key? {
        KeySpelled(t.n);
        SkipKey(t.n, rest, n, put);
      } else {
        SpelledNulFree(t);
        SkipPlain(Spelled(t), Render(rest), n, put);
      }
      TornBehind(t, ReplaceOnce(Render(rest), KeyText(n), put));
    }
  }

  lemma SearchTearsHere(m: nat, rest: Tokens, n: nat, put: string)
    requires m != n && GoesOn(rest, n) && Bracketed(put)
    ensures Torn(ReplaceOnce(KeyText(m) + Render(rest), KeyText(n), put))
  {
    hide *;
    var r, tail := SearchedThere(m, rest, n);
    forall j | 0 <= j < |r|
      ensures !(KeyText(n) <= r[j..] + (KeyText(n) + tail))
    {
      NotBefore(m, rest, n, j);
      assert r[j..] + (KeyText(n) + tail) == (r + (KeyText(n) + tail))[j..];
      assert KeyText(m)[j..] + Render(rest) == (KeyText(m) + Render(rest))[j..];
    }
    SkipOnce(r, KeyText(n) + tail, KeyText(n), put);
    FoundAtOnce(tail, n, put);
    CutOpen(m, put, tail);
  }

  lemma SearchedThere(m: nat, rest: Tokens, n: nat) returns (r: string, tail: string)
    requires GoesOn(rest, n)
    ensures r == "\0" + KeyBody(m) && |r| == |KeyText(m)| - 1
    ensures KeyText(m) + Render(rest) == r + (KeyText(n) + tail)
  {
    hide KeyBody, Render;
    r := "\0" + KeyBody(m);
    var t := KeyBody(n) + "\0";
    tail := Render(rest)[|t|..];
    assert Render(rest) == t + tail;
    assert KeyText(n) == "\0" + t;
  }

  lemma CutOpen(m: nat, put: string, tail: string)
    requires Bracketed(put)
    ensures Torn("\0" + KeyBody(m) + (put + tail))
  {
    hide Scanned, KeyBody, Bracketed;
    var start, r := Scan(false, false), "\0" + KeyBody(m);
    ScannedConcat(start, r, put + tail);
    ScannedOpening(start, m);
    ScannedConcat(Scan(false, true), put, tail);
    ScannedHtml(Scan(false, true), put);
    TornStaysTorn(Scanned(Scan(false, true), put), tail);
  }

  // ----- all replacements

  lemma BracketedHtml(html: Tokens)
    requires Tagged(html)
    ensures Bracketed(Render(html))
  {
    StartsWithTag(html);
    EndsWithTag(html);
    hide Render;
  }

  lemma {:induction false} CleanReplace(ts: Tokens, n: nat, html: Tokens)
    requires Clean(ts) && Clean(html)
    ensures Clean(ReplaceFirst(ts, n, html))
  {
    if ts != [] {
      CleanTail(ts);
      if ts[0] != Key(n) { CleanReplace(ts[1..], n, html); }
    }
  }

  function RenderAll(phs: seq<Tokens>): seq<string> {
    seq(|phs|, k requires 0 <= k < |phs| => Render(phs[k]))
  }

  /** Clean html between tags. */
  ghost predicate AllTagged(phs: seq<Tokens>) {
    forall k :: 0 <= k < |phs| ==> Clean(phs[k]) && Tagged(phs[k])
  }

  /** One of the first `k` searches of a sweep succeeds in the text. */
  ghost predicate Slips(ts: Tokens, phs: seq<Tokens>, k: nat)
    requires k <= |phs|
  {
    k > 0 && (Slips(ts, phs, k - 1) || FoundInText(Sweep(ts, phs, k - 1), k - 1))
  }

  ghost predicate SlipsIn(ts: Tokens, phs: seq<Tokens>, rounds: nat) {
    rounds > 0 && (SlipsIn(ts, phs, rounds - 1) || Slips(Sweeps(ts, phs, rounds - 1), phs, |phs|))
  }

  lemma {:induction false} SweepClean(ts: Tokens, phs: seq<Tokens>, k: nat)
    requires k <= |phs| && Clean(ts) && AllTagged(phs)
    ensures Clean(Sweep(ts, phs, k))
  {
    hide Clean, Tagged, ReplaceFirst;
    if k > 0 {
      SweepClean(ts, phs, k - 1);
      CleanReplace(Sweep(ts, phs, k - 1), k - 1, phs[k - 1]);
    }
  }

  lemma {:induction false} SweepsClean(ts: Tokens, phs: seq<Tokens>, rounds: nat)
    requires Clean(ts) && AllTagged(phs)
    ensures Clean(Sweeps(ts, phs, rounds))
  {
    hide Clean, AllTagged, Sweep;
    if rounds > 0 {
      SweepsClean(ts, phs, rounds - 1);
      SweepClean(Sweeps(ts, phs, rounds - 1), phs, |phs|);
    }
  }

  lemma {:induction false} SweepTorn(s: string, phs: seq<Tokens>, k: nat)
    requires k <= |phs| && Torn(s) && AllTagged(phs)
    ensures Torn(SweepText(s, RenderAll(phs), k))
  {
    hide Clean, Tagged, Torn, Render, ReplaceOnce, KeyText, Bracketed;
    if k > 0 {
      SweepTorn(s, phs, k - 1);
      BracketedHtml(phs[k - 1]);
      TornStays(SweepText(s, RenderAll(phs), k - 1), k - 1, Render(phs[k - 1]));
    }
  }

  /** A sweep over the string is a sweep over the tokens, or it tears the string. */
  lemma {:induction false} SweepRenders(ts: Tokens, phs: seq<Tokens>, k: nat)
    requires k <= |phs| && Clean(ts) && AllTagged(phs)
    ensures Slips(ts, phs, k) ==> Torn(SweepText(Render(ts), RenderAll(phs), k))
    ensures !Slips(ts, phs, k) ==> SweepText(Render(ts), RenderAll(phs), k) == Render(Sweep(ts, phs, k))
  {
    if k > 0 {
      SweepRenders(ts, phs, k - 1);
      hide *;
      SweepSteps(ts, phs, k);
      var t, s := Sweep(ts, phs, k - 1), SweepText(Render(ts), RenderAll(phs), k - 1);
      TaggedAt(phs, k - 1);
      BracketedHtml(phs[k - 1]);
      if Slips(ts, phs, k - 1) {
        TornStays(s, k - 1, Render(phs[k - 1]));
      } else {
        SweepClean(ts, phs, k - 1);
        if FoundInText(t, k - 1) {
          SearchTears(t, k - 1, Render(phs[k - 1]));
        } else {
          ReplaceRenders(t, k - 1, phs[k - 1]);
        }
      }
    }
  }

  lemma TaggedAt(phs: seq<Tokens>, k: nat)
    requires AllTagged(phs) && k < |phs|
    ensures Tagged(phs[k]) && Clean(phs[k])
  {
    hide Tagged, Clean;
  }

  lemma SweepSteps(ts: Tokens, phs: seq<Tokens>, k: nat)
    requires 0 < k <= |phs|
    ensures Sweep(ts, phs, k) == ReplaceFirst(Sweep(ts, phs, k - 1), k - 1, phs[k - 1])
    ensures |RenderAll(phs)| == |phs|
    ensures SweepText(Render(ts), RenderAll(phs), k)
         == ReplaceOnce(SweepText(Render(ts), RenderAll(phs), k - 1), KeyText(k - 1), Render(phs[k - 1]))
    ensures Slips(ts, phs, k) <==> Slips(ts, phs, k - 1) || FoundInText(Sweep(ts, phs, k - 1), k - 1)
  {
    hide ReplaceFirst, ReplaceOnce, Render, KeyText, FoundInText;
  }

  /** So are all sweeps. */
  lemma {:induction false} SweepsRender(ts: Tokens, phs: seq<Tokens>, rounds: nat)
    requires Clean(ts) && AllTagged(phs)
    ensures SlipsIn(ts, phs, rounds) ==> Torn(SweepsText(Render(ts), RenderAll(phs), rounds))
    ensures !SlipsIn(ts, phs, rounds) ==> SweepsText(Render(ts), RenderAll(phs), rounds) == Render(Sweeps(ts, phs, rounds))
  {
    hide Clean, AllTagged, Torn, Render, Sweep, SweepText, Slips;
    if rounds > 0 {
      SweepsRender(ts, phs, rounds - 1);
      SweepsClean(ts, phs, rounds - 1);
      if SlipsIn(ts, phs, rounds - 1) {
        SweepTorn(SweepsText(Render(ts), RenderAll(phs), rounds - 1), phs, |phs|);
      } else {
        SweepRenders(Sweeps(ts, phs, rounds - 1), phs, |phs|);
      }
    }
  }
}
