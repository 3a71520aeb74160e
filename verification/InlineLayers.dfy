/** The text of the inline renderer layer by layer: layer d has every key expanded that stands
    less than d deep in html (core/markdown_html.go, convertInlineHTML, step 8). A sweep over
    the tokens takes one layer to the next, so the searches that go astray can be read off the
    layers without sweeping. */
module InlineLayers {
  import opened InlineTokens
  import opened InlineHtml
  import opened InlineHtmlProperties
  import opened InlineRestore
  import opened InlineText
  import opened InlineTextRestore

  /** Every key below `b` gives way to its html, all at once. */
  function Once(ts: Tokens, phs: seq<Tokens>, b: nat): Tokens
    requires b <= |phs|
  {
    if ts == [] then []
    else (if ts[0].Key? && ts[0].n < b then phs[ts[0].n] else [ts[0]]) + Once(ts[1..], phs, b)
  }

  function Layer(ts: Tokens, phs: seq<Tokens>, depth: nat): Tokens {
    if depth == 0 then ts else Once(Layer(ts, phs, depth - 1), phs, |phs|)
  }

  /** The next key, if there is one, is at least `n`. */
  predicate NextKeyFrom(ts: Tokens, n: nat) {
    ts == [] || if ts[0].Key? then ts[0].n >= n else NextKeyFrom(ts[1..], n)
  }

  /** In this layer the search for key `n` goes astray: before any key `n`, either two keys
      that are still there, being searched for later, enclose text that spells `n`, or the html
      of a key that was searched for before holds two such keys. */
  ghost predicate Strays(ts: Tokens, phs: seq<Tokens>, n: nat)
    requires n < |phs|
  {
    && ts != [] && ts[0] != Key(n)
    && (|| (ts[0].Key? && ts[0].n > n && GoesOn(ts[1..], n) && NextKeyFrom(ts[1..], n))
        || (ts[0].Key? && ts[0].n < n && FoundInText(phs[ts[0].n], n))
        || Strays(ts[1..], phs, n))
  }

  // ----- a sweep is a layer

  ghost predicate Single(ts: Tokens) {
    forall n: nat :: Count(ts, n) <= 1
  }

  lemma OnceCons(t: Token, rest: Tokens, phs: seq<Tokens>, b: nat)
    requires b <= |phs|
    ensures Once([t] + rest, phs, b) == (if t.Key? && t.n < b then phs[t.n] else [t]) + Once(rest, phs, b)
  {
    assert ([t] + rest)[1..] == rest;
  }

  lemma {:induction false} OnceNothing(ts: Tokens, phs: seq<Tokens>)
    ensures Once(ts, phs, 0) == ts
  {
    if ts != [] {
      OnceNothing(ts[1..], phs);
      assert [ts[0]] + ts[1..] == ts;
    }
  }

  lemma {:induction false} OnceWithout(ts: Tokens, phs: seq<Tokens>, k: nat)
    requires k < |phs| && Count(ts, k) == 0
    ensures Once(ts, phs, k + 1) == Once(ts, phs, k)
  {
    if ts != [] { OnceWithout(ts[1..], phs, k); }
  }

  lemma {:induction false} ReplaceBehind(a: Tokens, b: Tokens, n: nat, html: Tokens)
    requires Count(a, n) == 0
    ensures ReplaceFirst(a + b, n, html) == a + ReplaceFirst(b, n, html)
  {
    if a == [] {
      assert a + b == b;
    } else {
      assert (a + b)[1..] == a[1..] + b;
      ReplaceBehind(a[1..], b, n, html);
    }
  }

  /** Keys already expanded hold only lower ones, so replacing the first key `k` replaces the
      one in the layer. */
  lemma {:induction false} OnceNext(ts: Tokens, phs: seq<Tokens>, k: nat)
    requires k < |phs| && Lower(phs) && Count(ts, k) <= 1
    ensures Once(ts, phs, k + 1) == ReplaceFirst(Once(ts, phs, k), k, phs[k])
  {
    if ts != [] {
      var t, rest := ts[0], ts[1..];
      assert ts == [t] + rest;
      OnceCons(t, rest, phs, k);
      OnceCons(t, rest, phs, k + 1);
      if t == Key(k) {
        assert Count(rest, k) == 0;
        OnceWithout(rest, phs, k);
        ReplaceFirstCons(t, Once(rest, phs, k), k, phs[k]);
      } else {
        OnceNext(rest, phs, k);
        var head := if t.Key? && t.n < k then phs[t.n] else [t];
        assert Count(head, k) == 0 by { HeadCount(t, phs, k); }
        hide *;
        ReplaceBehind(head, Once(rest, phs, k), k, phs[k]);
      }
    } else {
      assert Once(ts, phs, k) == [];
    }
  }

  lemma HeadCount(t: Token, phs: seq<Tokens>, k: nat)
    requires k < |phs| && Lower(phs) && t != Key(k)
    ensures Count(if t.Key? && t.n < k then phs[t.n] else [t], k) == 0
  {
    if t.Key? && t.n < k {
      assert KeysBelow(phs[t.n], t.n);
    } else {
      assert [t][1..] == [];
    }
  }

  /** In the middle of a sweep exactly the keys searched for so far are expanded. */
  lemma {:induction false} SweepIsOnce(ts: Tokens, phs: seq<Tokens>, k: nat)
    requires k <= |phs| && Lower(phs) && Single(ts)
    ensures Sweep(ts, phs, k) == Once(ts, phs, k)
  {
    if k == 0 {
      OnceNothing(ts, phs);
    } else {
      SweepIsOnce(ts, phs, k - 1);
      OnceNext(ts, phs, k - 1);
    }
    hide Once, ReplaceFirst;
  }

  /** Sweeps keep every key single. */
  lemma SweepsSingle(st: State, rounds: nat)
    requires Sound(st)
    ensures Single(Sweeps(st.s, st.phs, rounds))
  {
    hide Count, CountAll, Sweeps;
    assert forall n: nat :: Total(st, n) == Count(st.s, n) + CountAll(st.phs, n);
    assert Pending(st.s, st.phs, st.phs);
    var left := SweepsLower(st.s, st.phs, rounds);
    assert forall n: nat :: Count(Sweeps(st.s, st.phs, rounds), n) + CountAll(left, n) <= if n < |st.phs| then 1 else 0;
  }

  /** Sweep by sweep, the text is layer by layer. */
  lemma {:induction false} SweepsAreLayers(st: State, rounds: nat)
    requires Sound(st)
    ensures Sweeps(st.s, st.phs, rounds) == Layer(st.s, st.phs, rounds)
  {
    if rounds > 0 {
      SweepsAreLayers(st, rounds - 1);
      SweepsSingle(st, rounds - 1);
      SweepIsOnce(Sweeps(st.s, st.phs, rounds - 1), st.phs, |st.phs|);
    }
    hide Sweep, Once;
  }

  // ----- searches that go astray

  /** What goes on behind a layer's key, once the lower keys are expanded: html begins with a
      bracket, so the next key must still be there. */
  lemma {:induction false} GoesOnOnce(ts: Tokens, phs: seq<Tokens>, n: nat)
    requires n <= |phs| && AllTagged(phs) && Clean(ts)
    ensures GoesOn(Once(ts, phs, n), n) <==> GoesOn(ts, n) && NextKeyFrom(ts, n)
  {
    KeyIsWord(n);
    BeginsOnce(ts, phs, n, KeyBody(n) + "\0");
    hide KeyBody, Once, Clean, AllTagged;
  }

  /** Ends at its first NUL and holds no tag. */
  ghost predicate Word(w: string) {
    w != "" && w[|w| - 1] == '\0' && '<' !in w && NulFree(w[..|w| - 1])
  }

  lemma KeyIsWord(n: nat)
    ensures Word(KeyBody(n) + "\0")
  {
    KeyBodyPlain(n);
    hide KeyBody;
    assert (KeyBody(n) + "\0")[..|KeyBody(n)|] == KeyBody(n);
  }

  /** A word begins a text exactly if it begins it after expanding the keys below `n`, and the
      next key is left. */
  lemma {:induction false} BeginsOnce(ts: Tokens, phs: seq<Tokens>, n: nat, w: string)
    requires n <= |phs| && AllTagged(phs) && Clean(ts) && Word(w)
    ensures w <= Render(Once(ts, phs, n)) <==> w <= Render(ts) && NextKeyFrom(ts, n)
  {
    if ts == [] {
      assert Render(ts) == "" && Once(ts, phs, n) == [];
    } else {
      var t, rest := ts[0], ts[1..];
      CleanTail(ts);
      NextKeyIs(ts, n);
      if !t.Key? {
        SpelledNulFree(t);
        WordBehind(w, Spelled(t), Render(rest));
        WordBehind(w, Spelled(t), Render(Once(rest, phs, n)));
        if Spelled(t) <= w { BeginsOnce(rest, phs, n, w[|Spelled(t)|..]); }
      }
      assert ts == [t] + rest;
      hide *;
      OnceCons(t, rest, phs, n);
      RenderCons(t, rest);
      if t.Key? && t.n < n {
        TaggedAt(phs, t.n);
        StartsWithTag(phs[t.n]);
        RenderConcat(phs[t.n], Once(rest, phs, n));
        NoWordAtTag(w, Render(phs[t.n]) + Render(Once(rest, phs, n)));
      } else {
        RenderCons(t, Once(rest, phs, n));
        if t.Key? {
          KeySpelled(t.n);
          BeginsKey(w, t.n, Render(rest), Render(Once(rest, phs, n)));
        }
      }
    }
  }

  lemma NextKeyIs(ts: Tokens, n: nat)
    requires ts != []
    ensures NextKeyFrom(ts, n) <==> if ts[0].Key? then ts[0].n >= n else NextKeyFrom(ts[1..], n)
  {
  }

  lemma NoWordAtTag(w: string, s: string)
    requires Word(w) && s != "" && s[0] == '<'
    ensures !(w <= s)
  {
    assert w[0] in w;
  }

  /** A word that ends with NUL lies in text without NUL as far as that text goes. */
  lemma WordBehind(w: string, x: string, a: string)
    requires Word(w) && NulFree(x)
    ensures w <= x + a <==> x <= w && w[|x|..] <= a
    ensures x <= w ==> Word(w[|x|..])
  {
    if x <= w {
      WordRest(w, x);
      assert w == x + w[|x|..];
      if w[|x|..] <= a { SameFront(x, w[|x|..], a); }
    }
    if w <= x + a {
      PrefixAt(w, x + a, |w| - 1);
      InText(w, x);
      assert x == (x + a)[..|x|] && (x + a)[|x|..] == a;
    }
  }

  lemma SameFront(x: string, v: string, a: string)
    requires v <= a
    ensures x + v <= x + a
  {
  }

  lemma PrefixAt(w: string, s: string, i: nat)
    requires w <= s && i < |w|
    ensures w[i] == s[i]
  {
  }

  /** Text without NUL is shorter than any word it holds the beginning of. */
  lemma InText(w: string, x: string)
    requires Word(w) && NulFree(x)
    ensures |w| <= |x| ==> w[|w| - 1] != x[|w| - 1]
  {
    if |w| <= |x| { assert x[|w| - 1] in x; }
  }

  lemma WordRest(w: string, x: string)
    requires Word(w) && NulFree(x) && x <= w
    ensures Word(w[|x|..])
  {
    InText(w, x);
    var v, init := w[|x|..], w[..|w| - 1];
    assert forall c :: c in v ==> c in w;
    assert v[..|v| - 1] == init[|x|..];
    assert forall c :: c in init[|x|..] ==> c in init;
  }

  /** A key's opening NUL is as far as a word can go. */
  lemma BeginsKey(w: string, m: nat, a: string, b: string)
    requires Word(w)
    ensures w <= KeyText(m) + a <==> w <= KeyText(m) + b
  {
    hide KeyBody;
    assert KeyText(m)[0] == '\0';
    if |w| > 1 { assert w[0] == w[..|w| - 1][0] && w[..|w| - 1][0] in w[..|w| - 1]; }
  }

  /** Html that ends with a tag, in front of other text: the search is led astray by the one or
      the other. */
  lemma {:induction false} FoundConcat(html: Tokens, rest: Tokens, n: nat)
    requires Count(html, n) == 0
    requires html != [] ==> html[|html| - 1].Close? || html[|html| - 1].LinkClose?
    ensures FoundInText(html + rest, n) <==> FoundInText(html, n) || FoundInText(rest, n)
  {
    if html == [] {
      assert html + rest == rest;
    } else {
      assert html[0] != Key(n) && Count(html[1..], n) == 0;
      assert |html| == 1 ==> !html[0].Key?;
      hide *;
      FoundConcat(html[1..], rest, n);
      FoundCons(html[0], html[1..], rest, n);
      assert html == [html[0]] + html[1..];
    }
  }

  lemma FoundCons(t: Token, h: Tokens, rest: Tokens, n: nat)
    requires t != Key(n) && (h == [] ==> !t.Key?) && (h != [] ==> h[|h| - 1].Close? || h[|h| - 1].LinkClose?)
    requires FoundInText(h + rest, n) <==> FoundInText(h, n) || FoundInText(rest, n)
    ensures FoundInText([t] + h + rest, n) <==> FoundInText([t] + h, n) || FoundInText(rest, n)
  {
    hide *;
    assert [t] + h + rest == [t] + (h + rest);
    assert ([t] + h)[1..] == h && ([t] + (h + rest))[1..] == h + rest;
    FoundIs([t] + h, n);
    FoundIs([t] + (h + rest), n);
    if t.Key? { GoesOnConcat(h, rest, n); }
  }

  lemma GoesOnConcat(h: Tokens, rest: Tokens, n: nat)
    requires h != [] && (h[|h| - 1].Close? || h[|h| - 1].LinkClose?)
    ensures GoesOn(h + rest, n) <==> GoesOn(h, n)
  {
    hide *;
    RenderConcat(h, rest);
    EndsWithTag(h);
    KeyNoBracket(n);
    BeforeBracket(KeyBody(n) + "\0", Render(h), Render(rest));
    GoesOnIs(h, n);
    GoesOnIs(h + rest, n);
  }

  lemma GoesOnIs(ts: Tokens, n: nat)
    ensures GoesOn(ts, n) <==> KeyBody(n) + "\0" <= Render(ts)
  {
    hide KeyBody, Render;
  }

  lemma KeyNoBracket(n: nat)
    ensures '>' !in KeyBody(n) + "\0"
  {
    KeyBodyPlain(n);
    hide KeyBody;
  }

  /** A beginning without a closing bracket ends before one. */
  lemma BeforeBracket(w: string, x: string, y: string)
    requires '>' !in w && x != "" && x[|x| - 1] == '>'
    ensures w <= x + y <==> w <= x
  {
    if w <= x + y && |x| <= |w| { EndsInside(w, x, y); }
  }

  lemma EndsInside(w: string, x: string, y: string)
    requires x != "" && |x| <= |w| && w <= x + y
    ensures x[|x| - 1] in w
  {
    assert w[|x| - 1] == x[|x| - 1];
  }

  /** In a layer with the keys below `n` expanded, the search for key `n` is led astray exactly
      if the layer says so. */
  lemma {:induction false} FoundIsStrays(ts: Tokens, phs: seq<Tokens>, n: nat)
    requires n < |phs| && Lower(phs) && AllTagged(phs) && Clean(ts)
    ensures FoundInText(Once(ts, phs, n), n) <==> Strays(ts, phs, n)
  {
    if ts == [] {
      assert Once(ts, phs, n) == [];
    } else {
      var t, rest := ts[0], ts[1..];
      CleanTail(ts);
      FoundIsStrays(rest, phs, n);
      assert ts == [t] + rest;
      if t.Key? && t.n < n { assert KeysBelow(phs[t.n], t.n); }
      hide *;
      StraysIs(ts, phs, n);
      OnceCons(t, rest, phs, n);
      var more := Once(rest, phs, n);
      if t.Key? && t.n < n {
        TaggedAt(phs, t.n);
        TaggedEnd(phs[t.n]);
        FoundConcat(phs[t.n], more, n);
      } else {
        assert ([t] + more)[1..] == more && ([t] + more)[0] == t;
        FoundIs([t] + more, n);
        GoesOnOnce(rest, phs, n);
      }
    }
  }

  lemma StraysIs(ts: Tokens, phs: seq<Tokens>, n: nat)
    requires ts != [] && n < |phs|
    ensures Strays(ts, phs, n)
        <==> (&& ts[0] != Key(n)
              && (|| (ts[0].Key? && ts[0].n > n && GoesOn(ts[1..], n) && NextKeyFrom(ts[1..], n))
                  || (ts[0].Key? && ts[0].n < n && FoundInText(phs[ts[0].n], n))
                  || Strays(ts[1..], phs, n)))
  {
    hide GoesOn, FoundInText, NextKeyFrom;
  }

  lemma TaggedEnd(html: Tokens)
    requires Tagged(html)
    ensures html != [] && (html[|html| - 1].Close? || html[|html| - 1].LinkClose?)
  {
  }

  // ----- all sweeps

  lemma {:induction false} LayerClean(st: State, depth: nat)
    requires Clean(st.s) && AllTagged(st.phs) && Sound(st)
    ensures Clean(Layer(st.s, st.phs, depth))
  {
    SweepsAreLayers(st, depth);
    SweepsClean(st.s, st.phs, depth);
    hide *;
  }

  /** A search of a sweep goes astray for one of the keys below `k`. */
  ghost predicate StraysBelow(ts: Tokens, phs: seq<Tokens>, k: nat)
    requires k <= |phs|
  {
    exists n: nat :: n < k && Strays(ts, phs, n)
  }

  lemma {:induction false} SlipsIsStrays(ts: Tokens, phs: seq<Tokens>, k: nat)
    requires k <= |phs| && Lower(phs) && AllTagged(phs) && Clean(ts) && Single(ts)
    ensures Slips(ts, phs, k) <==> StraysBelow(ts, phs, k)
  {
    hide AllTagged, Clean, Single, Strays, FoundInText, Sweep;
    if k > 0 {
      SlipsIsStrays(ts, phs, k - 1);
      SweepIsOnce(ts, phs, k - 1);
      FoundIsStrays(ts, phs, k - 1);
    }
  }

  /** In one of the first layers the search for some key goes astray. */
  ghost predicate Misled(st: State, rounds: nat) {
    exists d: nat :: d < rounds && StraysBelow(Layer(st.s, st.phs, d), st.phs, |st.phs|)
  }

  /** Some sweep is led astray exactly if some layer says so. */
  lemma {:induction false} SlipsInIsMisled(st: State, rounds: nat)
    requires Sound(st) && Clean(st.s) && AllTagged(st.phs)
    ensures SlipsIn(st.s, st.phs, rounds) <==> Misled(st, rounds)
  {
    hide AllTagged, Clean, StraysBelow, Sweeps, Layer, Lower, OnceEach, Slips, Single;
    if rounds > 0 {
      SlipsInIsMisled(st, rounds - 1);
      SweepsAreLayers(st, rounds - 1);
      SweepsSingle(st, rounds - 1);
      LayerClean(st, rounds - 1);
      SlipsIsStrays(Layer(st.s, st.phs, rounds - 1), st.phs, |st.phs|);
    }
  }
}
