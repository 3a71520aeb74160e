/** Restoring placeholders: repeated sweeps that each replace the first occurrence of every key
    reach the full recursive expansion (core/markdown_html.go, convertInlineHTML, step 8). */
module InlineRestore {
  import opened InlineTokens
  import opened InlineHtml
  import opened InlineHtmlProperties

  function ReplaceFirst(ts: Tokens, n: nat, html: Tokens): Tokens {
    if ts == [] then []
    else if ts[0] == Key(n) then html + ts[1..]
    else [ts[0]] + ReplaceFirst(ts[1..], n, html)
  }

  /** The text after the first `k` placeholders of a sweep. */
  function Sweep(ts: Tokens, phs: seq<Tokens>, k: nat): Tokens
    requires k <= |phs|
  {
    if k == 0 then ts else ReplaceFirst(Sweep(ts, phs, k - 1), k - 1, phs[k - 1])
  }

  function Sweeps(ts: Tokens, phs: seq<Tokens>, rounds: nat): Tokens {
    if rounds == 0 then ts else Sweep(Sweeps(ts, phs, rounds - 1), phs, |phs|)
  }

  /** The text with every key below `b` expanded, and the keys in its html in turn. */
  function Full(ts: Tokens, phs: seq<Tokens>, b: nat): Tokens
    requires b <= |phs|
    decreases b, |ts|
  {
    if ts == [] then []
    else (if ts[0].Key? && ts[0].n < b then Full(phs[ts[0].n], phs, ts[0].n) else [ts[0]]) + Full(ts[1..], phs, b)
  }

  // ----- counting through a sweep

  lemma {:induction false} ReplaceCount(ts: Tokens, n: nat, html: Tokens, x: nat)
    ensures Count(ReplaceFirst(ts, n, html), x)
         == if Count(ts, n) == 0 then Count(ts, x) else Count(ts, x) - (if x == n then 1 else 0) + Count(html, x)
    ensures Count(ts, n) == 0 ==> ReplaceFirst(ts, n, html) == ts
  {
    if ts != [] {
      ReplaceCount(ts[1..], n, html, x);
      if ts[0] == Key(n) {
        CountConcat(html, ts[1..], x);
      } else {
        assert ([ts[0]] + ReplaceFirst(ts[1..], n, html))[1..] == ReplaceFirst(ts[1..], n, html);
      }
    }
  }

  /** `left` is the html that can still come into the text: html already used is blanked, and
      its key is gone for good. */
  ghost predicate Pending(ts: Tokens, phs: seq<Tokens>, left: seq<Tokens>) {
    && |left| == |phs|
    && (forall n: nat :: Count(ts, n) + CountAll(left, n) <= if n < |phs| then 1 else 0)
    && (forall k :: 0 <= k < |phs| ==> left[k] == phs[k] || Count(ts, k) + CountAll(left, k) == 0)
  }

  /** Replacing one key uses up its html. */
  lemma ReplacePending(ts: Tokens, phs: seq<Tokens>, left: seq<Tokens>, n: nat) returns (left': seq<Tokens>)
    requires n < |phs| && Pending(ts, phs, left)
    ensures Pending(ReplaceFirst(ts, n, phs[n]), phs, left')
  {
    left' := if Count(ts, n) == 0 then left else left[n := []];
    var after := ReplaceFirst(ts, n, phs[n]);
    hide Count, CountAll, ReplaceFirst;
    forall x: nat
      ensures Count(after, x) + CountAll(left', x)
           == Count(ts, x) + CountAll(left, x) - if x == n && Count(ts, n) != 0 then 1 else 0
    {
      ReplaceCount(ts, n, phs[n], x);
      CountAllCleared(left, n, x);
    }
  }

  /** A sweep lowers the highest key. */
  lemma {:induction false} SweepLowers(ts: Tokens, phs: seq<Tokens>, left: seq<Tokens>, m: nat,
      k: nat) returns (left': seq<Tokens>)
    requires k <= |phs| && m < |phs| && Lower(phs) && Pending(ts, phs, left) && KeysBelow(ts, m + 1)
    ensures Pending(Sweep(ts, phs, k), phs, left')
    ensures KeysBelow(Sweep(ts, phs, k), if k > m then m else m + 1)
  {
    if k == 0 {
      left' := left;
    } else {
      var before := SweepLowers(ts, phs, left, m, k - 1);
      var t := Sweep(ts, phs, k - 1);
      left' := ReplacePending(t, phs, before, k - 1);
      hide Count, CountAll, ReplaceFirst;
      forall x: nat | x >= (if k > m then m else m + 1)
        ensures Count(Sweep(ts, phs, k), x) == 0
      {
        ReplaceCount(t, k - 1, phs[k - 1], x);
        hide Pending;
        assert KeysBelow(phs[k - 1], k - 1);
        PendingOnce(t, phs, before, x);
      }
    }
  }

  lemma PendingOnce(ts: Tokens, phs: seq<Tokens>, left: seq<Tokens>, x: nat)
    requires Pending(ts, phs, left)
    ensures Count(ts, x) + CountAll(left, x) <= 1
  {
    hide Count, CountAll;
  }

  /** Without keys a sweep does nothing. */
  lemma {:induction false} SweepNothing(ts: Tokens, phs: seq<Tokens>, k: nat)
    requires k <= |phs| && KeysBelow(ts, 0)
    ensures Sweep(ts, phs, k) == ts
  {
    if k > 0 {
      SweepNothing(ts, phs, k - 1);
      ReplaceCount(ts, k - 1, phs[k - 1], 0);
    }
  }

  /** After `rounds` sweeps the highest key has fallen by as many. */
  lemma {:induction false} SweepsLower(ts: Tokens, phs: seq<Tokens>, rounds: nat) returns (left: seq<Tokens>)
    requires Lower(phs) && Pending(ts, phs, phs)
    ensures Pending(Sweeps(ts, phs, rounds), phs, left)
    ensures KeysBelow(Sweeps(ts, phs, rounds), if rounds <= |phs| then |phs| - rounds else 0)
  {
    if rounds == 0 {
      left := phs;
    } else {
      var before := SweepsLower(ts, phs, rounds - 1);
      var t := Sweeps(ts, phs, rounds - 1);
      hide Count, CountAll, Sweep;
      if rounds <= |phs| {
        left := SweepLowers(t, phs, before, |phs| - rounds, |phs|);
      } else {
        left := before;
        SweepNothing(t, phs, |phs|);
      }
    }
  }

  // ----- the expansion

  lemma {:induction false} FullConcat(a: Tokens, c: Tokens, phs: seq<Tokens>, b: nat)
    requires b <= |phs|
    ensures Full(a + c, phs, b) == Full(a, phs, b) + Full(c, phs, b)
    decreases |a|
  {
    if a == [] {
      assert a + c == c;
    } else {
      assert (a + c)[1..] == a[1..] + c;
      FullConcat(a[1..], c, phs, b);
    }
  }

  lemma KeysBelowTail(ts: Tokens, b: int)
    requires ts != [] && KeysBelow(ts, b)
    ensures KeysBelow(ts[1..], b) && (ts[0].Key? ==> ts[0].n < b)
  {
    forall n: nat | n >= b
      ensures Count(ts[1..], n) == 0 && ts[0] != Key(n)
    {
      assert Count(ts, n) == 0;
    }
  }

  /** A bound above all keys may be raised. */
  lemma {:induction false} FullBound(ts: Tokens, phs: seq<Tokens>, b: nat, b': nat)
    requires b <= b' <= |phs| && KeysBelow(ts, b)
    ensures Full(ts, phs, b) == Full(ts, phs, b')
    decreases |ts|
  {
    if ts != [] {
      KeysBelowTail(ts, b);
      FullBound(ts[1..], phs, b, b');
    }
  }

  /** Replacing a key by its html does not change the expansion. */
  lemma {:induction false} ReplaceFull(ts: Tokens, phs: seq<Tokens>, n: nat)
    requires n < |phs| && KeysBelow(phs[n], n)
    ensures Full(ReplaceFirst(ts, n, phs[n]), phs, |phs|) == Full(ts, phs, |phs|)
    decreases |ts|
  {
    var b := |phs|;
    if ts != [] {
      if ts[0] == Key(n) {
        FullConcat(phs[n], ts[1..], phs, b);
        FullBound(phs[n], phs, n, b);
      } else {
        ReplaceFull(ts[1..], phs, n);
        assert ([ts[0]] + ReplaceFirst(ts[1..], n, phs[n]))[1..] == ReplaceFirst(ts[1..], n, phs[n]);
      }
    }
  }

  lemma {:induction false} SweepFull(ts: Tokens, phs: seq<Tokens>, k: nat)
    requires k <= |phs| && Lower(phs)
    ensures Full(Sweep(ts, phs, k), phs, |phs|) == Full(ts, phs, |phs|)
  {
    if k > 0 {
      SweepFull(ts, phs, k - 1);
      ReplaceFull(Sweep(ts, phs, k - 1), phs, k - 1);
      hide Full, ReplaceFirst;
    }
  }

  lemma {:induction false} SweepsFull(ts: Tokens, phs: seq<Tokens>, rounds: nat)
    requires Lower(phs)
    ensures Full(Sweeps(ts, phs, rounds), phs, |phs|) == Full(ts, phs, |phs|)
  {
    if rounds > 0 {
      SweepsFull(ts, phs, rounds - 1);
      SweepFull(Sweeps(ts, phs, rounds - 1), phs, |phs|);
      hide Full, Sweep;
    }
  }

  lemma {:induction false} FullNoKeys(ts: Tokens, phs: seq<Tokens>, b: nat)
    requires b <= |phs| && KeysBelow(ts, 0)
    ensures Full(ts, phs, b) == ts
    decreases |ts|
  {
    if ts != [] {
      KeysBelowTail(ts, 0);
      FullNoKeys(ts[1..], phs, b);
      assert [ts[0]] + ts[1..] == ts;
    }
  }

  lemma KeysGone(ts: Tokens)
    requires KeysBelow(ts, 0)
    ensures NoKeys(ts)
    decreases |ts|
  {
    if ts != [] {
      KeysBelowTail(ts, 0);
      KeysGone(ts[1..]);
      assert forall i :: 0 < i < |ts| ==> ts[i] == ts[1..][i - 1];
    }
  }

  /** As many sweeps as there are placeholders reach the full expansion, in which no key is
      left; one more changes nothing. */
  lemma SweepsReachAll(st: State, rounds: nat)
    requires Sound(st) && rounds >= |st.phs|
    ensures Sweeps(st.s, st.phs, rounds) == Full(st.s, st.phs, |st.phs|)
    ensures NoKeys(Full(st.s, st.phs, |st.phs|))
  {
    var phs := st.phs;
    hide Count, CountAll, Full, Sweeps;
    assert forall n: nat :: Total(st, n) == Count(st.s, n) + CountAll(phs, n);
    assert Pending(st.s, phs, phs);
    var left := SweepsLower(st.s, phs, rounds);
    var t := Sweeps(st.s, phs, rounds);
    SweepsFull(st.s, phs, rounds);
    FullNoKeys(t, phs, |phs|);
    KeysGone(t);
  }
}
