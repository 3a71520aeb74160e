/** The text of the inline renderer as tokens: runes, placeholder keys and tags
    (core/markdown_html.go, convertInlineHTML). A rune remembers how often it has been escaped,
    and a key is a number, so that the passes can be described without spelling either; module
    InlineText says how tokens are spelled. Three things are defined on tokens here: how often
    a key occurs, whether every rune was escaped a given number of times, and whether the tags
    nest, by an automaton over the stack of open tags in which a key counts as tagged text. */
module InlineTokens {

  datatype Tag = Code | Bold | Italic | Strike

  /** A rune of the input with the number of times it has been escaped, a placeholder key, a
      tag, or one of the three pieces of a link around its address and its text. */
  datatype Token =
    | Text(c: char, escapes: nat)
    | Key(n: nat)
    | Open(tag: Tag)
    | Close(tag: Tag)
    | LinkOpen
    | LinkMid
    | LinkClose

  type Tokens = seq<Token>

  /** How often key `n` occurs. */
  function Count(ts: Tokens, n: nat): nat {
    if ts == [] then 0 else (if ts[0] == Key(n) then 1 else 0) + Count(ts[1..], n)
  }

  function CountAll(phs: seq<Tokens>, n: nat): nat {
    if phs == [] then 0 else Count(phs[0], n) + CountAll(phs[1..], n)
  }

  /** Every key is below `b`. */
  ghost predicate KeysBelow(ts: Tokens, b: int) {
    forall n: nat :: n >= b ==> Count(ts, n) == 0
  }

  lemma {:induction false} CountConcat(a: Tokens, b: Tokens, n: nat)
    ensures Count(a + b, n) == Count(a, n) + Count(b, n)
  {
    if a == [] {
      assert a + b == b;
    } else {
      assert (a + b)[1..] == a[1..] + b;
      CountConcat(a[1..], b, n);
    }
  }

  lemma CountSlice(ts: Tokens, lo: nat, mid: nat, hi: nat, n: nat)
    requires lo <= mid <= hi <= |ts|
    ensures Count(ts[lo..hi], n) == Count(ts[lo..mid], n) + Count(ts[mid..hi], n)
  {
    assert ts[lo..hi] == ts[lo..mid] + ts[mid..hi];
    CountConcat(ts[lo..mid], ts[mid..hi], n);
  }

  lemma {:induction false} CountAllConcat(a: seq<Tokens>, b: seq<Tokens>, n: nat)
    ensures CountAll(a + b, n) == CountAll(a, n) + CountAll(b, n)
  {
    if a == [] {
      assert a + b == b;
    } else {
      assert (a + b)[1..] == a[1..] + b;
      CountAllConcat(a[1..], b, n);
    }
  }

  /** Taking the tokens of one entry out of the list. */
  lemma {:induction false} CountAllCleared(phs: seq<Tokens>, k: nat, n: nat)
    requires k < |phs|
    ensures CountAll(phs, n) == Count(phs[k], n) + CountAll(phs[k := []], n)
  {
    if k == 0 {
      assert phs[0 := []][1..] == phs[1..];
    } else {
      assert phs[k := []][1..] == phs[1..][k - 1 := []];
      CountAllCleared(phs[1..], k - 1, n);
    }
  }

  // ----- escaping

  /** One more round of escaping for every rune. */
  function Escaped(ts: Tokens): Tokens {
    if ts == [] then []
    else [if ts[0].Text? then ts[0].(escapes := ts[0].escapes + 1) else ts[0]] + Escaped(ts[1..])
  }

  lemma {:induction false} EscapedCount(ts: Tokens, n: nat)
    ensures Count(Escaped(ts), n) == Count(ts, n) && |Escaped(ts)| == |ts|
  {
    if ts != [] { EscapedCount(ts[1..], n); }
  }

  /** Every rune has been escaped exactly `e` times. */
  ghost predicate EscapedTimes(ts: Tokens, e: nat) {
    forall i :: 0 <= i < |ts| && ts[i].Text? ==> ts[i].escapes == e
  }

  lemma {:induction false} EscapedOnceMore(ts: Tokens, e: nat)
    requires EscapedTimes(ts, e)
    ensures EscapedTimes(Escaped(ts), e + 1)
  {
    if ts != [] {
      assert forall i :: 0 <= i < |ts| - 1 ==> ts[1..][i] == ts[i + 1];
      EscapedOnceMore(ts[1..], e);
    }
  }

  lemma EscapedTimesConcat(a: Tokens, b: Tokens, e: nat)
    ensures EscapedTimes(a + b, e) <==> EscapedTimes(a, e) && EscapedTimes(b, e)
  {
    if EscapedTimes(a + b, e) {
      assert forall i :: 0 <= i < |a| ==> a[i] == (a + b)[i];
      assert forall i :: 0 <= i < |b| ==> b[i] == (a + b)[|a| + i];
    }
  }

  lemma EscapedTimesSlice(ts: Tokens, lo: nat, hi: nat, e: nat)
    requires lo <= hi <= |ts| && EscapedTimes(ts, e)
    ensures EscapedTimes(ts[lo..hi], e)
  {
  }

  // ----- nesting

  /** What a tag was opened inside of. */
  datatype Frame = InTag(tag: Tag) | InAddress | InLink

  datatype Nesting = Fail | Stack(open: seq<Frame>)

  /** Text may stand anywhere; tags and keys, which stand for tagged text, not in an address. */
  function Next(st: Nesting, t: Token): Nesting {
    if st.Fail? || t.Text? then st
    else
      var open := st.open;
      var top := |open| - 1;
      if t.LinkMid? then (if open != [] && open[top] == InAddress then Stack(open[..top] + [InLink]) else Fail)
      else if open != [] && open[top] == InAddress then Fail
      else
        match t
        case Key(_) => st
        case Open(tag) => Stack(open + [InTag(tag)])
        case Close(tag) => if open != [] && open[top] == InTag(tag) then Stack(open[..top]) else Fail
        case LinkOpen => Stack(open + [InAddress])
        case LinkClose => if open != [] && open[top] == InLink then Stack(open[..top]) else Fail
        case _ => st
  }

  function Run(st: Nesting, ts: Tokens): Nesting
    decreases |ts|
  {
    if ts == [] then st else Run(Next(st, ts[0]), ts[1..])
  }

  /** Every tag opened is closed, innermost first, and no tag stands inside an address. */
  predicate Nested(ts: Tokens) {
    Run(Stack([]), ts) == Stack([])
  }

  lemma {:induction false} RunConcat(st: Nesting, a: Tokens, b: Tokens)
    ensures Run(st, a + b) == Run(Run(st, a), b)
    decreases |a|
  {
    if a == [] {
      assert a + b == b;
    } else {
      assert (a + b)[1..] == a[1..] + b;
      RunConcat(Next(st, a[0]), a[1..], b);
    }
  }

  lemma {:induction false} RunFail(ts: Tokens)
    ensures Run(Fail, ts) == Fail
  {
    if ts != [] { RunFail(ts[1..]); }
  }

  /** Only runes and keys. */
  ghost predicate Flat(ts: Tokens) {
    forall i :: 0 <= i < |ts| ==> ts[i].Text? || ts[i].Key?
  }

  ghost predicate NoKeys(ts: Tokens) {
    forall i :: 0 <= i < |ts| ==> !ts[i].Key?
  }

  /** Runes and keys open and close nothing, and inside an address only runes may stand. */
  lemma {:induction false} RunFlat(open: seq<Frame>, ts: Tokens)
    requires Flat(ts)
    decreases |ts|
    ensures Run(Stack(open), ts)
         == if open != [] && open[|open| - 1] == InAddress && !NoKeys(ts) then Fail else Stack(open)
  {
    if ts != [] {
      assert forall i :: 0 <= i < |ts| - 1 ==> ts[1..][i] == ts[i + 1];
      RunFlat(open, ts[1..]);
      RunFail(ts[1..]);
      assert NoKeys(ts) <==> !ts[0].Key? && NoKeys(ts[1..]) by {
        assert forall i :: 0 < i < |ts| ==> ts[i] == ts[1..][i - 1];
      }
    }
  }
}
