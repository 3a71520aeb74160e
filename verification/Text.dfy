/** The string operations of the Go standard library that the modelled code relies on, over
    sequences of runes: white-space trimming, splitting and joining lines. Strings are taken as
    valid Unicode, one element per rune; where the program indexes bytes, it looks only at
    ASCII runes, whose place among the runes decides the same branches. Trimming is shown to
    cut white space off both ends and nothing else, and to be undone by nothing but padding;
    splitting at line feeds and joining with them are shown to be inverse to each other, in
    both directions, which the splitter and the configuration editor both rely on. */
module Text {

  datatype Option<+T> = None | Some(value: T)

  /** Go's `unicode.IsSpace`, the class `strings.TrimSpace` removes. */
  predicate IsSpace(c: char) {
    || c in " \t\n\r"
    || c in ['\U{0B}', '\U{0C}', '\U{85}', '\U{A0}', '\U{1680}', '\U{2028}', '\U{2029}', '\U{202F}', '\U{205F}', '\U{3000}']
    || '\U{2000}' <= c <= '\U{200A}'
  }

  function TrimLeft(s: string): string {
    if s != "" && IsSpace(s[0]) then TrimLeft(s[1..]) else s
  }

  function TrimRight(s: string): string {
    if s != "" && IsSpace(s[|s| - 1]) then TrimRight(s[..|s| - 1]) else s
  }

  function TrimSpace(s: string): string {
    TrimRight(TrimLeft(s))
  }

  ghost predicate AllSpace(s: string) {
    forall i :: 0 <= i < |s| ==> IsSpace(s[i])
  }

  /** Neither end is white space, so trimming has nothing to do. */
  ghost predicate Trimmed(s: string) {
    s != "" ==> !IsSpace(s[0]) && !IsSpace(s[|s| - 1])
  }

  predicate OccursAt(s: string, t: string, k: nat) {
    k + |t| <= |s| && s[k..k + |t|] == t
  }

  /** `t` occurs somewhere in `s`. */
  ghost predicate Contains(s: string, t: string) {
    exists k: nat :: OccursAt(s, t, k)
  }

  lemma ContainsSlice(s: string, t: string, a: nat, b: nat)
    requires a <= b <= |s| && Contains(s[a..b], t)
    ensures Contains(s, t)
  {
    var k: nat :| OccursAt(s[a..b], t, k);
    assert forall i :: 0 <= i < |t| ==> t[i] == s[a..b][k..k + |t|][i] == s[a..b][k + i] == s[a + k + i];
    assert s[a + k..a + k + |t|] == t;
    assert OccursAt(s, t, a + k);
  }

  /** Trimming cuts white space off both ends and nothing else. */
  lemma TrimSpaceSlice(s: string) returns (a: nat, b: nat)
    ensures a <= b <= |s| && TrimSpace(s) == s[a..b]
    ensures AllSpace(s[..a]) && AllSpace(s[b..]) && Trimmed(s[a..b])
  {
    a := TrimLeftSlice(s);
    var n := TrimRightSlice(s[a..]);
    b := a + n;
    assert s[a..][..n] == s[a..b];
    assert s[a..][n..] == s[b..];
    if n > 0 { assert s[a..b][0] == s[a..][0]; }
  }

  lemma {:induction false} TrimLeftSlice(s: string) returns (a: nat)
    ensures a <= |s| && TrimLeft(s) == s[a..] && AllSpace(s[..a])
    ensures a < |s| ==> !IsSpace(s[a])
  {
    if s != "" && IsSpace(s[0]) {
      var a' := TrimLeftSlice(s[1..]);
      a := a' + 1;
      assert s[1..][a'..] == s[a..];
      assert forall i :: 1 <= i < a ==> s[..a][i] == s[1..][..a'][i - 1];
    } else {
      a := 0;
    }
  }

  lemma {:induction false} TrimRightSlice(s: string) returns (b: nat)
    ensures b <= |s| && TrimRight(s) == s[..b] && AllSpace(s[b..])
    ensures b > 0 ==> !IsSpace(s[b - 1])
  {
    if s != "" && IsSpace(s[|s| - 1]) {
      b := TrimRightSlice(s[..|s| - 1]);
      hide *;
      OneMoreSpace(s, b);
      TrimRightIs(s);
    } else {
      b := |s|;
      assert s[..b] == s;
    }
  }

  lemma TrimRightIs(s: string)
    requires s != "" && IsSpace(s[|s| - 1])
    ensures TrimRight(s) == TrimRight(s[..|s| - 1])
  {
    hide IsSpace;
  }

  /** The white space at the end begins one character further back. */
  lemma OneMoreSpace(s: string, b: nat)
    requires s != "" && IsSpace(s[|s| - 1]) && b < |s| && AllSpace(s[..|s| - 1][b..])
    ensures s[..|s| - 1][..b] == s[..b] && AllSpace(s[b..])
  {
    hide IsSpace;
    var init := s[..|s| - 1];
    assert s[b..] == init[b..] + [s[|s| - 1]];
  }

  /** Padding a trimmed, non-empty string with white space is undone by trimming. */
  lemma TrimSpacePadded(pre: string, s: string, post: string)
    requires AllSpace(pre) && AllSpace(post) && s != "" && Trimmed(s)
    ensures TrimSpace(pre + s + post) == s
  {
    TrimLeftPadded(pre, s + post);
    assert pre + s + post == pre + (s + post);
    TrimRightPadded(s, post);
  }

  lemma {:induction false} TrimLeftPadded(pre: string, s: string)
    requires AllSpace(pre) && s != "" && !IsSpace(s[0])
    ensures TrimLeft(pre + s) == s
  {
    if pre == "" {
      assert pre + s == s;
    } else {
      assert (pre + s)[1..] == pre[1..] + s;
      TrimLeftPadded(pre[1..], s);
    }
  }

  lemma {:induction false} TrimRightPadded(s: string, post: string)
    requires AllSpace(post) && s != "" && !IsSpace(s[|s| - 1])
    ensures TrimRight(s + post) == s
  {
    if post == "" {
      assert s + post == s;
    } else {
      assert (s + post)[..|s + post| - 1] == s + post[..|post| - 1];
      TrimRightPadded(s, post[..|post| - 1]);
    }
  }

  lemma {:induction false} TrimRightHead(s: string)
    requires s != "" && !IsSpace(s[0])
    ensures TrimRight(s) != "" && TrimRight(s)[0] == s[0]
  {
    if IsSpace(s[|s| - 1]) { TrimRightHead(s[..|s| - 1]); }
  }

  /** Trimming a string that begins with a visible rune keeps that rune first. */
  lemma TrimHead(s: string)
    requires s != "" && !IsSpace(s[0])
    ensures TrimSpace(s) != "" && TrimSpace(s)[0] == s[0] && TrimSpace(s) == TrimRight(s)
  {
    TrimRightHead(s);
  }

  lemma TrimSpaceBlank(s: string)
    ensures TrimSpace(s) == "" <==> AllSpace(s)
  {
    var a, b := TrimSpaceSlice(s);
    if a < b {
      assert s[a..b][0] == s[a];
    } else {
      assert s == s[..a] + s[b..];
    }
  }

  lemma TrimSpaceTrimmed(s: string)
    requires Trimmed(s)
    ensures TrimSpace(s) == s
  {
    if s != "" {
      TrimSpacePadded("", s, "");
      assert "" + s + "" == s;
    }
  }

  function Join(ss: seq<string>): string {
    if ss == [] then "" else if |ss| == 1 then ss[0] else ss[0] + "\n" + Join(ss[1..])
  }

  function SplitLines(s: string): (r: seq<string>)
    ensures r != []
  {
    if s == "" then [""]
    else if s[0] == '\n' then [""] + SplitLines(s[1..])
    else
      var r := SplitLines(s[1..]);
      [[s[0]] + r[0]] + r[1..]
  }

  ghost predicate OneLine(s: string) {
    '\n' !in s
  }

  ghost predicate AllOneLine(ss: seq<string>) {
    forall i :: 0 <= i < |ss| ==> OneLine(ss[i])
  }

  /** Splitting at line feeds is the inverse of joining with them. */
  lemma {:induction false} SplitThenJoin(s: string)
    ensures AllOneLine(SplitLines(s)) && Join(SplitLines(s)) == s
  {
    if s != "" {
      SplitThenJoin(s[1..]);
      SplitFirst(s);
      var r := SplitLines(s[1..]);
      hide *;
      assert s == [s[0]] + s[1..];
      if s[0] == '\n' { NewLine(r); } else { LongerLine(s[0], r); }
    }
  }

  lemma SplitFirst(s: string)
    requires s != ""
    ensures var r := SplitLines(s[1..]);
      r != [] && SplitLines(s) == if s[0] == '\n' then [""] + r else [[s[0]] + r[0]] + r[1..]
  {
  }

  lemma NewLine(r: seq<string>)
    requires r != [] && AllOneLine(r)
    ensures AllOneLine([""] + r) && Join([""] + r) == "\n" + Join(r)
  {
    assert ([""] + r)[1..] == r;
  }

  lemma LongerLine(c: char, r: seq<string>)
    requires r != [] && AllOneLine(r) && c != '\n'
    ensures AllOneLine([[c] + r[0]] + r[1..]) && Join([[c] + r[0]] + r[1..]) == [c] + Join(r)
  {
    var h := [c] + r[0];
    assert ([h] + r[1..])[1..] == r[1..];
    if |r| > 1 { assert h + "\n" + Join(r[1..]) == [c] + (r[0] + "\n" + Join(r[1..])); }
  }

  lemma {:induction false} SplitOneLine(s: string)
    requires OneLine(s)
    ensures SplitLines(s) == [s]
  {
    if s != "" {
      assert s[1..] <= s[1..] && OneLine(s[1..]) by { assert forall c :: c in s[1..] ==> c in s; }
      SplitOneLine(s[1..]);
      assert [s[0]] + s[1..] == s;
    }
  }

  lemma {:induction false} SplitCons(a: string, rest: string)
    requires OneLine(a)
    ensures SplitLines(a + "\n" + rest) == [a] + SplitLines(rest)
  {
    var s := a + "\n" + rest;
    if a == "" {
      assert s[1..] == rest;
    } else {
      assert OneLine(a[1..]) by { assert forall c :: c in a[1..] ==> c in a; }
      SplitCons(a[1..], rest);
      assert s[1..] == a[1..] + "\n" + rest;
      assert [s[0]] + a[1..] == a;
    }
  }

  /** Joining one-line strings and splitting again gives the strings back. */
  lemma {:induction false} JoinThenSplit(ss: seq<string>)
    requires ss != [] && AllOneLine(ss)
    ensures SplitLines(Join(ss)) == ss
  {
    if |ss| == 1 {
      SplitOneLine(ss[0]);
      assert ss == [ss[0]];
    } else {
      JoinThenSplit(ss[1..]);
      SplitCons(ss[0], Join(ss[1..]));
      assert ss == [ss[0]] + ss[1..];
    }
  }

  /** Joining one more string appends it after one separator. */
  lemma {:induction false} JoinSnoc(ss: seq<string>, t: string)
    ensures Join(ss + [t]) == if ss == [] then t else Join(ss) + "\n" + t
  {
    if |ss| == 1 {
      assert (ss + [t])[1..] == [t];
    } else if |ss| > 1 {
      JoinSnoc(ss[1..], t);
      assert (ss + [t])[1..] == ss[1..] + [t];
      assert ss[0] + "\n" + (Join(ss[1..]) + "\n" + t) == (ss[0] + "\n" + Join(ss[1..])) + "\n" + t;
    }
  }
}
