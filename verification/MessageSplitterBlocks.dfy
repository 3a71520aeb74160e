/** What the chunks of a split text look like, read as messages: where code blocks are re-opened
    and closed, told by the backticks in the text (core/markdown_html.go,
    SplitMessageCodeFenceAware). */
module MessageSplitterBlocks {
  import opened Text
  import opened MessageSplitter
  import opened MessageSplitterProperties
  import opened MessageSplitterFences

  // ----- code blocks of the text

  /** After these lines a code block is open: they hold an odd number of fences. */
  ghost predicate Inside(lines: seq<string>) {
    FenceCount(lines) % 2 == 1
  }

  ghost predicate LastFence(lines: seq<string>, i: nat) {
    i < |lines| && Fence(lines[i]) && forall j :: i < j < |lines| ==> !Fence(lines[j])
  }

  /** `f` is the line without the white space at its ends. */
  ghost predicate CutTo(line: string, f: string) {
    exists a: nat, b: nat :: CutAt(line, f, a, b)
  }

  ghost predicate CutAt(line: string, f: string, a: nat, b: nat) {
    a <= b <= |line| && f == line[a..b] && AllSpace(line[..a]) && AllSpace(line[b..]) && Trimmed(f)
  }

  lemma TrimCuts(line: string)
    ensures CutTo(line, TrimSpace(line))
  {
    var a, b := TrimSpaceSlice(line);
    assert CutAt(line, TrimSpace(line), a, b);
  }

  lemma FenceNotEmpty(line: string)
    requires IsFence(line)
    ensures TrimSpace(line) != ""
  {
  }

  /** The fence kept open is the last one of an odd number, cut to what is visible of it. */
  lemma {:induction false} OpenAfterReads(lines: seq<string>) returns (i: nat)
    ensures OpenAfter(lines) != "" <==> Inside(lines)
    ensures Inside(lines) ==> i < |lines| && LastFence(lines, i) && CutTo(lines[i], OpenAfter(lines))
  {
    if lines == [] {
      i := 0;
    } else {
      var n := |lines| - 1;
      i := OpenAfterReads(lines[..n]);
      hide *;
      InsideStep(lines);
      OpenStep(lines);
      if IsFence(lines[n]) {
        i := n;
        TrimCuts(lines[n]);
        FenceNotEmpty(lines[n]);
        LastItself(lines);
      } else if Inside(lines) {
        LastStays(lines, i);
      }
    }
  }

  lemma InsideStep(lines: seq<string>)
    requires lines != []
    ensures Inside(lines) <==> (Inside(lines[..|lines| - 1]) != IsFence(lines[|lines| - 1]))
  {
    FenceIff(lines[|lines| - 1]);
    hide Fence, IsFence;
  }

  lemma OpenStep(lines: seq<string>)
    requires lines != []
    ensures var before, line := OpenAfter(lines[..|lines| - 1]), lines[|lines| - 1];
      OpenAfter(lines) == if !IsFence(line) then before else if before != "" then "" else TrimSpace(line)
  {
    hide IsFence, TrimSpace;
  }

  lemma LastItself(lines: seq<string>)
    requires lines != [] && IsFence(lines[|lines| - 1])
    ensures LastFence(lines, |lines| - 1)
  {
    FenceIff(lines[|lines| - 1]);
    hide Fence, IsFence;
  }

  lemma LastStays(lines: seq<string>, i: nat)
    requires lines != [] && !IsFence(lines[|lines| - 1]) && LastFence(lines[..|lines| - 1], i)
    ensures i < |lines| - 1 && LastFence(lines, i)
  {
    FenceIff(lines[|lines| - 1]);
    hide Fence, IsFence;
  }

  // ----- the lines in front of a chunk

  lemma {:induction false} RecoverGrows(ps: seq<Piece>, j: nat)
    requires j <= |ps|
    ensures Recover(ps[..j]).0 <= Recover(ps).0
  {
    if j == |ps| {
      assert ps[..j] == ps;
    } else {
      var n := |ps| - 1;
      assert ps[..n][..j] == ps[..j];
      RecoverGrows(ps[..n], j);
      assert Recover(ps[..n]).0 <= Recover(ps).0;
    }
  }

  lemma {:induction false} FlatGrows(cs: seq<Chunk>, k: nat)
    requires k <= |cs|
    ensures Flat(cs[..k]) <= Flat(cs)
  {
    if k == |cs| {
      assert cs[..k] == cs;
    } else {
      var n := |cs| - 1;
      assert cs[..n][..k] == cs[..k];
      FlatGrows(cs[..n], k);
    }
  }

  /** The lines completed before a chunk are the first lines of the text. */
  lemma BeforeIsPrefix(cs: seq<Chunk>, lines: seq<string>, k: nat)
    requires Lossless(Some(cs), lines) && k <= |cs|
    ensures Before(cs, k).0 <= lines
  {
    FlatGrows(cs, k);
    RecoverGrows(Flat(cs), |Flat(cs[..k])|);
    assert Flat(cs)[..|Flat(cs[..k])|] == Flat(cs[..k]);
    hide Flat, Recover;
  }

  // ----- a chunk as a message

  /** The pieces of a chunk that come from the text. */
  function Own(c: Chunk): seq<Piece> {
    if c.pieces != [] && c.pieces[0].Reseed? then c.pieces[1..] else c.pieces
  }

  lemma {:induction false} TextsHead(p: Piece, ps: seq<Piece>)
    ensures Texts([p] + ps) == [p.text] + Texts(ps)
    decreases |ps|
  {
    if ps == [] {
      assert [p] + ps == [p] && [p][..0] == [];
    } else {
      var n := |ps| - 1;
      assert ([p] + ps)[..n + 1] == [p] + ps[..n];
      TextsHead(p, ps[..n]);
    }
  }

  /** A chunk that begins where block `f` is open, and ends where one is open or not. */
  lemma ChunkReads(c: Chunk, f: string)
    requires SeededWith(c.pieces, f) && (c.closed ==> c.pieces != [])
    ensures Render(c) == Join((if f != "" then [f] else []) + Texts(Own(c)) + if c.closed then ["```"] else [])
    ensures forall j :: 0 <= j < |Own(c)| ==> !Own(c)[j].Reseed?
  {
    var ps := c.pieces;
    assert forall j :: 0 <= j < |ps| ==> ReseedAt(ps, j) == ps[j].Reseed?;
    if f != "" {
      assert ps == [ps[0]] + ps[1..];
      TextsHead(ps[0], ps[1..]);
    }
    var ts := (if f != "" then [f] else []) + Texts(Own(c));
    assert ts == Texts(ps);
    hide Join, Texts;
    if c.closed {
      JoinSnoc(ts, "```");
      assert Join(ts) + "\n" + "```" == Join(ts) + CLOSING_FENCE;
    }
    assert ts + [] == ts;
  }

  lemma EmptyChunkOpen(cs: seq<Chunk>, k: nat)
    requires k < |cs| && cs[k].pieces == [] && SelfContained(cs, k)
    ensures !cs[k].closed
  {
    assert cs[..k + 1] == cs[..k] + [cs[k]];
    FlatSnoc(cs[..k], cs[k]);
    assert Flat(cs[..k]) + [] == Flat(cs[..k]);
    hide Flat, Recover, OpenAfter;
  }

  /** Every chunk, read as a message, has three parts: the line that opens a code block, cut to
      what is visible of it, if the chunk begins inside that block; pieces of the text; and a
      closing fence if the chunk ends inside a block. `n` and `m` count the lines of the text
      that are complete where the chunk begins and ends. */
  lemma ChunksRead(text: string, maxLen: int, k: nat) returns (n: nat, m: nat, f: string, i: nat)
    requires RoomForLines(SplitLines(text), maxLen)
    ensures SplitSpec(text, maxLen).Some?
    ensures var lines, cs := SplitLines(text), SplitSpec(text, maxLen).value;
      k < |cs| ==>
        && n <= |lines| && m <= |lines| && Before(cs, k).0 == lines[..n] && Before(cs, k + 1).0 == lines[..m]
        && (Inside(lines[..n]) ==> i < n && LastFence(lines[..n], i) && CutTo(lines[i], f) && f <= Render(cs[k]))
        && Render(cs[k]) == Join((if Inside(lines[..n]) then [f] else []) + Texts(Own(cs[k])) + if Inside(lines[..m]) then ["```"] else [])
        && forall j :: 0 <= j < |Own(cs[k])| ==> !Own(cs[k])[j].Reseed?
  {
    hide *;
    var lines := SplitLines(text);
    FirstLineFinds(lines, maxLen);
    FinishGood(lines, maxLen, maxLen);
    SplitSpecIs(text, maxLen);
    var cs := SplitSpec(text, maxLen).value;
    n, m, f, i := 0, 0, "", 0;
    if k < |cs| {
      BeforeIsPrefix(cs, lines, k);
      BeforeIsPrefix(cs, lines, k + 1);
      n, m := |Before(cs, k).0|, |Before(cs, k + 1).0|;
      f := OpenAt(cs, k);
      ContainedAt(cs, k, maxLen);
      i := OpenAfterReads(lines[..n]);
      var i' := OpenAfterReads(lines[..m]);
      if Inside(lines[..n]) { assert lines[..n][i] == lines[i]; }
      if cs[k].pieces == [] { EmptyChunkOpen(cs, k); }
      ChunkReads(cs[k], f);
      FirstOfJoined(f, Texts(Own(cs[k])) + if cs[k].closed then ["```"] else []);
      Regrouped([f], Texts(Own(cs[k])), if cs[k].closed then ["```"] else []);
    }
  }

  lemma Regrouped(a: seq<string>, b: seq<string>, c: seq<string>)
    ensures a + (b + c) == a + b + c
  {
  }

  lemma SplitSpecIs(text: string, maxLen: int)
    requires Run(SplitLines(text), maxLen).Some?
    ensures SplitSpec(text, maxLen) == Some(Finish(Run(SplitLines(text), maxLen).value))
  {
    hide Run, Finish, SplitLines;
  }

  lemma ContainedAt(cs: seq<Chunk>, k: nat, maxLen: int)
    requires ChunksOk(cs, maxLen, maxLen) && k < |cs|
    ensures SelfContained(cs, k) && SeededWith(cs[k].pieces, OpenAt(cs, k)) && cs[k].closed == (OpenAt(cs, k + 1) != "")
    ensures OpenAt(cs, k) == OpenAfter(Before(cs, k).0) && OpenAt(cs, k + 1) == OpenAfter(Before(cs, k + 1).0)
  {
    hide SeededWith, LengthOk, Before, OpenAfter;
  }

  /** Of lines joined, the first stands in front. */
  lemma FirstOfJoined(f: string, rest: seq<string>)
    ensures f <= Join([f] + rest)
  {
    assert ([f] + rest)[1..] == rest;
  }
}
