/** Single messages: two that are split badly, of which one loses a line and one is not split at
    all, and one with an indented block that is split as it should be (core/markdown_html.go,
    SplitMessageCodeFenceAware). */
module MessageSplitterExamples {
  import opened Text
  import opened MessageSplitter
  import opened MessageSplitterGauge
  import opened MessageSplitterProperties

  /** Too small for a bare fence, a rune and the closing fence. */
  const LIMIT := 8

  /** The beginning of both: the fence starts the second chunk. */
  const HEAD := ["aaaa", FENCE]

  lemma LinesPlain()
    ensures !IsFence("aaaa") && IsFence(FENCE) && TrimSpace(FENCE) == FENCE
    ensures OneLine("aaaa") && OneLine(FENCE) && OneLine("") && OneLine("x")
  {
    TrimSpaceTrimmed("aaaa");
    TrimSpaceTrimmed(FENCE);
    assert "aaaa"[0] != FENCE[0];
  }

  /** Inside the block the chunk under construction holds the fence and has no room. */
  lemma HeadNarrow()
    ensures OpenAfter(HEAD) == FENCE && Len(HEAD, LIMIT) == 4 && RoomForLines(HEAD, LIMIT)
  {
    LinesPlain();
    hide TrimSpace, IsFence;
    assert HEAD[..1] == ["aaaa"] && HEAD[..0] == [] && ["aaaa"][..0] == [];
    assert OpenAfter([]) == "" && OpenAfter(["aaaa"]) == Track("", "aaaa") == "";
    assert OpenAfter(HEAD) == Track("", FENCE);
    assert Len([], LIMIT) == 0 && Len(["aaaa"], LIMIT) == 5;
    RoomEnough(HEAD, LIMIT);
  }

  /** A line behind the opening fence finds no room. */
  lemma NextIsTight(lines: seq<string>)
    requires HEAD <= lines && |lines| > 2
    ensures lines[..2] == HEAD && !Finds(OpenAfter(lines[..2]), Len(lines[..2], LIMIT), |lines[2]|, LIMIT)
    ensures !RoomForLines(lines, LIMIT)
  {
    HeadNarrow();
    hide OpenAfter, Len;
    assert lines[..2] == HEAD;
  }

  lemma EmptyNeverSticks(st: State, maxLen: int)
    ensures AddLine(st, "", maxLen).Some?
  {
    hide Fits, Flushed;
  }

  const LOSING := "aaaa\n```\n\n"

  /** This text is split, but does not keep its empty lines. */
  lemma EmptyLineLost()
    ensures |LOSING| > LIMIT && SplitSpec(LOSING, LIMIT).Some? && !Lossless(SplitSpec(LOSING, LIMIT), SplitLines(LOSING))
  {
    var lines := HEAD + ["", ""];
    hide *;
    Spelled4(lines);
    NextIsTight(lines);
    HeadNarrow();
    LosslessIff(LOSING, LIMIT);
    TightLine(lines, 2, LIMIT);
    RunStep(lines, 2, LIMIT);
    RunStep(lines, 3, LIMIT);
    assert lines[2] == "" && lines[3] == "" && lines[..4] == lines;
    EmptyNeverSticks(Run(lines[..2], LIMIT).value, LIMIT);
    EmptyNeverSticks(Run(lines[..3], LIMIT).value, LIMIT);
    SplitIs(LOSING, LIMIT);
  }

  lemma Spelled4(lines: seq<string>)
    requires lines == HEAD + ["", ""]
    ensures |lines| == 4 && HEAD <= lines && lines[2] == "" && lines[3] == "" && SplitLines(LOSING) == lines && |LOSING| > LIMIT >= 1
  {
    LinesPlain();
    hide SplitLines, OneLine;
    JoinFour("aaaa", FENCE, "", "");
    assert lines == ["aaaa", FENCE, "", ""];
    assert "aaaa" + "\n" + FENCE + "\n" + "" + "\n" + "" == LOSING;
    JoinThenSplit(lines);
  }

  lemma JoinFour(a: string, b: string, c: string, d: string)
    ensures Join([a, b, c, d]) == a + "\n" + b + "\n" + c + "\n" + d
    ensures Join([a, b, c]) == a + "\n" + b + "\n" + c
  {
    JoinSnoc([], a);
    JoinSnoc([a], b);
    JoinSnoc([a, b], c);
    JoinSnoc([a, b, c], d);
    hide Join;
    assert [] + [a] == [a] && [a] + [b] == [a, b] && [a, b] + [c] == [a, b, c] && [a, b, c] + [d] == [a, b, c, d];
  }

  lemma SplitIs(text: string, maxLen: int)
    ensures SplitSpec(text, maxLen).Some? <==> Run(SplitLines(text), maxLen).Some?
  {
    hide Run, SplitLines, Finish;
  }

  const STICKING := "aaaa\n```\nx"

  /** On this text the code makes no progress. */
  lemma SplitSticks()
    ensures |STICKING| > LIMIT && SplitSpec(STICKING, LIMIT).None?
  {
    var lines := HEAD + ["x"];
    hide *;
    Spelled3(lines);
    NextIsTight(lines);
    HeadNarrow();
    TightLine(lines, 2, LIMIT);
    RunStep(lines, 2, LIMIT);
    assert lines[2] == "x" && lines[..3] == lines;
    SplitIs(STICKING, LIMIT);
  }

  lemma Spelled3(lines: seq<string>)
    requires lines == HEAD + ["x"]
    ensures |lines| == 3 && HEAD <= lines && lines[2] == "x" && SplitLines(STICKING) == lines && |STICKING| > LIMIT >= 1
  {
    LinesPlain();
    hide SplitLines, OneLine;
    JoinFour("aaaa", FENCE, "x", "");
    assert lines == ["aaaa", FENCE, "x"];
    assert "aaaa" + "\n" + FENCE + "\n" + "x" == STICKING;
    JoinThenSplit(lines);
  }

  // ----- an indented block

  const INDENTED := "a\n  ```go\nbbbbbbbbb\nccccccccc\n  ```"


  lemma FitsWhole(st: State, line: string, maxLen: int, len: nat)
    requires Extended(st.cur, 0) == len && len + |line| + 1 <= Limit(st.open, maxLen)
    ensures AddLine(st, line, maxLen) == Some(State(st.chunks, st.cur + [Whole(line)], Track(st.open, line)))
    ensures Extended(st.cur + [Whole(line)], 0) == len + |line| + 1
  {
    FitsIs(st, line, maxLen);
    ExtendedSnoc(st.cur, Whole(line));
    hide Fits, Extended, Track, Limit;
  }

  lemma FitsFlushed(st: State, line: string, maxLen: int, len: nat)
    requires st.cur != [] && st.open != "" && Extended(st.cur, 0) == len && len + |line| + 1 > Limit(st.open, maxLen)
    requires |st.open| + |line| + 2 <= Limit(st.open, maxLen)
    ensures AddLine(st, line, maxLen)
         == Some(State(st.chunks + [Chunk(st.cur, true)], [Reseed(st.open), Whole(line)], Track(st.open, line)))
    ensures Extended([Reseed(st.open), Whole(line)], 0) == |st.open| + |line| + 2
  {
    FitsIs(st, line, maxLen);
    FitsIs(Flushed(st), line, maxLen);
    FlushedShows(st);
    ExtendedSnoc([Reseed(st.open)], Whole(line));
    assert [Reseed(st.open)] + [Whole(line)] == [Reseed(st.open), Whole(line)];
    hide Fits, Extended, Track, Limit, Texts;
  }

  lemma NoFence(line: string)
    requires line != "" && line[0] in {'a', 'b', 'c'} && line[|line| - 1] in {'a', 'b', 'c'}
    ensures !IsFence(line)
  {
    assert Trimmed(line);
    TrimSpaceTrimmed(line);
  }

  lemma IndentedFence(line: string, s: string)
    requires line == "  " + s && FENCE <= s && s[|s| - 1] in {'`', 'o'}
    ensures IsFence(line) && TrimSpace(line) == s
  {
    assert s[0] == FENCE[0];
    assert AllSpace("  ") && Trimmed(s);
    hide TrimSpace, IsSpace;
    TrimSpacePadded("  ", s, "");
    assert "  " + s + "" == line;
  }

  /** The states the split goes through, for lines of these lengths. */
  lemma IndentedRun(lines: seq<string>, go: string)
    requires |lines| == 5 && |lines[0]| == 1 && |lines[1]| == 7 && |lines[2]| == |lines[3]| == 9 && |lines[4]| == 5 && |go| == 5
    requires !IsFence(lines[0]) && IsFence(lines[1]) && !IsFence(lines[2]) && !IsFence(lines[3]) && IsFence(lines[4])
    requires TrimSpace(lines[1]) == go
    ensures Run(lines, 20) == Some(State(
      [Chunk([Whole(lines[0]), Whole(lines[1])], true), Chunk([Reseed(go), Whole(lines[2])], true), Chunk([Reseed(go), Whole(lines[3])], true)],
      [Reseed(go), Whole(lines[4])], ""))
  {
    hide *;
    StartsEmpty(20);
    assert lines[..0] == [] && lines[..5] == lines;
    var st1 := IndentedFirst(lines, go);
    RunStep(lines, 2, 20);
    RunStep(lines, 3, 20);
    RunStep(lines, 4, 20);
    TrackIs(go, lines[2]);
    TrackIs(go, lines[3]);
    TrackIs(go, lines[4]);
    LimitIs(go, 20);
    var c1 := [Whole(lines[0]), Whole(lines[1])];
    FitsFlushed(State([], c1, go), lines[2], 20, 10);
    var d1, c2 := [Chunk(c1, true)], [Reseed(go), Whole(lines[2])];
    assert [] + d1 == d1;
    FitsFlushed(State(d1, c2, go), lines[3], 20, 16);
    var d2, c3 := [Chunk(c1, true), Chunk(c2, true)], [Reseed(go), Whole(lines[3])];
    assert d1 + [Chunk(c2, true)] == d2;
    FitsFlushed(State(d2, c3, go), lines[4], 20, 16);
    assert d2 + [Chunk(c3, true)] == [Chunk(c1, true), Chunk(c2, true), Chunk(c3, true)];
  }

  lemma IndentedFirst(lines: seq<string>, go: string) returns (st: State)
    requires |lines| == 5 && |lines[0]| == 1 && |lines[1]| == 7 && |go| == 5
    requires !IsFence(lines[0]) && IsFence(lines[1]) && TrimSpace(lines[1]) == go
    ensures st == State([], [Whole(lines[0]), Whole(lines[1])], go) && Run(lines[..2], 20) == Some(st) && Extended(st.cur, 0) == 10
  {
    hide *;
    StartsEmpty(20);
    assert lines[..0] == [];
    RunStep(lines, 0, 20);
    RunStep(lines, 1, 20);
    TrackIs("", lines[0]);
    TrackIs("", lines[1]);
    LimitIs("", 20);
    FitsWhole(State([], [], ""), lines[0], 20, 0);
    assert [] + [Whole(lines[0])] == [Whole(lines[0])];
    FitsWhole(State([], [Whole(lines[0])], ""), lines[1], 20, 2);
    st := State([], [Whole(lines[0]), Whole(lines[1])], go);
    assert [Whole(lines[0])] + [Whole(lines[1])] == st.cur;
  }

  lemma StartsEmpty(maxLen: int)
    ensures Run([], maxLen) == Some(State([], [], "")) && Extended([], 0) == 0
  {
  }

  lemma TrackIs(open: string, line: string)
    ensures Track(open, line) == if !IsFence(line) then open else if open != "" then "" else TrimSpace(line)
  {
  }

  lemma LimitIs(open: string, maxLen: int)
    ensures Limit(open, maxLen) == if open != "" then maxLen - 4 else maxLen
  {
  }

  lemma RenderTwo(p: Piece, q: Piece, closed: bool)
    ensures Render(Chunk([p, q], closed)) == p.text + "\n" + q.text + if closed then "\n```" else ""
  {
    ExtendedSnoc([], p);
    ExtendedSnoc([p], q);
    assert [] + [p] == [p] && [p] + [q] == [p, q] && Texts([p, q]) == [p.text] + [q.text];
    JoinSnoc([], p.text);
    JoinSnoc([p.text], q.text);
    assert [] + [p.text] == [p.text];
    hide Texts, Join;
    assert p.text + "\n" + q.text + "" == p.text + "\n" + q.text;
  }

  lemma FinishIs(text: string, maxLen: int, st: State)
    requires Run(SplitLines(text), maxLen) == Some(st) && st.cur != []
    ensures SplitSpec(text, maxLen) == Some(st.chunks + [Chunk(st.cur, st.open != "")])
  {
    hide Run, SplitLines;
  }

  /** The block is closed and re-opened in every chunk, its fence without the indentation. */
  lemma IndentedBlock()
    ensures |INDENTED| > 20 && SplitSpec(INDENTED, 20).Some?
    ensures var cs := SplitSpec(INDENTED, 20).value;
      && |cs| == 4 && Render(cs[0]) == "a\n  ```go\n```" && Render(cs[1]) == "```go\nbbbbbbbbb\n```"
      && Render(cs[2]) == "```go\nccccccccc\n```" && Render(cs[3]) == "```go\n  ```"
  {
    hide *;
    var lines := IndentedLines();
    var go := "```go";
    IndentedRun(lines, go);
    RenderTwo(Whole(lines[0]), Whole(lines[1]), true);
    RenderTwo(Reseed(go), Whole(lines[2]), true);
    RenderTwo(Reseed(go), Whole(lines[3]), true);
    RenderTwo(Reseed(go), Whole(lines[4]), false);
    FinishIs(INDENTED, 20, Run(lines, 20).value);
    Spellings(lines, go);
  }

  lemma Spellings(lines: seq<string>, go: string)
    requires lines == ["a", "  ```go", "bbbbbbbbb", "ccccccccc", "  ```"] && go == "```go"
    ensures lines[0] + "\n" + lines[1] + "\n```" == "a\n  ```go\n```" && go + "\n" + lines[2] + "\n```" == "```go\nbbbbbbbbb\n```"
    ensures go + "\n" + lines[3] + "\n```" == "```go\nccccccccc\n```" && go + "\n" + lines[4] + "" == "```go\n  ```"
  {
  }

  lemma IndentedLines() returns (lines: seq<string>)
    ensures lines == ["a", "  ```go", "bbbbbbbbb", "ccccccccc", "  ```"] && SplitLines(INDENTED) == lines && |INDENTED| > 20
    ensures |lines[0]| == 1 && |lines[1]| == 7 && |lines[2]| == |lines[3]| == 9 && |lines[4]| == 5
    ensures !IsFence(lines[0]) && IsFence(lines[1]) && !IsFence(lines[2]) && !IsFence(lines[3]) && IsFence(lines[4])
    ensures TrimSpace(lines[1]) == "```go"
  {
    hide *;
    lines := ["a", "  ```go", "bbbbbbbbb", "ccccccccc", "  ```"];
    NoFence(lines[0]);
    NoFence(lines[2]);
    NoFence(lines[3]);
    FenceHere();
    IndentedFence(lines[1], "```go");
    IndentedFence(lines[4], "```");
    IndentedJoined(lines);
    JoinThenSplit(lines);
  }

  lemma FenceHere()
    ensures FENCE <= "```go" && FENCE <= "```" && "  " + "```go" == "  ```go" && "  " + "```" == "  ```"
  {
    assert "```go"[..3] == FENCE;
  }

  lemma IndentedJoined(lines: seq<string>)
    requires lines == ["a", "  ```go", "bbbbbbbbb", "ccccccccc", "  ```"]
    ensures Join(lines) == INDENTED && AllOneLine(lines) && |INDENTED| > 20
  {
    JoinFour(lines[0], lines[1], lines[2], lines[3]);
    JoinSnoc(lines[..4], lines[4]);
    assert lines[..4] == [lines[0], lines[1], lines[2], lines[3]] && lines[..4] + [lines[4]] == lines;
    hide *;
    IndentedSpelled();
    IndentedOneLine(lines);
  }

  lemma IndentedSpelled()
    ensures "a" + "\n" + "  ```go" + "\n" + "bbbbbbbbb" + "\n" + "ccccccccc" + "\n" + "  ```" == INDENTED && |INDENTED| > 20
  {
    assert "a" + "\n" + "  ```go" == "a\n  ```go";
    assert "a\n  ```go" + "\n" + "bbbbbbbbb" == "a\n  ```go\nbbbbbbbbb";
    assert "a\n  ```go\nbbbbbbbbb" + "\n" + "ccccccccc" == "a\n  ```go\nbbbbbbbbb\nccccccccc";
    assert "a\n  ```go\nbbbbbbbbb\nccccccccc" + "\n" + "  ```" == INDENTED;
  }

  lemma IndentedOneLine(lines: seq<string>)
    requires lines == ["a", "  ```go", "bbbbbbbbb", "ccccccccc", "  ```"]
    ensures AllOneLine(lines)
  {
    assert OneLine("a") && OneLine("  ```go") && OneLine("bbbbbbbbb") && OneLine("ccccccccc") && OneLine("  ```");
    hide OneLine;
  }
}
