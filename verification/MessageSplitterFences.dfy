/** Every chunk of a split text is a code-block structure of its own: it holds an even
    number of fence lines. */
module MessageSplitterFences {
  import opened Text
  import opened MessageSplitter
  import opened MessageSplitterProperties

  // ----- which lines are fences

  /** Behind nothing but white space the line goes on with three backticks. */
  ghost predicate BackticksAt(line: string, k: nat) {
    && k + 3 <= |line| && line[k] == '`' && line[k + 1] == '`' && line[k + 2] == '`'
    && forall i :: 0 <= i < k ==> IsSpace(line[i])
  }

  /** A code fence, as it is read in a message. */
  ghost predicate Fence(line: string) {
    exists k: nat :: BackticksAt(line, k)
  }

  /** Exactly such lines are taken for fences, whatever their indentation and what follows. */
  lemma FenceIff(line: string)
    ensures IsFence(line) <==> Fence(line)
  {
    var a, b := TrimSpaceSlice(line);
    if IsFence(line) {
      hide TrimSpace, IsSpace;
      var t := line[a..b];
      assert t[0] == line[a] && t[1] == line[a + 1] && t[2] == line[a + 2];
      assert forall i :: 0 <= i < a ==> line[..a][i] == line[i];
      assert BackticksAt(line, a);
    }
    forall k: nat | BackticksAt(line, k)
      ensures IsFence(line)
    {
      TicksAreFence(line, k);
    }
  }

  lemma TicksAreFence(line: string, k: nat)
    requires BackticksAt(line, k)
    ensures IsFence(line)
  {
    var rest := line[k..];
    assert !IsSpace('`') && AllSpace(line[..k]) && line == line[..k] + rest;
    TrimLeftPadded(line[..k], rest);
    hide IsSpace, TrimLeft;
    var n := TrimRightSlice(rest);
    assert rest == rest[..n] + rest[n..];
    assert rest[0] == '`' && rest[1] == '`' && rest[2] == '`';
    if n < 3 { TickNotSpace(rest, n); }
    assert TrimSpace(line) == rest[..n];
  }

  lemma TickNotSpace(rest: string, n: nat)
    requires n < 3 <= |rest| && rest[n] == '`'
    ensures !AllSpace(rest[n..])
  {
    assert rest[n..][0] == '`';
  }

  ghost function FenceCount(lines: seq<string>): nat {
    if lines == [] then 0
    else FenceCount(lines[..|lines| - 1]) + if Fence(lines[|lines| - 1]) then 1 else 0
  }

  /** Lines of a message that are fences. */
  ghost function FenceLines(message: string): nat {
    FenceCount(SplitLines(message))
  }

  ghost predicate EvenChunk(c: Chunk) {
    && c.pieces != [] && AllOneLine(Texts(c.pieces))
    && (FenceCount(Texts(c.pieces)) + if c.closed then 1 else 0) % 2 == 0
  }

  ghost predicate AllEven(cs: seq<Chunk>) {
    forall k :: 0 <= k < |cs| ==> EvenChunk(cs[k])
  }

  /** The lines of the chunk under construction hold an odd number of fences exactly inside a block. */
  ghost predicate OddInside(lines: seq<string>, open: string) {
    && AllOneLine(lines) && OneLine(open)
    && FenceCount(lines) % 2 == (if open != "" then 1 else 0)
    && (open != "" ==> IsFence(open))
  }

  ghost predicate Parity(st: State) {
    AllEven(st.chunks) && OddInside(Texts(st.cur), st.open)
  }

  lemma FenceCountSnoc(lines: seq<string>, line: string)
    ensures FenceCount(lines + [line]) == FenceCount(lines) + if IsFence(line) then 1 else 0
  {
    FenceIff(line);
    assert (lines + [line])[..|lines|] == lines;
  }

  lemma FenceCountEmpty()
    ensures FenceCount([]) == 0
  {
  }

  lemma AllOneLineSnoc(lines: seq<string>, line: string)
    requires AllOneLine(lines) && OneLine(line)
    ensures AllOneLine(lines + [line])
  {
  }

  lemma OddInsidePlain(lines: seq<string>, line: string, open: string)
    requires OddInside(lines, open) && OneLine(line) && !IsFence(line)
    ensures OddInside(lines + [line], open)
  {
    FenceCountSnoc(lines, line);
    AllOneLineSnoc(lines, line);
  }

  lemma OddInsideTrack(lines: seq<string>, line: string, open: string)
    requires OddInside(lines, open) && OneLine(line)
    ensures OddInside(lines + [line], Track(open, line))
  {
    hide FenceCount, AllOneLine, TrimSpace;
    FenceCountSnoc(lines, line);
    AllOneLineSnoc(lines, line);
    var a, b := TrimSpaceSlice(line);
    assert forall c :: c in line[a..b] ==> c in line;
    TrimSpaceTrimmed(line[a..b]);
  }

  lemma FlushParity(st: State)
    requires Parity(st)
    ensures Parity(Flushed(st)) && Flushed(st).open == st.open
  {
    hide IsFence, Texts, OneLine, FenceCount;
    if st.cur != [] {
      FlushedShows(st);
      FenceCountEmpty();
      assert EvenChunk(Chunk(st.cur, st.open != ""));
      FenceCountSnoc([], st.open);
      assert [] + [st.open] == [st.open];
    }
  }

  lemma PartNoFence(line: string)
    requires !Contains(line, FENCE)
    ensures !IsFence(line)
  {
    var a, b := TrimSpaceSlice(line);
    if IsFence(line) {
      assert OccursAt(line[a..b], FENCE, 0);
      ContainsSlice(line, FENCE, a, b);
    }
  }

  lemma SliceKeeps(line: string, a: nat, b: nat)
    requires a <= b <= |line| && OneLine(line) && !Contains(line, FENCE)
    ensures OneLine(line[a..b]) && !Contains(line[a..b], FENCE)
  {
    if Contains(line[a..b], FENCE) { ContainsSlice(line, FENCE, a, b); }
    assert forall c :: c in line[a..b] ==> c in line;
  }

  lemma {:induction false} InlineParity(st: State, rem: string, maxLen: int)
    requires Parity(st) && OneLine(rem) && !Contains(rem, FENCE)
    ensures var r := InlineParts(st, rem, maxLen); r.Some? ==> Parity(r.value) && r.value.open == st.open
    decreases |rem|
  {
    hide FenceCount, Fence, IsFence, AllEven, OddInside, OneLine, Contains, Extended, Texts;
    FlushParity(st);
    var st1 := Ready(st, maxLen);
    var avail := Avail(st1, maxLen);
    if rem != "" && 0 < avail < |rem| {
      assert rem[..avail] == rem[0..avail] && rem[avail..] == rem[avail..|rem|];
      SliceKeeps(rem, 0, avail);
      SliceKeeps(rem, avail, |rem|);
      PartNoFence(rem[..avail]);
      ExtendedSnoc(st1.cur, Part(rem[..avail], false));
      OddInsidePlain(Texts(st1.cur), rem[..avail], st1.open);
      FlushParity(Pushed(st1, Part(rem[..avail], false)));
      InlineParity(AfterPart(st1, rem[..avail]), rem[avail..], maxLen);
    } else {
      PartNoFence(rem);
      ExtendedSnoc(st1.cur, Part(rem, true));
      OddInsidePlain(Texts(st1.cur), rem, st1.open);
    }
  }

  /** A line that holds a triple backtick fits whole into a fresh chunk. */
  predicate FitsFresh(open: string, line: string, maxLen: int) {
    if open == "" then |line| < maxLen else |open| + |line| + 6 <= maxLen
  }

  ghost predicate BackticksFit(lines: seq<string>, maxLen: int) {
    forall i :: 0 <= i < |lines| && Contains(lines[i], FENCE) ==> FitsFresh(OpenAfter(lines[..i]), lines[i], maxLen)
  }

  lemma TrackParity(st: State, line: string)
    requires Parity(st) && OneLine(line)
    ensures var st' := Pushed(st, Whole(line)); Parity(st'.(open := Track(st'.open, line)))
  {
    ExtendedSnoc(st.cur, Whole(line));
    OddInsideTrack(Texts(st.cur), line, st.open);
  }

  lemma AddLineParity(st: State, line: string, done: seq<string>, maxLen: int)
    requires Parity(st) && Good(st, done, "", maxLen, maxLen) && OneLine(line)
    requires Contains(line, FENCE) ==> FitsFresh(st.open, line, maxLen)
    ensures AddLine(st, line, maxLen).Some? ==> Parity(AddLine(st, line, maxLen).value)
  {
    TrackParity(st, line);
    FlushParity(st);
    TrackParity(Flushed(st), line);
    if !Fits(st, line, maxLen) && !Fits(Flushed(st), line, maxLen) {
      FlushedFresh(st, done, maxLen, maxLen);
      ExtendedSnoc([], Reseed(st.open));
      assert [] + [Reseed(st.open)] == [Reseed(st.open)];
      PartNoFence(line);
      InlineParity(Flushed(st), line, maxLen);
    }
  }

  lemma {:induction false} RunParity(lines: seq<string>, maxLen: int)
    requires maxLen >= 1 && RoomForLines(lines, maxLen) && BackticksFit(lines, maxLen) && AllOneLine(lines)
    ensures Run(lines, maxLen).Some? && Parity(Run(lines, maxLen).value)
  {
    if lines == [] {
      assert Run(lines, maxLen) == Some(State([], [], ""));
    } else {
      var n := |lines| - 1;
      RoomPrefix(lines, n, maxLen);
      BackticksPrefix(lines, n, maxLen);
      RunParity(lines[..n], maxLen);
      hide *;
      RunGood(lines, maxLen, maxLen);
      RunGood(lines[..n], maxLen, maxLen);
      RunLast(lines, maxLen);
      OpenIsAfter(Run(lines[..n], maxLen).value, lines[..n], maxLen);
      AddLineParity(Run(lines[..n], maxLen).value, lines[n], lines[..n], maxLen);
    }
  }

  lemma RunLast(lines: seq<string>, maxLen: int)
    requires lines != [] && Run(lines, maxLen).Some?
    ensures Run(lines[..|lines| - 1], maxLen).Some?
    ensures AddLine(Run(lines[..|lines| - 1], maxLen).value, lines[|lines| - 1], maxLen) == Run(lines, maxLen)
  {
    hide AddLine;
  }

  lemma OpenIsAfter(st: State, done: seq<string>, maxLen: int)
    requires Good(st, done, "", maxLen, maxLen)
    ensures st.open == OpenAfter(done)
  {
    hide OpenAfter, Recover, SeededWith, ChunksOk;
  }

  lemma BackticksPrefix(lines: seq<string>, n: nat, maxLen: int)
    requires n < |lines| && BackticksFit(lines, maxLen) && AllOneLine(lines)
    ensures BackticksFit(lines[..n], maxLen) && AllOneLine(lines[..n]) && OneLine(lines[n])
    ensures Contains(lines[n], FENCE) ==> FitsFresh(OpenAfter(lines[..n]), lines[n], maxLen)
  {
    hide FitsFresh, OneLine, OpenAfter;
    assert forall i :: 0 <= i < n ==> lines[..n][..i] == lines[..i];
  }

  lemma FinishParity(st: State)
    requires Parity(st)
    ensures AllEven(Finish(st))
  {
    hide IsFence, Texts, OneLine;
    assert st.cur != [] ==> EvenChunk(Chunk(st.cur, st.open != ""));
  }

  lemma BareFence()
    ensures IsFence(FENCE) && OneLine(FENCE)
  {
    TrimSpaceTrimmed(FENCE);
  }

  lemma RenderFences(c: Chunk)
    requires EvenChunk(c)
    ensures FenceLines(Render(c)) % 2 == 0
  {
    hide IsFence, Texts, FenceCount;
    var ts := Texts(c.pieces);
    if c.closed {
      JoinSnoc(ts, FENCE);
      assert Join(ts) + "\n" + FENCE == Join(ts) + CLOSING_FENCE;
      JoinThenSplit(ts + [FENCE]);
      BareFence();
      FenceCountSnoc(ts, FENCE);
    } else {
      JoinThenSplit(ts);
    }
  }

  /** If blocks have room and no line with a triple backtick is torn apart, every chunk has
      an even number of fence lines. */
  lemma EvenFences(text: string, maxLen: int)
    requires RoomForLines(SplitLines(text), maxLen) && BackticksFit(SplitLines(text), maxLen)
    ensures SplitSpec(text, maxLen).Some?
    ensures var cs := SplitSpec(text, maxLen).value;
            forall k :: 0 <= k < |cs| ==> FenceLines(Render(cs[k])) % 2 == 0
  {
    var lines := SplitLines(text);
    SplitThenJoin(text);
    FirstLineFinds(lines, maxLen);
    RunParity(lines, maxLen);
    FinishParity(Run(lines, maxLen).value);
    var cs := SplitSpec(text, maxLen).value;
    forall k | 0 <= k < |cs|
      ensures FenceLines(Render(cs[k])) % 2 == 0
    {
      RenderFences(cs[k]);
    }
  }

  /** The same from a condition on single lines: a line of L runes that holds a triple
      backtick satisfies 2L + 6 <= maxLen. */
  lemma EvenFencesShortLines(text: string, maxLen: int)
    requires maxLen >= 1
    requires forall i :: 0 <= i < |SplitLines(text)| && Contains(SplitLines(text)[i], FENCE)
               ==> 2 * |SplitLines(text)[i]| + 6 <= maxLen
    ensures SplitSpec(text, maxLen).Some?
    ensures var cs := SplitSpec(text, maxLen).value;
            forall k :: 0 <= k < |cs| ==> |Render(cs[k])| <= maxLen + 3 && FenceLines(Render(cs[k])) % 2 == 0
    ensures Lossless(SplitSpec(text, maxLen), SplitLines(text))
  {
    var lines := SplitLines(text);
    forall i | 0 <= i <= |lines|
      ensures 2 * |OpenAfter(lines[..i])| + 6 <= maxLen || OpenAfter(lines[..i]) == ""
    {
      OpenShort(lines, i, maxLen);
    }
    RoomEnough(lines, maxLen);
    EvenFences(text, maxLen);
    forall i | 0 <= i < |lines| && IsFence(lines[i])
      ensures Contains(lines[i], FENCE)
    {
      if !Contains(lines[i], FENCE) { PartNoFence(lines[i]); }
    }
    ChunkLengths(text, maxLen);
    LosslessIff(text, maxLen);
  }

  lemma {:induction false} OpenShort(lines: seq<string>, i: nat, maxLen: int)
    requires i <= |lines|
    requires forall j :: 0 <= j < |lines| && Contains(lines[j], FENCE) ==> 2 * |lines[j]| + 6 <= maxLen
    ensures OpenAfter(lines[..i]) == "" || 2 * |OpenAfter(lines[..i])| + 6 <= maxLen
  {
    if i > 0 {
      OpenShort(lines, i - 1, maxLen);
      assert lines[..i][..i - 1] == lines[..i - 1];
      TrimShorter(lines[i - 1]);
      if !Contains(lines[i - 1], FENCE) { PartNoFence(lines[i - 1]); }
    }
  }
}
