/** The documented promise is that no chunk has more than `maxLen` runes. The code reserves
    room for the closing fence only once an opening line has been accepted, so the promise
    can fail; here is exactly when, and by how much. */
module MessageSplitterBounds {
  import opened Text
  import opened MessageSplitter
  import opened MessageSplitterGauge
  import opened MessageSplitterProperties

  lemma FlushMono(st: State)
    ensures st.chunks <= Flushed(st).chunks
  {
  }

  lemma {:induction false} InlineMono(st: State, rem: string, maxLen: int)
    ensures InlineParts(st, rem, maxLen).Some? ==> st.chunks <= InlineParts(st, rem, maxLen).value.chunks
    decreases |rem|
  {
    var st1 := Ready(st, maxLen);
    var avail := Avail(st1, maxLen);
    if rem != "" && 0 < avail < |rem| {
      InlineMono(AfterPart(st1, rem[..avail]), rem[avail..], maxLen);
    }
  }

  lemma AddMono(st: State, line: string, maxLen: int)
    requires AddLine(st, line, maxLen).Some?
    ensures st.chunks <= AddLine(st, line, maxLen).value.chunks
    ensures !Fits(st, line, maxLen) ==> Flushed(st).chunks <= AddLine(st, line, maxLen).value.chunks
  {
    FlushMono(st);
    InlineMono(Flushed(st), line, maxLen);
  }

  /** Chunks once emitted stay. */
  lemma {:induction false} RunMono(lines: seq<string>, n: nat, maxLen: int)
    requires n <= |lines| && Run(lines, maxLen).Some?
    ensures Run(lines[..n], maxLen).Some?
    ensures Run(lines[..n], maxLen).value.chunks <= Run(lines, maxLen).value.chunks
    decreases |lines| - n
  {
    if n == |lines| {
      assert lines[..n] == lines;
    } else {
      RunMono(lines, n + 1, maxLen);
      RunStep(lines, n, maxLen);
      AddMono(Run(lines[..n], maxLen).value, lines[n], maxLen);
    }
  }

  /** A block opened in the last runes of a chunk is closed beyond the limit. */
  lemma LateOpenerEmits(lines: seq<string>, i: nat, maxLen: int)
    requires maxLen >= 1 && RoomForLines(lines, maxLen) && i < |lines| && Opens(lines, i)
    requires HeldAfter(lines, i, maxLen) > maxLen - CLOSING_FENCE_LEN
    ensures Run(lines, maxLen).Some?
    ensures var cs := Finish(Run(lines, maxLen).value);
            exists k :: 0 <= k < |cs| && |Render(cs[k])| == HeldAfter(lines, i, maxLen) + CLOSING_FENCE_LEN
  {
    hide *;
    RunGood(lines, maxLen, maxLen);
    RunMono(lines, i + 1, maxLen);
    OpenAtPrefix(lines, i, maxLen);
    RunLen(lines[..i + 1], maxLen);
    var st := Run(lines[..i + 1], maxLen).value;
    HeldIs(lines, i, maxLen, st);
    var cs := Finish(Run(lines, maxLen).value);
    if i + 1 < |lines| { FullInside(st, lines[i + 1], maxLen); }
    var c := OpenChunkStays(lines, i, maxLen, st);
    RenderClosed(c);
    assert cs[|st.chunks|] == c;
  }

  lemma HeldIs(lines: seq<string>, i: nat, maxLen: int, st: State)
    requires i < |lines| && Extended(st.cur, 0) == Len(lines[..i + 1], maxLen)
    ensures HeldAfter(lines, i, maxLen) == |Join(Texts(st.cur))|
  {
    RunesHeld(st.cur);
    hide Len, Join, Extended;
  }

  lemma RenderClosed(c: Chunk)
    requires c.closed
    ensures |Render(c)| == |Join(Texts(c.pieces))| + CLOSING_FENCE_LEN
  {
    hide Join, Texts;
  }

  /** The chunk under construction at the end of some lines, inside a block, is emitted closed. */
  lemma OpenChunkStays(lines: seq<string>, i: nat, maxLen: int, st: State) returns (c: Chunk)
    requires i < |lines| && Run(lines[..i + 1], maxLen) == Some(st) && Run(lines, maxLen).Some?
    requires st.open != "" && st.cur != [] && (i + 1 < |lines| ==> !Fits(st, lines[i + 1], maxLen))
    ensures c == Chunk(st.cur, true)
    ensures var cs := Finish(Run(lines, maxLen).value); |st.chunks| < |cs| && cs[|st.chunks|] == c
  {
    hide *;
    c := Chunk(st.cur, true);
    var end := Run(lines, maxLen).value;
    if i + 1 == |lines| {
      assert lines[..i + 1] == lines;
      FinishOpen(st);
    } else {
      RunStep(lines, i + 1, maxLen);
      RunMono(lines, i + 2, maxLen);
      NextFlushes(st, lines[i + 1], maxLen);
      FinishMono(end);
    }
  }

  /** A chunk without room for its closing fence takes no further line. */
  lemma FullInside(st: State, line: string, maxLen: int)
    requires st.open != "" && st.cur != [] && |Join(Texts(st.cur))| > maxLen - CLOSING_FENCE_LEN
    ensures !Fits(st, line, maxLen)
  {
    hide Join, Texts;
  }

  lemma FinishOpen(st: State)
    requires st.open != "" && st.cur != []
    ensures Finish(st) == st.chunks + [Chunk(st.cur, true)]
  {
  }

  lemma FinishMono(st: State)
    ensures st.chunks <= Finish(st)
  {
  }

  lemma NextFlushes(st: State, line: string, maxLen: int)
    requires st.open != "" && st.cur != [] && !Fits(st, line, maxLen) && AddLine(st, line, maxLen).Some?
    ensures st.chunks + [Chunk(st.cur, true)] <= AddLine(st, line, maxLen).value.chunks
  {
    AddMono(st, line, maxLen);
    hide AddLine, Fits;
  }
  lemma OpenAtPrefix(lines: seq<string>, i: nat, maxLen: int)
    requires i < |lines| && Opens(lines, i) && Run(lines[..i + 1], maxLen).Some?
    ensures Run(lines[..i + 1], maxLen).value.open != "" && Run(lines[..i + 1], maxLen).value.cur != []
  {
    hide *;
    RunLen(lines[..i + 1], maxLen);
    assert lines[..i] + [lines[i]] == lines[..i + 1];
    OpenAfterSnoc(lines[..i], lines[i]);
    OpensIs(lines, i);
    FenceNotBlank(lines[i]);
  }

  lemma OpensIs(lines: seq<string>, i: nat)
    requires i < |lines| && Opens(lines, i)
    ensures IsFence(lines[i]) && OpenAfter(lines[..i]) == ""
  {
    hide IsFence, OpenAfter;
  }

  lemma FenceNotBlank(line: string)
    requires IsFence(line)
    ensures TrimSpace(line) != "" && Track("", line) == TrimSpace(line)
  {
  }

  predicate AllWithin(cs: seq<Chunk>, maxLen: int) {
    forall k :: 0 <= k < |cs| ==> |Render(cs[k])| <= maxLen
  }

  lemma NoLateOpener(cs: seq<Chunk>, maxLen: int)
    requires ChunksOk(cs, maxLen, maxLen - CLOSING_FENCE_LEN)
    ensures AllWithin(cs, maxLen)
  {
    forall k | 0 <= k < |cs|
      ensures |Render(cs[k])| <= maxLen
    {
      assert LengthOk(cs, k, maxLen, maxLen - CLOSING_FENCE_LEN);
    }
  }

  /** Exactly when every chunk keeps the documented limit: whenever a block is opened, the
      chunk under construction still has room for the closing fence. */
  lemma WithinLimitIff(text: string, maxLen: int)
    requires RoomForLines(SplitLines(text), maxLen)
    ensures SplitSpec(text, maxLen).Some?
    ensures AllWithin(SplitSpec(text, maxLen).value, maxLen)
       <==> OpenersWithin(SplitLines(text), maxLen, maxLen - CLOSING_FENCE_LEN)
  {
    hide IsFence, Good, Run, Finish, Render, HeldAfter, Opens, RoomForLines, SplitLines, ChunksOk, Lossless;
    var lines := SplitLines(text);
    FirstLineFinds(lines, maxLen);
    FinishGood(lines, maxLen, maxLen);
    if OpenersWithin(lines, maxLen, maxLen - CLOSING_FENCE_LEN) {
      FinishGood(lines, maxLen, maxLen - CLOSING_FENCE_LEN);
      NoLateOpener(Finish(Run(lines, maxLen).value), maxLen);
    } else {
      forall i: nat | i < |lines| && Opens(lines, i) && HeldAfter(lines, i, maxLen) > maxLen - CLOSING_FENCE_LEN
        ensures !AllWithin(SplitSpec(text, maxLen).value, maxLen)
      {
        LateOpenerEmits(lines, i, maxLen);
      }
    }
  }

  /** A text without code blocks keeps the documented limit. */
  lemma PlainTextWithinLimit(text: string, maxLen: int)
    requires maxLen >= 1
    requires forall i :: 0 <= i < |SplitLines(text)| ==> !IsFence(SplitLines(text)[i])
    ensures SplitSpec(text, maxLen).Some? && AllWithin(SplitSpec(text, maxLen).value, maxLen)
  {
    var lines := SplitLines(text);
    forall i | 0 <= i < |lines|
      ensures OpenAfter(lines[..i]) == ""
    {
      NoFenceNeverOpen(lines, i);
    }
    RoomEnough(lines, maxLen);
    WithinLimitIff(text, maxLen);
  }

  lemma {:induction false} NoFenceNeverOpen(lines: seq<string>, i: nat)
    requires i <= |lines| && forall j :: 0 <= j < |lines| ==> !IsFence(lines[j])
    ensures OpenAfter(lines[..i]) == ""
  {
    if i > 0 {
      NoFenceNeverOpen(lines, i - 1);
      assert lines[..i][..i - 1] == lines[..i - 1];
    }
  }

  /** The bound maxLen + 3 is reached for every limit that has room for a code block. */
  lemma BoundReached(maxLen: int) returns (text: string)
    requires maxLen >= 9
    ensures |text| > maxLen && RoomForLines(SplitLines(text), maxLen) && ShortOpeners(SplitLines(text), maxLen)
    ensures SplitSpec(text, maxLen).Some?
    ensures var cs := SplitSpec(text, maxLen).value;
            exists k :: 0 <= k < |cs| && |Render(cs[k])| == maxLen + 3
  {
    hide TrimSpace, SplitLines, IsFence;
    var a := seq(maxLen - 5, i => 'a');
    var lines := [a, FENCE, "xx"];
    text := Join(lines);
    JoinThenSplit(lines);
    LateOpenerLines(a, maxLen);
    LateOpenerEmits(lines, 1, maxLen);
  }

  lemma LateOpenerLines(a: string, maxLen: int)
    requires maxLen >= 9 && |a| == maxLen - 5 && forall i :: 0 <= i < |a| ==> a[i] == 'a'
    ensures var lines := [a, FENCE, "xx"];
            && AllOneLine(lines) && |Join(lines)| > maxLen
            && RoomForLines(lines, maxLen) && ShortOpeners(lines, maxLen)
            && Opens(lines, 1) && HeldAfter(lines, 1, maxLen) == maxLen - 1
  {
    hide TrimSpace, IsFence, Join;
    var lines := [a, FENCE, "xx"];
    PlainAndFence(a);
    JoinSnoc([a, FENCE], "xx");
    JoinSnoc([a], FENCE);
    JoinSnoc([], a);
    assert [] + [a] == [a] && [a] + [FENCE] == [a, FENCE] && [a, FENCE] + ["xx"] == lines;
    assert lines[..0] == [] && lines[..1] == [a] && lines[..2] == [a, FENCE];
    OpenAfterSnoc([], a);
    OpenAfterSnoc([a], FENCE);
    assert [a, FENCE][..1] == [a] && [a][..0] == [];
    assert Len([a], maxLen) == maxLen - 4 && Len([a, FENCE], maxLen) == maxLen;
    RoomEnough(lines, maxLen);
  }

  /** If a line that opens a block fills a chunk by itself, maxLen + 4 is reached, for every
      limit that has room for a fence. */
  lemma LongOpenerReached(maxLen: int) returns (text: string)
    requires maxLen >= 3
    ensures |text| > maxLen && RoomForLines(SplitLines(text), maxLen) && SplitSpec(text, maxLen).Some?
    ensures var cs := SplitSpec(text, maxLen).value;
            exists k :: 0 <= k < |cs| && |Render(cs[k])| == maxLen + 4
  {
    hide TrimSpace, SplitLines, IsFence;
    var opener := FENCE + seq(maxLen - 3, i => 'a');
    var lines := ["", opener];
    text := Join(lines);
    LongOpener(opener, maxLen);
    JoinSnoc([""], opener);
    JoinSnoc([], "");
    assert [] + [""] == [""] && [""] + [opener] == lines;
    JoinThenSplit(lines);
    LateOpenerEmits(lines, 1, maxLen);
  }

  lemma LongOpener(opener: string, maxLen: int)
    requires |opener| == maxLen >= 3 && FENCE <= opener && forall i :: 3 <= i < |opener| ==> opener[i] == 'a'
    ensures var lines := ["", opener];
      && AllOneLine(lines) && RoomForLines(lines, maxLen) && Opens(lines, 1) && HeldAfter(lines, 1, maxLen) == maxLen
  {
    var lines := ["", opener];
    assert opener[0] == '`' && opener[1] == '`' && opener[2] == '`';
    TrimSpaceTrimmed(opener);
    TrimSpaceBlank("");
    hide TrimSpace;
    assert lines[..0] == [] && lines[..1] == [""] && lines[..2] == lines;
    assert [""][..0] == [] && lines[..2][..1] == [""];
    EmptyLineFirst(maxLen);
    assert lines[..|lines| - 1] == [""];
    assert LastPart(maxLen, maxLen) == maxLen;
    assert Len(lines, maxLen) == LenNext(1, "", maxLen, maxLen) == maxLen + 1;
    RoomEnough(lines, maxLen);
  }

  lemma EmptyLineFirst(maxLen: int)
    requires maxLen >= 1
    ensures OpenAfter([""]) == "" && Len([""], maxLen) == 1
  {
    TrimSpaceBlank("");
    hide TrimSpace;
    assert [""][..0] == [] && OpenAfter([]) == "" && Len([], maxLen) == 0;
    assert !IsFence("");
  }

  lemma PlainAndFence(a: string)
    requires |a| > 0 && forall i :: 0 <= i < |a| ==> a[i] == 'a'
    ensures !IsFence(a) && IsFence(FENCE) && TrimSpace(FENCE) == FENCE && !IsFence("xx")
    ensures OneLine(a) && OneLine(FENCE) && OneLine("xx")
  {
    TrimSpaceTrimmed(a);
    TrimSpaceTrimmed(FENCE);
    TrimSpaceTrimmed("xx");
    assert a[0] != FENCE[0];
  }
}
