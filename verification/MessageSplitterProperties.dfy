/** What a split keeps: the original lines, the length bound, and closed code blocks. */
module MessageSplitterProperties {
  import opened Text
  import opened MessageSplitter
  import opened MessageSplitterGauge

  // ----- reading the original lines back

  /** The input lines a run of pieces holds: re-opened fences are dropped and the parts of
      a split line are put together; the second component is a line still incomplete. */
  function Recover(ps: seq<Piece>): (seq<string>, string) {
    if ps == [] then ([], "")
    else
      var (lines, pend) := Recover(ps[..|ps| - 1]);
      match ps[|ps| - 1]
      case Reseed(_) => (lines, pend)
      case Whole(t) => (lines + [pend + t], "")
      case Part(t, last) => if last then (lines + [pend + t], "") else (lines, pend + t)
  }

  function Flat(cs: seq<Chunk>): seq<Piece> {
    if cs == [] then [] else Flat(cs[..|cs| - 1]) + cs[|cs| - 1].pieces
  }

  function AllPieces(st: State): seq<Piece> {
    Flat(st.chunks) + st.cur
  }

  /** The lines completed before chunk `k`, and the part of a line already emitted. */
  function Before(cs: seq<Chunk>, k: nat): (seq<string>, string)
    requires k <= |cs|
  {
    Recover(Flat(cs[..k]))
  }

  /** The fence that is open where chunk `k` begins. */
  function OpenAt(cs: seq<Chunk>, k: nat): string
    requires k <= |cs|
  {
    OpenAfter(Before(cs, k).0)
  }

  /** A chunk that begins inside the code block `f` begins by re-opening it, and nothing
      else in it is synthetic. */
  ghost predicate SeededWith(ps: seq<Piece>, f: string) {
    && (f != "" ==> ps != [] && ps[0] == Reseed(f))
    && forall j :: 0 <= j < |ps| && ReseedAt(ps, j) ==> j == 0 && f != ""
  }

  predicate ReseedAt(ps: seq<Piece>, j: nat)
    requires j < |ps|
  {
    ps[j].Reseed?
  }

  lemma SeededSnoc(ps: seq<Piece>, p: Piece, f: string)
    requires SeededWith(ps, f) && !p.Reseed?
    ensures SeededWith(ps + [p], f)
  {
    assert forall j :: 0 <= j < |ps| ==> ReseedAt(ps + [p], j) == ReseedAt(ps, j);
  }

  /** Chunk `k` re-opens exactly the block open where it begins and is closed exactly if a
      block is open where it ends. */
  ghost predicate SelfContained(cs: seq<Chunk>, k: nat)
    requires k < |cs|
  {
    SeededWith(cs[k].pieces, OpenAt(cs, k)) && cs[k].closed == (OpenAt(cs, k + 1) != "")
  }

  /** The last line so far is complete and opens a code block. */
  ghost predicate EndsAtOpening(r: (seq<string>, string)) {
    r.1 == "" && r.0 != [] && IsFence(r.0[|r.0| - 1]) && OpenAfter(r.0) != ""
  }

  /** At most `maxLen` runes, unless the chunk ends with the line that opens a block; `cap`
      bounds what such a chunk holds before the closing fence is added. */
  ghost predicate LengthOk(cs: seq<Chunk>, k: nat, maxLen: int, cap: int)
    requires k < |cs|
  {
    || |Render(cs[k])| <= maxLen
    || (EndsAtOpening(Before(cs, k + 1)) && |Render(cs[k])| <= cap + CLOSING_FENCE_LEN)
  }

  ghost predicate ChunksOk(cs: seq<Chunk>, maxLen: int, cap: int) {
    forall k :: 0 <= k < |cs| ==> SelfContained(cs, k) && LengthOk(cs, k, maxLen, cap)
  }

  /** The invariant of a run that has consumed the lines `done` and the prefix `pend` of the next. */
  ghost predicate Good(st: State, done: seq<string>, pend: string, maxLen: int, cap: int) {
    && Recover(AllPieces(st)) == (done, pend)
    && st.open == OpenAfter(done)
    && SeededWith(st.cur, OpenAt(st.chunks, |st.chunks|))
    && ChunksOk(st.chunks, maxLen, cap)
    && (|| |Join(Texts(st.cur))| <= Limit(st.open, maxLen)
        || (EndsAtOpening((done, pend)) && |Join(Texts(st.cur))| <= cap))
  }

  /** A fresh chunk has room for the open fence, a separator, one rune and the closing fence. */
  predicate Roomy(open: string, maxLen: int) {
    maxLen >= 1 && (open != "" ==> |open| + 6 <= maxLen)
  }

  // ----- the invariant is kept by every step

  lemma FlatSnoc(cs: seq<Chunk>, c: Chunk)
    ensures Flat(cs + [c]) == Flat(cs) + c.pieces
  {
    assert (cs + [c])[..|cs|] == cs;
  }

  lemma RecoverSnoc(ps: seq<Piece>, p: Piece)
    ensures Recover(ps + [p]) ==
      match p
      case Reseed(_) => Recover(ps)
      case Whole(t) => (Recover(ps).0 + [Recover(ps).1 + t], "")
      case Part(t, last) =>
        if last then (Recover(ps).0 + [Recover(ps).1 + t], "") else (Recover(ps).0, Recover(ps).1 + t)
  {
    assert (ps + [p])[..|ps|] == ps;
  }

  lemma OpenAfterSnoc(lines: seq<string>, line: string)
    ensures OpenAfter(lines + [line]) == Track(OpenAfter(lines), line)
  {
    assert (lines + [line])[..|lines|] == lines;
  }

  lemma BeforePrefix(cs: seq<Chunk>, c: Chunk, k: nat)
    requires k <= |cs|
    ensures Before(cs + [c], k) == Before(cs, k)
  {
    assert (cs + [c])[..k] == cs[..k];
  }

  lemma BeforeEnd(cs: seq<Chunk>, c: Chunk)
    ensures Before(cs + [c], |cs|) == Recover(Flat(cs))
    ensures Before(cs + [c], |cs| + 1) == Recover(Flat(cs) + c.pieces)
  {
    assert (cs + [c])[..|cs|] == cs && (cs + [c])[..|cs| + 1] == cs + [c];
    FlatSnoc(cs, c);
  }

  /** Emitting the chunk under construction keeps what is known of the chunks. */
  lemma EmitGood(st: State, done: seq<string>, pend: string, maxLen: int, cap: int)
    requires Good(st, done, pend, maxLen, cap)
    ensures var cs := st.chunks + [Chunk(st.cur, st.open != "")];
            ChunksOk(cs, maxLen, cap) && Recover(Flat(cs)) == (done, pend)
  {
    var c := Chunk(st.cur, st.open != "");
    var cs := st.chunks + [c];
    FlatSnoc(st.chunks, c);
    BeforeEnd(st.chunks, c);
    assert st.chunks[..|st.chunks|] == st.chunks;
    forall k | 0 <= k < |cs|
      ensures SelfContained(cs, k) && LengthOk(cs, k, maxLen, cap)
    {
      if k < |st.chunks| {
        BeforePrefix(st.chunks, c, k);
        BeforePrefix(st.chunks, c, k + 1);
        assert SelfContained(st.chunks, k) && LengthOk(st.chunks, k, maxLen, cap);
      }
    }
  }

  lemma FlushGood(st: State, done: seq<string>, pend: string, maxLen: int, cap: int)
    requires Good(st, done, pend, maxLen, cap) && Roomy(st.open, maxLen)
    ensures Good(Flushed(st), done, pend, maxLen, cap)
    ensures Extended(Flushed(st).cur, 0) < Limit(st.open, maxLen)
  {
    if st.cur == [] {
      assert st.chunks[..|st.chunks|] == st.chunks;
      assert AllPieces(st) == Flat(st.chunks);
    } else {
      EmitGood(st, done, pend, maxLen, cap);
      var cs := st.chunks + [Chunk(st.cur, st.open != "")];
      assert cs[..|cs|] == cs;
      if st.open != "" {
        RecoverSnoc(Flat(cs), Reseed(st.open));
        assert Texts([Reseed(st.open)]) == [st.open];
      } else {
        assert AllPieces(Flushed(st)) == Flat(cs);
      }
    }
  }

  lemma AllPiecesPushed(st: State, p: Piece)
    ensures AllPieces(Pushed(st, p)) == AllPieces(st) + [p]
  {
  }

  /** `line` is completely placed: the invariant holds once its fence, if any, is tracked. */
  ghost predicate Placed(r: Option<State>, line: string, done: seq<string>, maxLen: int, cap: int) {
    r.Some? && Good(r.value.(open := Track(r.value.open, line)), done + [line], "", maxLen, cap)
  }

  /** Adding the rest of a line completes it. */
  lemma CompleteGood(st: State, p: Piece, done: seq<string>, pend: string, maxLen: int, cap: int)
    requires Good(st, done, pend, maxLen, cap)
    requires p.Whole? || (p.Part? && p.last)
    requires Extended(st.cur, |p.text|) <= Limit(st.open, maxLen)
    requires st.open == "" && IsFence(pend + p.text) ==> Extended(st.cur, |p.text|) <= cap
    ensures Placed(Some(Pushed(st, p)), pend + p.text, done, maxLen, cap)
  {
    var line := pend + p.text;
    SeededSnoc(st.cur, p, OpenAt(st.chunks, |st.chunks|));
    AllPiecesPushed(st, p);
    RecoverSnoc(AllPieces(st), p);
    OpenAfterSnoc(done, line);
    ExtendedSnoc(st.cur, p);
    assert (done + [line])[|done|] == line;
  }

  lemma ReadyGood(st: State, done: seq<string>, pend: string, maxLen: int, cap: int)
    requires Good(st, done, pend, maxLen, cap) && Roomy(st.open, maxLen)
    ensures Good(Ready(st, maxLen), done, pend, maxLen, cap)
    ensures Ready(st, maxLen).open == st.open && Avail(Ready(st, maxLen), maxLen) > 0
  {
    FlushGood(st, done, pend, maxLen, cap);
  }

  lemma OnePartGood(st: State, t: string, done: seq<string>, pend: string, maxLen: int, cap: int)
    requires Good(st, done, pend, maxLen, cap) && Roomy(st.open, maxLen)
    requires Extended(st.cur, |t|) <= Limit(st.open, maxLen)
    ensures Good(AfterPart(st, t), done, pend + t, maxLen, cap) && AfterPart(st, t).open == st.open
  {
    var p := Part(t, false);
    SeededSnoc(st.cur, p, OpenAt(st.chunks, |st.chunks|));
    AllPiecesPushed(st, p);
    RecoverSnoc(AllPieces(st), p);
    ExtendedSnoc(st.cur, p);
    FlushGood(Pushed(st, p), done, pend + t, maxLen, cap);
  }

  lemma Regroup(pend: string, rem: string, n: nat)
    requires n <= |rem|
    ensures pend + rem[..n] + rem[n..] == pend + rem
  {
    assert rem == rem[..n] + rem[n..];
  }

  /** Splitting within a line neither gets stuck nor loses a rune. */
  lemma {:induction false} InlineGood(
      st: State, pend: string, rem: string, done: seq<string>, maxLen: int, cap: int, r: Option<State>)
    requires r == InlineParts(st, rem, maxLen)
    requires Good(st, done, pend, maxLen, cap) && Roomy(st.open, maxLen) && rem != ""
    requires st.open == "" && IsFence(pend + rem) ==> maxLen <= cap || (r.Some? ==> |Join(Texts(r.value.cur))| <= cap)
    ensures Placed(r, pend + rem, done, maxLen, cap)
    decreases |rem|
  {
    ReadyGood(st, done, pend, maxLen, cap);
    var st1 := Ready(st, maxLen);
    var avail := Avail(st1, maxLen);
    if avail < |rem| {
      OnePartGood(st1, rem[..avail], done, pend, maxLen, cap);
      Regroup(pend, rem, avail);
      InlineGood(AfterPart(st1, rem[..avail]), pend + rem[..avail], rem[avail..], done, maxLen, cap, r);
    } else {
      ExtendedSnoc(st1.cur, Part(rem, true));
      CompleteGood(st1, Part(rem, true), done, pend, maxLen, cap);
    }
  }

  lemma PlaceLineGood(st: State, line: string, done: seq<string>, maxLen: int, cap: int)
    requires Good(st, done, "", maxLen, cap) && (Roomy(st.open, maxLen) || Fits(st, line, maxLen))
    requires var r := PlaceLine(st, line, maxLen);
             st.open == "" && IsFence(line) ==> maxLen <= cap || (r.Some? ==> |Join(Texts(r.value.cur))| <= cap)
    ensures Placed(PlaceLine(st, line, maxLen), line, done, maxLen, cap)
  {
    assert "" + line == line;
    if Fits(st, line, maxLen) {
      ExtendedSnoc(st.cur, Whole(line));
      CompleteGood(st, Whole(line), done, "", maxLen, cap);
    } else {
      FlushGood(st, done, "", maxLen, cap);
      var st1 := Flushed(st);
      if Fits(st1, line, maxLen) {
        ExtendedSnoc(st1.cur, Whole(line));
        CompleteGood(st1, Whole(line), done, "", maxLen, cap);
      } else {
        FlushedFresh(st, done, maxLen, cap);
        InlineGood(st1, "", line, done, maxLen, cap, InlineParts(st1, line, maxLen));
      }
    }
  }

  lemma FlushedFresh(st: State, done: seq<string>, maxLen: int, cap: int)
    requires Good(st, done, "", maxLen, cap)
    ensures Flushed(st).cur == if st.open != "" then [Reseed(st.open)] else []
  {
    assert st.chunks[..|st.chunks|] == st.chunks;
    if st.cur == [] {
      assert AllPieces(st) == Flat(st.chunks);
    }
  }

  // ----- whole texts

  /** The line finds room: beside its fence in a fresh chunk, or else in the chunk under
      construction, which `len` measures. */
  predicate Finds(open: string, len: nat, n: nat, maxLen: int) {
    Roomy(open, maxLen) || len + n + 1 <= Limit(open, maxLen)
  }

  /** Every line finds room. */
  predicate RoomForLines(lines: seq<string>, maxLen: int) {
    forall i :: 0 <= i < |lines| ==> Finds(OpenAfter(lines[..i]), Len(lines[..i], maxLen), |lines[i]|, maxLen)
  }

  /** Every line inside a code block finds room for its fence, a rune and the closing fence. */
  predicate RoomInBlocks(lines: seq<string>, maxLen: int) {
    forall i :: 0 <= i < |lines| ==> Roomy(OpenAfter(lines[..i]), maxLen)
  }

  lemma RoomEnough(lines: seq<string>, maxLen: int)
    requires RoomInBlocks(lines, maxLen)
    ensures RoomForLines(lines, maxLen)
  {
    hide Roomy, OpenAfter, Len;
  }

  /** Line `i` opens a code block. */
  predicate Opens(lines: seq<string>, i: nat)
    requires i < |lines|
  {
    IsFence(lines[i]) && OpenAfter(lines[..i]) == ""
  }

  /** Lines that open a block are shorter than a chunk. */
  predicate ShortOpeners(lines: seq<string>, maxLen: int) {
    forall i :: 0 <= i < |lines| && Opens(lines, i) ==> |lines[i]| < maxLen
  }

  /** What the chunk under construction holds right after line `i` was added, by the gauge. */
  function HeldAfter(lines: seq<string>, i: nat, maxLen: int): nat
    requires i < |lines|
  {
    Runes(Len(lines[..i + 1], maxLen))
  }

  /** No opening line takes its chunk over `cap` runes. */
  predicate OpenersWithin(lines: seq<string>, maxLen: int, cap: int) {
    forall i :: 0 <= i < |lines| && Opens(lines, i) ==> HeldAfter(lines, i, maxLen) <= cap
  }

  lemma RoomPrefix(lines: seq<string>, n: nat, maxLen: int)
    requires n < |lines| && maxLen >= 1 && RoomForLines(lines, maxLen)
    ensures RoomForLines(lines[..n], maxLen) && Finds(OpenAfter(lines[..n]), Len(lines[..n], maxLen), |lines[n]|, maxLen)
    ensures forall cap :: OpenersWithin(lines, maxLen, cap) ==> OpenersWithin(lines[..n], maxLen, cap)
    ensures ShortOpeners(lines, maxLen) ==> ShortOpeners(lines[..n], maxLen)
  {
    hide Finds, OpenAfter, Len, IsFence;
    forall i | 0 <= i <= n
      ensures lines[..n][..i] == lines[..i]
    {
    }
    forall i: nat | i < n
      ensures Opens(lines[..n], i) == Opens(lines, i) && HeldAfter(lines[..n], i, maxLen) == HeldAfter(lines, i, maxLen)
    {
      assert lines[..n][..i] == lines[..i] && lines[..n][..i + 1] == lines[..i + 1];
    }
  }

  /** A line finds room exactly as the code sees it. */
  lemma FindsRoom(lines: seq<string>, line: string, maxLen: int)
    requires Run(lines, maxLen).Some?
    ensures var st := Run(lines, maxLen).value;
      Finds(OpenAfter(lines), Len(lines, maxLen), |line|, maxLen) <==> Roomy(st.open, maxLen) || Fits(st, line, maxLen)
  {
    RunLen(lines, maxLen);
    FitsIs(Run(lines, maxLen).value, line, maxLen);
    hide Fits, Roomy, Extended, Len, Run;
  }

  lemma {:induction false} RunGood(lines: seq<string>, maxLen: int, cap: int)
    requires maxLen >= 1 && RoomForLines(lines, maxLen)
    requires maxLen <= cap || OpenersWithin(lines, maxLen, cap)
    ensures Run(lines, maxLen).Some?
    ensures Good(Run(lines, maxLen).value, lines, "", maxLen, cap)
  {
    if lines != [] {
      var n := |lines| - 1;
      RoomPrefix(lines, n, maxLen);
      RunGood(lines[..n], maxLen, cap);
      hide *;
      FindsRoom(lines[..n], lines[n], maxLen);
      RunGoodStep(lines, Run(lines[..n], maxLen).value, maxLen, cap);
    }
  }

  lemma RunGoodStep(lines: seq<string>, st: State, maxLen: int, cap: int)
    requires lines != [] && Run(lines[..|lines| - 1], maxLen) == Some(st)
    requires Good(st, lines[..|lines| - 1], "", maxLen, cap)
    requires Roomy(st.open, maxLen) || Fits(st, lines[|lines| - 1], maxLen)
    requires maxLen <= cap || OpenersWithin(lines, maxLen, cap)
    ensures Run(lines, maxLen).Some? && Good(Run(lines, maxLen).value, lines, "", maxLen, cap)
  {
    hide IsFence, ChunksOk, SeededWith, Recover, Fits, Roomy, PlaceLine, Len;
    var n := |lines| - 1;
    assert lines[..n + 1] == lines && lines[..n] + [lines[n]] == lines;
    assert maxLen > cap && Opens(lines, n) ==> HeldAfter(lines, n, maxLen) <= cap;
    if Run(lines, maxLen).Some? {
      RunLen(lines, maxLen);
      RunesHeld(Run(lines, maxLen).value.cur);
    }
    PlaceLineGood(st, lines[n], lines[..n], maxLen, cap);
  }

  /** An opening line shorter than a chunk leaves at least one rune of slack. */
  lemma ShortOpenersWithin(lines: seq<string>, maxLen: int)
    requires maxLen >= 1 && ShortOpeners(lines, maxLen)
    ensures OpenersWithin(lines, maxLen, maxLen - 1)
  {
    hide IsFence;
    forall i | 0 <= i < |lines| && Opens(lines, i)
      ensures HeldAfter(lines, i, maxLen) <= maxLen - 1
    {
      assert lines[..i + 1][..i] == lines[..i];
    }
  }

  /** The chunks hold the original lines in order, nothing lost, added or reordered. */
  ghost predicate Lossless(r: Option<seq<Chunk>>, lines: seq<string>) {
    r.Some? && Recover(Flat(r.value)) == (lines, "")
  }

  lemma FinishGood(lines: seq<string>, maxLen: int, cap: int)
    requires maxLen >= 1 && RoomForLines(lines, maxLen)
    requires maxLen <= cap || OpenersWithin(lines, maxLen, cap)
    ensures var st := Run(lines, maxLen);
            && st.Some?
            && Lossless(Some(Finish(st.value)), lines)
            && ChunksOk(Finish(st.value), maxLen, cap)
  {
    RunGood(lines, maxLen, cap);
    var st := Run(lines, maxLen).value;
    if st.cur == [] {
      assert Finish(st) == st.chunks && AllPieces(st) == Flat(st.chunks);
    } else {
      EmitGood(st, lines, "", maxLen, cap);
    }
  }

  /** Only a limit of at least one rune has room for the first line. */
  lemma FirstLineFinds(lines: seq<string>, maxLen: int)
    requires lines != [] && RoomForLines(lines, maxLen)
    ensures maxLen >= 1
  {
    assert lines[..0] == [] && Finds(OpenAfter(lines[..0]), Len(lines[..0], maxLen), |lines[0]|, maxLen);
  }

  /** The length promise. Every chunk has at most `maxLen` runes unless it ends at the line
      that opens a code block; then the closing fence takes it to at most maxLen + 3, or to
      maxLen + 4 if an opening line is itself too long for a chunk. */
  lemma ChunkLengths(text: string, maxLen: int)
    requires RoomForLines(SplitLines(text), maxLen)
    ensures SplitSpec(text, maxLen).Some?
    ensures var cs := SplitSpec(text, maxLen).value;
            forall k :: 0 <= k < |cs| ==>
              && |Render(cs[k])| <= maxLen + (if ShortOpeners(SplitLines(text), maxLen) then 3 else 4)
              && (EndsAtOpening(Before(cs, k + 1)) || |Render(cs[k])| <= maxLen)
  {
    var lines := SplitLines(text);
    FirstLineFinds(lines, maxLen);
    var cap := if ShortOpeners(lines, maxLen) then maxLen - 1 else maxLen;
    if ShortOpeners(lines, maxLen) { ShortOpenersWithin(lines, maxLen); }
    FinishGood(lines, maxLen, cap);
    var cs := SplitSpec(text, maxLen).value;
    forall k | 0 <= k < |cs|
      ensures |Render(cs[k])| <= cap + 4 && (EndsAtOpening(Before(cs, k + 1)) || |Render(cs[k])| <= maxLen)
    {
      assert LengthOk(cs, k, maxLen, cap);
    }
  }

  /** Code blocks stay closed across chunks: each chunk re-opens what was open before it,
      closes what is open after it, and adds nothing else. */
  lemma ChunksSelfContained(text: string, maxLen: int)
    requires RoomForLines(SplitLines(text), maxLen)
    ensures SplitSpec(text, maxLen).Some?
    ensures var cs := SplitSpec(text, maxLen).value;
            forall k :: 0 <= k < |cs| ==> SelfContained(cs, k)
  {
    FirstLineFinds(SplitLines(text), maxLen);
    FinishGood(SplitLines(text), maxLen, maxLen);
  }

  // ----- exactly when a split is lossless

  /** If no chunk can hold a rune, no line is ever kept. */
  lemma {:induction false} NothingKept(lines: seq<string>, maxLen: int)
    requires maxLen <= 0
    ensures Run(lines, maxLen).None? || Run(lines, maxLen) == Some(State([], [], ""))
  {
    if lines != [] {
      var line := lines[|lines| - 1];
      NothingKept(lines[..|lines| - 1], maxLen);
      if line == "" {
        TrimSpaceBlank("");
      }
    }
  }

  /** The lines recovered never outnumber the lines consumed. */
  lemma {:induction false} InlineCount(st: State, rem: string, maxLen: int)
    requires InlineParts(st, rem, maxLen).Some?
    ensures var st' := InlineParts(st, rem, maxLen).value;
            Recovered(st') == Recovered(st) + (if rem == "" then 0 else 1)
    decreases |rem|
  {
    if rem != "" {
      FlushCount(st);
      var st1 := Ready(st, maxLen);
      var avail := Avail(st1, maxLen);
      if avail < |rem| {
        var part := rem[..avail];
        PushCount(st1, Part(part, false));
        FlushCount(Pushed(st1, Part(part, false)));
        InlineCount(AfterPart(st1, part), rem[avail..], maxLen);
      } else {
        PushCount(st1, Part(rem, true));
      }
    }
  }

  function Recovered(st: State): nat {
    |Recover(AllPieces(st)).0|
  }

  lemma PushCount(st: State, p: Piece)
    requires !p.Reseed?
    ensures Recovered(Pushed(st, p)) == Recovered(st) + (if p.Part? && !p.last then 0 else 1)
  {
    AllPiecesPushed(st, p);
    RecoverSnoc(AllPieces(st), p);
  }

  lemma FlushCount(st: State)
    ensures Recovered(Flushed(st)) == Recovered(st)
  {
    if st.cur != [] {
      var c := Chunk(st.cur, st.open != "");
      FlatSnoc(st.chunks, c);
      RecoverSnoc(Flat(st.chunks + [c]), Reseed(st.open));
      assert AllPieces(st.(chunks := st.chunks + [c], cur := [])) == Flat(st.chunks + [c]);
    }
  }

  lemma AddLineCount(st: State, line: string, maxLen: int)
    requires AddLine(st, line, maxLen).Some?
    ensures Recovered(AddLine(st, line, maxLen).value) <= Recovered(st) + 1
    ensures !Fits(st, line, maxLen) && !Fits(Flushed(st), line, maxLen) && line == "" ==>
      Recovered(AddLine(st, line, maxLen).value) == Recovered(st)
  {
    FlushCount(st);
    var st1 := Flushed(st);
    if Fits(st, line, maxLen) {
      PushCount(st, Whole(line));
    } else if Fits(st1, line, maxLen) {
      PushCount(st1, Whole(line));
    } else {
      InlineCount(st1, line, maxLen);
    }
    var st2 := PlaceLine(st, line, maxLen).value;
    assert AllPieces(st2.(open := Track(st2.open, line))) == AllPieces(st2);
  }

  lemma {:induction false} RunCount(lines: seq<string>, n: nat, maxLen: int, st: State, end: State)
    requires n <= |lines| && Run(lines[..n], maxLen) == Some(st) && Run(lines, maxLen) == Some(end)
    ensures Recovered(end) <= Recovered(st) + |lines| - n
    decreases |lines| - n
  {
    if n == |lines| {
      assert lines[..n] == lines;
    } else {
      RunStep(lines, n, maxLen);
      if Run(lines[..n + 1], maxLen).None? {
        StuckStays(lines, n + 1, maxLen);
      }
      AddLineCount(st, lines[n], maxLen);
      RunCount(lines, n + 1, maxLen, Run(lines[..n + 1], maxLen).value, end);
    }
  }

  lemma RunStep(lines: seq<string>, n: nat, maxLen: int)
    requires n < |lines|
    ensures Run(lines[..n + 1], maxLen) ==
      match Run(lines[..n], maxLen) case None => None case Some(st) => AddLine(st, lines[n], maxLen)
  {
    assert lines[..n + 1][..n] == lines[..n];
  }

  /** The first line that finds no room. */
  lemma {:induction false} FirstTight(lines: seq<string>, maxLen: int) returns (i: nat)
    requires !RoomForLines(lines, maxLen)
    ensures i < |lines| && RoomForLines(lines[..i], maxLen)
    ensures !Finds(OpenAfter(lines[..i]), Len(lines[..i], maxLen), |lines[i]|, maxLen)
  {
    hide Finds, OpenAfter, Len;
    var n := |lines| - 1;
    assert forall j :: 0 <= j <= n ==> lines[..n][..j] == lines[..j];
    if RoomForLines(lines[..n], maxLen) {
      i := n;
    } else {
      i := FirstTight(lines[..n], maxLen);
    }
  }

  lemma TrimShorter(s: string)
    ensures |TrimSpace(s)| <= |s|
  {
    var a, b := TrimSpaceSlice(s);
  }

  /** A line without room is either dropped, if it is empty, or stops the split. */
  lemma TightLine(lines: seq<string>, i: nat, maxLen: int)
    requires maxLen >= 1 && i < |lines| && RoomForLines(lines[..i], maxLen)
    requires !Finds(OpenAfter(lines[..i]), Len(lines[..i], maxLen), |lines[i]|, maxLen)
    ensures Run(lines[..i], maxLen).Some?
    ensures var st := Run(lines[..i], maxLen).value;
            && !Fits(st, lines[i], maxLen) && !Fits(Flushed(st), lines[i], maxLen)
            && (lines[i] != "" ==> AddLine(st, lines[i], maxLen).None?)
  {
    hide *;
    RunGood(lines[..i], maxLen, maxLen);
    FindsRoom(lines[..i], lines[i], maxLen);
    RunLen(lines[..i], maxLen);
    TightPlace(Run(lines[..i], maxLen).value, lines[i], maxLen);
  }

  lemma TightPlace(st: State, line: string, maxLen: int)
    requires maxLen >= 1 && !Roomy(st.open, maxLen) && !Fits(st, line, maxLen) && (st.cur != [] || st.open == "")
    ensures !Fits(Flushed(st), line, maxLen) && (line != "" ==> AddLine(st, line, maxLen).None?)
  {
    FreshOnly(st);
    FitsIs(Flushed(st), line, maxLen);
    assert Flushed(st).cur != [];
    if line != "" { NoRoomStuck(Flushed(st), line, maxLen); }
    hide InlineParts, Fits;
  }

  /** Exactly when a split is lossless: every line finds room, in a fresh chunk beside the fence
      of its block or else in the chunk under construction. */
  lemma LosslessIff(text: string, maxLen: int)
    ensures Lossless(SplitSpec(text, maxLen), SplitLines(text)) <==> RoomForLines(SplitLines(text), maxLen)
  {
    var lines := SplitLines(text);
    if RoomForLines(lines, maxLen) {
      FirstLineFinds(lines, maxLen);
      FinishGood(lines, maxLen, maxLen);
    } else if maxLen <= 0 {
      NothingKept(lines, maxLen);
    } else {
      TightLoses(lines, maxLen);
    }
  }

  lemma TightLoses(lines: seq<string>, maxLen: int)
    requires maxLen >= 1 && !RoomForLines(lines, maxLen)
    ensures Run(lines, maxLen).Some? ==> |Recover(Flat(Finish(Run(lines, maxLen).value))).0| < |lines|
  {
    hide RoomForLines, Finds, Len, OpenAfter, Flat, Recover, Finish, Fits, Flushed, PlaceLine;
    var i := FirstTight(lines, maxLen);
    TightLine(lines, i, maxLen);
    RunStep(lines, i, maxLen);
    if lines[i] != "" {
      StuckStays(lines, i + 1, maxLen);
    } else if Run(lines, maxLen).Some? {
      if Run(lines[..i + 1], maxLen).None? { StuckStays(lines, i + 1, maxLen); }
      var st := Run(lines, maxLen).value;
      RoomGoodCount(lines, i, maxLen);
      RunCount(lines, i + 1, maxLen, Run(lines[..i + 1], maxLen).value, st);
      AddLineCount(Run(lines[..i], maxLen).value, lines[i], maxLen);
      FinishCount(st);
    }
  }

  lemma RoomGoodCount(lines: seq<string>, i: nat, maxLen: int)
    requires i <= |lines| && maxLen >= 1 && RoomForLines(lines[..i], maxLen)
    ensures Run(lines[..i], maxLen).Some? && Recovered(Run(lines[..i], maxLen).value) == i
  {
    RunGood(lines[..i], maxLen, maxLen);
  }

  lemma FinishCount(st: State)
    ensures |Recover(Flat(Finish(st))).0| == Recovered(st)
  {
    if st.cur == [] {
      assert AllPieces(st) == Flat(st.chunks);
    } else {
      FlatSnoc(st.chunks, Chunk(st.cur, st.open != ""));
    }
  }

  /** With opening lines shorter than a chunk, the condition is one on fences alone: every line
      of a block finds room for the fence, a rune and the closing fence. */
  lemma RoomInBlocksIff(lines: seq<string>, maxLen: int)
    requires maxLen >= 1 && ShortOpeners(lines, maxLen)
    ensures RoomForLines(lines, maxLen) <==> RoomInBlocks(lines, maxLen)
  {
    if RoomInBlocks(lines, maxLen) {
      RoomEnough(lines, maxLen);
    } else {
      var i := FirstNarrow(lines, maxLen);
      NarrowFindsNone(lines, i, maxLen);
    }
  }

  lemma {:induction false} FirstNarrow(lines: seq<string>, maxLen: int) returns (i: nat)
    requires !RoomInBlocks(lines, maxLen)
    ensures i < |lines| && RoomInBlocks(lines[..i], maxLen) && !Roomy(OpenAfter(lines[..i]), maxLen)
  {
    hide Roomy, OpenAfter;
    var n := |lines| - 1;
    assert forall j :: 0 <= j <= n ==> lines[..n][..j] == lines[..j];
    if RoomInBlocks(lines[..n], maxLen) {
      i := n;
    } else {
      i := FirstNarrow(lines[..n], maxLen);
    }
  }

  /** The line behind an opening line finds no room once the fence is too long for a chunk. */
  lemma NarrowFindsNone(lines: seq<string>, i: nat, maxLen: int)
    requires maxLen >= 1 && i < |lines| && ShortOpeners(lines, maxLen)
    requires RoomInBlocks(lines[..i], maxLen) && !Roomy(OpenAfter(lines[..i]), maxLen)
    ensures !Finds(OpenAfter(lines[..i]), Len(lines[..i], maxLen), |lines[i]|, maxLen)
  {
    var j := i - 1;
    assert lines[..i][..j] == lines[..j];
    OpenAfterSnoc(lines[..j], lines[j]);
    assert lines[..j] + [lines[j]] == lines[..i];
    assert Roomy(OpenAfter(lines[..i][..j]), maxLen);
    assert Opens(lines, j);
    TrimShorter(lines[j]);
    assert Len(lines[..i], maxLen) == LenNext(Len(lines[..j], maxLen), "", |lines[j]|, maxLen);
  }
}
