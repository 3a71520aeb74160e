/** The length of the chunk under construction, computed from the lengths of the lines and from
    the fences alone, without building any chunk (core/markdown_html.go,
    SplitMessageCodeFenceAware). */
module MessageSplitterGauge {
  import opened Text
  import opened MessageSplitter

  /** The last of the parts that a line of `n` runes is cut into. */
  function LastPart(n: nat, size: nat): nat
    requires size > 0
  {
    if n <= size then n else LastPart(n - size, size)
  }

  /** currentLen of a chunk that holds nothing but the fence it re-opens. */
  function FreshLen(open: string): nat {
    if open != "" then |open| + 1 else 0
  }

  /** currentLen after a line of `n` runes: the line joins the chunk, or starts the next one, or
      is cut up so that its last part is left in a chunk of its own. A line for which a fresh
      chunk has no room is not placed at all. */
  function LenNext(len: nat, open: string, n: nat, maxLen: int): nat {
    var limit, start := Limit(open, maxLen), FreshLen(open);
    if len + n + 1 <= limit then len + n + 1
    else if start + n + 1 <= limit then start + n + 1
    else if n == 0 || limit <= start then start
    else start + LastPart(n, limit - start) + 1
  }

  /** currentLen after all lines. */
  function Len(lines: seq<string>, maxLen: int): nat {
    if lines == [] then 0
    else
      var init := lines[..|lines| - 1];
      LenNext(Len(init, maxLen), OpenAfter(init), |lines[|lines| - 1]|, maxLen)
  }

  lemma FreshOnly(st: State)
    requires st.cur != [] || st.open == ""
    ensures Extended(Flushed(st).cur, 0) == FreshLen(st.open) && Flushed(st).open == st.open
  {
    if st.cur != [] { FlushedShows(st); }
  }

  lemma PushedLen(st: State, p: Piece)
    ensures Extended(Pushed(st, p).cur, 0) == Extended(st.cur, 0) + |p.text| + 1
    ensures Pushed(st, p).cur != [] && Pushed(st, p).open == st.open
  {
    ExtendedSnoc(st.cur, p);
  }

  /** Cutting up a line leaves its last part in a chunk of its own. */
  lemma {:induction false} InlineLen(st: State, rem: string, maxLen: int)
    requires Extended(st.cur, 0) == FreshLen(st.open) < Limit(st.open, maxLen) && rem != ""
    ensures var r := InlineParts(st, rem, maxLen);
      && r.Some? && r.value.open == st.open
      && Extended(r.value.cur, 0)
         == FreshLen(st.open) + LastPart(|rem|, Limit(st.open, maxLen) - FreshLen(st.open)) + 1
    decreases |rem|
  {
    var avail := Avail(st, maxLen);
    if avail < |rem| {
      var st1 := Pushed(st, Part(rem[..avail], false));
      FreshOnly(st1);
      InlineLen(Flushed(st1), rem[avail..], maxLen);
    } else {
      PushedLen(st, Part(rem, true));
    }
    hide Extended, Flushed;
  }

  /** A non-empty line without room in a fresh chunk is stuck. */
  lemma NoRoomStuck(st: State, rem: string, maxLen: int)
    requires st.cur != [] || st.open == ""
    requires Extended(st.cur, 0) == FreshLen(st.open) && Limit(st.open, maxLen) <= FreshLen(st.open) && rem != ""
    ensures InlineParts(st, rem, maxLen).None?
  {
    FreshOnly(st);
  }

  /** Placing a line moves currentLen as the gauge says. */
  lemma PlaceLen(st: State, line: string, maxLen: int)
    requires st.cur != [] || st.open == ""
    ensures var r := PlaceLine(st, line, maxLen);
      r.Some? ==>
        && r.value.open == st.open && (r.value.cur != [] || (st.open == "" && line == ""))
        && Extended(r.value.cur, 0) == LenNext(Extended(st.cur, 0), st.open, |line|, maxLen)
  {
    hide *;
    FreshOnly(st);
    FitsIs(st, line, maxLen);
    FitsIs(Flushed(st), line, maxLen);
    PlaceIs(st, line, maxLen);
    NextIs(Extended(st.cur, 0), st.open, |line|, maxLen);
    if Fits(st, line, maxLen) {
      PushedLen(st, Whole(line));
    } else if Fits(Flushed(st), line, maxLen) {
      PushedLen(Flushed(st), Whole(line));
    } else {
      PlaceCutLen(st, line, maxLen);
    }
  }

  lemma PlaceIs(st: State, line: string, maxLen: int)
    ensures PlaceLine(st, line, maxLen)
         == if Fits(st, line, maxLen) then Some(Pushed(st, Whole(line)))
            else if Fits(Flushed(st), line, maxLen) then Some(Pushed(Flushed(st), Whole(line)))
            else InlineParts(Flushed(st), line, maxLen)
  {
    hide Fits, Flushed, Pushed, InlineParts;
  }

  lemma NextIs(len: nat, open: string, n: nat, maxLen: int)
    ensures len + n + 1 <= Limit(open, maxLen) ==> LenNext(len, open, n, maxLen) == len + n + 1
    ensures len + n + 1 > Limit(open, maxLen) >= FreshLen(open) + n + 1 ==> LenNext(len, open, n, maxLen) == FreshLen(open) + n + 1
    ensures len + n + 1 > Limit(open, maxLen) && FreshLen(open) + n + 1 > Limit(open, maxLen) ==>
      LenNext(len, open, n, maxLen)
      == if n == 0 || Limit(open, maxLen) <= FreshLen(open) then FreshLen(open)
         else FreshLen(open) + LastPart(n, Limit(open, maxLen) - FreshLen(open)) + 1
  {
    hide LastPart, Limit, FreshLen;
  }

  lemma PlaceCutLen(st: State, line: string, maxLen: int)
    requires (st.cur != [] || st.open == "") && Extended(Flushed(st).cur, 0) == FreshLen(st.open)
    requires !Fits(st, line, maxLen) && !Fits(Flushed(st), line, maxLen)
    ensures var r := InlineParts(Flushed(st), line, maxLen);
      r.Some? ==>
        && r.value.open == st.open && (r.value.cur != [] || (st.open == "" && line == ""))
        && Extended(r.value.cur, 0)
           == if line == "" || Limit(st.open, maxLen) <= FreshLen(st.open) then FreshLen(st.open)
              else FreshLen(st.open) + LastPart(|line|, Limit(st.open, maxLen) - FreshLen(st.open)) + 1
  {
    if line == "" {
    } else if Limit(st.open, maxLen) <= FreshLen(st.open) {
      NoRoomStuck(Flushed(st), line, maxLen);
    } else {
      InlineLen(Flushed(st), line, maxLen);
    }
    hide LastPart;
  }

  lemma FitsIs(st: State, line: string, maxLen: int)
    ensures Fits(st, line, maxLen) <==> Extended(st.cur, 0) + |line| + 1 <= Limit(st.open, maxLen)
  {
  }

  /** The gauge is right about every run: it gives currentLen after any lines. */
  lemma {:induction false} RunLen(lines: seq<string>, maxLen: int)
    requires Run(lines, maxLen).Some?
    ensures var st := Run(lines, maxLen).value;
      && Extended(st.cur, 0) == Len(lines, maxLen)
      && st.open == OpenAfter(lines) && (st.cur != [] || st.open == "")
  {
    if lines != [] {
      var init, line := lines[..|lines| - 1], lines[|lines| - 1];
      RunLen(init, maxLen);
      PlaceLen(Run(init, maxLen).value, line, maxLen);
      if line == "" { TrimSpaceBlank(""); }
      hide Extended, PlaceLine, LenNext;
    }
  }

  /** What the chunk under construction holds, without a line feed at the end. */
  function Runes(len: nat): nat {
    if len == 0 then 0 else len - 1
  }

  lemma RunesHeld(ps: seq<Piece>)
    ensures |Join(Texts(ps))| == Runes(Extended(ps, 0))
  {
  }
}
