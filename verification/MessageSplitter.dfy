/** Splitting a message into chunks without tearing code blocks apart
    (core/markdown_html.go, SplitMessageCodeFenceAware). */
module MessageSplitter {
  import opened Text

  // The specification keeps, for every chunk, the pieces it was built from and measures the
  // text a chunk really holds. The class below runs on strings and on the running counter
  // currentLen, which is one more than that length.

  const FENCE := "```"
  const CLOSING_FENCE := "\n```"
  const CLOSING_FENCE_LEN := 4

  predicate IsFence(line: string) {
    FENCE <= TrimSpace(line)
  }

  /** The open fence line after `line`; "" means outside any code block. */
  function Track(open: string, line: string): string {
    if !IsFence(line) then open else if open != "" then "" else TrimSpace(line)
  }

  function OpenAfter(lines: seq<string>): string {
    if lines == [] then "" else Track(OpenAfter(lines[..|lines| - 1]), lines[|lines| - 1])
  }

  // ----- specification state

  /** What a line of a chunk is: a re-opened fence, a whole input line, or a part of one. */
  datatype Piece = Reseed(text: string) | Whole(text: string) | Part(text: string, last: bool)

  datatype Chunk = Chunk(pieces: seq<Piece>, closed: bool)

  datatype State = State(chunks: seq<Chunk>, cur: seq<Piece>, open: string)

  function Texts(ps: seq<Piece>): (r: seq<string>)
    ensures |r| == |ps|
  {
    if ps == [] then [] else Texts(ps[..|ps| - 1]) + [ps[|ps| - 1].text]
  }

  function Render(c: Chunk): string {
    if c.closed then Join(Texts(c.pieces)) + CLOSING_FENCE else Join(Texts(c.pieces))
  }

  function RenderAll(cs: seq<Chunk>): (r: seq<string>)
    ensures |r| == |cs|
  {
    if cs == [] then [] else RenderAll(cs[..|cs| - 1]) + [Render(cs[|cs| - 1])]
  }

  /** Runes of the chunk under construction once a line of `n` runes is added to it. */
  function Extended(ps: seq<Piece>, n: nat): nat {
    if ps == [] then n else |Join(Texts(ps))| + 1 + n
  }

  function Limit(open: string, maxLen: int): int {
    if open != "" then maxLen - CLOSING_FENCE_LEN else maxLen
  }

  predicate Fits(st: State, line: string, maxLen: int) {
    Extended(st.cur, |line|) < Limit(st.open, maxLen)
  }

  function Pushed(st: State, p: Piece): State {
    st.(cur := st.cur + [p])
  }

  function Flushed(st: State): State {
    if st.cur == [] then st
    else State(st.chunks + [Chunk(st.cur, st.open != "")], if st.open != "" then [Reseed(st.open)] else [], st.open)
  }

  /** Runes that can still join the chunk under construction. */
  function Avail(st: State, maxLen: int): int {
    Limit(st.open, maxLen) - Extended(st.cur, 0)
  }

  /** A chunk that is already full is flushed before a line is split into it. */
  function Ready(st: State, maxLen: int): State {
    if Avail(st, maxLen) <= 0 then Flushed(st) else st
  }

  function AfterPart(st: State, part: string): State {
    Flushed(Pushed(st, Part(part, false)))
  }

  /** Splits one over-long line. `None`: not even one rune fits into a fresh chunk, where
      the code slices with a negative bound or spins without consuming anything. */
  function InlineParts(st: State, rem: string, maxLen: int): Option<State>
    decreases |rem|
  {
    if rem == "" then Some(st)
    else
      var st1 := Ready(st, maxLen);
      var avail := Avail(st1, maxLen);
      if avail <= 0 then None
      else if avail < |rem| then InlineParts(AfterPart(st1, rem[..avail]), rem[avail..], maxLen)
      else Some(Pushed(st1, Part(rem, true)))
  }

  function PlaceLine(st: State, line: string, maxLen: int): Option<State> {
    if Fits(st, line, maxLen) then Some(Pushed(st, Whole(line)))
    else
      var st1 := Flushed(st);
      if Fits(st1, line, maxLen) then Some(Pushed(st1, Whole(line))) else InlineParts(st1, line, maxLen)
  }

  function AddLine(st: State, line: string, maxLen: int): Option<State> {
    match PlaceLine(st, line, maxLen)
    case None => None
    case Some(st1) => Some(st1.(open := Track(st1.open, line)))
  }

  function Run(lines: seq<string>, maxLen: int): Option<State> {
    if lines == [] then Some(State([], [], ""))
    else match Run(lines[..|lines| - 1], maxLen)
      case None => None
      case Some(st) => AddLine(st, lines[|lines| - 1], maxLen)
  }

  function Finish(st: State): seq<Chunk> {
    if st.cur == [] then st.chunks else st.chunks + [Chunk(st.cur, st.open != "")]
  }

  /** The chunks of a text that is longer than `maxLen`. */
  function SplitSpec(text: string, maxLen: int): Option<seq<Chunk>> {
    match Run(SplitLines(text), maxLen)
    case None => None
    case Some(st) => Some(Finish(st))
  }

  /** The length accounting: adding a text of n runes costs n + 1, whatever the chunk holds. */
  lemma ExtendedSnoc(ps: seq<Piece>, p: Piece)
    ensures Texts(ps + [p]) == Texts(ps) + [p.text]
    ensures |Join(Texts(ps + [p]))| == Extended(ps, |p.text|)
    ensures Extended(ps + [p], 0) == Extended(ps, 0) + |p.text| + 1
  {
    assert (ps + [p])[..|ps|] == ps;
    JoinSnoc(Texts(ps), p.text);
  }

  lemma FlushedNothing(st: State)
    ensures st.cur == [] ==> Flushed(st) == st
  {
  }

  lemma RenderIs(ps: seq<Piece>, closed: bool)
    ensures Render(Chunk(ps, closed)) == if closed then Join(Texts(ps)) + CLOSING_FENCE else Join(Texts(ps))
  {
  }

  lemma FlushedShows(st: State)
    requires st.cur != []
    ensures RenderAll(Flushed(st).chunks) == RenderAll(st.chunks) + [Render(Chunk(st.cur, st.open != ""))]
    ensures Texts(Flushed(st).cur) == if st.open != "" then [st.open] else []
    ensures Extended(Flushed(st).cur, 0) == if st.open != "" then |st.open| + 1 else 0
    ensures Flushed(st).open == st.open
  {
    RenderAllSnoc(st.chunks, Chunk(st.cur, st.open != ""));
    ExtendedSnoc([], Reseed(st.open));
    assert [] + [Reseed(st.open)] == [Reseed(st.open)];
  }

  // ----- the imperative splitter

  datatype Outcome = Chunks(chunks: seq<string>) | Stuck

  /** The variables the closures of SplitMessageCodeFenceAware share. */
  class Splitter {
    const maxLen: int
    var chunks: seq<string>
    var current: seq<string>
    var currentLen: int
    var openFence: string
    ghost var st: State

    ghost predicate Valid()
      reads this
    {
      && chunks == RenderAll(st.chunks)
      && current == Texts(st.cur)
      && currentLen == Extended(st.cur, 0)
      && openFence == st.open
    }

    constructor (maxLen: int)
      ensures Valid() && st == State([], [], "") && this.maxLen == maxLen
    {
      this.maxLen := maxLen;
      chunks, current, currentLen, openFence := [], [], 0, "";
      st := State([], [], "");
    }

    method EffectiveLimit() returns (limit: int)
      requires Valid()
      ensures limit == Limit(st.open, maxLen)
    {
      limit := if openFence != "" then maxLen - CLOSING_FENCE_LEN else maxLen;
    }

    method Append(p: Piece)
      requires Valid()
      modifies this
      ensures Valid() && st == Pushed(old(st), p)
    {
      ExtendedSnoc(st.cur, p);
      current := current + [p.text];
      currentLen := currentLen + |p.text| + 1;
      st := Pushed(st, p);
    }

    method Flush()
      requires Valid()
      modifies this
      ensures Valid() && st == Flushed(old(st))
    {
      FlushedNothing(st);
      hide Join, Texts, RenderAll, Extended, Render, Flushed;
      if |current| == 0 { return; }
      FlushedShows(st);
      RenderIs(st.cur, st.open != "");
      var chunk := Join(current);
      if openFence != "" {
        chunk := chunk + CLOSING_FENCE;
        current, currentLen := [openFence], |openFence| + 1;
      } else {
        current, currentLen := [], 0;
      }
      chunks := chunks + [chunk];
      st := Flushed(st);
    }

    /** The runes that fit; a full chunk is flushed first. */
    method MakeRoom() returns (avail: int)
      requires Valid()
      modifies this
      ensures Valid() && st == Ready(old(st), maxLen)
      ensures avail == Avail(st, maxLen)
    {
      var limit := EffectiveLimit();
      avail := limit - currentLen;
      if avail <= 0 {
        Flush();
        limit := EffectiveLimit();
        avail := limit - currentLen;
      }
    }

    method SplitWithinLine(line: string) returns (stuck: bool)
      requires Valid()
      modifies this
      ensures Valid()
      ensures match InlineParts(old(st), line, maxLen) case None => stuck case Some(s) => !stuck && st == s
    {
      var remaining := line;
      while |remaining| > 0
        invariant Valid()
        invariant InlineParts(st, remaining, maxLen) == InlineParts(old(st), line, maxLen)
        decreases |remaining|
      {
        var avail := MakeRoom();
        if avail <= 0 { return true; }
        if avail > |remaining| {
          avail := |remaining|;
        }
        assert avail == |remaining| ==> remaining[..avail] == remaining;
        Append(Part(remaining[..avail], avail == |remaining|));
        remaining := remaining[avail..];
        if |remaining| > 0 {
          Flush();
        }
      }
      return false;
    }

    method Place(line: string) returns (stuck: bool)
      requires Valid()
      modifies this
      ensures Valid()
      ensures match PlaceLine(old(st), line, maxLen) case None => stuck case Some(s) => !stuck && st == s
    {
      var limit := EffectiveLimit();
      if currentLen + |line| + 1 <= limit {
        Append(Whole(line));
        return false;
      }
      Flush();
      limit := EffectiveLimit();
      if currentLen + |line| + 1 <= limit {
        Append(Whole(line));
        return false;
      }
      stuck := SplitWithinLine(line);
    }

    method Add(line: string) returns (stuck: bool)
      requires Valid()
      modifies this
      ensures Valid()
      ensures match AddLine(old(st), line, maxLen) case None => stuck case Some(s) => !stuck && st == s
    {
      stuck := Place(line);
      if stuck { return; }
      var trimmed := TrimSpace(line);
      if FENCE <= trimmed {
        if openFence != "" {
          openFence := "";
        } else {
          openFence := trimmed;
        }
      }
      st := st.(open := openFence);
    }

    method Rest() returns (all: seq<string>)
      requires Valid()
      ensures all == RenderAll(Finish(st))
    {
      all := chunks;
      if |current| > 0 {
        var chunk := Join(current);
        if openFence != "" {
          chunk := chunk + CLOSING_FENCE;
        }
        RenderAllSnoc(st.chunks, Chunk(st.cur, st.open != ""));
        all := all + [chunk];
      }
    }
  }

  lemma RenderAllSnoc(cs: seq<Chunk>, c: Chunk)
    ensures RenderAll(cs + [c]) == RenderAll(cs) + [Render(c)]
  {
    var x := cs + [c];
    assert x[..|x| - 1] == cs && x[|x| - 1] == c;
    assert RenderAll(x) == RenderAll(x[..|x| - 1]) + [Render(x[|x| - 1])];
  }

  /** The whole function: it returns the rendered chunks of the specification, or reports
      the inputs on which the code makes no progress. */
  method SplitMessage(text: string, maxLen: int) returns (r: Outcome)
    ensures |text| <= maxLen ==> r == Chunks([text])
    ensures |text| > maxLen ==>
      r == match SplitSpec(text, maxLen) case None => Stuck case Some(cs) => Chunks(RenderAll(cs))
  {
    hide AddLine, RenderAll, Finish, SplitLines, Splitter.Valid;
    if |text| <= maxLen { return Chunks([text]); }
    var lines := SplitLines(text);
    var s := new Splitter(maxLen);
    var i := 0;
    while i < |lines|
      invariant i <= |lines|
      invariant s.Valid() && s.maxLen == maxLen && fresh(s)
      invariant Run(lines[..i], maxLen) == Some(s.st)
    {
      assert lines[..i + 1][..i] == lines[..i];
      var stuck := s.Add(lines[i]);
      i := i + 1;
      if stuck {
        StuckStays(lines, i, maxLen);
        return Stuck;
      }
    }
    assert lines[..i] == lines;
    var all := s.Rest();
    return Chunks(all);
  }

  lemma {:induction false} StuckStays(lines: seq<string>, i: nat, maxLen: int)
    requires i <= |lines| && Run(lines[..i], maxLen).None?
    ensures Run(lines, maxLen).None?
    decreases |lines| - i
  {
    if i == |lines| {
      assert lines[..i] == lines;
    } else {
      assert lines[..i + 1][..i] == lines[..i];
      StuckStays(lines, i + 1, maxLen);
    }
  }
}
