/** Tidying a configuration file: blank lines before headers, no double or outer blank lines,
    no trailing blanks, no empty sections (config/config.go, formatTOML). */
module TomlFormat {
  import opened Text
  import opened TomlLines

  // ----- single lines

  predicate IsBlank(line: string) {
    TrimSpace(line) == ""
  }

  /** Cuts the spaces and tabs at the end. */
  function TrimTail(line: string): string {
    if line != "" && line[|line| - 1] in {' ', '\t'} then TrimTail(line[..|line| - 1]) else line
  }

  /** What is cut is spaces and tabs, as many as there are. */
  lemma {:induction false} TrimTailCuts(line: string) returns (pad: string)
    ensures line == TrimTail(line) + pad && forall i :: 0 <= i < |pad| ==> pad[i] in {' ', '\t'}
    ensures TrimTail(line) != "" ==> TrimTail(line)[|TrimTail(line)| - 1] !in {' ', '\t'}
  {
    if line != "" && line[|line| - 1] in {' ', '\t'} {
      pad := TrimTailCuts(line[..|line| - 1]);
      assert line == line[..|line| - 1] + [line[|line| - 1]];
      pad := pad + [line[|line| - 1]];
    } else {
      pad := "";
      assert line + "" == line;
    }
  }

  /** Cutting spaces and tabs at the end does not change what trimming leaves. */
  lemma {:induction false} TrimTailSame(line: string)
    ensures TrimSpace(TrimTail(line)) == TrimSpace(line) && TrimTail(TrimTail(line)) == TrimTail(line)
  {
    if line != "" && line[|line| - 1] in {' ', '\t'} {
      var init := line[..|line| - 1];
      TrimTailSame(init);
      assert IsSpace(line[|line| - 1]);
      CutLast(line);
    }
  }

  lemma CutLast(line: string)
    requires line != "" && IsSpace(line[|line| - 1])
    ensures TrimSpace(line[..|line| - 1]) == TrimSpace(line)
  {
    hide *;
    var init, c := line[..|line| - 1], line[|line| - 1];
    assert line == init + [c];
    var a, b := TrimSpaceSlice(init);
    SpaceAfter(init, c);
    SpaceAfter(init[b..], c);
    TrimSpaceBlank(init);
    TrimSpaceBlank(line);
    if a < b {
      TrimSpacePadded(init[..a], init[a..b], init[b..] + [c]);
      assert line == init[..a] + init[a..b] + (init[b..] + [c]);
    }
  }

  lemma SpaceAfter(s: string, c: char)
    requires IsSpace(c)
    ensures AllSpace(s + [c]) <==> AllSpace(s)
  {
    hide IsSpace;
    assert forall i :: 0 <= i < |s| ==> (s + [c])[i] == s[i];
  }

  lemma TrimTailKeeps(line: string)
    ensures IsBlank(TrimTail(line)) == IsBlank(line) && IsAnyTableHeader(TrimTail(line)) == IsAnyTableHeader(line)
  {
    TrimTailSame(line);
  }

  // ----- which lines stay

  /** Nothing but blank lines up to the next header or the end. */
  predicate NothingAhead(rest: seq<string>) {
    rest == [] || IsAnyTableHeader(rest[0]) || (IsBlank(rest[0]) && NothingAhead(rest[1..]))
  }

  /** A header of an empty section. */
  predicate Skipped(lines: seq<string>, i: nat)
    requires i < |lines|
  {
    IsAnyTableHeader(lines[i]) && NothingAhead(lines[i + 1..])
  }

  /** The first `n` lines without the headers of empty sections, ends cut. */
  function Kept(lines: seq<string>, n: nat): seq<string>
    requires n <= |lines|
  {
    if n == 0 then []
    else if Skipped(lines, n - 1) then Kept(lines, n - 1)
    else Kept(lines, n - 1) + [TrimTail(lines[n - 1])]
  }

  // ----- blank lines

  /** One more line of output: blank lines are collapsed, a header gets one before it. */
  function Emit(out: seq<string>, line: string): seq<string> {
    var afterBlank := out != [] && IsBlank(out[|out| - 1]);
    if IsBlank(line) then (if afterBlank then out else out + [""])
    else if IsAnyTableHeader(line) && out != [] && !afterBlank then out + ["", line]
    else out + [line]
  }

  function EmitAll(lines: seq<string>): seq<string> {
    if lines == [] then [] else Emit(EmitAll(lines[..|lines| - 1]), lines[|lines| - 1])
  }

  function CutFront(out: seq<string>): seq<string> {
    if out != [] && IsBlank(out[0]) then CutFront(out[1..]) else out
  }

  function CutBack(out: seq<string>): seq<string> {
    if out != [] && IsBlank(out[|out| - 1]) then CutBack(out[..|out| - 1]) else out
  }

  function Formatted(lines: seq<string>): seq<string> {
    CutBack(CutFront(EmitAll(Kept(lines, |lines|))))
  }

  function FormatToml(raw: string): string {
    Join(Formatted(SplitLines(raw))) + "\n"
  }

  // ----- the formatter

  /** Is there nothing but blank lines up to the next header or the end? */
  method HasNoContent(lines: seq<string>, i: nat) returns (none: bool)
    requires i < |lines|
    ensures none == NothingAhead(lines[i + 1..])
  {
    hide TrimSpace;
    var j := i + 1;
    while j < |lines|
      invariant i < j <= |lines| && NothingAhead(lines[i + 1..]) == NothingAhead(lines[j..])
    {
      assert lines[j..] != [] && lines[j..][1..] == lines[j + 1..];
      var t := TrimSpace(lines[j]);
      if |t| > 0 && t[0] == '[' {
        return true;
      }
      if t != "" {
        return false;
      }
      j := j + 1;
    }
    return true;
  }

  method FindSkipped(lines: seq<string>) returns (skip: set<nat>)
    ensures forall i: nat :: i in skip <==> i < |lines| && Skipped(lines, i)
  {
    hide TrimSpace, NothingAhead;
    skip := {};
    for i := 0 to |lines|
      invariant forall k: nat :: k in skip <==> k < i && Skipped(lines, k)
    {
      var trimmed := TrimSpace(lines[i]);
      if |trimmed| == 0 || trimmed[0] != '[' {
        continue;
      }
      var none := HasNoContent(lines, i);
      if none {
        skip := skip + {i};
      }
    }
  }

  method TrimTailSpaces(line: string) returns (r: string)
    ensures r == TrimTail(line)
  {
    r := line;
    while r != "" && r[|r| - 1] in {' ', '\t'}
      invariant TrimTail(r) == TrimTail(line)
      decreases |r|
    {
      r := r[..|r| - 1];
    }
  }

  lemma KeptStep(lines: seq<string>, i: nat)
    requires i < |lines|
    ensures Kept(lines, i + 1) == if Skipped(lines, i) then Kept(lines, i) else Kept(lines, i) + [TrimTail(lines[i])]
  {
    hide Skipped, TrimTail;
  }

  lemma EmitStep(kept: seq<string>, line: string)
    ensures EmitAll(kept + [line]) == Emit(EmitAll(kept), line)
  {
    hide Emit;
    assert (kept + [line])[..|kept|] == kept;
  }

  /** Appends one line to the output the way the formatter does. */
  method EmitLine(before: seq<string>, line: string, prevBlank: bool) returns (out: seq<string>, blank: bool)
    requires prevBlank == (before != [] && IsBlank(before[|before| - 1]))
    ensures out == Emit(before, line) && blank == (out != [] && IsBlank(out[|out| - 1]))
  {
    BlankIsBlank();
    hide TrimSpace, IsAnyTableHeader;
    out := before;
    if TrimSpace(line) == "" {
      if prevBlank {
        return out, prevBlank;
      }
      return out + [""], true;
    }
    if IsAnyTableHeader(line) {
      if |out| > 0 && TrimSpace(out[|out| - 1]) != "" {
        out := out + [""];
      }
    }
    out := out + [line];
    blank := false;
  }

  lemma BlankIsBlank()
    ensures IsBlank("") && !IsAnyTableHeader("")
  {
  }

  lemma HeaderNotBlank(line: string)
    ensures IsAnyTableHeader(line) ==> !IsBlank(line)
  {
    hide TrimSpace;
  }

  method FormatLines(lines: seq<string>) returns (out: seq<string>)
    ensures out == Formatted(lines)
  {
    var skip := FindSkipped(lines);
    hide TrimSpace, Skipped, Emit, EmitAll, TrimTail, Kept;
    out := [];
    var prevBlank := false;
    EmptyStart(lines);
    for i := 0 to |lines|
      invariant out == EmitAll(Kept(lines, i)) && prevBlank == (out != [] && IsBlank(out[|out| - 1]))
    {
      KeptStep(lines, i);
      if i in skip {
        continue;
      }
      var line := TrimTailSpaces(lines[i]);
      EmitStep(Kept(lines, i), line);
      out, prevBlank := EmitLine(out, line, prevBlank);
    }
    while |out| > 0 && TrimSpace(out[0]) == ""
      invariant CutFront(out) == CutFront(EmitAll(Kept(lines, |lines|)))
      decreases |out|
    {
      out := out[1..];
    }
    while |out| > 0 && TrimSpace(out[|out| - 1]) == ""
      invariant CutBack(out) == Formatted(lines)
      decreases |out|
    {
      out := out[..|out| - 1];
    }
  }

  lemma EmptyStart(lines: seq<string>)
    ensures EmitAll(Kept(lines, 0)) == []
  {
  }
}
