/** One section of a configuration file: its header, its body up to the next header, and
    what setting a key does to it (config/config.go, upsertTomlStringKey). */
module TomlSections {
  import opened Text
  import opened TomlLines
  import opened TomlValues
  import opened Search
  import opened TomlSpans

  datatype Section = Section(before: seq<string>, header: string, body: seq<string>, after: seq<string>) {
    function Lines(): seq<string> {
      before + [header] + body + after
    }
  }

  /** The section whose header is line `at`. */
  function Cut(seg: seq<string>, at: nat): Section
    requires at < |seg|
  {
    var rest := seg[at + 1..];
    var n := First(rest, AnyHeader());
    Section(seg[..at], seg[at], rest[..n], rest[n..])
  }

  ghost predicate NoHeaders(lines: seq<string>) {
    NoHit(lines, AnyHeader(), 0, |lines|)
  }

  /** The body ends exactly where the next header stands. */
  ghost predicate Proper(s: Section) {
    NoHeaders(s.body) && (s.after == [] || IsAnyTableHeader(s.after[0]))
  }

  lemma CutIs(seg: seq<string>, at: nat)
    requires at < |seg|
    ensures var s := Cut(seg, at); s.Lines() == seg && |s.before| == at && s.header == seg[at] && Proper(s)
  {
    hide IsAnyTableHeader;
    var rest := seg[at + 1..];
    FirstIs(rest, AnyHeader());
    hide First;
    Rejoin(seg, at, First(rest, AnyHeader()));
  }

  lemma Rejoin(seg: seq<string>, at: nat, n: nat)
    requires at < |seg| && at + 1 + n <= |seg|
    ensures seg[..at] + [seg[at]] + seg[at + 1..][..n] + seg[at + 1..][n..] == seg
  {
    var rest := seg[at + 1..];
    assert rest == rest[..n] + rest[n..];
  }

  lemma CutUnique(s: Section)
    requires Proper(s)
    ensures |s.before| < |s.Lines()| && Cut(s.Lines(), |s.before|) == s
  {
    hide IsAnyTableHeader;
    var seg, at := s.Lines(), |s.before|;
    var rest := s.body + s.after;
    assert seg[at + 1..] == rest && seg[..at] == s.before;
    FirstUnique(rest, AnyHeader(), |s.body|);
    hide First;
    assert rest[..|s.body|] == s.body && rest[|s.body|..] == s.after;
  }

  // ----- setting a key in a body

  /** The first line of the key gets the new value; without one, a new line is appended. */
  function Upserted(body: seq<string>, key: string, value: string, wide: Printable): seq<string> {
    var i := First(body, ForKey(key));
    if i < |body| then body[i := ReplacedLine(body[i], key, value, wide)] else body + [KeyLine(key, value, wide)]
  }

  /** The line that gives the key its value. */
  function LineOf(body: seq<string>, key: string): Option<string> {
    var i := First(body, ForKey(key));
    if i < |body| then Some(body[i]) else None
  }

  function ValueOf(body: seq<string>, key: string): Option<string> {
    match LineOf(body, key)
    case None => None
    case Some(line) => ReadKeyLine(line, key)
  }

  /** What a written value reads back as: itself, if it is readable TOML. */
  function ReadBack(value: string): Option<string> {
    if AllReadable(value) then Some(value) else None
  }

  /** A line written for `key`. */
  ghost predicate Wrote(line: string, key: string, value: string) {
    && MatchTomlStringKey(line, key) && !IsAnyTableHeader(line)
    && ReadKeyLine(line, key) == ReadBack(value)
  }

  lemma UpsertedShape(body: seq<string>, key: string, value: string, wide: Printable) returns (line: string)
    requires BareKey(key)
    ensures var i := First(body, ForKey(key));
      Upserted(body, key, value, wide) == if i < |body| then body[i := line] else body + [line]
    ensures Wrote(line, key, value)
  {
    hide First, KeyLine, ReplacedLine, MatchTomlStringKey, IsAnyTableHeader, ReadKeyLine, AllReadable, BareKey;
    var i := First(body, ForKey(key));
    if i < |body| {
      line := ReplacedLine(body[i], key, value, wide);
      RewrittenLineReads(body[i], key, value, wide);
    } else {
      line := KeyLine(key, value, wide);
      NewLineReads(key, value, wide);
    }
  }

  /** Get after put: the key reads back as the value just set. */
  lemma UpsertedReads(body: seq<string>, key: string, value: string, wide: Printable)
    requires BareKey(key)
    ensures ValueOf(Upserted(body, key, value, wide), key) == ReadBack(value)
  {
    var line := UpsertedShape(body, key, value, wide);
    hide Upserted, MatchTomlStringKey, IsAnyTableHeader, ReadKeyLine, ReadBack, BareKey;
    var i := First(body, ForKey(key));
    FirstIs(body, ForKey(key));
    FirstUnique(Upserted(body, key, value, wide), ForKey(key), i);
  }

  /** Setting one key leaves the line of every other key as it is. */
  lemma UpsertedOthers(body: seq<string>, key: string, value: string, wide: Printable, other: string)
    requires BareKey(key) && BareKey(other) && key != other
    ensures LineOf(Upserted(body, key, value, wide), other) == LineOf(body, other)
  {
    var line := UpsertedShape(body, key, value, wide);
    NotBoth(line, key, other);
    hide Upserted, MatchTomlStringKey, IsAnyTableHeader, ReadKeyLine, ReadBack, BareKey;
    var i := First(body, ForKey(key));
    FirstIs(body, ForKey(key));
    FirstIs(body, ForKey(other));
    if i < |body| {
      NotBoth(body[i], key, other);
      FirstUpdate(body, i, line, ForKey(other));
    } else {
      FirstSnoc(body, line, ForKey(other));
    }
  }

  lemma NotBoth(line: string, key: string, other: string)
    requires BareKey(key) && BareKey(other) && key != other && MatchTomlStringKey(line, key)
    ensures !MatchTomlStringKey(line, other)
  {
    hide MatchTomlStringKey, BareKey;
    if MatchTomlStringKey(line, other) { KeyMatchUnique(line, key, other); }
  }

  /** The last of two writes to a key wins. */
  lemma UpsertedTwice(body: seq<string>, key: string, v1: string, v2: string, wide: Printable)
    requires BareKey(key)
    ensures Upserted(Upserted(body, key, v1, wide), key, v2, wide) == Upserted(body, key, v2, wide)
  {
    hide KeyLine, ReplacedLine, MatchTomlStringKey, IsAnyTableHeader, ReadKeyLine, ReadBack, BareKey;
    var i := First(body, ForKey(key));
    var line := UpsertedShape(body, key, v1, wide);
    var once := Upserted(body, key, v1, wide);
    FirstIs(body, ForKey(key));
    FirstUnique(once, ForKey(key), i);
    hide First;
    if i < |body| {
      LastWriteWins(body[i], key, v1, v2, wide);
      assert once[i := ReplacedLine(body[i], key, v2, wide)] == body[i := ReplacedLine(body[i], key, v2, wide)];
    } else {
      RewriteNew(key, v1, v2, wide);
      assert once[i := KeyLine(key, v2, wide)] == body + [KeyLine(key, v2, wide)];
    }
  }

  /** A new line rewritten is the new line of the other value. */
  lemma RewriteNew(key: string, v1: string, v2: string, wide: Printable)
    requires BareKey(key)
    ensures ReplacedLine(KeyLine(key, v1, wide), key, v2, wide) == KeyLine(key, v2, wide)
  {
    RewriteKeeps("", key, v1, wide);
    assert ReplacedLine("", key, v1, wide) == KeyLine(key, v1, wide);
  }

  lemma UpsertedPlain(body: seq<string>, key: string, value: string, wide: Printable)
    requires BareKey(key) && NoHeaders(body)
    ensures NoHeaders(Upserted(body, key, value, wide))
  {
    var line := UpsertedShape(body, key, value, wide);
    hide Upserted, MatchTomlStringKey, IsAnyTableHeader, ReadKeyLine, ReadBack, BareKey, First;
  }

  // ----- editing a run of lines

  function Clamped(x: int, hi: nat): (r: nat)
    ensures r <= hi
  {
    if x < 0 then 0 else if x > hi then hi else x
  }

  function InsertLines(lines: seq<string>, at: int, block: seq<string>): seq<string> {
    var k := Clamped(at, |lines|);
    lines[..k] + block + lines[k..]
  }

  /** Setting a key in the lines `start` to `end`, both clipped to the file. */
  function UpsertedIn(lines: seq<string>, start: int, end: int, key: string, value: string, wide: Printable): seq<string> {
    var lo, stop := Clamped(start, |lines|), Clamped(end + 1, |lines|);
    var hi := if stop < lo then lo else stop;
    lines[..lo] + Upserted(lines[lo..hi], key, value, wide) + lines[hi..]
  }

  /** Where an edit of the lines `start` to `end` begins and stops. */
  ghost predicate Window(n: nat, start: int, end: int, lo: nat, hi: nat) {
    lo == Clamped(start, n) && hi == if Clamped(end + 1, n) < lo then lo else Clamped(end + 1, n)
  }

  lemma ReplacedIn(lines: seq<string>, start: int, end: int, lo: nat, hi: nat, i: nat, key: string,
      value: string, wide: Printable)
    requires Window(|lines|, start, end, lo, hi) && lo <= i < hi
    requires NoHit(lines, ForKey(key), lo, i) && MatchTomlStringKey(lines[i], key)
    ensures lines[i := ReplacedLine(lines[i], key, value, wide)] == UpsertedIn(lines, start, end, key, value, wide)
  {
    hide MatchTomlStringKey, ReplacedLine;
    var body := lines[lo..hi];
    assert body[i - lo] == lines[i] && NoHit(body, ForKey(key), 0, i - lo);
    FirstUnique(body, ForKey(key), i - lo);
    hide *;
    UpdateInside(lines, lo, hi, i, ReplacedLine(lines[i], key, value, wide));
    UpsertedIs(body, key, value, wide);
    UpsertedInIs(lines, start, end, lo, hi, key, value, wide);
  }

  lemma UpdateInside(lines: seq<string>, lo: nat, hi: nat, i: nat, line: string)
    requires lo <= i < hi <= |lines|
    ensures lines[i := line] == lines[..lo] + lines[lo..hi][i - lo := line] + lines[hi..]
  {
  }

  lemma UpsertedIs(body: seq<string>, key: string, value: string, wide: Printable)
    ensures var i := First(body, ForKey(key));
      Upserted(body, key, value, wide) == if i < |body| then body[i := ReplacedLine(body[i], key, value, wide)]
          else body + [KeyLine(key, value, wide)]
  {
  }

  lemma UpsertedInIs(lines: seq<string>, start: int, end: int, lo: nat, hi: nat, key: string, value: string, wide: Printable)
    requires Window(|lines|, start, end, lo, hi)
    ensures lo <= hi <= |lines|
    ensures UpsertedIn(lines, start, end, key, value, wide) ==
            lines[..lo] + Upserted(lines[lo..hi], key, value, wide) + lines[hi..]
  {
    hide Upserted;
  }

  lemma AppendedIn(lines: seq<string>, start: int, end: int, lo: nat, hi: nat, key: string, value: string, wide: Printable)
    requires Window(|lines|, start, end, lo, hi) && NoHit(lines, ForKey(key), lo, hi)
    ensures InsertLines(lines, hi, [KeyLine(key, value, wide)]) == UpsertedIn(lines, start, end, key, value, wide)
  {
    hide MatchTomlStringKey, KeyLine;
    var body := lines[lo..hi];
    assert NoHit(body, ForKey(key), 0, |body|);
    FirstUnique(body, ForKey(key), |body|);
    NewLine(lines, lo, hi, KeyLine(key, value, wide));
    UpsertedIs(body, key, value, wide);
    UpsertedInIs(lines, start, end, lo, hi, key, value, wide);
    hide Upserted, UpsertedIn;
  }

  method UpsertTomlStringKey(lines: seq<string>, start: int, end: int, key: string, value: string, wide: Printable)
      returns (out: seq<string>)
    ensures out == UpsertedIn(lines, start, end, key, value, wide)
  {
    hide MatchTomlStringKey, KeyLine, ReplacedLine, UpsertedIn;
    out := lines;
    var from, last := start, end;
    if from < 0 {
      from := 0;
    }
    if last >= |out| {
      last := |out| - 1;
    }
    ghost var lo := Clamped(start, |lines|);
    ghost var hi := if Clamped(end + 1, |lines|) < lo then lo else Clamped(end + 1, |lines|);
    var i := from;
    while i <= last && i < |out|
      invariant from <= i && out == lines && (i == from || i <= last + 1)
      invariant NoHit(lines, ForKey(key), from, i)
    {
      if MatchTomlStringKey(out[i], key) {
        ReplacedIn(lines, start, end, lo, hi, i, key, value, wide);
        var line := ReplaceTomlStringKeyLine(out[i], key, value, wide);
        out := out[i := line];
        return;
      }
      i := i + 1;
    }
    AppendedIn(lines, start, end, lo, hi, key, value, wide);
    var insertAt := last + 1;
    if insertAt < from {
      insertAt := from;
    }
    out := InsertLines(out, insertAt, [KeyLine(key, value, wide)]);
  }

  lemma NewLine(lines: seq<string>, lo: nat, hi: nat, line: string)
    requires lo <= hi <= |lines|
    ensures lines[..hi] + [line] + lines[hi..] == lines[..lo] + (lines[lo..hi] + [line]) + lines[hi..]
  {
  }

  /** Setting a key between `before + [header]` and `after` touches neither. */
  lemma UpsertedAt(a: seq<string>, body: seq<string>, c: seq<string>, key: string, value: string, wide: Printable)
    ensures UpsertedIn(a + body + c, |a|, |a| + |body| - 1, key, value, wide) == a + Upserted(body, key, value, wide) + c
  {
    hide Upserted;
    var lines := a + body + c;
    assert lines[..|a|] == a && lines[|a|..|a| + |body|] == body && lines[|a| + |body|..] == c;
  }
}
