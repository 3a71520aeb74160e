/** Reading back what the editor writes: which values survive as TOML v1.0.0 basic strings,
    and which lines a key matches. */
module TomlValues {
  import opened Text
  import opened TomlLines

  // ----- reading a basic string

  function HexValue(c: char): Option<nat> {
    if '0' <= c <= '9' then Some(c as int - '0' as int)
    else if 'a' <= c <= 'f' then Some(c as int - 'a' as int + 10)
    else if 'A' <= c <= 'F' then Some(c as int - 'A' as int + 10)
    else None
  }

  function ParseHex(s: string): Option<nat> {
    if s == "" then Some(0)
    else match (ParseHex(s[..|s| - 1]), HexValue(s[|s| - 1]))
      case (Some(hi), Some(lo)) => Some(hi * 16 + lo)
      case _ => None
  }

  /** The rune of a code point, if it is a Unicode scalar value. */
  function Scalar(n: nat): Option<char> {
    if n < 0xD800 || 0xE000 <= n < 0x11_0000 then Some(n as char) else None
  }

  function Escape(c: char): Option<char> {
    match c
    case 'b' => Some('\U{8}')
    case 't' => Some('\t')
    case 'n' => Some('\n')
    case 'f' => Some('\U{C}')
    case 'r' => Some('\r')
    case '"' => Some('"')
    case '\\' => Some('\\')
    case _ => None
  }

  /** One rune of a basic string: the rune and what follows it (TOML v1.0.0, "String"). */
  function ReadRune(s: string): Option<(char, string)>
    requires s != ""
  {
    if s[0] != '\\' then
      if (s[0] < ' ' && s[0] != '\t') || s[0] == '\U{7F}' then None else Some((s[0], s[1..]))
    else if |s| < 2 then None
    else if s[1] == 'u' || s[1] == 'U' then
      var width := if s[1] == 'u' then 4 else 8;
      if |s| < 2 + width then None
      else match ParseHex(s[2..2 + width])
        case None => None
        case Some(n) => (match Scalar(n) case None => None case Some(c) => Some((c, s[2 + width..])))
    else match Escape(s[1]) case None => None case Some(c) => Some((c, s[2..]))
  }

  /** The rest of a basic string after its opening quote: value and what follows the closing quote. */
  function ReadBody(s: string): Option<(string, string)>
    decreases |s|
  {
    if s == "" then None
    else if s[0] == '"' then Some(("", s[1..]))
    else match ReadRune(s)
      case None => None
      case Some((c, rest)) =>
        if |rest| >= |s| then None
        else match ReadBody(rest) case None => None case Some((v, after)) => Some(([c] + v, after))
  }

  function ReadBasicString(s: string): Option<(string, string)> {
    if s != "" && s[0] == '"' then ReadBody(s[1..]) else None
  }

  /** The value a key line gives its key, if it is a basic string followed by nothing but a comment. */
  function ReadKeyLine(line: string, key: string): Option<string> {
    if !MatchTomlStringKey(line, key) then None
    else
      var rest := TrimSpace(TrimSpace(line)[|key|..]);
      match ReadBasicString(TrimLeft(rest[1..]))
      case None => None
      case Some((v, after)) => if TrimSpace(after) == "" || "#" <= TrimSpace(after) then Some(v) else None
  }

  // ----- hexadecimal escapes

  function Pow16(width: nat): nat {
    if width == 0 then 1 else 16 * Pow16(width - 1)
  }

  lemma {:induction false} HexRoundTrip(n: nat, width: nat)
    requires n < Pow16(width)
    ensures ParseHex(HexDigits(n, width)) == Some(n) && |HexDigits(n, width)| == width
  {
    if width > 0 {
      HexRoundTrip(n / 16, width - 1);
      var s := HexDigits(n, width);
      assert s[..|s| - 1] == HexDigits(n / 16, width - 1);
      HexDigitValue(n % 16);
    }
  }

  lemma HexDigitValue(d: nat)
    requires d < 16
    ensures HexValue("0123456789abcdef"[d]) == Some(d)
  {
  }

  // ----- which runes survive

  /** A rune that strconv.Quote writes in a form TOML v1.0.0 can read: not \a, \v or \x. */
  predicate Readable(c: char) {
    (c >= ' ' && c != '\U{7F}') || c in {'\U{8}', '\t', '\n', '\U{C}', '\r'}
  }

  lemma QuotedHexRead(c: char, letter: char, width: nat, rest: string)
    requires (letter == 'u' && width == 4 && c < '\U{10000}') || (letter == 'U' && width == 8)
    ensures ReadRune(['\\', letter] + HexDigits(c as int, width) + rest) == Some((c, rest))
  {
    assert Pow16(4) == 0x1_0000 && Pow16(8) == 0x1_0000_0000;
    HexRoundTrip(c as int, width);
    var s := ['\\', letter] + HexDigits(c as int, width) + rest;
    assert s[2..2 + width] == HexDigits(c as int, width) && s[2 + width..] == rest;
  }

  /** Reading one quoted rune gives the rune back exactly if it is readable. */
  lemma QuotedRuneRead(c: char, wide: Printable, rest: string)
    ensures ReadRune(QuoteChar(c, wide) + rest) == if Readable(c) then Some((c, rest)) else None
    ensures |QuoteChar(c, wide)| > 0 && QuoteChar(c, wide)[0] != '"'
  {
    var q := QuoteChar(c, wide);
    if c == '"' || c == '\\' {
      hide ReadRune;
      LetterRead(c, rest);
    } else if if c < '\U{80}' then ' ' <= c <= '~' else wide(c) {
      hide ReadRune;
      PlainRead(c, rest);
    } else if '\U{7}' <= c <= '\r' {
      ControlRead(c, wide, rest);
    } else if c < ' ' || c == '\U{7F}' {
      NumberRead(c, wide, rest);
    } else if c < '\U{10000}' {
      QuotedHexRead(c, 'u', 4, rest);
      hide HexDigits, ReadRune;
      assert q == ['\\', 'u'] + HexDigits(c as int, 4);
    } else {
      QuotedHexRead(c, 'U', 8, rest);
      hide HexDigits, ReadRune;
      assert q == ['\\', 'U'] + HexDigits(c as int, 8);
    }
  }

  /** The control runes that have a letter of their own. */
  lemma ControlRead(c: char, wide: Printable, rest: string)
    requires '\U{7}' <= c <= '\r'
    ensures ReadRune(QuoteChar(c, wide) + rest) == if Readable(c) then Some((c, rest)) else None
    ensures |QuoteChar(c, wide)| == 2 && QuoteChar(c, wide)[0] != '"'
  {
    var q := QuoteChar(c, wide);
    assert q[0] == '\\' && q[1] !in {'u', 'U'} && Escape(q[1]) == if Readable(c) then Some(c) else None;
    hide *;
    LetterRead(q[1], rest);
    assert q == ['\\', q[1]];
  }

  /** The others are written as a number in a form that is not read. */
  lemma NumberRead(c: char, wide: Printable, rest: string)
    requires c < '\U{7}' || '\r' < c < ' ' || c == '\U{7F}'
    ensures ReadRune(QuoteChar(c, wide) + rest) == None
    ensures QuoteChar(c, wide) != "" && QuoteChar(c, wide)[0] != '"'
  {
    hide HexDigits, ParseHex;
    var q := QuoteChar(c, wide);
    assert q == ['\\', 'x'] + HexDigits(c as int, 2);
    hide QuoteChar;
    assert (q + rest)[0] == '\\' && (q + rest)[1] == 'x';
  }

  lemma PlainRead(c: char, rest: string)
    requires c >= ' ' && c != '\U{7F}' && c != '\\'
    ensures ReadRune([c] + rest) == Some((c, rest))
  {
    assert ([c] + rest)[1..] == rest;
  }

  lemma LetterRead(letter: char, rest: string)
    requires letter !in {'u', 'U'}
    ensures ReadRune(['\\', letter] + rest) == match Escape(letter) case None => None case Some(c) => Some((c, rest))
  {
    assert (['\\', letter] + rest)[2..] == rest;
    hide Escape;
  }

  predicate AllReadable(v: string) {
    forall i :: 0 <= i < |v| ==> Readable(v[i])
  }

  lemma AllReadableHead(v: string)
    requires v != ""
    ensures AllReadable(v) <==> Readable(v[0]) && AllReadable(v[1..])
  {
    assert v == [v[0]] + v[1..];
  }

  /** Exactly which values survive: a written value reads back as itself if every rune of it
      is readable, and otherwise the written string is not valid TOML. */
  lemma {:induction false} QuotedValueReads(v: string, wide: Printable, rest: string)
    ensures ReadBody(QuoteBody(v, wide) + ("\"" + rest)) ==
      if AllReadable(v) then Some((v, rest)) else None
  {
    hide QuoteChar, ReadRune, Readable;
    var tail := "\"" + rest;
    if v == "" {
      assert QuoteBody(v, wide) + tail == tail && tail[1..] == rest;
    } else {
      var more := QuoteBody(v[1..], wide) + tail;
      assert QuoteBody(v, wide) + tail == QuoteChar(v[0], wide) + more;
      QuotedRuneRead(v[0], wide, more);
      QuotedValueReads(v[1..], wide, rest);
      assert [v[0]] + v[1..] == v;
      AllReadableHead(v);
    }
  }

  // ----- written key lines

  /** Two bare keys never match the same line. */
  lemma KeyMatchUnique(line: string, k1: string, k2: string)
    requires BareKey(k1) && BareKey(k2) && MatchTomlStringKey(line, k1) && MatchTomlStringKey(line, k2)
    ensures k1 == k2
  {
    if |k1| < |k2| {
      KeyEndsBare(line, k1, k2);
    } else if |k2| < |k1| {
      KeyEndsBare(line, k2, k1);
    }
  }

  lemma KeyEndsBare(line: string, short: string, long: string)
    requires BareKey(short) && BareKey(long) && |short| < |long| && MatchTomlStringKey(line, short)
    ensures !(long <= TrimSpace(line))
  {
    var t := TrimSpace(line);
    if long <= t {
      var rest := t[|short|..];
      assert rest != "" && rest[0] == long[|short|] && BareKeyChar(rest[0]);
      BareNotSpace(rest[0]);
      TrimHead(rest);
    }
  }

  lemma BareNotSpace(c: char)
    requires BareKeyChar(c)
    ensures !IsSpace(c) && c !in {'#', '[', '=', '"', '\\'}
  {
  }

  /** The quoted value with its comment has visible ends. */
  lemma QuotedEnds(value: string, wide: Printable, comment: string)
    requires comment == "" || (comment[0] == '#' && Trimmed(comment))
    ensures var quoted := QuoteTomlString(value, wide) + Tail(comment);
      quoted != "" && quoted[0] == '"' && !IsSpace(quoted[|quoted| - 1])
  {
    assert !IsSpace('"');
    hide QuoteBody, IsSpace;
    var quoted := QuoteTomlString(value, wide) + Tail(comment);
    assert quoted[|quoted| - 1] == if comment == "" then '"' else comment[|comment| - 1];
  }

  lemma LineSpelled(key: string, value: string, wide: Printable, comment: string)
    ensures KeyLine(key, value, wide) + Tail(comment) == key + (" = " + (QuoteTomlString(value, wide) + Tail(comment)))
  {
    hide QuoteTomlString, Tail;
  }

  /** So has the whole line without indentation. */
  lemma WrittenEnds(key: string, value: string, wide: Printable, comment: string)
    requires BareKey(key) && (comment == "" || (comment[0] == '#' && Trimmed(comment)))
    ensures var quoted := QuoteTomlString(value, wide) + Tail(comment);
      && quoted != "" && quoted[0] == '"' && Trimmed(quoted) && Trimmed("= " + quoted) && Trimmed(key + (" = " + quoted))
      && KeyLine(key, value, wide) + Tail(comment) == key + (" = " + quoted)
  {
    BareNotSpace(key[0]);
    QuotedEnds(value, wide, comment);
    LineSpelled(key, value, wide, comment);
    assert !IsSpace('"') && !IsSpace('=');
    hide QuoteTomlString, KeyLine, Tail, IsSpace, BareKeyChar;
  }

  /** What trimming leaves of a written line, and of what follows its key. */
  lemma WrittenTrimmed(indent: string, key: string, value: string, wide: Printable, comment: string)
    requires BareKey(key) && forall i :: 0 <= i < |indent| ==> indent[i] in {' ', '\t'}
    requires comment == "" || (comment[0] == '#' && Trimmed(comment))
    ensures var quoted := QuoteTomlString(value, wide) + Tail(comment);
      && TrimSpace(indent + KeyLine(key, value, wide) + Tail(comment)) == key + (" = " + quoted)
      && TrimSpace((key + (" = " + quoted))[|key|..]) == "= " + quoted
      && TrimLeft(("= " + quoted)[1..]) == quoted
  {
    WrittenEnds(key, value, wide, comment);
    hide KeyLine, Tail, QuoteTomlString, TrimSpace, TrimLeft, IsSpace;
    var quoted := QuoteTomlString(value, wide) + Tail(comment);
    TrimIndented(indent, key + (" = " + quoted));
    assert indent + (key + (" = " + quoted)) == indent + KeyLine(key, value, wide) + Tail(comment);
    TrimAfterKey(key, quoted);
  }

  lemma TrimIndented(indent: string, t: string)
    requires t != "" && Trimmed(t) && forall i :: 0 <= i < |indent| ==> indent[i] in {' ', '\t'}
    ensures TrimSpace(indent + t) == t
  {
    assert AllSpace(indent) && AllSpace("");
    hide TrimSpace, IsSpace;
    TrimSpacePadded(indent, t, "");
    assert indent + t + "" == indent + t;
  }

  lemma TrimAfterKey(key: string, quoted: string)
    requires quoted != "" && Trimmed(quoted) && Trimmed("= " + quoted)
    ensures TrimSpace((key + (" = " + quoted))[|key|..]) == "= " + quoted
    ensures TrimLeft(("= " + quoted)[1..]) == quoted
  {
    hide TrimSpace, TrimLeft;
    TrimIndented(" ", "= " + quoted);
    assert (key + (" = " + quoted))[|key|..] == " " + ("= " + quoted);
    assert AllSpace(" ");
    TrimLeftPadded(" ", quoted);
    assert ("= " + quoted)[1..] == " " + quoted;
  }

  /** A written line matches its key and reads back as exactly the written value, provided
      the value is readable; the old comment does not get in the way. */
  lemma WrittenLineReads(indent: string, key: string, value: string, wide: Printable, comment: string)
    requires BareKey(key) && forall i :: 0 <= i < |indent| ==> indent[i] in {' ', '\t'}
    requires comment == "" || (comment[0] == '#' && Trimmed(comment))
    ensures var line := indent + KeyLine(key, value, wide) + Tail(comment);
      && MatchTomlStringKey(line, key) && !IsAnyTableHeader(line)
      && ReadKeyLine(line, key) == if AllReadable(value) then Some(value) else None
  {
    WrittenTrimmed(indent, key, value, wide, comment);
    QuotedWithTail(value, wide, comment);
    TailTrimmed(comment);
    hide *;
    KeyLineReads(indent + KeyLine(key, value, wide) + Tail(comment), key, QuoteTomlString(value, wide) + Tail(comment));
  }

  /** Reading a line by what trimming leaves of it. */
  lemma KeyLineReads(line: string, key: string, quoted: string)
    requires BareKey(key) && TrimSpace(line) == key + (" = " + quoted)
    requires TrimSpace((key + (" = " + quoted))[|key|..]) == "= " + quoted && TrimLeft(("= " + quoted)[1..]) == quoted
    ensures MatchTomlStringKey(line, key) && !IsAnyTableHeader(line)
    ensures ReadKeyLine(line, key) == match ReadBasicString(quoted)
      case None => None
      case Some((v, after)) => if TrimSpace(after) == "" || "#" <= TrimSpace(after) then Some(v) else None
  {
    BareNotSpace(key[0]);
    hide TrimSpace, TrimLeft, ReadBasicString, BareKey;
    assert TrimSpace(line)[0] == key[0];
  }

  lemma QuotedWithTail(value: string, wide: Printable, comment: string)
    ensures ReadBasicString(QuoteTomlString(value, wide) + Tail(comment))
         == if AllReadable(value) then Some((value, Tail(comment))) else None
  {
    hide QuoteBody, ReadBody, AllReadable, Tail;
    var quoted := QuoteTomlString(value, wide) + Tail(comment);
    assert quoted[1..] == QuoteBody(value, wide) + ("\"" + Tail(comment));
    QuotedValueReads(value, wide, Tail(comment));
  }

  lemma TailTrimmed(comment: string)
    requires comment == "" || (comment[0] == '#' && Trimmed(comment))
    ensures TrimSpace(Tail(comment)) == comment
  {
    if comment != "" {
      TrimSpacePadded(" ", comment, "");
      assert " " + comment + "" == Tail(comment);
    } else {
      TrimSpaceTrimmed("");
    }
  }

  /** The same for a new line and for a rewritten one. */
  lemma NewLineReads(key: string, value: string, wide: Printable)
    requires BareKey(key)
    ensures var line := KeyLine(key, value, wide);
      && MatchTomlStringKey(line, key) && !IsAnyTableHeader(line)
      && ReadKeyLine(line, key) == if AllReadable(value) then Some(value) else None
  {
    hide *;
    WrittenLineReads("", key, value, wide, "");
    NoTail();
    assert "" + KeyLine(key, value, wide) + "" == KeyLine(key, value, wide);
  }

  lemma NoTail()
    ensures Tail("") == ""
  {
  }

  lemma RewrittenLineReads(line: string, key: string, value: string, wide: Printable)
    requires BareKey(key)
    ensures var r := ReplacedLine(line, key, value, wide);
      && MatchTomlStringKey(r, key) && !IsAnyTableHeader(r)
      && ReadKeyLine(r, key) == if AllReadable(value) then Some(value) else None
  {
    IndentPlain(line);
    CommentShape(line, false, false);
    WrittenLineReads(LeadingWhitespace(line), key, value, wide, LineComment(line));
  }
}
