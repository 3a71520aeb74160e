/** Single lines of a configuration file: recognising headers and keys, quoting a value, and
    rewriting a key line in place (config/config.go). */
module TomlLines {
  import opened Text

  // ----- headers and keys

  predicate MatchTableHeader(line: string, header: string) {
    var t := TrimSpace(line);
    header <= t && (|t| == |header| || t[|header|] in {' ', '\t', '#'})
  }

  predicate IsAnyTableHeader(line: string) {
    "[" <= TrimSpace(line)
  }

  predicate MatchTomlStringKey(line: string, key: string) {
    var t := TrimSpace(line);
    t != "" && !("#" <= t) && !("[" <= t) && key <= t && "=" <= TrimSpace(t[|key|..])
  }

  predicate BareKeyChar(c: char) {
    'A' <= c <= 'Z' || 'a' <= c <= 'z' || '0' <= c <= '9' || c == '_' || c == '-'
  }

  /** A bare key of TOML v1.0.0. */
  predicate BareKey(key: string) {
    key != "" && forall i :: 0 <= i < |key| ==> BareKeyChar(key[i])
  }

  // ----- quoting

  /** Which runes from U+0080 on the library counts as printable. */
  type Printable = char -> bool

  function HexDigits(n: nat, width: nat): string {
    if width == 0 then "" else HexDigits(n / 16, width - 1) + ["0123456789abcdef"[n % 16]]
  }

  /** One rune as strconv.Quote writes it. */
  function QuoteChar(c: char, wide: Printable): string {
    if c == '"' || c == '\\' then ['\\', c]
    else if (if c < '\U{80}' then ' ' <= c <= '~' else wide(c)) then [c]
    else if c == '\U{7}' then "\\a"
    else if c == '\U{8}' then "\\b"
    else if c == '\U{C}' then "\\f"
    else if c == '\n' then "\\n"
    else if c == '\r' then "\\r"
    else if c == '\t' then "\\t"
    else if c == '\U{B}' then "\\v"
    else if c < ' ' || c == '\U{7F}' then "\\x" + HexDigits(c as int, 2)
    else if c < '\U{10000}' then "\\u" + HexDigits(c as int, 4)
    else "\\U" + HexDigits(c as int, 8)
  }

  function QuoteBody(v: string, wide: Printable): string {
    if v == "" then "" else QuoteChar(v[0], wide) + QuoteBody(v[1..], wide)
  }

  function QuoteTomlString(v: string, wide: Printable): string {
    "\"" + QuoteBody(v, wide) + "\""
  }

  // ----- comments and indentation

  function LeadingWhitespace(s: string): string {
    if s != "" && s[0] in {' ', '\t'} then [s[0]] + LeadingWhitespace(s[1..]) else ""
  }

  method ScanLeadingWhitespace(s: string) returns (r: string)
    ensures r == LeadingWhitespace(s)
  {
    var i := 0;
    while i < |s|
      invariant i <= |s| && LeadingWhitespace(s) == s[..i] + LeadingWhitespace(s[i..])
    {
      if s[i] != ' ' && s[i] != '\t' {
        break;
      }
      assert s[i..] == [s[i]] + s[i + 1..];
      i := i + 1;
    }
    return s[..i];
  }

  /** The comment found from a scanner state on. */
  function CommentFrom(s: string, inQuote: bool, escaped: bool): string {
    if s == "" then ""
    else if escaped then CommentFrom(s[1..], inQuote, false)
    else if s[0] == '\\' && inQuote then CommentFrom(s[1..], inQuote, true)
    else if s[0] == '"' then CommentFrom(s[1..], !inQuote, false)
    else if s[0] == '#' && !inQuote then TrimSpace(s)
    else CommentFrom(s[1..], inQuote, false)
  }

  function LineComment(line: string): string {
    CommentFrom(line, false, false)
  }

  method ExtractLineComment(line: string) returns (comment: string)
    ensures comment == LineComment(line)
  {
    var inQuote, escaped := false, false;
    var i := 0;
    while i < |line|
      invariant i <= |line| && LineComment(line) == CommentFrom(line[i..], inQuote, escaped)
    {
      assert line[i..][1..] == line[i + 1..];
      var ch := line[i];
      i := i + 1;
      if escaped {
        escaped := false;
        continue;
      }
      if ch == '\\' && inQuote {
        escaped := true;
        continue;
      }
      if ch == '"' {
        inQuote := !inQuote;
        continue;
      }
      if ch == '#' && !inQuote {
        return TrimSpace(line[i - 1..]);
      }
    }
    return "";
  }

  function KeyLine(key: string, value: string, wide: Printable): string {
    key + " = " + QuoteTomlString(value, wide)
  }

  /** A rewritten key line: old indentation, new value, old comment. */
  function ReplacedLine(line: string, key: string, value: string, wide: Printable): string {
    var comment := LineComment(line);
    LeadingWhitespace(line) + KeyLine(key, value, wide) + if comment != "" then " " + comment else ""
  }

  method ReplaceTomlStringKeyLine(line: string, key: string, value: string, wide: Printable) returns (updated: string)
    ensures updated == ReplacedLine(line, key, value, wide)
  {
    var indent := ScanLeadingWhitespace(line);
    var comment := ExtractLineComment(line);
    updated := indent + key + " = " + QuoteTomlString(value, wide);
    assert updated == indent + KeyLine(key, value, wide);
    if comment != "" {
      updated := updated + " " + comment;
    }
    assert updated == indent + KeyLine(key, value, wide) + if comment != "" then " " + comment else "";
  }

  // ----- the scanner skips a quoted value

  lemma {:induction false} SkipPlain(s: string, rest: string)
    requires forall i :: 0 <= i < |s| ==> s[i] != '"' && s[i] != '#'
    ensures CommentFrom(s + rest, false, false) == CommentFrom(rest, false, false)
  {
    if s == "" {
      assert s + rest == rest;
    } else {
      assert (s + rest)[1..] == s[1..] + rest;
      SkipPlain(s[1..], rest);
    }
  }

  lemma {:induction false} SkipInQuote(s: string, rest: string)
    requires forall i :: 0 <= i < |s| ==> s[i] != '"' && s[i] != '\\'
    ensures CommentFrom(s + rest, true, false) == CommentFrom(rest, true, false)
  {
    if s == "" {
      assert s + rest == rest;
    } else {
      assert (s + rest)[1..] == s[1..] + rest;
      SkipInQuote(s[1..], rest);
    }
  }

  lemma {:induction false} HexDigitsPlain(n: nat, width: nat)
    ensures forall i :: 0 <= i < |HexDigits(n, width)| ==> HexDigits(n, width)[i] in "0123456789abcdef"
    ensures |HexDigits(n, width)| == width
  {
    if width > 0 { HexDigitsPlain(n / 16, width - 1); }
  }

  /** An escape is a backslash, one rune and plain hex digits. */
  lemma QuoteCharShape(c: char, wide: Printable)
    ensures var q := QuoteChar(c, wide);
      || (q == [c] && c != '"' && c != '\\' && c != '\n')
      || (|q| >= 2 && q[0] == '\\' && q[1] != '\n' && forall i :: 2 <= i < |q| ==> q[i] in "0123456789abcdef")
  {
    HexDigitsPlain(c as int, 2);
    HexDigitsPlain(c as int, 4);
    HexDigitsPlain(c as int, 8);
    hide HexDigits;
  }

  lemma SkipQuoteChar(c: char, wide: Printable, rest: string)
    ensures CommentFrom(QuoteChar(c, wide) + rest, true, false) == CommentFrom(rest, true, false)
  {
    QuoteCharShape(c, wide);
    var q := QuoteChar(c, wide);
    hide QuoteChar;
    if q == [c] && c != '"' && c != '\\' {
      SkipInQuote(q, rest);
    } else {
      assert (q + rest)[1..][1..] == q[2..] + rest;
      assert forall i :: 0 <= i < |q[2..]| ==> q[2..][i] == q[i + 2];
      SkipInQuote(q[2..], rest);
    }
  }

  lemma {:induction false} SkipQuoteBody(v: string, wide: Printable, rest: string)
    ensures CommentFrom(QuoteBody(v, wide) + rest, true, false) == CommentFrom(rest, true, false)
  {
    if v == "" {
      assert QuoteBody(v, wide) + rest == rest;
    } else {
      SkipQuoteChar(v[0], wide, QuoteBody(v[1..], wide) + rest);
      SkipQuoteBody(v[1..], wide, rest);
      assert QuoteBody(v, wide) + rest == QuoteChar(v[0], wide) + (QuoteBody(v[1..], wide) + rest);
    }
  }

  /** Whatever the value holds, the scanner finds nothing inside its quoted form. */
  lemma SkipQuoted(v: string, wide: Printable, rest: string)
    ensures CommentFrom(QuoteTomlString(v, wide) + rest, false, false) == CommentFrom(rest, false, false)
  {
    var body := QuoteBody(v, wide);
    var s := QuoteTomlString(v, wide) + rest;
    assert s[1..] == body + ("\"" + rest);
    SkipQuoteBody(v, wide, "\"" + rest);
    assert ("\"" + rest)[1..] == rest;
  }

  lemma {:induction false} CommentShape(s: string, inQuote: bool, escaped: bool)
    ensures var c := CommentFrom(s, inQuote, escaped);
            c == "" || (c[0] == '#' && Trimmed(c))
  {
    if s != "" {
      CommentShape(s[1..], inQuote, false);
      CommentShape(s[1..], inQuote, true);
      CommentShape(s[1..], !inQuote, false);
      if s[0] == '#' {
        var a, b := TrimSpaceSlice(s);
        TrimHead(s);
      }
    }
  }

  lemma {:induction false} IndentPlain(s: string)
    ensures forall i :: 0 <= i < |LeadingWhitespace(s)| ==> LeadingWhitespace(s)[i] in {' ', '\t'}
  {
    if s != "" && s[0] in {' ', '\t'} { IndentPlain(s[1..]); }
  }

  lemma {:induction false} IndentOf(indent: string, rest: string)
    requires forall i :: 0 <= i < |indent| ==> indent[i] in {' ', '\t'}
    requires rest != "" && rest[0] !in {' ', '\t'}
    ensures LeadingWhitespace(indent + rest) == indent
  {
    if indent != "" {
      assert (indent + rest)[1..] == indent[1..] + rest;
      IndentOf(indent[1..], rest);
    } else {
      assert indent + rest == rest;
    }
  }

  function Tail(comment: string): string {
    if comment != "" then " " + comment else ""
  }

  lemma TailComment(comment: string)
    requires comment == "" || (comment[0] == '#' && Trimmed(comment))
    ensures CommentFrom(Tail(comment), false, false) == comment
  {
    if comment != "" {
      assert (" " + comment)[1..] == comment;
      TrimSpaceTrimmed(comment);
    }
  }

  /** Rewriting keeps the indentation and the comment of the line, for every value. */
  lemma RewriteKeeps(line: string, key: string, value: string, wide: Printable)
    requires BareKey(key)
    ensures LeadingWhitespace(ReplacedLine(line, key, value, wide)) == LeadingWhitespace(line)
    ensures LineComment(ReplacedLine(line, key, value, wide)) == LineComment(line)
  {
    var indent, comment := LeadingWhitespace(line), LineComment(line);
    var r, quoted := ReplacedLine(line, key, value, wide), QuoteTomlString(value, wide);
    IndentPlain(line);
    CommentShape(line, false, false);
    hide QuoteTomlString, LeadingWhitespace, CommentFrom;
    var head := indent + key + " = ";
    assert r == head + (quoted + Tail(comment));
    SkipPlain(head, quoted + Tail(comment));
    SkipQuoted(value, wide, Tail(comment));
    TailComment(comment);
    var rest := key + (" = " + (quoted + Tail(comment)));
    assert r == indent + rest && rest[0] == key[0];
    IndentOf(indent, rest);
  }

  /** What rewriting makes of a key line: the indentation stays, key, equals sign and new value are
      written with single blanks, and what is behind the old value survives if it is a comment. */
  lemma RewriteIs(indent: string, key: string, eq: string, was: string, pad: string, comment: string, value: string, wide: Printable)
    requires BareKey(key) && (comment == "" || comment[0] == '#')
    requires (forall i :: 0 <= i < |indent| ==> indent[i] in {' ', '\t'}) && (forall i :: 0 <= i < |pad| ==> pad[i] in {' ', '\t'})
    requires forall i :: 0 <= i < |eq| ==> eq[i] in {' ', '\t', '='}
    ensures ReplacedLine(indent + key + eq + QuoteTomlString(was, wide) + pad + comment, key, value, wide)
         == indent + key + " = " + QuoteTomlString(value, wide) + if comment == "" then "" else " " + TrimSpace(comment)
  {
    var line := indent + key + eq + QuoteTomlString(was, wide) + pad + comment;
    LineParts(indent, key, eq, QuoteTomlString(was, wide), pad, comment);
    SkipQuoted(was, wide, pad + comment);
    hide *;
    CommentAlone(comment);
    SkipPlain(pad, comment);
    PlainHead(indent, key, eq);
    SkipPlain(indent + key + eq, QuoteTomlString(was, wide) + (pad + comment));
    IndentOf(indent, key + (eq + (QuoteTomlString(was, wide) + (pad + comment))));
    RewriteParts(line, indent, comment, key, value, wide);
  }

  lemma RewriteParts(line: string, indent: string, comment: string, key: string, value: string, wide: Printable)
    requires LeadingWhitespace(line) == indent && CommentFrom(line, false, false) == if comment == "" then "" else TrimSpace(comment)
    requires comment != "" ==> TrimSpace(comment) != ""
    ensures ReplacedLine(line, key, value, wide)
         == indent + key + " = " + QuoteTomlString(value, wide) + if comment == "" then "" else " " + TrimSpace(comment)
  {
    hide QuoteTomlString, LeadingWhitespace, CommentFrom, TrimSpace;
  }

  lemma LineParts(indent: string, key: string, eq: string, quoted: string, pad: string, comment: string)
    requires BareKey(key)
    ensures var line := indent + key + eq + quoted + pad + comment;
      && line == (indent + key + eq) + (quoted + (pad + comment))
      && line == indent + (key + (eq + (quoted + (pad + comment))))
      && (key + (eq + (quoted + (pad + comment))))[0] == key[0] && key[0] !in {' ', '\t'}
  {
  }

  lemma PlainHead(indent: string, key: string, eq: string)
    requires BareKey(key) && (forall i :: 0 <= i < |indent| ==> indent[i] in {' ', '\t'})
    requires forall i :: 0 <= i < |eq| ==> eq[i] in {' ', '\t', '='}
    ensures forall i :: 0 <= i < |indent + key + eq| ==> (indent + key + eq)[i] !in {'"', '#', '\\'}
  {
    assert forall i :: 0 <= i < |key| ==> key[i] !in {'"', '#', '\\'};
  }

  lemma CommentAlone(comment: string)
    requires comment == "" || comment[0] == '#'
    ensures CommentFrom(comment, false, false) == if comment == "" then "" else TrimSpace(comment)
    ensures comment != "" ==> TrimSpace(comment) != ""
  {
    if comment != "" { TrimHead(comment); }
    hide TrimSpace;
  }

  /** Last write wins: writing v1 and then v2 leaves what writing v2 alone leaves. */
  lemma LastWriteWins(line: string, key: string, v1: string, v2: string, wide: Printable)
    requires BareKey(key)
    ensures ReplacedLine(ReplacedLine(line, key, v1, wide), key, v2, wide) == ReplacedLine(line, key, v2, wide)
  {
    RewriteKeeps(line, key, v1, wide);
  }
}
