/** The lines of one chat platform in a configuration file (config/config.go,
    SaveFeishuPlatformCredentials): its main table with the type, and the first of its options
    tables. Setting the type touches only the main table, making an options table adds lines
    behind everything else, and setting an option touches only the body of that table; each of
    the three leaves a platform of the same project, with the same first line. How the edits
    are put together is in module TomlCredentials, and how they are made by line number in
    module TomlCredentialUpdate. */
module TomlPlatform {
  import opened Text
  import opened TomlLines
  import opened TomlValues
  import opened Search
  import opened TomlSpans
  import opened TomlSections
  import opened TomlEdits

  ghost predicate IsPlatform(q: seq<string>) {
    IsGroup(q, Header(PLATFORMS)) && Free(q, Header(PROJECTS))
  }

  // ----- the platform's own lines

  /** The body of the platform's main table. */
  function Main(q: seq<string>): seq<string>
    requires q != []
  {
    Cut(q, 0).body
  }

  /** The body of its first options table. */
  function OptionsBody(q: seq<string>): Option<seq<string>> {
    var f := First(q, Header(PLATFORM_OPTIONS));
    if f < |q| then Some(Cut(q, f).body) else None
  }

  function MainLine(q: seq<string>, key: string): Option<string>
    requires q != []
  {
    LineOf(Main(q), key)
  }

  function PlatformOption(q: seq<string>, key: string): Option<string> {
    match OptionsBody(q) case None => None case Some(body) => LineOf(body, key)
  }

  /** The type line rewritten, or a new one in front. */
  function TypeSet(body: seq<string>, value: string, wide: Printable): seq<string> {
    var i := First(body, ForKey(TYPE));
    if i < |body| then body[i := ReplacedLine(body[i], TYPE, value, wide)] else [KeyLine(TYPE, value, wide)] + body
  }

  function WithType(q: seq<string>, value: string, wide: Printable): seq<string>
    requires q != []
  {
    if value == "" then q else var s := Cut(q, 0); s.(body := TypeSet(s.body, value, wide)).Lines()
  }

  /** A new options table, set off by blank lines: before it unless the line above is blank
      already, behind it if the file goes on. */
  function NewOptionsTable(q: seq<string>, more: bool): seq<string>
    requires q != []
  {
    (if TrimSpace(q[|q| - 1]) != "" then [""] else []) + [PLATFORM_OPTIONS] + (if more then [""] else [])
  }

  function WithOptionsTable(q: seq<string>, more: bool): seq<string>
    requires q != []
  {
    if First(q, Header(PLATFORM_OPTIONS)) < |q| then q else q + NewOptionsTable(q, more)
  }

  function WithOption(q: seq<string>, key: string, value: string, wide: Printable): seq<string> {
    var f := First(q, Header(PLATFORM_OPTIONS));
    if f < |q| then SetIn(q, f, key, value, wide) else q
  }

  // ----- what single steps do

  /** Lines before any options table do not matter to it. */
  lemma OptionsBodyTail(x: seq<string>, y: seq<string>)
    requires Free(x, Header(PLATFORM_OPTIONS))
    ensures OptionsBody(x + y) == OptionsBody(y)
  {
    hide MatchTableHeader, IsAnyTableHeader;
    var p := Header(PLATFORM_OPTIONS);
    var f := First(y, p);
    FirstIs(y, p);
    FirstUnique(x + y, p, |x| + f);
    hide First;
    if f < |y| { assert (x + y)[|x| + f + 1..] == y[f + 1..]; }
  }

  lemma TypeSetShape(body: seq<string>, value: string, wide: Printable) returns (line: string)
    ensures var i := First(body, ForKey(TYPE));
      TypeSet(body, value, wide) == if i < |body| then body[i := line] else [line] + body
    ensures Wrote(line, TYPE, value)
  {
    TypeIsBare();
    hide First, KeyLine, ReplacedLine, MatchTomlStringKey, IsAnyTableHeader, ReadKeyLine, AllReadable, BareKey;
    var i := First(body, ForKey(TYPE));
    if i < |body| {
      line := ReplacedLine(body[i], TYPE, value, wide);
      RewrittenLineReads(body[i], TYPE, value, wide);
    } else {
      line := KeyLine(TYPE, value, wide);
      NewLineReads(TYPE, value, wide);
    }
  }

  lemma TypeIsBare()
    ensures BareKey(TYPE)
  {
  }

  lemma TypeSetReads(body: seq<string>, value: string, wide: Printable)
    ensures ValueOf(TypeSet(body, value, wide), TYPE) == ReadBack(value)
  {
    var line := TypeSetShape(body, value, wide);
    hide TypeSet, MatchTomlStringKey, IsAnyTableHeader, ReadKeyLine, ReadBack;
    FirstIs(body, ForKey(TYPE));
    var i := First(body, ForKey(TYPE));
    FirstUnique(TypeSet(body, value, wide), ForKey(TYPE), if i < |body| then i else 0);
  }

  lemma TypeSetOthers(body: seq<string>, value: string, wide: Printable, other: string)
    requires BareKey(other) && other != TYPE
    ensures LineOf(TypeSet(body, value, wide), other) == LineOf(body, other)
  {
    var line := TypeSetShape(body, value, wide);
    TypeIsBare();
    NotBoth(line, TYPE, other);
    hide TypeSet, MatchTomlStringKey, IsAnyTableHeader, ReadKeyLine, ReadBack, BareKey;
    FirstIs(body, ForKey(TYPE));
    var i := First(body, ForKey(TYPE));
    if i < |body| {
      NotBoth(body[i], TYPE, other);
      hide LineOf, First;
      LineUpdated(body, i, line, other);
    } else {
      hide LineOf, First;
      LineInFront(body, line, other);
    }
  }

  lemma LineUpdated(body: seq<string>, i: nat, line: string, other: string)
    requires i < |body| && !MatchTomlStringKey(body[i], other) && !MatchTomlStringKey(line, other)
    ensures LineOf(body[i := line], other) == LineOf(body, other)
  {
    hide MatchTomlStringKey, First;
    FirstUpdate(body, i, line, ForKey(other));
    FirstIs(body, ForKey(other));
  }

  lemma LineInFront(body: seq<string>, line: string, other: string)
    requires !MatchTomlStringKey(line, other)
    ensures LineOf([line] + body, other) == LineOf(body, other)
  {
    hide MatchTomlStringKey;
    assert ([line] + body)[1..] == body;
  }

  lemma TypeSetPlain(body: seq<string>, value: string, wide: Printable)
    requires NoHeaders(body)
    ensures NoHeaders(TypeSet(body, value, wide))
  {
    var line := TypeSetShape(body, value, wide);
    hide TypeSet, MatchTomlStringKey, IsAnyTableHeader, ReadKeyLine, ReadBack, First;
  }

  /** The main table ends before any further header, whatever follows that. */
  lemma MainPrefix(x: seq<string>, h: string, y: seq<string>, y': seq<string>)
    requires x != [] && IsAnyTableHeader(h)
    ensures Main(x + [h] + y) == Main(x + [h] + y')
  {
    hide IsAnyTableHeader;
    var p := AnyHeader();
    var r, r' := x[1..] + [h] + y, x[1..] + [h] + y';
    assert (x + [h] + y)[1..] == r && (x + [h] + y')[1..] == r';
    FirstIs(r, p);
    assert r[|x| - 1] == h && r'[|x| - 1] == h;
    assert First(r, p) <= |x| - 1;
    assert forall k :: 0 <= k <= |x| - 1 ==> r[k] == r'[k];
    FirstUnique(r', p, First(r, p));
    hide First;
    assert r[..First(r, p)] == r'[..First(r, p)];
  }

  lemma FreeWithBody(s: Section, body: seq<string>, header: string)
    requires "[" <= header && NoHeaders(body) && Free(s.Lines(), Header(header))
    ensures Free(s.(body := body).Lines(), Header(header))
  {
    var p, x := Header(header), s.before + [s.header];
    NoHeadersFree(body, header);
    SplitLinesOf(s);
    SplitLinesOf(s.(body := body));
    hide *;
    FreeAround(x, s.body, s.after, p);
    FreeAround(x, body, s.after, p);
  }

  lemma FreeAround(x: seq<string>, body: seq<string>, y: seq<string>, p: string -> bool)
    ensures Free(x + (body + y), p) <==> Free(x, p) && Free(body, p) && Free(y, p)
  {
    hide Free;
    FreeConcat(body, y, p);
    FreeConcat(x, body + y, p);
  }

  /** Replacing the body of one section by another without headers leaves a platform. */
  lemma PlatformWithBody(s: Section, body: seq<string>)
    requires Proper(s) && NoHeaders(body) && IsPlatform(s.Lines())
    ensures IsPlatform(s.(body := body).Lines())
  {
    SectionGroup(s, body, PLATFORMS);
    FreeWithBody(s, body, PROJECTS);
    hide MatchTableHeader, IsAnyTableHeader;
  }

  lemma PlatformHeaderOnly(line: string)
    requires MatchTableHeader(line, PLATFORMS)
    ensures !MatchTableHeader(line, PLATFORM_OPTIONS)
  {
    assert PLATFORM_OPTIONS[1] == 'p' && PLATFORMS[1] == '[';
    HeadersDiffer(line, PLATFORMS, PLATFORM_OPTIONS, 1);
  }

  /** Setting the type changes the main table and not the options. */
  lemma WithTypeIs(q: seq<string>, value: string, wide: Printable)
    requires IsPlatform(q) && value != ""
    ensures var r := WithType(q, value, wide);
      IsPlatform(r) && r != [] && Main(r) == TypeSet(Main(q), value, wide) && OptionsBody(r) == OptionsBody(q)
  {
    CutIs(q, 0);
    var s := Cut(q, 0);
    var body := TypeSet(s.body, value, wide);
    TypeSetPlain(s.body, value, wide);
    PlatformWithBody(s, body);
    CutUnique(s.(body := body));
    PlatformHeaderOnly(q[0]);
    NoHeadersFree(s.body, PLATFORM_OPTIONS);
    NoHeadersFree(body, PLATFORM_OPTIONS);
    hide MatchTableHeader, IsAnyTableHeader, TypeSet, First, IsPlatform, OptionsBody;
    TailSame(s.header, s.body, s.after);
    TailSame(s.header, body, s.after);
    assert s.before == [] && [] + [s.header] == [s.header];
    assert s.Lines() == [s.header] + s.body + s.after && s.(body := body).Lines() == [s.header] + body + s.after;
  }

  lemma TailSame(header: string, body: seq<string>, after: seq<string>)
    requires !MatchTableHeader(header, PLATFORM_OPTIONS) && Free(body, Header(PLATFORM_OPTIONS))
    ensures OptionsBody([header] + body + after) == OptionsBody(after)
  {
    hide MatchTableHeader, OptionsBody;
    FreeConcat([header], body, Header(PLATFORM_OPTIONS));
    OptionsBodyTail([header] + body, after);
  }

  /** Setting an option changes the options and not the main table. */
  lemma WithOptionIs(q: seq<string>, key: string, value: string, wide: Printable)
    requires IsPlatform(q) && OptionsBody(q).Some? && BareKey(key)
    ensures var r := WithOption(q, key, value, wide);
      IsPlatform(r) && r != [] && Main(r) == Main(q) && OptionsBody(r) == Some(Upserted(OptionsBody(q).value, key, value, wide))
  {
    var p := Header(PLATFORM_OPTIONS);
    var f := First(q, p);
    FirstIs(q, p);
    PlatformHeaderOnly(q[0]);
    CutIs(q, f);
    var s := Cut(q, f);
    var body := Upserted(s.body, key, value, wide);
    UpsertedPlain(s.body, key, value, wide);
    PlatformWithBody(s, body);
    CutUnique(s.(body := body));
    HeaderIsAny(s.header, PLATFORM_OPTIONS);
    SplitLinesOf(s);
    SplitLinesOf(s.(body := body));
    FirstSection(q, s, body, p);
    hide MatchTableHeader, IsAnyTableHeader, Upserted, First, IsPlatform;
    MainPrefix(s.before, s.header, s.body + s.after, body + s.after);
  }

  /** The first section with a header stays the first when its body changes. */
  lemma FirstSection(q: seq<string>, s: Section, body: seq<string>, p: string -> bool)
    requires q == s.Lines() && p(s.header) && NoHit(q, p, 0, |s.before|)
    ensures First(s.(body := body).Lines(), p) == |s.before|
  {
    SplitLinesOf(s.(body := body));
    assert forall k :: 0 <= k < |s.before| ==> s.before[k] == q[k];
    FirstOf(s.before, s.header, body + s.after, p);
  }

  lemma BlankMatchesNothing(key: string)
    ensures !MatchTomlStringKey("", key)
  {
  }

  lemma BlankLast(body: seq<string>, key: string)
    ensures LineOf(body + [""], key) == LineOf(body, key)
  {
    BlankMatchesNothing(key);
    hide MatchTomlStringKey;
    FirstSnoc(body, "", ForKey(key));
    FirstIs(body, ForKey(key));
  }

  lemma MainIs(h: string, body: seq<string>, y: seq<string>)
    requires NoHeaders(body) && (y == [] || IsAnyTableHeader(y[0]))
    ensures Main([h] + body + y) == body
  {
    var s := Section([], h, body, y);
    CutUnique(s);
    hide Cut, NoHeaders, IsAnyTableHeader;
    assert [] + [h] == [h];
  }

  /** Appending a header, after a blank line or not, keeps every line of the main table. */
  lemma MainExtended(q: seq<string>, pre: seq<string>, h: string, post: seq<string>, key: string)
    requires q != [] && IsAnyTableHeader(h) && Blank(pre)
    ensures MainLine(q + pre + [h] + post, key) == MainLine(q, key)
  {
    hide *;
    MainSplit(q);
    var body, after := Main(q), Cut(q, 0).after;
    if after == [] {
      MainAtEnd(q, body, pre, h, post, key);
    } else {
      MainInside(q, body, after, pre + [h] + post);
      assert q + pre + [h] + post == q + (pre + [h] + post);
      MainLineIs(q + pre + [h] + post, key);
      MainLineIs(q, key);
    }
  }

  lemma MainLineIs(q: seq<string>, key: string)
    requires q != []
    ensures MainLine(q, key) == LineOf(Main(q), key)
  {
  }

  lemma MainSplit(q: seq<string>)
    requires q != []
    ensures var after := Cut(q, 0).after;
      q == [q[0]] + Main(q) + after && NoHeaders(Main(q)) && (after == [] || IsAnyTableHeader(after[0]))
  {
    CutIs(q, 0);
    var s := Cut(q, 0);
    hide IsAnyTableHeader, Cut, NoHeaders;
    assert [] + [s.header] == [s.header];
  }

  lemma MainInside(q: seq<string>, body: seq<string>, after: seq<string>, more: seq<string>)
    requires q != [] && q == [q[0]] + body + after && after != [] && IsAnyTableHeader(after[0])
    ensures q + more != [] && Main(q + more) == Main(q)
  {
    hide Main, IsAnyTableHeader;
    var x := [q[0]] + body;
    MainPrefix(x, after[0], after[1..], after[1..] + more);
    assert after == [after[0]] + after[1..];
    assert q == x + [after[0]] + after[1..] && q + more == x + [after[0]] + (after[1..] + more);
  }

  lemma MainAtEnd(q: seq<string>, body: seq<string>, pre: seq<string>, h: string, post: seq<string>, key: string)
    requires q != [] && q == [q[0]] + body + [] && body == Main(q) && NoHeaders(body) && Blank(pre) && IsAnyTableHeader(h)
    ensures MainLine(q + pre + [h] + post, key) == MainLine(q, key)
  {
    hide *;
    PlainWithBlank(body, pre);
    MainIs(q[0], body + pre, [h] + post);
    assert q + pre + [h] + post == [q[0]] + (body + pre) + ([h] + post);
    MainLineIs(q + pre + [h] + post, key);
    MainLineIs(q, key);
    LineWithBlank(body, pre, key);
  }

  lemma PlainWithBlank(body: seq<string>, pre: seq<string>)
    requires NoHeaders(body) && Blank(pre)
    ensures NoHeaders(body + pre)
  {
    BlankFree(pre, PLATFORMS);
    FreeConcat(body, pre, AnyHeader());
  }

  lemma LineWithBlank(body: seq<string>, pre: seq<string>, key: string)
    requires Blank(pre)
    ensures LineOf(body + pre, key) == LineOf(body, key)
  {
    BlankLast(body, key);
    hide LineOf;
    assert body + [] == body;
  }

  ghost predicate Blank(lines: seq<string>) {
    lines == [] || lines == [""]
  }

  lemma BlankFree(lines: seq<string>, header: string)
    requires Blank(lines) && header in [PROJECTS, PLATFORMS, PLATFORM_OPTIONS]
    ensures Free(lines, Header(header)) && NoHeaders(lines)
  {
    BlankIsNoHeader();
    NoHeadersFree(lines, header);
  }

  lemma OptionsTableHeader()
    ensures MatchTableHeader(PLATFORM_OPTIONS, PLATFORM_OPTIONS) && IsAnyTableHeader(PLATFORM_OPTIONS)
    ensures !MatchTableHeader(PLATFORM_OPTIONS, PLATFORMS) && !MatchTableHeader(PLATFORM_OPTIONS, PROJECTS)
  {
    HeaderMatchesItself(PLATFORM_OPTIONS);
    assert PLATFORM_OPTIONS[1] == 'p' && PLATFORMS[1] == '[' && PROJECTS[1] == '[';
    hide MatchTableHeader, IsAnyTableHeader;
    HeadersDiffer(PLATFORM_OPTIONS, PLATFORM_OPTIONS, PLATFORMS, 1);
    HeadersDiffer(PLATFORM_OPTIONS, PLATFORM_OPTIONS, PROJECTS, 1);
  }

  lemma BlockFree(pre: seq<string>, post: seq<string>, header: string)
    requires Blank(pre) && Blank(post) && header in [PROJECTS, PLATFORMS, PLATFORM_OPTIONS]
        && !MatchTableHeader(PLATFORM_OPTIONS, header)
    ensures Free(pre + [PLATFORM_OPTIONS] + post, Header(header))
  {
    BlankFree(pre, header);
    BlankFree(post, header);
    assert !Header(header)(PLATFORM_OPTIONS);
    hide MatchTableHeader, PLATFORM_OPTIONS, Header;
    FreeAround(pre, [PLATFORM_OPTIONS], post, Header(header));
    assert pre + [PLATFORM_OPTIONS] + post == pre + ([PLATFORM_OPTIONS] + post);
  }

  lemma NewOptionsBody(q: seq<string>, pre: seq<string>, post: seq<string>)
    requires Free(q, Header(PLATFORM_OPTIONS)) && Blank(pre) && Blank(post)
    ensures OptionsBody(q + (pre + [PLATFORM_OPTIONS] + post)) == Some(post)
  {
    hide *;
    OptionsTableHeader();
    BlankFree(pre, PLATFORM_OPTIONS);
    BlankFree(post, PLATFORM_OPTIONS);
    var p, h := Header(PLATFORM_OPTIONS), PLATFORM_OPTIONS;
    OneSection(h, post);
    FreeConcat(q, pre, p);
    OptionsBodyTail(q + pre, [h] + post);
    assert q + (pre + [h] + post) == q + pre + ([h] + post);
  }

  lemma OneSection(h: string, post: seq<string>)
    requires MatchTableHeader(h, PLATFORM_OPTIONS) && NoHeaders(post)
    ensures OptionsBody([h] + post) == Some(post)
  {
    hide MatchTableHeader, IsAnyTableHeader;
    MainIs(h, post, []);
    assert [h] + post + [] == [h] + post;
    assert First([h] + post, Header(PLATFORM_OPTIONS)) == 0;
  }

  /** Making the options table leaves the main table alone; the new table holds nothing but
      a blank line. */
  lemma WithOptionsTableIs(q: seq<string>, more: bool)
    requires IsPlatform(q)
    ensures var r := WithOptionsTable(q, more);
      && IsPlatform(r) && r != [] && OptionsBody(r).Some?
      && (OptionsBody(q).Some? ==> r == q)
      && (OptionsBody(q) == None ==> Blank(OptionsBody(r).value))
  {
    var p := Header(PLATFORM_OPTIONS);
    FirstNone(q, p);
    if First(q, p) == |q| {
      var pre := if TrimSpace(q[|q| - 1]) != "" then [""] else [];
      var post := if more then [""] else [];
      OptionsTableHeader();
      BlockFree(pre, post, PLATFORMS);
      BlockFree(pre, post, PROJECTS);
      NewOptionsBody(q, pre, post);
      IsGroupParts(q, NewOptionsTable(q, more), Header(PLATFORMS));
      FreeConcat(q, NewOptionsTable(q, more), Header(PROJECTS));
      hide MatchTableHeader, Free, IsGroup, First, TrimSpace, Cut;
    }
  }

  lemma WithOptionsTableMain(q: seq<string>, more: bool, key: string)
    requires IsPlatform(q)
    ensures WithOptionsTable(q, more) != [] && MainLine(WithOptionsTable(q, more), key) == MainLine(q, key)
  {
    hide *;
    WithOptionsTableIs(q, more);
    PlatformIsGroup(q);
    if OptionsBody(q) == None {
      OptionsTableHeader();
      var pre, post := OptionsTableAdded(q, more);
      MainExtended(q, pre, PLATFORM_OPTIONS, post, key);
    }
  }

  lemma PlatformIsGroup(q: seq<string>)
    requires IsPlatform(q)
    ensures q != [] && MatchTableHeader(q[0], PLATFORMS)
  {
    hide MatchTableHeader;
  }

  lemma OptionsTableAdded(q: seq<string>, more: bool) returns (pre: seq<string>, post: seq<string>)
    requires q != [] && OptionsBody(q) == None
    ensures Blank(pre) && Blank(post) && WithOptionsTable(q, more) == q + pre + [PLATFORM_OPTIONS] + post
  {
    hide First, Cut, TrimSpace, Header, PLATFORM_OPTIONS;
    pre := if TrimSpace(q[|q| - 1]) != "" then [""] else [];
    post := if more then [""] else [];
    assert q + (pre + [PLATFORM_OPTIONS] + post) == q + pre + [PLATFORM_OPTIONS] + post;
  }
}
