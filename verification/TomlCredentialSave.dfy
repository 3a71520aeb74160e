/** The credential update through the whole write path: split, edit, join, tidy, read again
    (config/config.go, SaveFeishuPlatformCredentials and writeRawConfig). */
module TomlCredentialSave {
  import opened Text
  import opened TomlLines
  import opened TomlValues
  import opened Search
  import opened TomlSpans
  import opened TomlSections
  import opened TomlEdits
  import opened TomlPlatform
  import opened TomlCredentials
  import opened TomlCredentialUpdate
  import opened TomlFormat
  import opened TomlFormatProperties
  import opened TomlTidying
  import opened TomlKept
  import opened TomlSave

  /** The lines of project p, and of its platform j. */
  function ProjectOf(lines: seq<string>, p: nat): seq<string>
    requires p < |Groups(lines, Header(PROJECTS)).1|
  {
    Groups(lines, Header(PROJECTS)).1[p]
  }

  function PlatformOf(lines: seq<string>, p: nat, j: nat): seq<string>
    requires p < |Groups(lines, Header(PROJECTS)).1| && j < |Groups(ProjectOf(lines, p), Header(PLATFORMS)).1|
  {
    Groups(ProjectOf(lines, p), Header(PLATFORMS)).1[j]
  }

  // ----- tidying a platform

  /** The first options table holds something, or it is the only one. */
  ghost predicate TableSafe(q: seq<string>) {
    var f := First(q, Header(PLATFORM_OPTIONS));
    f < |q| ==> NonBlank(Cut(q, f).body) != [] || Free(Cut(q, f).after, Header(PLATFORM_OPTIONS))
  }

  lemma OptionsBracket()
    ensures "[" <= PLATFORM_OPTIONS && "[" <= PLATFORMS && "[" <= PROJECTS
  {
  }

  /** The first options table, if there is one, as a section. */
  lemma FirstTable(q: seq<string>) returns (c: Section)
    requires First(q, Header(PLATFORM_OPTIONS)) < |q|
    ensures c == Cut(q, First(q, Header(PLATFORM_OPTIONS))) && c.Lines() == q && Proper(c)
    ensures MatchTableHeader(c.header, PLATFORM_OPTIONS) && Free(c.before, Header(PLATFORM_OPTIONS))
    ensures OptionsBody(q) == Some(c.body)
  {
    FirstIs(q, Header(PLATFORM_OPTIONS));
    CutIs(q, First(q, Header(PLATFORM_OPTIONS)));
    c := Cut(q, First(q, Header(PLATFORM_OPTIONS)));
    hide MatchTableHeader, IsAnyTableHeader, Cut, First;
    assert forall k :: 0 <= k < |c.before| ==> c.before[k] == q[k];
  }

  lemma NoTable(q: seq<string>, key: string)
    requires First(q, Header(PLATFORM_OPTIONS)) == |q|
    ensures OptionsBody(q) == None && OptionValueOf(q, key) == None
  {
  }

  lemma NoTableIff(q: seq<string>)
    ensures Free(q, Header(PLATFORM_OPTIONS)) <==> First(q, Header(PLATFORM_OPTIONS)) == |q|
    ensures First(q, Header(PLATFORM_OPTIONS)) <= |q|
  {
    FirstNone(q, Header(PLATFORM_OPTIONS));
    FirstIs(q, Header(PLATFORM_OPTIONS));
    hide First, MatchTableHeader;
  }

  /** Tidying a platform keeps the value of every option. */
  lemma TableKept(q: seq<string>, key: string)
    requires TableSafe(q)
    ensures OptionValueOf(Left(q), key) == OptionValueOf(q, key)
  {
    hide *;
    OptionsBracket();
    NoTableIff(q);
    if First(q, Header(PLATFORM_OPTIONS)) == |q| {
      FreeLeft(q, PLATFORM_OPTIONS);
      NoTableIff(Left(q));
      NoTable(q, key);
      NoTable(Left(q), key);
    } else {
      var c := FirstTable(q);
      TableSafeIs(q);
      OptionValueIs(q, c.body, key);
      if NonBlank(c.body) != [] { FilledTableKept(q, c, key); } else { EmptyTableGoes(q, c, key); }
    }
  }

  lemma TableSafeIs(q: seq<string>)
    requires First(q, Header(PLATFORM_OPTIONS)) < |q|
    ensures TableSafe(q) <==>
      (var c := Cut(q, First(q, Header(PLATFORM_OPTIONS)));
       NonBlank(c.body) != [] || Free(c.after, Header(PLATFORM_OPTIONS)))
  {
    hide First, NonBlank, Cut, Free, Header;
  }

  lemma FilledTableKept(q: seq<string>, c: Section, key: string)
    requires c.Lines() == q && Proper(c) && MatchTableHeader(c.header, PLATFORM_OPTIONS)
    requires Free(c.before, Header(PLATFORM_OPTIONS)) && NonBlank(c.body) != []
    ensures OptionValueOf(Left(q), key) == ValueOf(c.body, key)
  {
    hide *;
    OptionsBracket();
    HeaderIsAny(c.header, PLATFORM_OPTIONS);
    LeftOfSection(c);
    FreeLeft(c.before, PLATFORM_OPTIONS);
    TrimTailMatches(c.header, PLATFORM_OPTIONS);
    var t := Section(Left(c.before), TrimTail(c.header), Cuts(NonBlank(c.body)), Left(c.after));
    TableOf(t);
    OptionValueIs(Left(q), t.body, key);
    ValueCuts(NonBlank(c.body), key);
    ValueNonBlank(c.body, key);
  }

  lemma TableOf(t: Section)
    requires Proper(t) && MatchTableHeader(t.header, PLATFORM_OPTIONS) && Free(t.before, Header(PLATFORM_OPTIONS))
    ensures OptionsBody(t.Lines()) == Some(t.body)
  {
    CutUnique(t);
    SplitLinesOf(t);
    FirstOf(t.before, t.header, t.body + t.after, Header(PLATFORM_OPTIONS));
    hide First, Cut, MatchTableHeader, Free;
  }

  lemma EmptyTableGoes(q: seq<string>, c: Section, key: string)
    requires c.Lines() == q && Proper(c) && MatchTableHeader(c.header, PLATFORM_OPTIONS)
    requires Free(c.before, Header(PLATFORM_OPTIONS)) && Free(c.after, Header(PLATFORM_OPTIONS)) && NonBlank(c.body) == []
    ensures OptionValueOf(Left(q), key) == ValueOf(c.body, key)
  {
    hide *;
    OptionsBracket();
    var p, tail := Header(PLATFORM_OPTIONS), [c.header] + (c.body + c.after);
    ProperBody(c);
    ProperEnds(c);
    StartsIs(c.after);
    NoHeadersFree(c.body, PLATFORM_OPTIONS);
    FreeConcat(c.body, c.after, p);
    HeaderStays(c.header, PLATFORM_OPTIONS, c.body, c.after);
    HeaderIsAny(c.header, PLATFORM_OPTIONS);
    SplitLinesOf(c);
    assert q == c.before + tail;
    StartsIs(tail);
    LeftConcat(c.before, tail);
    FreeLeft(c.before, PLATFORM_OPTIONS);
    CountFree(Left(tail), p);
    FreeConcat(Left(c.before), Left(tail), p);
    NoTableIff(Left(q));
    NoTable(Left(q), key);
    ValueNonBlank(c.body, key);
    NoValue(key);
  }

  /** In a tidy file every options table holds something. */
  lemma TidyTableSafe(x: seq<string>, q: seq<string>, y: seq<string>)
    requires NoneSkipped(x + q + y) && (y == [] || IsAnyTableHeader(y[0]))
    ensures TableSafe(q)
  {
    hide *;
    OptionsBracket();
    NoTableIff(q);
    if First(q, Header(PLATFORM_OPTIONS)) == |q| {
      NoTableSafe(q);
    } else {
      var c := FirstTable(q);
      TableSafeIs(q);
      HeaderIsAny(c.header, PLATFORM_OPTIONS);
      ProperEnds(c);
      SplitLinesOf(c);
      HeadOfConcat(c.after, y);
      assert x + q + y == (x + c.before) + [c.header] + (c.body + (c.after + y));
      SectionFilled(x + c.before, c.header, c.body, c.after + y);
    }
  }

  lemma NoTableSafe(q: seq<string>)
    requires First(q, Header(PLATFORM_OPTIONS)) == |q|
    ensures TableSafe(q)
  {
  }

  /** Neither a project up to project p nor a platform of it up to platform j has an empty table
      of its own, nor, with `ahead` 1, the next ones; `typed`: platform j is about to get its
      type. */
  ghost predicate KeptTo(lines: seq<string>, p: nat, j: nat, ahead: nat, typed: bool) {
    && HasPlatform(lines, p, j) && StayTo(lines, PROJECTS, p + ahead)
    && var qs := Groups(ProjectOf(lines, p), Header(PLATFORMS)).1;
    forall k :: 0 <= k < |qs| && k <= j + ahead ==> Stays(qs[k]) || (typed && k == j)
  }

  lemma KeptToIs(lines: seq<string>, p: nat, j: nat, ahead: nat)
    requires KeptTo(lines, p, j, ahead, false)
    ensures p < |Groups(lines, Header(PROJECTS)).1| && j < |Groups(ProjectOf(lines, p), Header(PLATFORMS)).1|
    ensures StayTo(lines, PROJECTS, p + ahead) && StayTo(ProjectOf(lines, p), PLATFORMS, j + ahead)
    ensures Stays(PlatformOf(lines, p, j))
  {
    hide Groups, Stays;
  }

  /** Tidying keeps the numbers of a platform and all its values. */
  lemma FormatKeepsPlatform(lines: seq<string>, p: nat, j: nat, key: string)
    requires KeptTo(lines, p, j, 1, false) && TableSafe(PlatformOf(lines, p, j))
    ensures HasPlatform(Formatted(lines), p, j)
    ensures var q, r := PlatformOf(lines, p, j), PlatformOf(Formatted(lines), p, j);
      q != [] && r != [] && ValueOf(Main(r), key) == ValueOf(Main(q), key) && OptionValueOf(r, key) == OptionValueOf(q, key)
  {
    hide *;
    OptionsBracket();
    KeptToIs(lines, p, j, 1);
    var f, s, q := Formatted(lines), ProjectOf(lines, p), PlatformOf(lines, p, j);
    ProjectOfIs(lines, p);
    PlatformOfIs(lines, p, j);
    FormatKeepsGroup(lines, PROJECTS, p);
    ProjectOfIs(f, p);
    var s' := ProjectOf(f, p);
    TidyLeft(lines);
    GroupCount(f, Header(PROJECTS));
    var a, g, c := GroupAt(f, Header(PROJECTS), p);
    FrontOf(c, PROJECTS);
    TidyStays(a, s', c, PLATFORMS);
    GroupLeft(s, PLATFORMS, j);
    SameNumbers(s', s, PLATFORMS, j);
    HasPlatformAt(f, p, j);
    PlatformOfIs(f, p, j);
    var q' := PlatformOf(f, p, j);
    AllStayAt(Groups(s', Header(PLATFORMS)).1, j);
    GroupCount(s', Header(PLATFORMS));
    var b, h, d := GroupAt(s', Header(PLATFORMS), j);
    FrontOf(d, PLATFORMS);
    HeadOfConcat(d, c);
    Nested(a, b, h, d, c);
    TidyTableSafe(a + b, q', d + c);
    GroupOf(s, j);
    SameMain(q', q, PLATFORMS, key);
    MainOf(q);
    MainOf(q');
    TableKept(q, key);
    TableKept(q', key);
  }

  ghost predicate TableFilled(q: seq<string>) {
    OptionsBody(q).Some? && NonBlank(OptionsBody(q).value) != []
  }

  /** Sections behind a platform with an options table change none of its values. */
  lemma MoreBehind(r: seq<string>, more: seq<string>, key: string)
    requires r != [] && OptionsBody(r).Some? && StartsSection(more)
    ensures Cut(r + more, 0).body == Cut(r, 0).body && OptionValueOf(r + more, key) == OptionValueOf(r, key)
  {
    hide *;
    StartsIs(more);
    CutHead(r, more);
    TableThere(r);
    var c := FirstTable(r);
    ProperEnds(c);
    ProperBody(c);
    HeadOfConcat(c.after, more);
    var t := Section(c.before, c.header, c.body, c.after + more);
    IsProper(t);
    TableOf(t);
    SplitLinesOf(c);
    SplitLinesOf(t);
    assert r + more == c.before + [c.header] + (c.body + (c.after + more));
    OptionValueIs(r, c.body, key);
    OptionValueIs(r + more, c.body, key);
  }

  lemma TableThere(q: seq<string>)
    requires OptionsBody(q).Some?
    ensures First(q, Header(PLATFORM_OPTIONS)) < |q|
  {
    hide First, Cut, Header;
  }

  lemma FilledLeft(q: seq<string>)
    requires TableFilled(q)
    ensures TableSafe(q) && OptionsBody(Left(q)).Some?
  {
    hide *;
    OptionsBracket();
    TableFilledIs(q);
    FilledTableSafe(q);
    TableThere(q);
    var c := FirstTable(q);
    HeaderIsAny(c.header, PLATFORM_OPTIONS);
    LeftOfSection(c);
    FreeLeft(c.before, PLATFORM_OPTIONS);
    TrimTailMatches(c.header, PLATFORM_OPTIONS);
    TableOf(Section(Left(c.before), TrimTail(c.header), Cuts(NonBlank(c.body)), Left(c.after)));
  }

  lemma TableFilledIs(q: seq<string>)
    ensures TableFilled(q) <==> OptionsBody(q).Some? && NonBlank(OptionsBody(q).value) != []
  {
    hide OptionsBody, NonBlank;
  }

  /** What one platform leaves, with sections behind it, is what a tidy one leaves: they have
      the same values. */
  lemma SameValues(q: seq<string>, more: seq<string>, r: seq<string>, key: string)
    requires IsGroup(q, Header(PLATFORMS)) && Stays(q) && TableFilled(q) && StartsSection(more)
    requires IsGroup(r, Header(PLATFORMS)) && Stays(r) && TableSafe(r) && Left(r) == Left(q) + more
    ensures q != [] && r != [] && ValueOf(Main(r), key) == ValueOf(Main(q), key) && OptionValueOf(r, key) == OptionValueOf(q, key)
  {
    hide *;
    OptionsBracket();
    FilledLeft(q);
    MainLeft(q, PLATFORMS, key);
    MainLeft(r, PLATFORMS, key);
    MoreBehind(Left(q), more, key);
    TableKept(q, key);
    TableKept(r, key);
    MainOf(q);
    MainOf(r);
  }

  /** A platform whose options are not empty keeps its numbers and its values whatever is dropped
      behind it: what follows then comes behind its own tables. */
  lemma FormatKeepsFilled(lines: seq<string>, p: nat, j: nat, key: string)
    requires KeptTo(lines, p, j, 0, false) && TableFilled(PlatformOf(lines, p, j))
    ensures HasPlatform(Formatted(lines), p, j)
    ensures var q, r := PlatformOf(lines, p, j), PlatformOf(Formatted(lines), p, j);
      q != [] && r != [] && ValueOf(Main(r), key) == ValueOf(Main(q), key) && OptionValueOf(r, key) == OptionValueOf(q, key)
  {
    hide *;
    OptionsBracket();
    KeptToIs(lines, p, j, 0);
    var f, s, q := Formatted(lines), ProjectOf(lines, p), PlatformOf(lines, p, j);
    ProjectOfIs(lines, p);
    PlatformOfIs(lines, p, j);
    TidyLeft(lines);
    assert [] + f + [] == f && Left(lines) + [] == Left(lines);
    StartsIs([]);
    TidyStays([], f, [], PROJECTS);
    var e1 := SameNumbersFront(f, lines, [], PROJECTS, p);
    ProjectOfIs(f, p);
    var s' := ProjectOf(f, p);
    GroupCount(f, Header(PROJECTS));
    var a, g, c := GroupAt(f, Header(PROJECTS), p);
    FrontOf(c, PROJECTS);
    TidyStays(a, s', c, PLATFORMS);
    var e2 := SameNumbersFront(s', s, e1, PLATFORMS, j);
    HasPlatformAt(f, p, j);
    PlatformOfIs(f, p, j);
    var q' := PlatformOf(f, p, j);
    AllStayAt(Groups(s', Header(PLATFORMS)).1, j);
    GroupCount(s', Header(PLATFORMS));
    var b, h, d := GroupAt(s', Header(PLATFORMS), j);
    FrontOf(d, PLATFORMS);
    HeadOfConcat(d, c);
    Nested(a, b, h, d, c);
    TidyTableSafe(a + b, q', d + c);
    GroupOf(s, j);
    SameValues(q, e2, q', key);
  }

  lemma ProjectOfIs(lines: seq<string>, p: nat)
    requires p < |Groups(lines, Header(PROJECTS)).1|
    ensures ProjectOf(lines, p) == Groups(lines, Header(PROJECTS)).1[p]
  {
    hide Groups;
  }

  lemma PlatformOfIs(lines: seq<string>, p: nat, j: nat)
    requires p < |Groups(lines, Header(PROJECTS)).1| && j < |Groups(ProjectOf(lines, p), Header(PLATFORMS)).1|
    ensures PlatformOf(lines, p, j) == Groups(ProjectOf(lines, p), Header(PLATFORMS)).1[j]
  {
    hide Groups, ProjectOf;
  }

  lemma HasPlatformAt(lines: seq<string>, p: nat, j: nat)
    requires p < |Groups(lines, Header(PROJECTS)).1| && j < |Groups(ProjectOf(lines, p), Header(PLATFORMS)).1|
    ensures HasPlatform(lines, p, j)
  {
    hide Groups;
  }

  lemma AllStayAt(gs: seq<seq<string>>, j: nat)
    requires AllStay(gs) && j < |gs|
    ensures Stays(gs[j])
  {
    hide Stays;
  }

  lemma GroupOf(s: seq<string>, j: nat)
    requires j < |Groups(s, Header(PLATFORMS)).1|
    ensures IsGroup(Groups(s, Header(PLATFORMS)).1[j], Header(PLATFORMS))
  {
    hide *;
    GroupCount(s, Header(PLATFORMS));
    var b, h, d := GroupAt(s, Header(PLATFORMS), j);
  }

  lemma MainOf(q: seq<string>)
    ensures q != [] ==> Main(q) == Cut(q, 0).body
  {
    hide Cut;
  }

  // ----- the edited platform

  lemma TypeSetNonBlank(body: seq<string>, value: string, wide: Printable)
    ensures NonBlank(TypeSet(body, value, wide)) != []
  {
    var line := TypeSetShape(body, value, wide);
    BlankNoKey(line, TYPE);
    hide TypeSet, MatchTomlStringKey, IsAnyTableHeader, ReadKeyLine, ReadBack, IsBlank;
    FirstIs(body, ForKey(TYPE));
    var i := First(body, ForKey(TYPE));
    NonBlankHas(TypeSet(body, value, wide), if i < |body| then i else 0);
  }

  lemma WrittenNonBlank(body: seq<string>, cred: Credentials, wide: Printable)
    ensures NonBlank(Written(body, cred, wide)) != []
  {
    KeysAreBare();
    var b := Upserted(body, APP_ID, cred.appId, wide);
    UpsertedFilled(b, APP_SECRET, cred.appSecret, wide);
    if cred.allowFrom.Some? {
      UpsertedFilled(Upserted(b, APP_SECRET, cred.appSecret, wide), ALLOW_FROM, cred.allowFrom.value, wide);
    }
    hide Upserted, NonBlank;
  }

  lemma BlankLines(pre: seq<string>)
    requires Blank(pre)
    ensures NonBlank(pre) == []
  {
    BlankIsBlank();
    hide IsBlank;
    if pre != [] { assert pre[1..] == []; }
  }

  /** Making the options table adds nothing but blank lines to the main table. */
  lemma TableKeepsMain(q: seq<string>, more: bool)
    requires IsPlatform(q)
    ensures q != [] && WithOptionsTable(q, more) != []
    ensures NonBlank(Main(WithOptionsTable(q, more))) == NonBlank(Main(q))
  {
    hide *;
    PlatformIsGroup(q);
    WithOptionsTableIs(q, more);
    if OptionsBody(q) == None {
      OptionsTableHeader();
      var pre, post := OptionsTableAdded(q, more);
      MainSplit(q);
      var h, body, after := PLATFORM_OPTIONS, Main(q), Cut(q, 0).after;
      if after == [] {
        PlainWithBlank(body, pre);
        MainIs(q[0], body + pre, [h] + post);
        assert q + pre + [h] + post == [q[0]] + (body + pre) + ([h] + post);
        NonBlankConcat(body, pre);
        BlankLines(pre);
        assert NonBlank(body) + [] == NonBlank(body);
      } else {
        MainInside(q, body, after, pre + [h] + post);
        assert q + pre + [h] + post == q + (pre + [h] + post);
      }
    }
  }

  /** The edited platform keeps its header when the file is tidied, if it had anything in its
      main table or gets its type, and its options are not empty. */
  lemma UpdatedStays(q: seq<string>, more: bool, cred: Credentials, wide: Printable)
    requires IsPlatform(q)
    ensures IsPlatform(Updated(q, more, cred, wide)) && TableFilled(Updated(q, more, cred, wide))
    ensures Stays(q) || cred.platformType != "" ==> Stays(Updated(q, more, cred, wide))
  {
    hide *;
    PlatformIsGroup(q);
    UpdatedIs(q, more, cred, wide);
    var q0, r := Prepared(q, more, cred.platformType, wide), Updated(q, more, cred, wide);
    EditableIs(r);
    EditableIs(q0);
    WrittenNonBlank(OptionsBody(q0).value, cred, wide);
    TableFilledIs(r);
    var q1 := if cred.platformType != "" then WithType(q, cred.platformType, wide) else q;
    PreparedSteps(q, q1, more, cred.platformType, wide);
    TableKeepsMain(q1, more);
    MainOf(q);
    MainOf(r);
    StaysIs(q);
    StaysIs(r);
    if cred.platformType != "" {
      WithTypeIs(q, cred.platformType, wide);
      TypeSetNonBlank(Main(q), cred.platformType, wide);
    }
  }

  lemma FilledTableSafe(q: seq<string>)
    requires OptionsBody(q).Some? && NonBlank(OptionsBody(q).value) != []
    ensures TableSafe(q)
  {
    hide First, NonBlank, Cut, Free, Header;
  }

  // ----- the edited file

  /** Lines behind a header do not change what the first table holds. */
  lemma CutHead(x: seq<string>, y: seq<string>)
    requires x != [] && (y == [] || IsAnyTableHeader(y[0]))
    ensures Cut(x + y, 0).body == Cut(x, 0).body
  {
    hide *;
    CutIs(x, 0);
    var c := Cut(x, 0);
    EmptyFront(c.before);
    ProperBody(c);
    ProperEnds(c);
    HeadOfConcat(c.after, y);
    var t := Section([], c.header, c.body, c.after + y);
    IsProper(t);
    CutUnique(t);
    TailOfSection(c);
    TailOfSection(t);
    assert x + y == [c.header] + (c.body + (c.after + y));
  }

  lemma SameFront(w: Place, q: seq<string>, q': seq<string>, p: nat, j: nat)
    requires Located(w, p, j) && IsPlatform(q) && IsPlatform(q')
    ensures Stays(w.b + q + w.d) <==> Stays(w.b + q' + w.d)
  {
    hide *;
    OptionsBracket();
    ProjectIsGroup(w, q, p, j);
    PlatformIsGroup(q);
    PlatformIsGroup(q');
    HeaderIsAny(q[0], PLATFORMS);
    HeaderIsAny(q'[0], PLATFORMS);
    HeadOfConcat(q, w.d);
    HeadOfConcat(q', w.d);
    assert w.b + q + w.d == w.b + (q + w.d) && w.b + q' + w.d == w.b + (q' + w.d);
    CutHead(w.b, q + w.d);
    CutHead(w.b, q' + w.d);
    StaysIs(w.b + q + w.d);
    StaysIs(w.b + q' + w.d);
  }

  /** What the update makes of the projects and platforms of the file. */
  lemma UpdateGroups(lines: seq<string>, p: nat, j: nat, cred: Credentials, wide: Printable, out: seq<string>)
      returns (q: seq<string>, q': seq<string>, more: bool)
    requires IsUpdate(lines, p, j, cred, wide, out)
    ensures HasPlatform(lines, p, j) && HasPlatform(out, p, j)
    ensures q == PlatformOf(lines, p, j) && q' == PlatformOf(out, p, j)
    ensures IsPlatform(q) && q' == Updated(q, more, cred, wide)
    ensures |Groups(out, Header(PROJECTS)).1| == |Groups(lines, Header(PROJECTS)).1|
    ensures forall k :: 0 <= k < |Groups(lines, Header(PROJECTS)).1| && k != p ==>
      Groups(out, Header(PROJECTS)).1[k] == Groups(lines, Header(PROJECTS)).1[k]
    ensures Groups(ProjectOf(out, p), Header(PLATFORMS)).1 == Groups(ProjectOf(lines, p), Header(PLATFORMS)).1[j := q']
    ensures Stays(ProjectOf(lines, p)) <==> Stays(ProjectOf(out, p))
  {
    hide *;
    var w, q0 := TheUpdate(lines, p, j, cred, wide, out);
    q, more := q0, w.More();
    q' := Updated(q, more, cred, wide);
    UpdatedStays(q, more, cred, wide);
    LocatedEnds(w, p, j);
    GroupsOfPlace(w, q, p, j);
    GroupsOfPlace(w, q', p, j);
    SameFront(w, q, q', p, j);
    var s, s' := w.b + q + w.d, w.b + q' + w.d;
    MiddleAt(Groups(w.a, Header(PROJECTS)).1, s, s', Groups(w.c, Header(PROJECTS)).1);
    MiddleAt(Groups(w.b, Header(PLATFORMS)).1, q, q', Groups(w.d, Header(PLATFORMS)).1);
    MiddleReplaced(Groups(w.b, Header(PLATFORMS)).1, q, q', Groups(w.d, Header(PLATFORMS)).1);
    ProjectOfIs(lines, p);
    ProjectOfIs(out, p);
    PlatformOfIs(lines, p, j);
    PlatformOfIs(out, p, j);
    HasPlatformAt(lines, p, j);
    HasPlatformAt(out, p, j);
  }

  lemma MiddleAt(x: seq<seq<string>>, g: seq<string>, g': seq<string>, y: seq<seq<string>>)
    ensures |x + [g] + y| == |x + [g'] + y| && (x + [g] + y)[|x|] == g && (x + [g'] + y)[|x|] == g'
    ensures forall k :: 0 <= k < |x + [g] + y| && k != |x| ==> (x + [g] + y)[k] == (x + [g'] + y)[k]
  {
  }

  /** The update keeps the tables that decide about the numbers, of any platform. */
  lemma UpdateKeepsNumbers(
      lines: seq<string>, p: nat, j: nat, cred: Credentials, wide: Printable, out: seq<string>, n: nat, k: nat,
      ahead: nat)
    requires IsUpdate(lines, p, j, cred, wide, out)
    requires KeptTo(lines, n, k, ahead, (n, k) == (p, j) && cred.platformType != "")
    ensures KeptTo(out, n, k, ahead, false)
    ensures (n, k) != (p, j) ==> PlatformOf(out, n, k) == PlatformOf(lines, n, k)
  {
    hide *;
    var q, q', more := UpdateGroups(lines, p, j, cred, wide, out);
    UpdatedStays(q, more, cred, wide);
    KeptToParts(lines, n, k, ahead, (n, k) == (p, j) && cred.platformType != "");
    HasPlatformIs(lines, p, j);
    HasPlatformIs(lines, n, k);
    HasPlatformIs(out, p, j);
    ProjectOfIs(lines, p);
    ProjectOfIs(out, p);
    ProjectOfIs(lines, n);
    ProjectOfIs(out, n);
    PlatformOfIs(lines, p, j);
    PlatformOfIs(lines, n, k);
    PlatformOfIs(out, p, j);
    StayToUpdated(lines, out, PROJECTS, p, n + ahead);
    HasPlatformAt(out, n, k);
    PlatformOfIs(out, n, k);
    var qs, rs := Groups(ProjectOf(lines, n), Header(PLATFORMS)).1, Groups(ProjectOf(out, n), Header(PLATFORMS)).1;
    forall l | 0 <= l < |rs| && l <= k + ahead
      ensures Stays(rs[l])
    {
      assert |rs| == |qs| && (n != p || l != j ==> rs[l] == qs[l]);
    }
    KeptToBack(out, n, k, ahead, rs);
  }

  lemma KeptToParts(lines: seq<string>, p: nat, j: nat, ahead: nat, typed: bool)
    requires KeptTo(lines, p, j, ahead, typed)
    ensures HasPlatform(lines, p, j) && StayTo(lines, PROJECTS, p + ahead)
    ensures var qs := Groups(ProjectOf(lines, p), Header(PLATFORMS)).1;
      forall k :: 0 <= k < |qs| && k <= j + ahead ==> Stays(qs[k]) || (typed && k == j)
  {
    hide Groups, Stays;
  }

  lemma KeptToBack(lines: seq<string>, p: nat, j: nat, ahead: nat, qs: seq<seq<string>>)
    requires HasPlatform(lines, p, j) && StayTo(lines, PROJECTS, p + ahead)
    requires qs == Groups(ProjectOf(lines, p), Header(PLATFORMS)).1
    requires forall k :: 0 <= k < |qs| && k <= j + ahead ==> Stays(qs[k])
    ensures KeptTo(lines, p, j, ahead, false)
  {
    hide Groups, Stays;
  }

  // ----- written lines hold no line feed

  lemma TypeSetOneLine(body: seq<string>, value: string, wide: Printable)
    requires AllOneLine(body)
    ensures AllOneLine(TypeSet(body, value, wide))
  {
    TypeIsBare();
    KeyLineOneLine(TYPE, value, wide);
    var i := First(body, ForKey(TYPE));
    if i < |body| { ReplacedOneLine(body[i], TYPE, value, wide); }
    hide OneLine, KeyLine, ReplacedLine, First, BareKey;
  }

  lemma WithTypeOneLine(q: seq<string>, value: string, wide: Printable)
    requires q != [] && value != "" && AllOneLine(q)
    ensures AllOneLine(WithType(q, value, wide))
  {
    hide *;
    MainSplit(q);
    WithTypeIsSet(q, value, wide);
    var after := Cut(q, 0).after;
    AllOneLineConcat([q[0]] + Main(q), after);
    AllOneLineConcat([q[0]], Main(q));
    TypeSetOneLine(Main(q), value, wide);
    AllOneLineConcat([q[0]], TypeSet(Main(q), value, wide));
    AllOneLineConcat([q[0]] + TypeSet(Main(q), value, wide), after);
  }

  lemma BlankOneLine(pre: seq<string>)
    requires Blank(pre)
    ensures AllOneLine(pre) && AllOneLine([PLATFORM_OPTIONS])
  {
    assert OneLine("") && OneLine(PLATFORM_OPTIONS);
    hide OneLine, PLATFORM_OPTIONS;
  }

  lemma TableOneLine(q: seq<string>, more: bool)
    requires IsPlatform(q) && AllOneLine(q)
    ensures q != [] && AllOneLine(WithOptionsTable(q, more))
  {
    hide *;
    PlatformIsGroup(q);
    WithOptionsTableIs(q, more);
    if OptionsBody(q) == None {
      var pre, post := OptionsTableAdded(q, more);
      BlankOneLine(pre);
      BlankOneLine(post);
      AllOneLineConcat(q + pre + [PLATFORM_OPTIONS], post);
      AllOneLineConcat(q + pre, [PLATFORM_OPTIONS]);
      AllOneLineConcat(q, pre);
    }
  }

  lemma OptionOneLine(q: seq<string>, key: string, value: string, wide: Printable)
    requires IsPlatform(q) && OptionsBody(q).Some? && BareKey(key) && AllOneLine(q)
    ensures var r := WithOption(q, key, value, wide); IsPlatform(r) && OptionsBody(r).Some? && AllOneLine(r)
  {
    hide *;
    WithOptionIs(q, key, value, wide);
    WithOptionSets(q, key, value, wide);
    SetInOneLine(q, First(q, Header(PLATFORM_OPTIONS)), key, value, wide);
  }

  lemma UpdatedOneLine(q: seq<string>, more: bool, cred: Credentials, wide: Printable)
    requires IsPlatform(q) && AllOneLine(q)
    ensures AllOneLine(Updated(q, more, cred, wide))
  {
    hide *;
    PlatformIsGroup(q);
    KeysAreBare();
    var q1 := if cred.platformType != "" then WithType(q, cred.platformType, wide) else q;
    if cred.platformType != "" { WithTypeOneLine(q, cred.platformType, wide); }
    PreparedSteps(q, q1, more, cred.platformType, wide);
    TableOneLine(q1, more);
    var q2 := WithOptionsTable(q1, more);
    OptionOneLine(q2, APP_ID, cred.appId, wide);
    var q3 := WithOption(q2, APP_ID, cred.appId, wide);
    OptionOneLine(q3, APP_SECRET, cred.appSecret, wide);
    if cred.allowFrom.Some? {
      OptionOneLine(WithOption(q3, APP_SECRET, cred.appSecret, wide), ALLOW_FROM, cred.allowFrom.value, wide);
    }
    UpdatedIsWritten(q, more, cred, wide);
    KeysWrittenIs(q2, cred, wide);
  }

  lemma UpdateOneLine(lines: seq<string>, p: nat, j: nat, cred: Credentials, wide: Printable, out: seq<string>)
    requires IsUpdate(lines, p, j, cred, wide, out) && AllOneLine(lines)
    ensures out != [] && AllOneLine(out)
  {
    hide *;
    var w, q := TheUpdate(lines, p, j, cred, wide, out);
    var r := Updated(q, w.More(), cred, wide);
    UpdatedStays(q, w.More(), cred, wide);
    PlatformIsGroup(r);
    Flat(w, q);
    Flat(w, r);
    AllOneLineConcat(w.a + w.b + q, w.d + w.c);
    AllOneLineConcat(w.a + w.b, q);
    UpdatedOneLine(q, w.More(), cred, wide);
    AllOneLineConcat(w.a + w.b, r);
    AllOneLineConcat(w.a + w.b + r, w.d + w.c);
  }

  // ----- the laws for saved files

  /** The whole operation on the text of the file. */
  method SaveFeishuPlatformCredentials(raw: string, p: nat, j: nat, cred: Credentials, wide: Printable)
      returns (file: Option<string>, ghost out: seq<string>)
    ensures file.Some? <==> HasPlatform(SplitConfigLines(raw).0, p, j)
    ensures file.Some? ==>
      && IsUpdate(SplitConfigLines(raw).0, p, j, cred, wide, out)
      && SplitConfigLines(file.value).0 == Formatted(out)
  {
    hide *;
    var (lines, hadTrailing) := SplitConfigLines(raw);
    var r := SaveCredentials(lines, p, j, cred, wide);
    if r.None? { return None, []; }
    out := r.value;
    SplitIsOneLine(raw);
    UpdateOneLine(lines, p, j, cred, wide, out);
    WrittenLines(out, hadTrailing);
    file := Some(FormatToml(JoinConfigLines(r.value, hadTrailing)));
  }

  /** Get after put through the whole write path: the file read again holds every value written
      in the platform of the same numbers, if no project and no platform in front of it, nor its
      own project, nor itself without a type to write, has an empty table. */
  lemma SavedCredentialsRead(lines: seq<string>, p: nat, j: nat, cred: Credentials, wide: Printable, out: seq<string>)
    requires IsUpdate(lines, p, j, cred, wide, out) && KeptTo(lines, p, j, 0, cred.platformType != "")
    ensures HasPlatform(Formatted(out), p, j)
    ensures var r := PlatformOf(Formatted(out), p, j);
      && r != []
      && OptionValueOf(r, APP_ID) == ReadBack(cred.appId)
      && OptionValueOf(r, APP_SECRET) == ReadBack(cred.appSecret)
      && (cred.allowFrom.Some? ==> OptionValueOf(r, ALLOW_FROM) == ReadBack(cred.allowFrom.value))
      && (cred.platformType != "" ==> ValueOf(Main(r), TYPE) == ReadBack(cred.platformType))
  {
    hide *;
    var q, q', more := UpdateGroups(lines, p, j, cred, wide, out);
    UpdateKeepsNumbers(lines, p, j, cred, wide, out, p, j, 0);
    UpdatedStays(q, more, cred, wide);
    CredentialsRead(q, more, cred, wide);
    FormatKeepsFilled(out, p, j, APP_ID);
    FormatKeepsFilled(out, p, j, APP_SECRET);
    FormatKeepsFilled(out, p, j, ALLOW_FROM);
    FormatKeepsFilled(out, p, j, TYPE);
  }

  /** The frame through the whole write path: every other platform whose numbers are kept has
      all its values. */
  lemma SavedCredentialsKeepOthers(
      lines: seq<string>, p: nat, j: nat, cred: Credentials, wide: Printable, out: seq<string>, n: nat, k: nat, key: string)
    requires IsUpdate(lines, p, j, cred, wide, out) && (n, k) != (p, j)
    requires KeptTo(lines, n, k, 1, false) && TableSafe(PlatformOf(lines, n, k))
    ensures HasPlatform(Formatted(out), n, k)
    ensures var q, r := PlatformOf(lines, n, k), PlatformOf(Formatted(out), n, k);
      q != [] && r != [] && ValueOf(Main(r), key) == ValueOf(Main(q), key) && OptionValueOf(r, key) == OptionValueOf(q, key)
  {
    hide *;
    UpdateKeepsNumbers(lines, p, j, cred, wide, out, n, k, 1);
    FormatKeepsPlatform(out, n, k, key);
  }
}
