/** What an update of credentials leaves alone: every line of the platform that is neither a
    key line of a written key nor blank nor the header of an options table, in whichever of its
    tables it stands (config/config.go, SaveFeishuPlatformCredentials). */
module TomlCredentialFrame {
  import opened Text
  import opened TomlLines
  import opened Search
  import opened TomlSpans
  import opened TomlSections
  import opened TomlEdits
  import opened TomlPlatform
  import opened TomlCredentials
  import opened TomlCredentialUpdate

  /** The keys an update writes. */
  function Keys(cred: Credentials): seq<string> {
    (if cred.platformType != "" then ["type"] else []) + ["app_id", "app_secret"]
    + (if cred.allowFrom.Some? then ["allow_from"] else [])
  }

  /** The lines an update may write or replace. */
  ghost predicate Touched(line: string, keys: seq<string>) {
    TrimSpace(line) == "" || MatchTableHeader(line, PLATFORM_OPTIONS) || exists k :: k in keys && MatchTomlStringKey(line, k)
  }

  ghost predicate AllTouched(lines: seq<string>, keys: seq<string>) {
    forall i :: 0 <= i < |lines| ==> Touched(lines[i], keys)
  }

  /** All other lines, in order. */
  ghost function Others(lines: seq<string>, keys: seq<string>): seq<string> {
    if lines == [] then [] else (if Touched(lines[0], keys) then [] else [lines[0]]) + Others(lines[1..], keys)
  }

  lemma {:induction false} OthersConcat(x: seq<string>, y: seq<string>, keys: seq<string>)
    ensures Others(x + y, keys) == Others(x, keys) + Others(y, keys)
  {
    hide *;
    if x == [] {
      NoOthersInNone(keys);
      assert x + y == y && [] + Others(y, keys) == Others(y, keys);
    } else {
      OthersConcat(x[1..], y, keys);
      assert (x + y)[1..] == x[1..] + y;
      OthersHead(x, keys);
      OthersHead(x + y, keys);
    }
  }

  lemma OthersHead(lines: seq<string>, keys: seq<string>)
    requires lines != []
    ensures Others(lines, keys) == (if Touched(lines[0], keys) then [] else [lines[0]]) + Others(lines[1..], keys)
  {
    hide Touched;
  }

  lemma NoOthersInNone(keys: seq<string>)
    ensures Others([], keys) == []
  {
  }

  lemma {:induction false} NoOthers(lines: seq<string>, keys: seq<string>)
    requires AllTouched(lines, keys)
    ensures Others(lines, keys) == []
  {
    hide Touched;
    if lines != [] { NoOthers(lines[1..], keys); }
  }

  /** Replacing lines an update may touch by such lines. */
  lemma EditKeepsOthers(x: seq<string>, gone: seq<string>, put: seq<string>, y: seq<string>, keys: seq<string>)
    requires AllTouched(gone, keys) && AllTouched(put, keys)
    ensures Others(x + put + y, keys) == Others(x + gone + y, keys)
  {
    hide AllTouched, Others;
    NoOthers(gone, keys);
    NoOthers(put, keys);
    OthersConcat(x + put, y, keys);
    OthersConcat(x, put, keys);
    OthersConcat(x + gone, y, keys);
    OthersConcat(x, gone, keys);
  }

  lemma KeyTouched(line: string, key: string, keys: seq<string>)
    requires key in keys && MatchTomlStringKey(line, key)
    ensures AllTouched([line], keys)
  {
    hide MatchTomlStringKey, MatchTableHeader, TrimSpace;
  }

  lemma TypeKeepsOthers(q: seq<string>, value: string, wide: Printable, keys: seq<string>)
    requires q != [] && value != "" && TYPE in keys
    ensures Others(WithType(q, value, wide), keys) == Others(q, keys)
  {
    hide *;
    MainSplit(q);
    WithTypeIsSet(q, value, wide);
    TypeSetKeepsOthers([q[0]], Main(q), Cut(q, 0).after, value, wide, keys);
  }

  lemma TypeSetKeepsOthers(x: seq<string>, body: seq<string>, y: seq<string>, value: string, wide: Printable, keys: seq<string>)
    requires TYPE in keys
    ensures Others(x + TypeSet(body, value, wide) + y, keys) == Others(x + body + y, keys)
  {
    hide *;
    var line := TypeSetShape(body, value, wide);
    WroteMatches(line, TYPE, value);
    KeyTouched(line, TYPE, keys);
    FirstMatches(body, TYPE);
    var i := First(body, ForKey(TYPE));
    if i < |body| {
      KeyTouched(body[i], TYPE, keys);
      ReplacingKeepsOthers(x, body, y, i, line, keys);
    } else {
      FrontKeepsOthers(x, line, body + y, keys);
      assert x + ([line] + body) + y == x + [line] + (body + y);
      assert x + body + y == x + (body + y);
    }
  }

  lemma ReplacingKeepsOthers(x: seq<string>, body: seq<string>, y: seq<string>, i: nat, line: string, keys: seq<string>)
    requires i < |body| && AllTouched([body[i]], keys) && AllTouched([line], keys)
    ensures Others(x + body[i := line] + y, keys) == Others(x + body + y, keys)
  {
    hide *;
    EditKeepsOthers(x + body[..i], [body[i]], [line], body[i + 1..] + y, keys);
    LineIn(x, body, y, i, line);
    LineIn(x, body, y, i, body[i]);
    assert body[i := body[i]] == body;
  }

  lemma FrontKeepsOthers(x: seq<string>, line: string, y: seq<string>, keys: seq<string>)
    requires AllTouched([line], keys)
    ensures Others(x + [line] + y, keys) == Others(x + y, keys)
  {
    hide *;
    NothingTouched(keys);
    EditKeepsOthers(x, [], [line], y, keys);
    assert x + [] == x;
  }

  lemma WroteMatches(line: string, key: string, value: string)
    requires Wrote(line, key, value)
    ensures MatchTomlStringKey(line, key)
  {
  }

  lemma FirstMatches(body: seq<string>, key: string)
    ensures var i := First(body, ForKey(key)); i <= |body| && (i < |body| ==> MatchTomlStringKey(body[i], key))
  {
    FirstIs(body, ForKey(key));
    hide First, MatchTomlStringKey;
  }

  lemma LineIn(x: seq<string>, body: seq<string>, y: seq<string>, i: nat, line: string)
    requires i < |body|
    ensures x + body[i := line] + y == x + body[..i] + [line] + (body[i + 1..] + y)
  {
    assert body[i := line] == body[..i] + [line] + body[i + 1..];
  }

  lemma TableKeepsOthers(q: seq<string>, more: bool, keys: seq<string>)
    requires q != []
    ensures Others(WithOptionsTable(q, more), keys) == Others(q, keys)
  {
    hide Others, AllTouched, First, Cut, TrimSpace, MatchTableHeader, MatchTomlStringKey;
    TableMissing(q);
    if OptionsBody(q) == None {
      var pre, post := OptionsTableAdded(q, more);
      OptionsTableHeader();
      var put := pre + [PLATFORM_OPTIONS] + post;
      TableTouched(pre, post, keys);
      NothingTouched(keys);
      EditKeepsOthers(q, [], put, [], keys);
      assert q + put + [] == q + pre + [PLATFORM_OPTIONS] + post && q + [] + [] == q;
    }
  }

  lemma TableMissing(q: seq<string>)
    ensures OptionsBody(q) == None <==> First(q, Header(PLATFORM_OPTIONS)) >= |q|
  {
    hide First, Cut;
  }

  lemma TableTouched(pre: seq<string>, post: seq<string>, keys: seq<string>)
    requires Blank(pre) && Blank(post)
    ensures AllTouched(pre + [PLATFORM_OPTIONS] + post, keys)
  {
    HeaderMatchesItself(PLATFORM_OPTIONS);
    assert TrimSpace("") == "";
    hide TrimSpace, MatchTableHeader, MatchTomlStringKey;
    assert Touched("", keys) && Touched(PLATFORM_OPTIONS, keys);
  }

  lemma OptionKeepsOthers(q: seq<string>, key: string, value: string, wide: Printable, keys: seq<string>)
    requires BareKey(key) && key in keys
    ensures Others(WithOption(q, key, value, wide), keys) == Others(q, keys)
  {
    hide Others, AllTouched, First, SetIn, BareKey, MatchTomlStringKey, OneTable, TableEnd;
    var f := First(q, Header(PLATFORM_OPTIONS));
    if f < |q| {
      var i, gone, put := SetFrame(q, f, key, value, wide);
      KeyTouched(put[0], key, keys);
      if gone != [] { KeyTouched(gone[0], key, keys); }
      assert put == [put[0]] && (gone == [] || gone == [gone[0]]);
      NothingTouched(keys);
      EditKeepsOthers(q[..i], gone, put, q[i + |gone|..], keys);
      assert q == q[..i] + gone + q[i + |gone|..];
    }
  }

  lemma NothingTouched(keys: seq<string>)
    ensures AllTouched([], keys)
  {
  }

  /** Every line but those of the written keys, blank lines and options headers survives an
      update, in order, whichever table of the platform it is in. */
  lemma OtherLinesStay(q: seq<string>, more: bool, cred: Credentials, wide: Printable)
    requires IsPlatform(q)
    ensures Others(Updated(q, more, cred, wide), Keys(cred)) == Others(q, Keys(cred))
  {
    hide *;
    var value, keys := cred.platformType, Keys(cred);
    PlatformIsGroup(q);
    KeysAre(cred);
    KeysAreBare();
    var q1 := if value != "" then WithType(q, value, wide) else q;
    if value != "" {
      WithTypeIs(q, value, wide);
      TypeKeepsOthers(q, value, wide, keys);
    }
    TableKeepsOthers(q1, more, keys);
    PreparedSteps(q, q1, more, value, wide);
    var q2 := Prepared(q, more, value, wide);
    OptionKeepsOthers(q2, APP_ID, cred.appId, wide, keys);
    var q3 := WithOption(q2, APP_ID, cred.appId, wide);
    OptionKeepsOthers(q3, APP_SECRET, cred.appSecret, wide, keys);
    var q4 := WithOption(q3, APP_SECRET, cred.appSecret, wide);
    if cred.allowFrom.Some? { OptionKeepsOthers(q4, ALLOW_FROM, cred.allowFrom.value, wide, keys); }
    UpdatedSteps(q, more, cred, wide);
  }

  lemma KeysAre(cred: Credentials)
    ensures var keys := Keys(cred);
      && APP_ID in keys && APP_SECRET in keys && (cred.allowFrom.Some? ==> ALLOW_FROM in keys)
      && (cred.platformType != "" ==> TYPE in keys)
  {
  }

  lemma UpdatedSteps(q: seq<string>, more: bool, cred: Credentials, wide: Printable)
    requires IsPlatform(q)
    ensures var q4 := WithOption(WithOption(Prepared(q, more, cred.platformType, wide), APP_ID, cred.appId, wide),
                                 APP_SECRET, cred.appSecret, wide);
      Updated(q, more, cred, wide)
      == if cred.allowFrom.Some? then WithOption(q4, ALLOW_FROM, cred.allowFrom.value, wide) else q4
  {
    hide IsPlatform, WithOption, Prepared;
  }
}
