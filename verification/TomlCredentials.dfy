/** The credentials of one chat platform: what the whole update writes and what it keeps
    (config/config.go, SaveFeishuPlatformCredentials). */
module TomlCredentials {
  import opened Text
  import opened TomlLines
  import opened TomlValues
  import opened TomlSpans
  import opened TomlSections
  import opened TomlPlatform

  /** What to write, trimmed. An empty type leaves the type alone; the list of allowed users is
      written only when the owner is known. */
  datatype Credentials = Credentials(platformType: string, appId: string, appSecret: string, allowFrom: Option<string>)

  const APP_ID := "app_id"
  const APP_SECRET := "app_secret"
  const ALLOW_FROM := "allow_from"

  lemma KeysAreBare()
    ensures BareKey(APP_ID) && BareKey(APP_SECRET) && BareKey(ALLOW_FROM)
    ensures APP_ID != APP_SECRET && APP_ID != ALLOW_FROM && APP_SECRET != ALLOW_FROM
  {
    assert APP_ID[4] == 'i' && APP_SECRET[4] == 's' && ALLOW_FROM[4] == 'w';
  }

  // ----- the whole update of one platform

  ghost predicate Editable(q: seq<string>) {
    IsPlatform(q) && OptionsBody(q).Some?
  }

  /** The platform with its type set and its options table made, before any key is written. */
  ghost function Prepared(q: seq<string>, more: bool, value: string, wide: Printable): seq<string>
    requires IsPlatform(q)
  {
    if value != "" then WithTypeIs(q, value, wide); WithOptionsTable(WithType(q, value, wide), more)
    else WithOptionsTable(q, more)
  }

  /** The platform after the update; `more` tells whether the file goes on behind it. */
  ghost function Updated(q: seq<string>, more: bool, cred: Credentials, wide: Printable): seq<string>
    requires IsPlatform(q)
  {
    var q0 := Prepared(q, more, cred.platformType, wide);
    var q1 := WithOption(q0, APP_ID, cred.appId, wide);
    var q2 := WithOption(q1, APP_SECRET, cred.appSecret, wide);
    match cred.allowFrom
    case None => q2
    case Some(users) => WithOption(q2, ALLOW_FROM, users, wide)
  }

  lemma PreparedIs(q: seq<string>, more: bool, value: string, wide: Printable)
    requires IsPlatform(q)
    ensures var r := Prepared(q, more, value, wide);
      && Editable(r) && r != []
      && (OptionsBody(q).Some? ==> OptionsBody(r) == OptionsBody(q))
      && (OptionsBody(q) == None ==> Blank(OptionsBody(r).value))
  {
    PlatformIsGroup(q);
    hide IsPlatform, OptionsBody, Main, WithType, WithOptionsTable, Blank, TypeSet, MatchTableHeader;
    if value != "" {
      WithTypeIs(q, value, wide);
      WithOptionsTableIs(WithType(q, value, wide), more);
    } else {
      WithOptionsTableIs(q, more);
    }
  }

  /** What the main table gives a key before and after. */
  lemma PreparedMain(q: seq<string>, more: bool, value: string, wide: Printable, key: string)
    requires IsPlatform(q) && q != [] && Prepared(q, more, value, wide) != []
    ensures MainLine(Prepared(q, more, value, wide), key)
         == if value != "" then LineOf(TypeSet(Main(q), value, wide), key) else MainLine(q, key)
  {
    hide IsPlatform, OptionsBody, Main, WithType, WithOptionsTable, TypeSet, LineOf;
    if value != "" {
      WithTypeIs(q, value, wide);
      WithOptionsTableMain(WithType(q, value, wide), more, key);
    } else {
      WithOptionsTableMain(q, more, key);
    }
  }

  /** The options body after the update, from the body before the keys are written. */
  function Written(body: seq<string>, cred: Credentials, wide: Printable): seq<string> {
    var b := Upserted(Upserted(body, APP_ID, cred.appId, wide), APP_SECRET, cred.appSecret, wide);
    match cred.allowFrom case None => b case Some(users) => Upserted(b, ALLOW_FROM, users, wide)
  }

  lemma UpdatedIs(q: seq<string>, more: bool, cred: Credentials, wide: Printable)
    requires IsPlatform(q)
    ensures var q0, r := Prepared(q, more, cred.platformType, wide), Updated(q, more, cred, wide);
      && Editable(q0) && q0 != [] && Editable(r) && r != [] && Main(r) == Main(q0)
      && OptionsBody(r) == Some(Written(OptionsBody(q0).value, cred, wide))
  {
    hide IsPlatform, OptionsBody, Main, WithOption, Prepared, Upserted, Blank;
    PreparedIs(q, more, cred.platformType, wide);
    KeysAreBare();
    var q0 := Prepared(q, more, cred.platformType, wide);
    WithOptionIs(q0, APP_ID, cred.appId, wide);
    var q1 := WithOption(q0, APP_ID, cred.appId, wide);
    WithOptionIs(q1, APP_SECRET, cred.appSecret, wide);
    var q2 := WithOption(q1, APP_SECRET, cred.appSecret, wide);
    if cred.allowFrom.Some? { WithOptionIs(q2, ALLOW_FROM, cred.allowFrom.value, wide); }
  }

  lemma WrittenReads(body: seq<string>, cred: Credentials, wide: Printable)
    ensures var r := Written(body, cred, wide);
      && ValueOf(r, APP_ID) == ReadBack(cred.appId) && ValueOf(r, APP_SECRET) == ReadBack(cred.appSecret)
      && (cred.allowFrom.Some? ==> ValueOf(r, ALLOW_FROM) == ReadBack(cred.allowFrom.value))
  {
    KeysAreBare();
    hide Upserted, LineOf, ReadKeyLine, BareKey, ReadBack, APP_ID, APP_SECRET, ALLOW_FROM;
    var b1 := Upserted(body, APP_ID, cred.appId, wide);
    var b2 := Upserted(b1, APP_SECRET, cred.appSecret, wide);
    UpsertedReads(body, APP_ID, cred.appId, wide);
    UpsertedReads(b1, APP_SECRET, cred.appSecret, wide);
    UpsertedOthers(b1, APP_SECRET, cred.appSecret, wide, APP_ID);
    if cred.allowFrom.Some? {
      var users := cred.allowFrom.value;
      UpsertedReads(b2, ALLOW_FROM, users, wide);
      UpsertedOthers(b2, ALLOW_FROM, users, wide, APP_ID);
      UpsertedOthers(b2, ALLOW_FROM, users, wide, APP_SECRET);
    }
  }

  lemma WrittenOthers(body: seq<string>, cred: Credentials, wide: Printable, other: string)
    requires BareKey(other) && other != APP_ID && other != APP_SECRET && (cred.allowFrom.Some? ==> other != ALLOW_FROM)
    ensures LineOf(Written(body, cred, wide), other) == LineOf(body, other)
  {
    KeysAreBare();
    hide Upserted, LineOf, BareKey, APP_ID, APP_SECRET, ALLOW_FROM;
    var b1 := Upserted(body, APP_ID, cred.appId, wide);
    var b2 := Upserted(b1, APP_SECRET, cred.appSecret, wide);
    UpsertedOthers(body, APP_ID, cred.appId, wide, other);
    UpsertedOthers(b1, APP_SECRET, cred.appSecret, wide, other);
    if cred.allowFrom.Some? { UpsertedOthers(b2, ALLOW_FROM, cred.allowFrom.value, wide, other); }
  }

  function OptionValueOf(q: seq<string>, key: string): Option<string> {
    match OptionsBody(q) case None => None case Some(body) => ValueOf(body, key)
  }

  /** Get after put: every key written reads back as the value written, the type from the main
      table and the rest from the options, whether the tables and keys were there or not. */
  lemma CredentialsRead(q: seq<string>, more: bool, cred: Credentials, wide: Printable)
    requires IsPlatform(q)
    ensures var r := Updated(q, more, cred, wide);
      && IsPlatform(r) && r != []
      && OptionValueOf(r, APP_ID) == ReadBack(cred.appId)
      && OptionValueOf(r, APP_SECRET) == ReadBack(cred.appSecret)
      && (cred.allowFrom.Some? ==> OptionValueOf(r, ALLOW_FROM) == ReadBack(cred.allowFrom.value))
      && (cred.platformType != "" ==> ValueOf(Main(r), TYPE) == ReadBack(cred.platformType))
  {
    hide *;
    UpdatedIs(q, more, cred, wide);
    var q0, r := Prepared(q, more, cred.platformType, wide), Updated(q, more, cred, wide);
    EditableIs(q0);
    EditableIs(r);
    var body := Written(OptionsBody(q0).value, cred, wide);
    WrittenReads(OptionsBody(q0).value, cred, wide);
    OptionValueIs(r, body, APP_ID);
    OptionValueIs(r, body, APP_SECRET);
    OptionValueIs(r, body, ALLOW_FROM);
    PlatformIsGroup(q);
    if cred.platformType != "" {
      PreparedMain(q, more, cred.platformType, wide, TYPE);
      TypeSetReads(Main(q), cred.platformType, wide);
      MainLineIs(q0, TYPE);
      SameLineSameValue(Main(r), TypeSet(Main(q), cred.platformType, wide), TYPE);
    }
  }

  lemma EditableIs(q: seq<string>)
    requires Editable(q)
    ensures IsPlatform(q) && OptionsBody(q).Some?
  {
  }

  lemma OptionValueIs(q: seq<string>, body: seq<string>, key: string)
    requires OptionsBody(q) == Some(body)
    ensures OptionValueOf(q, key) == ValueOf(body, key)
  {
    hide OptionsBody, ValueOf;
  }

  lemma SameLineSameValue(b1: seq<string>, b2: seq<string>, key: string)
    requires LineOf(b1, key) == LineOf(b2, key)
    ensures ValueOf(b1, key) == ValueOf(b2, key)
  {
    hide LineOf, ReadKeyLine;
  }

  /** Every other key of the platform keeps its line: in the options all but the keys written,
      in the main table all but the type. */
  lemma CredentialsKeepOthers(q: seq<string>, more: bool, cred: Credentials, wide: Printable, other: string)
    requires IsPlatform(q) && BareKey(other)
    ensures var r := Updated(q, more, cred, wide);
      && q != [] && r != []
      && (other != TYPE || cred.platformType == "" ==> MainLine(r, other) == MainLine(q, other))
      && (other != APP_ID && other != APP_SECRET && (cred.allowFrom.Some? ==> other != ALLOW_FROM)
          ==> PlatformOption(r, other) == PlatformOption(q, other))
  {
    UpdatedIs(q, more, cred, wide);
    PlatformIsGroup(q);
    var q0 := Prepared(q, more, cred.platformType, wide);
    PreparedMain(q, more, cred.platformType, wide, other);
    if other != TYPE { TypeSetOthers(Main(q), cred.platformType, wide, other); }
    PreparedOption(q, more, cred.platformType, wide, other);
    if other != APP_ID && other != APP_SECRET && (cred.allowFrom.Some? ==> other != ALLOW_FROM) {
      WrittenOthers(OptionsBody(q0).value, cred, wide, other);
    }
    hide Updated, Prepared, Written, IsPlatform, OptionsBody, Main, TypeSet, LineOf, MatchTableHeader, APP_ID,
        APP_SECRET, ALLOW_FROM, TYPE;
  }

  lemma PreparedOption(q: seq<string>, more: bool, value: string, wide: Printable, key: string)
    requires IsPlatform(q)
    ensures var r := Prepared(q, more, value, wide);
      OptionsBody(r).Some? && LineOf(OptionsBody(r).value, key) == PlatformOption(q, key)
  {
    PreparedIs(q, more, value, wide);
    BlankLast([], key);
    hide Prepared, IsPlatform, OptionsBody;
    assert [] + [""] == [""] && LineOf([], key) == None;
    hide LineOf;
  }
}
