/** What the cache file says, name by name, so that other libraries can read it. */
module CacheText {
  import opened Wrappers
  import opened Strings
  import opened JsonText
  import opened GoTypes
  import opened Marshal
  import opened RoundTrip
  import opened Records
  import opened CacheColumns
  import opened CacheFile
  import opened Items
  import opened Storage

  /** The object has the text under that name, and nothing if it is empty. */
  predicate Says(j: Json, name: string, text: string) {
    && j.JObj?
    && (text != "" ==> Member(name, JStr(text)) in j.members)
    && (text == "" ==> forall x | x in j.members :: x.key != name)
  }

  /** A time in seconds, and the empty text for none. */
  function TimeText(t: int): string { if t == ZERO_TIME then "" else IntText(t) }

  /** Columns of a record are written under their names, but for zero ones. */
  lemma {:induction false} RecordSays(cols: seq<Column>, row: seq<Value>, j: Json, i: nat)
    requires Good(cols) && RowFits(cols, row) && i < |cols| && row[i].LeafV? && cols[i].schema.Leaf?
    requires Represents(Struct(Fields(cols)), Record(row, NilV), j) && j.JObj?
    ensures row[i] != Zero(cols[i].schema) ==> Member(cols[i].jsonName, row[i].j) in j.members
    ensures row[i] == Zero(cols[i].schema) ==> forall x | x in j.members :: x.key != cols[i].jsonName
  {
    var fields, vals := Fields(cols), Record(row, NilV).vals;
    RecordSupported(cols);
    NoColumnClashes(cols, row, NilV);
    WrittenColumns(cols, row, NilV);
    ColumnTag(cols[i]);
    hide Good, RowFits, Supported, NoClash, JsonName, Emits;
    if row[i] != Zero(cols[i].schema) {
      var n := FieldMember(fields, vals, |fields|, j.members, i);
      assert j.members[n] == Member(cols[i].jsonName, row[i].j);
    } else {
      forall x | x in j.members ensures x.key != cols[i].jsonName {
        var n :| 0 <= n < |j.members| && j.members[n] == x;
        if x.key == cols[i].jsonName {
          MemberOrigin(fields, vals, |fields|, j.members, n);
          var k :| 0 <= k < |fields| && Emits(fields[k], vals[k]) && WrittenBy(fields[k], vals[k], j.members[n]);
          OwnName(fields, vals, i, k, x);
        }
      }
    }
  }

  /** The object has each of the texts under the name before it. */
  predicate SaysAll(j: Json, said: seq<(string, string)>) { forall x | x in said :: Says(j, x.0, x.1) }

  /** The columns have these names, and the row these texts. */
  predicate Spelled(cols: seq<Column>, row: seq<Value>, said: seq<(string, string)>) {
    && |cols| == |row| == |said|
    && forall i | 0 <= i < |cols| ::
         && cols[i].jsonName == said[i].0 && cols[i].schema.Leaf? && row[i] == LeafV(JStr(said[i].1))
         && Zero(cols[i].schema) == LeafV(JStr(""))
  }

  lemma {:induction false} RowSays(cols: seq<Column>, row: seq<Value>, said: seq<(string, string)>, j: Json)
    requires Good(cols) && RowFits(cols, row) && Spelled(cols, row, said) && j.JObj?
    requires Represents(Struct(Fields(cols)), Record(row, NilV), j)
    ensures SaysAll(j, said)
  {
    hide Good, RowFits, Represents;
    forall i | 0 <= i < |cols| ensures Says(j, said[i].0, said[i].1) { RecordSays(cols, row, j, i); }
  }

  // ----- the items -----

  function AccessTokenText(a: AccessToken): seq<(string, string)> {
    [("home_account_id", a.homeAccountID), ("environment", a.environment), ("realm", a.realm),
     ("credential_type", a.credentialType), ("client_id", a.clientID), ("secret", a.secret), ("target", a.scopes),
     ("refresh_on", TimeText(a.refreshOn)), ("expires_on", TimeText(a.expiresOn)),
     ("extended_expires_on", TimeText(a.extendedExpiresOn)), ("cached_at", TimeText(a.cachedAt)),
     ("user_assertion_hash", a.userAssertionHash), ("token_type", a.tokenType), ("keyid", a.authnSchemeKeyID),
     ("ext_cache_key", a.extCacheKey)]
  }

  lemma {:induction false} AccessTokenSays(a: AccessToken, j: Json)
    requires Represents(Struct(Fields(ACCESS_TOKEN)), Item(AccessRow(a)), j) && j.JObj?
    ensures SaysAll(j, AccessTokenText(a))
  {
    hide Good, RowFits, Represents, SaysAll;
    AccessTokenColumns();
    AccessFits(a);
    AccessSpelled(a);
    hide ACCESS_TOKEN, AccessRow, AccessTokenText, Spelled;
    RowSays(ACCESS_TOKEN, AccessRow(a), AccessTokenText(a), j);
  }

  lemma AccessSpelled(a: AccessToken)
    ensures Spelled(ACCESS_TOKEN, AccessRow(a), AccessTokenText(a))
  {
    hide IntText;
  }

  function RefreshTokenText(r: RefreshToken): seq<(string, string)> {
    [("home_account_id", r.homeAccountID), ("environment", r.environment), ("credential_type", r.credentialType),
     ("client_id", r.clientID), ("family_id", r.familyID), ("secret", r.secret), ("realm", ""), ("target", ""),
     ("user_assertion_hash", r.userAssertionHash)]
  }

  lemma {:induction false} RefreshTokenSays(r: RefreshToken, j: Json)
    requires Represents(Struct(Fields(REFRESH_TOKEN)), Item(RefreshRow(r)), j) && j.JObj?
    ensures SaysAll(j, RefreshTokenText(r))
  {
    hide Good, Represents, SaysAll;
    RefreshTokenColumns();
    RowSays(REFRESH_TOKEN, RefreshRow(r), RefreshTokenText(r), j);
  }

  function IDTokenText(id: IDToken): seq<(string, string)> {
    [("home_account_id", id.homeAccountID), ("environment", id.environment), ("realm", id.realm),
     ("credential_type", id.credentialType), ("client_id", id.clientID), ("secret", id.secret),
     ("user_assertion_hash", id.userAssertionHash)]
  }

  lemma {:induction false} IDTokenSays(id: IDToken, j: Json)
    requires Represents(Struct(Fields(ID_TOKEN)), Item(IDRow(id)), j) && j.JObj?
    ensures SaysAll(j, IDTokenText(id))
  {
    hide Good, Represents, SaysAll;
    IDTokenColumns();
    RowSays(ID_TOKEN, IDRow(id), IDTokenText(id), j);
  }

  function AccountText(a: Account): seq<(string, string)> {
    [("home_account_id", a.homeAccountID), ("environment", a.environment), ("realm", a.realm),
     ("local_account_id", a.localAccountID), ("authority_type", a.authorityType), ("username", a.preferredUsername),
     ("given_name", ""), ("family_name", ""), ("middle_name", ""), ("name", ""), ("alternative_account_id", ""),
     ("client_info", ""), ("user_assertion_hash", a.userAssertionHash)]
  }

  lemma {:induction false} AccountSays(a: Account, j: Json)
    requires Represents(Struct(Fields(ACCOUNT)), Item(AccountRow(a)), j) && j.JObj?
    ensures SaysAll(j, AccountText(a))
  {
    hide Good, RowFits, Represents, SaysAll;
    AccountColumns();
    AccountFits(a);
    AccountSpelled(a);
    hide ACCOUNT, AccountRow, AccountText, Spelled;
    RowSays(ACCOUNT, AccountRow(a), AccountText(a), j);
  }

  lemma AccountSpelled(a: Account)
    ensures Spelled(ACCOUNT, AccountRow(a), AccountText(a))
  {
  }

  function AppMetaDataText(app: AppMetaData): seq<(string, string)> {
    [("family_id", app.familyID), ("client_id", app.clientID), ("environment", app.environment)]
  }

  lemma {:induction false} AppMetaDataSays(app: AppMetaData, j: Json)
    requires Represents(Struct(Fields(APP_META_DATA)), Item(AppRow(app)), j) && j.JObj?
    ensures SaysAll(j, AppMetaDataText(app))
  {
    hide Good, Represents, SaysAll;
    AppMetaDataColumns();
    RowSays(APP_META_DATA, AppRow(app), AppMetaDataText(app), j);
  }

  // ----- the file -----

  /** The entry of a map in the file. */
  predicate Holds(j: Json, kind: string, key: string, item: Json) {
    j.JObj? && exists m | m in j.members :: m.key == kind && m.val.JObj? && Member(key, item) in m.val.members
  }

  lemma KindNames()
    ensures |CONTRACT| == 5
    ensures CONTRACT[0].jsonName == "AccessToken" && CONTRACT[1].jsonName == "RefreshToken"
    ensures CONTRACT[2].jsonName == "IdToken" && CONTRACT[3].jsonName == "Account"
    ensures CONTRACT[4].jsonName == "AppMetadata"
  {
    hide ACCESS_TOKEN, REFRESH_TOKEN, ID_TOKEN, ACCOUNT, APP_META_DATA, Fields;
  }

  /** The map of each kind of item stands under the name of the kind. */
  lemma KindAt(c: Cache, j: Json, i: nat) returns (t: Json)
    requires Represents(FILE, File(c), j) && i < 5 == |CONTRACT|
    ensures j.JObj? && Member(CONTRACT[i].jsonName, t) in j.members
    ensures Represents(Map(Struct(Fields(ItemColumns(i)))), FileRow(c)[i], t)
  {
    hide CONTRACT, FileRow, Good, Supported, RepresentsFields, Target, Emits, Conforms, Printable, Settled, Clean;
    hide ItemColumns, IntoMaps, Targeted;
    var members := FileMembers(c, j);
    ContractColumns();
    FileField(c, i);
    var n := FieldMember(Fields(CONTRACT), File(c).vals, 6, members, i);
    t := members[n].val;
    ContractIs();
    JsonNameIs(i);
    assert members[n] == Member(CONTRACT[i].jsonName, t);
  }

  lemma JsonNameIs(i: nat)
    requires i < |CONTRACT|
    ensures JsonName(Fields(CONTRACT)[i]) == CONTRACT[i].jsonName
  {
    ContractColumns();
    assert GoodColumn(CONTRACT[i]);
    hide CONTRACT;
    ColumnTag(CONTRACT[i]);
  }

  /** An item that is not empty is an object of its own, under its key. */
  lemma ItemAt<T(!new)>(cols: seq<Column>, m: map<string, T>, row: T -> seq<Value>, of: Value -> Option<T>, none: T,
    key: string, t: Json) returns (item: Json)
    requires RowsOf(cols, row, of, none) && key in m && m[key] != none
    requires Represents(Map(Struct(Fields(cols))), MapValue(m, row), t)
    ensures t.JObj? && Member(key, item) in t.members && item.JObj?
    ensures Represents(Struct(Fields(cols)), Item(row(m[key])), item)
  {
    var e, v := Struct(Fields(cols)), MapValue(m, row);
    assert v.m[key] == Item(row(m[key]));
    assert RowOf(cols, m[key], row(m[key]), of(Item(row(m[key]))), none);
    hide MapValue, Represents, RowsOf;
    var i := EntryOf(e, v, key, t);
    item := t.members[i].val;
    assert t.members[i] == Member(key, item);
    ItemIsObject(cols, row(m[key]), item);
  }

  lemma {:induction false} ItemIsObject(cols: seq<Column>, row: seq<Value>, j: Json)
    requires Good(cols) && |row| == |cols| && row != Zeros(cols)
    requires Represents(Struct(Fields(cols)), Item(row), j)
    ensures j.JObj?
  {
    var vals := Item(row).vals;
    var i :| 0 <= i < |cols| && row[i] != Zeros(cols)[i];
    WrittenColumns(cols, row, NilV);
    ColumnTag(cols[i]);
    hide Good, Emits, Zeros, JsonName;
    assert Filled(cols, row, i);
    var n := FieldMember(Fields(cols), vals, |vals|, if j.JStray? then [] else j.members, i);
  }

  /** The file has each item under its kind and its key, with all that it says. */
  lemma {:induction false} FileSays(c: Cache, j: Json, key: string)
    requires Represents(FILE, File(c), j) && NoneEmpty(c)
    ensures key in c.accessTokens ==>
      exists item :: Holds(j, "AccessToken", key, item) && SaysAll(item, AccessTokenText(c.accessTokens[key]))
    ensures key in c.refreshTokens ==>
      exists item :: Holds(j, "RefreshToken", key, item) && SaysAll(item, RefreshTokenText(c.refreshTokens[key]))
    ensures key in c.idTokens ==>
      exists item :: Holds(j, "IdToken", key, item) && SaysAll(item, IDTokenText(c.idTokens[key]))
    ensures key in c.accounts ==>
      exists item :: Holds(j, "Account", key, item) && SaysAll(item, AccountText(c.accounts[key]))
    ensures key in c.appMetaData ==>
      exists item :: Holds(j, "AppMetadata", key, item) && SaysAll(item, AppMetaDataText(c.appMetaData[key]))
  {
    hide CONTRACT, Represents, RowsOf, SaysAll, Fields, FILE, File;
    hide AccessRow, RefreshRow, IDRow, AccountRow, AppRow, AccessOf, RefreshOf, IDOf, AccountOf, AppOf;
    hide AccessTokenText, RefreshTokenText, IDTokenText, AccountText, AppMetaDataText;
    KindNames();
    AllRows();
    assert NoneEmptyAt(c, 0) && NoneEmptyAt(c, 1) && NoneEmptyAt(c, 2) && NoneEmptyAt(c, 3) && NoneEmptyAt(c, 4);
    if key in c.accessTokens {
      var t := KindAt(c, j, 0);
      var item := ItemAt(ACCESS_TOKEN, c.accessTokens, AccessRow, AccessOf, NO_ACCESS_TOKEN, key, t);
      AccessTokenSays(c.accessTokens[key], item);
      assert Holds(j, "AccessToken", key, item);
    }
    if key in c.refreshTokens {
      var t := KindAt(c, j, 1);
      var item := ItemAt(REFRESH_TOKEN, c.refreshTokens, RefreshRow, RefreshOf, NO_REFRESH_TOKEN, key, t);
      RefreshTokenSays(c.refreshTokens[key], item);
      assert Holds(j, "RefreshToken", key, item);
    }
    if key in c.idTokens {
      var t := KindAt(c, j, 2);
      var item := ItemAt(ID_TOKEN, c.idTokens, IDRow, IDOf, NO_ID_TOKEN, key, t);
      IDTokenSays(c.idTokens[key], item);
      assert Holds(j, "IdToken", key, item);
    }
    if key in c.accounts {
      var t := KindAt(c, j, 3);
      var item := ItemAt(ACCOUNT, c.accounts, AccountRow, AccountOf, NO_ACCOUNT, key, t);
      AccountSays(c.accounts[key], item);
      assert Holds(j, "Account", key, item);
    }
    if key in c.appMetaData {
      var t := KindAt(c, j, 4);
      var item := ItemAt(APP_META_DATA, c.appMetaData, AppRow, AppOf, NO_APP_META_DATA, key, t);
      AppMetaDataSays(c.appMetaData[key], item);
      assert Holds(j, "AppMetadata", key, item);
    }
  }
}
