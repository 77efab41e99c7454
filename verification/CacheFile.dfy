/** The cache file: what a program writes to disk of the flat cache, and reads again. */
module CacheFile {
  import opened Wrappers
  import opened Strings
  import opened JsonText
  import opened JsonStream
  import opened GoTypes
  import opened Marshal
  import opened RoundTrip
  import opened Records
  import opened CacheColumns
  import opened Items
  import opened Storage
  import Codec
  import Preserve
  import StorageUse
  import Unmarshal

  // ----- items as records -----

  function TextV(s: string): Value { LeafV(JStr(s)) }

  function TimeV(t: int): Value { LeafV(JStr(if t == ZERO_TIME then "" else IntText(t))) }

  function TextOf(v: Value): string { if v.LeafV? && v.j.JStr? then v.j.s else "" }

  /** A time is read from a quoted or a bare number. */
  function TimeOf(v: Value): Option<int> {
    if !v.LeafV? then None
    else
      match v.j
      case JStr(s) => if s == "" then Some(ZERO_TIME) else ReadInt(s)
      case JNum(s) => ReadInt(s)
      case _ => None
  }

  lemma TimeBack(t: int)
    ensures TimeOf(TimeV(t)) == Some(t)
  {
    IntBack(t);
    assert IntText(t) != "" by { assert ReadInt("").None?; }
  }

  function AccessRow(a: AccessToken): seq<Value> {
    [TextV(a.homeAccountID), TextV(a.environment), TextV(a.realm), TextV(a.credentialType), TextV(a.clientID),
     TextV(a.secret), TextV(a.scopes), TimeV(a.refreshOn), TimeV(a.expiresOn), TimeV(a.extendedExpiresOn),
     TimeV(a.cachedAt), TextV(a.userAssertionHash), TextV(a.tokenType), TextV(a.authnSchemeKeyID), TextV(a.extCacheKey)]
  }

  function AccessOf(v: Value): Option<AccessToken> {
    if !v.StructV? || |v.vals| != |ACCESS_TOKEN| + 1 then None
    else
      var x := v.vals;
      var refreshOn :- TimeOf(x[7]);
      var expiresOn :- TimeOf(x[8]);
      var extendedExpiresOn :- TimeOf(x[9]);
      var cachedAt :- TimeOf(x[10]);
      Some(AccessToken(TextOf(x[0]), TextOf(x[1]), TextOf(x[2]), TextOf(x[3]), TextOf(x[4]), TextOf(x[5]), TextOf(x[6]),
                       refreshOn, expiresOn, extendedExpiresOn, cachedAt,
                       TextOf(x[11]), TextOf(x[12]), TextOf(x[13]), TextOf(x[14])))
  }

  function RefreshRow(r: RefreshToken): seq<Value> {
    [TextV(r.homeAccountID), TextV(r.environment), TextV(r.credentialType), TextV(r.clientID), TextV(r.familyID),
     TextV(r.secret), TextV(""), TextV(""), TextV(r.userAssertionHash)]
  }

  function RefreshOf(v: Value): Option<RefreshToken> {
    if !v.StructV? || |v.vals| != |REFRESH_TOKEN| + 1 then None
    else
      var x := v.vals;
      Some(RefreshToken(TextOf(x[0]), TextOf(x[1]), TextOf(x[2]), TextOf(x[3]), TextOf(x[4]), TextOf(x[5]),
        TextOf(x[8])))
  }

  function IDRow(id: IDToken): seq<Value> {
    [TextV(id.homeAccountID), TextV(id.environment), TextV(id.realm), TextV(id.credentialType), TextV(id.clientID),
     TextV(id.secret), TextV(id.userAssertionHash)]
  }

  function IDOf(v: Value): Option<IDToken> {
    if !v.StructV? || |v.vals| != |ID_TOKEN| + 1 then None
    else
      var x := v.vals;
      Some(IDToken(TextOf(x[0]), TextOf(x[1]), TextOf(x[2]), TextOf(x[3]), TextOf(x[4]), TextOf(x[5]), TextOf(x[6])))
  }

  function AccountRow(a: Account): seq<Value> {
    [TextV(a.homeAccountID), TextV(a.environment), TextV(a.realm), TextV(a.localAccountID), TextV(a.authorityType),
     TextV(a.preferredUsername), TextV(""), TextV(""), TextV(""), TextV(""), TextV(""), TextV(""),
     TextV(a.userAssertionHash)]
  }

  function AccountOf(v: Value): Option<Account> {
    if !v.StructV? || |v.vals| != |ACCOUNT| + 1 then None
    else
      var x := v.vals;
      Some(Account(TextOf(x[0]), TextOf(x[1]), TextOf(x[2]), TextOf(x[3]), TextOf(x[4]), TextOf(x[5]), TextOf(x[12])))
  }

  function AppRow(a: AppMetaData): seq<Value> { [TextV(a.familyID), TextV(a.clientID), TextV(a.environment)] }

  function AppOf(v: Value): Option<AppMetaData> {
    if !v.StructV? || |v.vals| != |APP_META_DATA| + 1 then None
    else Some(AppMetaData(TextOf(v.vals[0]), TextOf(v.vals[1]), TextOf(v.vals[2])))
  }

  const NO_ACCESS_TOKEN :=
    AccessToken("", "", "", "", "", "", "", ZERO_TIME, ZERO_TIME, ZERO_TIME, ZERO_TIME, "", "", "", "")
  const NO_REFRESH_TOKEN := RefreshToken("", "", "", "", "", "", "")
  const NO_ID_TOKEN := IDToken("", "", "", "", "", "", "")
  const NO_ACCOUNT := Account("", "", "", "", "", "", "")
  const NO_APP_META_DATA := AppMetaData("", "", "")

  function Item(row: seq<Value>): Value { Record(row, NilV) }

  /** The row of an item: it fits the columns, the item can be read from it, and it is empty for `none` only. */
  ghost predicate RowOf<T>(cols: seq<Column>, t: T, row: seq<Value>, back: Option<T>, none: T) {
    RowFits(cols, row) && back == Some(t) && (row == Zeros(cols) <==> t == none)
  }

  function Zeros(cols: seq<Column>): seq<Value> { seq(|cols|, i requires 0 <= i < |cols| => Zero(cols[i].schema)) }

  lemma AccessBack(a: AccessToken)
    ensures AccessOf(Item(AccessRow(a))) == Some(a)
  {
    TimeBack(a.refreshOn);
    TimeBack(a.expiresOn);
    TimeBack(a.extendedExpiresOn);
    TimeBack(a.cachedAt);
    hide IntText, ReadInt, TimeV, TimeOf;
  }

  lemma AccessFits(a: AccessToken)
    ensures RowFits(ACCESS_TOKEN, AccessRow(a))
  {
    hide IntText, ReadInt, AccessOf;
  }

  lemma AccessZeros()
    ensures Zeros(ACCESS_TOKEN) == AccessRow(NO_ACCESS_TOKEN)
  {
    hide AccessOf;
  }

  lemma AccessRowOf(a: AccessToken)
    ensures RowOf(ACCESS_TOKEN, a, AccessRow(a), AccessOf(Item(AccessRow(a))), NO_ACCESS_TOKEN)
  {
    hide Zeros, AccessRow, AccessOf, RowFits, ACCESS_TOKEN;
    AccessBack(a);
    AccessBack(NO_ACCESS_TOKEN);
    AccessFits(a);
    AccessZeros();
  }

  lemma RefreshBack(r: RefreshToken)
    ensures RefreshOf(Item(RefreshRow(r))) == Some(r)
  {
  }

  lemma RefreshFits(r: RefreshToken)
    ensures RowFits(REFRESH_TOKEN, RefreshRow(r))
  {
    hide RefreshOf;
  }

  lemma RefreshZeros()
    ensures Zeros(REFRESH_TOKEN) == RefreshRow(NO_REFRESH_TOKEN)
  {
    hide RefreshOf;
  }

  lemma RefreshRowOf(r: RefreshToken)
    ensures RowOf(REFRESH_TOKEN, r, RefreshRow(r), RefreshOf(Item(RefreshRow(r))), NO_REFRESH_TOKEN)
  {
    hide Zeros, RefreshRow, RefreshOf, RowFits, REFRESH_TOKEN;
    RefreshBack(r);
    RefreshBack(NO_REFRESH_TOKEN);
    RefreshFits(r);
    RefreshZeros();
  }

  lemma IDRowOf(id: IDToken)
    ensures RowOf(ID_TOKEN, id, IDRow(id), IDOf(Item(IDRow(id))), NO_ID_TOKEN)
  {
  }

  lemma AccountBack(a: Account)
    ensures AccountOf(Item(AccountRow(a))) == Some(a)
  {
  }

  lemma AccountFits(a: Account)
    ensures RowFits(ACCOUNT, AccountRow(a))
  {
    hide AccountOf;
  }

  lemma AccountZeros()
    ensures Zeros(ACCOUNT) == AccountRow(NO_ACCOUNT)
  {
    hide AccountOf;
  }

  lemma AccountRowOf(a: Account)
    ensures RowOf(ACCOUNT, a, AccountRow(a), AccountOf(Item(AccountRow(a))), NO_ACCOUNT)
  {
    hide Zeros, AccountRow, AccountOf, RowFits, ACCOUNT;
    AccountBack(a);
    AccountBack(NO_ACCOUNT);
    AccountFits(a);
    AccountZeros();
  }

  lemma AppRowOf(a: AppMetaData)
    ensures RowOf(APP_META_DATA, a, AppRow(a), AppOf(Item(AppRow(a))), NO_APP_META_DATA)
  {
  }

  // ----- maps of items -----

  function MapValue<T>(m: map<string, T>, row: T -> seq<Value>): Value { MapV(map k | k in m :: Item(row(m[k]))) }

  function MapBack<T>(v: Value, of: Value -> Option<T>): Option<map<string, T>> {
    if v.MapV? && forall k | k in v.m :: of(v.m[k]).Some? then Some(map k | k in v.m :: of(v.m[k]).value) else None
  }

  /** All the rows of one kind of item. */
  ghost predicate RowsOf<T(!new)>(cols: seq<Column>, row: T -> seq<Value>, of: Value -> Option<T>, none: T) {
    && Good(cols)
    && (forall i | 0 <= i < |cols| :: cols[i].schema.Leaf?)
    && (forall t :: RowOf(cols, t, row(t), of(Item(row(t))), none))
  }

  lemma MapReadBack<T(!new)>(cols: seq<Column>, m: map<string, T>, row: T -> seq<Value>, of: Value -> Option<T>,
    none: T)
    requires RowsOf(cols, row, of, none)
    ensures MapBack(MapValue(m, row), of) == Some(m)
  {
    var v := MapValue(m, row);
    forall k | k in m ensures of(v.m[k]) == Some(m[k]) {
      assert RowOf(cols, m[k], row(m[k]), of(Item(row(m[k]))), none);
    }
    assert v.m.Keys == m.Keys;
    assert (map k | k in v.m :: of(v.m[k]).value) == m;
  }

  /** An item always prints, and is clean exactly if it is not empty. */
  lemma ItemFacts(cols: seq<Column>, row: seq<Value>)
    requires Good(cols) && RowFits(cols, row) && forall i | 0 <= i < |cols| :: cols[i].schema.Leaf?
    ensures var s, v := Struct(Fields(cols)), Item(row);
      Conforms(s, v) && Printable(s, v) && Settled(s, v) && (Clean(s, v) <==> row != Zeros(cols))
  {
    RecordConforms(cols, row, NilV);
    RecordPrints(cols, row, NilV);
    RecordSettled(cols, row);
    RecordClean(cols, row, NilV);
    hide Good, RowFits, Conforms, Printable, Settled;
    if forall i: nat | i < |cols| :: !Filled(cols, row, i) {
      assert row == Zeros(cols);
    }
  }

  lemma MapFacts<T(!new)>(cols: seq<Column>, m: map<string, T>, row: T -> seq<Value>, of: Value -> Option<T>, none: T)
    requires RowsOf(cols, row, of, none)
    ensures var s, v := Map(Struct(Fields(cols))), MapValue(m, row);
      Conforms(s, v) && Printable(s, v) && Settled(s, v) && (Clean(s, v) <==> forall k | k in m :: m[k] != none)
  {
    var e, v := Struct(Fields(cols)), MapValue(m, row);
    forall k | k in m
      ensures Conforms(e, v.m[k]) && Printable(e, v.m[k]) && Settled(e, v.m[k]) && (Clean(e, v.m[k]) <==> m[k] != none)
    {
      assert RowOf(cols, m[k], row(m[k]), of(Item(row(m[k]))), none);
      ItemFacts(cols, row(m[k]));
    }
    hide RowsOf, MapValue;
    MapOfItems(e, v, m.Keys);
  }

  lemma {:induction false} MapOfItems(e: Schema, v: Value, keys: set<string>)
    requires e.Struct? && v.MapV? && v.m.Keys == keys
    requires forall k | k in keys :: Conforms(e, v.m[k]) && Printable(e, v.m[k]) && Settled(e, v.m[k])
    ensures Conforms(Map(e), v) && Printable(Map(e), v) && Settled(Map(e), v)
    ensures Clean(Map(e), v) <==> forall k | k in keys :: Clean(e, v.m[k])
  {
  }

  lemma EntryOf(e: Schema, v: Value, k: string, j: Json) returns (i: nat)
    requires v.MapV? && k in v.m && Represents(Map(e), v, j)
    ensures j.JObj? && i < |j.members| && j.members[i].key == k && Represents(e, v.m[k], j.members[i].val)
  {
    MemberKeys(v.m, j.members);
    i :| 0 <= i < |j.members| && j.members[i].key == k;
    assert j.members[i] in j.members;
  }

  /** An empty item leaves something in the file that nobody can read. */
  lemma {:induction false} EmptyItemFails<T(!new)>(cols: seq<Column>, m: map<string, T>, row: T -> seq<Value>,
    of: Value -> Option<T>, none: T, k: string, j: Json)
    requires RowsOf(cols, row, of, none) && k in m && m[k] == none
    requires Represents(Map(Struct(Fields(cols))), MapValue(m, row), j)
    ensures Unmarshal.FromMap(Struct(Fields(cols)), j) == None
  {
    var e, v := Struct(Fields(cols)), MapValue(m, row);
    assert RowOf(cols, none, row(none), of(Item(row(none))), none);
    assert k in v.m && v.m[k] == Item(row(none));
    var i := EntryOf(e, v, k, j);
    hide MapValue, Represents;
    EmptyRecord(cols, row(none), NilV, j.members[i].val);
    assert Unmarshal.FromElem(e, JStray) == None;
    EntryFails(e, map[], j.members, i);
  }

  // ----- the file -----

  const FILE := Struct(Fields(CONTRACT))

  function FileRow(c: Cache): seq<Value> {
    [MapValue(c.accessTokens, AccessRow), MapValue(c.refreshTokens, RefreshRow), MapValue(c.idTokens, IDRow),
     MapValue(c.accounts, AccountRow), MapValue(c.appMetaData, AppRow)]
  }

  /** The contents as the contract that is written; it has an empty block of unknown members of its own. */
  function File(c: Cache): Value { Record(FileRow(c), MapV(map[])) }

  function CacheOf(v: Value): Option<Cache> {
    if !v.StructV? || |v.vals| != 6 then None
    else
      var accessTokens :- MapBack(v.vals[0], AccessOf);
      var refreshTokens :- MapBack(v.vals[1], RefreshOf);
      var idTokens :- MapBack(v.vals[2], IDOf);
      var accounts :- MapBack(v.vals[3], AccountOf);
      var appMetaData :- MapBack(v.vals[4], AppOf);
      Some(Cache(accessTokens, refreshTokens, idTokens, accounts, appMetaData))
  }

  /** No item of kind `i` is empty. */
  predicate NoneEmptyAt(c: Cache, i: nat) {
    match i
    case 0 => forall k | k in c.accessTokens :: c.accessTokens[k] != NO_ACCESS_TOKEN
    case 1 => forall k | k in c.refreshTokens :: c.refreshTokens[k] != NO_REFRESH_TOKEN
    case 2 => forall k | k in c.idTokens :: c.idTokens[k] != NO_ID_TOKEN
    case 3 => forall k | k in c.accounts :: c.accounts[k] != NO_ACCOUNT
    case _ => forall k | k in c.appMetaData :: c.appMetaData[k] != NO_APP_META_DATA
  }

  predicate NoneEmpty(c: Cache) { forall i: nat | i < 5 :: NoneEmptyAt(c, i) }

  lemma AllRows()
    ensures RowsOf(ACCESS_TOKEN, AccessRow, AccessOf, NO_ACCESS_TOKEN)
    ensures RowsOf(REFRESH_TOKEN, RefreshRow, RefreshOf, NO_REFRESH_TOKEN)
    ensures RowsOf(ID_TOKEN, IDRow, IDOf, NO_ID_TOKEN)
    ensures RowsOf(ACCOUNT, AccountRow, AccountOf, NO_ACCOUNT)
    ensures RowsOf(APP_META_DATA, AppRow, AppOf, NO_APP_META_DATA)
  {
    LeafColumns();
    hide Good, RowOf, AccessRow, RefreshRow, IDRow, AccountRow, AppRow, AccessOf, RefreshOf, IDOf, AccountOf, AppOf;
    hide ACCESS_TOKEN, REFRESH_TOKEN, ID_TOKEN, ACCOUNT, APP_META_DATA;
    AccessTokenColumns();
    RefreshTokenColumns();
    IDTokenColumns();
    AccountColumns();
    AppMetaDataColumns();
    forall a
      ensures RowOf(ACCESS_TOKEN, a, AccessRow(a), AccessOf(Item(AccessRow(a))), NO_ACCESS_TOKEN)
    {
      AccessRowOf(a);
    }
    forall r
      ensures RowOf(REFRESH_TOKEN, r, RefreshRow(r), RefreshOf(Item(RefreshRow(r))), NO_REFRESH_TOKEN)
    {
      RefreshRowOf(r);
    }
    forall id ensures RowOf(ID_TOKEN, id, IDRow(id), IDOf(Item(IDRow(id))), NO_ID_TOKEN) { IDRowOf(id); }
    forall a ensures RowOf(ACCOUNT, a, AccountRow(a), AccountOf(Item(AccountRow(a))), NO_ACCOUNT) { AccountRowOf(a); }
    forall a ensures RowOf(APP_META_DATA, a, AppRow(a), AppOf(Item(AppRow(a))), NO_APP_META_DATA) { AppRowOf(a); }
  }

  lemma LeafColumns()
    ensures forall i | 0 <= i < |ACCESS_TOKEN| :: ACCESS_TOKEN[i].schema.Leaf?
    ensures forall i | 0 <= i < |REFRESH_TOKEN| :: REFRESH_TOKEN[i].schema.Leaf?
    ensures forall i | 0 <= i < |ID_TOKEN| :: ID_TOKEN[i].schema.Leaf?
    ensures forall i | 0 <= i < |ACCOUNT| :: ACCOUNT[i].schema.Leaf?
    ensures forall i | 0 <= i < |APP_META_DATA| :: APP_META_DATA[i].schema.Leaf?
  {
  }

  lemma FileReadBack(c: Cache)
    ensures CacheOf(File(c)) == Some(c)
  {
    hide MapBack, MapValue, RowsOf;
    hide AccessRow, RefreshRow, IDRow, AccountRow, AppRow, AccessOf, RefreshOf, IDOf, AccountOf, AppOf;
    AllRows();
    MapReadBack(ACCESS_TOKEN, c.accessTokens, AccessRow, AccessOf, NO_ACCESS_TOKEN);
    MapReadBack(REFRESH_TOKEN, c.refreshTokens, RefreshRow, RefreshOf, NO_REFRESH_TOKEN);
    MapReadBack(ID_TOKEN, c.idTokens, IDRow, IDOf, NO_ID_TOKEN);
    MapReadBack(ACCOUNT, c.accounts, AccountRow, AccountOf, NO_ACCOUNT);
    MapReadBack(APP_META_DATA, c.appMetaData, AppRow, AppOf, NO_APP_META_DATA);
  }

  /** One column of the file. */
  ghost predicate ColumnFacts(schema: Schema, v: Value, clean: bool) {
    schema.Map? && v.MapV? && Conforms(schema, v) && Printable(schema, v) && Settled(schema, v)
      && (Clean(schema, v) <==> clean)
  }

  function ItemColumns(i: nat): seq<Column> {
    match i
    case 0 => ACCESS_TOKEN
    case 1 => REFRESH_TOKEN
    case 2 => ID_TOKEN
    case 3 => ACCOUNT
    case _ => APP_META_DATA
  }

  lemma ContractIs()
    ensures |CONTRACT| == 5
    ensures forall i: nat | i < 5 :: CONTRACT[i].schema == Map(Struct(Fields(ItemColumns(i))))
  {
    hide Fields, ACCESS_TOKEN, REFRESH_TOKEN, ID_TOKEN, ACCOUNT, APP_META_DATA;
  }

  lemma FileColumn(c: Cache, i: nat)
    requires i < 5 == |CONTRACT|
    ensures ColumnFacts(CONTRACT[i].schema, FileRow(c)[i], NoneEmptyAt(c, i))
  {
    hide CONTRACT, ACCESS_TOKEN, REFRESH_TOKEN, ID_TOKEN, ACCOUNT, APP_META_DATA;
    hide Fields, Conforms, Printable, Settled, Clean;
    hide RowsOf, AccessRow, RefreshRow, IDRow, AccountRow, AppRow, AccessOf, RefreshOf, IDOf, AccountOf, AppOf;
    ContractIs();
    AllRows();
    match i {
      case 0 => MapFacts(ACCESS_TOKEN, c.accessTokens, AccessRow, AccessOf, NO_ACCESS_TOKEN);
      case 1 => MapFacts(REFRESH_TOKEN, c.refreshTokens, RefreshRow, RefreshOf, NO_REFRESH_TOKEN);
      case 2 => MapFacts(ID_TOKEN, c.idTokens, IDRow, IDOf, NO_ID_TOKEN);
      case 3 => MapFacts(ACCOUNT, c.accounts, AccountRow, AccountOf, NO_ACCOUNT);
      case _ => MapFacts(APP_META_DATA, c.appMetaData, AppRow, AppOf, NO_APP_META_DATA);
    }
  }

  /** The file can be written whatever the cache, and can be read unless an item is empty. */
  lemma FileFacts(c: Cache)
    ensures Good(CONTRACT) && RowFits(CONTRACT, FileRow(c)) && |CONTRACT| == 5
    ensures Conforms(FILE, File(c)) && Printable(FILE, File(c)) && (Clean(FILE, File(c)) <==> NoneEmpty(c))
    ensures forall i | 0 <= i < 5 ::
      CONTRACT[i].schema.Map? && Filled(CONTRACT, FileRow(c), i) && Settled(CONTRACT[i].schema, FileRow(c)[i])
  {
    hide CONTRACT, FileRow, NoneEmptyAt, Conforms, Printable, Settled, Clean, Good;
    ContractColumns();
    ContractIs();
    assert |FileRow(c)| == 5 by { FileRowLength(c); }
    forall i: nat | i < 5
      ensures ColumnFacts(CONTRACT[i].schema, FileRow(c)[i], NoneEmptyAt(c, i)) && Filled(CONTRACT, FileRow(c), i)
    {
      FileColumn(c, i);
    }
    RecordConforms(CONTRACT, FileRow(c), MapV(map[]));
    RecordPrints(CONTRACT, FileRow(c), MapV(map[]));
    RecordClean(CONTRACT, FileRow(c), MapV(map[]));
    assert Filled(CONTRACT, FileRow(c), 0);
  }

  lemma FileRowLength(c: Cache)
    ensures |FileRow(c)| == 5
  {
  }

  // ----- loading the file -----

  /** A member of the document stands for one of the maps. */
  lemma {:induction false} FileMember(c: Cache, members: seq<Member>, n: nat)
    requires n < |members| && RepresentsFields(Fields(CONTRACT), File(c).vals, 6, members) && |CONTRACT| == 5
    ensures 0 <= Target(Fields(CONTRACT), members[n].key) < 5 && IntoMap(Fields(CONTRACT), members[n].key)
  {
    var fields := Fields(CONTRACT);
    hide CONTRACT, FileRow, Good, Supported, RepresentsFields, Target, Conforms, Printable, Settled, Clean, Emits;
    FileFacts(c);
    RecordSupported(CONTRACT);
    WrittenColumns(CONTRACT, FileRow(c), MapV(map[]));
    MemberOrigin(fields, File(c).vals, 6, members, n);
    var k :| 0 <= k < 6 && Emits(fields[k], File(c).vals[k]) && WrittenBy(fields[k], File(c).vals[k], members[n]);
    FileField(c, k);
    TargetOwn(fields, k);
  }

  lemma FileField(c: Cache, k: nat)
    requires k < 5 == |CONTRACT|
    ensures Emits(Fields(CONTRACT)[k], FileRow(c)[k]) && Fields(CONTRACT)[k].schema == CONTRACT[k].schema
    ensures !IsAdd(Fields(CONTRACT)[k]) && !Private(Fields(CONTRACT)[k])
    ensures |FileRow(c)| == 5
  {
    hide CONTRACT, FileRow, Good, Conforms, Printable, Settled, Clean, NoneEmpty, Emits;
    FileFacts(c);
    assert |FileRow(c)| == 5 by { FileRowLength(c); }
    WrittenColumns(CONTRACT, FileRow(c), MapV(map[]));
    ColumnIs(k);
  }

  lemma ColumnIs(k: nat)
    requires k < |CONTRACT|
    ensures var f := Fields(CONTRACT)[k]; !IsAdd(f) && !Private(f)
  {
    ContractColumns();
    assert GoodColumn(CONTRACT[k]);
    hide CONTRACT;
    ColumnTag(CONTRACT[k]);
  }

  /** Each of the maps has a member of its own. */
  lemma MapMember(c: Cache, members: seq<Member>, i: nat) returns (n: nat)
    requires i < 5 == |CONTRACT| && RepresentsFields(Fields(CONTRACT), File(c).vals, 6, members)
    ensures n < |members| && Target(Fields(CONTRACT), members[n].key) == i && IntoMap(Fields(CONTRACT), members[n].key)
    ensures Represents(CONTRACT[i].schema, FileRow(c)[i], members[n].val)
  {
    hide CONTRACT, FileRow, Good, Supported, RepresentsFields, Target, Emits, Conforms, Printable, Settled, Clean;
    FileFacts(c);
    RecordSupported(CONTRACT);
    FileField(c, i);
    n := FieldMember(Fields(CONTRACT), File(c).vals, 6, members, i);
    TargetOwn(Fields(CONTRACT), i);
  }

  lemma {:induction false} KindFails(c: Cache, i: nat, j: Json)
    requires i < 5 == |CONTRACT| && !NoneEmptyAt(c, i) && CONTRACT[i].schema.Map?
    requires Represents(CONTRACT[i].schema, FileRow(c)[i], j)
    ensures Unmarshal.FromMap(CONTRACT[i].schema.elem, j) == None
  {
    hide CONTRACT, Fields, ACCESS_TOKEN, REFRESH_TOKEN, ID_TOKEN, ACCOUNT, APP_META_DATA, Represents, Unmarshal.FromMap;
    hide RowsOf, MapValue;
    hide AccessRow, RefreshRow, IDRow, AccountRow, AppRow, AccessOf, RefreshOf, IDOf, AccountOf, AppOf;
    ContractIs();
    AllRows();
    match i {
      case 0 =>
        var k :| k in c.accessTokens && c.accessTokens[k] == NO_ACCESS_TOKEN;
        EmptyItemFails(ACCESS_TOKEN, c.accessTokens, AccessRow, AccessOf, NO_ACCESS_TOKEN, k, j);
      case 1 =>
        var k :| k in c.refreshTokens && c.refreshTokens[k] == NO_REFRESH_TOKEN;
        EmptyItemFails(REFRESH_TOKEN, c.refreshTokens, RefreshRow, RefreshOf, NO_REFRESH_TOKEN, k, j);
      case 2 =>
        var k :| k in c.idTokens && c.idTokens[k] == NO_ID_TOKEN;
        EmptyItemFails(ID_TOKEN, c.idTokens, IDRow, IDOf, NO_ID_TOKEN, k, j);
      case 3 =>
        var k :| k in c.accounts && c.accounts[k] == NO_ACCOUNT;
        EmptyItemFails(ACCOUNT, c.accounts, AccountRow, AccountOf, NO_ACCOUNT, k, j);
      case _ =>
        var k :| k in c.appMetaData && c.appMetaData[k] == NO_APP_META_DATA;
        EmptyItemFails(APP_META_DATA, c.appMetaData, AppRow, AppOf, NO_APP_META_DATA, k, j);
    }
  }

  /** The members of the document of a cache: each leads to one of the maps, and each map has one. */
  lemma FileMembers(c: Cache, j: Json) returns (members: seq<Member>)
    requires Represents(FILE, File(c), j)
    ensures j.JObj? && members == j.members && RepresentsFields(Fields(CONTRACT), File(c).vals, 6, members)
    ensures |CONTRACT| == 5 && IntoMaps(Fields(CONTRACT), members)
    ensures forall i: nat | i < 6 :: Targeted(Fields(CONTRACT), members, i) <==> i < 5
  {
    hide CONTRACT, FileRow, Good, RepresentsFields, Target, Conforms, Printable, Settled, Clean;
    FileFacts(c);
    members := if j.JStray? then [] else j.members;
    forall n | 0 <= n < |members|
      ensures 0 <= Target(Fields(CONTRACT), members[n].key) < 5 && IntoMap(Fields(CONTRACT), members[n].key)
    {
      FileMember(c, members, n);
    }
    forall i: nat | i < 5 ensures Targeted(Fields(CONTRACT), members, i) {
      var n := MapMember(c, members, i);
      assert members[n] in members;
    }
    assert Targeted(Fields(CONTRACT), members, 0);
  }

  lemma {:induction false} LoadIsMembers(fields: seq<Field>, vals: seq<Value>, members: seq<Member>)
    requires HasAdd(fields) && |vals| == |fields|
    ensures Unmarshal.FromJson(Struct(fields), StructV(vals), JObj(members)) ==
      var r := Unmarshal.FromMembers(fields, vals, members);
      if r.Some? then Some(StructV(r.value)) else None
  {
  }

  /** Loaded over something else than nothing, all maps come from the document, and the block stays. */
  lemma {:induction false} LoadsOver(c: Cache, members: seq<Member>)
    requires RowFits(CONTRACT, FileRow(c)) && |CONTRACT| == 5 && IntoMaps(Fields(CONTRACT), members)
    requires forall i: nat | i < 6 :: Targeted(Fields(CONTRACT), members, i) <==> i < 5
    requires Unmarshal.FromMembers(Fields(CONTRACT), ZeroFields(Fields(CONTRACT)), members) == Some(FileRow(c) + [NilV])
    ensures Unmarshal.FromMembers(Fields(CONTRACT), File(EMPTY).vals, members) == Some(File(c).vals)
  {
    hide CONTRACT, FileRow, RowFits, Targeted, IntoMaps, Unmarshal.FromMembers;
    var fields := Fields(CONTRACT);
    FileRowLength(c);
    FileRowLength(EMPTY);
    StartsAlike(fields, ZeroFields(fields), File(EMPTY).vals, members);
    var r := Unmarshal.FromMembers(fields, File(EMPTY).vals, members);
    assert r.value == File(c).vals;
  }

  /** What was written of a cache, loaded over an empty one, is what the cache held; but one empty item
      makes the whole file unreadable. */
  lemma {:induction false} FileLoads(c: Cache, j: Json)
    requires Represents(FILE, File(c), j)
    ensures Unmarshal.FromJson(FILE, File(EMPTY), j) == if NoneEmpty(c) then Some(File(c)) else None
  {
    var fields := Fields(CONTRACT);
    hide CONTRACT, FileRow, NoneEmptyAt, Good, RowFits, RepresentsFields, Represents;
    hide Target, Targeted, IntoMaps, IntoMap, Conforms, Printable, Settled, Clean, HasAdd, Supported;
    hide Unmarshal.FromJson, Unmarshal.FromMembers, Unmarshal.FromMap;
    var members := FileMembers(c, j);
    FileFacts(c);
    FileRowLength(c);
    FileRowLength(EMPTY);
    RecordSupported(CONTRACT);
    SupportedStruct(fields);
    LoadIsMembers(fields, File(EMPTY).vals, members);
    if NoneEmpty(c) {
      LoadIsMembers(fields, ZeroFields(fields), members);
      RecordBack(CONTRACT, FileRow(c), MapV(map[]), j);
      LoadsOver(c, members);
    } else {
      var i: nat :| i < 5 && !NoneEmptyAt(c, i);
      var n := MapMember(c, members, i);
      KindFails(c, i, members[n].val);
      assert fields[i].schema == CONTRACT[i].schema by { FileField(c, i); }
      MemberFails(fields, File(EMPTY).vals, members, n);
    }
  }

  // ----- the manager's two methods -----

  /** What a file holds, if it can be read; an empty one holds nothing. */
  function LoadedFrom(b: seq<Lex>): Option<Cache> {
    if b == [] then Some(EMPTY)
    else
      match Unmarshal.Read(FILE, File(EMPTY), Stream(b, TopValue, []))
      case None => None
      case Some((v, _)) => CacheOf(v)
  }

  /** `Manager.Marshal` always succeeds. */
  method Save(m: Manager) returns (b: seq<Lex>, ghost j: Json)
    ensures Represents(FILE, File(m.Contents()), j) && b == Text(j)
  {
    ghost var c := m.Contents();
    hide *;
    FileShaped();
    FileFacts(c);
    var r;
    r, j := Codec.MarshalValue(Fields(CONTRACT), File(m.Contents()));
    b := r.value;
  }

  lemma FileShaped()
    ensures Shaped(FILE)
  {
    hide CONTRACT, Good, Fields;
    ContractColumns();
    RecordSupported(CONTRACT);
    SupportedShaped(FILE);
  }

  /** `Manager.Unmarshal` replaces the contents, or leaves them alone if the file cannot be read. */
  method Load(m: Manager, b: seq<Lex>) returns (ok: bool)
    modifies m
    ensures ok <==> LoadedFrom(b).Some?
    ensures m.Contents() == if ok then LoadedFrom(b).value else old(m.Contents())
  {
    hide CONTRACT, CacheOf, File, Unmarshal.Read;
    var v := Codec.UnmarshalValue(Fields(CONTRACT), File(EMPTY), b);
    FileReadBack(EMPTY);
    if v.None? { return false; }
    var c := CacheOf(v.value);
    if c.None? { return false; }
    m.accessTokens, m.refreshTokens, m.idTokens := c.value.accessTokens, c.value.refreshTokens, c.value.idTokens;
    m.accounts, m.appMetaData := c.value.accounts, c.value.appMetaData;
    ok := true;
  }

  lemma {:induction false} SavedLoads(c: Cache, j: Json)
    requires Represents(FILE, File(c), j)
    ensures LoadedFrom(Text(j)) == if NoneEmpty(c) then Some(c) else None
  {
    hide *;
    FileLoads(c, j);
    FileReadBack(c);
    TextLoads(j);
  }

  lemma {:induction false} TextLoads(j: Json)
    ensures LoadedFrom(Text(j)) ==
      match Unmarshal.FromJson(FILE, File(EMPTY), j) case None => None case Some(v) => CacheOf(v)
  {
    hide CONTRACT, CacheOf, File, Unmarshal.Read, Unmarshal.FromJson, Text;
    Preserve.TextMeaning(Fields(CONTRACT), File(EMPTY), j);
  }

  /** Saving a cache and loading it into another manager gives the other one its contents, exactly if no
      item is empty; otherwise the other one stays as it was. */
  method SaveAndLoad(m: Manager, other: Manager) returns (ok: bool)
    modifies other
    ensures ok <==> old(NoneEmpty(m.Contents()))
    ensures other.Contents() == if ok then old(m.Contents()) else old(other.Contents())
  {
    hide LoadedFrom, NoneEmpty, File, Represents;
    var b, j := Save(m);
    SavedLoads(m.Contents(), j);
    ok := Load(other, b);
  }

  // ----- runs -----

  lemma NewNotEmpty(p: AuthParams, t: TokenResponse, now: int)
    requires p.host != ""
    ensures NewAccessToken(p, t, now) != NO_ACCESS_TOKEN && NewRefreshToken(p, t) != NO_REFRESH_TOKEN
    ensures t.idToken.Jwt? ==> NewIDToken(p, t) != NO_ID_TOKEN && NewAccount(p, t) != NO_ACCOUNT
  {
  }

  /** A write for an authority with a host leaves no empty item behind. */
  lemma WriteNotEmpty(c: Cache, p: AuthParams, t: TokenResponse, now: int)
    requires NoneEmpty(c) && p.host != ""
    ensures NoneEmpty(AfterWrite(c, p, t, now))
  {
    hide AccessKey, RefreshKey, IDTokenKey, AccountKey, AppKey, Usable;
    hide NewAccessToken, NewRefreshToken, NewIDToken, NewAccount;
    hide NO_ACCESS_TOKEN, NO_REFRESH_TOKEN, NO_ID_TOKEN, NO_ACCOUNT;
    assert NoneEmptyAt(c, 0) && NoneEmptyAt(c, 1) && NoneEmptyAt(c, 2) && NoneEmptyAt(c, 3) && NoneEmptyAt(c, 4);
    NewNotEmpty(p, t, now);
    forall i: nat | i < 5 ensures NoneEmptyAt(AfterWrite(c, p, t, now), i) {}
  }

  lemma RemoveNotEmpty(c: Cache, account: Account, clientID: string)
    requires NoneEmpty(c)
    ensures NoneEmpty(AfterRemove(c, account, clientID))
  {
    assert NoneEmptyAt(c, 0) && NoneEmptyAt(c, 1) && NoneEmptyAt(c, 2) && NoneEmptyAt(c, 3) && NoneEmptyAt(c, 4);
    forall i: nat | i < 5 ensures NoneEmptyAt(AfterRemove(c, account, clientID), i) {}
  }

  lemma {:induction false} RunNotEmpty(ops: seq<StorageUse.Op>, n: nat)
    requires n <= |ops| && forall i | 0 <= i < |ops| :: ops[i].WriteOp? ==> ops[i].p.host != ""
    ensures NoneEmpty(StorageUse.After(EMPTY, ops, n))
  {
    if n > 0 {
      RunNotEmpty(ops, n - 1);
      hide NoneEmpty, AfterWrite, AfterRemove;
      var c := StorageUse.After(EMPTY, ops, n - 1);
      match ops[n - 1] {
        case WriteOp(p, t, now) => WriteNotEmpty(c, p, t, now);
        case ReadOp(_, _) =>
        case RemoveOp(account, clientID) => RemoveNotEmpty(c, account, clientID);
      }
    }
  }

  /** Whatever has run on a new cache, for authorities with a host: what is saved of it can be loaded, and is
      what the cache held. */
  lemma {:induction false} RunSurvivesFile(trace: seq<Cache>, ops: seq<StorageUse.Op>, answers: seq<Option<Cached>>,
    n: nat, j: Json)
    requires StorageUse.IsRun(trace, ops, answers) && trace[0] == EMPTY && n <= |ops|
    requires forall i | 0 <= i < |ops| :: ops[i].WriteOp? ==> ops[i].p.host != ""
    requires Represents(FILE, File(trace[n]), j)
    ensures LoadedFrom(Text(j)) == Some(trace[n])
  {
    hide LoadedFrom, NoneEmpty, File, Represents, StorageUse.After;
    StorageUse.RunKeeps(trace, ops, answers, n);
    RunNotEmpty(ops, n);
    SavedLoads(trace[n], j);
  }
}
