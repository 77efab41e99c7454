/** The columns of the cache file, and that the codec can tell them apart. */
module CacheColumns {
  import opened Strings
  import opened JsonText
  import opened GoTypes
  import opened Records

  function TextColumn(goName: string, jsonName: string): Column { Column(goName, jsonName, Leaf(KString)) }

  /** A time writes itself as its seconds, quoted.  The zero time writes nothing, and is always left out; it
      stands here as the empty text. */
  const TIME := Leaf(KOwn(JStr("")))

  function TimeColumn(goName: string, jsonName: string): Column { Column(goName, jsonName, TIME) }

  const ACCESS_TOKEN := [
    TextColumn("HomeAccountID", "home_account_id"), TextColumn("Environment", "environment"),
    TextColumn("Realm", "realm"), TextColumn("CredentialType", "credential_type"),
    TextColumn("ClientID", "client_id"), TextColumn("Secret", "secret"), TextColumn("Scopes", "target"),
    TimeColumn("RefreshOn", "refresh_on"), TimeColumn("ExpiresOn", "expires_on"),
    TimeColumn("ExtendedExpiresOn", "extended_expires_on"), TimeColumn("CachedAt", "cached_at"),
    TextColumn("UserAssertionHash", "user_assertion_hash"), TextColumn("TokenType", "token_type"),
    TextColumn("AuthnSchemeKeyID", "keyid"), TextColumn("ExtCacheKey", "ext_cache_key")]

  const REFRESH_TOKEN := [
    TextColumn("HomeAccountID", "home_account_id"), TextColumn("Environment", "environment"),
    TextColumn("CredentialType", "credential_type"), TextColumn("ClientID", "client_id"),
    TextColumn("FamilyID", "family_id"), TextColumn("Secret", "secret"), TextColumn("Realm", "realm"),
    TextColumn("Target", "target"), TextColumn("UserAssertionHash", "user_assertion_hash")]

  const ID_TOKEN := [
    TextColumn("HomeAccountID", "home_account_id"), TextColumn("Environment", "environment"),
    TextColumn("Realm", "realm"), TextColumn("CredentialType", "credential_type"),
    TextColumn("ClientID", "client_id"), TextColumn("Secret", "secret"),
    TextColumn("UserAssertionHash", "user_assertion_hash")]

  const ACCOUNT := [
    TextColumn("HomeAccountID", "home_account_id"), TextColumn("Environment", "environment"),
    TextColumn("Realm", "realm"), TextColumn("LocalAccountID", "local_account_id"),
    TextColumn("AuthorityType", "authority_type"), TextColumn("PreferredUsername", "username"),
    TextColumn("GivenName", "given_name"), TextColumn("FamilyName", "family_name"),
    TextColumn("MiddleName", "middle_name"), TextColumn("Name", "name"),
    TextColumn("AlternativeID", "alternative_account_id"), TextColumn("RawClientInfo", "client_info"),
    TextColumn("UserAssertionHash", "user_assertion_hash")]

  const APP_META_DATA := [
    TextColumn("FamilyID", "family_id"), TextColumn("ClientID", "client_id"),
    TextColumn("Environment", "environment")]

  function MapOf(goName: string, jsonName: string, item: seq<Column>): Column {
    Column(goName, jsonName, Map(Struct(Fields(item))))
  }

  function ContractOf(access: seq<Column>, refresh: seq<Column>, id: seq<Column>, account: seq<Column>,
    app: seq<Column>): seq<Column> {
    [MapOf("AccessTokens", "AccessToken", access), MapOf("RefreshTokens", "RefreshToken", refresh),
     MapOf("IDTokens", "IdToken", id), MapOf("Accounts", "Account", account), MapOf("AppMetaData", "AppMetadata", app)]
  }

  const CONTRACT := ContractOf(ACCESS_TOKEN, REFRESH_TOKEN, ID_TOKEN, ACCOUNT, APP_META_DATA)

  lemma MapSupported(item: seq<Column>)
    requires Good(item)
    ensures Supported(Map(Struct(Fields(item))))
  {
    RecordSupported(item);
  }

  // ----- the names -----

  predicate Distinct<T(==)>(s: seq<T>) { forall i, k | 0 <= i < k < |s| :: s[i] != s[k] }

  ghost predicate Named(names: seq<string>) { Distinct(names) && forall i | 0 <= i < |names| :: GoodName(names[i]) }

  /** Columns with good names and types. */
  lemma GoodBy(cols: seq<Column>, goNames: seq<string>, jsonNames: seq<string>)
    requires |cols| == |goNames| == |jsonNames| && Named(goNames) && Named(jsonNames)
    requires forall i | 0 <= i < |cols| :: cols[i].goName == goNames[i] && cols[i].jsonName == jsonNames[i]
    requires forall i | 0 <= i < |cols| :: 'A' <= goNames[i][0] <= 'Z'
    requires forall i | 0 <= i < |cols| :: Supported(cols[i].schema) && !ElementOnly(cols[i].schema)
    ensures Good(cols)
  {
  }

  const ACCESS_TOKEN_GO :=
    ["HomeAccountID", "Environment", "Realm", "CredentialType", "ClientID", "Secret", "Scopes", "RefreshOn",
     "ExpiresOn", "ExtendedExpiresOn", "CachedAt", "UserAssertionHash", "TokenType", "AuthnSchemeKeyID",
     "ExtCacheKey"]

  lemma AccessTokenGoCommas()
    ensures forall i | 0 <= i < |ACCESS_TOKEN_GO| :: ',' !in ACCESS_TOKEN_GO[i]
  {
  }

  lemma AccessTokenGoDiffer()
    ensures Distinct(ACCESS_TOKEN_GO)
  {
  }

  lemma AccessTokenGoNames()
    ensures Named(ACCESS_TOKEN_GO)
  {
    AccessTokenGoCommas();
    AccessTokenGoDiffer();
  }

  const ACCESS_TOKEN_JSON :=
    ["home_account_id", "environment", "realm", "credential_type", "client_id", "secret", "target", "refresh_on",
     "expires_on", "extended_expires_on", "cached_at", "user_assertion_hash", "token_type", "keyid",
     "ext_cache_key"]

  lemma AccessTokenJsonCommas()
    ensures forall i | 0 <= i < |ACCESS_TOKEN_JSON| :: ',' !in ACCESS_TOKEN_JSON[i]
  {
  }

  lemma AccessTokenJsonDiffer()
    ensures Distinct(ACCESS_TOKEN_JSON)
  {
  }

  lemma AccessTokenJsonNames()
    ensures Named(ACCESS_TOKEN_JSON)
  {
    AccessTokenJsonCommas();
    AccessTokenJsonDiffer();
  }

  lemma AccessTokenColumns()
    ensures Good(ACCESS_TOKEN)
  {
    AccessTokenGoNames();
    AccessTokenJsonNames();
    hide Named;
    GoodBy(ACCESS_TOKEN, ACCESS_TOKEN_GO, ACCESS_TOKEN_JSON);
  }

  const REFRESH_TOKEN_GO :=
    ["HomeAccountID", "Environment", "CredentialType", "ClientID", "FamilyID", "Secret", "Realm", "Target",
     "UserAssertionHash"]

  lemma RefreshTokenGoNames()
    ensures Named(REFRESH_TOKEN_GO)
  {
  }

  const REFRESH_TOKEN_JSON :=
    ["home_account_id", "environment", "credential_type", "client_id", "family_id", "secret", "realm", "target",
     "user_assertion_hash"]

  lemma RefreshTokenJsonNames()
    ensures Named(REFRESH_TOKEN_JSON)
  {
  }

  lemma RefreshTokenColumns()
    ensures Good(REFRESH_TOKEN)
  {
    RefreshTokenGoNames();
    RefreshTokenJsonNames();
    hide Named;
    GoodBy(REFRESH_TOKEN, REFRESH_TOKEN_GO, REFRESH_TOKEN_JSON);
  }

  const ID_TOKEN_GO :=
    ["HomeAccountID", "Environment", "Realm", "CredentialType", "ClientID", "Secret", "UserAssertionHash"]

  lemma IDTokenGoNames()
    ensures Named(ID_TOKEN_GO)
  {
  }

  const ID_TOKEN_JSON :=
    ["home_account_id", "environment", "realm", "credential_type", "client_id", "secret", "user_assertion_hash"]

  lemma IDTokenJsonNames()
    ensures Named(ID_TOKEN_JSON)
  {
  }

  lemma IDTokenColumns()
    ensures Good(ID_TOKEN)
  {
    IDTokenGoNames();
    IDTokenJsonNames();
    hide Named;
    GoodBy(ID_TOKEN, ID_TOKEN_GO, ID_TOKEN_JSON);
  }

  const ACCOUNT_GO :=
    ["HomeAccountID", "Environment", "Realm", "LocalAccountID", "AuthorityType", "PreferredUsername",
     "GivenName", "FamilyName", "MiddleName", "Name", "AlternativeID", "RawClientInfo", "UserAssertionHash"]

  lemma AccountGoCommas()
    ensures forall i | 0 <= i < |ACCOUNT_GO| :: ',' !in ACCOUNT_GO[i]
  {
  }

  lemma AccountGoDiffer()
    ensures Distinct(ACCOUNT_GO)
  {
  }

  lemma AccountGoNames()
    ensures Named(ACCOUNT_GO)
  {
    AccountGoCommas();
    AccountGoDiffer();
  }

  const ACCOUNT_JSON :=
    ["home_account_id", "environment", "realm", "local_account_id", "authority_type", "username", "given_name",
     "family_name", "middle_name", "name", "alternative_account_id", "client_info", "user_assertion_hash"]

  lemma AccountJsonCommas()
    ensures forall i | 0 <= i < |ACCOUNT_JSON| :: ',' !in ACCOUNT_JSON[i]
  {
  }

  lemma AccountJsonDiffer()
    ensures Distinct(ACCOUNT_JSON)
  {
  }

  lemma AccountJsonNames()
    ensures Named(ACCOUNT_JSON)
  {
    AccountJsonCommas();
    AccountJsonDiffer();
  }

  lemma AccountColumns()
    ensures Good(ACCOUNT)
  {
    AccountGoNames();
    AccountJsonNames();
    hide Named;
    GoodBy(ACCOUNT, ACCOUNT_GO, ACCOUNT_JSON);
  }

  const APP_META_DATA_GO :=
    ["FamilyID", "ClientID", "Environment"]

  lemma AppMetaDataGoNames()
    ensures Named(APP_META_DATA_GO)
  {
  }

  const APP_META_DATA_JSON :=
    ["family_id", "client_id", "environment"]

  lemma AppMetaDataJsonNames()
    ensures Named(APP_META_DATA_JSON)
  {
  }

  lemma AppMetaDataColumns()
    ensures Good(APP_META_DATA)
  {
    AppMetaDataGoNames();
    AppMetaDataJsonNames();
    hide Named;
    GoodBy(APP_META_DATA, APP_META_DATA_GO, APP_META_DATA_JSON);
  }

  const CONTRACT_GO :=
    ["AccessTokens", "RefreshTokens", "IDTokens", "Accounts", "AppMetaData"]

  lemma ContractGoNames()
    ensures Named(CONTRACT_GO)
  {
  }

  const CONTRACT_JSON :=
    ["AccessToken", "RefreshToken", "IdToken", "Account", "AppMetadata"]

  lemma ContractJsonNames()
    ensures Named(CONTRACT_JSON)
  {
  }

  lemma ContractGood(access: seq<Column>, refresh: seq<Column>, id: seq<Column>, account: seq<Column>, app: seq<Column>)
    requires Good(access) && Good(refresh) && Good(id) && Good(account) && Good(app)
    ensures Good(ContractOf(access, refresh, id, account, app))
  {
    hide Named, Good, Supported, Fields;
    ContractGoNames();
    ContractJsonNames();
    MapSupported(access);
    MapSupported(refresh);
    MapSupported(id);
    MapSupported(account);
    MapSupported(app);
    GoodBy(ContractOf(access, refresh, id, account, app), CONTRACT_GO, CONTRACT_JSON);
  }

  lemma ContractColumns()
    ensures Good(CONTRACT)
  {
    hide Good, ContractOf, ACCESS_TOKEN, REFRESH_TOKEN, ID_TOKEN, ACCOUNT, APP_META_DATA;
    AccessTokenColumns();
    RefreshTokenColumns();
    IDTokenColumns();
    AccountColumns();
    AppMetaDataColumns();
    ContractGood(ACCESS_TOKEN, REFRESH_TOKEN, ID_TOKEN, ACCOUNT, APP_META_DATA);
  }
}
