/** The flat token cache: writes, reads that migrate old keys on the way, and account removal. */
module Storage {
  import opened Wrappers
  import opened Strings
  import opened Items
  import Scopes
  import MapOrder
  import Upgrade

  /** The part of a request's parameters that the cache looks at. */
  datatype AuthParams = AuthParams(
    homeAccountID: string, host: string, tenant: string, clientID: string, scopes: seq<string>,
    authnSchemeKeyID: string, accessTokenType: string, extCacheKey: string)

  datatype IDTokenJwt =
    | NoIDToken
    | Jwt(raw: string, localAccountID: string, upn: string, preferredUsername: string, authorityType: string)

  /** A token response; `subject`, `uid` and `utid` come from the ID token and the client info. */
  datatype TokenResponse = TokenResponse(
    subject: string, uid: string, utid: string, accessToken: string, refreshToken: string, tokenType: string,
    familyID: string, idToken: IDTokenJwt, grantedScopes: seq<string>,
    refreshOn: int, expiresOn: int, extExpiresOn: int)
  {
    function HomeAccountID(): string {
      if uid == "" then subject else uid + "." + if utid == "" then uid else utid
    }
  }

  datatype Cached = Cached(
    accessToken: Option<AccessToken>, idToken: Option<IDToken>, refreshToken: Option<RefreshToken>,
    account: Option<Account>)

  // ----- matching -----

  predicate MatchesAccess(p: AuthParams, aliases: seq<string>, k: string, at: AccessToken) {
    && at.homeAccountID == p.homeAccountID && at.realm == p.tenant && at.clientID == p.clientID
    && ((EqualFold(at.tokenType, p.accessTokenType) && at.authnSchemeKeyID == p.authnSchemeKeyID)
        || (at.tokenType == "" && (p.accessTokenType == "" || p.accessTokenType == BEARER)))
    && at.environment in aliases
    && Scopes.Matching(p.scopes, Split(at.scopes, Scopes.SCOPE_SEPARATOR))
    && (if p.extCacheKey != "" then Contains(k, p.extCacheKey) else at.extCacheKey == "")
  }

  predicate MatchesID(p: AuthParams, aliases: seq<string>, id: IDToken) {
    id.homeAccountID == p.homeAccountID && id.realm == p.tenant && id.clientID == p.clientID
      && id.environment in aliases
  }

  predicate MatchesFamily(p: AuthParams, aliases: seq<string>, rt: RefreshToken) {
    rt.homeAccountID == p.homeAccountID && rt.environment in aliases && rt.familyID != ""
  }

  predicate MatchesClient(p: AuthParams, aliases: seq<string>, rt: RefreshToken) {
    rt.homeAccountID == p.homeAccountID && rt.environment in aliases && rt.clientID == p.clientID
  }

  predicate MatchesAccount(p: AuthParams, aliases: seq<string>, acc: Account) {
    acc.homeAccountID == p.homeAccountID && acc.environment in aliases && acc.realm == p.tenant
  }

  predicate MatchesApp(p: AuthParams, aliases: seq<string>, app: AppMetaData) {
    app.environment in aliases && app.clientID == p.clientID
  }

  function AccessMatcher(p: AuthParams, aliases: seq<string>): (string, AccessToken) -> bool {
    (k: string, at: AccessToken) => MatchesAccess(p, aliases, k, at)
  }

  function IDMatcher(p: AuthParams, aliases: seq<string>): (string, IDToken) -> bool {
    (_: string, id: IDToken) => MatchesID(p, aliases, id)
  }

  function FamilyMatcher(p: AuthParams, aliases: seq<string>): (string, RefreshToken) -> bool {
    (_: string, rt: RefreshToken) => MatchesFamily(p, aliases, rt)
  }

  function ClientMatcher(p: AuthParams, aliases: seq<string>): (string, RefreshToken) -> bool {
    (_: string, rt: RefreshToken) => MatchesClient(p, aliases, rt)
  }

  function AccountMatcher(p: AuthParams, aliases: seq<string>): (string, Account) -> bool {
    (_: string, acc: Account) => MatchesAccount(p, aliases, acc)
  }

  function AppMatcher(p: AuthParams, aliases: seq<string>): (string, AppMetaData) -> bool {
    (_: string, app: AppMetaData) => MatchesApp(p, aliases, app)
  }

  /** The result `r` of scanning `m`, and the map left behind: nothing matches and nothing changes,
      or some matching entry was returned and, if its key is old, upgraded. */
  ghost predicate Scanned<V>(m: map<string, V>, matches: (string, V) -> bool, r: Option<V>, m': map<string, V>) {
    if r.None? then m' == m && forall k | k in m :: !matches(k, m[k])
    else exists k | k in m && matches(k, m[k]) :: (r, m') == Upgrade.Touch(m, k)
  }

  /** The refresh token search: outside a family the client's own token comes first and any family token
      second; inside a family it is the other way round. */
  ghost predicate FoundRefresh(p: AuthParams, aliases: seq<string>, familyID: string,
    m: map<string, RefreshToken>, r: Option<RefreshToken>, m': map<string, RefreshToken>)
  {
    var first := if familyID == "" then ClientMatcher(p, aliases) else FamilyMatcher(p, aliases);
    var second := if familyID == "" then FamilyMatcher(p, aliases) else ClientMatcher(p, aliases);
    if exists k :: k in m && first(k, m[k]) then r.Some? && Scanned(m, first, r, m')
    else Scanned(m, second, r, m')
  }

  /** What a whole read does about refresh tokens: none for an unknown app, else the search for its family. */
  ghost predicate ReadsRefresh(p: AuthParams, aliases: seq<string>, app: Option<AppMetaData>,
    m: map<string, RefreshToken>, r: Option<RefreshToken>, m': map<string, RefreshToken>)
  {
    if app.None? then r.None? && m' == m else FoundRefresh(p, aliases, app.value.familyID, m, r, m')
  }

  // ----- invariants -----

  /** Lowercasing the key of an entry gives its value's own key. */
  ghost predicate KeyedBy<V>(m: map<string, V>, key: V -> string) {
    forall k | k in m :: ToLower(k) == key(m[k])
  }

  /** No key is left from the v1.0 schema. */
  ghost predicate Migrated<V>(m: map<string, V>) { forall k | k in m :: !HasUpper(k) }

  /** An operation that keeps both. */
  ghost predicate Kept<V>(m: map<string, V>, m': map<string, V>, key: V -> string) {
    (KeyedBy(m, key) ==> KeyedBy(m', key)) && (Migrated(m) ==> Migrated(m'))
  }

  lemma {:induction false} TouchKeeps<V>(m: map<string, V>, k: string, key: V -> string)
    requires k in m
    ensures var (r, m') := Upgrade.Touch(m, k);
      && r.Some? && Kept(m, m', key) && (Migrated(m) ==> m' == m && r.value == m[k])
      && (KeyedBy(m, key) ==> key(r.value) == ToLower(k))
  {
    LowerFixed(k);
  }

  lemma ScanKeeps<V>(m: map<string, V>, matches: (string, V) -> bool, r: Option<V>, m': map<string, V>,
    key: V -> string)
    requires Scanned(m, matches, r, m')
    ensures Kept(m, m', key) && (Migrated(m) ==> m' == m)
  {
    if r.Some? {
      var k :| k in m && matches(k, m[k]) && (r, m') == Upgrade.Touch(m, k);
      TouchKeeps(m, k, key);
    }
  }

  // ----- what Write stores -----

  function NewRefreshToken(p: AuthParams, t: TokenResponse): RefreshToken {
    RefreshToken(t.HomeAccountID(), p.host, "RefreshToken", p.clientID, t.familyID, t.refreshToken, "")
  }

  function NewAccessToken(p: AuthParams, t: TokenResponse, now: int): AccessToken {
    AccessToken(t.HomeAccountID(), p.host, p.tenant, "AccessToken", p.clientID, t.accessToken,
                Join(t.grantedScopes, [Scopes.SCOPE_SEPARATOR]), t.refreshOn, t.expiresOn, t.extExpiresOn, now,
                "", t.tokenType, p.authnSchemeKeyID, p.extCacheKey)
  }

  function NewIDToken(p: AuthParams, t: TokenResponse): IDToken
    requires t.idToken.Jwt?
  {
    IDToken(t.HomeAccountID(), p.host, p.tenant, "IdToken", p.clientID, t.idToken.raw, "")
  }

  function NewAccount(p: AuthParams, t: TokenResponse): Account
    requires t.idToken.Jwt?
  {
    Account(t.HomeAccountID(), p.host, p.tenant, t.idToken.localAccountID, t.idToken.authorityType,
            if t.idToken.preferredUsername != "" then t.idToken.preferredUsername else t.idToken.upn, "")
  }

  /** The entries of `m` whose values `drop` does not pick. */
  ghost function Without<V>(m: map<string, V>, drop: V -> bool): map<string, V> {
    map k | k in m && !drop(m[k]) :: m[k]
  }

  lemma WithoutKeeps<V>(m: map<string, V>, drop: V -> bool, key: V -> string)
    ensures Kept(m, Without(m, drop), key)
  {
  }

  function RefreshTokensOf(account: Account, clientID: string): RefreshToken -> bool {
    (rt: RefreshToken) =>
      rt.homeAccountID == account.homeAccountID && rt.environment == account.environment
      && (rt.clientID == clientID || rt.familyID != "")
  }

  function AccessTokensOf(account: Account): AccessToken -> bool {
    (at: AccessToken) => at.homeAccountID == account.homeAccountID && at.environment == account.environment
  }

  function IDTokensOf(account: Account): IDToken -> bool {
    (id: IDToken) => id.homeAccountID == account.homeAccountID && id.environment == account.environment
  }

  function AccountsOf(account: Account): Account -> bool {
    (acc: Account) => acc.homeAccountID == account.homeAccountID && acc.environment == account.environment
  }

  /** Deletes the picked entries while ranging over the map. */
  method DeleteAll<V>(m: map<string, V>, drop: V -> bool) returns (m': map<string, V>)
    ensures m' == Without(m, drop)
  {
    m' := m;
    var keys := MapOrder.Range(m);
    for i := 0 to |keys|
      invariant forall k :: k in m' <==> k in m && !(drop(m[k]) && k in keys[..i])
      invariant forall k | k in m' :: m'[k] == m[k]
    {
      if drop(m[keys[i]]) {
        m' := m' - {keys[i]};
      }
    }
    assert keys[..|keys|] == keys;
  }

  // ----- the cache as a value -----

  /** The contents of the cache. */
  datatype Cache = Cache(
    accessTokens: map<string, AccessToken>, refreshTokens: map<string, RefreshToken>, idTokens: map<string, IDToken>,
    accounts: map<string, Account>, appMetaData: map<string, AppMetaData>)
  {
    /** Each entry lies under some spelling of its own key. */
    ghost predicate Valid() {
      && KeyedBy(accessTokens, AccessKey) && KeyedBy(refreshTokens, RefreshKey) && KeyedBy(idTokens, IDTokenKey)
      && KeyedBy(accounts, AccountKey) && KeyedBy(appMetaData, AppKey)
    }

    ghost predicate AllMigrated() {
      && Migrated(accessTokens) && Migrated(refreshTokens) && Migrated(idTokens)
      && Migrated(accounts) && Migrated(appMetaData)
    }
  }

  const EMPTY := Cache(map[], map[], map[], map[], map[])

  /** The write of a token response. */
  function AfterWrite(c: Cache, p: AuthParams, t: TokenResponse, now: int): Cache {
    Cache(
      if t.accessToken == "" || !Usable(NewAccessToken(p, t, now), now) then c.accessTokens
      else c.accessTokens[AccessKey(NewAccessToken(p, t, now)) := NewAccessToken(p, t, now)],
      if t.refreshToken == "" then c.refreshTokens
      else c.refreshTokens[RefreshKey(NewRefreshToken(p, t)) := NewRefreshToken(p, t)],
      if t.idToken.NoIDToken? then c.idTokens else c.idTokens[IDTokenKey(NewIDToken(p, t)) := NewIDToken(p, t)],
      if t.idToken.NoIDToken? then c.accounts else c.accounts[AccountKey(NewAccount(p, t)) := NewAccount(p, t)],
      var app := AppMetaData(t.familyID, p.clientID, p.host); c.appMetaData[AppKey(app) := app])
  }

  /** The removal of the account's refresh tokens of this client and of its family, and of the account's
      other credentials whatever the client. */
  ghost function AfterRemove(c: Cache, account: Account, clientID: string): Cache {
    Cache(
      Without(c.accessTokens, AccessTokensOf(account)), Without(c.refreshTokens, RefreshTokensOf(account, clientID)),
      Without(c.idTokens, IDTokensOf(account)), Without(c.accounts, AccountsOf(account)), c.appMetaData)
  }

  /** What a read of `c` may answer, and the cache `c'` that it then leaves behind.  Without a user it looks
      for an access token only; with one, each kind of item is scanned for once. */
  ghost predicate MayRead(c: Cache, p: AuthParams, aliases: seq<string>, r: Cached, c': Cache) {
    && Scanned(c.accessTokens, AccessMatcher(p, aliases), r.accessToken, c'.accessTokens)
    && if p.homeAccountID == "" then
      r == Cached(r.accessToken, None, None, None) && c' == c.(accessTokens := c'.accessTokens)
    else
      && Scanned(c.idTokens, IDMatcher(p, aliases), r.idToken, c'.idTokens)
      && Scanned(c.accounts, AccountMatcher(p, aliases), r.account, c'.accounts)
      && exists app :: (Scanned(c.appMetaData, AppMatcher(p, aliases), app, c'.appMetaData)
        && ReadsRefresh(p, aliases, app, c.refreshTokens, r.refreshToken, c'.refreshTokens))
  }

  lemma PutKeeps<V>(m: map<string, V>, v: V, key: V -> string)
    requires !HasUpper(key(v))
    ensures Kept(m, m[key(v) := v], key)
  {
    LowerFixed(key(v));
  }

  lemma WriteKeeps(c: Cache, p: AuthParams, t: TokenResponse, now: int)
    ensures c.Valid() ==> AfterWrite(c, p, t, now).Valid()
    ensures c.AllMigrated() ==> AfterWrite(c, p, t, now).AllMigrated()
  {
    hide KeyedBy, Migrated, HasUpper, ToLower, Join;
    hide AccessKeyParts, RefreshKeyParts, IDTokenKeyParts, AccountKeyParts, AppKeyParts;
    hide NewAccessToken, NewRefreshToken, NewIDToken, NewAccount, Usable;
    var at, rt, app := NewAccessToken(p, t, now), NewRefreshToken(p, t), AppMetaData(t.familyID, p.clientID, p.host);
    LowerFixed(Join(AccessKeyParts(at), KEY_SEPARATOR));
    LowerFixed(Join(RefreshKeyParts(rt), KEY_SEPARATOR));
    LowerFixed(Join(AppKeyParts(app), KEY_SEPARATOR));
    PutKeeps(c.accessTokens, at, AccessKey);
    PutKeeps(c.refreshTokens, rt, RefreshKey);
    PutKeeps(c.appMetaData, app, AppKey);
    if t.idToken.Jwt? {
      var id, acc := NewIDToken(p, t), NewAccount(p, t);
      LowerFixed(Join(IDTokenKeyParts(id), KEY_SEPARATOR));
      LowerFixed(Join(AccountKeyParts(acc), KEY_SEPARATOR));
      PutKeeps(c.idTokens, id, IDTokenKey);
      PutKeeps(c.accounts, acc, AccountKey);
    }
  }

  lemma RemoveKeeps(c: Cache, account: Account, clientID: string)
    ensures c.Valid() ==> AfterRemove(c, account, clientID).Valid()
    ensures c.AllMigrated() ==> AfterRemove(c, account, clientID).AllMigrated()
  {
    hide KeyedBy, Migrated, Without;
    WithoutKeeps(c.accessTokens, AccessTokensOf(account), AccessKey);
    WithoutKeeps(c.refreshTokens, RefreshTokensOf(account, clientID), RefreshKey);
    WithoutKeeps(c.idTokens, IDTokensOf(account), IDTokenKey);
    WithoutKeeps(c.accounts, AccountsOf(account), AccountKey);
  }

  /** Reads keep the keys in order, and where no old keys are left they change nothing. */
  lemma ReadKeeps(c: Cache, p: AuthParams, aliases: seq<string>, r: Cached, c': Cache)
    requires MayRead(c, p, aliases, r, c')
    ensures c.Valid() ==> c'.Valid()
    ensures c.AllMigrated() ==> c' == c
  {
    hide Scanned, Migrated, KeyedBy, AccessMatcher, IDMatcher, AccountMatcher, AppMatcher, FamilyMatcher, ClientMatcher;
    ScanKeeps(c.accessTokens, AccessMatcher(p, aliases), r.accessToken, c'.accessTokens, AccessKey);
    if p.homeAccountID != "" {
      ScanKeeps(c.idTokens, IDMatcher(p, aliases), r.idToken, c'.idTokens, IDTokenKey);
      ScanKeeps(c.accounts, AccountMatcher(p, aliases), r.account, c'.accounts, AccountKey);
      var app :| Scanned(c.appMetaData, AppMatcher(p, aliases), app, c'.appMetaData)
        && ReadsRefresh(p, aliases, app, c.refreshTokens, r.refreshToken, c'.refreshTokens);
      ScanKeeps(c.appMetaData, AppMatcher(p, aliases), app, c'.appMetaData, AppKey);
      if Scanned(c.refreshTokens, ClientMatcher(p, aliases), r.refreshToken, c'.refreshTokens) {
        ScanKeeps(c.refreshTokens, ClientMatcher(p, aliases), r.refreshToken, c'.refreshTokens, RefreshKey);
      }
      if Scanned(c.refreshTokens, FamilyMatcher(p, aliases), r.refreshToken, c'.refreshTokens) {
        ScanKeeps(c.refreshTokens, FamilyMatcher(p, aliases), r.refreshToken, c'.refreshTokens, RefreshKey);
      }
    }
  }

  class Manager {
    var accessTokens: map<string, AccessToken>
    var refreshTokens: map<string, RefreshToken>
    var idTokens: map<string, IDToken>
    var accounts: map<string, Account>
    var appMetaData: map<string, AppMetaData>

    constructor ()
      ensures Contents() == EMPTY
    {
      accessTokens, refreshTokens, idTokens, accounts, appMetaData := map[], map[], map[], map[], map[];
    }

    function Contents(): Cache
      reads this
    {
      Cache(accessTokens, refreshTokens, idTokens, accounts, appMetaData)
    }

    method Write(p: AuthParams, t: TokenResponse, now: int) returns (account: Option<Account>)
      modifies this
      ensures Contents() == AfterWrite(old(Contents()), p, t, now)
      ensures account == if t.idToken.NoIDToken? then None else Some(NewAccount(p, t))
    {
      hide AccessKey, RefreshKey, IDTokenKey, AccountKey, AppKey;
      hide NewAccessToken, NewRefreshToken, NewIDToken, NewAccount, Usable;
      account := None;
      if t.refreshToken != "" { WriteRefreshToken(NewRefreshToken(p, t)); }
      if t.accessToken != "" {
        var at := NewAccessToken(p, t, now);
        if Usable(at, now) { WriteAccessToken(at); }
      }
      if t.idToken.Jwt? {
        WriteIDToken(NewIDToken(p, t));
        account := Some(NewAccount(p, t));
        WriteAccount(account.value);
      }
      WriteAppMetaData(AppMetaData(t.familyID, p.clientID, p.host));
    }

    method WriteRefreshToken(rt: RefreshToken)
      modifies this`refreshTokens
      ensures refreshTokens == old(refreshTokens)[RefreshKey(rt) := rt]
    {
      refreshTokens := refreshTokens[RefreshKey(rt) := rt];
    }

    method WriteAccessToken(at: AccessToken)
      modifies this`accessTokens
      ensures accessTokens == old(accessTokens)[AccessKey(at) := at]
    {
      accessTokens := accessTokens[AccessKey(at) := at];
    }

    method WriteIDToken(id: IDToken)
      modifies this`idTokens
      ensures idTokens == old(idTokens)[IDTokenKey(id) := id]
    {
      idTokens := idTokens[IDTokenKey(id) := id];
    }

    method WriteAccount(acc: Account)
      modifies this`accounts
      ensures accounts == old(accounts)[AccountKey(acc) := acc]
    {
      accounts := accounts[AccountKey(acc) := acc];
    }

    method WriteAppMetaData(app: AppMetaData)
      modifies this`appMetaData
      ensures appMetaData == old(appMetaData)[AppKey(app) := app]
    {
      appMetaData := appMetaData[AppKey(app) := app];
    }

    /** Looks everything up for one request.  `aliases` are the hosts that stand for the same authority. */
    method Read(p: AuthParams, aliases: seq<string>) returns (c: Cached)
      modifies this
      ensures MayRead(old(Contents()), p, aliases, c, Contents())
    {
      hide Scanned, FoundRefresh, AccessMatcher, IDMatcher, AccountMatcher, AppMatcher;
      c := Cached(None, None, None, None);
      var at := ReadAccessToken(p, aliases);
      c := c.(accessToken := at);
      if p.homeAccountID == "" { return; }
      var id := ReadIDToken(p, aliases);
      c := c.(idToken := id);
      var app := ReadAppMetaData(p, aliases);
      if app.Some? {
        var rt := ReadRefreshToken(p, aliases, app.value.familyID);
        c := c.(refreshToken := rt);
      }
      var acc := ReadAccount(p, aliases);
      c := c.(account := acc);
    }

    method ReadAccessToken(p: AuthParams, aliases: seq<string>) returns (r: Option<AccessToken>)
      modifies this`accessTokens
      ensures Scanned(old(accessTokens), AccessMatcher(p, aliases), r, accessTokens)
    {
      ghost var hit;
      r, accessTokens, hit := Upgrade.FindFirst(accessTokens, AccessMatcher(p, aliases));
    }

    method ReadIDToken(p: AuthParams, aliases: seq<string>) returns (r: Option<IDToken>)
      modifies this`idTokens
      ensures Scanned(old(idTokens), IDMatcher(p, aliases), r, idTokens)
    {
      ghost var hit;
      r, idTokens, hit := Upgrade.FindFirst(idTokens, IDMatcher(p, aliases));
    }

    method ReadAccount(p: AuthParams, aliases: seq<string>) returns (r: Option<Account>)
      modifies this`accounts
      ensures Scanned(old(accounts), AccountMatcher(p, aliases), r, accounts)
    {
      ghost var hit;
      r, accounts, hit := Upgrade.FindFirst(accounts, AccountMatcher(p, aliases));
    }

    method ReadAppMetaData(p: AuthParams, aliases: seq<string>) returns (r: Option<AppMetaData>)
      modifies this`appMetaData
      ensures Scanned(old(appMetaData), AppMatcher(p, aliases), r, appMetaData)
    {
      ghost var hit;
      r, appMetaData, hit := Upgrade.FindFirst(appMetaData, AppMatcher(p, aliases));
    }

    /** Outside a family the client's own token is preferred, inside it any family token. */
    method ReadRefreshToken(p: AuthParams, aliases: seq<string>, familyID: string) returns (r: Option<RefreshToken>)
      modifies this`refreshTokens
      ensures FoundRefresh(p, aliases, familyID, old(refreshTokens), r, refreshTokens)
    {
      var m := refreshTokens;
      var byClient, byFamily := ClientMatcher(p, aliases), FamilyMatcher(p, aliases);
      ghost var hit;
      r, refreshTokens, hit := Upgrade.FindFirst(m, if familyID == "" then byClient else byFamily);
      if r.None? {
        r, refreshTokens, hit := Upgrade.FindFirst(m, if familyID == "" then byFamily else byClient);
      }
    }

    method RemoveAccount(account: Account, clientID: string)
      modifies this
      ensures Contents() == AfterRemove(old(Contents()), account, clientID)
    {
      refreshTokens := DeleteAll(refreshTokens, RefreshTokensOf(account, clientID));
      accessTokens := DeleteAll(accessTokens, AccessTokensOf(account));
      idTokens := DeleteAll(idTokens, IDTokensOf(account));
      accounts := DeleteAll(accounts, AccountsOf(account));
    }
  }
}
