/** What the flat cache's answers say, field by field: everything in them comes from a response that was
    written, and is for the user and the client that ask. */
module CacheFields {
  import opened Wrappers
  import opened Strings
  import opened Items
  import opened Storage
  import opened StorageUse
  import Scopes

  // ----- what a response says -----

  /** The user that the response is for. */
  function UserOf(t: TokenResponse): string {
    if t.uid == "" then t.subject else if t.utid == "" then t.uid + "." + t.uid else t.uid + "." + t.utid
  }

  /** Five minutes before it expires the token may no longer be used. */
  predicate InTime(t: TokenResponse, now: int) { now != ZERO_TIME && now + 300 <= t.expiresOn }

  /** `at` is the access token of `t`, which came in at `now` for `w`. */
  predicate AccessTokenOf(at: AccessToken, w: AuthParams, t: TokenResponse, now: int) {
    && at.secret == t.accessToken && at.homeAccountID == UserOf(t) && at.environment == w.host
    && at.realm == w.tenant && at.clientID == w.clientID && at.credentialType == "AccessToken"
    && at.scopes == Join(t.grantedScopes, [' ']) && at.tokenType == t.tokenType
    && at.authnSchemeKeyID == w.authnSchemeKeyID && at.extCacheKey == w.extCacheKey
    && at.refreshOn == t.refreshOn && at.expiresOn == t.expiresOn && at.extendedExpiresOn == t.extExpiresOn
    && at.cachedAt == now
  }

  predicate RefreshTokenOf(rt: RefreshToken, w: AuthParams, t: TokenResponse) {
    && rt.secret == t.refreshToken && rt.familyID == t.familyID && rt.homeAccountID == UserOf(t)
    && rt.environment == w.host && rt.clientID == w.clientID && rt.credentialType == "RefreshToken"
  }

  predicate IDTokenOf(id: IDToken, w: AuthParams, t: TokenResponse) {
    && t.idToken.Jwt? && id.secret == t.idToken.raw && id.homeAccountID == UserOf(t)
    && id.environment == w.host && id.realm == w.tenant && id.clientID == w.clientID && id.credentialType == "IdToken"
  }

  predicate AccountOf(acc: Account, w: AuthParams, t: TokenResponse) {
    && t.idToken.Jwt? && acc.homeAccountID == UserOf(t) && acc.environment == w.host && acc.realm == w.tenant
    && acc.localAccountID == t.idToken.localAccountID && acc.authorityType == t.idToken.authorityType
    && (t.idToken.preferredUsername != "" ==> acc.preferredUsername == t.idToken.preferredUsername)
    && (t.idToken.preferredUsername == "" ==> acc.preferredUsername == t.idToken.upn)
  }

  // ----- what a request asks for -----

  /** The token type asked for, with its key; a token without a type counts as a bearer token. */
  predicate OfType(tokenType: string, keyID: string, q: AuthParams) {
    || (EqualFold(tokenType, q.accessTokenType) && keyID == q.authnSchemeKeyID)
    || (tokenType == "" && q.accessTokenType in {"", "Bearer"})
  }

  /** All but the scopes and the extra cache key. */
  predicate TokenFor(at: AccessToken, q: AuthParams, aliases: seq<string>) {
    && at.homeAccountID == q.homeAccountID && at.realm == q.tenant && at.clientID == q.clientID
    && at.environment in aliases && OfType(at.tokenType, at.authnSchemeKeyID, q)
  }

  predicate IDTokenFor(id: IDToken, q: AuthParams, aliases: seq<string>) {
    && id.homeAccountID == q.homeAccountID && id.realm == q.tenant && id.clientID == q.clientID
    && id.environment in aliases
  }

  predicate AccountFor(acc: Account, q: AuthParams, aliases: seq<string>) {
    acc.homeAccountID == q.homeAccountID && acc.realm == q.tenant && acc.environment in aliases
  }

  /** Of the user, and of this client or a family. */
  predicate RefreshTokenFor(rt: RefreshToken, q: AuthParams, aliases: seq<string>) {
    && rt.homeAccountID == q.homeAccountID && rt.environment in aliases
    && (rt.clientID == q.clientID || rt.familyID != "")
  }

  /** All that is found in a cache without old keys is for the request, field by field; and of each kind
      something is found exactly if there is something for the request. */
  lemma ReadsExactly(c: Cache, q: AuthParams, aliases: seq<string>, r: Cached, c': Cache)
    requires c.AllMigrated() && MayRead(c, q, aliases, r, c')
    ensures r.accessToken.Some? <==>
      exists k | k in c.accessTokens :: FoundUnder(c.accessTokens[k], k, q, aliases)
    ensures r.accessToken.Some? ==>
      exists k | k in c.accessTokens ::
        c.accessTokens[k] == r.accessToken.value && FoundUnder(c.accessTokens[k], k, q, aliases)
    ensures q.homeAccountID == "" ==> r.idToken.None? && r.account.None? && r.refreshToken.None?
    ensures r.idToken.Some? ==> IDTokenFor(r.idToken.value, q, aliases)
    ensures q.homeAccountID != "" ==>
      (r.idToken.Some? <==> exists k | k in c.idTokens :: IDTokenFor(c.idTokens[k], q, aliases))
    ensures r.account.Some? ==> AccountFor(r.account.value, q, aliases)
    ensures q.homeAccountID != "" ==>
      (r.account.Some? <==> exists k | k in c.accounts :: AccountFor(c.accounts[k], q, aliases))
  {
  }

  /** The token answers the request from under `k`. */
  predicate FoundUnder(at: AccessToken, k: string, q: AuthParams, aliases: seq<string>) {
    && TokenFor(at, q, aliases) && Scopes.Matching(q.scopes, Split(at.scopes, ' '))
    && (if q.extCacheKey == "" then at.extCacheKey == "" else Contains(k, q.extCacheKey))
  }

  /** The cache knows the client, and of all that it knows each says that it is in a family, or each that not. */
  predicate Known(c: Cache, q: AuthParams, aliases: seq<string>) {
    exists k | k in c.appMetaData :: c.appMetaData[k].environment in aliases && c.appMetaData[k].clientID == q.clientID
  }

  predicate InFamily(c: Cache, q: AuthParams, aliases: seq<string>, yes: bool) {
    forall k | k in c.appMetaData ::
      c.appMetaData[k].environment in aliases && c.appMetaData[k].clientID == q.clientID ==>
        (c.appMetaData[k].familyID != "" <==> yes)
  }

  /** A refresh token is found exactly if the client is known and there is one for it.  A client in a family
      prefers a token of a family, and one outside all families its own. */
  lemma RefreshExactly(c: Cache, q: AuthParams, aliases: seq<string>, r: Cached, c': Cache)
    requires c.AllMigrated() && MayRead(c, q, aliases, r, c') && q.homeAccountID != ""
    ensures r.refreshToken.Some? <==>
      Known(c, q, aliases) && exists k | k in c.refreshTokens :: RefreshTokenFor(c.refreshTokens[k], q, aliases)
    ensures r.refreshToken.Some? ==>
      && RefreshTokenFor(r.refreshToken.value, q, aliases)
      && exists k | k in c.refreshTokens :: c.refreshTokens[k] == r.refreshToken.value
    ensures r.refreshToken.Some? && InFamily(c, q, aliases, false)
            && (exists k | k in c.refreshTokens ::
                  RefreshTokenFor(c.refreshTokens[k], q, aliases) && c.refreshTokens[k].clientID == q.clientID) ==>
              r.refreshToken.value.clientID == q.clientID
    ensures r.refreshToken.Some? && InFamily(c, q, aliases, true)
            && (exists k | k in c.refreshTokens ::
                  RefreshTokenFor(c.refreshTokens[k], q, aliases) && c.refreshTokens[k].familyID != "") ==>
              r.refreshToken.value.familyID != ""
  {
    var app :| Scanned(c.appMetaData, AppMatcher(q, aliases), app, c'.appMetaData)
      && ReadsRefresh(q, aliases, app, c.refreshTokens, r.refreshToken, c'.refreshTokens);
    hide MayRead, Scanned;
    KnownApp(c, q, aliases, app, c'.appMetaData);
    if app.Some? {
      hide FoundRefresh, Known, InFamily, RefreshTokenFor;
      FoundForApp(c, q, aliases, app.value.familyID, r.refreshToken, c'.refreshTokens);
    }
  }

  /** What is found of the client is one of the entries that the cache has for it. */
  lemma KnownApp(c: Cache, q: AuthParams, aliases: seq<string>, app: Option<AppMetaData>,
    left: map<string, AppMetaData>)
    requires c.AllMigrated() && Scanned(c.appMetaData, AppMatcher(q, aliases), app, left)
    ensures app.Some? <==> Known(c, q, aliases)
    ensures app.Some? && InFamily(c, q, aliases, false) ==> app.value.familyID == ""
    ensures app.Some? && InFamily(c, q, aliases, true) ==> app.value.familyID != ""
  {
  }

  lemma FoundForApp(c: Cache, q: AuthParams, aliases: seq<string>, familyID: string, r: Option<RefreshToken>,
    left: map<string, RefreshToken>)
    requires c.AllMigrated() && FoundRefresh(q, aliases, familyID, c.refreshTokens, r, left)
    ensures r.Some? <==> exists k | k in c.refreshTokens :: RefreshTokenFor(c.refreshTokens[k], q, aliases)
    ensures r.Some? ==>
      && RefreshTokenFor(r.value, q, aliases) && exists k | k in c.refreshTokens :: c.refreshTokens[k] == r.value
    ensures r.Some? && familyID == ""
            && (exists k | k in c.refreshTokens ::
                  RefreshTokenFor(c.refreshTokens[k], q, aliases) && c.refreshTokens[k].clientID == q.clientID) ==>
              r.value.clientID == q.clientID
    ensures r.Some? && familyID != ""
            && (exists k | k in c.refreshTokens ::
                  RefreshTokenFor(c.refreshTokens[k], q, aliases) && c.refreshTokens[k].familyID != "") ==>
              r.value.familyID != ""
  {
    var m := c.refreshTokens;
    var byClient, byFamily := ClientMatcher(q, aliases), FamilyMatcher(q, aliases);
    assert forall k | k in m :: RefreshTokenFor(m[k], q, aliases) <==> byClient(k, m[k]) || byFamily(k, m[k]);
  }

  // ----- removal -----

  /** Of the account in that environment. */
  predicate BelongsTo(home: string, environment: string, account: Account) {
    home == account.homeAccountID && environment == account.environment
  }

  /** Which entries a removal takes, kind by kind: all of the account, but of its refresh tokens only those of
      the client and those of a family.  The others stay as they are. */
  lemma RemovedExactly(c: Cache, account: Account, clientID: string, k: string)
    ensures var c' := AfterRemove(c, account, clientID);
      && (k in c'.accessTokens <==>
            k in c.accessTokens && !BelongsTo(c.accessTokens[k].homeAccountID, c.accessTokens[k].environment, account))
      && (k in c'.idTokens <==>
            k in c.idTokens && !BelongsTo(c.idTokens[k].homeAccountID, c.idTokens[k].environment, account))
      && (k in c'.accounts <==>
            k in c.accounts && !BelongsTo(c.accounts[k].homeAccountID, c.accounts[k].environment, account))
      && (k in c'.refreshTokens <==>
            && k in c.refreshTokens
            && !(BelongsTo(c.refreshTokens[k].homeAccountID, c.refreshTokens[k].environment, account)
                 && (c.refreshTokens[k].clientID == clientID || c.refreshTokens[k].familyID != "")))
      && c'.appMetaData == c.appMetaData
      && (k in c'.accessTokens ==> c'.accessTokens[k] == c.accessTokens[k])
      && (k in c'.idTokens ==> c'.idTokens[k] == c.idTokens[k])
      && (k in c'.accounts ==> c'.accounts[k] == c.accounts[k])
      && (k in c'.refreshTokens ==> c'.refreshTokens[k] == c.refreshTokens[k])
  {
  }

  // ----- whole runs -----

  /** One of the first `n` operations wrote it. */
  ghost predicate AccessFrom(ops: seq<Op>, n: nat, at: AccessToken) {
    exists i: nat | i < n && i < |ops| && ops[i].WriteOp? ::
      ops[i].t.accessToken != "" && AccessTokenOf(at, ops[i].p, ops[i].t, ops[i].now) && InTime(ops[i].t, ops[i].now)
  }

  ghost predicate RefreshFrom(ops: seq<Op>, n: nat, rt: RefreshToken) {
    exists i: nat | i < n && i < |ops| && ops[i].WriteOp? ::
      ops[i].t.refreshToken != "" && RefreshTokenOf(rt, ops[i].p, ops[i].t)
  }

  ghost predicate IDTokenFrom(ops: seq<Op>, n: nat, id: IDToken) {
    exists i: nat | i < n && i < |ops| && ops[i].WriteOp? :: IDTokenOf(id, ops[i].p, ops[i].t)
  }

  ghost predicate AccountFrom(ops: seq<Op>, n: nat, acc: Account) {
    exists i: nat | i < n && i < |ops| && ops[i].WriteOp? :: AccountOf(acc, ops[i].p, ops[i].t)
  }

  ghost predicate AllFrom(ops: seq<Op>, n: nat, c: Cache) {
    && (forall k | k in c.accessTokens :: AccessFrom(ops, n, c.accessTokens[k]))
    && (forall k | k in c.refreshTokens :: RefreshFrom(ops, n, c.refreshTokens[k]))
    && (forall k | k in c.idTokens :: IDTokenFrom(ops, n, c.idTokens[k]))
    && (forall k | k in c.accounts :: AccountFrom(ops, n, c.accounts[k]))
  }

  lemma {:induction false} RunFrom(ops: seq<Op>, n: nat)
    requires n <= |ops|
    ensures AllFrom(ops, n, After(EMPTY, ops, n))
  {
    if n > 0 {
      RunFrom(ops, n - 1);
      FromGrows(ops, n - 1, After(EMPTY, ops, n - 1));
      match ops[n - 1] {
        case WriteOp(p, t, now) =>
          hide After, AllFrom;
          WriteFrom(ops, n - 1, After(EMPTY, ops, n - 1));
          assert After(EMPTY, ops, n) == AfterWrite(After(EMPTY, ops, n - 1), p, t, now) by { AfterWriteOp(ops, n); }
        case ReadOp(_, _) =>
        case RemoveOp(_, _) => hide AccessFrom, RefreshFrom, IDTokenFrom, AccountFrom;
      }
    }
  }

  lemma AfterWriteOp(ops: seq<Op>, n: nat)
    requires 0 < n <= |ops| && ops[n - 1].WriteOp?
    ensures After(EMPTY, ops, n)
      == AfterWrite(After(EMPTY, ops, n - 1), ops[n - 1].p, ops[n - 1].t, ops[n - 1].now)
  {
    hide AfterWrite;
  }

  lemma FromGrows(ops: seq<Op>, n: nat, c: Cache)
    requires AllFrom(ops, n, c)
    ensures AllFrom(ops, n + 1, c)
  {
    hide AccessTokenOf, RefreshTokenOf, IDTokenOf, AccountOf, InTime;
  }

  lemma WriteFrom(ops: seq<Op>, n: nat, c: Cache)
    requires n < |ops| && ops[n].WriteOp? && AllFrom(ops, n + 1, c)
    ensures AllFrom(ops, n + 1, AfterWrite(c, ops[n].p, ops[n].t, ops[n].now))
  {
    hide AccessFrom, RefreshFrom, IDTokenFrom, AccountFrom, NewAccessToken, NewRefreshToken, NewIDToken, NewAccount;
    hide Usable, AccessKey, RefreshKey, IDTokenKey, AccountKey, AppKey;
    NewFrom(ops, n);
  }

  lemma NewFrom(ops: seq<Op>, n: nat)
    requires n < |ops| && ops[n].WriteOp?
    ensures var p, t, now := ops[n].p, ops[n].t, ops[n].now;
      && (t.accessToken != "" && Usable(NewAccessToken(p, t, now), now) ==>
            AccessFrom(ops, n + 1, NewAccessToken(p, t, now)))
      && (t.refreshToken != "" ==> RefreshFrom(ops, n + 1, NewRefreshToken(p, t)))
      && (t.idToken.Jwt? ==> IDTokenFrom(ops, n + 1, NewIDToken(p, t)) && AccountFrom(ops, n + 1, NewAccount(p, t)))
  {
    WriteSays(ops[n].p, ops[n].t, ops[n].now);
    hide AccessTokenOf, RefreshTokenOf, IDTokenOf, AccountOf, InTime;
    hide NewAccessToken, NewRefreshToken, NewIDToken, NewAccount, Usable;
  }

  /** What a write stores says what the response said. */
  lemma WriteSays(p: AuthParams, t: TokenResponse, now: int)
    ensures AccessTokenOf(NewAccessToken(p, t, now), p, t, now)
    ensures Usable(NewAccessToken(p, t, now), now) <==> InTime(t, now)
    ensures RefreshTokenOf(NewRefreshToken(p, t), p, t)
    ensures t.idToken.Jwt? ==> IDTokenOf(NewIDToken(p, t), p, t) && AccountOf(NewAccount(p, t), p, t)
  {
    assert t.HomeAccountID() == UserOf(t);
  }

  /** The scopes asked for are among those granted, unless these cannot be told apart. */
  ghost predicate ScopesFit(q: AuthParams, t: TokenResponse) {
    t.grantedScopes != [] && Apart(t.grantedScopes) ==> Scopes.Included(q.scopes, t.grantedScopes)
  }

  lemma ScopesAre(q: AuthParams, t: TokenResponse)
    requires Scopes.Matching(q.scopes, Split(Join(t.grantedScopes, [' ']), ' '))
    ensures ScopesFit(q, t)
  {
    if t.grantedScopes != [] && Apart(t.grantedScopes) {
      SplitJoin(t.grantedScopes, ' ');
      Scopes.CountingIsInclusion(q.scopes, t.grantedScopes);
    }
  }

  /** Operation `n` brought the access token in, and it is what `q` asks for. */
  ghost predicate AccessServed(ops: seq<Op>, n: nat, q: AuthParams, aliases: seq<string>, at: AccessToken)
    requires n < |ops| && ops[n].WriteOp?
  {
    var p, t, now := ops[n].p, ops[n].t, ops[n].now;
    && t.accessToken != "" && InTime(t, now) && AccessTokenOf(at, p, t, now)
    && TokenFor(at, q, aliases) && ScopesFit(q, t)
    && (if q.extCacheKey == "" then p.extCacheKey == "" else Contains(AccessKey(at), q.extCacheKey))
  }

  /** In any run from the empty cache: every item in an answer says just what some response before it said, and
      is for the user, the tenant, the client and the scopes of the request. */
  lemma FoundInRun(trace: seq<Cache>, ops: seq<Op>, answers: seq<Option<Cached>>, i: nat)
    requires IsRun(trace, ops, answers) && trace[0] == EMPTY && i < |ops| && ops[i].ReadOp? && answers[i].Some?
    ensures var r, q, aliases := answers[i].value, ops[i].q, ops[i].aliases;
      && (r.accessToken.Some? ==> exists n: nat | n < i && ops[n].WriteOp? ::
            AccessServed(ops, n, q, aliases, r.accessToken.value))
      && (r.refreshToken.Some? ==>
            RefreshTokenFor(r.refreshToken.value, q, aliases) && RefreshFrom(ops, i, r.refreshToken.value))
      && (r.idToken.Some? ==> IDTokenFor(r.idToken.value, q, aliases) && IDTokenFrom(ops, i, r.idToken.value))
      && (r.account.Some? ==> AccountFor(r.account.value, q, aliases) && AccountFrom(ops, i, r.account.value))
  {
    var c, r, q, aliases := After(EMPTY, ops, i), answers[i].value, ops[i].q, ops[i].aliases;
    ReadInRun(trace, ops, answers, i);
    assert EMPTY.AllMigrated();
    RunKeeps(trace, ops, answers, i);
    assert EMPTY.Valid();
    RunFrom(ops, i);
    hide After, IsRun, Cache.AllMigrated, Cache.Valid;
    ItemsFound(ops, i, c, q, aliases, r);
  }

  lemma ItemsFound(ops: seq<Op>, i: nat, c: Cache, q: AuthParams, aliases: seq<string>, r: Cached)
    requires c.Valid() && c.AllMigrated() && MayRead(c, q, aliases, r, c) && AllFrom(ops, i, c) && i <= |ops|
    ensures r.accessToken.Some? ==>
      exists n: nat | n < i && ops[n].WriteOp? :: AccessServed(ops, n, q, aliases, r.accessToken.value)
    ensures r.refreshToken.Some? ==>
      RefreshTokenFor(r.refreshToken.value, q, aliases) && RefreshFrom(ops, i, r.refreshToken.value)
    ensures r.idToken.Some? ==> IDTokenFor(r.idToken.value, q, aliases) && IDTokenFrom(ops, i, r.idToken.value)
    ensures r.account.Some? ==> AccountFor(r.account.value, q, aliases) && AccountFrom(ops, i, r.account.value)
  {
    hide AccessFrom, RefreshFrom, IDTokenFrom, AccountFrom, AccessServed, FoundUnder;
    hide RefreshTokenFor, IDTokenFor, AccountFor, Cache.AllMigrated, Cache.Valid;
    ReadsExactly(c, q, aliases, r, c);
    InCache(c, q, aliases, r);
    if r.accessToken.Some? {
      var k :| k in c.accessTokens && c.accessTokens[k] == r.accessToken.value
        && FoundUnder(c.accessTokens[k], k, q, aliases);
      TokenServed(ops, i, c, k, q, aliases);
    }
    if q.homeAccountID != "" {
      RefreshExactly(c, q, aliases, r, c);
    }
  }

  /** Without old keys, what is found is in the cache. */
  lemma InCache(c: Cache, q: AuthParams, aliases: seq<string>, r: Cached)
    requires c.AllMigrated() && MayRead(c, q, aliases, r, c)
    ensures r.idToken.Some? ==> exists k | k in c.idTokens :: c.idTokens[k] == r.idToken.value
    ensures r.account.Some? ==> exists k | k in c.accounts :: c.accounts[k] == r.account.value
  {
  }

  lemma TokenServed(ops: seq<Op>, i: nat, c: Cache, k: string, q: AuthParams, aliases: seq<string>)
    requires c.Valid() && c.AllMigrated() && AllFrom(ops, i, c) && i <= |ops|
    requires k in c.accessTokens && FoundUnder(c.accessTokens[k], k, q, aliases)
    ensures exists n: nat | n < i && ops[n].WriteOp? :: AccessServed(ops, n, q, aliases, c.accessTokens[k])
  {
    var at := c.accessTokens[k];
    LowerFixed(k);
    assert k == AccessKey(at) && AccessFrom(ops, i, at);
    hide AllFrom, Cache.Valid, Cache.AllMigrated, AccessKey, TokenFor;
    var n: nat :| n < i && ops[n].WriteOp? && ops[n].t.accessToken != ""
      && AccessTokenOf(at, ops[n].p, ops[n].t, ops[n].now) && InTime(ops[n].t, ops[n].now);
    ScopesAre(q, ops[n].t);
    hide ScopesFit, InTime;
    assert AccessServed(ops, n, q, aliases, at);
  }

  // ----- a write, and then a read -----

  /** The request of the user that `t` came in for, with the same client, tenant, token type and extra cache
      key, for scopes that were granted and can be told apart. */
  ghost predicate SameRequest(w: AuthParams, t: TokenResponse, q: AuthParams, aliases: seq<string>) {
    && q.homeAccountID == UserOf(t) && q.tenant == w.tenant && q.clientID == w.clientID && w.host in aliases
    && EqualFold(t.tokenType, q.accessTokenType) && q.authnSchemeKeyID == w.authnSchemeKeyID
    && q.extCacheKey == w.extCacheKey && !HasUpper(q.extCacheKey)
    && Apart(t.grantedScopes) && Scopes.Included(q.scopes, t.grantedScopes)
  }

  lemma SameAnswers(w: AuthParams, t: TokenResponse, q: AuthParams, aliases: seq<string>)
    requires SameRequest(w, t, q, aliases)
    ensures Answers(w, t, q, aliases)
  {
    SplitGranted(q.scopes, t.grantedScopes);
    assert t.HomeAccountID() == UserOf(t);
  }

  /** On a new cache: of each kind the request is answered exactly if the response brought something in time,
      and then with just that. */
  lemma WrittenThenRead(w: AuthParams, t: TokenResponse, now: int, q: AuthParams, aliases: seq<string>, r: Cached,
    c': Cache)
    requires MayRead(AfterWrite(EMPTY, w, t, now), q, aliases, r, c') && SameRequest(w, t, q, aliases)
    ensures r.accessToken.Some? <==> t.accessToken != "" && InTime(t, now)
    ensures r.accessToken.Some? ==> AccessTokenOf(r.accessToken.value, w, t, now)
    ensures UserOf(t) != "" ==>
      && (r.refreshToken.Some? <==> t.refreshToken != "") && (r.idToken.Some? <==> t.idToken.Jwt?)
      && (r.account.Some? <==> t.idToken.Jwt?)
    ensures r.refreshToken.Some? ==> RefreshTokenOf(r.refreshToken.value, w, t)
    ensures r.idToken.Some? ==> IDTokenOf(r.idToken.value, w, t)
    ensures r.account.Some? ==> AccountOf(r.account.value, w, t)
  {
    hide AccessTokenOf, RefreshTokenOf, IDTokenOf, AccountOf, AfterWrite, MayRead, InTime, Cache.AllMigrated;
    hide FoundUnder, RefreshTokenFor, IDTokenFor, AccountFor, Known, InFamily;
    var c := AfterWrite(EMPTY, w, t, now);
    OnlyThese(w, t, now);
    WrittenFor(w, t, now, q, aliases);
    StartsMigrated(w, t, now);
    ReadsExactly(c, q, aliases, r, c');
    ReadKeeps(c, q, aliases, r, c');
    InCache(c, q, aliases, r);
    if t.accessToken != "" && InTime(t, now) {
      TokenFound(w, t, now, q, aliases, r, c');
    }
    if UserOf(t) != "" {
      RefreshExactly(c, q, aliases, r, c');
    }
  }

  lemma StartsMigrated(w: AuthParams, t: TokenResponse, now: int)
    ensures AfterWrite(EMPTY, w, t, now).AllMigrated()
  {
    hide AfterWrite;
    WriteKeeps(EMPTY, w, t, now);
  }

  /** A new cache holds no more than what was written. */
  lemma OnlyThese(w: AuthParams, t: TokenResponse, now: int)
    ensures var c := AfterWrite(EMPTY, w, t, now);
      && (forall k | k in c.accessTokens ::
            t.accessToken != "" && InTime(t, now) && AccessTokenOf(c.accessTokens[k], w, t, now))
      && (forall k | k in c.refreshTokens :: t.refreshToken != "" && RefreshTokenOf(c.refreshTokens[k], w, t))
      && (forall k | k in c.idTokens :: t.idToken.Jwt? && IDTokenOf(c.idTokens[k], w, t))
      && (forall k | k in c.accounts :: t.idToken.Jwt? && AccountOf(c.accounts[k], w, t))
  {
    WriteSays(w, t, now);
    hide AccessTokenOf, RefreshTokenOf, IDTokenOf, AccountOf, InTime, Usable;
    hide NewAccessToken, NewRefreshToken, NewIDToken, NewAccount;
    hide AccessKey, RefreshKey, IDTokenKey, AccountKey, AppKey;
  }

  /** And what was written is for the request. */
  lemma WrittenFor(w: AuthParams, t: TokenResponse, now: int, q: AuthParams, aliases: seq<string>)
    requires SameRequest(w, t, q, aliases)
    ensures var c := AfterWrite(EMPTY, w, t, now);
      && (t.refreshToken != "" ==> exists k | k in c.refreshTokens :: RefreshTokenFor(c.refreshTokens[k], q, aliases))
      && (t.idToken.Jwt? ==> exists k | k in c.idTokens :: IDTokenFor(c.idTokens[k], q, aliases))
      && (t.idToken.Jwt? ==> exists k | k in c.accounts :: AccountFor(c.accounts[k], q, aliases))
      && Known(c, q, aliases)
  {
    WriteSays(w, t, now);
    var c, app := AfterWrite(EMPTY, w, t, now), AppMetaData(t.familyID, w.clientID, w.host);
    assert t.refreshToken != "" ==> RefreshTokenFor(NewRefreshToken(w, t), q, aliases);
    assert t.idToken.Jwt? ==> IDTokenFor(NewIDToken(w, t), q, aliases) && AccountFor(NewAccount(w, t), q, aliases);
    hide NewAccessToken, NewRefreshToken, NewIDToken, NewAccount, RefreshTokenFor, IDTokenFor, AccountFor, Usable;
    hide AccessKey, RefreshKey, IDTokenKey, AccountKey, AppKey, SameRequest;
    assert t.refreshToken != "" ==> RefreshKey(NewRefreshToken(w, t)) in c.refreshTokens;
    assert t.idToken.Jwt? ==> IDTokenKey(NewIDToken(w, t)) in c.idTokens;
    assert t.idToken.Jwt? ==> AccountKey(NewAccount(w, t)) in c.accounts;
    assert AppKey(app) in c.appMetaData && c.appMetaData[AppKey(app)] == app;
  }

  lemma TokenFound(w: AuthParams, t: TokenResponse, now: int, q: AuthParams, aliases: seq<string>, r: Cached, c': Cache)
    requires MayRead(AfterWrite(EMPTY, w, t, now), q, aliases, r, c') && SameRequest(w, t, q, aliases)
    requires t.accessToken != "" && InTime(t, now)
    ensures r.accessToken.Some?
  {
    SameAnswers(w, t, q, aliases);
    WriteSays(w, t, now);
    hide MayRead, AfterWrite, SameRequest, Answers, NewAccessToken, Usable, InTime, AccessTokenOf, RefreshTokenOf;
    hide IDTokenOf, AccountOf, NewRefreshToken, NewIDToken, NewAccount;
    ReadAfterWrite(EMPTY, w, t, now, q, aliases, r, c');
  }
}
