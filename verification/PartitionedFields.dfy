/** What the partitioned cache's answers say, field by field. */
module PartitionedFields {
  import opened Wrappers
  import opened Strings
  import opened Items
  import opened Storage
  import opened Partitioned
  import opened PartitionedUse
  import C = CacheFields
  import Scopes
  import StorageUse

  // ----- what a request asks for -----

  predicate TokenFor(at: AccessToken, q: Request, aliases: seq<string>) {
    && at.userAssertionHash == q.assertionHash && at.realm == q.params.tenant && at.clientID == q.params.clientID
    && at.environment in aliases && at.tokenType == q.params.accessTokenType
    && at.authnSchemeKeyID == q.params.authnSchemeKeyID && at.extCacheKey == q.params.extCacheKey
  }

  predicate IDTokenFor(id: IDToken, q: Request, aliases: seq<string>, home: string) {
    && id.userAssertionHash == q.assertionHash && id.homeAccountID == home && id.realm == q.params.tenant
    && id.clientID == q.params.clientID && id.environment in aliases
  }

  predicate AccountFor(acc: Account, q: Request, aliases: seq<string>, home: string) {
    && acc.userAssertionHash == q.assertionHash && acc.homeAccountID == home && acc.realm == q.params.tenant
    && acc.environment in aliases
  }

  predicate RefreshTokenFor(rt: RefreshToken, q: Request, aliases: seq<string>) {
    && rt.userAssertionHash == q.assertionHash && rt.environment in aliases
    && (rt.clientID == q.params.clientID || rt.familyID != "")
  }

  predicate Known(c: OboCache, q: Request, aliases: seq<string>) {
    exists k | k in c.appMetaData ::
      c.appMetaData[k].environment in aliases && c.appMetaData[k].clientID == q.params.clientID
  }

  predicate InFamily(c: OboCache, q: Request, aliases: seq<string>, yes: bool) {
    forall k | k in c.appMetaData ::
      c.appMetaData[k].environment in aliases && c.appMetaData[k].clientID == q.params.clientID ==>
        (c.appMetaData[k].familyID != "" <==> yes)
  }

  /** Of each kind something is found exactly if there is something for the request; the ID token is one of
      the access token's user, and the account is the ID token's. */
  lemma ReadsExactly(c: OboCache, q: Request, aliases: seq<string>, r: Cached)
    requires c.MayRead(q, aliases, r)
    ensures r.accessToken.Some? <==> exists at ::
      Stored(c.accessTokens, at) && TokenFor(at, q, aliases) && Scopes.Matching(q.params.scopes, Split(at.scopes, ' '))
    ensures r.accessToken.Some? ==> var at := r.accessToken.value;
      Stored(c.accessTokens, at) && TokenFor(at, q, aliases) && Scopes.Matching(q.params.scopes, Split(at.scopes, ' '))
    ensures r.idToken.Some? <==>
      exists id :: Stored(c.idTokens, id) && IDTokenFor(id, q, aliases, Home(r.accessToken))
    ensures r.idToken.Some? ==>
      Stored(c.idTokens, r.idToken.value) && IDTokenFor(r.idToken.value, q, aliases, Home(r.accessToken))
    ensures r.account.Some? <==>
      exists acc :: Stored(c.accounts, acc) && AccountFor(acc, q, aliases, IDHome(r.idToken))
    ensures r.account.Some? ==>
      Stored(c.accounts, r.account.value) && AccountFor(r.account.value, q, aliases, IDHome(r.idToken))
  {
    hide Stored;
    assert forall at :: AccessMatch(q, aliases)(at) <==>
        TokenFor(at, q, aliases) && Scopes.Matching(q.params.scopes, Split(at.scopes, ' '));
    assert forall id :: IDMatch(q, aliases, Home(r.accessToken))(id) <==>
        IDTokenFor(id, q, aliases, Home(r.accessToken));
    assert forall acc :: AccountMatch(q, aliases, IDHome(r.idToken))(acc) <==>
        AccountFor(acc, q, aliases, IDHome(r.idToken));
  }

  /** A refresh token is found exactly if the client is known and there is one for it.  A client in a family
      prefers a token of a family, and one outside all families its own. */
  lemma RefreshExactly(c: OboCache, q: Request, aliases: seq<string>, r: Cached)
    requires c.MayRead(q, aliases, r)
    ensures r.refreshToken.Some? <==>
      Known(c, q, aliases) && exists rt :: Stored(c.refreshTokens, rt) && RefreshTokenFor(rt, q, aliases)
    ensures r.refreshToken.Some? ==>
      RefreshTokenFor(r.refreshToken.value, q, aliases) && Stored(c.refreshTokens, r.refreshToken.value)
    ensures r.refreshToken.Some? && InFamily(c, q, aliases, false)
            && (exists rt :: Stored(c.refreshTokens, rt) && RefreshTokenFor(rt, q, aliases)
                  && rt.clientID == q.params.clientID) ==>
              r.refreshToken.value.clientID == q.params.clientID
    ensures r.refreshToken.Some? && InFamily(c, q, aliases, true)
            && (exists rt :: Stored(c.refreshTokens, rt) && RefreshTokenFor(rt, q, aliases) && rt.familyID != "") ==>
              r.refreshToken.value.familyID != ""
  {
    hide Stored;
    var app :| AppRead(q.params, aliases, c.appMetaData, app) &&
      if app.None? then r.refreshToken.None?
      else RefreshAnywhere(q, aliases, app.value.familyID, c.refreshTokens, r.refreshToken);
    hide OboCache.MayRead;
    var byClient, byFamily := ClientMatch(q, aliases), FamilyMatch(q, aliases);
    assert forall rt :: RefreshTokenFor(rt, q, aliases) <==> byClient(rt) || byFamily(rt);
  }

  // ----- whole runs -----

  /** Operation `n` was accepted and made on behalf of the assertion of `q`. */
  predicate WroteFor(ops: seq<WriteOp>, n: nat, q: Request) {
    && n < |ops| && ops[n].w.onBehalfOf && ops[n].w.assertionHash == q.assertionHash
  }

  ghost predicate AccessServed(ops: seq<WriteOp>, n: nat, q: Request, aliases: seq<string>, at: AccessToken) {
    && WroteFor(ops, n, q)
    && var w, t, now := ops[n].w, ops[n].t, ops[n].now;
    && t.accessToken != "" && C.InTime(t, now) && C.AccessTokenOf(at, w.params, t, now)
    && TokenFor(at, q, aliases) && C.ScopesFit(q.params, t)
  }

  ghost predicate RefreshServed(ops: seq<WriteOp>, n: nat, q: Request, aliases: seq<string>, rt: RefreshToken) {
    && WroteFor(ops, n, q) && ops[n].t.refreshToken != ""
    && C.RefreshTokenOf(rt, ops[n].w.params, ops[n].t) && RefreshTokenFor(rt, q, aliases)
  }

  /** Nothing of a response is kept but its refresh token if its access token is out of time. */
  predicate Accepted(op: WriteOp) { op.t.accessToken != "" ==> C.InTime(op.t, op.now) }

  ghost predicate IDTokenServed(ops: seq<WriteOp>, n: nat, q: Request, aliases: seq<string>, home: string,
    id: IDToken) {
    && WroteFor(ops, n, q) && Accepted(ops[n])
    && C.IDTokenOf(id, ops[n].w.params, ops[n].t) && IDTokenFor(id, q, aliases, home)
  }

  ghost predicate AccountServed(ops: seq<WriteOp>, n: nat, q: Request, aliases: seq<string>, home: string,
    acc: Account) {
    && WroteFor(ops, n, q) && Accepted(ops[n])
    && C.AccountOf(acc, ops[n].w.params, ops[n].t) && AccountFor(acc, q, aliases, home)
  }

  lemma WritesSay(w: Request, t: TokenResponse, now: int)
    ensures Rejected(w, t, now) <==> t.accessToken != "" && !C.InTime(t, now)
    ensures AccessWrite(w, t, now).Some? <==> t.accessToken != "" && C.InTime(t, now)
    ensures AccessWrite(w, t, now).Some? ==> C.AccessTokenOf(AccessWrite(w, t, now).value, w.params, t, now)
    ensures RefreshWrite(w, t).Some? ==>
      t.refreshToken != "" && C.RefreshTokenOf(RefreshWrite(w, t).value, w.params, t)
    ensures IDTokenWrite(w, t, now).Some? ==> C.IDTokenOf(IDTokenWrite(w, t, now).value, w.params, t)
    ensures AccountWrite(w, t, now).Some? ==> C.AccountOf(AccountWrite(w, t, now).value, w.params, t)
    ensures IDTokenWrite(w, t, now).Some? <==> t.idToken.Jwt? && !Rejected(w, t, now)
    ensures AccountWrite(w, t, now).Some? <==> t.idToken.Jwt? && !Rejected(w, t, now)
    ensures RefreshWrite(w, t).Some? <==> t.refreshToken != ""
  {
    C.WriteSays(w.params, t, now);
    hide NewAccessToken, NewRefreshToken, NewIDToken, NewAccount;
  }

  /** After any run of writes: every item in an answer says just what some response said that came in on behalf
      of the very assertion, and is for the tenant, the client and the scopes of the request. */
  lemma {:induction false} FoundInRun(ops: seq<WriteOp>, q: Request, aliases: seq<string>, r: Cached)
    requires q.assertionHash != "" && After(ops, |ops|).MayRead(q, aliases, r)
    ensures r.accessToken.Some? ==> exists n: nat :: AccessServed(ops, n, q, aliases, r.accessToken.value)
    ensures r.refreshToken.Some? ==> exists n: nat :: RefreshServed(ops, n, q, aliases, r.refreshToken.value)
    ensures r.idToken.Some? ==>
      exists n: nat :: IDTokenServed(ops, n, q, aliases, Home(r.accessToken), r.idToken.value)
    ensures r.account.Some? ==>
      exists n: nat :: AccountServed(ops, n, q, aliases, IDHome(r.idToken), r.account.value)
  {
    hide AccessServed, RefreshServed, IDTokenServed, AccountServed, After, OboCache.MayRead, Survives, OnBehalf;
    hide TokenFor, RefreshTokenFor, IDTokenFor, AccountFor;
    var c := After(ops, |ops|);
    ReadsExactly(c, q, aliases, r);
    RefreshExactly(c, q, aliases, r);
    OwnItemsOnly(ops, q, aliases, r);
    if r.accessToken.Some? {
      var i: nat :| OnBehalf(ops, i, q)
        && Survives(AccessWrites(ops), |ops|, i, r.accessToken.value, AccessPartition, AccessKey);
      TokenServed(ops, i, q, aliases, r.accessToken.value);
    }
    if r.refreshToken.Some? {
      var i: nat :| OnBehalf(ops, i, q)
        && Survives(RefreshWrites(ops), |ops|, i, r.refreshToken.value, RefreshPartition, RefreshKey);
      RefreshIsServed(ops, i, q, aliases, r.refreshToken.value);
    }
    if r.idToken.Some? {
      var i: nat :| OnBehalf(ops, i, q)
        && Survives(IDTokenWrites(ops), |ops|, i, r.idToken.value, IDTokenPartition, IDTokenKey);
      IDTokenIsServed(ops, i, q, aliases, Home(r.accessToken), r.idToken.value);
    }
    if r.account.Some? {
      var i: nat :| OnBehalf(ops, i, q)
        && Survives(AccountWrites(ops), |ops|, i, r.account.value, AccountPartition, AccountKey);
      AccountIsServed(ops, i, q, aliases, IDHome(r.idToken), r.account.value);
    }
  }

  lemma TokenServed(ops: seq<WriteOp>, i: nat, q: Request, aliases: seq<string>, at: AccessToken)
    requires OnBehalf(ops, i, q) && Survives(AccessWrites(ops), |ops|, i, at, AccessPartition, AccessKey)
    requires TokenFor(at, q, aliases) && Scopes.Matching(q.params.scopes, Split(at.scopes, ' '))
    ensures AccessServed(ops, i, q, aliases, at)
  {
    WritesSay(ops[i].w, ops[i].t, ops[i].now);
    hide AccessWrite, RefreshWrite, IDTokenWrite, AccountWrite, Replaces;
    assert AccessWrites(ops)[i] == AccessWrite(ops[i].w, ops[i].t, ops[i].now);
    C.ScopesAre(q.params, ops[i].t);
  }

  lemma RefreshIsServed(ops: seq<WriteOp>, i: nat, q: Request, aliases: seq<string>, rt: RefreshToken)
    requires OnBehalf(ops, i, q) && Survives(RefreshWrites(ops), |ops|, i, rt, RefreshPartition, RefreshKey)
    requires RefreshTokenFor(rt, q, aliases)
    ensures RefreshServed(ops, i, q, aliases, rt)
  {
    WritesSay(ops[i].w, ops[i].t, ops[i].now);
    hide AccessWrite, RefreshWrite, IDTokenWrite, AccountWrite, Replaces;
    assert RefreshWrites(ops)[i] == RefreshWrite(ops[i].w, ops[i].t);
  }

  lemma IDTokenIsServed(ops: seq<WriteOp>, i: nat, q: Request, aliases: seq<string>, home: string, id: IDToken)
    requires OnBehalf(ops, i, q) && Survives(IDTokenWrites(ops), |ops|, i, id, IDTokenPartition, IDTokenKey)
    requires IDTokenFor(id, q, aliases, home)
    ensures IDTokenServed(ops, i, q, aliases, home, id)
  {
    WritesSay(ops[i].w, ops[i].t, ops[i].now);
    hide AccessWrite, RefreshWrite, IDTokenWrite, AccountWrite, Replaces, Rejected;
    assert IDTokenWrites(ops)[i] == IDTokenWrite(ops[i].w, ops[i].t, ops[i].now);
  }

  lemma AccountIsServed(ops: seq<WriteOp>, i: nat, q: Request, aliases: seq<string>, home: string, acc: Account)
    requires OnBehalf(ops, i, q) && Survives(AccountWrites(ops), |ops|, i, acc, AccountPartition, AccountKey)
    requires AccountFor(acc, q, aliases, home)
    ensures AccountServed(ops, i, q, aliases, home, acc)
  {
    WritesSay(ops[i].w, ops[i].t, ops[i].now);
    hide AccessWrite, RefreshWrite, IDTokenWrite, AccountWrite, Replaces, Rejected;
    assert AccountWrites(ops)[i] == AccountWrite(ops[i].w, ops[i].t, ops[i].now);
  }

  // ----- a write, and then a read -----

  /** A request on behalf of the same assertion, with the same client, tenant, token type and extra cache key,
      for scopes that were granted and can be told apart. */
  ghost predicate SameRequest(w: Request, t: TokenResponse, q: Request, aliases: seq<string>) {
    && w.onBehalfOf && q.assertionHash == w.assertionHash != "" && q.params.tenant == w.params.tenant
    && q.params.clientID == w.params.clientID && w.params.host in aliases
    && t.tokenType == q.params.accessTokenType && q.params.authnSchemeKeyID == w.params.authnSchemeKeyID
    && q.params.extCacheKey == w.params.extCacheKey
    && StorageUse.Apart(t.grantedScopes) && Scopes.Included(q.params.scopes, t.grantedScopes)
  }

  /** On a new cache: the request is answered exactly if the response brought a token in time, and then also
      with the ID token and the account if it brought those; a refresh token is of no use while the client is
      not known, which it is not after a token that was out of time. */
  lemma WrittenThenRead(w: Request, t: TokenResponse, now: int, q: Request, aliases: seq<string>, r: Cached)
    requires NOTHING.AfterWrite(w, t, now).MayRead(q, aliases, r) && SameRequest(w, t, q, aliases)
    ensures r.accessToken.Some? <==> t.accessToken != "" && C.InTime(t, now)
    ensures r.accessToken.Some? ==> C.AccessTokenOf(r.accessToken.value, w.params, t, now)
    ensures r.refreshToken.Some? <==> t.refreshToken != "" && (t.accessToken == "" || C.InTime(t, now))
    ensures r.refreshToken.Some? ==> C.RefreshTokenOf(r.refreshToken.value, w.params, t)
    ensures r.accessToken.Some? ==> (r.idToken.Some? <==> t.idToken.Jwt?) && (r.account.Some? <==> t.idToken.Jwt?)
    ensures r.idToken.Some? ==> C.IDTokenOf(r.idToken.value, w.params, t)
    ensures r.account.Some? ==> C.AccountOf(r.account.value, w.params, t)
  {
    var c := NOTHING.AfterWrite(w, t, now);
    hide OboCache.AfterWrite, OboCache.MayRead, Stored, TokenFor, RefreshTokenFor, IDTokenFor, AccountFor, Known;
    hide C.AccessTokenOf, C.RefreshTokenOf, C.IDTokenOf, C.AccountOf, C.InTime, InFamily;
    OnlyThese(w, t, now);
    ReadsExactly(c, q, aliases, r);
    RefreshExactly(c, q, aliases, r);
    RestFor(w, t, now, q, aliases);
    if t.accessToken != "" && C.InTime(t, now) {
      TokenWritten(w, t, now, q, aliases);
      HomeIs(w, t, now, r.accessToken.value);
    }
    if r.idToken.Some? {
      IDHomeIs(w, t, r.idToken.value);
    }
  }

  lemma TokenWritten(w: Request, t: TokenResponse, now: int, q: Request, aliases: seq<string>)
    requires SameRequest(w, t, q, aliases) && t.accessToken != "" && C.InTime(t, now)
    ensures exists at ::
      && Stored(NOTHING.AfterWrite(w, t, now).accessTokens, at) && TokenFor(at, q, aliases)
      && Scopes.Matching(q.params.scopes, Split(at.scopes, ' '))
  {
    WritesSay(w, t, now);
    var at := AccessWrite(w, t, now).value;
    StorageUse.SplitGranted(q.params.scopes, t.grantedScopes);
    assert TokenFor(at, q, aliases) && Scopes.Matching(q.params.scopes, Split(at.scopes, ' '));
    hide SameRequest, TokenFor, AccessWrite, RefreshWrite, IDTokenWrite, AccountWrite, Rejected, C.AccessTokenOf;
    Single(Some(at), AccessPartition, AccessKey);
    assert Stored(NOTHING.AfterWrite(w, t, now).accessTokens, at);
  }

  /** All else that was written is for the request, too. */
  lemma RestFor(w: Request, t: TokenResponse, now: int, q: Request, aliases: seq<string>)
    requires SameRequest(w, t, q, aliases)
    ensures var c, accepted := NOTHING.AfterWrite(w, t, now), t.accessToken == "" || C.InTime(t, now);
      && (Known(c, q, aliases) <==> accepted)
      && (t.refreshToken != "" ==> exists rt :: Stored(c.refreshTokens, rt) && RefreshTokenFor(rt, q, aliases))
      && (t.idToken.Jwt? && accepted ==>
            && (exists id :: Stored(c.idTokens, id) && IDTokenFor(id, q, aliases, C.UserOf(t)))
            && exists acc :: Stored(c.accounts, acc) && AccountFor(acc, q, aliases, C.UserOf(t)))
  {
    var c, accepted := NOTHING.AfterWrite(w, t, now), t.accessToken == "" || C.InTime(t, now);
    WritesSay(w, t, now);
    AppKnown(w, t, now, q, aliases);
    var rt, id, acc := RefreshWrite(w, t), IDTokenWrite(w, t, now), AccountWrite(w, t, now);
    assert t.refreshToken != "" ==> RefreshTokenFor(rt.value, q, aliases);
    assert t.idToken.Jwt? && accepted ==>
        IDTokenFor(id.value, q, aliases, C.UserOf(t)) && AccountFor(acc.value, q, aliases, C.UserOf(t));
    hide SameRequest, RefreshTokenFor, IDTokenFor, AccountFor, AccessWrite, RefreshWrite, IDTokenWrite, AccountWrite;
    hide C.RefreshTokenOf, C.IDTokenOf, C.AccountOf, C.InTime, Rejected, Stored, PutMaybe, Known;
    Single(rt, RefreshPartition, RefreshKey);
    Single(id, IDTokenPartition, IDTokenKey);
    Single(acc, AccountPartition, AccountKey);
    assert rt.Some? ==> Stored(c.refreshTokens, rt.value);
    assert id.Some? ==> Stored(c.idTokens, id.value);
    assert acc.Some? ==> Stored(c.accounts, acc.value);
  }

  lemma AppKnown(w: Request, t: TokenResponse, now: int, q: Request, aliases: seq<string>)
    requires SameRequest(w, t, q, aliases)
    ensures Known(NOTHING.AfterWrite(w, t, now), q, aliases) <==> !Rejected(w, t, now)
  {
    var app := AppMetaData(t.familyID, w.params.clientID, w.params.host);
    hide AppKey, Rejected, PutMaybe;
    assert !Rejected(w, t, now) ==> AppKey(app) in NOTHING.AfterWrite(w, t, now).appMetaData;
  }

  lemma HomeIs(w: Request, t: TokenResponse, now: int, at: AccessToken)
    requires C.AccessTokenOf(at, w.params, t, now)
    ensures at.homeAccountID == C.UserOf(t)
  {
  }

  lemma IDHomeIs(w: Request, t: TokenResponse, id: IDToken)
    requires C.IDTokenOf(id, w.params, t)
    ensures id.homeAccountID == C.UserOf(t)
  {
  }

  /** A new cache holds no more than what was written. */
  lemma OnlyThese(w: Request, t: TokenResponse, now: int)
    ensures var c := NOTHING.AfterWrite(w, t, now);
      && (forall at | Stored(c.accessTokens, at) ::
            t.accessToken != "" && C.InTime(t, now) && C.AccessTokenOf(at, w.params, t, now))
      && (forall rt | Stored(c.refreshTokens, rt) :: t.refreshToken != "" && C.RefreshTokenOf(rt, w.params, t))
      && (forall id | Stored(c.idTokens, id) :: t.idToken.Jwt? && C.IDTokenOf(id, w.params, t))
      && (forall acc | Stored(c.accounts, acc) :: t.idToken.Jwt? && C.AccountOf(acc, w.params, t))
  {
    WritesSay(w, t, now);
    hide C.AccessTokenOf, C.RefreshTokenOf, C.IDTokenOf, C.AccountOf, C.InTime, Rejected;
    hide AccessWrite, RefreshWrite, IDTokenWrite, AccountWrite, Put, Stored;
    Single(AccessWrite(w, t, now), AccessPartition, AccessKey);
    Single(RefreshWrite(w, t), RefreshPartition, RefreshKey);
    Single(IDTokenWrite(w, t, now), IDTokenPartition, IDTokenKey);
    Single(AccountWrite(w, t, now), AccountPartition, AccountKey);
  }

  lemma Single<V>(v: Option<V>, part: V -> string, key: V -> string)
    ensures forall u :: Stored(PutMaybe(map[], v, part, key), u) <==> v == Some(u)
  {
    if v.Some? {
      PutPlaces(map[], part, key(v.value), v.value);
    }
  }
}
