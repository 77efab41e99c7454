/** The on-behalf-of cache: the same items, partitioned by assertion hash or home account. */
module Partitioned {
  import opened Wrappers
  import opened Strings
  import opened Items
  import opened Storage
  import MapOrder
  import Scopes

  /** A request and the (never empty) hash of its user assertion. */
  datatype Request = Request(params: AuthParams, onBehalfOf: bool, assertionHash: string)

  function AccessPartition(at: AccessToken): string {
    if at.userAssertionHash != "" then at.userAssertionHash else at.homeAccountID
  }
  function RefreshPartition(rt: RefreshToken): string {
    if rt.userAssertionHash != "" then rt.userAssertionHash else rt.homeAccountID
  }
  function IDTokenPartition(id: IDToken): string { id.homeAccountID }
  function AccountPartition(acc: Account): string { acc.homeAccountID }

  // ----- nested maps -----

  type Partitions<V> = map<string, map<string, V>>

  /** The item sits somewhere in the cache, in whatever partition. */
  ghost predicate Stored<V>(m: Partitions<V>, v: V) { exists p, k :: p in m && k in m[p] && m[p][k] == v }

  /** A scan that ignores the partitions: it returns some matching item if there is one. */
  ghost predicate FoundAnywhere<V(!new)>(m: Partitions<V>, matches: V -> bool, r: Option<V>) {
    if r.None? then forall v | Stored(m, v) :: !matches(v) else Stored(m, r.value) && matches(r.value)
  }

  /** Every item sits in the partition that it names itself. */
  ghost predicate Placed<V>(m: Partitions<V>, part: V -> string) {
    forall p, k | p in m && k in m[p] :: part(m[p][k]) == p
  }

  function Put<V>(m: Partitions<V>, part: string, key: string, v: V): Partitions<V> {
    m[part := (if part in m then m[part] else map[])[key := v]]
  }

  function PutMaybe<V>(m: Partitions<V>, v: Option<V>, part: V -> string, key: V -> string): Partitions<V> {
    match v
    case None => m
    case Some(v) => Put(m, part(v), key(v), v)
  }

  lemma PutPlaces<V>(m: Partitions<V>, part: V -> string, key: string, v: V)
    ensures Placed(m, part) ==> Placed(Put(m, part(v), key, v), part)
    ensures Stored(Put(m, part(v), key, v), v)
    ensures forall u | Stored(Put(m, part(v), key, v), u) :: u == v || Stored(m, u)
  {
    var m' := Put(m, part(v), key, v);
    assert part(v) in m' && key in m'[part(v)];
    forall u | Stored(m', u) ensures u == v || Stored(m, u) {
      var p, k :| p in m' && k in m'[p] && m'[p][k] == u;
      if p == part(v) && k == key {
      } else {
        assert p in m && k in m[p];
      }
    }
  }

  /** The scan of one partition. */
  method FindIn<V>(m: Partitions<V>, part: string, matches: V -> bool) returns (r: Option<V>)
    ensures r.Some? ==> part in m && (exists k | k in m[part] :: m[part][k] == r.value) && matches(r.value)
    ensures r.None? && part in m ==> forall k | k in m[part] :: !matches(m[part][k])
  {
    if part !in m { return None; }
    var keys := MapOrder.Range(m[part]);
    for i := 0 to |keys|
      invariant forall x | 0 <= x < i :: !matches(m[part][keys[x]])
    {
      if matches(m[part][keys[i]]) { return Some(m[part][keys[i]]); }
    }
    r := None;
  }

  /** One partition is enough if whatever matches names it. */
  lemma OnePartitionIsEnough<V(!new)>(m: Partitions<V>, placed: V -> string, part: string, matches: V -> bool,
    r: Option<V>)
    requires Placed(m, placed) && forall v :: matches(v) ==> placed(v) == part
    requires r.Some? ==> part in m && (exists k | k in m[part] :: m[part][k] == r.value) && matches(r.value)
    requires r.None? && part in m ==> forall k | k in m[part] :: !matches(m[part][k])
    ensures FoundAnywhere(m, matches, r)
  {
  }

  // ----- what a request matches -----

  function AccessMatch(q: Request, aliases: seq<string>): AccessToken -> bool {
    (at: AccessToken) =>
      && at.realm == q.params.tenant && at.clientID == q.params.clientID && at.userAssertionHash == q.assertionHash
      && at.tokenType == q.params.accessTokenType && at.authnSchemeKeyID == q.params.authnSchemeKeyID
      && at.environment in aliases && Scopes.Matching(q.params.scopes, Split(at.scopes, Scopes.SCOPE_SEPARATOR))
      && at.extCacheKey == q.params.extCacheKey
  }

  function FamilyMatch(q: Request, aliases: seq<string>): RefreshToken -> bool {
    (rt: RefreshToken) => rt.userAssertionHash == q.assertionHash && rt.environment in aliases && rt.familyID != ""
  }

  function ClientMatch(q: Request, aliases: seq<string>): RefreshToken -> bool {
    (rt: RefreshToken) =>
      rt.userAssertionHash == q.assertionHash && rt.environment in aliases && rt.clientID == q.params.clientID
  }

  /** An ID token of the account `home`. */
  function IDMatch(q: Request, aliases: seq<string>, home: string): IDToken -> bool {
    (id: IDToken) =>
      && id.homeAccountID == home && id.realm == q.params.tenant && id.clientID == q.params.clientID
      && id.userAssertionHash == q.assertionHash && id.environment in aliases
  }

  function AccountMatch(q: Request, aliases: seq<string>, home: string): Account -> bool {
    (acc: Account) =>
      acc.homeAccountID == home && acc.environment in aliases && acc.userAssertionHash == q.assertionHash
        && acc.realm == q.params.tenant
  }

  /** The refresh token search over all partitions, in the order the app's family asks for. */
  ghost predicate RefreshAnywhere(q: Request, aliases: seq<string>, familyID: string, m: Partitions<RefreshToken>,
    r: Option<RefreshToken>) {
    var first := if familyID == "" then ClientMatch(q, aliases) else FamilyMatch(q, aliases);
    var second := if familyID == "" then FamilyMatch(q, aliases) else ClientMatch(q, aliases);
    if exists rt :: Stored(m, rt) && first(rt) then r.Some? && FoundAnywhere(m, first, r)
    else FoundAnywhere(m, second, r)
  }

  // ----- what a write stores -----

  /** Only on-behalf-of items carry the hash. */
  function ItemHash(w: Request): string { if w.onBehalfOf then w.assertionHash else "" }

  function OboRefreshToken(w: Request, t: TokenResponse): RefreshToken {
    NewRefreshToken(w.params, t).(userAssertionHash := ItemHash(w))
  }

  function OboAccessToken(w: Request, t: TokenResponse, now: int): AccessToken {
    NewAccessToken(w.params, t, now).(userAssertionHash := ItemHash(w))
  }

  function OboIDToken(w: Request, t: TokenResponse): IDToken
    requires t.idToken.Jwt?
  {
    NewIDToken(w.params, t).(userAssertionHash := ItemHash(w))
  }

  function OboAccount(w: Request, t: TokenResponse): Account
    requires t.idToken.Jwt?
  {
    NewAccount(w.params, t).(userAssertionHash := ItemHash(w))
  }

  /** An unusable access token ends the write with an error. */
  predicate Rejected(w: Request, t: TokenResponse, now: int) {
    t.accessToken != "" && !Usable(OboAccessToken(w, t, now), now)
  }

  /** What a write puts, kind by kind.  When the access token is rejected, the refresh token has already been
      stored, and nothing else is. */
  function AccessWrite(w: Request, t: TokenResponse, now: int): (r: Option<AccessToken>)
    ensures r.Some? ==> r.value.userAssertionHash == ItemHash(w)
  {
    if t.accessToken == "" || Rejected(w, t, now) then None else Some(OboAccessToken(w, t, now))
  }

  function RefreshWrite(w: Request, t: TokenResponse): (r: Option<RefreshToken>)
    ensures r.Some? ==> r.value.userAssertionHash == ItemHash(w)
  {
    if t.refreshToken == "" then None else Some(OboRefreshToken(w, t))
  }

  function IDTokenWrite(w: Request, t: TokenResponse, now: int): (r: Option<IDToken>)
    ensures r.Some? ==> r.value.userAssertionHash == ItemHash(w) && r.value.credentialType == "IdToken"
  {
    if t.idToken.NoIDToken? || Rejected(w, t, now) then None else Some(OboIDToken(w, t))
  }

  function AccountWrite(w: Request, t: TokenResponse, now: int): (r: Option<Account>)
    ensures r.Some? ==> r.value.userAssertionHash == ItemHash(w)
  {
    if t.idToken.NoIDToken? || Rejected(w, t, now) then None else Some(OboAccount(w, t))
  }

  ghost predicate AppRead(p: AuthParams, aliases: seq<string>, m: map<string, AppMetaData>, r: Option<AppMetaData>) {
    if r.None? then forall k | k in m :: !MatchesApp(p, aliases, m[k])
    else MatchesApp(p, aliases, r.value) && exists k | k in m :: m[k] == r.value
  }

  /** The contents of the cache. */
  datatype OboCache = OboCache(
    accessTokens: Partitions<AccessToken>, refreshTokens: Partitions<RefreshToken>, idTokens: Partitions<IDToken>,
    accounts: Partitions<Account>, appMetaData: map<string, AppMetaData>)
  {
    ghost predicate Valid() {
      && Placed(accessTokens, AccessPartition) && Placed(refreshTokens, RefreshPartition)
      && Placed(idTokens, IDTokenPartition) && Placed(accounts, AccountPartition)
    }

    /** The write of a token response. */
    function AfterWrite(w: Request, t: TokenResponse, now: int): OboCache {
      OboCache(
        PutMaybe(accessTokens, AccessWrite(w, t, now), AccessPartition, AccessKey),
        PutMaybe(refreshTokens, RefreshWrite(w, t), RefreshPartition, RefreshKey),
        PutMaybe(idTokens, IDTokenWrite(w, t, now), IDTokenPartition, IDTokenKey),
        PutMaybe(accounts, AccountWrite(w, t, now), AccountPartition, AccountKey),
        if Rejected(w, t, now) then appMetaData
        else var app := AppMetaData(t.familyID, w.params.clientID, w.params.host); appMetaData[AppKey(app) := app])
    }

    /** What a read may answer.  The home account of the ID token comes from the access token, that of the
        account from the ID token; a missing one stands for the empty home account. */
    ghost predicate MayRead(q: Request, aliases: seq<string>, r: Cached) {
      && FoundAnywhere(accessTokens, AccessMatch(q, aliases), r.accessToken)
      && FoundAnywhere(idTokens,
          IDMatch(q, aliases, if r.accessToken.Some? then r.accessToken.value.homeAccountID else ""), r.idToken)
      && FoundAnywhere(accounts,
          AccountMatch(q, aliases, if r.idToken.Some? then r.idToken.value.homeAccountID else ""), r.account)
      && exists app :: (AppRead(q.params, aliases, appMetaData, app) &&
           if app.None? then r.refreshToken.None?
           else RefreshAnywhere(q, aliases, app.value.familyID, refreshTokens, r.refreshToken))
    }
  }

  const NOTHING := OboCache(map[], map[], map[], map[], map[])

  lemma MaybePlaces<V>(m: Partitions<V>, v: Option<V>, part: V -> string, key: V -> string)
    ensures Placed(m, part) ==> Placed(PutMaybe(m, v, part, key), part)
  {
    if v.Some? {
      PutPlaces(m, part, key(v.value), v.value);
    }
  }

  lemma WriteKeeps(c: OboCache, w: Request, t: TokenResponse, now: int)
    requires c.Valid()
    ensures c.AfterWrite(w, t, now).Valid()
  {
    hide Placed, PutMaybe, AccessWrite, RefreshWrite, IDTokenWrite, AccountWrite;
    MaybePlaces(c.accessTokens, AccessWrite(w, t, now), AccessPartition, AccessKey);
    MaybePlaces(c.refreshTokens, RefreshWrite(w, t), RefreshPartition, RefreshKey);
    MaybePlaces(c.idTokens, IDTokenWrite(w, t, now), IDTokenPartition, IDTokenKey);
    MaybePlaces(c.accounts, AccountWrite(w, t, now), AccountPartition, AccountKey);
  }

  class PartitionedManager {
    var accessTokens: Partitions<AccessToken>
    var refreshTokens: Partitions<RefreshToken>
    var idTokens: Partitions<IDToken>
    var accounts: Partitions<Account>
    var appMetaData: map<string, AppMetaData>

    constructor ()
      ensures Contents() == NOTHING
    {
      accessTokens, refreshTokens, idTokens, accounts, appMetaData := map[], map[], map[], map[], map[];
    }

    function Contents(): OboCache
      reads this
    {
      OboCache(accessTokens, refreshTokens, idTokens, accounts, appMetaData)
    }

    ghost predicate Valid()
      reads this
    {
      Contents().Valid()
    }

    method Write(w: Request, t: TokenResponse, now: int) returns (ok: bool, account: Option<Account>)
      modifies this
      ensures ok <==> !Rejected(w, t, now)
      ensures Contents() == old(Contents()).AfterWrite(w, t, now)
      ensures account == if t.idToken.NoIDToken? || !ok then None else Some(OboAccount(w, t))
    {
      hide Put, Usable, AccessKey, RefreshKey, IDTokenKey, AccountKey, AppKey;
      ok, account := true, None;
      if t.refreshToken != "" {
        var rt := OboRefreshToken(w, t);
        refreshTokens := Put(refreshTokens, RefreshPartition(rt), RefreshKey(rt), rt);
      }
      if t.accessToken != "" {
        var at := OboAccessToken(w, t, now);
        if Usable(at, now) {
          accessTokens := Put(accessTokens, AccessPartition(at), AccessKey(at), at);
        } else {
          return false, None;
        }
      }
      if t.idToken.Jwt? {
        var id := OboIDToken(w, t);
        idTokens := Put(idTokens, IDTokenPartition(id), IDTokenKey(id), id);
        var acc := OboAccount(w, t);
        accounts := Put(accounts, AccountPartition(acc), AccountKey(acc), acc);
        account := Some(acc);
      }
      var app := AppMetaData(t.familyID, w.params.clientID, w.params.host);
      appMetaData := appMetaData[AppKey(app) := app];
    }

    /** Looking into one partition finds an access token exactly when looking everywhere would. */
    method ReadAccessToken(q: Request, aliases: seq<string>) returns (r: Option<AccessToken>)
      requires Valid() && q.assertionHash != ""
      ensures FoundAnywhere(accessTokens, AccessMatch(q, aliases), r)
    {
      r := FindIn(accessTokens, q.assertionHash, AccessMatch(q, aliases));
      OnePartitionIsEnough(accessTokens, AccessPartition, q.assertionHash, AccessMatch(q, aliases), r);
    }

    method ReadRefreshToken(q: Request, aliases: seq<string>, familyID: string) returns (r: Option<RefreshToken>)
      requires Valid() && q.assertionHash != ""
      ensures RefreshAnywhere(q, aliases, familyID, refreshTokens, r)
    {
      hide Placed, Stored;
      var byClient, byFamily := ClientMatch(q, aliases), FamilyMatch(q, aliases);
      var first, second := if familyID == "" then byClient else byFamily, if familyID == "" then byFamily else byClient;
      r := FindIn(refreshTokens, q.assertionHash, first);
      OnePartitionIsEnough(refreshTokens, RefreshPartition, q.assertionHash, first, r);
      if r.None? {
        r := FindIn(refreshTokens, q.assertionHash, second);
        OnePartitionIsEnough(refreshTokens, RefreshPartition, q.assertionHash, second, r);
      }
    }

    method ReadIDToken(q: Request, aliases: seq<string>, home: string) returns (r: Option<IDToken>)
      requires Valid()
      ensures FoundAnywhere(idTokens, IDMatch(q, aliases, home), r)
    {
      // the partition makes the home account check superfluous
      r := FindIn(idTokens, home, (id: IDToken) =>
        id.realm == q.params.tenant && id.clientID == q.params.clientID && id.userAssertionHash == q.assertionHash
          && id.environment in aliases);
      OnePartitionIsEnough(idTokens, IDTokenPartition, home, IDMatch(q, aliases, home), r);
    }

    method ReadAccount(q: Request, aliases: seq<string>, home: string) returns (r: Option<Account>)
      requires Valid()
      ensures FoundAnywhere(accounts, AccountMatch(q, aliases, home), r)
    {
      r := FindIn(accounts, home, (acc: Account) =>
        acc.environment in aliases && acc.userAssertionHash == q.assertionHash && acc.realm == q.params.tenant);
      OnePartitionIsEnough(accounts, AccountPartition, home, AccountMatch(q, aliases, home), r);
    }

    method ReadAppMetaData(q: Request, aliases: seq<string>) returns (r: Option<AppMetaData>)
      ensures AppRead(q.params, aliases, appMetaData, r)
    {
      var keys := MapOrder.Range(appMetaData);
      for i := 0 to |keys|
        invariant forall x | 0 <= x < i :: !MatchesApp(q.params, aliases, appMetaData[keys[x]])
      {
        if MatchesApp(q.params, aliases, appMetaData[keys[i]]) { return Some(appMetaData[keys[i]]); }
      }
      r := None;
    }

    method Read(q: Request, aliases: seq<string>) returns (c: Cached)
      requires Valid() && q.assertionHash != ""
      ensures Contents().MayRead(q, aliases, c)
    {
      hide Stored, FoundAnywhere, RefreshAnywhere, AppRead;
      var at := ReadAccessToken(q, aliases);
      var id := ReadIDToken(q, aliases, if at.Some? then at.value.homeAccountID else "");
      var rt := None;
      var app := ReadAppMetaData(q, aliases);
      if app.Some? {
        rt := ReadRefreshToken(q, aliases, app.value.familyID);
      }
      var acc := ReadAccount(q, aliases, if id.Some? then id.value.homeAccountID else "");
      c := Cached(at, id, rt, acc);
    }
  }
}
