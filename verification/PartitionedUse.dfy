/** What callers of the partitioned cache can rely on over whole runs. */
module PartitionedUse {
  import opened Wrappers
  import opened Strings
  import opened Items
  import opened Storage
  import opened Partitioned
  import Scopes

  // ----- what is left of a sequence of puts -----

  function PutAll<V>(writes: seq<Option<V>>, n: nat, part: V -> string, key: V -> string): Partitions<V>
    requires n <= |writes|
  {
    if n == 0 then map[] else PutMaybe(PutAll(writes, n - 1, part, key), writes[n - 1], part, key)
  }

  /** `w` puts something in the place of `v`. */
  predicate Replaces<V>(w: Option<V>, v: V, part: V -> string, key: V -> string) {
    w.Some? && part(w.value) == part(v) && key(w.value) == key(v)
  }

  /** Write `i` puts `v`, and none between it and `n` replaces it. */
  ghost predicate Survives<V>(writes: seq<Option<V>>, n: nat, i: nat, v: V, part: V -> string, key: V -> string)
    requires n <= |writes|
  {
    i < n && writes[i] == Some(v) && forall j | i < j < n :: !Replaces(writes[j], v, part, key)
  }

  /** Every item sits in its own partition under its own key. */
  ghost predicate Slotted<V>(m: Partitions<V>, part: V -> string, key: V -> string) {
    forall p, k | p in m && k in m[p] :: part(m[p][k]) == p && key(m[p][k]) == k
  }

  lemma PutStep<V>(m: Partitions<V>, u: V, v: V, part: V -> string, key: V -> string)
    requires Slotted(m, part, key)
    ensures var m' := Put(m, part(u), key(u), u);
      Slotted(m', part, key) && (Stored(m', v) <==> v == u || (Stored(m, v) && !Replaces(Some(u), v, part, key)))
  {
    var m' := Put(m, part(u), key(u), u);
    assert part(u) in m' && key(u) in m'[part(u)];
    if p, k :| p in m && k in m[p] && m[p][k] == v && !Replaces(Some(u), v, part, key) {
      assert p in m' && k in m'[p] && m'[p][k] == v;
    }
    if p, k :| p in m' && k in m'[p] && m'[p][k] == v && v != u {
      assert p in m && k in m[p] && m[p][k] == v;
    }
  }

  /** Exactly the items that were put and not replaced since are stored. */
  lemma {:induction false} PutAllExact<V>(writes: seq<Option<V>>, n: nat, v: V, part: V -> string, key: V -> string)
    requires n <= |writes|
    ensures Slotted(PutAll(writes, n, part, key), part, key)
    ensures Stored(PutAll(writes, n, part, key), v) <==> exists i: nat :: Survives(writes, n, i, v, part, key)
  {
    if n > 0 {
      PutAllExact(writes, n - 1, v, part, key);
      SurvivesStep(writes, n - 1, n, v, part, key);
      hide Slotted, Stored, Survives, Put;
      if writes[n - 1].Some? {
        PutStep(PutAll(writes, n - 1, part, key), writes[n - 1].value, v, part, key);
      }
    }
  }

  lemma SurvivesStep<V>(writes: seq<Option<V>>, m: nat, n: nat, v: V, part: V -> string, key: V -> string)
    requires m + 1 == n <= |writes|
    ensures (exists i: nat :: Survives(writes, n, i, v, part, key))
      <==> (writes[m] == Some(v) ||
              ((exists i: nat :: Survives(writes, m, i, v, part, key)) && !Replaces(writes[m], v, part, key)))
  {
    hide Replaces;
    if writes[m] == Some(v) {
      assert Survives(writes, n, m, v, part, key);
    }
    if i: nat :| Survives(writes, m, i, v, part, key) && !Replaces(writes[m], v, part, key) {
      assert Survives(writes, n, i, v, part, key);
    }
    if i: nat :| Survives(writes, n, i, v, part, key) && i < m {
      assert Survives(writes, m, i, v, part, key);
    }
  }

  /** Write `i` puts an item that matches, and whatever later write takes its place puts one too. */
  ghost predicate Keeps<V>(writes: seq<Option<V>>, i: nat, matches: V -> bool, part: V -> string, key: V -> string) {
    && i < |writes| && writes[i].Some? && matches(writes[i].value)
    && forall j | i < j < |writes| :: Replaces(writes[j], writes[i].value, part, key) ==> matches(writes[j].value)
  }

  lemma {:induction false} KeptSurvives<V>(writes: seq<Option<V>>, i: nat, matches: V -> bool, part: V -> string,
    key: V -> string)
    requires Keeps(writes, i, matches, part, key)
    ensures exists j: nat, v :: Survives(writes, |writes|, j, v, part, key) && matches(v)
    decreases |writes| - i
  {
    if j :| i < j < |writes| && Replaces(writes[j], writes[i].value, part, key) {
      KeptSurvives(writes, j, matches, part, key);
    } else {
      assert Survives(writes, |writes|, i, writes[i].value, part, key);
    }
  }

  /** A scan of what the writes left finds a match exactly when one was put and only ever replaced by
      another match; what it finds is one of the items put and not replaced. */
  lemma {:induction false} FoundExactly<V(!new)>(writes: seq<Option<V>>, m: Partitions<V>, matches: V -> bool,
    r: Option<V>, part: V -> string, key: V -> string)
    requires m == PutAll(writes, |writes|, part, key) && FoundAnywhere(m, matches, r)
    ensures r.Some? <==> exists i: nat :: Keeps(writes, i, matches, part, key)
    ensures r.Some? ==> exists i: nat :: Survives(writes, |writes|, i, r.value, part, key)
  {
    hide Stored, PutAll, Replaces;
    if r.Some? {
      PutAllExact(writes, |writes|, r.value, part, key);
      var i: nat :| Survives(writes, |writes|, i, r.value, part, key);
      assert Keeps(writes, i, matches, part, key);
    }
    if i: nat :| Keeps(writes, i, matches, part, key) {
      KeptSurvives(writes, i, matches, part, key);
      var j: nat, v :| Survives(writes, |writes|, j, v, part, key) && matches(v);
      PutAllExact(writes, |writes|, v, part, key);
    }
  }

  // ----- runs of writes -----

  datatype WriteOp = WriteOp(w: Request, t: TokenResponse, now: int)

  /** What the operations put, kind by kind. */
  function AccessWrites(ops: seq<WriteOp>): seq<Option<AccessToken>> {
    seq(|ops|, i requires 0 <= i < |ops| => AccessWrite(ops[i].w, ops[i].t, ops[i].now))
  }

  function RefreshWrites(ops: seq<WriteOp>): seq<Option<RefreshToken>> {
    seq(|ops|, i requires 0 <= i < |ops| => RefreshWrite(ops[i].w, ops[i].t))
  }

  function IDTokenWrites(ops: seq<WriteOp>): seq<Option<IDToken>> {
    seq(|ops|, i requires 0 <= i < |ops| => IDTokenWrite(ops[i].w, ops[i].t, ops[i].now))
  }

  function AccountWrites(ops: seq<WriteOp>): seq<Option<Account>> {
    seq(|ops|, i requires 0 <= i < |ops| => AccountWrite(ops[i].w, ops[i].t, ops[i].now))
  }

  function After(ops: seq<WriteOp>, n: nat): OboCache
    requires n <= |ops|
  {
    if n == 0 then NOTHING else After(ops, n - 1).AfterWrite(ops[n - 1].w, ops[n - 1].t, ops[n - 1].now)
  }

  method Run(ops: seq<WriteOp>) returns (m: PartitionedManager)
    ensures fresh(m) && m.Contents() == After(ops, |ops|)
  {
    m := new PartitionedManager();
    hide OboCache.AfterWrite, Rejected;
    for i := 0 to |ops|
      invariant fresh(m) && m.Contents() == After(ops, i)
    {
      var _, _ := m.Write(ops[i].w, ops[i].t, ops[i].now);
    }
  }

  /** Whatever the run, the cache is valid, and holds of each kind exactly what the writes left of it. */
  lemma {:induction false} AfterIs(ops: seq<WriteOp>, n: nat)
    requires n <= |ops|
    ensures After(ops, n).Valid()
    ensures After(ops, n).accessTokens == PutAll(AccessWrites(ops), n, AccessPartition, AccessKey)
    ensures After(ops, n).refreshTokens == PutAll(RefreshWrites(ops), n, RefreshPartition, RefreshKey)
    ensures After(ops, n).idTokens == PutAll(IDTokenWrites(ops), n, IDTokenPartition, IDTokenKey)
    ensures After(ops, n).accounts == PutAll(AccountWrites(ops), n, AccountPartition, AccountKey)
  {
    hide PutMaybe, AccessWrite, RefreshWrite, IDTokenWrite, AccountWrite;
    if n > 0 {
      hide OboCache.Valid;
      AfterIs(ops, n - 1);
      Partitioned.WriteKeeps(After(ops, n - 1), ops[n - 1].w, ops[n - 1].t, ops[n - 1].now);
    }
  }

  function Home(at: Option<AccessToken>): string { if at.Some? then at.value.homeAccountID else "" }

  function IDHome(id: Option<IDToken>): string { if id.Some? then id.value.homeAccountID else "" }

  /** After any run of writes, a request finds an access token exactly when one that answers it was put and
      only ever replaced by another such; likewise the ID token of that home account, and the account. */
  lemma {:induction false} ReadInRun(ops: seq<WriteOp>, q: Request, aliases: seq<string>, r: Cached)
    requires After(ops, |ops|).MayRead(q, aliases, r)
    ensures r.accessToken.Some? <==>
      exists i: nat :: Keeps(AccessWrites(ops), i, AccessMatch(q, aliases), AccessPartition, AccessKey)
    ensures r.idToken.Some? <==>
      exists i: nat ::
        Keeps(IDTokenWrites(ops), i, IDMatch(q, aliases, Home(r.accessToken)), IDTokenPartition, IDTokenKey)
    ensures r.account.Some? <==>
      exists i: nat ::
        Keeps(AccountWrites(ops), i, AccountMatch(q, aliases, IDHome(r.idToken)), AccountPartition, AccountKey)
  {
    hide After, OboCache.Valid, FoundAnywhere, PutAll, AccessMatch, IDMatch, AccountMatch, Keeps, Survives;
    var c := After(ops, |ops|);
    AfterIs(ops, |ops|);
    FoundExactly(AccessWrites(ops), c.accessTokens, AccessMatch(q, aliases), r.accessToken, AccessPartition, AccessKey);
    FoundExactly(IDTokenWrites(ops), c.idTokens, IDMatch(q, aliases, Home(r.accessToken)), r.idToken,
        IDTokenPartition, IDTokenKey);
    FoundExactly(AccountWrites(ops), c.accounts, AccountMatch(q, aliases, IDHome(r.idToken)), r.account,
        AccountPartition, AccountKey);
  }

  /** Write `i` was made on behalf of the assertion of `q`. */
  predicate OnBehalf(ops: seq<WriteOp>, i: nat, q: Request) {
    i < |ops| && ops[i].w.onBehalfOf && ops[i].w.assertionHash == q.assertionHash
  }

  /** No user is served another user's items: after any run of writes, all that a request gets was written
      on behalf of that very assertion, and has not been replaced since. */
  lemma {:induction false} OwnItemsOnly(ops: seq<WriteOp>, q: Request, aliases: seq<string>, r: Cached)
    requires q.assertionHash != "" && After(ops, |ops|).MayRead(q, aliases, r)
    ensures r.accessToken.Some? ==> exists i: nat ::
      OnBehalf(ops, i, q) && Survives(AccessWrites(ops), |ops|, i, r.accessToken.value, AccessPartition, AccessKey)
    ensures r.refreshToken.Some? ==> exists i: nat ::
      OnBehalf(ops, i, q) && Survives(RefreshWrites(ops), |ops|, i, r.refreshToken.value, RefreshPartition, RefreshKey)
    ensures r.idToken.Some? ==> exists i: nat ::
      OnBehalf(ops, i, q) && Survives(IDTokenWrites(ops), |ops|, i, r.idToken.value, IDTokenPartition, IDTokenKey)
    ensures r.account.Some? ==> exists i: nat ::
      OnBehalf(ops, i, q) && Survives(AccountWrites(ops), |ops|, i, r.account.value, AccountPartition, AccountKey)
  {
    hide After, OboCache.Valid, FoundAnywhere, RefreshAnywhere, AppRead, PutAll, Replaces, Survives;
    hide AccessWrite, RefreshWrite, IDTokenWrite, AccountWrite;
    var c := After(ops, |ops|);
    AfterIs(ops, |ops|);
    OwnAccessToken(ops, c.accessTokens, q, aliases, r.accessToken);
    OwnIDToken(ops, c.idTokens, q, aliases, Home(r.accessToken), r.idToken);
    OwnAccount(ops, c.accounts, q, aliases, IDHome(r.idToken), r.account);
    var app :| AppRead(q.params, aliases, c.appMetaData, app) &&
      if app.None? then r.refreshToken.None?
      else RefreshAnywhere(q, aliases, app.value.familyID, c.refreshTokens, r.refreshToken);
    if app.Some? {
      OwnRefreshToken(ops, c.refreshTokens, q, aliases, app.value.familyID, r.refreshToken);
    }
  }

  lemma {:induction false} OwnAccessToken(ops: seq<WriteOp>, m: Partitions<AccessToken>, q: Request,
    aliases: seq<string>, r: Option<AccessToken>)
    requires m == PutAll(AccessWrites(ops), |ops|, AccessPartition, AccessKey)
      && FoundAnywhere(m, AccessMatch(q, aliases), r)
    requires q.assertionHash != ""
    ensures r.Some? ==>
              exists i: nat ::
                OnBehalf(ops, i, q) && Survives(AccessWrites(ops), |ops|, i, r.value, AccessPartition, AccessKey)
  {
    hide PutAll, Replaces, Stored, AccessWrite;
    if r.Some? {
      PutAllExact(AccessWrites(ops), |ops|, r.value, AccessPartition, AccessKey);
    }
  }

  lemma {:induction false} OwnRefreshToken(ops: seq<WriteOp>, m: Partitions<RefreshToken>, q: Request,
    aliases: seq<string>, familyID: string, r: Option<RefreshToken>)
    requires m == PutAll(RefreshWrites(ops), |ops|, RefreshPartition, RefreshKey)
      && RefreshAnywhere(q, aliases, familyID, m, r)
    requires q.assertionHash != ""
    ensures r.Some? ==>
              exists i: nat ::
                OnBehalf(ops, i, q) && Survives(RefreshWrites(ops), |ops|, i, r.value, RefreshPartition, RefreshKey)
  {
    hide PutAll, Replaces, Stored, RefreshWrite;
    if r.Some? {
      PutAllExact(RefreshWrites(ops), |ops|, r.value, RefreshPartition, RefreshKey);
    }
  }

  lemma {:induction false} OwnIDToken(ops: seq<WriteOp>, m: Partitions<IDToken>, q: Request, aliases: seq<string>,
    home: string, r: Option<IDToken>)
    requires m == PutAll(IDTokenWrites(ops), |ops|, IDTokenPartition, IDTokenKey)
      && FoundAnywhere(m, IDMatch(q, aliases, home), r)
    requires q.assertionHash != ""
    ensures r.Some? ==>
              exists i: nat ::
                OnBehalf(ops, i, q) && Survives(IDTokenWrites(ops), |ops|, i, r.value, IDTokenPartition, IDTokenKey)
  {
    hide PutAll, Replaces, Stored, IDTokenWrite;
    if r.Some? {
      PutAllExact(IDTokenWrites(ops), |ops|, r.value, IDTokenPartition, IDTokenKey);
    }
  }

  lemma {:induction false} OwnAccount(ops: seq<WriteOp>, m: Partitions<Account>, q: Request, aliases: seq<string>,
    home: string, r: Option<Account>)
    requires m == PutAll(AccountWrites(ops), |ops|, AccountPartition, AccountKey)
      && FoundAnywhere(m, AccountMatch(q, aliases, home), r)
    requires q.assertionHash != ""
    ensures r.Some? ==>
              exists i: nat ::
                OnBehalf(ops, i, q) && Survives(AccountWrites(ops), |ops|, i, r.value, AccountPartition, AccountKey)
  {
    hide PutAll, Replaces, Stored, AccountWrite;
    if r.Some? {
      PutAllExact(AccountWrites(ops), |ops|, r.value, AccountPartition, AccountKey);
    }
  }

  /** At most one item has a given place. */
  lemma OneInPlace<V>(m: Partitions<V>, u: V, v: V, part: V -> string, key: V -> string)
    requires Slotted(m, part, key) && Stored(m, u) && Stored(m, v) && Replaces(Some(u), v, part, key)
    ensures u == v
  {
  }

  /** The write `op` is one for the user `home` with the client, tenant and host of the request `q`. */
  predicate SameUser(op: WriteOp, q: Request, host: string, home: string) {
    && op.w.params.host == host && op.w.params.tenant == q.params.tenant && op.w.params.clientID == q.params.clientID
    && op.t.HomeAccountID() == home
  }

  /** The keys of ID tokens leave out the assertion, so the last write to a key decides: a request whose
      access token is found also finds an ID token exactly when the last one written for that user, client,
      tenant and host was written on behalf of the request's own assertion. */
  lemma {:induction false} LastIDTokenDecides(ops: seq<WriteOp>, q: Request, host: string, i: nat, r: Cached)
    requires After(ops, |ops|).MayRead(q, [host], r) && r.accessToken.Some?
    requires i < |ops| && SameUser(ops[i], q, host, r.accessToken.value.homeAccountID)
    requires ops[i].t.idToken.Jwt? && !Rejected(ops[i].w, ops[i].t, ops[i].now)
    requires forall j | i < j < |ops| ::
      !Replaces(IDTokenWrites(ops)[j], OboIDToken(ops[i].w, ops[i].t), IDTokenPartition, IDTokenKey)
    ensures r.idToken.Some? <==> ItemHash(ops[i].w) == q.assertionHash
  {
    hide After, OboCache.Valid, FoundAnywhere, PutAll, IDTokenKey, Stored, Slotted, Replaces, Usable;
    var id := OboIDToken(ops[i].w, ops[i].t);
    AfterIs(ops, |ops|);
    assert Survives(IDTokenWrites(ops), |ops|, i, id, IDTokenPartition, IDTokenKey);
    PutAllExact(IDTokenWrites(ops), |ops|, id, IDTokenPartition, IDTokenKey);
    if r.idToken.Some? {
      WrittenIDToken(ops, After(ops, |ops|).idTokens, q, [host], Home(r.accessToken), r.idToken);
    }
    IDTokenDecides(After(ops, |ops|).idTokens, id, q, host, Home(r.accessToken), r.idToken);
  }

  lemma {:induction false} WrittenIDToken(ops: seq<WriteOp>, m: Partitions<IDToken>, q: Request, aliases: seq<string>,
    home: string, r: Option<IDToken>)
    requires m == PutAll(IDTokenWrites(ops), |ops|, IDTokenPartition, IDTokenKey)
      && FoundAnywhere(m, IDMatch(q, aliases, home), r)
    ensures r.Some? ==> r.value.credentialType == "IdToken"
  {
    hide PutAll, Replaces, Stored, IDTokenWrite;
    if r.Some? {
      PutAllExact(IDTokenWrites(ops), |ops|, r.value, IDTokenPartition, IDTokenKey);
    }
  }

  /** All that a request could find at one host has the same place. */
  lemma IDTokenDecides(m: Partitions<IDToken>, id: IDToken, q: Request, host: string, home: string, r: Option<IDToken>)
    requires Slotted(m, IDTokenPartition, IDTokenKey) && Stored(m, id) && FoundAnywhere(m, IDMatch(q, [host], home), r)
    requires id.homeAccountID == home && id.environment == host && id.realm == q.params.tenant
      && id.clientID == q.params.clientID
    requires r.Some? ==> r.value.credentialType == id.credentialType
    ensures r.Some? <==> id.userAssertionHash == q.assertionHash
  {
    hide Stored, Slotted, Join, ToLower;
    if r.Some? {
      OneInPlace(m, r.value, id, IDTokenPartition, IDTokenKey);
    }
    assert IDMatch(q, [host], home)(id) <==> id.userAssertionHash == q.assertionHash;
  }

  /** The keys of accounts leave out the client, too; once there is an ID token, the last write decides
      whether there is an account. */
  lemma {:induction false} LastAccountDecides(ops: seq<WriteOp>, q: Request, host: string, i: nat, r: Cached)
    requires After(ops, |ops|).MayRead(q, [host], r) && r.idToken.Some?
    requires i < |ops|
      && SameUser(ops[i], q.(params := q.params.(clientID := ops[i].w.params.clientID)), host,
          r.idToken.value.homeAccountID)
    requires ops[i].t.idToken.Jwt? && !Rejected(ops[i].w, ops[i].t, ops[i].now)
    requires forall j | i < j < |ops| ::
      !Replaces(AccountWrites(ops)[j], OboAccount(ops[i].w, ops[i].t), AccountPartition, AccountKey)
    ensures r.account.Some? <==> ItemHash(ops[i].w) == q.assertionHash
  {
    hide After, OboCache.Valid, FoundAnywhere, PutAll, AccountKey, Stored, Slotted, Replaces, Usable;
    var acc := OboAccount(ops[i].w, ops[i].t);
    AfterIs(ops, |ops|);
    assert Survives(AccountWrites(ops), |ops|, i, acc, AccountPartition, AccountKey);
    PutAllExact(AccountWrites(ops), |ops|, acc, AccountPartition, AccountKey);
    AccountDecides(After(ops, |ops|).accounts, acc, q, host, IDHome(r.idToken), r.account);
  }

  lemma AccountDecides(m: Partitions<Account>, acc: Account, q: Request, host: string, home: string, r: Option<Account>)
    requires Slotted(m, AccountPartition, AccountKey) && Stored(m, acc)
      && FoundAnywhere(m, AccountMatch(q, [host], home), r)
    requires acc.homeAccountID == home && acc.environment == host && acc.realm == q.params.tenant
    ensures r.Some? <==> acc.userAssertionHash == q.assertionHash
  {
    hide Stored, Slotted, Join, ToLower;
    if r.Some? {
      OneInPlace(m, r.value, acc, AccountPartition, AccountKey);
    }
    assert AccountMatch(q, [host], home)(acc) <==> acc.userAssertionHash == q.assertionHash;
  }

  /** A request on behalf of the assertion of `w` that the token written for `w` answers. */
  ghost predicate Answers(w: Request, t: TokenResponse, q: Request, aliases: seq<string>) {
    && w.onBehalfOf && q.assertionHash == w.assertionHash && w.params.tenant == q.params.tenant
    && w.params.clientID == q.params.clientID && w.params.host in aliases
    && t.tokenType == q.params.accessTokenType && w.params.authnSchemeKeyID == q.params.authnSchemeKeyID
    && w.params.extCacheKey == q.params.extCacheKey
    && Scopes.Matching(q.params.scopes, Split(Join(t.grantedScopes, [Scopes.SCOPE_SEPARATOR]), Scopes.SCOPE_SEPARATOR))
  }

  /** A read right after an accepted write finds an access token for the same assertion, and, if the token
      found is that user's, the ID token and the account as well. */
  lemma ReadAfterWrite(c: OboCache, w: Request, t: TokenResponse, now: int, q: Request, aliases: seq<string>, r: Cached)
    requires t.accessToken != "" && !Rejected(w, t, now) && Answers(w, t, q, aliases)
    requires c.AfterWrite(w, t, now).MayRead(q, aliases, r)
    ensures r.accessToken.Some? && AccessMatch(q, aliases)(r.accessToken.value)
    ensures t.idToken.Jwt? && r.accessToken.value.homeAccountID == t.HomeAccountID() ==>
              r.idToken.Some? && r.account.Some?
  {
    var at := OboAccessToken(w, t, now);
    hide Placed, Put, Stored, AccessKey, IDTokenKey, AccountKey, Usable;
    PutPlaces(c.accessTokens, AccessPartition, AccessKey(at), at);
    assert AccessMatch(q, aliases)(at);
    if t.idToken.Jwt? && r.accessToken.value.homeAccountID == t.HomeAccountID() {
      var id, acc := OboIDToken(w, t), OboAccount(w, t);
      PutPlaces(c.idTokens, IDTokenPartition, IDTokenKey(id), id);
      PutPlaces(c.accounts, AccountPartition, AccountKey(acc), acc);
      assert IDMatch(q, aliases, t.HomeAccountID())(id) && AccountMatch(q, aliases, t.HomeAccountID())(acc);
    }
  }

  /** The same user, client, tenant and host, but another assertion. */
  ghost predicate Followed(first: WriteOp, second: WriteOp) {
    && first.w.onBehalfOf && second.w.onBehalfOf && first.w.params == second.w.params
    && first.w.assertionHash != "" && second.w.assertionHash != "" && first.w.assertionHash != second.w.assertionHash
    && first.t.HomeAccountID() == second.t.HomeAccountID() && first.t.idToken.Jwt? && second.t.idToken.Jwt?
    && first.t.accessToken != "" && !Rejected(first.w, first.t, first.now) && !Rejected(second.w, second.t, second.now)
  }

  lemma AccessTokenStays(a: WriteOp, b: WriteOp, aliases: seq<string>)
    requires Followed(a, b) && Answers(a.w, a.t, a.w, aliases)
    ensures Keeps(AccessWrites([a, b]), 0, AccessMatch(a.w, aliases), AccessPartition, AccessKey)
  {
    hide AccessKey, Usable;
    var ops := [a, b];
    assert AccessWrites(ops)[0] == AccessWrite(a.w, a.t, a.now) && AccessWrites(ops)[1] == AccessWrite(b.w, b.t, b.now);
    assert AccessMatch(a.w, aliases)(OboAccessToken(a.w, a.t, a.now));
  }

  lemma RestIsReplaced(a: WriteOp, b: WriteOp)
    requires Followed(a, b)
    ensures Replaces(IDTokenWrites([a, b])[1], OboIDToken(a.w, a.t), IDTokenPartition, IDTokenKey)
    ensures Replaces(AccountWrites([a, b])[1], OboAccount(a.w, a.t), AccountPartition, AccountKey)
  {
  }

  /** So when the same user comes with a second assertion, the first one still finds its access token, but
      no ID token and no account. */
  lemma SecondAssertion(a: WriteOp, b: WriteOp, r: Cached)
    requires Followed(a, b) && Answers(a.w, a.t, a.w, [a.w.params.host])
    requires After([a, b], 2).MayRead(a.w, [a.w.params.host], r)
    ensures r.accessToken == Some(OboAccessToken(a.w, a.t, a.now)) && r.idToken.None? && r.account.None?
  {
    var ops := [a, b];
    hide After, OboCache.MayRead, Keeps, AccessMatch, Rejected, Replaces, OboAccessToken, OboIDToken, OboAccount;
    AccessTokenStays(a, b, [a.w.params.host]);
    RestIsReplaced(a, b);
    ReadInRun(ops, a.w, [a.w.params.host], r);
    OwnItemsOnly(ops, a.w, [a.w.params.host], r);
    assert !OnBehalf(ops, 1, a.w);
  }
}
