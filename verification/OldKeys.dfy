/** What reads of a flat cache may answer while entries under old keys are left in it. */
module OldKeys {
  import opened Wrappers
  import opened Strings
  import opened Items
  import opened Storage
  import Scopes
  import Upgrade

  /** What a scan that hits the entry under `k` hands out: the entry under the lowercase key, if there is one. */
  function Handed<V>(m: map<string, V>, k: string): V
    requires k in m
  {
    if ToLower(k) in m then m[ToLower(k)] else m[k]
  }

  lemma TouchHands<V>(m: map<string, V>, k: string)
    requires k in m
    ensures Upgrade.Touch(m, k).0 == Some(Handed(m, k))
  {
    LowerFixed(k);
  }

  // ----- every read can be completed -----

  lemma SomeScan<V>(m: map<string, V>, matches: (string, V) -> bool) returns (r: Option<V>, m': map<string, V>)
    ensures Scanned(m, matches, r, m')
  {
    r, m' := None, m;
    if k :| k in m && matches(k, m[k]) {
      r, m' := Upgrade.Touch(m, k).0, Upgrade.Touch(m, k).1;
      TouchHands(m, k);
    }
  }

  lemma SomeRefresh(q: AuthParams, aliases: seq<string>, app: Option<AppMetaData>, m: map<string, RefreshToken>)
    returns (r: Option<RefreshToken>, m': map<string, RefreshToken>)
    ensures ReadsRefresh(q, aliases, app, m, r, m')
  {
    r, m' := None, m;
    if app.Some? {
      r, m' := SomeScan(m, RefreshMatcher(q, aliases, app.value.familyID, m));
    }
  }

  /** The search that decides: the preferred one, if it finds anything. */
  ghost function RefreshMatcher(q: AuthParams, aliases: seq<string>, familyID: string, m: map<string, RefreshToken>)
    : (string, RefreshToken) -> bool
  {
    var first := if familyID == "" then ClientMatcher(q, aliases) else FamilyMatcher(q, aliases);
    var second := if familyID == "" then FamilyMatcher(q, aliases) else ClientMatcher(q, aliases);
    if exists k :: k in m && first(k, m[k]) then first else second
  }

  lemma RefreshIsScan(q: AuthParams, aliases: seq<string>, familyID: string,
    m: map<string, RefreshToken>, r: Option<RefreshToken>, m': map<string, RefreshToken>)
    ensures FoundRefresh(q, aliases, familyID, m, r, m') <==> Scanned(m, RefreshMatcher(q, aliases, familyID, m), r, m')
  {
  }

  lemma SomeRead(c: Cache, q: AuthParams, aliases: seq<string>) returns (r: Cached, c': Cache)
    ensures MayRead(c, q, aliases, r, c')
  {
    hide Scanned, ReadsRefresh, AccessMatcher, IDMatcher, AccountMatcher, AppMatcher;
    var at, ats := SomeScan(c.accessTokens, AccessMatcher(q, aliases));
    r, c' := Cached(at, None, None, None), c.(accessTokens := ats);
    if q.homeAccountID != "" {
      var id, ids := SomeScan(c.idTokens, IDMatcher(q, aliases));
      var acc, accs := SomeScan(c.accounts, AccountMatcher(q, aliases));
      var app, apps := SomeScan(c.appMetaData, AppMatcher(q, aliases));
      var rt, rts := SomeRefresh(q, aliases, app, c.refreshTokens);
      r, c' := Cached(at, id, rt, acc), Cache(ats, rts, ids, accs, apps);
    }
  }

  // ----- whether the token found answers the request -----

  /** No upgrade trades a token that answers the request for one that does not. */
  ghost predicate UpgradesServe(m: map<string, AccessToken>, q: AuthParams, aliases: seq<string>) {
    forall k | k in m && HasUpper(k) && MatchesAccess(q, aliases, k, m[k]) && ToLower(k) in m ::
      MatchesAccess(q, aliases, ToLower(k), m[ToLower(k)])
  }

  /** The token answers the request under its own key. */
  predicate Fits(q: AuthParams, aliases: seq<string>, at: AccessToken) { MatchesAccess(q, aliases, AccessKey(at), at) }

  lemma {:induction false} HandedFits(m: map<string, AccessToken>, q: AuthParams, aliases: seq<string>, k: string)
    requires KeyedBy(m, AccessKey) && !HasUpper(q.extCacheKey) && k in m && MatchesAccess(q, aliases, k, m[k])
    ensures Fits(q, aliases, Handed(m, k)) <==>
      (HasUpper(k) && ToLower(k) in m ==> MatchesAccess(q, aliases, ToLower(k), m[ToLower(k)]))
  {
    LowerFixed(k);
    assert AccessKey(Handed(m, k)) == ToLower(k);
    hide AccessKey;
    if q.extCacheKey != "" {
      LowerContains(k, q.extCacheKey);
    }
  }

  /** Whatever token a read may find answers the request. */
  ghost predicate AllFit(c: Cache, q: AuthParams, aliases: seq<string>) {
    forall r, c' | MayRead(c, q, aliases, r, c') && r.accessToken.Some? :: Fits(q, aliases, r.accessToken.value)
  }

  lemma FoundFits(c: Cache, q: AuthParams, aliases: seq<string>, r: Cached, c': Cache)
    requires c.Valid() && !HasUpper(q.extCacheKey) && UpgradesServe(c.accessTokens, q, aliases)
    requires MayRead(c, q, aliases, r, c') && r.accessToken.Some?
    ensures Fits(q, aliases, r.accessToken.value)
  {
    var m := c.accessTokens;
    var k :| k in m && AccessMatcher(q, aliases)(k, m[k]) && (r.accessToken, c'.accessTokens) == Upgrade.Touch(m, k);
    TouchHands(m, k);
    HandedFits(m, q, aliases, k);
  }

  /** In a cache keyed by its values, every token that a read may find answers the request exactly if no
      upgrade trades one that does for one that does not. */
  lemma FoundFitsExactly(c: Cache, q: AuthParams, aliases: seq<string>)
    requires c.Valid() && !HasUpper(q.extCacheKey)
    ensures AllFit(c, q, aliases) <==> UpgradesServe(c.accessTokens, q, aliases)
  {
    var m := c.accessTokens;
    if UpgradesServe(m, q, aliases) {
      forall r, c' | MayRead(c, q, aliases, r, c') && r.accessToken.Some?
        ensures Fits(q, aliases, r.accessToken.value)
      {
        FoundFits(c, q, aliases, r, c');
      }
    } else {
      var k :| k in m && HasUpper(k) && MatchesAccess(q, aliases, k, m[k]) && ToLower(k) in m
        && !MatchesAccess(q, aliases, ToLower(k), m[ToLower(k)]);
      HandedFits(m, q, aliases, k);
      HitRead(c, q, aliases, k);
    }
  }

  /** Any matching token may be the one that a read hits. */
  lemma HitRead(c: Cache, q: AuthParams, aliases: seq<string>, k: string)
    requires k in c.accessTokens && MatchesAccess(q, aliases, k, c.accessTokens[k])
    ensures exists r, c' :: MayRead(c, q, aliases, r, c') && r.accessToken == Some(Handed(c.accessTokens, k))
  {
    var m := c.accessTokens;
    TouchHands(m, k);
    assert AccessMatcher(q, aliases)(k, m[k]);
    assert Scanned(m, AccessMatcher(q, aliases), Some(Handed(m, k)), Upgrade.Touch(m, k).1);
    hide Scanned, ReadsRefresh, Handed, AccessMatcher;
    var r, c' := SomeRead(c, q, aliases);
    assert MayRead(c, q, aliases, r.(accessToken := Some(Handed(m, k))), c'.(accessTokens := Upgrade.Touch(m, k).1));
  }

  /** Two tokens of one user that are bound to different keys; the key ID is no part of the cache key. */
  const OLD_TOKEN :=
    AccessToken("Home", "host", "realm", "AccessToken", "client", "secret", "read", 0, 0, 0, 0, "", "pop", "A", "")
  const NEW_TOKEN := OLD_TOKEN.(authnSchemeKeyID := "B")
  const OLD_KEY := Join(AccessKeyParts(OLD_TOKEN), KEY_SEPARATOR)

  const OLD_REQUEST := AuthParams("Home", "host", "realm", "client", ["read"], "A", "pop", "")

  lemma OldKeyFacts()
    ensures HasUpper(OLD_KEY) && ToLower(OLD_KEY) == AccessKey(OLD_TOKEN) == AccessKey(NEW_TOKEN)
  {
    assert OLD_KEY[0] == 'H' && OLD_KEY[0] in OLD_KEY;
    hide ToLower, Join;
  }

  lemma OldTokenAnswers(k: string)
    ensures MatchesAccess(OLD_REQUEST, ["host"], k, OLD_TOKEN)
  {
    hide ToLower, Join, Split, Scopes.Matching, AccessKeyParts;
    OneScopeMatches("read");
  }

  lemma NewTokenFails(k: string)
    ensures !MatchesAccess(OLD_REQUEST, ["host"], k, NEW_TOKEN)
  {
    assert NEW_TOKEN.authnSchemeKeyID == "B" && OLD_REQUEST.authnSchemeKeyID == "A";
    assert "B"[0] != "A"[0] && |NEW_TOKEN.tokenType| == 3;
    hide ToLower, Join, Split;
  }

  /** The one sits under an old key, the other under the same key in lower case.  A request that names the
      first is handed the second. */
  lemma UpgradeTradesToken()
    ensures var c := EMPTY.(accessTokens := map[OLD_KEY := OLD_TOKEN, ToLower(OLD_KEY) := NEW_TOKEN]);
      && c.Valid() && !UpgradesServe(c.accessTokens, OLD_REQUEST, ["host"])
      && exists r, c' ::
        MayRead(c, OLD_REQUEST, ["host"], r, c') && r.accessToken == Some(NEW_TOKEN)
          && !Fits(OLD_REQUEST, ["host"], NEW_TOKEN)
  {
    OldKeyFacts();
    OldTokenAnswers(OLD_KEY);
    LowerFixed(OLD_KEY);
    NewTokenFails(ToLower(OLD_KEY));
    TradeAt(OLD_KEY);
  }

  lemma {:induction false} TradeAt(k: string)
    requires HasUpper(k) && ToLower(k) != k && ToLower(ToLower(k)) == ToLower(k)
    requires ToLower(k) == AccessKey(OLD_TOKEN) == AccessKey(NEW_TOKEN)
    requires MatchesAccess(OLD_REQUEST, ["host"], k, OLD_TOKEN)
      && !MatchesAccess(OLD_REQUEST, ["host"], ToLower(k), NEW_TOKEN)
    ensures var c := EMPTY.(accessTokens := map[k := OLD_TOKEN, ToLower(k) := NEW_TOKEN]);
      && c.Valid() && !UpgradesServe(c.accessTokens, OLD_REQUEST, ["host"])
      && exists r, c' ::
        MayRead(c, OLD_REQUEST, ["host"], r, c') && r.accessToken == Some(NEW_TOKEN)
          && !Fits(OLD_REQUEST, ["host"], NEW_TOKEN)
  {
    hide AccessKey, ToLower, MatchesAccess, HasUpper, MayRead;
    var c := EMPTY.(accessTokens := map[k := OLD_TOKEN, ToLower(k) := NEW_TOKEN]);
    HitRead(c, OLD_REQUEST, ["host"], k);
  }

  lemma {:induction false} OneScopeMatches(scope: string)
    requires Scopes.SCOPE_SEPARATOR !in scope
    ensures Scopes.Matching([scope], Split(scope, Scopes.SCOPE_SEPARATOR))
  {
    assert Join([scope], [Scopes.SCOPE_SEPARATOR]) == scope;
    SplitJoin([scope], Scopes.SCOPE_SEPARATOR);
    Scopes.CountingIsInclusion([scope], [scope]);
    assert Scopes.Holds([scope], scope) by { assert scope in [scope]; }
  }

  // ----- removals that change what others read -----

  /** No entry that goes stands in the way of the upgrade of one that stays and matches. */
  ghost predicate NoneInTheWay<V>(m: map<string, V>, drop: V -> bool, matches: (string, V) -> bool) {
    forall k | k in m && HasUpper(k) && matches(k, m[k]) && ToLower(k) in m :: !drop(m[ToLower(k)])
  }

  /** Then a scan after the removal finds what one before it could, and the two commute. */
  lemma ScanBack<V(!new)>(m: map<string, V>, drop: V -> bool, matches: (string, V) -> bool, r: Option<V>,
    left: map<string, V>)
    returns (m': map<string, V>)
    requires forall k, v :: matches(k, v) ==> !drop(v)
    requires NoneInTheWay(m, drop, matches) && Scanned(Without(m, drop), matches, r, left)
    ensures Scanned(m, matches, r, m') && left == Without(m', drop)
  {
    m' := m;
    if r.Some? {
      var k :| k in Without(m, drop) && matches(k, m[k]) && (r, left) == Upgrade.Touch(Without(m, drop), k);
      m' := Upgrade.Touch(m, k).1;
      TouchCommutes(m, drop, k);
      assert (r, m') == Upgrade.Touch(m, k);
    } else {
      assert forall k | k in m && matches(k, m[k]) :: k in Without(m, drop);
    }
  }

  lemma {:induction false} TouchCommutes<V>(m: map<string, V>, drop: V -> bool, k: string)
    requires k in m && !drop(m[k]) && (HasUpper(k) && ToLower(k) in m ==> !drop(m[ToLower(k)]))
    ensures Upgrade.Touch(Without(m, drop), k) == (Upgrade.Touch(m, k).0, Without(Upgrade.Touch(m, k).1, drop))
  {
    LowerFixed(k);
    var l, left := Upgrade.Touch(Without(m, drop), k).1, Without(Upgrade.Touch(m, k).1, drop);
    assert l.Keys == left.Keys;
    assert l == left;
  }

  /** Otherwise the upgrade brings out an entry that no scan, for whatever, could bring out before. */
  lemma {:induction false} ScanChanges<V>(m: map<string, V>, drop: V -> bool, matches: (string, V) -> bool,
    key: V -> string, k: string)
    requires KeyedBy(m, key) && k in m && HasUpper(k) && matches(k, m[k]) && !drop(m[k])
    requires ToLower(k) in m && drop(m[ToLower(k)])
    ensures Scanned(Without(m, drop), matches, Some(m[k]), Upgrade.Touch(Without(m, drop), k).1)
    ensures forall matches', m' :: !Scanned(m, matches', Some(m[k]), m')
  {
    LowerFixed(k);
    var left := Without(m, drop);
    assert k in left && (Some(m[k]), Upgrade.Touch(left, k).1) == Upgrade.Touch(left, k);
    forall x | x in m ensures Handed(m, x) != m[k] {
      LowerFixed(x);
    }
    forall x | x in m ensures Upgrade.Touch(m, x).0 != Some(m[k]) { TouchHands(m, x); }
  }

  predicate Elsewhere(account: Account, q: AuthParams, aliases: seq<string>) {
    q.homeAccountID != account.homeAccountID || account.environment !in aliases
  }

  /** Nothing that goes stands in the way of an upgrade that the read may come to. */
  ghost predicate Undisturbed(c: Cache, account: Account, clientID: string, q: AuthParams, aliases: seq<string>) {
    && NoneInTheWay(c.accessTokens, AccessTokensOf(account), AccessMatcher(q, aliases))
    && (q.homeAccountID != "" ==>
          && NoneInTheWay(c.idTokens, IDTokensOf(account), IDMatcher(q, aliases))
          && NoneInTheWay(c.accounts, AccountsOf(account), AccountMatcher(q, aliases))
          && forall app, apps | Scanned(c.appMetaData, AppMatcher(q, aliases), Some(app), apps) ::
               RefreshUndisturbed(c, account, clientID, q, aliases, app))
  }

  ghost predicate RefreshUndisturbed(c: Cache, account: Account, clientID: string, q: AuthParams,
    aliases: seq<string>, app: AppMetaData) {
    NoneInTheWay(c.refreshTokens, RefreshTokensOf(account, clientID),
        RefreshMatcher(q, aliases, app.familyID, c.refreshTokens))
  }

  /** Some read before the removal could have answered the same, and have left the same behind once the
      account is removed. */
  ghost predicate CouldRead(c: Cache, account: Account, clientID: string, q: AuthParams, aliases: seq<string>,
    r: Cached, left: Cache) {
    exists c' :: MayRead(c, q, aliases, r, c') && AfterRemove(c', account, clientID) == left
  }

  ghost predicate Unaffected(c: Cache, account: Account, clientID: string, q: AuthParams, aliases: seq<string>) {
    forall r, left | MayRead(AfterRemove(c, account, clientID), q, aliases, r, left) ::
      CouldRead(c, account, clientID, q, aliases, r, left)
  }

  /** For another user, or in another environment, reading after a removal is as good as reading before it,
      exactly if no entry that goes stands in the way of an upgrade; without old keys none does. */
  lemma ReadElsewhere(c: Cache, account: Account, clientID: string, q: AuthParams, aliases: seq<string>)
    requires Elsewhere(account, q, aliases)
    ensures Undisturbed(c, account, clientID, q, aliases) ==> Unaffected(c, account, clientID, q, aliases)
    ensures c.Valid() && Unaffected(c, account, clientID, q, aliases) ==> Undisturbed(c, account, clientID, q, aliases)
    ensures c.AllMigrated() ==> Undisturbed(c, account, clientID, q, aliases)
  {
    hide MayRead, NoneInTheWay, Scanned, Cache.Valid, AfterRemove, Elsewhere;
    if Undisturbed(c, account, clientID, q, aliases) {
      forall r, left | MayRead(AfterRemove(c, account, clientID), q, aliases, r, left)
        ensures CouldRead(c, account, clientID, q, aliases, r, left)
      {
        ReadBack(c, account, clientID, q, aliases, r, left);
      }
    } else if c.Valid() {
      Disturbed(c, account, clientID, q, aliases);
    }
    if c.AllMigrated() {
      NothingOld(c, account, clientID, q, aliases);
    }
  }

  lemma NothingOld(c: Cache, account: Account, clientID: string, q: AuthParams, aliases: seq<string>)
    requires c.AllMigrated()
    ensures Undisturbed(c, account, clientID, q, aliases)
  {
    hide Scanned, RefreshMatcher, AccessMatcher, IDMatcher, AccountMatcher, AppMatcher, HasUpper, ToLower;
  }

  /** The removal takes no token that either search could find, so the same search decides. */
  lemma SameRefreshMatcher(account: Account, clientID: string, q: AuthParams, aliases: seq<string>, familyID: string,
    m: map<string, RefreshToken>)
    requires Elsewhere(account, q, aliases)
    ensures var drop, matches := RefreshTokensOf(account, clientID), RefreshMatcher(q, aliases, familyID, m);
      && RefreshMatcher(q, aliases, familyID, Without(m, drop)) == matches
      && forall k, v :: matches(k, v) ==> !drop(v)
  {
    var drop := RefreshTokensOf(account, clientID);
    var byClient, byFamily := ClientMatcher(q, aliases), FamilyMatcher(q, aliases);
    assert forall k | k in m && (byClient(k, m[k]) || byFamily(k, m[k])) :: k in Without(m, drop);
  }

  lemma RefreshBack(account: Account, clientID: string, q: AuthParams, aliases: seq<string>, app: Option<AppMetaData>,
    m: map<string, RefreshToken>, r: Option<RefreshToken>, left: map<string, RefreshToken>)
    returns (m': map<string, RefreshToken>)
    requires Elsewhere(account, q, aliases)
    requires app.Some? ==>
              NoneInTheWay(m, RefreshTokensOf(account, clientID), RefreshMatcher(q, aliases, app.value.familyID, m))
    requires ReadsRefresh(q, aliases, app, Without(m, RefreshTokensOf(account, clientID)), r, left)
    ensures ReadsRefresh(q, aliases, app, m, r, m') && left == Without(m', RefreshTokensOf(account, clientID))
  {
    m' := m;
    if app.Some? {
      var drop, matches := RefreshTokensOf(account, clientID), RefreshMatcher(q, aliases, app.value.familyID, m);
      SameRefreshMatcher(account, clientID, q, aliases, app.value.familyID, m);
      RefreshIsScan(q, aliases, app.value.familyID, Without(m, drop), r, left);
      hide Scanned, FoundRefresh, RefreshMatcher, NoneInTheWay, Without;
      m' := ScanBack(m, drop, matches, r, left);
      RefreshIsScan(q, aliases, app.value.familyID, m, r, m');
    }
  }

  lemma ReadBack(c: Cache, account: Account, clientID: string, q: AuthParams, aliases: seq<string>, r: Cached,
    left: Cache)
    requires Elsewhere(account, q, aliases) && Undisturbed(c, account, clientID, q, aliases)
    requires MayRead(AfterRemove(c, account, clientID), q, aliases, r, left)
    ensures CouldRead(c, account, clientID, q, aliases, r, left)
  {
    hide Scanned, ReadsRefresh, NoneInTheWay, AppMatcher, Without, RefreshMatcher, RefreshTokensOf;
    var ats := ScanBack(c.accessTokens, AccessTokensOf(account), AccessMatcher(q, aliases), r.accessToken,
        left.accessTokens);
    var c' := c.(accessTokens := ats);
    if q.homeAccountID != "" {
      var ids := ScanBack(c.idTokens, IDTokensOf(account), IDMatcher(q, aliases), r.idToken, left.idTokens);
      var accs := ScanBack(c.accounts, AccountsOf(account), AccountMatcher(q, aliases), r.account, left.accounts);
      var app :| Scanned(c.appMetaData, AppMatcher(q, aliases), app, left.appMetaData)
        && ReadsRefresh(q, aliases, app, Without(c.refreshTokens, RefreshTokensOf(account, clientID)), r.refreshToken,
            left.refreshTokens);
      if app.Some? {
        assert RefreshUndisturbed(c, account, clientID, q, aliases, app.value);
      }
      var rts := RefreshBack(account, clientID, q, aliases, app, c.refreshTokens, r.refreshToken, left.refreshTokens);
      c' := Cache(ats, rts, ids, accs, left.appMetaData);
    }
    assert MayRead(c, q, aliases, r, c') && AfterRemove(c', account, clientID) == left;
  }

  lemma Disturbed(c: Cache, account: Account, clientID: string, q: AuthParams, aliases: seq<string>)
    requires Elsewhere(account, q, aliases) && c.Valid() && !Undisturbed(c, account, clientID, q, aliases)
    ensures !Unaffected(c, account, clientID, q, aliases)
  {
    hide Scanned, ReadsRefresh, Without, AppMatcher, RefreshMatcher, KeyedBy, NoneInTheWay, HasUpper, ToLower;
    hide AccessKey, RefreshKey, IDTokenKey, AccountKey, AppKey;
    var after := AfterRemove(c, account, clientID);
    var r, left := SomeRead(after, q, aliases);
    if !NoneInTheWay(c.accessTokens, AccessTokensOf(account), AccessMatcher(q, aliases)) {
      var v, m' := ScanDisturbed(c.accessTokens, AccessTokensOf(account), AccessMatcher(q, aliases), AccessKey);
      assert MayRead(after, q, aliases, r.(accessToken := Some(v)), left.(accessTokens := m'));
    } else if !NoneInTheWay(c.idTokens, IDTokensOf(account), IDMatcher(q, aliases)) {
      var v, m' := ScanDisturbed(c.idTokens, IDTokensOf(account), IDMatcher(q, aliases), IDTokenKey);
      assert MayRead(after, q, aliases, r.(idToken := Some(v)), left.(idTokens := m'));
    } else if !NoneInTheWay(c.accounts, AccountsOf(account), AccountMatcher(q, aliases)) {
      var v, m' := ScanDisturbed(c.accounts, AccountsOf(account), AccountMatcher(q, aliases), AccountKey);
      assert MayRead(after, q, aliases, r.(account := Some(v)), left.(accounts := m'));
    } else {
      var app, apps :| Scanned(c.appMetaData, AppMatcher(q, aliases), Some(app), apps)
        && !RefreshUndisturbed(c, account, clientID, q, aliases, app);
      var v, m' := RefreshDisturbed(c.refreshTokens, account, clientID, q, aliases, app);
      assert MayRead(after, q, aliases, r.(refreshToken := Some(v)), left.(refreshTokens := m', appMetaData := apps));
    }
  }

  lemma ScanDisturbed<V(!new)>(m: map<string, V>, drop: V -> bool, matches: (string, V) -> bool, key: V -> string)
    returns (v: V, left: map<string, V>)
    requires forall k, v :: matches(k, v) ==> !drop(v)
    requires KeyedBy(m, key) && !NoneInTheWay(m, drop, matches)
    ensures Scanned(Without(m, drop), matches, Some(v), left)
    ensures forall matches', m' :: !Scanned(m, matches', Some(v), m')
  {
    var k :| k in m && HasUpper(k) && matches(k, m[k]) && ToLower(k) in m && drop(m[ToLower(k)]);
    v, left := m[k], Upgrade.Touch(Without(m, drop), k).1;
    ScanChanges(m, drop, matches, key, k);
  }

  lemma RefreshDisturbed(m: map<string, RefreshToken>, account: Account, clientID: string, q: AuthParams,
    aliases: seq<string>, app: AppMetaData)
    returns (v: RefreshToken, left: map<string, RefreshToken>)
    requires Elsewhere(account, q, aliases) && KeyedBy(m, RefreshKey)
    requires !NoneInTheWay(m, RefreshTokensOf(account, clientID), RefreshMatcher(q, aliases, app.familyID, m))
    ensures ReadsRefresh(q, aliases, Some(app), Without(m, RefreshTokensOf(account, clientID)), Some(v), left)
    ensures forall app', m' :: !ReadsRefresh(q, aliases, app', m, Some(v), m')
  {
    var drop := RefreshTokensOf(account, clientID);
    SameRefreshMatcher(account, clientID, q, aliases, app.familyID, m);
    hide Scanned, FoundRefresh, RefreshMatcher, NoneInTheWay, Without, KeyedBy;
    v, left := ScanDisturbed(m, drop, RefreshMatcher(q, aliases, app.familyID, m), RefreshKey);
    RefreshIsScan(q, aliases, app.familyID, Without(m, drop), Some(v), left);
    forall app': AppMetaData, m' ensures !FoundRefresh(q, aliases, app'.familyID, m, Some(v), m') {
      RefreshIsScan(q, aliases, app'.familyID, m, Some(v), m');
    }
  }
}
