/** Silent acquisition against an external cache: which partition is read, and which is written back. */
module SilentKeys {
  import opened Wrappers

  datatype AuthorizationType =
    Unknown | AuthCode | ClientCredentials | OnBehalfOf | RefreshToken | AccountByID | UserFIC

  datatype RequestType = UnknownRequest | Public | Confidential

  datatype AuthParams = AuthParams(
    authorizationType: AuthorizationType, isAppTokenCache: bool, isConfidentialClient: bool,
    clientID: string, tenant: string, homeAccountID: string, assertionHash: string, extCacheKey: string)

  /** The parameters of one silent call.  `tenantID` is the tenant as the caller spelled it. */
  datatype Silent = Silent(
    tenantID: string, isAppCache: bool, authorizationType: AuthorizationType, requestType: RequestType,
    homeAccountID: string, assertionHash: string, extCacheKey: string, claims: string)

  /** What a successful token request brings. */
  datatype Reply = Reply(homeAccountID: string, declined: bool)

  /** Everything that the call finds outside: errors of the external cache and of the managers, the cached
      token, if the second read found it unchanged, and the identity provider's answer (`None` on error). */
  datatype World = World(
    replaceFails: bool, replaceAgainFails: bool, exportFails: bool, readFails: bool, writeFails: bool,
    usable: bool, due: bool, same: bool, refreshToken: bool, reply: Option<Reply>)

  /** Calls of the external cache accessor, with the manager they pass along. */
  datatype CacheCall = Replace(partitioned: bool, key: string) | Export(partitioned: bool, key: string)

  function AppKey(p: AuthParams): string {
    p.clientID + "_" + p.tenant + (if p.extCacheKey != "" then "_" + p.extCacheKey else "") + "_AppTokenCache"
  }

  /** The partition that is read. */
  function CacheKey(p: AuthParams, isAppCache: bool): string {
    if p.authorizationType == OnBehalfOf then p.assertionHash
    else if p.authorizationType == ClientCredentials || isAppCache then AppKey(p)
    else if p.authorizationType in {RefreshToken, AccountByID, UserFIC} then p.homeAccountID
    else ""
  }

  /** The partition that a token is written to. */
  function TokenCacheKey(p: AuthParams, r: Reply): string {
    if p.authorizationType == OnBehalfOf then p.assertionHash
    else if p.authorizationType == ClientCredentials || p.isAppTokenCache then AppKey(p)
    else if p.isConfidentialClient || p.authorizationType == RefreshToken then r.homeAccountID
    else ""
  }

  /** All calls use one partition key. */
  predicate OneKey(calls: seq<CacheCall>) { forall i, k | 0 <= i < k < |calls| :: calls[i].key == calls[k].key }

  /** Acting on behalf of a user or for the app itself, any refresh error is swallowed. */
  predicate Swallows(silent: Silent) { silent.isAppCache || silent.authorizationType == OnBehalfOf }

  /** There is a usable token, it is due for a refresh, and this call is the one to refresh it; `taken`
      tells if another call holds the tenant's flag. */
  predicate Refreshes(silent: Silent, w: World, taken: bool) {
    silent.claims == "" && w.usable && w.due && !taken && w.same
  }

  predicate Redeems(silent: Silent, w: World) { !(silent.claims == "" && w.usable) && w.refreshToken }

  /** A new token comes in. */
  predicate GetsToken(silent: Silent, w: World, taken: bool) {
    && w.reply.Some?
    && (Redeems(silent, w) ||
        (Refreshes(silent, w, taken) && (Swallows(silent) || silent.requestType != UnknownRequest)))
  }

  lemma OneKeyIs(first: CacheCall, back: seq<CacheCall>)
    requires |back| == 1 || (|back| == 2 && back[1].key == back[0].key)
    ensures OneKey([first] + back) <==> first.key == back[0].key
  {
    var all := [first] + back;
    assert all[0] == first && all[1] == back[0];
  }

  class Client {
    const configured: AuthParams
    const hasAccessor: bool
    var canRefresh: map<string, bool>
    var calls: seq<CacheCall>

    constructor (configured: AuthParams, hasAccessor: bool)
      ensures this.configured == configured && this.hasAccessor == hasAccessor && canRefresh == map[] && calls == []
    {
      this.configured, this.hasAccessor, canRefresh, calls := configured, hasAccessor, map[], [];
    }

    /** The parameters of a silent call, as they are when the cache is read and when it is written. */
    function Params(silent: Silent, tenant: string): AuthParams {
      configured.(
        authorizationType := if silent.authorizationType == OnBehalfOf then OnBehalfOf else RefreshToken,
        isAppTokenCache := silent.isAppCache, tenant := tenant, homeAccountID := silent.homeAccountID,
        assertionHash := silent.assertionHash, extCacheKey := silent.extCacheKey)
    }

    /** What a write-back calls.  Whatever manager was written, the flat one is exported. */
    function WriteBack(p: AuthParams, r: Reply, w: World): seq<CacheCall> {
      if !hasAccessor then []
      else
        var replace := Replace(p.authorizationType == OnBehalfOf, TokenCacheKey(p, r));
        if w.replaceAgainFails || w.writeFails || r.declined then [replace] else [replace, Export(false, replace.key)]
    }

    predicate WriteBackSucceeds(r: Reply, w: World) {
      !w.writeFails && !r.declined && !(hasAccessor && (w.replaceAgainFails || w.exportFails))
    }

    /** The first read of both caches succeeds. */
    predicate Starts(w: World) { !(hasAccessor && w.replaceFails) && !w.readFails }

    /** What a silent call asks of the external cache. */
    function Made(silent: Silent, tenant: string, w: World, taken: bool): seq<CacheCall> {
      var p := Params(silent, tenant);
      (if hasAccessor then [Replace(silent.authorizationType == OnBehalfOf, CacheKey(p, silent.isAppCache))] else [])
      + (if Starts(w) && GetsToken(silent, w, taken) then WriteBack(p, w.reply.value, w) else [])
    }

    /** When it succeeds: with a new token that could be written back, or with a usable one that it did not try
        to refresh, or failed to refresh without being a public client. */
    predicate Succeeds(silent: Silent, w: World, taken: bool) {
      && Starts(w)
      && if GetsToken(silent, w, taken) then WriteBackSucceeds(w.reply.value, w)
         else
           && silent.claims == "" && w.usable
           && (Refreshes(silent, w, taken) ==> Swallows(silent) || silent.requestType == Confidential)
    }

    /** All that a call asks of the external cache concerns one partition exactly if it acts on behalf of a
        user, is for the app cache, gets no new token, or gets one of the very account it asked for. */
    lemma OneKeyExactly(silent: Silent, tenant: string, w: World, taken: bool)
      ensures OneKey(Made(silent, tenant, w, taken)) <==>
        || !hasAccessor || !Starts(w) || !GetsToken(silent, w, taken)
        || Swallows(silent) || w.reply.value.homeAccountID == silent.homeAccountID
    {
      if hasAccessor && Starts(w) && GetsToken(silent, w, taken) {
        var p := Params(silent, tenant);
        OneKeyIs(Replace(silent.authorizationType == OnBehalfOf, CacheKey(p, silent.isAppCache)),
            WriteBack(p, w.reply.value, w));
      }
    }

    /** Which partition each call of a run concerns: on behalf of a user, that of the assertion; for the app
        itself, that of the client and the tenant, and of the extra cache key if there is one; and otherwise
        the account's that the call is for when it reads, and the token's when it writes it back. */
    lemma KeysAre(silent: Silent, tenant: string, w: World, taken: bool)
      ensures var made := Made(silent, tenant, w, taken);
        && (silent.authorizationType == OnBehalfOf ==> forall c | c in made :: c.key == silent.assertionHash)
        && (silent.authorizationType != OnBehalfOf && silent.isAppCache && silent.extCacheKey == "" ==>
              forall c | c in made :: c.key == configured.clientID + "_" + tenant + "_AppTokenCache")
        && (silent.authorizationType != OnBehalfOf && silent.isAppCache && silent.extCacheKey != "" ==>
              forall c | c in made ::
                c.key == configured.clientID + "_" + tenant + "_" + silent.extCacheKey + "_AppTokenCache")
        && (silent.authorizationType != OnBehalfOf && !silent.isAppCache ==>
              && (made != [] ==> made[0].key == silent.homeAccountID)
              && forall i | 0 < i < |made| :: w.reply.Some? && made[i].key == w.reply.value.homeAccountID)
    {
      var p := Params(silent, tenant);
      var made := Made(silent, tenant, w, taken);
      assert CacheKey(p, silent.isAppCache) == if silent.authorizationType == OnBehalfOf then silent.assertionHash
        else if silent.isAppCache then AppKey(p) else silent.homeAccountID;
      assert w.reply.Some? ==> TokenCacheKey(p, w.reply.value) == if silent.authorizationType == OnBehalfOf
        then silent.assertionHash else if silent.isAppCache then AppKey(p) else w.reply.value.homeAccountID;
      assert AppKey(p) == if silent.extCacheKey == "" then configured.clientID + "_" + tenant + "_AppTokenCache"
        else configured.clientID + "_" + tenant + "_" + silent.extCacheKey + "_AppTokenCache";
      hide CacheKey, TokenCacheKey, AppKey, Params, GetsToken, Starts;
    }

    /** The call gets as far as the export. */
    predicate Exports(silent: Silent, w: World, taken: bool) {
      && hasAccessor && Starts(w) && GetsToken(silent, w, taken)
      && !w.replaceAgainFails && !w.writeFails && !w.reply.value.declined
    }

    /** The manager that was written is the one that is exported. */
    ghost predicate ExportsWhatItWrote(silent: Silent, made: seq<CacheCall>) {
      forall c | c in made && c.Export? :: c.partitioned <==> silent.authorizationType == OnBehalfOf
    }

    /** A new token goes into the partitioned manager on behalf of a user, and into the flat one otherwise;
        what is exported is always the flat one.  So the manager that was written is exported exactly if the
        call is not on behalf of a user, or does not get as far as the export. */
    lemma ExportExactly(silent: Silent, tenant: string, w: World, taken: bool)
      ensures ExportsWhatItWrote(silent, Made(silent, tenant, w, taken))
        <==> silent.authorizationType != OnBehalfOf || !Exports(silent, w, taken)
      ensures forall c | c in Made(silent, tenant, w, taken) ::
        c.partitioned <==> c.Replace? && silent.authorizationType == OnBehalfOf
    {
      var made := Made(silent, tenant, w, taken);
      if Exports(silent, w, taken) {
        assert made[2] in made && made[2] == Export(false, TokenCacheKey(Params(silent, tenant), w.reply.value));
      }
    }

    lemma MadeIs(silent: Silent, tenant: string, w: World, taken: bool, before: seq<CacheCall>, first: seq<CacheCall>)
      requires var p := Params(silent, tenant);
        first ==
        if hasAccessor then [Replace(silent.authorizationType == OnBehalfOf, CacheKey(p, silent.isAppCache))] else []
      ensures before + Made(silent, tenant, w, taken) ==
        if Starts(w) && GetsToken(silent, w, taken) then
          before + first + WriteBack(Params(silent, tenant), w.reply.value, w)
        else before + first
    {
      hide GetsToken, Starts, WriteBack, CacheKey;
    }

    method AuthResultFromToken(p: AuthParams, r: Reply, w: World) returns (ok: bool)
      modifies this`calls
      ensures calls == old(calls) + WriteBack(p, r, w)
      ensures ok <==> WriteBackSucceeds(r, w)
    {
      var partitioned := p.authorizationType == OnBehalfOf;
      var key := TokenCacheKey(p, r);
      if hasAccessor {
        calls := calls + [Replace(partitioned, key)];
        if w.replaceAgainFails { return false; }
      }
      if w.writeFails || r.declined { return false; }
      if hasAccessor {
        calls := calls + [Export(false, key)];
        if w.exportFails { return false; }
      }
      ok := true;
    }

    /** Asks for a new token, and writes it back.  If there is none, a public client's call and one of an
        unknown type end with the error; the others go on with the cached token. */
    method ProactiveRefresh(silent: Silent, p: AuthParams, w: World) returns (done: bool, ok: bool)
      modifies this`calls
      ensures var got := w.reply.Some? && (Swallows(silent) || silent.requestType != UnknownRequest);
        && calls == (if got then old(calls) + WriteBack(p, w.reply.value, w) else old(calls))
        && (done <==> got || !(Swallows(silent) || silent.requestType == Confidential))
        && (ok <==> got && WriteBackSucceeds(w.reply.value, w))
    {
      var failed := false;
      if silent.isAppCache {
      } else if silent.authorizationType == OnBehalfOf {
      } else {
        match silent.requestType {
          case Confidential =>
          case Public => failed := w.reply.None?;
          case UnknownRequest => return true, false;
        }
      }
      if w.reply.None? { return failed, false; }
      ok := AuthResultFromToken(p, w.reply.value, w);
      done := true;
    }

    predicate Taken(tenantID: string)
      reads this
    {
      tenantID in canRefresh && canRefresh[tenantID]
    }

    /** With a usable token: refreshes it if it is due, and still the same once the tenant's flag is won.  The
        flag is released on every way out. */
    method RefreshIfDue(silent: Silent, p: AuthParams, w: World) returns (done: bool, ok: bool)
      modifies this
      ensures var goes := w.due && !old(Taken(silent.tenantID)) && w.same;
        var got := goes && w.reply.Some? && (Swallows(silent) || silent.requestType != UnknownRequest);
        && calls == (if got then old(calls) + WriteBack(p, w.reply.value, w) else old(calls))
        && (done <==> got || (goes && !(Swallows(silent) || silent.requestType == Confidential)))
        && (done ==> (ok <==> got && WriteBackSucceeds(w.reply.value, w)))
      ensures canRefresh == old(canRefresh)
              || (silent.tenantID !in old(canRefresh) && canRefresh == old(canRefresh)[silent.tenantID := false])
    {
      hide WriteBack, WriteBackSucceeds, Swallows;
      done, ok := false, false;
      if w.due {
        if silent.tenantID !in canRefresh { canRefresh := canRefresh[silent.tenantID := false]; }
        if !canRefresh[silent.tenantID] {
          canRefresh := canRefresh[silent.tenantID := true];
          if w.same {
            done, ok := ProactiveRefresh(silent, p, w);
          }
          canRefresh := canRefresh[silent.tenantID := false];
        }
      }
    }

    /** One silent call by itself.  The flags are released on every way out. */
    method AcquireTokenSilent(silent: Silent, tenant: string, w: World) returns (ok: bool)
      modifies this
      ensures calls == old(calls) + Made(silent, tenant, w, old(Taken(silent.tenantID)))
      ensures ok <==> Succeeds(silent, w, old(Taken(silent.tenantID)))
      ensures canRefresh == old(canRefresh)
              || (silent.tenantID !in old(canRefresh) && canRefresh == old(canRefresh)[silent.tenantID := false])
    {
      hide Made, Params, CacheKey, WriteBack, WriteBackSucceeds;
      var p := Params(silent, tenant);
      ghost var taken := Taken(silent.tenantID);
      ghost var first :=
        if hasAccessor then [Replace(silent.authorizationType == OnBehalfOf, CacheKey(p, silent.isAppCache))] else [];
      MadeIs(silent, tenant, w, taken, old(calls), first);
      if hasAccessor {
        calls := calls + [Replace(silent.authorizationType == OnBehalfOf, CacheKey(p, silent.isAppCache))];
        if w.replaceFails { return false; }
      }
      if w.readFails { return false; }
      if silent.claims == "" && w.usable {
        var done;
        done, ok := RefreshIfDue(silent, p, w);
        if done { return; }
        return true;
      }
      if !w.refreshToken || w.reply.None? { return false; }
      ok := AuthResultFromToken(p, w.reply.value, w);
    }
  }
}
