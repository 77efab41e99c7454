/** What callers of the flat cache can rely on across operations. */
module StorageUse {
  import opened Wrappers
  import opened Strings
  import opened Items
  import opened Storage
  import OldKeys
  import Scopes
  import Upgrade

  /** The token that `t` brings in for `w` answers the request `q`. */
  ghost predicate Answers(w: AuthParams, t: TokenResponse, q: AuthParams, aliases: seq<string>) {
    && t.HomeAccountID() == q.homeAccountID && w.tenant == q.tenant && w.clientID == q.clientID && w.host in aliases
    && EqualFold(t.tokenType, q.accessTokenType) && w.authnSchemeKeyID == q.authnSchemeKeyID
    && w.extCacheKey == q.extCacheKey && !HasUpper(q.extCacheKey)
    && Scopes.Matching(q.scopes, Split(Join(t.grantedScopes, [Scopes.SCOPE_SEPARATOR]), Scopes.SCOPE_SEPARATOR))
  }

  /** The flat cache looks for the extra cache key inside the map key, and finds it there. */
  lemma WrittenTokenMatches(w: AuthParams, t: TokenResponse, now: int, q: AuthParams, aliases: seq<string>)
    requires Answers(w, t, q, aliases)
    ensures var at := NewAccessToken(w, t, now); MatchesAccess(q, aliases, AccessKey(at), at)
  {
    var at := NewAccessToken(w, t, now);
    if q.extCacheKey != "" {
      KeyShowsExtra(at);
      LowerFixed(q.extCacheKey);
    }
  }

  /** The stored token `at` answers `q` under its own map key. */
  ghost predicate Serves(c: Cache, q: AuthParams, aliases: seq<string>, at: AccessToken) {
    exists k | k in c.accessTokens :: c.accessTokens[k] == at && MatchesAccess(q, aliases, k, at)
  }

  /** Whatever access token a read finds: its own key shows the extra cache key asked for.  Without old keys
      it is a stored one that answers the request; with them it answers the request if no upgrade trades a
      token that does for one that does not. */
  lemma ReadServes(c: Cache, q: AuthParams, aliases: seq<string>, r: Cached, c': Cache)
    requires MayRead(c, q, aliases, r, c') && r.accessToken.Some?
    ensures c.AllMigrated() ==> Serves(c, q, aliases, r.accessToken.value)
    ensures c.Valid() && !HasUpper(q.extCacheKey) ==> Contains(AccessKey(r.accessToken.value), q.extCacheKey)
    ensures c.Valid() && !HasUpper(q.extCacheKey) && OldKeys.UpgradesServe(c.accessTokens, q, aliases) ==>
              OldKeys.Fits(q, aliases, r.accessToken.value)
  {
    KeyShows(c, q, aliases, r, c');
    if c.Valid() && !HasUpper(q.extCacheKey) && OldKeys.UpgradesServe(c.accessTokens, q, aliases) {
      OldKeys.FoundFits(c, q, aliases, r, c');
    }
  }

  lemma KeyShows(c: Cache, q: AuthParams, aliases: seq<string>, r: Cached, c': Cache)
    requires MayRead(c, q, aliases, r, c') && r.accessToken.Some?
    ensures c.AllMigrated() ==> Serves(c, q, aliases, r.accessToken.value)
    ensures c.Valid() && !HasUpper(q.extCacheKey) ==> Contains(AccessKey(r.accessToken.value), q.extCacheKey)
  {
    var m, at := c.accessTokens, r.accessToken.value;
    var k :| k in m && AccessMatcher(q, aliases)(k, m[k]) && (r.accessToken, c'.accessTokens) == Upgrade.Touch(m, k);
    TouchKeeps(m, k, AccessKey);
    hide AccessKey;
    if q.extCacheKey == "" {
      assert OccursAt(AccessKey(at), q.extCacheKey, 0);
    } else if c.Valid() && !HasUpper(q.extCacheKey) {
      LowerContains(k, q.extCacheKey);
    }
  }

  /** A read right after a write finds an access token.  In a cache keyed by its values its own key shows the
      extra cache key asked for, and whatever token may be found answers the request exactly if no upgrade
      trades one that does for one that does not; such an upgrade is none that the write has brought about. */
  lemma ReadAfterWrite(c: Cache, w: AuthParams, t: TokenResponse, now: int, q: AuthParams, aliases: seq<string>,
    r: Cached, c': Cache)
    requires t.accessToken != "" && Usable(NewAccessToken(w, t, now), now) && Answers(w, t, q, aliases)
    requires MayRead(AfterWrite(c, w, t, now), q, aliases, r, c')
    ensures r.accessToken.Some?
    ensures c.AllMigrated() ==> Serves(AfterWrite(c, w, t, now), q, aliases, r.accessToken.value)
    ensures c.Valid() ==> Contains(AccessKey(r.accessToken.value), q.extCacheKey)
    ensures c.Valid() ==> AnswersExactly(AfterWrite(c, w, t, now), q, aliases)
    ensures OldKeys.UpgradesServe(c.accessTokens, q, aliases) ==>
              OldKeys.UpgradesServe(AfterWrite(c, w, t, now).accessTokens, q, aliases)
  {
    var at, stored := NewAccessToken(w, t, now), AfterWrite(c, w, t, now);
    WrittenTokenMatches(w, t, now, q, aliases);
    WriteServes(c, w, t, now, q, aliases);
    assert AccessKey(at) in stored.accessTokens && stored.accessTokens[AccessKey(at)] == at;
    assert AccessMatcher(q, aliases)(AccessKey(at), at);
    hide AfterWrite, Serves, Contains, AccessKey, NewAccessToken, Usable, Answers;
    WriteKeeps(c, w, t, now);
    ReadServes(stored, q, aliases, r, c');
    if c.Valid() {
      OldKeys.FoundFitsExactly(stored, q, aliases);
    }
  }

  /** Whatever token may be found answers the request if and only if no upgrade spoils it. */
  ghost predicate AnswersExactly(c: Cache, q: AuthParams, aliases: seq<string>) {
    OldKeys.AllFit(c, q, aliases) <==> OldKeys.UpgradesServe(c.accessTokens, q, aliases)
  }

  lemma WriteServes(c: Cache, w: AuthParams, t: TokenResponse, now: int, q: AuthParams, aliases: seq<string>)
    requires Usable(NewAccessToken(w, t, now), now) && Answers(w, t, q, aliases)
    ensures OldKeys.UpgradesServe(c.accessTokens, q, aliases) ==>
              OldKeys.UpgradesServe(AfterWrite(c, w, t, now).accessTokens, q, aliases)
  {
    WrittenTokenMatches(w, t, now, q, aliases);
    LowerFixed(Join(AccessKeyParts(NewAccessToken(w, t, now)), KEY_SEPARATOR));
    hide MatchesAccess, NewAccessToken, ToLower, HasUpper, AccessKeyParts, Join, Usable, Answers;
  }

  /** From the token endpoint's answer to the next silent request: if nothing was declined and the
      granted scopes can be told apart, the same scopes are answered from the cache. */
  method AcquireThenReadSilently(m: Manager, q: AuthParams, t: TokenResponse, now: int, aliases: seq<string>)
    returns (declined: seq<string>, c: Cached)
    requires t.accessToken != "" && q.host in aliases && t.HomeAccountID() == q.homeAccountID
    requires EqualFold(t.tokenType, q.accessTokenType) && !HasUpper(q.extCacheKey)
    requires now + EXPIRY_MARGIN <= t.expiresOn && now != ZERO_TIME
    modifies m
    ensures declined == if t.grantedScopes == [] then [] else Scopes.Declined(q.scopes, t.grantedScopes)
    ensures MayRead(AfterWrite(old(m.Contents()), q, Granted(q, t), now), q, aliases, c, m.Contents())
    ensures declined == [] && Apart(Granted(q, t).grantedScopes) ==> c.accessToken.Some?
    ensures c.accessToken.Some? && old(m.Contents().AllMigrated()) ==>
              Serves(AfterWrite(old(m.Contents()), q, Granted(q, t), now), q, aliases, c.accessToken.value)
    ensures c.accessToken.Some? && old(m.Contents().Valid()) ==> Contains(AccessKey(c.accessToken.value), q.extCacheKey)
    ensures old(m.Contents().Valid()) ==>
              AnswersExactly(AfterWrite(old(m.Contents()), q, Granted(q, t), now), q, aliases)
    ensures declined == [] && Apart(Granted(q, t).grantedScopes)
            && old(m.Contents().Valid() && OldKeys.UpgradesServe(m.accessTokens, q, aliases)) ==>
              OldKeys.Fits(q, aliases, c.accessToken.value)
  {
    var granted;
    granted, declined := Scopes.ComputeScope(q.scopes, t.grantedScopes);
    var t' := t.(grantedScopes := granted);
    assert t'.HomeAccountID() == t.HomeAccountID();
    if declined == [] && Apart(granted) {
      SplitGranted(q.scopes, granted);
    }
    ghost var before := m.Contents();
    var _ := m.Write(q, t', now);
    ghost var stored := m.Contents();
    c := m.Read(q, aliases);
    if declined == [] && Apart(granted) {
      ReadAfterWrite(before, q, t', now, q, aliases, c, m.Contents());
    }
    WriteKeeps(before, q, t', now);
    if c.accessToken.Some? {
      ReadServes(stored, q, aliases, c, m.Contents());
    }
    if before.Valid() {
      OldKeys.FoundFitsExactly(stored, q, aliases);
    }
  }

  /** The response with the scopes that it stands for. */
  function Granted(q: AuthParams, t: TokenResponse): TokenResponse {
    if t.grantedScopes == [] then t.(grantedScopes := q.scopes) else t
  }

  /** Stored as one string, the scopes can still be told apart. */
  predicate Apart(granted: seq<string>) {
    Scopes.NoRepeats(granted) && forall s | s in granted :: Scopes.SCOPE_SEPARATOR !in s
  }

  lemma {:induction false} SplitGranted(requested: seq<string>, granted: seq<string>)
    requires Scopes.Included(requested, granted) && Apart(granted)
    ensures Scopes.Matching(requested, Split(Join(granted, [Scopes.SCOPE_SEPARATOR]), Scopes.SCOPE_SEPARATOR))
  {
    if granted == [] {
      if requested != [] {
        assert requested[0] in requested;
      }
    } else {
      SplitJoin(granted, Scopes.SCOPE_SEPARATOR);
      Scopes.CountingIsInclusion(requested, granted);
    }
  }

  lemma ScanMisses<V(!new)>(m: map<string, V>, drop: V -> bool, matches: (string, V) -> bool, r: Option<V>,
    m': map<string, V>)
    requires forall k, v :: matches(k, v) ==> drop(v)
    requires Scanned(Without(m, drop), matches, r, m')
    ensures r.None?
  {
  }

  lemma RefreshGone(account: Account, q: AuthParams, app: Option<AppMetaData>,
    m: map<string, RefreshToken>, r: Option<RefreshToken>, m': map<string, RefreshToken>)
    requires q.homeAccountID == account.homeAccountID
    requires ReadsRefresh(q, [account.environment], app, Without(m, RefreshTokensOf(account, q.clientID)), r, m')
    ensures r.None?
  {
    var env, drop := [account.environment], RefreshTokensOf(account, q.clientID);
    if r.Some? {
      var byClient := app.value.familyID == "" <==> exists k :: k in Without(m, drop) && ClientMatcher(q, env)(k, m[k]);
      ScanMisses(m, drop, if byClient then ClientMatcher(q, env) else FamilyMatcher(q, env), r, m');
    }
  }

  /** After removing an account, a read for that user and client under the account's own environment
      finds nothing at all. */
  lemma ReadAfterRemove(c: Cache, account: Account, q: AuthParams, r: Cached, c': Cache)
    requires q.homeAccountID == account.homeAccountID
    requires MayRead(AfterRemove(c, account, q.clientID), q, [account.environment], r, c')
    ensures r == Cached(None, None, None, None)
  {
    var env := [account.environment];
    hide Scanned, ReadsRefresh, AppMatcher;
    ScanMisses(c.accessTokens, AccessTokensOf(account), AccessMatcher(q, env), r.accessToken, c'.accessTokens);
    if q.homeAccountID != "" {
      ScanMisses(c.idTokens, IDTokensOf(account), IDMatcher(q, env), r.idToken, c'.idTokens);
      ScanMisses(c.accounts, AccountsOf(account), AccountMatcher(q, env), r.account, c'.accounts);
      var app :| Scanned(c.appMetaData, AppMatcher(q, env), app, c'.appMetaData)
        && ReadsRefresh(q, env, app, Without(c.refreshTokens, RefreshTokensOf(account, q.clientID)), r.refreshToken,
            c'.refreshTokens);
      RefreshGone(account, q, app, c.refreshTokens, r.refreshToken, c'.refreshTokens);
    }
  }

  // ----- whole runs -----

  datatype Op =
    | WriteOp(p: AuthParams, t: TokenResponse, now: int)
    | ReadOp(q: AuthParams, aliases: seq<string>)
    | RemoveOp(account: Account, clientID: string)

  /** One operation takes the cache from `c` to `c'`; only a read answers anything. */
  ghost predicate Step(c: Cache, op: Op, answer: Option<Cached>, c': Cache) {
    match op
    case WriteOp(p, t, now) => answer.None? && c' == AfterWrite(c, p, t, now)
    case ReadOp(q, aliases) => answer.Some? && MayRead(c, q, aliases, answer.value, c')
    case RemoveOp(account, clientID) => answer.None? && c' == AfterRemove(c, account, clientID)
  }

  /** The cache went through `trace` while the operations ran. */
  ghost predicate IsRun(trace: seq<Cache>, ops: seq<Op>, answers: seq<Option<Cached>>) {
    && |trace| == |ops| + 1 && |answers| == |ops|
    && forall i | 0 <= i < |ops| :: StepAt(trace, ops, answers, i)
  }

  ghost predicate StepAt(trace: seq<Cache>, ops: seq<Op>, answers: seq<Option<Cached>>, i: nat)
    requires i < |ops| && i < |answers| && i + 1 < |trace|
  {
    Step(trace[i], ops[i], answers[i], trace[i + 1])
  }

  method Run(m: Manager, ops: seq<Op>) returns (answers: seq<Option<Cached>>, ghost trace: seq<Cache>)
    modifies m
    ensures IsRun(trace, ops, answers) && trace[0] == old(m.Contents()) && trace[|ops|] == m.Contents()
  {
    hide AfterWrite, AfterRemove, MayRead;
    answers, trace := [], [m.Contents()];
    for n := 0 to |ops|
      invariant |trace| == n + 1 && |answers| == n && trace[0] == old(m.Contents()) && trace[n] == m.Contents()
      invariant forall i | 0 <= i < n :: StepAt(trace, ops, answers, i)
    {
      var answer := None;
      match ops[n] {
        case WriteOp(p, t, now) => var _ := m.Write(p, t, now);
        case ReadOp(q, aliases) => var c := m.Read(q, aliases); answer := Some(c);
        case RemoveOp(account, clientID) => m.RemoveAccount(account, clientID);
      }
      ghost var before, told := trace, answers;
      answers, trace := answers + [answer], trace + [m.Contents()];
      assert StepAt(trace, ops, answers, n);
      assert forall i | 0 <= i < n && StepAt(before, ops, told, i) :: StepAt(trace, ops, answers, i);
    }
  }

  /** What an operation makes of a cache without old keys. */
  ghost function AfterOp(c: Cache, op: Op): Cache {
    match op
    case WriteOp(p, t, now) => AfterWrite(c, p, t, now)
    case ReadOp(_, _) => c
    case RemoveOp(account, clientID) => AfterRemove(c, account, clientID)
  }

  /** What the first `n` operations make of it. */
  ghost function After(c: Cache, ops: seq<Op>, n: nat): Cache
    requires n <= |ops|
  {
    if n == 0 then c else AfterOp(After(c, ops, n - 1), ops[n - 1])
  }

  lemma StepKeeps(c: Cache, op: Op, answer: Option<Cached>, c': Cache)
    requires Step(c, op, answer, c')
    ensures c.Valid() ==> c'.Valid()
    ensures c.AllMigrated() ==> c'.AllMigrated() && c' == AfterOp(c, op)
  {
    hide AfterWrite, AfterRemove, MayRead, Cache.Valid, Cache.AllMigrated;
    match op {
      case WriteOp(p, t, now) => WriteKeeps(c, p, t, now);
      case ReadOp(q, aliases) => ReadKeeps(c, q, aliases, answer.value, c');
      case RemoveOp(account, clientID) => RemoveKeeps(c, account, clientID);
    }
  }

  /** From any cache whose entries sit under a spelling of their own key, every run keeps that; and where
      there are no old keys none ever appear, and the reads of the run change nothing. */
  lemma {:induction false} RunKeeps(trace: seq<Cache>, ops: seq<Op>, answers: seq<Option<Cached>>, i: nat)
    requires IsRun(trace, ops, answers) && i <= |ops|
    ensures trace[0].Valid() ==> trace[i].Valid()
    ensures trace[0].AllMigrated() ==> trace[i].AllMigrated() && trace[i] == After(trace[0], ops, i)
  {
    hide Step, AfterOp, Cache.Valid, Cache.AllMigrated;
    if i > 0 {
      RunKeeps(trace, ops, answers, i - 1);
      assert StepAt(trace, ops, answers, i - 1);
      StepKeeps(trace[i - 1], ops[i - 1], answers[i - 1], trace[i]);
    }
  }

  /** The operation stores `at`. */
  predicate Stores(op: Op, at: AccessToken) {
    op.WriteOp? && op.t.accessToken != "" && at == NewAccessToken(op.p, op.t, op.now) && Usable(at, op.now)
  }

  /** The operation replaces or removes `at`. */
  predicate Evicts(op: Op, at: AccessToken) {
    match op
    case WriteOp(p, t, now) =>
      && t.accessToken != "" && Usable(NewAccessToken(p, t, now), now)
      && AccessKey(NewAccessToken(p, t, now)) == AccessKey(at)
    case ReadOp(_, _) => false
    case RemoveOp(account, _) => at.homeAccountID == account.homeAccountID && at.environment == account.environment
  }

  /** Operation `i` stored `at`, and none of those before `n` has evicted it since. */
  ghost predicate StillThere(ops: seq<Op>, n: nat, i: nat, at: AccessToken)
    requires n <= |ops|
  {
    i < n && Stores(ops[i], at) && forall j | i < j < n :: !Evicts(ops[j], at)
  }

  /** The access tokens in the cache are exactly those that were stored and not evicted since, each under
      its own key. */
  lemma {:induction false} HeldAfter(ops: seq<Op>, n: nat, k: string, at: AccessToken)
    requires n <= |ops|
    ensures Under(After(EMPTY, ops, n), k, at) <==> k == AccessKey(at) && exists i: nat :: StillThere(ops, n, i, at)
  {
    if n > 0 {
      HeldAfter(ops, n - 1, k, at);
      HeldStep(After(EMPTY, ops, n - 1), ops[n - 1], After(EMPTY, ops, n), k, at);
      hide NewAccessToken, Usable, AccessKey, Stores, Evicts, After, Under, StillThere;
      StillStep(ops, n - 1, n, at);
    } else {
      assert After(EMPTY, ops, 0) == EMPTY;
    }
  }

  lemma StillStep(ops: seq<Op>, m: nat, n: nat, at: AccessToken)
    requires m + 1 == n <= |ops|
    ensures (exists i: nat :: StillThere(ops, n, i, at))
      <==> Stores(ops[m], at) || ((exists i: nat :: StillThere(ops, m, i, at)) && !Evicts(ops[m], at))
  {
    hide Stores, Evicts;
    if Stores(ops[m], at) {
      assert StillThere(ops, n, m, at);
    }
    if i: nat :| StillThere(ops, m, i, at) && !Evicts(ops[m], at) {
      assert StillThere(ops, n, i, at);
    }
    if i: nat :| StillThere(ops, n, i, at) && i < m {
      assert StillThere(ops, m, i, at);
    }
  }

  ghost predicate Under(c: Cache, k: string, at: AccessToken) { k in c.accessTokens && c.accessTokens[k] == at }

  lemma HeldStep(c: Cache, op: Op, c': Cache, k: string, at: AccessToken)
    requires c' == AfterOp(c, op)
    requires Under(c, k, at) ==> k == AccessKey(at)
    ensures Under(c', k, at) <==> k == AccessKey(at) && (Stores(op, at) || (Under(c, k, at) && !Evicts(op, at)))
  {
    hide NewAccessToken, Usable, AccessKey;
  }

  /** The token that operation `n` stored is still there and answers read number `i`. */
  ghost predicate Available(ops: seq<Op>, i: nat, n: nat, at: AccessToken)
    requires i < |ops| && ops[i].ReadOp?
  {
    StillThere(ops, i, n, at) && MatchesAccess(ops[i].q, ops[i].aliases, AccessKey(at), at)
  }

  lemma {:induction false} ReadsAvailable(ops: seq<Op>, i: nat, r: Cached)
    requires i < |ops| && ops[i].ReadOp? && After(EMPTY, ops, i).AllMigrated()
    requires MayRead(After(EMPTY, ops, i), ops[i].q, ops[i].aliases, r, After(EMPTY, ops, i))
    ensures r.accessToken.Some? <==> exists n: nat, at :: Available(ops, i, n, at)
    ensures r.accessToken.Some? ==> exists n: nat :: Available(ops, i, n, r.accessToken.value)
  {
    var c, q, aliases := After(EMPTY, ops, i), ops[i].q, ops[i].aliases;
    hide After, StillThere, AccessKey, MatchesAccess, Migrated;
    if r.accessToken.Some? {
      var at := r.accessToken.value;
      ReadServes(c, q, aliases, r, c);
      var k :| k in c.accessTokens && c.accessTokens[k] == at && MatchesAccess(q, aliases, k, at);
      assert Under(c, k, at);
      HeldAfter(ops, i, k, at);
      var n: nat :| StillThere(ops, i, n, at);
      assert Available(ops, i, n, at);
    }
    if n: nat, at :| Available(ops, i, n, at) {
      HeldAfter(ops, i, AccessKey(at), at);
      assert Under(c, AccessKey(at), at);
      assert AccessMatcher(q, aliases)(AccessKey(at), at);
    }
  }

  /** In any run from the empty cache, a silent request finds an access token exactly when some write before
      it stored one that answers it and that has not been replaced or removed since; and it is such a token
      that it finds.  All the rest of its answer comes from what the writes and removals before it left, too. */
  lemma {:induction false} ReadInRun(trace: seq<Cache>, ops: seq<Op>, answers: seq<Option<Cached>>, i: nat)
    requires IsRun(trace, ops, answers) && trace[0] == EMPTY && i < |ops| && ops[i].ReadOp?
    ensures answers[i].Some?
      && MayRead(After(EMPTY, ops, i), ops[i].q, ops[i].aliases, answers[i].value, After(EMPTY, ops, i))
    ensures answers[i].value.accessToken.Some? <==> exists n: nat, at :: Available(ops, i, n, at)
    ensures answers[i].value.accessToken.Some? ==>
              exists n: nat :: Available(ops, i, n, answers[i].value.accessToken.value)
  {
    hide After, MayRead, StillThere, AccessKey, MatchesAccess, Cache.Valid;
    var c, r := After(EMPTY, ops, i), answers[i];
    RunKeeps(trace, ops, answers, i);
    assert StepAt(trace, ops, answers, i);
    StepKeeps(c, ops[i], r, trace[i + 1]);
    ReadsAvailable(ops, i, r.value);
  }
}
