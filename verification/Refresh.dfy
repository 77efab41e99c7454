/** Silent acquisition with proactive refresh, as a protocol of interleaved calls: read the cache, take
    the tenant's flag, read again, ask the identity provider, write back, release the flag. */
module Refresh {
  import opened Wrappers
  import opened Strings
  import opened Items

  /** One silent call.  `request` stands for all that selects the cache entry apart from the tenant;
      `swallows` says that a refresh that fails does no harm: for the app itself, on behalf of a user, or by
      a confidential client. */
  datatype Call = Call(tenantID: string, request: string, claims: string, swallows: bool)

  datatype Entry = Entry(tenant: string, request: string)

  /** The tenant a call gets: the configured one unless it names another. */
  function EntryOf(configured: string, c: Call): Entry {
    Entry(if c.tenantID == "" || c.tenantID == configured then configured else ToLower(c.tenantID), c.request)
  }

  /** What a call hands out. */
  datatype Outcome = FromCache(token: AccessToken) | FromProvider(token: AccessToken) | Failed

  /** `seen` is the token that the call read first, and hands out unless it gets a new one. */
  datatype Pc =
    | Reading
    | FetchingFlag(seen: AccessToken)
    | Swapping(seen: AccessToken)
    | Rereading(seen: AccessToken)
    | Refreshing(seen: AccessToken)
    | Writing(seen: AccessToken, entry: Entry, token: AccessToken)
    | Releasing(outcome: Outcome)
    | Redeeming
    | Storing(entry: Entry, token: AccessToken)
    | Returned(outcome: Outcome)

  datatype Thread = Thread(call: Call, pc: Pc)

  /** A successful proactive refresh: `secret` was replaced. */
  datatype Replaced = Replaced(entry: Entry, secret: string)

  /** `flags` is keyed by the tenant ID as the caller spelled it.  `cached` and `issued` remember every
      secret that ever was in the cache or came from the identity provider. */
  datatype State = State(
    now: int, cache: map<Entry, AccessToken>, flags: map<string, bool>, threads: map<nat, Thread>,
    cached: set<string>, issued: set<string>, replaced: seq<Replaced>)

  datatype Action =
    | Begin(t: nat, call: Call)
    | Advance(t: nat)
    | Answer(t: nat, entry: Entry, token: AccessToken)
    | Refuse(t: nat)
    | Outside(entry: Entry, change: Option<AccessToken>)
    | Tick(now: int)

  predicate DueForRefresh(at: AccessToken, now: int) { at.refreshOn != ZERO_TIME && now > at.refreshOn }

  /** Between winning the swap and returning. */
  predicate Holding(pc: Pc) { pc.Rereading? || pc.Refreshing? || pc.Writing? || pc.Releasing? }

  predicate Enabled(s: State, a: Action) {
    match a
    case Begin(t, call) => t !in s.threads
    case Advance(t) => t in s.threads && var pc := s.threads[t].pc; !pc.Refreshing? && !pc.Redeeming? && !pc.Returned?
    case Answer(t, entry, token) => t in s.threads && (s.threads[t].pc.Refreshing? || s.threads[t].pc.Redeeming?)
    case Refuse(t) => t in s.threads && (s.threads[t].pc.Refreshing? || s.threads[t].pc.Redeeming?)
    case Outside(entry, change) => true
    case Tick(now) => s.now <= now
  }

  function Goto(s: State, t: nat, pc: Pc): State
    requires t in s.threads
  {
    s.(threads := s.threads[t := s.threads[t].(pc := pc)])
  }

  /** Writing stores the token only if it is usable. */
  function Store(s: State, e: Entry, at: AccessToken): State {
    if Usable(at, s.now) then s.(cache := s.cache[e := at], cached := s.cached + {at.secret}) else s
  }

  function Secret(s: State, e: Entry): string { if e in s.cache then s.cache[e].secret else "" }

  function Step(configured: string, s: State, t: nat): State
    requires Enabled(s, Advance(t))
  {
    var call, e := s.threads[t].call, EntryOf(configured, s.threads[t].call);
    match s.threads[t].pc
    case Reading =>
      if call.claims == "" && e in s.cache && Usable(s.cache[e], s.now) then
        var seen := s.cache[e];
        Goto(s, t, if DueForRefresh(seen, s.now) then FetchingFlag(seen) else Returned(FromCache(seen)))
      else Goto(s, t, Redeeming)
    case FetchingFlag(seen) =>
      Goto(if call.tenantID in s.flags then s else s.(flags := s.flags[call.tenantID := false]), t, Swapping(seen))
    case Swapping(seen) =>
      if call.tenantID in s.flags && !s.flags[call.tenantID] then
        Goto(s.(flags := s.flags[call.tenantID := true]), t, Rereading(seen))
      else Goto(s, t, Returned(FromCache(seen)))
    case Rereading(seen) =>
      Goto(s, t, if Secret(s, e) == seen.secret then Refreshing(seen) else Releasing(FromCache(seen)))
    case Writing(seen, entry, token) =>
      Goto(Store(s, entry, token).(replaced := s.replaced + [Replaced(e, seen.secret)]), t,
           Releasing(FromProvider(token)))
    case Releasing(outcome) => Goto(s.(flags := s.flags[call.tenantID := false]), t, Returned(outcome))
    case Storing(entry, token) => Goto(Store(s, entry, token), t, Returned(FromProvider(token)))
    case _ => s
  }

  function Apply(configured: string, s: State, a: Action): State
    requires Enabled(s, a)
  {
    match a
    case Begin(t, call) => s.(threads := s.threads[t := Thread(call, Reading)])
    case Advance(t) => Step(configured, s, t)
    case Answer(t, entry, token) =>
      var pc := s.threads[t].pc;
      Goto(s.(issued := s.issued + {token.secret}), t,
           if pc.Refreshing? then Writing(pc.seen, entry, token) else Storing(entry, token))
    case Refuse(t) =>
      var pc := s.threads[t].pc;
      Goto(s, t,
           if pc.Redeeming? then Returned(Failed)
           else Releasing(if s.threads[t].call.swallows then FromCache(pc.seen) else Failed))
    case Outside(entry, None) => s.(cache := s.cache - {entry})
    case Outside(entry, Some(at)) => s.(cache := s.cache[entry := at], cached := s.cached + {at.secret})
    case Tick(now) => s.(now := now)
  }

  // ----- runs -----

  predicate Initial(s: State) {
    s.flags == map[] && s.threads == map[] && s.issued == {} && s.replaced == []
    && "" !in s.cached && forall e | e in s.cache :: s.cache[e].secret in s.cached
  }

  ghost predicate Next(configured: string, s: State, s': State) {
    exists a :: Enabled(s, a) && s' == Apply(configured, s, a)
  }

  /** The states of any number of interleaved calls. */
  ghost predicate Run(configured: string, trace: seq<State>) {
    trace != [] && Initial(trace[0]) && forall i | 0 < i < |trace| :: Next(configured, trace[i - 1], trace[i])
  }

  // ----- the flag -----

  predicate On(s: State, id: string) { id in s.flags && s.flags[id] }

  predicate Holder(s: State, t: nat, id: string) {
    t in s.threads && s.threads[t].call.tenantID == id && Holding(s.threads[t].pc)
  }

  /** A tenant's flag is set exactly while one call is between winning the swap and returning. */
  ghost predicate FlagsExact(s: State) {
    && (forall id :: On(s, id) <==> exists t :: Holder(s, t, id))
    && (forall id, t, u :: Holder(s, t, id) && Holder(s, u, id) ==> t == u)
  }

  /** What a step of thread `t` may do to its flag. */
  predicate FlagMove(s: State, s': State, t: nat) {
    && t in s'.threads && s'.threads == s.threads[t := s'.threads[t]]
    && (t in s.threads ==> s'.threads[t].call == s.threads[t].call)
    && var id := s'.threads[t].call.tenantID;
    && var was, will := t in s.threads && Holding(s.threads[t].pc), Holding(s'.threads[t].pc);
    && (On(s', id) <==> will || (On(s, id) && !was))
    && (will && !was ==> !On(s, id))
  }

  lemma FlagMoveKeeps(s: State, s': State, t: nat)
    requires FlagsExact(s) && FlagMove(s, s', t)
    requires forall id | id != s'.threads[t].call.tenantID :: On(s', id) <==> On(s, id)
    ensures FlagsExact(s')
  {
    var own := s'.threads[t].call.tenantID;
    forall u, id | u != t ensures Holder(s', u, id) <==> Holder(s, u, id) {}
    forall id ensures Holder(s', t, id) <==> id == own && Holding(s'.threads[t].pc) {}
    forall id ensures Holder(s, t, id) <==> id == own && t in s.threads && Holding(s.threads[t].pc) {}
    assert On(s', own) <==> Holder(s', t, own) || (On(s, own) && !Holder(s, t, own));
    assert Holder(s', t, own) && !Holder(s, t, own) ==> !On(s, own);
    forall id ensures On(s', id) <==> exists u :: Holder(s', u, id) {
      if u :| Holder(s, u, id) {
        assert On(s, id) && (u != t ==> Holder(s', u, id));
      }
      if u :| Holder(s', u, id) {
        assert u != t ==> Holder(s, u, id) && On(s, id);
      }
    }
    forall id, u, v | Holder(s', u, id) && Holder(s', v, id) ensures u == v {
      assert u != t ==> Holder(s, u, id) && On(s, id);
      assert v != t ==> Holder(s, v, id) && On(s, id);
    }
  }

  lemma FlagsKept(configured: string, s: State, a: Action)
    requires FlagsExact(s) && Enabled(s, a)
    ensures FlagsExact(Apply(configured, s, a))
  {
    var s' := Apply(configured, s, a);
    if a.Outside? || a.Tick? {
      assert forall id :: On(s', id) <==> On(s, id);
      assert forall id, t :: Holder(s', t, id) <==> Holder(s, t, id);
    } else {
      FlagMoves(configured, s, a);
      hide *;
      FlagMoveKeeps(s, s', a.t);
    }
  }

  lemma FlagMoves(configured: string, s: State, a: Action)
    requires FlagsExact(s) && Enabled(s, a) && !a.Outside? && !a.Tick?
    ensures var s' := Apply(configured, s, a);
      && FlagMove(s, s', a.t)
      && forall id | id != s'.threads[a.t].call.tenantID :: On(s', id) <==> On(s, id)
  {
    if a.t in s.threads && Holding(s.threads[a.t].pc) {
      assert Holder(s, a.t, s.threads[a.t].call.tenantID) && On(s, s.threads[a.t].call.tenantID);
    }
    hide FlagsExact, Usable, DueForRefresh, EntryOf, Secret;
    if a.Advance? {
      StepMoves(configured, s, a.t);
    }
  }

  lemma StepMoves(configured: string, s: State, t: nat)
    requires Enabled(s, Advance(t)) && (Holding(s.threads[t].pc) ==> On(s, s.threads[t].call.tenantID))
    ensures var s' := Step(configured, s, t);
      FlagMove(s, s', t) && forall id | id != s'.threads[t].call.tenantID :: On(s', id) <==> On(s, id)
  {
    hide Usable, DueForRefresh, EntryOf, Secret;
  }

  /** Over every interleaving, a flag is set exactly while one call with that tenant ID holds it. */
  lemma FlagsAlwaysExact(configured: string, trace: seq<State>)
    requires Run(configured, trace)
    ensures forall i | 0 <= i < |trace| :: FlagsExact(trace[i])
  {
    for i := 0 to |trace|
      invariant forall k | 0 <= k < i :: FlagsExact(trace[k])
    {
      if i > 0 {
        assert Next(configured, trace[i - 1], trace[i]);
        var a :| Enabled(trace[i - 1], a) && trace[i] == Apply(configured, trace[i - 1], a);
        FlagsKept(configured, trace[i - 1], a);
      }
    }
  }

  // ----- replacing a secret -----

  predicate Fresh(s: State, secret: string) { secret != "" && secret !in s.cached && secret !in s.issued }

  /** The identity provider never repeats a secret, a refreshed token lands on the entry of its call and
      is usable when written; other writers bring new secrets too. */
  predicate Sound(configured: string, s: State, a: Action)
    requires Enabled(s, a)
  {
    match a
    case Answer(t, entry, token) => Fresh(s, token.secret) && entry == EntryOf(configured, s.threads[t].call)
    case Advance(t) => s.threads[t].pc.Writing? ==> Usable(s.threads[t].pc.token, s.now)
    case Outside(_, Some(at)) => Fresh(s, at.secret)
    case _ => true
  }

  ghost predicate SoundNext(configured: string, calls: set<Call>, s: State, s': State) {
    exists a ::
      Enabled(s, a) && Sound(configured, s, a) && (a.Begin? ==> a.call in calls) && s' == Apply(configured, s, a)
  }

  ghost predicate SoundSteps(configured: string, calls: set<Call>, trace: seq<State>) {
    trace != [] && forall i | 0 < i < |trace| :: SoundNext(configured, calls, trace[i - 1], trace[i])
  }

  /** A run of sound steps in which only calls of `calls` begin. */
  ghost predicate SoundRun(configured: string, calls: set<Call>, trace: seq<State>) {
    SoundSteps(configured, calls, trace) && Initial(trace[0])
  }

  /** Claims-free calls for the same entry spell its tenant in the same way. */
  ghost predicate OneSpelling(configured: string, calls: set<Call>) {
    forall c, d | c in calls && d in calls && c.claims == "" && d.claims == "" ::
      EntryOf(configured, c) == EntryOf(configured, d) ==> c.tenantID == d.tenantID
  }

  /** No secret was replaced twice by a refresh. */
  ghost predicate ReplacedOnce(s: State) {
    forall i, k | 0 <= i < k < |s.replaced| :: s.replaced[i] != s.replaced[k]
  }

  predicate Old(pc: Pc) { pc.FetchingFlag? || pc.Swapping? || pc.Rereading? || pc.Refreshing? || pc.Writing? }

  predicate Pending(s: State, t: nat) { t in s.threads && (s.threads[t].pc.Writing? || s.threads[t].pc.Storing?) }

  /** The secret that a call saw in the cache is remembered; one that it is about to write is still new. */
  predicate Knows(s: State, t: nat)
    requires t in s.threads
  {
    var pc := s.threads[t].pc;
    && (Old(pc) ==> pc.seen.secret in s.cached)
    && (Pending(s, t) ==> pc.token.secret in s.issued && pc.token.secret !in s.cached && pc.token.secret != "")
  }

  predicate Apart(s: State, t: nat, u: nat) {
    Pending(s, t) && Pending(s, u) && t != u ==> s.threads[t].pc.token.secret != s.threads[u].pc.token.secret
  }

  ghost predicate Remembered(s: State) {
    && "" !in s.cached && (forall e | e in s.cache :: s.cache[e].secret in s.cached)
    && (forall r | r in s.replaced :: r.secret in s.cached)
    && (forall t | t in s.threads :: Knows(s, t))
    && (forall t, u :: Apart(s, t, u))
  }

  predicate InRefresh(configured: string, s: State, t: nat, r: Replaced) {
    t in s.threads && (s.threads[t].pc.Refreshing? || s.threads[t].pc.Writing?)
    && r == Replaced(EntryOf(configured, s.threads[t].call), s.threads[t].pc.seen.secret)
  }

  /** A replaced secret is neither in the cache nor about to be replaced again. */
  ghost predicate Gone(configured: string, s: State) {
    forall r | r in s.replaced ::
      && Secret(s, r.entry) != r.secret
      && forall t :: !InRefresh(configured, s, t, r)
  }

  predicate Proper(configured: string, calls: set<Call>, th: Thread) {
    && th.call in calls && (Old(th.pc) ==> th.call.claims == "")
    && (th.pc.Writing? ==> th.pc.entry == EntryOf(configured, th.call))
  }

  ghost predicate CallsIn(configured: string, s: State, calls: set<Call>) {
    forall t | t in s.threads :: Proper(configured, calls, s.threads[t])
  }

  ghost predicate Safe(configured: string, s: State, calls: set<Call>) {
    FlagsExact(s) && Remembered(s) && Gone(configured, s) && CallsIn(configured, s, calls) && ReplacedOnce(s)
  }

  lemma SafeKept(configured: string, s: State, a: Action, calls: set<Call>)
    requires OneSpelling(configured, calls) && Safe(configured, s, calls)
    requires Enabled(s, a) && Sound(configured, s, a) && (a.Begin? ==> a.call in calls)
    ensures Safe(configured, Apply(configured, s, a), calls)
  {
    FlagsKept(configured, s, a);
    RememberedKept(configured, s, a);
    CallsKept(configured, s, a, calls);
    GoneKept(configured, s, a, calls);
  }

  /** A step moves one thread at most, and caches a secret that was new or about to be written by it. */
  lemma OneMoves(configured: string, s: State, a: Action, t: nat)
    requires Remembered(s) && Enabled(s, a) && Sound(configured, s, a)
    requires a.Outside? || a.Tick? || a.t != t
    ensures var s' := Apply(configured, s, a);
      && (t in s'.threads <==> t in s.threads) && s.issued <= s'.issued
      && (t in s.threads ==> s'.threads[t] == s.threads[t] && Knows(s', t))
  {
    hide Usable, DueForRefresh, EntryOf, Secret;
    if t in s.threads {
      assert Knows(s, t);
    }
    if a.Advance? {
      assert Apart(s, a.t, t) && Knows(s, a.t);
    }
  }

  lemma KnowsKept(configured: string, s: State, a: Action, t: nat)
    requires Remembered(s) && Enabled(s, a) && Sound(configured, s, a) && t in Apply(configured, s, a).threads
    ensures Knows(Apply(configured, s, a), t)
  {
    if a.Outside? || a.Tick? || a.t != t {
      OneMoves(configured, s, a, t);
    } else if t in s.threads {
      assert Knows(s, t);
      hide Remembered, Usable, DueForRefresh, EntryOf, Apart;
      if a.Advance? {
        assert forall e | e in s.cache :: s.cache[e].secret in s.cached by { StoredSecrets(s); }
        StepKnows(configured, s, t);
      }
      hide Step;
    }
  }

  lemma StoredSecrets(s: State)
    requires Remembered(s)
    ensures forall e | e in s.cache :: s.cache[e].secret in s.cached
  {
  }

  lemma StepKnows(configured: string, s: State, t: nat)
    requires Enabled(s, Advance(t)) && Knows(s, t) && forall e | e in s.cache :: s.cache[e].secret in s.cached
    ensures t in Step(configured, s, t).threads && Knows(Step(configured, s, t), t)
  {
    hide Usable, DueForRefresh, EntryOf;
  }

  lemma OnlyAnswersPend(configured: string, s: State, a: Action)
    requires Enabled(s, a) && !a.Outside? && !a.Tick?
    ensures !a.Answer? ==> !Pending(Apply(configured, s, a), a.t)
  {
    hide Usable, DueForRefresh, EntryOf, Secret, Store;
  }

  lemma ApartKept(configured: string, s: State, a: Action, t: nat, u: nat)
    requires Remembered(s) && Enabled(s, a) && Sound(configured, s, a)
    ensures Apart(Apply(configured, s, a), t, u)
  {
    assert Apart(s, t, u) && Apart(s, u, t);
    if a.Outside? || a.Tick? || (a.t != t && a.t != u) {
      OneMoves(configured, s, a, t);
      OneMoves(configured, s, a, u);
      hide Apply, Knows, Sound, Enabled, Fresh;
    } else if t != u {
      var v := if a.t == t then u else t;
      OneMoves(configured, s, a, v);
      assert v in s.threads ==> Knows(s, v);
      OnlyAnswersPend(configured, s, a);
      hide Step, Knows, Enabled;
    }
  }

  lemma CacheKept(configured: string, s: State, a: Action)
    requires Remembered(s) && Enabled(s, a) && Sound(configured, s, a)
    ensures var s' := Apply(configured, s, a);
      && "" !in s'.cached && (forall e | e in s'.cache :: s'.cache[e].secret in s'.cached)
      && (forall r | r in s'.replaced :: r.secret in s'.cached)
  {
    if a.Advance? {
      assert Knows(s, a.t);
    }
    hide Usable, DueForRefresh, EntryOf, Secret, Apart, Holding;
  }

  lemma RememberedKept(configured: string, s: State, a: Action)
    requires Remembered(s) && Enabled(s, a) && Sound(configured, s, a)
    ensures Remembered(Apply(configured, s, a))
  {
    var s' := Apply(configured, s, a);
    hide Enabled, Apply, Knows, Apart, Sound;
    CacheKept(configured, s, a);
    forall t | t in s'.threads ensures Knows(s', t) { KnowsKept(configured, s, a, t); }
    forall t, u ensures Apart(s', t, u) { ApartKept(configured, s, a, t, u); }
  }

  lemma CallsKept(configured: string, s: State, a: Action, calls: set<Call>)
    requires CallsIn(configured, s, calls) && Enabled(s, a) && Sound(configured, s, a) && (a.Begin? ==> a.call in calls)
    ensures CallsIn(configured, Apply(configured, s, a), calls)
  {
    hide Usable, DueForRefresh, EntryOf;
    var s' := Apply(configured, s, a);
    forall t | t in s'.threads ensures Proper(configured, calls, s'.threads[t]) {
      assert t in s.threads ==> Proper(configured, calls, s.threads[t]);
    }
  }

  /** Only a call that has just found the secret in the cache again comes to be refreshing it. */
  lemma InRefreshBack(configured: string, s: State, a: Action, t: nat, r: Replaced)
    requires Enabled(s, a) && InRefresh(configured, Apply(configured, s, a), t, r)
    ensures InRefresh(configured, s, t, r) || Secret(s, r.entry) == r.secret
    ensures a.Advance? && a.t in s.threads && s.threads[a.t].pc.Writing? ==> t != a.t && InRefresh(configured, s, t, r)
  {
    hide Usable, DueForRefresh, EntryOf;
  }

  lemma GoneKept(configured: string, s: State, a: Action, calls: set<Call>)
    requires OneSpelling(configured, calls) && Safe(configured, s, calls)
    requires Enabled(s, a) && Sound(configured, s, a) && (a.Begin? ==> a.call in calls)
    ensures Gone(configured, Apply(configured, s, a)) && ReplacedOnce(Apply(configured, s, a))
  {
    var s' := Apply(configured, s, a);
    if a.Advance? && s.threads[a.t].pc.Writing? {
      WriteReplaces(configured, s, a.t, calls);
    } else {
      forall r | r in s'.replaced
        ensures Secret(s', r.entry) != r.secret && forall t :: !InRefresh(configured, s', t, r)
      {
        SecretStaysGone(configured, s, a, r);
        forall t ensures !InRefresh(configured, s', t, r) {
          if InRefresh(configured, s', t, r) {
            InRefreshBack(configured, s, a, t, r);
          }
        }
      }
    }
  }

  lemma SecretStaysGone(configured: string, s: State, a: Action, r: Replaced)
    requires Remembered(s) && Enabled(s, a) && Sound(configured, s, a)
    requires r.secret in s.cached && Secret(s, r.entry) != r.secret
    ensures Secret(Apply(configured, s, a), r.entry) != r.secret
  {
    hide Usable, DueForRefresh, EntryOf;
    if a.Advance? {
      assert Knows(s, a.t);
    }
  }

  lemma WriteReplaces(configured: string, s: State, t: nat, calls: set<Call>)
    requires OneSpelling(configured, calls) && Safe(configured, s, calls)
    requires t in s.threads && s.threads[t].pc.Writing? && Sound(configured, s, Advance(t))
    ensures Gone(configured, Step(configured, s, t)) && ReplacedOnce(Step(configured, s, t))
  {
    var s', call := Step(configured, s, t), s.threads[t].call;
    var r := Replaced(EntryOf(configured, call), s.threads[t].pc.seen.secret);
    assert s'.replaced == s.replaced + [r];
    assert Knows(s, t) && Proper(configured, calls, s.threads[t]) && Holder(s, t, call.tenantID);
    assert InRefresh(configured, s, t, r);
    assert r !in s.replaced;
    forall x | x in s'.replaced
      ensures Secret(s', x.entry) != x.secret && forall u :: !InRefresh(configured, s', u, x)
    {
      if x in s.replaced {
        SecretStaysGone(configured, s, Advance(t), x);
      }
      forall u ensures !InRefresh(configured, s', u, x) {
        if InRefresh(configured, s', u, x) {
          InRefreshBack(configured, s, Advance(t), u, x);
          assert Proper(configured, calls, s.threads[u]) && Holder(s, u, s.threads[u].call.tenantID);
        }
      }
    }
  }

  lemma SafeRun(configured: string, calls: set<Call>, trace: seq<State>)
    requires OneSpelling(configured, calls) && SoundRun(configured, calls, trace)
    ensures forall i | 0 <= i < |trace| :: Safe(configured, trace[i], calls)
  {
    for i := 0 to |trace|
      invariant forall k | 0 <= k < i :: Safe(configured, trace[k], calls)
    {
      if i > 0 {
        var s := trace[i - 1];
        assert SoundNext(configured, calls, s, trace[i]);
        var a :| Enabled(s, a) && Sound(configured, s, a) && (a.Begin? ==> a.call in calls)
          && trace[i] == Apply(configured, s, a);
        SafeKept(configured, s, a, calls);
      }
    }
  }

  /** In every run each secret is replaced by at most one successful refresh exactly when callers that
      share a cache entry spell its tenant in one way. */
  lemma AtMostOnceExactly(configured: string, calls: set<Call>)
    ensures (forall trace, i | SoundRun(configured, calls, trace) && 0 <= i < |trace| :: ReplacedOnce(trace[i]))
      <==> OneSpelling(configured, calls)
  {
    if OneSpelling(configured, calls) {
      forall trace, i | SoundRun(configured, calls, trace) && 0 <= i < |trace| ensures ReplacedOnce(trace[i]) {
        SafeRun(configured, calls, trace);
      }
    } else {
      var c, d :| c in calls && d in calls && c.claims == "" && d.claims == ""
        && EntryOf(configured, c) == EntryOf(configured, d) && c.tenantID != d.tenantID;
      var trace := ReplacedTwice(configured, calls, c, d);
    }
  }

  function SomeToken(secret: string): AccessToken {
    AccessToken("", "", "", "", "", secret, "", -1, 1000, 0, 0, "", "", "", "")
  }

  /** A call reads a token that is due and fetches its flag. */
  lemma ReadDue(configured: string, calls: set<Call>, s: State, t: nat) returns (s1: State, s2: State)
    requires t in s.threads && s.threads[t].pc.Reading? && s.threads[t].call.claims == ""
      && !On(s, s.threads[t].call.tenantID)
    requires var e := EntryOf(configured, s.threads[t].call);
      e in s.cache && Usable(s.cache[e], s.now) && DueForRefresh(s.cache[e], s.now)
    ensures SoundNext(configured, calls, s, s1) && SoundNext(configured, calls, s1, s2)
    ensures s2 == Goto(s.(flags := s.flags[s.threads[t].call.tenantID := false]), t,
      Swapping(s.cache[EntryOf(configured, s.threads[t].call)]))
  {
    hide EntryOf, Usable, DueForRefresh, Store;
    s1 := Apply(configured, s, Advance(t));
    s2 := Apply(configured, s1, Advance(t));
    assert Enabled(s, Advance(t)) && Enabled(s1, Advance(t));
  }

  /** It wins the flag and finds the token unchanged. */
  lemma WinSwap(configured: string, calls: set<Call>, s: State, t: nat) returns (s1: State, s2: State)
    requires t in s.threads && s.threads[t].pc.Swapping? && s.threads[t].call.tenantID in s.flags
      && !s.flags[s.threads[t].call.tenantID]
    requires Secret(s, EntryOf(configured, s.threads[t].call)) == s.threads[t].pc.seen.secret
    ensures SoundNext(configured, calls, s, s1) && SoundNext(configured, calls, s1, s2)
    ensures s2 == Goto(s.(flags := s.flags[s.threads[t].call.tenantID := true]), t, Refreshing(s.threads[t].pc.seen))
  {
    hide EntryOf, Usable, DueForRefresh, Store;
    s1 := Apply(configured, s, Advance(t));
    s2 := Apply(configured, s1, Advance(t));
    assert Enabled(s, Advance(t)) && Enabled(s1, Advance(t));
  }

  /** The four steps of a call that comes to refresh the token. */
  lemma WinFlag(configured: string, calls: set<Call>, s: State, t: nat) returns (trace: seq<State>)
    requires t in s.threads && s.threads[t].pc.Reading? && s.threads[t].call.claims == ""
      && !On(s, s.threads[t].call.tenantID)
    requires var e := EntryOf(configured, s.threads[t].call);
      e in s.cache && Usable(s.cache[e], s.now) && DueForRefresh(s.cache[e], s.now)
    ensures |trace| == 5 && trace[0] == s && SoundSteps(configured, calls, trace)
    ensures trace[4] == Goto(s.(flags := s.flags[s.threads[t].call.tenantID := true]), t,
      Refreshing(s.cache[EntryOf(configured, s.threads[t].call)]))
  {
    hide EntryOf, Usable, DueForRefresh, SoundNext;
    var s1, s2 := ReadDue(configured, calls, s, t);
    var s3, s4 := WinSwap(configured, calls, s2, t);
    trace := [s, s1, s2, s3, s4];
  }

  /** Two spellings have two flags: both callers refresh the same secret. */
  lemma ReplacedTwice(configured: string, calls: set<Call>, c: Call, d: Call) returns (trace: seq<State>)
    requires c in calls && d in calls && c.claims == "" && d.claims == ""
    requires EntryOf(configured, c) == EntryOf(configured, d) && c.tenantID != d.tenantID
    ensures SoundRun(configured, calls, trace) && !ReplacedOnce(trace[|trace| - 1])
  {
    var e := EntryOf(configured, c);
    var s0 := State(0, map[e := SomeToken("a")], map[], map[], {"a"}, {}, []);
    var s1 := Apply(configured, s0, Begin(0, c));
    var s2 := Apply(configured, s1, Begin(1, d));
    assert SoundNext(configured, calls, s0, s1) && SoundNext(configured, calls, s1, s2);
    assert SoundSteps(configured, calls, [s0, s1, s2]) && Initial(s0);
    hide SoundSteps, SoundNext, Sound, Initial;
    var first := WinFlag(configured, calls, s2, 0);
    var second := WinFlag(configured, calls, first[4], 1);
    var third := AnswerAndWrite(configured, calls, second[4], 0, "b");
    var fourth := AnswerAndWrite(configured, calls, third[2], 1, "c");
    hide *;
    assert fourth[2].replaced == [Replaced(e, "a"), Replaced(e, "a")];
    trace := Glue(configured, calls, [s0, s1, s2], first);
    trace := Glue(configured, calls, trace, second);
    trace := Glue(configured, calls, trace, third);
    trace := Glue(configured, calls, trace, fourth);
    TwiceInHistory(fourth[2], e);
  }

  lemma TwiceInHistory(s: State, e: Entry)
    requires s.replaced == [Replaced(e, "a"), Replaced(e, "a")]
    ensures !ReplacedOnce(s)
  {
    assert s.replaced[0] == s.replaced[1];
  }

  lemma Glue(configured: string, calls: set<Call>, a: seq<State>, b: seq<State>) returns (trace: seq<State>)
    requires SoundSteps(configured, calls, a) && SoundSteps(configured, calls, b) && a[|a| - 1] == b[0]
    ensures SoundSteps(configured, calls, trace) && trace[0] == a[0] && trace[|trace| - 1] == b[|b| - 1]
  {
    trace := a + b[1..];
    forall i | 0 < i < |trace| ensures SoundNext(configured, calls, trace[i - 1], trace[i]) {
      if i >= |a| {
        assert SoundNext(configured, calls, b[i - |a|], b[i - |a| + 1]);
      }
    }
  }

  /** A call gets its answer and writes it. */
  lemma AnswerAndWrite(configured: string, calls: set<Call>, s: State, t: nat, secret: string)
    returns (trace: seq<State>)
    requires t in s.threads && s.threads[t].pc.Refreshing? && s.now == 0 && Fresh(s, secret)
    ensures |trace| == 3 && trace[0] == s && SoundSteps(configured, calls, trace)
    ensures var r := Replaced(EntryOf(configured, s.threads[t].call), s.threads[t].pc.seen.secret);
      && trace[2].threads == Goto(s, t, Releasing(FromProvider(SomeToken(secret)))).threads
      && trace[2].now == 0 && trace[2].replaced == s.replaced + [r]
    ensures trace[2].cached == s.cached + {secret} && trace[2].issued == s.issued + {secret}
  {
    hide EntryOf, Secret, DueForRefresh;
    var e := EntryOf(configured, s.threads[t].call);
    var s1 := Apply(configured, s, Answer(t, e, SomeToken(secret)));
    assert SoundNext(configured, calls, s, s1);
    var s2 := Apply(configured, s1, Advance(t));
    assert SoundNext(configured, calls, s1, s2);
    trace := [s, s1, s2];
  }
}
