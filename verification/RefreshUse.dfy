/** What a silent call hands out, and when it turns to the identity provider. */
module RefreshUse {
  import opened Wrappers
  import opened Strings
  import opened Items
  import opened Refresh

  /** At least five minutes are left, and the token was cached at a time that is set and not in the future. */
  predicate InTime(at: AccessToken, now: int) {
    at.cachedAt != ZERO_TIME && at.cachedAt <= now && now + 300 <= at.expiresOn
  }

  /** It should be replaced by now, though it can still be used. */
  predicate Due(at: AccessToken, now: int) { at.refreshOn != ZERO_TIME && at.refreshOn < now }

  /** `e` is what the call asks for: in the configured tenant, unless it names another one, in any case. */
  predicate Asks(configured: string, c: Call, e: Entry) {
    && e.request == c.request
    && (c.tenantID == "" || c.tenantID == configured ==> e.tenant == configured)
    && (c.tenantID != "" && c.tenantID != configured ==> e.tenant == ToLower(c.tenantID))
  }

  /** The cache has `at` for the call, and the call may use it. */
  predicate Servable(configured: string, s: State, c: Call, at: AccessToken) {
    c.claims == "" && InTime(at, s.now) && exists e | e in s.cache :: Asks(configured, c, e) && s.cache[e] == at
  }

  /** Between states `i` and `i + 1` the call goes on from where it was. */
  predicate Moves(trace: seq<State>, i: nat, t: nat) {
    && i + 1 < |trace| && t in trace[i].threads && t in trace[i + 1].threads
    && trace[i + 1].threads[t].pc != trace[i].threads[t].pc
  }

  predicate ReadsAt(trace: seq<State>, i: nat, t: nat) { Moves(trace, i, t) && trace[i].threads[t].pc.Reading? }

  /** The action between states `i` and `i + 1`. */
  predicate Takes(configured: string, trace: seq<State>, i: nat, a: Action) {
    i + 1 < |trace| && Enabled(trace[i], a) && trace[i + 1] == Apply(configured, trace[i], a)
  }

  lemma ServableIs(configured: string, s: State, c: Call, at: AccessToken)
    ensures var e := EntryOf(configured, c);
      Servable(configured, s, c, at) <==> c.claims == "" && e in s.cache && s.cache[e] == at && Usable(at, s.now)
  {
    var e := EntryOf(configured, c);
    assert forall x :: Asks(configured, c, x) <==> x == e;
    hide EntryOf, Asks;
  }

  lemma Untouched(configured: string, s: State, a: Action, t: nat)
    requires Enabled(s, a) && (a.Outside? || a.Tick? || a.t != t)
    ensures var s' := Apply(configured, s, a);
      (t in s'.threads <==> t in s.threads) && (t in s.threads ==> s'.threads[t] == s.threads[t])
  {
    hide Usable, DueForRefresh, EntryOf, Secret;
  }

  /** No flag is ever forgotten. */
  lemma FlagsStay(configured: string, s: State, a: Action)
    requires Enabled(s, a)
    ensures forall id | id in s.flags :: id in Apply(configured, s, a).flags
  {
    hide Usable, DueForRefresh, EntryOf, Secret;
  }

  /** Whoever moves, moved by an action of its own. */
  lemma Mover(configured: string, trace: seq<State>, i: nat, t: nat) returns (a: Action)
    requires Run(configured, trace) && Moves(trace, i, t)
    ensures Takes(configured, trace, i, a) && !a.Outside? && !a.Tick? && !a.Begin? && a.t == t
    ensures trace[i].threads[t].pc.Refreshing? || trace[i].threads[t].pc.Redeeming? <==> !a.Advance?
  {
    assert Next(configured, trace[i], trace[i + 1]);
    a :| Enabled(trace[i], a) && trace[i + 1] == Apply(configured, trace[i], a);
    if a.Outside? || a.Tick? || a.t != t {
      Untouched(configured, trace[i], a, t);
    }
    hide Apply;
  }

  // ----- the first read -----

  /** A call goes to the identity provider exactly if the cache has no token that it may use; it fetches its
      tenant's flag exactly if such a token is due; and otherwise hands out that token. */
  lemma ReadDecides(configured: string, trace: seq<State>, i: nat, t: nat)
    requires Run(configured, trace) && ReadsAt(trace, i, t)
    ensures var s, c, pc := trace[i], trace[i].threads[t].call, trace[i + 1].threads[t].pc;
      && (pc == Redeeming <==> forall at :: !Servable(configured, s, c, at))
      && (forall at :: pc == FetchingFlag(at) <==> Servable(configured, s, c, at) && Due(at, s.now))
      && (forall at :: pc == Returned(FromCache(at)) <==> Servable(configured, s, c, at) && !Due(at, s.now))
  {
    var a := Mover(configured, trace, i, t);
    var s, c, e := trace[i], trace[i].threads[t].call, EntryOf(configured, trace[i].threads[t].call);
    forall at
      ensures Servable(configured, s, c, at)
        <==> c.claims == "" && e in s.cache && s.cache[e] == at && Usable(at, s.now)
    {
      ServableIs(configured, s, c, at);
    }
    hide Servable, Usable, EntryOf;
    if e in s.cache {
      assert Servable(configured, s, c, s.cache[e]) <==> c.claims == "" && Usable(s.cache[e], s.now);
    }
  }

  // ----- what is stored -----

  /** A new token goes into the cache exactly if it is in time when it is written, and the call hands it out. */
  lemma NewTokenStored(configured: string, trace: seq<State>, i: nat, t: nat)
    requires Run(configured, trace) && Moves(trace, i, t)
    requires trace[i].threads[t].pc.Storing? || trace[i].threads[t].pc.Writing?
    ensures var pc, pc' := trace[i].threads[t].pc, trace[i + 1].threads[t].pc;
      && trace[i + 1].cache
         == (if InTime(pc.token, trace[i].now) then trace[i].cache[pc.entry := pc.token] else trace[i].cache)
      && pc' == if pc.Storing? then Returned(FromProvider(pc.token)) else Releasing(FromProvider(pc.token))
  {
    var a := Mover(configured, trace, i, t);
    var pc := trace[i].threads[t].pc;
    assert Usable(pc.token, trace[i].now) <==> InTime(pc.token, trace[i].now);
    hide Run, Moves, Usable, InTime, EntryOf, Secret, DueForRefresh;
  }

  // ----- whole runs -----

  /** The call first read the cache when that had `at` for it. */
  ghost predicate ReadOnce(configured: string, trace: seq<State>, n: nat, t: nat, c: Call, at: AccessToken, due: bool) {
    exists i: nat | i < n ::
      && ReadsAt(trace, i, t) && Servable(configured, trace[i], c, at)
      && (Due(at, trace[i].now) <==> due)
  }

  ghost predicate FoundNothing(configured: string, trace: seq<State>, n: nat, t: nat, c: Call) {
    exists i: nat | i < n :: ReadsAt(trace, i, t) && forall at :: !Servable(configured, trace[i], c, at)
  }

  /** The identity provider gave it the token. */
  ghost predicate Answered(configured: string, trace: seq<State>, n: nat, t: nat, entry: Entry, token: AccessToken) {
    exists i: nat | i < n :: Takes(configured, trace, i, Answer(t, entry, token))
  }

  /** It gave no token, and that could not be swallowed. */
  ghost predicate Refused(configured: string, trace: seq<State>, n: nat, t: nat, c: Call) {
    exists i: nat | i < n ::
      && Takes(configured, trace, i, Refuse(t)) && t in trace[i].threads
      && (trace[i].threads[t].pc.Redeeming? || !c.swallows)
  }

  /** A call that saw `at` to be due did not get another one: the flag was taken, the cache had changed, or
      the refresh failed and that was swallowed. */
  predicate GivesUp(configured: string, trace: seq<State>, i: nat, t: nat, c: Call, at: AccessToken)
    requires i < |trace| && t in trace[i].threads
  {
    match trace[i].threads[t].pc
    case Swapping(seen) => seen == at && Moves(trace, i, t) && On(trace[i], c.tenantID)
    case Rereading(seen) => seen == at && Moves(trace, i, t)
      && forall e | e in trace[i].cache && Asks(configured, c, e) :: trace[i].cache[e].secret != at.secret
    case Refreshing(seen) => seen == at && c.swallows && Takes(configured, trace, i, Refuse(t))
    case _ => false
  }

  ghost predicate GaveUp(configured: string, trace: seq<State>, n: nat, t: nat, c: Call, at: AccessToken) {
    exists i: nat | i < n && i < |trace| && t in trace[i].threads :: GivesUp(configured, trace, i, t, c, at)
  }

  ghost predicate CameBy(configured: string, trace: seq<State>, n: nat, t: nat, c: Call, o: Outcome) {
    match o
    case FromCache(at) =>
      || ReadOnce(configured, trace, n, t, c, at, false)
      || (ReadOnce(configured, trace, n, t, c, at, true) && GaveUp(configured, trace, n, t, c, at))
    case FromProvider(token) => exists entry :: Answered(configured, trace, n, t, entry, token)
    case Failed => Refused(configured, trace, n, t, c)
  }

  /** How a call came to be where it is in state `n`. */
  ghost predicate Explained(configured: string, trace: seq<State>, n: nat, t: nat)
    requires n < |trace| && t in trace[n].threads
  {
    var c := trace[n].threads[t].call;
    match trace[n].threads[t].pc
    case Reading => true
    case FetchingFlag(seen) => ReadOnce(configured, trace, n, t, c, seen, true)
    case Swapping(seen) => c.tenantID in trace[n].flags && ReadOnce(configured, trace, n, t, c, seen, true)
    case Rereading(seen) => ReadOnce(configured, trace, n, t, c, seen, true)
    case Refreshing(seen) => ReadOnce(configured, trace, n, t, c, seen, true)
    case Writing(seen, entry, token) =>
      ReadOnce(configured, trace, n, t, c, seen, true) && Answered(configured, trace, n, t, entry, token)
    case Redeeming => FoundNothing(configured, trace, n, t, c)
    case Storing(entry, token) =>
      FoundNothing(configured, trace, n, t, c) && Answered(configured, trace, n, t, entry, token)
    case Releasing(o) => CameBy(configured, trace, n, t, c, o)
    case Returned(o) => CameBy(configured, trace, n, t, c, o)
  }

  lemma OutcomeGrows(configured: string, trace: seq<State>, n: nat, t: nat, c: Call, o: Outcome)
    requires CameBy(configured, trace, n, t, c, o)
    ensures CameBy(configured, trace, n + 1, t, c, o)
  {
    hide GivesUp, ReadsAt, Servable, Takes;
    if o.FromProvider? {
      var entry :| Answered(configured, trace, n, t, entry, o.token);
      assert Answered(configured, trace, n + 1, t, entry, o.token);
    }
  }

  /** What explains a call goes on explaining it while it stays where it is. */
  lemma ExplainedStays(configured: string, trace: seq<State>, n: nat, t: nat)
    requires n + 1 < |trace| && t in trace[n].threads && t in trace[n + 1].threads
    requires trace[n + 1].threads[t] == trace[n].threads[t] && Explained(configured, trace, n, t)
    requires forall id | id in trace[n].flags :: id in trace[n + 1].flags
    ensures Explained(configured, trace, n + 1, t)
  {
    var c, pc := trace[n].threads[t].call, trace[n].threads[t].pc;
    if pc.Releasing? || pc.Returned? {
      OutcomeGrows(configured, trace, n, t, c, pc.outcome);
    }
    hide CameBy, ReadsAt, Servable, Takes;
  }

  lemma SameCall(configured: string, trace: seq<State>, n: nat, t: nat, a: Action)
    requires Takes(configured, trace, n, a) && t in trace[n].threads && t in trace[n + 1].threads
    requires !a.Begin? || a.t != t
    ensures trace[n + 1].threads[t].call == trace[n].threads[t].call
  {
    if a.Outside? || a.Tick? || a.t != t {
      Untouched(configured, trace[n], a, t);
    } else {
      hide Usable, DueForRefresh, EntryOf, Secret;
    }
  }

  lemma ReadExplained(configured: string, trace: seq<State>, n: nat, t: nat)
    requires Run(configured, trace) && ReadsAt(trace, n, t)
    requires trace[n + 1].threads[t].call == trace[n].threads[t].call
    ensures Explained(configured, trace, n + 1, t)
  {
    var s, c, pc := trace[n], trace[n].threads[t].call, trace[n + 1].threads[t].pc;
    ReadDecides(configured, trace, n, t);
    hide Servable, Due, Run;
    if at :| Servable(configured, s, c, at) {
      assert pc == FetchingFlag(at) || pc == Returned(FromCache(at));
      assert ReadOnce(configured, trace, n + 1, t, c, at, Due(at, s.now));
    } else {
      assert FoundNothing(configured, trace, n + 1, t, c);
    }
  }

  lemma ReplyExplained(configured: string, trace: seq<State>, n: nat, t: nat, a: Action)
    requires Takes(configured, trace, n, a) && (a.Answer? || a.Refuse?) && a.t == t && Moves(trace, n, t)
    requires trace[n].threads[t].pc.Refreshing? || trace[n].threads[t].pc.Redeeming?
    requires Explained(configured, trace, n, t) && trace[n + 1].threads[t].call == trace[n].threads[t].call
    ensures Explained(configured, trace, n + 1, t)
  {
    var c, pc, pc' := trace[n].threads[t].call, trace[n].threads[t].pc, trace[n + 1].threads[t].pc;
    hide ReadsAt, Servable, Step;
    if a.Answer? {
      assert Answered(configured, trace, n + 1, t, a.entry, a.token);
      assert pc' == if pc.Refreshing? then Writing(pc.seen, a.entry, a.token) else Storing(a.entry, a.token);
    } else if pc.Redeeming? || !c.swallows {
      assert Refused(configured, trace, n + 1, t, c);
    } else {
      assert GivesUp(configured, trace, n, t, c, pc.seen);
    }
  }

  lemma WorkExplained(configured: string, trace: seq<State>, n: nat, t: nat, a: Action)
    requires Takes(configured, trace, n, a) && a == Advance(t) && Moves(trace, n, t)
    requires !trace[n].threads[t].pc.Reading? && !trace[n].threads[t].pc.Releasing?
    requires Explained(configured, trace, n, t) && trace[n + 1].threads[t].call == trace[n].threads[t].call
    ensures Explained(configured, trace, n + 1, t)
  {
    var c, pc, pc' := trace[n].threads[t].call, trace[n].threads[t].pc, trace[n + 1].threads[t].pc;
    assert forall e | Asks(configured, c, e) :: e == EntryOf(configured, c);
    hide ReadsAt, Servable, Asks, EntryOf, Usable, DueForRefresh;
    if (pc.Swapping? && !pc'.Rereading?) || (pc.Rereading? && !pc'.Refreshing?) {
      assert GivesUp(configured, trace, n, t, c, pc.seen);
      assert GaveUp(configured, trace, n + 1, t, c, pc.seen);
    } else if pc.Writing? || pc.Storing? {
      assert Answered(configured, trace, n + 1, t, pc.entry, pc.token);
      assert CameBy(configured, trace, n + 1, t, c, FromProvider(pc.token));
    }
  }

  /** A step of its own is explained by what explained the call before. */
  lemma MoveExplained(configured: string, trace: seq<State>, n: nat, t: nat)
    requires Run(configured, trace) && Moves(trace, n, t) && Explained(configured, trace, n, t)
    ensures trace[n + 1].threads[t].call == trace[n].threads[t].call
    ensures Explained(configured, trace, n + 1, t)
  {
    var c, pc := trace[n].threads[t].call, trace[n].threads[t].pc;
    var a := Mover(configured, trace, n, t);
    assert trace[n + 1].threads[t].call == c by { SameCall(configured, trace, n, t, a); }
    if pc.Reading? {
      ReadExplained(configured, trace, n, t);
    } else if pc.Refreshing? || pc.Redeeming? {
      ReplyExplained(configured, trace, n, t, a);
    } else if pc.Releasing? {
      OutcomeGrows(configured, trace, n, t, c, pc.outcome);
      hide CameBy;
      assert trace[n + 1].threads[t].pc == Returned(pc.outcome);
    } else {
      WorkExplained(configured, trace, n, t, a);
    }
  }

  lemma {:induction false} AlwaysExplained(configured: string, trace: seq<State>, n: nat, t: nat)
    requires Run(configured, trace) && n < |trace| && t in trace[n].threads
    ensures Explained(configured, trace, n, t)
  {
    if n > 0 {
      assert Next(configured, trace[n - 1], trace[n]);
      var a :| Enabled(trace[n - 1], a) && trace[n] == Apply(configured, trace[n - 1], a);
      if t !in trace[n - 1].threads {
        assert a == Begin(t, trace[n].threads[t].call) by {
          if a.Outside? || a.Tick? || a.t != t {
            Untouched(configured, trace[n - 1], a, t);
          }
        }
      } else {
        AlwaysExplained(configured, trace, n - 1, t);
        SameCall(configured, trace, n - 1, t, a);
        hide Explained, Apply;
        if trace[n].threads[t].pc == trace[n - 1].threads[t].pc {
          FlagsStay(configured, trace[n - 1], a);
          ExplainedStays(configured, trace, n - 1, t);
        } else {
          MoveExplained(configured, trace, n - 1, t);
        }
      }
    }
  }

  /** Over every interleaving: a token that is served from the cache was there for the call when it first
      read, and in time; and if it was due then, the call had a reason not to replace it.  A token from the
      identity provider is one that it gave this very call.  And a call fails only when it was refused. */
  lemma HandsOut(configured: string, trace: seq<State>, n: nat, t: nat)
    requires Run(configured, trace) && n < |trace| && t in trace[n].threads && trace[n].threads[t].pc.Returned?
    ensures CameBy(configured, trace, n, t, trace[n].threads[t].call, trace[n].threads[t].pc.outcome)
  {
    AlwaysExplained(configured, trace, n, t);
  }

  /** Over every interleaving: a call redeems its refresh token only if it first found nothing that it may
      use, and refreshes a token ahead of time only if that was due. */
  lemma AsksProvider(configured: string, trace: seq<State>, n: nat, t: nat)
    requires Run(configured, trace) && n < |trace| && t in trace[n].threads
    ensures var c, pc := trace[n].threads[t].call, trace[n].threads[t].pc;
      && (pc.Redeeming? ==> FoundNothing(configured, trace, n, t, c))
      && (pc.Refreshing? ==> ReadOnce(configured, trace, n, t, c, pc.seen, true))
  {
    AlwaysExplained(configured, trace, n, t);
  }
}
