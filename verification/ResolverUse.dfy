/** What a caller of the endpoint resolution gets, and from whom. */
module ResolverUse {
  import opened Wrappers
  import opened Endpoints
  import opened Resolver

  /** The action between states `i` and `i + 1`. */
  ghost predicate Takes(trace: seq<State>, i: nat, a: Action) {
    i + 1 < |trace| && Enabled(trace[i], a) && trace[i + 1] == Apply(trace[i], a)
  }

  /** Between states `i` and `i + 1` the call goes on from where it was. */
  predicate Moves(trace: seq<State>, i: nat, t: nat) {
    && i + 1 < |trace| && t in trace[i].threads && t in trace[i + 1].threads
    && trace[i + 1].threads[t].pc != trace[i].threads[t].pc
  }

  lemma SomeAction(trace: seq<State>, i: nat) returns (a: Action)
    requires Run(trace) && i + 1 < |trace|
    ensures Takes(trace, i, a)
  {
    assert Next(trace[i], trace[i + 1]);
    a :| Enabled(trace[i], a) && trace[i + 1] == Apply(trace[i], a);
  }

  /** Whoever moves, moved by an action of its own; all others stay. */
  lemma Mover(trace: seq<State>, i: nat, t: nat) returns (a: Action)
    requires Run(trace) && i + 1 < |trace| && t in trace[i].threads
    ensures Takes(trace, i, a)
    ensures t in trace[i + 1].threads && trace[i + 1].threads[t].info == trace[i].threads[t].info
    ensures Moves(trace, i, t) ==> a.t == t && (a.Advance? <==> !trace[i].threads[t].pc.Discovering?) && !a.Begin?
    ensures !Moves(trace, i, t) ==> trace[i + 1].threads[t] == trace[i].threads[t]
  {
    a := SomeAction(trace, i);
    Untouched(trace[i], a, t);
    hide Apply;
  }

  // ----- the first look -----

  /** A call that finds its authority in the cache returns that at once, and otherwise joins the group. */
  lemma HitReturns(trace: seq<State>, i: nat, t: nat)
    requires Run(trace) && Moves(trace, i, t) && trace[i].threads[t].pc.Checking?
    ensures var uri, cache := trace[i].threads[t].info.canonicalAuthorityURI, trace[i].cache;
      trace[i + 1].threads[t].pc == if uri in cache then Returned(Some(cache[uri])) else Joining
  {
    var a := Mover(trace, i, t);
  }

  // ----- followers -----

  /** Whoever has published an outcome has returned it. */
  ghost predicate OutcomesReturned(s: State) {
    forall l | l in s.outcomes :: l in s.threads && s.threads[l].pc == Returned(s.outcomes[l])
  }

  lemma OutcomesKept(s: State, a: Action)
    requires OutcomesReturned(s) && Enabled(s, a)
    ensures OutcomesReturned(Apply(s, a))
    ensures forall l | l in s.outcomes :: l in Apply(s, a).outcomes && Apply(s, a).outcomes[l] == s.outcomes[l]
  {
    hide Resolved, Lookup, Step;
    if a.Advance? {
      OutcomesKeptByStep(s, a.t);
    }
  }

  lemma OutcomesKeptByStep(s: State, t: nat)
    requires OutcomesReturned(s) && Enabled(s, Advance(t))
    ensures OutcomesReturned(Step(s, t))
    ensures forall l | l in s.outcomes :: l in Step(s, t).outcomes && Step(s, t).outcomes[l] == s.outcomes[l]
  {
    hide Lookup;
  }

  lemma {:induction false} AlwaysReturned(trace: seq<State>, n: nat)
    requires Run(trace) && n < |trace|
    ensures OutcomesReturned(trace[n])
  {
    if n > 0 {
      AlwaysReturned(trace, n - 1);
      var a := SomeAction(trace, n - 1);
      hide Enabled, Apply;
      OutcomesKept(trace[n - 1], a);
    }
  }

  /** The call has got what its leader published. */
  predicate Got(s: State, t: nat, l: nat) {
    t in s.threads && l in s.outcomes && s.threads[t].pc == Returned(s.outcomes[l])
  }

  lemma {:induction false} WaitsOrGot(trace: seq<State>, i: nat, k: nat, t: nat, l: nat)
    requires Run(trace) && i <= k < |trace| && t in trace[i].threads && trace[i].threads[t].pc == Waiting(l)
    ensures t in trace[k].threads && (trace[k].threads[t].pc == Waiting(l) || Got(trace[k], t, l))
  {
    hide Run, OutcomesReturned, Apply, Enabled;
    if i < k {
      WaitsOrGot(trace, i, k - 1, t, l);
      AlwaysReturned(trace, k - 1);
      var a := Mover(trace, k - 1, t);
      OutcomesKept(trace[k - 1], a);
      if Moves(trace, k - 1, t) {
        WaitEnds(trace[k - 1], t);
        ReturnedRests(trace[k - 1], t);
        assert trace[k] == Apply(trace[k - 1], Advance(t));
      }
    }
  }

  lemma WaitEnds(s: State, t: nat)
    requires Enabled(s, Advance(t)) && OutcomesReturned(s)
    ensures s.threads[t].pc.Waiting? ==> Got(Apply(s, Advance(t)), t, s.threads[t].pc.leader)
  {
  }

  lemma ReturnedRests(s: State, t: nat)
    requires Enabled(s, Advance(t))
    ensures !s.threads[t].pc.Returned?
  {
  }

  /** Over every interleaving: a call that waited for another one returns exactly what that one returned,
      be it endpoints or a failure. */
  lemma FollowerShares(trace: seq<State>, i: nat, k: nat, t: nat)
    requires Run(trace) && i <= k < |trace| && t in trace[i].threads && trace[i].threads[t].pc.Waiting?
    requires t in trace[k].threads && trace[k].threads[t].pc.Returned?
    ensures var l := trace[i].threads[t].pc.leader;
      && l in trace[k].threads && Uri(trace[k], l) == Uri(trace[k], t)
      && l in trace[k].outcomes && trace[k].threads[t].pc == Returned(trace[k].outcomes[l]) == trace[k].threads[l].pc
  {
    var l := trace[i].threads[t].pc.leader;
    WaitsOrGot(trace, i, k, t, l);
    AlwaysReturned(trace, k);
    hide OutcomesReturned;
    AlwaysGood(trace);
    assert Knows(trace[i], t);
    hide Good, Run, Knows;
    SameInfo(trace, i, k, t);
    SameInfo(trace, i, k, l);
  }

  lemma {:induction false} SameInfo(trace: seq<State>, i: nat, k: nat, t: nat)
    requires Run(trace) && i <= k < |trace| && t in trace[i].threads
    ensures t in trace[k].threads && trace[k].threads[t].info == trace[i].threads[t].info
  {
    hide Run, Apply, Enabled, Moves;
    if i < k {
      SameInfo(trace, i, k - 1, t);
      var a := Mover(trace, k - 1, t);
    }
  }

  // ----- leaders -----

  /** After its answer the leader only has this outcome to publish. */
  predicate Bound(s: State, t: nat, outcome: Option<Endpoints>) {
    && t in s.threads
    && (s.threads[t].pc == Publishing(outcome) || s.threads[t].pc == Returned(outcome)
        || (outcome.Some? && s.threads[t].pc == Caching(outcome.value)))
  }

  lemma {:induction false} StaysBound(trace: seq<State>, i: nat, k: nat, t: nat, outcome: Option<Endpoints>)
    requires Run(trace) && i <= k < |trace| && Bound(trace[i], t, outcome)
    ensures Bound(trace[k], t, outcome)
  {
    hide Run, Apply, Enabled;
    if i < k {
      StaysBound(trace, i, k - 1, t, outcome);
      var a := Mover(trace, k - 1, t);
      if Moves(trace, k - 1, t) {
        BoundKept(trace[k - 1], t, outcome);
        assert trace[k] == Apply(trace[k - 1], Advance(t));
      }
    }
  }

  lemma BoundKept(s: State, t: nat, outcome: Option<Endpoints>)
    requires Enabled(s, Advance(t)) && Bound(s, t, outcome)
    ensures Bound(Apply(s, Advance(t)), t, outcome)
  {
    hide Lookup;
  }

  /** Over every interleaving: the call that got the replies returns endpoints exactly if those validate, and
      then the ones that they say. */
  lemma LeaderReturns(trace: seq<State>, i: nat, k: nat, t: nat, replies: Replies)
    requires Run(trace) && i < k < |trace| && Takes(trace, i, Answer(t, replies))
    requires t in trace[k].threads && trace[k].threads[t].pc.Returned?
    ensures forall e ::
      Validated(trace[i].threads[t].info, replies, e) <==> trace[k].threads[t].pc.outcome == Some(e)
  {
    var outcome := Resolved(trace[i].threads[t].info, replies);
    hide Run, Resolved, Validated;
    assert Bound(trace[i + 1], t, outcome);
    StaysBound(trace, i + 1, k, t, outcome);
  }

  // ----- failures -----

  /** Some discovery for this URI had replies that do not validate. */
  ghost predicate FailedFor(s: State, uri: string) {
    exists f | f in s.failed ::
      f.info.canonicalAuthorityURI == uri && forall e :: !Validated(f.info, f.replies, e)
  }

  /** Nobody is about to fail, or has, without such a discovery. */
  ghost predicate FailuresFounded(s: State) {
    forall t | t in s.threads && (s.threads[t].pc == Publishing(None) || s.threads[t].pc == Returned(None)) ::
      FailedFor(s, Uri(s, t))
  }

  lemma FailuresKept(s: State, a: Action)
    requires Good(s) && OutcomesReturned(s) && FailuresFounded(s) && Enabled(s, a)
    ensures FailuresFounded(Apply(s, a))
  {
    var s' := Apply(s, a);
    FailedGrows(s, a);
    forall t | t in s'.threads && (s'.threads[t].pc == Publishing(None) || s'.threads[t].pc == Returned(None))
      ensures FailedFor(s', Uri(s', t))
    {
      if t != a.t {
        NoneAppear(s, a, t);
        Untouched(s, a, t);
      } else {
        MoverFounded(s, a);
      }
    }
  }

  lemma FailedGrows(s: State, a: Action)
    requires Enabled(s, a)
    ensures forall uri | FailedFor(s, uri) :: FailedFor(Apply(s, a), uri)
  {
    assert s.failed <= Apply(s, a).failed by { hide Resolved, Lookup; }
    hide Apply, Enabled, Validated;
    assert forall f | f in s.failed :: f in Apply(s, a).failed;
  }

  lemma MoverFounded(s: State, a: Action)
    requires Good(s) && OutcomesReturned(s) && FailuresFounded(s) && Enabled(s, a)
    requires forall uri | FailedFor(s, uri) :: FailedFor(Apply(s, a), uri)
    requires var s' := Apply(s, a);
      a.t in s'.threads && (s'.threads[a.t].pc == Publishing(None) || s'.threads[a.t].pc == Returned(None))
    ensures FailedFor(Apply(s, a), Uri(Apply(s, a), a.t))
  {
    match a {
      case Answer(t, replies) => AnswerFounded(s, t, replies);
      case Advance(t) =>
        assert Knows(s, t);
        hide Good, FailedFor;
        StepFounded(s, t);
      case Begin(_, _) =>
    }
  }

  lemma AnswerFounded(s: State, t: nat, replies: Replies)
    requires Enabled(s, Answer(t, replies))
    ensures var s' := Apply(s, Answer(t, replies)); s'.threads[t].pc == Publishing(None) ==> FailedFor(s', Uri(s', t))
  {
    var f, s' := Failure(s.threads[t].info, replies), Apply(s, Answer(t, replies));
    var r := Resolved(f.info, replies);
    assert forall e :: Validated(f.info, replies, e) <==> r == Some(e);
    hide Resolved, Validated;
    if r.None? {
      assert s'.failed[|s.failed|] == f && f in s'.failed;
    }
  }

  /** A failure is handed on only from one that was there before. */
  lemma StepFounded(s: State, t: nat)
    requires Enabled(s, Advance(t)) && Knows(s, t) && OutcomesReturned(s) && FailuresFounded(s)
    requires var s' := Apply(s, Advance(t));
      && t in s'.threads && (s'.threads[t].pc == Publishing(None) || s'.threads[t].pc == Returned(None))
    ensures FailedFor(s, Uri(s, t)) && Uri(s, t) == Uri(Apply(s, Advance(t)), t)
  {
    hide FailedFor, FoundAs, Holds;
  }

  lemma {:induction false} AlwaysFounded(trace: seq<State>, n: nat)
    requires Run(trace) && n < |trace|
    ensures FailuresFounded(trace[n])
  {
    if n > 0 {
      AlwaysFounded(trace, n - 1);
      AlwaysGood(trace);
      AlwaysReturned(trace, n - 1);
      var a := SomeAction(trace, n - 1);
      hide Good, Enabled, Apply, Run;
      FailuresKept(trace[n - 1], a);
    }
  }

  /** Over every interleaving: a call fails only if some discovery for its URI had replies that do not
      validate. */
  lemma FailsOnlyOnReplies(trace: seq<State>, n: nat, t: nat)
    requires Run(trace) && n < |trace| && t in trace[n].threads && trace[n].threads[t].pc == Returned(None)
    ensures FailedFor(trace[n], Uri(trace[n], t))
  {
    AlwaysFounded(trace, n);
  }

  // ----- progress -----

  /** Over every interleaving: a call that has not returned can go on, waits for the network, or waits for a
      call for the same URI that does not wait for another. */
  lemma NobodyStuck(trace: seq<State>, n: nat, t: nat)
    requires Run(trace) && n < |trace| && t in trace[n].threads && !trace[n].threads[t].pc.Returned?
    ensures var s, pc := trace[n], trace[n].threads[t].pc;
      || Enabled(s, Advance(t)) || pc.Discovering?
      || (pc.Waiting? && pc.leader in s.threads && Uri(s, pc.leader) == Uri(s, t)
          && (Enabled(s, Advance(pc.leader)) || s.threads[pc.leader].pc.Discovering?))
  {
    AlwaysGood(trace);
    assert Knows(trace[n], t);
  }
}
