/** Endpoint resolution as a protocol of interleaved calls: look into the cache, join or lead the
    singleflight group of the authority, look again, discover, validate, cache, publish. */
module Resolver {
  import opened Wrappers
  import opened Endpoints

  datatype Pc =
    | Checking
    | Joining
    | Waiting(leader: nat)
    | Rechecking
    | Discovering
    | Caching(endpoints: Endpoints)
    | Publishing(outcome: Option<Endpoints>)
    | Returned(outcome: Option<Endpoints>)

  datatype Thread = Thread(info: Info, pc: Pc)

  /** A discovery whose replies validated. */
  datatype Discovery = Discovery(info: Info, replies: Replies, endpoints: Endpoints)

  /** A discovery whose replies did not. */
  datatype Failure = Failure(info: Info, replies: Replies)

  /** `flights` names the call that leads the group of an authority URI, `outcomes` what the leaders have
      published.  `discovered`, `failed` and `written` remember the discoveries and the cache writes. */
  datatype State = State(
    cache: map<string, Endpoints>, flights: map<string, nat>, outcomes: map<nat, Option<Endpoints>>,
    threads: map<nat, Thread>, discovered: seq<Discovery>, failed: seq<Failure>, written: seq<string>)

  datatype Action = Begin(t: nat, info: Info) | Advance(t: nat) | Answer(t: nat, replies: Replies)

  function Uri(s: State, t: nat): string
    requires t in s.threads
  {
    s.threads[t].info.canonicalAuthorityURI
  }

  predicate Enabled(s: State, a: Action) {
    match a
    case Begin(t, _) => t !in s.threads
    case Answer(t, _) => t in s.threads && s.threads[t].pc.Discovering?
    case Advance(t) => t in s.threads && match s.threads[t].pc {
      case Discovering => false
      case Returned(_) => false
      case Waiting(leader) => leader in s.outcomes
      case _ => true
    }
  }

  function Goto(s: State, t: nat, pc: Pc): State
    requires t in s.threads
  {
    s.(threads := s.threads[t := s.threads[t].(pc := pc)])
  }

  function Lookup(s: State, uri: string): Option<Endpoints> { if uri in s.cache then Some(s.cache[uri]) else None }

  function Step(s: State, t: nat): State
    requires Enabled(s, Advance(t))
  {
    var uri := Uri(s, t);
    match s.threads[t].pc
    case Checking => Goto(s, t, if Lookup(s, uri).Some? then Returned(Lookup(s, uri)) else Joining)
    case Joining =>
      if uri in s.flights then Goto(s, t, Waiting(s.flights[uri]))
      else Goto(s.(flights := s.flights[uri := t]), t, Rechecking)
    case Waiting(leader) => Goto(s, t, Returned(s.outcomes[leader]))
    case Rechecking => Goto(s, t, if Lookup(s, uri).Some? then Publishing(Lookup(s, uri)) else Discovering)
    case Caching(e) => Goto(s.(cache := s.cache[uri := e], written := s.written + [uri]), t, Publishing(Some(e)))
    case Publishing(outcome) =>
      Goto(s.(flights := s.flights - {uri}, outcomes := s.outcomes[t := outcome]), t, Returned(outcome))
    case _ => s
  }

  function Apply(s: State, a: Action): State
    requires Enabled(s, a)
  {
    match a
    case Begin(t, info) => s.(threads := s.threads[t := Thread(info, Checking)])
    case Advance(t) => Step(s, t)
    case Answer(t, replies) =>
      var info, r := s.threads[t].info, Resolved(s.threads[t].info, replies);
      if r.None? then Goto(s.(failed := s.failed + [Failure(info, replies)]), t, Publishing(None))
      else Goto(s.(discovered := s.discovered + [Discovery(info, replies, r.value)]), t, Caching(r.value))
  }

  predicate Initial(s: State) {
    && s.cache == map[] && s.flights == map[] && s.outcomes == map[] && s.threads == map[]
    && s.discovered == [] && s.failed == [] && s.written == []
  }

  ghost predicate Next(s: State, s': State) {
    exists a :: Enabled(s, a) && s' == Apply(s, a)
  }

  /** The states of any number of interleaved calls. */
  ghost predicate Run(trace: seq<State>) {
    trace != [] && Initial(trace[0]) && forall i | 0 < i < |trace| :: Next(trace[i - 1], trace[i])
  }

  // ----- the group -----

  /** Between joining the group as its leader and publishing the outcome. */
  predicate Leading(pc: Pc) { pc.Rechecking? || pc.Discovering? || pc.Caching? || pc.Publishing? }

  predicate Leads(s: State, t: nat, uri: string) { t in s.threads && Uri(s, t) == uri && Leading(s.threads[t].pc) }

  /** A URI has a flight exactly while one call leads it, and only that one. */
  ghost predicate OneLeader(s: State) {
    forall uri, t :: uri in s.flights && s.flights[uri] == t <==> Leads(s, t, uri)
  }

  lemma OneLeaderKept(s: State, a: Action)
    requires OneLeader(s) && Enabled(s, a)
    ensures OneLeader(Apply(s, a))
  {
    var s' := Apply(s, a);
    forall uri, t ensures uri in s'.flights && s'.flights[uri] == t <==> Leads(s', t, uri) {
      LeaderKept(s, a, uri, t);
    }
  }

  lemma LeaderKept(s: State, a: Action, uri: string, t: nat)
    requires OneLeader(s) && Enabled(s, a)
    ensures var s' := Apply(s, a); uri in s'.flights && s'.flights[uri] == t <==> Leads(s', t, uri)
  {
    assert uri in s.flights && s.flights[uri] == t <==> Leads(s, t, uri);
    if a.t in s.threads {
      var own := Uri(s, a.t);
      assert own in s.flights && s.flights[own] == a.t <==> Leads(s, a.t, own);
    }
    hide OneLeader, Resolved, Lookup;
    if a.Advance? {
      StepKeepsLeader(s, a.t, uri, t);
    }
  }

  lemma StepKeepsLeader(s: State, m: nat, uri: string, t: nat)
    requires Enabled(s, Advance(m))
    requires uri in s.flights && s.flights[uri] == t <==> Leads(s, t, uri)
    requires Uri(s, m) in s.flights && s.flights[Uri(s, m)] == m <==> Leads(s, m, Uri(s, m))
    ensures var s' := Step(s, m); uri in s'.flights && s'.flights[uri] == t <==> Leads(s', t, uri)
  {
    hide Lookup;
    StepUntouched(s, m, t);
    if m != t {
      hide Leading;
    }
  }

  // ----- what the cache holds -----

  predicate Holds(s: State, uri: string, e: Endpoints) { uri in s.cache && s.cache[uri] == e }

  /** The URI was discovered, with these endpoints. */
  predicate FoundAs(s: State, uri: string, e: Endpoints) {
    exists d | d in s.discovered :: d.info.canonicalAuthorityURI == uri && d.endpoints == e
  }

  /** What a call knows at each point. */
  predicate Knows(s: State, t: nat)
    requires t in s.threads
  {
    var uri := Uri(s, t);
    match s.threads[t].pc
    case Waiting(leader) =>
      leader in s.threads && Uri(s, leader) == uri && (leader in s.outcomes || Leading(s.threads[leader].pc))
    case Discovering => uri !in s.cache && forall d | d in s.discovered :: d.info.canonicalAuthorityURI != uri
    case Caching(e) => uri !in s.cache && FoundAs(s, uri, e)
    case Publishing(Some(e)) => Holds(s, uri, e)
    case Returned(Some(e)) => Holds(s, uri, e)
    case _ => true
  }

  predicate Published(s: State, t: nat)
    requires t in s.outcomes
  {
    t in s.threads && (s.outcomes[t].Some? ==> Holds(s, Uri(s, t), s.outcomes[t].value))
  }

  /** A discovery is in the cache, or its call is about to put it there. */
  predicate Kept(s: State, d: Discovery) {
    var uri := d.info.canonicalAuthorityURI;
    Holds(s, uri, d.endpoints)
    || (uri in s.flights && s.flights[uri] in s.threads && s.threads[s.flights[uri]].pc == Caching(d.endpoints))
  }

  ghost predicate AllKnow(s: State) { forall t | t in s.threads :: Knows(s, t) }

  ghost predicate AllPublished(s: State) { forall t | t in s.outcomes :: Published(s, t) }

  ghost predicate AllKept(s: State) { forall d | d in s.discovered :: Kept(s, d) }

  /** Only endpoints of a successful discovery are ever cached. */
  ghost predicate OnlyDiscovered(s: State) { forall uri | uri in s.cache :: FoundAs(s, uri, s.cache[uri]) }

  /** A discovery counts as successful only if its replies validated. */
  ghost predicate AllValidated(s: State) {
    forall d | d in s.discovered :: Validated(d.info, d.replies, d.endpoints)
  }

  ghost predicate Good(s: State) {
    && OneLeader(s) && AllKnow(s) && AllPublished(s) && AllKept(s) && OnlyDiscovered(s) && AllValidated(s)
    && DiscoveredOnce(s) && WrittenOnce(s)
  }

  /** No URI has two successful discoveries, or two cache writes. */
  ghost predicate DiscoveredOnce(s: State) {
    forall i, k | 0 <= i < k < |s.discovered| ::
      s.discovered[i].info.canonicalAuthorityURI != s.discovered[k].info.canonicalAuthorityURI
  }

  ghost predicate WrittenOnce(s: State) {
    && (forall i, k | 0 <= i < k < |s.written| :: s.written[i] != s.written[k])
    && forall uri | uri in s.written :: uri in s.cache
  }

  /** Nothing that was cached, found or published is lost or changed. */
  ghost predicate Grown(s: State, s': State) {
    && (forall uri, e :: Holds(s, uri, e) ==> Holds(s', uri, e))
    && (forall uri, e :: FoundAs(s, uri, e) ==> FoundAs(s', uri, e))
    && (forall t | t in s.threads :: t in s'.threads && s'.threads[t].info == s.threads[t].info)
    && (forall t | t in s.outcomes :: t in s'.outcomes)
  }

  lemma CacheGrows(s: State, a: Action)
    requires AllKnow(s) && Enabled(s, a)
    ensures var s' := Apply(s, a);
      && (forall uri, e :: Holds(s, uri, e) ==> Holds(s', uri, e))
      && (forall t | t in s.outcomes :: t in s'.outcomes)
  {
    if a.Advance? {
      assert Knows(s, a.t);
    }
    hide Resolved, AllKnow, FoundAs;
  }

  lemma Grows(s: State, a: Action)
    requires AllKnow(s) && Enabled(s, a)
    ensures Grown(s, Apply(s, a))
  {
    CacheGrows(s, a);
    var s' := Apply(s, a);
    hide Resolved, Knows, AllKnow, Holds, Lookup;
    assert s.discovered <= s'.discovered;
    forall t | t in s.threads ensures t in s'.threads && s'.threads[t].info == s.threads[t].info {
      Untouched(s, a, t);
    }
    hide Apply;
    assert forall d | d in s.discovered :: d in s'.discovered;
    assert forall uri, e :: FoundAs(s, uri, e) ==> FoundAs(s', uri, e);
  }

  /** A step changes the cache, or adds a discovery, only under the URI of the call that leads. */
  lemma OnlyLeadersChange(s: State, a: Action, uri: string)
    requires Enabled(s, a) && !Leads(s, a.t, uri)
    ensures var s' := Apply(s, a);
      && (uri in s'.cache ==> uri in s.cache)
      && forall d | d in s'.discovered && d.info.canonicalAuthorityURI == uri :: d in s.discovered
  {
    hide Resolved;
  }

  lemma StepUntouched(s: State, m: nat, t: nat)
    requires Enabled(s, Advance(m))
    ensures var s' := Step(s, m); t in s'.threads <==> t in s.threads
    ensures var s' := Step(s, m); t in s.threads ==>
      && t in s'.threads && s'.threads[t].info == s.threads[t].info && (t != m ==> s'.threads[t] == s.threads[t])
  {
    hide Lookup;
  }

  lemma Untouched(s: State, a: Action, t: nat)
    requires Enabled(s, a) && t in s.threads
    ensures var s' := Apply(s, a);
      && t in s'.threads && s'.threads[t].info == s.threads[t].info && (t != a.t ==> s'.threads[t] == s.threads[t])
  {
    if a.Advance? {
      StepUntouched(s, a.t, t);
    }
    hide Resolved, Step;
  }

  lemma LeaderStays(s: State, a: Action, t: nat)
    requires Enabled(s, a) && t in s.threads && (t in s.outcomes || Leading(s.threads[t].pc))
    ensures var s' := Apply(s, a); t in s'.outcomes || (t in s'.threads && Leading(s'.threads[t].pc))
  {
    hide Resolved, Lookup;
    if a.t != t {
      Untouched(s, a, t);
    }
  }

  lemma OthersKnow(s: State, a: Action, t: nat)
    requires AllKnow(s) && OneLeader(s) && Enabled(s, a) && t != a.t && t in s.threads
    ensures var s' := Apply(s, a); t in s'.threads && Knows(s', t)
  {
    assert Knows(s, t);
    Grows(s, a);
    var s' := Apply(s, a);
    Untouched(s, a, t);
    if Leading(s.threads[t].pc) {
      assert Leads(s, t, Uri(s, t)) && !Leads(s, a.t, Uri(s, t));
      OnlyLeadersChange(s, a, Uri(s, t));
    }
    if s.threads[t].pc.Waiting? {
      Untouched(s, a, s.threads[t].pc.leader);
      LeaderStays(s, a, s.threads[t].pc.leader);
    }
    hide Apply, OneLeader, Enabled, Holds, FoundAs;
  }

  /** A leader that misses again knows that nobody has discovered its URI. */
  lemma MissMeansUndiscovered(s: State, t: nat, d: Discovery)
    requires OneLeader(s) && t in s.threads && s.threads[t].pc.Rechecking? && Kept(s, d)
    requires Uri(s, t) == d.info.canonicalAuthorityURI
    ensures Uri(s, t) in s.cache
  {
    assert Leads(s, t, Uri(s, t));
  }

  lemma MoverKnows(s: State, a: Action)
    requires OneLeader(s) && AllKnow(s) && AllPublished(s) && AllKept(s) && Enabled(s, a)
    ensures var s' := Apply(s, a); a.t in s'.threads && Knows(s', a.t)
  {
    hide Resolved, Step, Kept, OneLeader;
    if a.Advance? {
      var t, uri := a.t, Uri(s, a.t);
      assert Knows(s, t);
      if s.threads[t].pc.Rechecking? {
        forall d | d in s.discovered && d.info.canonicalAuthorityURI == uri
          ensures uri in s.cache
        {
          MissMeansUndiscovered(s, t, d);
        }
      }
      if s.threads[t].pc.Joining? && uri in s.flights {
        FlightLeads(s, uri);
      }
      if s.threads[t].pc.Waiting? {
        assert Published(s, s.threads[t].pc.leader);
      }
      hide Knows, Published;
      StepKnows(s, t);
    } else if a.Answer? {
      assert Knows(s, a.t);
      AnswerFound(s, a.t, a.replies);
    }
  }

  lemma FlightLeads(s: State, uri: string)
    requires OneLeader(s) && uri in s.flights
    ensures Leads(s, s.flights[uri], uri)
  {
  }

  lemma StepKnows(s: State, t: nat)
    requires Enabled(s, Advance(t)) && Knows(s, t)
    requires s.threads[t].pc.Rechecking? ==>
      forall d | d in s.discovered && d.info.canonicalAuthorityURI == Uri(s, t) :: Uri(s, t) in s.cache
    requires s.threads[t].pc.Joining? && Uri(s, t) in s.flights ==> Leads(s, s.flights[Uri(s, t)], Uri(s, t))
    requires s.threads[t].pc.Waiting? ==> Published(s, s.threads[t].pc.leader)
    ensures var s' := Step(s, t); t in s'.threads && Knows(s', t)
  {
  }

  lemma AnswerFound(s: State, t: nat, replies: Replies)
    requires Enabled(s, Answer(t, replies))
    ensures var s' := Apply(s, Answer(t, replies));
      s'.threads[t].pc.Caching? ==> FoundAs(s', Uri(s, t), s'.threads[t].pc.endpoints)
  {
    hide Resolved;
    var s' := Apply(s, Answer(t, replies));
    if s'.threads[t].pc.Caching? {
      assert s'.discovered[|s.discovered|] in s'.discovered;
    }
  }

  lemma AllKnowKept(s: State, a: Action)
    requires OneLeader(s) && AllKnow(s) && AllPublished(s) && AllKept(s) && Enabled(s, a)
    ensures AllKnow(Apply(s, a))
  {
    var s' := Apply(s, a);
    forall t | t in s'.threads ensures Knows(s', t) {
      if t == a.t {
        MoverKnows(s, a);
      } else {
        NoneAppear(s, a, t);
        OthersKnow(s, a, t);
      }
    }
  }

  lemma NoneAppear(s: State, a: Action, t: nat)
    requires Enabled(s, a) && t in Apply(s, a).threads && t != a.t
    ensures t in s.threads
  {
    hide Resolved;
    if a.Advance? {
      StepUntouched(s, a.t, t);
    }
    hide Step;
  }

  lemma AllPublishedKept(s: State, a: Action)
    requires AllKnow(s) && AllPublished(s) && Enabled(s, a)
    ensures AllPublished(Apply(s, a))
  {
    var s' := Apply(s, a);
    forall t | t in s'.outcomes ensures Published(s', t) {
      if t in s.outcomes && (t != a.t || !a.Advance?) {
        assert Published(s, t);
        Untouched(s, a, t);
        Grows(s, a);
        assert s'.outcomes[t] == s.outcomes[t] by { hide Resolved, Lookup; }
        hide Apply, Enabled, Grown;
        assert s'.outcomes[t].Some? ==> Holds(s', Uri(s', t), s'.outcomes[t].value) by { GrownHolds(s, s', Uri(s, t)); }
      } else {
        assert a.Advance? && t == a.t by { hide Resolved, Lookup; }
        assert Knows(s, t);
        PublishedByLeader(s, t);
      }
    }
  }

  lemma GrownHolds(s: State, s': State, uri: string)
    requires Grown(s, s')
    ensures forall e :: Holds(s, uri, e) ==> Holds(s', uri, e)
  {
  }

  lemma PublishedByLeader(s: State, t: nat)
    requires Enabled(s, Advance(t)) && Knows(s, t) && (t in s.outcomes ==> Published(s, t)) && t in Step(s, t).outcomes
    ensures Published(Step(s, t), t)
  {
    hide Lookup;
  }

  lemma KeptKept(s: State, a: Action, d: Discovery)
    requires OneLeader(s) && AllKnow(s) && Enabled(s, a) && d in Apply(s, a).discovered
      && (d in s.discovered ==> Kept(s, d))
    ensures Kept(Apply(s, a), d)
  {
    var uri := d.info.canonicalAuthorityURI;
    assert forall t | t in s.threads && Leading(s.threads[t].pc) :: Leads(s, t, Uri(s, t));
    if d in s.discovered {
      CacheGrows(s, a);
      if !Holds(s, uri, d.endpoints) {
        hide Resolved, Lookup, AllKnow, Knows, FoundAs;
        CachingStays(s, a, uri, d.endpoints);
      }
    } else {
      hide Resolved, Lookup, AllKnow, Knows;
    }
  }

  /** A call that is about to cache keeps its flight and does cache. */
  lemma CachingStays(s: State, a: Action, uri: string, e: Endpoints)
    requires OneLeader(s) && Enabled(s, a)
    requires uri in s.flights && s.flights[uri] in s.threads && s.threads[s.flights[uri]].pc == Caching(e)
    ensures var s' := Apply(s, a);
      || Holds(s', uri, e)
      || (uri in s'.flights && s'.flights[uri] in s'.threads && s'.threads[s'.flights[uri]].pc == Caching(e))
  {
    var t := s.flights[uri];
    assert Leads(s, t, uri);
    if a.t != t {
      Untouched(s, a, t);
      OneLeaderKept(s, a);
      hide OneLeader, Apply, Enabled;
      assert Leads(Apply(s, a), t, uri);
      StillLeads(Apply(s, a), t, uri);
    } else {
      hide OneLeader, Lookup;
    }
  }

  lemma StillLeads(s: State, t: nat, uri: string)
    requires OneLeader(s) && Leads(s, t, uri)
    ensures uri in s.flights && s.flights[uri] == t
  {
  }

  lemma DiscoveredOnceKept(s: State, a: Action)
    requires DiscoveredOnce(s) && AllValidated(s) && Enabled(s, a) && (a.t in s.threads ==> Knows(s, a.t))
    ensures DiscoveredOnce(Apply(s, a)) && AllValidated(Apply(s, a))
  {
    hide Validated, FoundAs, Lookup, Holds, Leading;
  }

  lemma WrittenOnceKept(s: State, a: Action)
    requires WrittenOnce(s) && Enabled(s, a) && (a.t in s.threads ==> Knows(s, a.t))
    ensures WrittenOnce(Apply(s, a))
  {
    hide Resolved, FoundAs, Lookup, Holds, Leading;
  }

  lemma OnlyDiscoveredKept(s: State, a: Action)
    requires AllKnow(s) && OnlyDiscovered(s) && Enabled(s, a)
    ensures OnlyDiscovered(Apply(s, a))
  {
    var s' := Apply(s, a);
    Grows(s, a);
    forall uri | uri in s'.cache ensures FoundAs(s', uri, s'.cache[uri]) {
      if uri in s.cache {
        assert FoundAs(s, uri, s.cache[uri]) && Holds(s, uri, s.cache[uri]);
        hide Apply, FoundAs;
        assert Holds(s', uri, s.cache[uri]);
      } else {
        assert a.Advance? && Knows(s, a.t) by { hide Resolved, Lookup; }
        hide Lookup, FoundAs;
        assert FoundAs(s, uri, s'.cache[uri]);
      }
    }
  }

  lemma GoodKept(s: State, a: Action)
    requires Good(s) && Enabled(s, a)
    ensures Good(Apply(s, a))
  {
    hide Apply, Kept;
    OneLeaderKept(s, a);
    AllKnowKept(s, a);
    AllPublishedKept(s, a);
    forall d | d in Apply(s, a).discovered ensures Kept(Apply(s, a), d) { KeptKept(s, a, d); }
    assert a.t in s.threads ==> Knows(s, a.t);
    DiscoveredOnceKept(s, a);
    WrittenOnceKept(s, a);
    OnlyDiscoveredKept(s, a);
  }

  // ----- main results -----

  lemma AlwaysGood(trace: seq<State>)
    requires Run(trace)
    ensures forall i | 0 <= i < |trace| :: Good(trace[i])
  {
    hide Good, Enabled, Apply;
    for i := 0 to |trace|
      invariant forall k | 0 <= k < i :: Good(trace[k])
    {
      if i == 0 {
        InitiallyGood(trace[0]);
      } else {
        assert Next(trace[i - 1], trace[i]);
        var a :| Enabled(trace[i - 1], a) && trace[i] == Apply(trace[i - 1], a);
        GoodKept(trace[i - 1], a);
      }
    }
  }

  lemma InitiallyGood(s: State)
    requires Initial(s)
    ensures Good(s)
  {
  }

  /** These endpoints came out of a discovery for this URI whose replies validated. */
  ghost predicate ValidatedBefore(s: State, uri: string, e: Endpoints) {
    exists d | d in s.discovered :: d.info.canonicalAuthorityURI == uri && Validated(d.info, d.replies, e)
  }

  /** Over every interleaving: a URI has at most one successful discovery and at most one cache write, and
      what is cached are the validated endpoints of its discovery. */
  lemma AtMostOneDiscovery(trace: seq<State>, i: nat)
    requires Run(trace) && i < |trace|
    ensures DiscoveredOnce(trace[i]) && WrittenOnce(trace[i])
    ensures forall uri | uri in trace[i].cache :: ValidatedBefore(trace[i], uri, trace[i].cache[uri])
  {
    AlwaysGood(trace);
    var s := trace[i];
    forall uri | uri in s.cache ensures ValidatedBefore(s, uri, s.cache[uri]) {
      assert FoundAs(s, uri, s.cache[uri]);
      var d :| d in s.discovered && d.info.canonicalAuthorityURI == uri && d.endpoints == s.cache[uri];
      assert Validated(d.info, d.replies, d.endpoints);
    }
  }

  /** All calls for one URI that succeed get the same endpoints. */
  lemma SameEndpoints(trace: seq<State>, i: nat, t: nat, u: nat)
    requires Run(trace) && i < |trace| && t in trace[i].threads && u in trace[i].threads
    requires trace[i].threads[t].pc.Returned? && trace[i].threads[t].pc.outcome.Some?
    requires trace[i].threads[u].pc.Returned? && trace[i].threads[u].pc.outcome.Some?
    requires Uri(trace[i], t) == Uri(trace[i], u)
    ensures trace[i].threads[t].pc.outcome == trace[i].threads[u].pc.outcome
  {
    AlwaysGood(trace);
    assert Knows(trace[i], t) && Knows(trace[i], u);
  }

  /** At any moment at most one call per URI talks to the network. */
  lemma OneAtATime(trace: seq<State>, i: nat, t: nat, u: nat)
    requires Run(trace) && i < |trace| && t in trace[i].threads && u in trace[i].threads
    requires trace[i].threads[t].pc.Discovering? && trace[i].threads[u].pc.Discovering? && t != u
    ensures Uri(trace[i], t) != Uri(trace[i], u)
  {
    AlwaysGood(trace);
    assert Leads(trace[i], t, Uri(trace[i], t)) && Leads(trace[i], u, Uri(trace[i], u));
  }
}
