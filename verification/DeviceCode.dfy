/** Polling for a token in the device code flow. */
module DeviceCode {
  import opened Wrappers

  /** One answer of the token endpoint.  An error response carries its status and, if its body is a JSON
      document that fits, the error code in it. */
  datatype Reply = Token(token: string) | CallError(status: int, code: Option<string>) | OtherError

  datatype Outcome = Done(reply: Reply) | Expired

  const FIRST_INTERVAL: nat := 50
  const MAX_INTERVAL: nat := 5000

  /** The two errors that mean to go on waiting (section 3.5 of RFC 8628). */
  predicate IsWait(r: Reply) {
    r.CallError? && r.status == 400 && r.code.Some?
      && (r.code.value == "authorization_pending" || r.code.value == "slow_down")
  }

  method IsWaitError(r: Reply) returns (wait: bool)
    ensures wait <==> IsWait(r)
  {
    if !r.CallError? { return false; }
    if r.status != 400 { return false; }
    if r.code.None? { return false; }
    if r.code.value == "authorization_pending" || r.code.value == "slow_down" { return true; }
    wait := false;
  }

  function Power(base: nat, n: nat): nat { if n == 0 then 1 else base * Power(base, n - 1) }

  function Min(a: nat, b: nat): nat { if a <= b then a else b }

  /** The wait before poll number `n`, counting from 0. */
  function Wait(n: nat): nat { Min(FIRST_INTERVAL * Power(3, n), MAX_INTERVAL) }

  /** All the waiting before `n` polls. */
  function Waited(n: nat): nat { if n == 0 then 0 else Waited(n - 1) + Wait(n - 1) }

  lemma {:induction false} PowerGrows(n: nat)
    requires n >= 5
    ensures Power(3, n) >= 243
  {
    if n > 5 { PowerGrows(n - 1); }
  }

  /** Tripling and capping each time is capping the power. */
  lemma WaitStep(n: nat)
    ensures Wait(n + 1) == Min(Wait(n) + 2 * Wait(n), MAX_INTERVAL)
  {
    assert Power(3, n + 1) == 3 * Power(3, n);
  }

  lemma {:induction false} WaitedLater(n: nat)
    ensures n >= 5 ==> Waited(n) == 6050 + 5000 * (n - 5)
    ensures n < 5 ==> Waited(n) == [0, 50, 200, 650, 2000][n]
  {
    if n > 0 {
      WaitedLater(n - 1);
      if n > 5 {
        PowerGrows(n - 1);
      } else {
        assert Power(3, 0) == 1 && Power(3, 1) == 3 && Power(3, 2) == 9 && Power(3, 3) == 27 && Power(3, 4) == 81;
      }
    }
  }

  function MaxPolls(t: nat): nat { 5 + t / 5000 }

  /** A lifetime of `t` milliseconds leaves room for few polls. */
  lemma {:induction false} FewPolls(n: nat, t: nat)
    requires Waited(n) <= t
    ensures n <= MaxPolls(t)
  {
    WaitedLater(n);
  }

  /** An answer, and how long it took to come. */
  datatype Answer = Answer(reply: Reply, takes: nat)

  /** All the time that the first `n` polls took. */
  function Taken(answers: seq<Answer>, n: nat): nat
    requires n <= |answers|
  {
    if n == 0 then 0 else Taken(answers, n - 1) + answers[n - 1].takes
  }

  /** When poll number `n` starts, counting from 0. */
  function Start(answers: seq<Answer>, n: nat): nat
    requires n <= |answers|
  {
    Waited(n + 1) + Taken(answers, n)
  }

  lemma FirstStart(answers: seq<Answer>)
    ensures Start(answers, 0) == Wait(0) == FIRST_INTERVAL
  {
    assert Power(3, 0) == 1 && Waited(1) == Waited(0) + Wait(0);
  }

  /** A poll that starts in time is one there is an answer for. */
  lemma LastInTime(answers: seq<Answer>, n: nat, end: nat)
    requires n <= |answers| == MaxPolls(end) && Start(answers, n) <= end
    ensures n < |answers|
  {
    FewPolls(n + 1, end);
  }

  lemma NextStart(answers: seq<Answer>, n: nat, end: nat)
    requires n < |answers| && Start(answers, n) <= end
    ensures Start(answers, n + 1) == Start(answers, n) + answers[n].takes + Wait(n + 1)
    ensures n + 1 <= MaxPolls(end)
  {
    assert Waited(n + 2) == Waited(n + 1) + Wait(n + 1);
    FewPolls(n + 1, end);
  }

  /** The waits are as long as they should be. */
  predicate AsLong(waits: seq<nat>) { forall i | 0 <= i < |waits| :: waits[i] == Wait(i) }

  /** The first `n` polls are in time, and are all answered by one of the two wait errors. */
  predicate KeptWaiting(answers: seq<Answer>, n: nat, end: nat)
    requires n <= |answers|
  {
    forall i | 0 <= i < n :: IsWait(answers[i].reply) && Start(answers, i) <= end
  }

  /** What holds before each wait: polls so far were in time and all to be waited on, and the clock and the
      interval are where they should be. */
  predicate Waiting(answers: seq<Answer>, end: nat, n: nat, now: nat, interval: nat, waits: seq<nat>) {
    && n <= |answers| == MaxPolls(end)
    && interval == Wait(n) && now + interval == Start(answers, n)
    && |waits| == n && AsLong(waits) && KeptWaiting(answers, n, end)
  }

  lemma Beginning(answers: seq<Answer>, end: nat)
    requires |answers| == MaxPolls(end)
    ensures Waiting(answers, end, 0, 0, FIRST_INTERVAL, [])
  {
    FirstStart(answers);
  }

  /** The wait is over in time: there is an answer left to poll for. */
  lemma TimeToPoll(answers: seq<Answer>, end: nat, n: nat, now: nat, interval: nat, waits: seq<nat>)
    requires Waiting(answers, end, n, now, interval, waits) && now + interval <= end
    ensures n < |answers| && |waits| == n && AsLong(waits + [interval])
    ensures KeptWaiting(answers, n, end) && Start(answers, n) <= end
  {
    hide Power, Wait, Waited, Taken, Start, MaxPolls, IsWait;
    LastInTime(answers, n, end);
  }

  /** The wait is over too late, or when the context is. */
  lemma TooLate(answers: seq<Answer>, end: nat, n: nat, now: nat, interval: nat, waits: seq<nat>)
    requires Waiting(answers, end, n, now, interval, waits) && now + interval >= end
    ensures n <= |answers| == MaxPolls(end) && |waits + [interval]| == n + 1 && AsLong(waits + [interval])
    ensures KeptWaiting(answers, n, end) && end <= Start(answers, n)
  {
    hide Power, Wait, Waited, Taken, Start, MaxPolls, IsWait;
  }

  /** After an answer to be waited on, the loop is where it was, one poll further. */
  lemma WaitAgain(answers: seq<Answer>, end: nat, n: nat, now: nat, interval: nat, waits: seq<nat>)
    requires Waiting(answers, end, n, now, interval, waits) && now + interval <= end
    requires n < |answers| && IsWait(answers[n].reply)
    ensures Waiting(answers, end, n + 1, now + interval + answers[n].takes,
                    if interval + interval * 2 > MAX_INTERVAL then MAX_INTERVAL else interval + interval * 2,
                    waits + [interval])
  {
    hide Power, Wait, Waited, Taken, Start, MaxPolls, IsWait;
    WaitStep(n);
    NextStart(answers, n, end);
  }

  /** The loop, from time 0 until the context ends at `end`: with the device code, with the caller's
      deadline, or by cancellation.  There are as many answers as there can be polls. */
  method PollForToken(end: nat, answers: seq<Answer>) returns (r: Outcome, polls: nat, waits: seq<nat>)
    requires |answers| == MaxPolls(end)
    // after each wait there is a poll, but for a vain last one
    ensures polls <= MaxPolls(end) && AsLong(waits) && |waits| == if r.Expired? then polls + 1 else polls
    // it expires when the next poll would come too late, and then only
    ensures r.Expired? ==> KeptWaiting(answers, polls, end) && end <= Start(answers, polls)
    // and otherwise hands back the first answer that is not one to wait on
    ensures r.Done? ==> polls > 0 && KeptWaiting(answers, polls - 1, end) && Start(answers, polls - 1) <= end
    ensures r.Done? ==> r.reply == answers[polls - 1].reply && !IsWait(r.reply)
  {
    hide *;
    var interval: nat, now: nat := FIRST_INTERVAL, 0;
    polls, waits := 0, [];
    Beginning(answers, end);
    while true
      invariant polls <= |answers| && Waiting(answers, end, polls, now, interval, waits)
      decreases |answers| - polls
    {
      // when both are due, the choice is arbitrary
      var over: bool := *;
      if now + interval > end || (now + interval == end && over) {
        TooLate(answers, end, polls, now, interval, waits);
        waits := waits + [interval];
        return Expired, polls, waits;
      }
      TimeToPoll(answers, end, polls, now, interval, waits);
      ghost var start: nat, wait: nat, earlier := now, interval, waits;
      now, waits := now + interval, waits + [interval];
      interval := interval + interval * 2;
      if interval > MAX_INTERVAL { interval := MAX_INTERVAL; }
      var answer := answers[polls];
      now := now + answer.takes;
      polls := polls + 1;
      var waitOn := IsWaitError(answer.reply);
      if !waitOn { return Done(answer.reply), polls, waits; }
      WaitAgain(answers, end, polls - 1, start, wait, earlier);
    }
  }
}
