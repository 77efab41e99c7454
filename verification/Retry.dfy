/** The managed identity client's retry loop, and what becomes of contexts and response bodies in it. */
module Retry {
  import opened Wrappers

  /** A response body: none, still on the wire (it may break off when read), or in memory. */
  datatype Source = NoBody | Wire(content: string, breaks: bool) | Memory(content: string)

  datatype Response = Response(status: int, source: Source)

  datatype Error = RequestError | ReadError | Cancelled

  /** What happens to one attempt: the transport's answer, and whether the request is cancelled in the
      second of waiting after it. */
  datatype Try = Try(response: Option<Response>, failed: bool, cancelled: bool)

  predicate Final(t: Try, retryable: set<int>) {
    !t.failed && t.response.Some? && t.response.value.status !in retryable
  }

  lemma FinalIs(t: Try, retryable: set<int>)
    requires t.failed || t.response.Some?
    ensures Final(t, retryable) <==> !t.failed && t.response.value.status !in retryable
  {
  }

  /** The loop ends with attempt `i`, if it gets there. */
  predicate Stops(maxRetries: nat, tries: seq<Try>, retryable: set<int>, i: nat)
    requires i < maxRetries <= |tries|
  {
    Final(tries[i], retryable) || i == maxRetries - 1 || tries[i].cancelled
  }

  /** The first attempt from `i` on that is final, the last one, or followed by a cancellation. */
  function EndsAt(maxRetries: nat, tries: seq<Try>, retryable: set<int>, i: nat): (n: nat)
    requires i < maxRetries <= |tries|
    ensures i <= n < maxRetries && Stops(maxRetries, tries, retryable, n)
    ensures forall k | i <= k < n :: !Stops(maxRetries, tries, retryable, k)
    decreases maxRetries - i
  {
    if Stops(maxRetries, tries, retryable, i) then i else EndsAt(maxRetries, tries, retryable, i + 1)
  }

  lemma GoesOn(maxRetries: nat, tries: seq<Try>, retryable: set<int>, i: nat)
    requires i < maxRetries <= |tries|
    ensures EndsAt(maxRetries, tries, retryable, i) ==
      if Stops(maxRetries, tries, retryable, i) then i else EndsAt(maxRetries, tries, retryable, i + 1)
  {
  }

  predicate HasWire(t: Try) { t.response.Some? && t.response.value.source.Wire? }

  /** The resources of the attempts, which are numbered: how many contexts were made and which of them
      were cancelled, the bodies read to their end, and how often each was closed. */
  class Transport {
    var made: nat
    var cancelled: set<nat>
    var drained: set<nat>
    var closes: map<nat, nat>

    constructor ()
      ensures made == 0 && cancelled == {} && drained == {} && closes == map[]
    {
      made, cancelled, drained, closes := 0, {}, {}, map[];
    }

    method WithTimeout() returns (i: nat)
      modifies this`made
      ensures i == old(made) && made == i + 1
    {
      i, made := made, made + 1;
    }

    method Cancel(i: nat)
      modifies this`cancelled
      ensures cancelled == old(cancelled) + {i}
    {
      cancelled := cancelled + {i};
    }

    /** Reads the body of attempt `i` to its end, or to where it breaks off, while its context is alive. */
    method ReadAll(i: nat, source: Source) returns (r: Option<string>)
      requires source.Wire? && i < made && i !in cancelled
      modifies this`drained
      ensures drained == old(drained) + {i} && r == if source.breaks then None else Some(source.content)
    {
      drained := drained + {i};
      r := if source.breaks then None else Some(source.content);
    }

    method Close(i: nat)
      modifies this`closes
      ensures closes == old(closes)[i := (if i in old(closes) then old(closes)[i] else 0) + 1]
    {
      closes := closes[i := (if i in closes then closes[i] else 0) + 1];
    }

    /** Drained, and closed exactly once. */
    predicate Released(i: nat)
      reads this
    {
      i in drained && i in closes && closes[i] == 1
    }

    predicate Untouched(i: nat)
      reads this
    {
      i !in drained && i !in closes
    }

    /** `bufferResponseBody`: the body is released whatever happens, and goes into memory if it can be read. */
    method BufferResponseBody(i: nat, resp: Option<Response>) returns (r: Option<Response>, ok: bool)
      requires i < made && i !in cancelled
      modifies this`drained, this`closes
      ensures resp.Some? && resp.value.source.Wire? ==>
        && drained == old(drained) + {i}
        && closes == old(closes)[i := (if i in old(closes) then old(closes)[i] else 0) + 1]
        && (ok <==> !resp.value.source.breaks)
        && r == if ok then Some(resp.value.(source := Memory(resp.value.source.content))) else resp
      ensures !(resp.Some? && resp.value.source.Wire?) ==>
                ok && r == resp && drained == old(drained) && closes == old(closes)
    {
      if resp.None? || !resp.value.source.Wire? { return resp, true; }
      var body := ReadAll(i, resp.value.source);
      Close(i);
      if body.None? { return resp, false; }
      return Some(resp.value.(source := Memory(body.value))), true;
    }

    /** The last attempt hands out its answer with the body in memory, if it can be read. */
    method Finish(i: nat, t: Try) returns (resp: Option<Response>, err: Option<Error>)
      requires i < made && i !in cancelled && i !in closes && (!t.failed ==> t.response.Some?)
      modifies this`drained, this`closes, this`cancelled
      ensures cancelled == old(cancelled) + {i} && (HasWire(t) ==> Released(i))
      ensures drained == old(drained) + (if HasWire(t) then {i} else {})
      ensures closes == if HasWire(t) then old(closes)[i := 1] else old(closes)
      ensures err.None? <==> !t.failed && !(HasWire(t) && t.response.value.source.breaks)
      ensures err.None? ==> resp == Some(InMemory(t.response.value))
    {
      resp, err := t.response, if t.failed then Some(RequestError) else None;
      var ok;
      resp, ok := BufferResponseBody(i, resp);
      if !ok && err.None? { err := Some(ReadError); }
      Cancel(i);
    }

    /** What is left of the previous answer is read, so that the connection can be used again, and only
        then is its context cancelled. */
    method Discard(i: nat, t: Try)
      requires i < made && i !in cancelled && i !in closes
      modifies this`drained, this`closes, this`cancelled
      ensures cancelled == old(cancelled) + {i}
      ensures drained == old(drained) + (if HasWire(t) then {i} else {})
      ensures closes == if HasWire(t) then old(closes)[i := 1] else old(closes)
    {
      if HasWire(t) {
        var _ := ReadAll(i, t.response.value.source);
        Close(i);
      }
      Cancel(i);
    }

    /** The loop, over the answers `tries` to the attempts it may make.  `calls` counts those it makes. */
    method Retry(maxRetries: nat, tries: seq<Try>, retryable: set<int>)
      returns (resp: Option<Response>, err: Option<Error>, calls: nat)
      requires maxRetries <= |tries| && forall i | 0 <= i < |tries| && !tries[i].failed :: tries[i].response.Some?
      requires made == 0 && cancelled == {} && drained == {} && closes == map[]
      modifies this
      // it goes on up to the first attempt that is final, the last one, or followed by a cancellation
      ensures calls == if maxRetries == 0 then 0 else EndsAt(maxRetries, tries, retryable, 0) + 1
      // every attempt's context is cancelled
      ensures made == calls && forall i: nat :: i in cancelled <==> i < calls
      // every superseded body was drained and closed once, and nothing happened to what was never there
      ensures forall i | 0 <= i < calls - 1 && HasWire(tries[i]) :: Released(i)
      ensures forall i: nat | i >= calls || !HasWire(tries[i]) :: Untouched(i)
      // the last answer: without error it is in memory; a cancelled wait hands it out as it came, still open
      ensures calls > 0 && HasWire(tries[calls - 1]) ==>
                (Released(calls - 1) <==> Final(tries[calls - 1], retryable) || calls == maxRetries)
      ensures calls > 0 && (Final(tries[calls - 1], retryable) || calls == maxRetries) ==>
        && (err.Some? <==>
              tries[calls - 1].failed || (HasWire(tries[calls - 1]) && tries[calls - 1].response.value.source.breaks))
        && (err.None? ==> resp == Some(InMemory(tries[calls - 1].response.value)))
      ensures calls > 0 && !Final(tries[calls - 1], retryable) && calls < maxRetries ==>
        err == Some(Cancelled) && resp == tries[calls - 1].response && Untouched(calls - 1)
    {
      hide EndsAt, Final, HasWire, InMemory;
      resp, err, calls := None, None, 0;
      for attempt := 0 to maxRetries
        invariant calls == attempt
        invariant attempt == maxRetries ==> maxRetries == 0
        invariant attempt < maxRetries ==>
                  EndsAt(maxRetries, tries, retryable, 0) == EndsAt(maxRetries, tries, retryable, attempt)
        invariant forall i | 0 <= i < attempt :: !Final(tries[i], retryable) && !tries[i].cancelled
        invariant made == attempt && forall i: nat :: i in cancelled <==> i < attempt - 1
        invariant forall i | 0 <= i < attempt - 1 && HasWire(tries[i]) :: i in drained && i in closes && closes[i] == 1
        invariant forall i: nat :: i in drained || i in closes ==> i < attempt - 1 && HasWire(tries[i])
      {
        GoesOn(maxRetries, tries, retryable, attempt);
        var tryCtx := WithTimeout();
        if attempt > 0 { Discard(attempt - 1, tries[attempt - 1]); }
        calls := calls + 1;
        var t := tries[attempt];
        var succeeded := !t.failed && t.response.value.status !in retryable;
        assert succeeded <==> Final(t, retryable) by { FinalIs(t, retryable); }
        if succeeded || attempt == maxRetries - 1 {
          resp, err := Finish(tryCtx, tries[attempt]);
          return;
        }
        if tries[attempt].cancelled {
          resp, err := tries[attempt].response, Some(Cancelled);
          Cancel(tryCtx);
          return;
        }
      }
      // only without any attempt does the loop end here, and then there is no context to cancel
    }
  }

  function InMemory(r: Response): Response { if r.source.Wire? then r.(source := Memory(r.source.content)) else r }
}
