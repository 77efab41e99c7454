/** The two ways the library compares scopes: by counting against a stored string, and through a set. */
module Scopes {
  import opened Strings

  const SCOPE_SEPARATOR := ' '

  /** How often `scope` occurs in `stored`, ignoring case. */
  function Occurrences(scope: string, stored: seq<string>): nat {
    if stored == [] then 0
    else Occurrences(scope, stored[..|stored| - 1]) + if EqualFold(scope, stored[|stored| - 1]) then 1 else 0
  }

  /** All the pairs of a requested and an equal stored scope. */
  function MatchCount(requested: seq<string>, stored: seq<string>): nat {
    if requested == [] then 0
    else MatchCount(requested[..|requested| - 1], stored) + Occurrences(requested[|requested| - 1], stored)
  }

  /** The code's test: as many pairs as requested scopes. */
  predicate Matching(requested: seq<string>, stored: seq<string>) { MatchCount(requested, stored) == |requested| }

  method IsMatchingScopes(scopesOne: seq<string>, scopesTwo: string) returns (r: bool)
    ensures r <==> Matching(scopesOne, Split(scopesTwo, SCOPE_SEPARATOR))
  {
    var newScopesTwo := Split(scopesTwo, SCOPE_SEPARATOR);
    var scopeCounter := 0;
    for i := 0 to |scopesOne|
      invariant scopeCounter == MatchCount(scopesOne[..i], newScopesTwo)
    {
      assert scopesOne[..i + 1][..i] == scopesOne[..i];
      for k := 0 to |newScopesTwo|
        invariant scopeCounter ==
          MatchCount(scopesOne[..i], newScopesTwo) + Occurrences(scopesOne[i], newScopesTwo[..k])
      {
        assert newScopesTwo[..k + 1][..k] == newScopesTwo[..k];
        if EqualFold(scopesOne[i], newScopesTwo[k]) {
          scopeCounter := scopeCounter + 1;
        }
      }
      assert newScopesTwo[..|newScopesTwo|] == newScopesTwo;
    }
    assert scopesOne[..|scopesOne|] == scopesOne;
    r := scopeCounter == |scopesOne|;
  }

  predicate Holds(stored: seq<string>, scope: string) { exists t | t in stored :: EqualFold(scope, t) }

  /** What the test is meant to say: every requested scope is stored. */
  predicate Included(requested: seq<string>, stored: seq<string>) { forall s | s in requested :: Holds(stored, s) }

  /** No stored scope is repeated, ignoring case. */
  predicate NoRepeats(stored: seq<string>) {
    forall i, k | 0 <= i < k < |stored| :: !EqualFold(stored[i], stored[k])
  }

  lemma {:induction false} OccurrencesOnce(scope: string, stored: seq<string>)
    ensures Occurrences(scope, stored) > 0 <==> Holds(stored, scope)
    ensures NoRepeats(stored) ==> Occurrences(scope, stored) <= 1
  {
    if stored != [] {
      var n := |stored| - 1;
      OccurrencesOnce(scope, stored[..n]);
      assert stored == stored[..n] + [stored[n]];
    }
  }

  lemma {:induction false} CountingIsInclusion(requested: seq<string>, stored: seq<string>)
    requires NoRepeats(stored)
    ensures MatchCount(requested, stored) <= |requested|
    ensures Matching(requested, stored) <==> Included(requested, stored)
  {
    if requested != [] {
      var n := |requested| - 1;
      CountingIsInclusion(requested[..n], stored);
      OccurrencesOnce(requested[n], stored);
      assert requested == requested[..n] + [requested[n]];
    }
  }

  /** Counting decides inclusion, for every request, exactly when the stored scopes have no repeats. */
  lemma CountingExact(stored: seq<string>)
    ensures (forall requested :: Matching(requested, stored) <==> Included(requested, stored)) <==> NoRepeats(stored)
  {
    if NoRepeats(stored) {
      forall requested ensures Matching(requested, stored) <==> Included(requested, stored) {
        CountingIsInclusion(requested, stored);
      }
    } else {
      var i, k :| 0 <= i < k < |stored| && EqualFold(stored[i], stored[k]);
      RepeatCounts(stored[i], stored, i, k);
      var one := [stored[i]];
      assert one[..0] == [] && MatchCount(one, stored) == Occurrences(stored[i], stored);
      assert Included(one, stored) && !Matching(one, stored);
    }
  }

  lemma {:induction false} RepeatCounts(scope: string, stored: seq<string>, i: nat, k: nat)
    requires i < k < |stored| && EqualFold(scope, stored[i]) && EqualFold(scope, stored[k])
    ensures Occurrences(scope, stored) >= 2
  {
    var n := |stored| - 1;
    if k == n {
      OccurrencesOnce(scope, stored[..n]);
      assert stored[..n][i] == stored[i];
    } else {
      RepeatCounts(scope, stored[..n], i, k);
    }
  }

  /** A stored repeat even lets a scope through that was never granted. */
  lemma RepeatLetsThrough()
    ensures Matching(["a", "b"], Split("a a", SCOPE_SEPARATOR)) && !Included(["a", "b"], Split("a a", SCOPE_SEPARATOR))
  {
    var stored, requested := ["a", "a"], ["a", "b"];
    SplitJoin(stored, ' ');
    assert Join(stored, [' ']) == "a a";
    assert requested[..1] == ["a"] && ["a"][..0] == [] && stored[..1] == ["a"];
    assert ToLower("a")[0] == 'a' && ToLower("b")[0] == 'b';
    assert "b" in requested && !Holds(stored, "b");
  }

  /** The requested scopes that were not granted, in the order of the request. */
  function Declined(requested: seq<string>, granted: seq<string>): seq<string> {
    if requested == [] then []
    else
      var n := |requested| - 1;
      Declined(requested[..n], granted) + if Holds(granted, requested[n]) then [] else [requested[n]]
  }

  method FindDeclinedScopes(requestedScopes: seq<string>, grantedScopes: seq<string>) returns (declined: seq<string>)
    ensures declined == Declined(requestedScopes, grantedScopes)
  {
    declined := [];
    var grantedMap: map<string, bool> := map[];
    for i := 0 to |grantedScopes|
      invariant forall l :: l in grantedMap <==> exists k | 0 <= k < i :: ToLower(grantedScopes[k]) == l
    {
      grantedMap := grantedMap[ToLower(grantedScopes[i]) := true];
    }
    for i := 0 to |requestedScopes|
      invariant declined == Declined(requestedScopes[..i], grantedScopes)
    {
      var r := requestedScopes[i];
      forall k | 0 <= k < |grantedScopes| ensures grantedScopes[k] in grantedScopes {}
      assert forall k | 0 <= k < |grantedScopes| ::
          EqualFold(r, grantedScopes[k]) <==> ToLower(grantedScopes[k]) == ToLower(r);
      if ToLower(r) !in grantedMap {
        declined := declined + [r];
      }
      assert requestedScopes[..i + 1][..i] == requestedScopes[..i];
    }
    assert requestedScopes[..|requestedScopes|] == requestedScopes;
  }

  lemma {:induction false} NoneDeclined(requested: seq<string>, granted: seq<string>)
    ensures Declined(requested, granted) == [] <==> Included(requested, granted)
  {
    if requested != [] {
      var n := |requested| - 1;
      NoneDeclined(requested[..n], granted);
      assert requested == requested[..n] + [requested[n]];
    }
  }

  /** `ComputeScope`: a response without scopes counts as if all the requested ones had been granted
      (section 3.3 of RFC 6749). */
  method ComputeScope(requested: seq<string>, returned: seq<string>)
    returns (granted: seq<string>, declined: seq<string>)
    ensures granted == (if returned == [] then requested else returned)
    ensures declined == if returned == [] then [] else Declined(requested, granted)
    ensures declined == [] <==> Included(requested, granted)
  {
    if returned == [] {
      assert forall s | s in requested :: EqualFold(s, s);
      return requested, [];
    }
    granted := returned;
    declined := FindDeclinedScopes(requested, granted);
    NoneDeclined(requested, granted);
  }

  /** The response check and the cache check agree on every request exactly when the granted
      scopes, joined and split again by the cache, hold no case-insensitive repeats. */
  lemma {:induction false} ChecksAgree(granted: seq<string>)
    requires granted != [] && forall s | s in granted :: SCOPE_SEPARATOR !in s
    ensures var stored := Split(Join(granted, [SCOPE_SEPARATOR]), SCOPE_SEPARATOR);
      (forall requested :: Declined(requested, granted) == [] <==> Matching(requested, stored)) <==> NoRepeats(granted)
  {
    SplitJoin(granted, SCOPE_SEPARATOR);
    CountingExact(granted);
    forall requested ensures Declined(requested, granted) == [] <==> Included(requested, granted) {
      NoneDeclined(requested, granted);
    }
  }
}
