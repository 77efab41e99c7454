/** Claims as values: what merging two of them means, path by path. */
module Claims {
  import opened Wrappers
  import MapOrder

  /** A JSON object, or anything else in its text form. */
  datatype Claim = Text(text: string) | Object(members: map<string, Claim>)

  type Path = seq<string>

  /** What a claim binds at a path. */
  function At(c: Claim, p: Path): Option<Claim> {
    if p == [] then Some(c)
    else if c.Object? && p[0] in c.members then At(c.members[p[0]], p[1..])
    else None
  }

  predicate LeafAt(c: Claim, p: Path, text: string) { At(c, p) == Some(Text(text)) }

  /** A proper prefix of the path ends in something that is no object. */
  predicate Blocked(c: Claim, p: Path) {
    exists n: nat | n < |p| :: At(c, p[..n]).Some? && At(c, p[..n]).value.Text?
  }

  /** The claim leaves room for something at `p`: no non-object on the way and nothing at the end. */
  predicate Free(c: Claim, p: Path) { At(c, p).None? && !Blocked(c, p) }

  // ----- deep merge: the right side wins -----

  function DeepMerged(d: Claim, s: Claim): Claim
    requires d.Object? && s.Object?
    decreases d
  {
    Object(map k | k in d.members.Keys + s.members.Keys ::
      if k !in s.members then d.members[k]
      else if k in d.members && d.members[k].Object? && s.members[k].Object? then DeepMerged(d.members[k], s.members[k])
      else s.members[k])
  }

  lemma BlockedStep(c: Claim, p: Path)
    requires c.Object? && p != []
    ensures Blocked(c, p)
      <==> p[0] in c.members && |p| > 1 && (c.members[p[0]].Text? || Blocked(c.members[p[0]], p[1..]))
  {
    if Blocked(c, p) {
      var n: nat :| n < |p| && At(c, p[..n]).Some? && At(c, p[..n]).value.Text?;
      assert n > 0 && p[..n][0] == p[0] && p[..n][1..] == p[1..][..n - 1];
    }
    if p[0] in c.members && |p| > 1 {
      var v := c.members[p[0]];
      if v.Text? {
        assert p[..1] == [p[0]] && p[..1][1..] == [];
        assert At(c, p[..1]) == Some(v);
      } else if Blocked(v, p[1..]) {
        var n: nat :| n < |p| - 1 && At(v, p[1..][..n]).Some? && At(v, p[1..][..n]).value.Text?;
        assert p[..n + 1][0] == p[0] && p[..n + 1][1..] == p[1..][..n];
        assert At(c, p[..n + 1]) == At(v, p[1..][..n]);
      }
    }
  }

  /** A leaf of the result is a leaf of the right side, or one of the left side for which the right side
      leaves room; and all of these are there. */
  lemma {:induction false} DeepMergedLeaves(d: Claim, s: Claim, p: Path, text: string)
    requires d.Object? && s.Object?
    ensures LeafAt(DeepMerged(d, s), p, text) <==> LeafAt(s, p, text) || (LeafAt(d, p, text) && Free(s, p))
    decreases p
  {
    if p != [] {
      BlockedStep(s, p);
      var m, k, rest := DeepMerged(d, s), p[0], p[1..];
      assert At(m, p) == if k in m.members then At(m.members[k], rest) else None;
      assert |p| == 1 <==> rest == [];
      assert k in d.members ==> At(d, p) == At(d.members[k], rest);
      assert k in s.members ==> At(s, p) == At(s.members[k], rest);
      if k in d.members && k in s.members && d.members[k].Object? && s.members[k].Object? {
        DeepMergedLeaves(d.members[k], s.members[k], rest, text);
      }
    }
  }

  // ----- merging capabilities: nothing is overwritten, and the first shared object ends the loop -----

  /** Merging `a` into `b` may end with `ok` and leave `r`, for some order of `a`'s keys. */
  ghost predicate Merges(a: Claim, b: Claim, ok: bool, r: Claim)
    requires a.Object? && b.Object? && r.Object?
    decreases a, 1, 0
  {
    exists keys :: MapOrder.IsOrder(a.members, keys) && MergesFrom(a, b, keys, ok, r)
  }

  /** The same for the keys that are still to come. */
  ghost predicate MergesFrom(a: Claim, b: Claim, keys: seq<string>, ok: bool, r: Claim)
    requires a.Object? && b.Object? && r.Object? && forall i | 0 <= i < |keys| :: keys[i] in a.members
    decreases a, 0, |keys|
  {
    if keys == [] then ok && r == b
    else
      var k, av := keys[0], a.members[keys[0]];
      if k !in b.members then MergesFrom(a, Object(b.members[k := av]), keys[1..], ok, r)
      else if av.Object? && b.members[k].Object? then
        && k in r.members && r.members[k].Object? && r == Object(b.members[k := r.members[k]])
        && Merges(av, b.members[k], ok, r.members[k])
      else !ok && r == b
  }

  /** What the claims already said stays, even when the merge fails; what is new comes from the
      capabilities and had room. */
  lemma {:induction false} MergeOnlyAdds(a: Claim, b: Claim, ok: bool, r: Claim, p: Path, text: string)
    requires a.Object? && b.Object? && r.Object? && Merges(a, b, ok, r)
    ensures LeafAt(b, p, text) ==> LeafAt(r, p, text)
    ensures LeafAt(r, p, text) ==> LeafAt(b, p, text) || (LeafAt(a, p, text) && Free(b, p))
    decreases a, 1, 0
  {
    var keys :| MapOrder.IsOrder(a.members, keys) && MergesFrom(a, b, keys, ok, r);
    MergeOnlyAddsFrom(a, b, keys, ok, r, p, text);
  }

  lemma {:induction false} MergeOnlyAddsFrom(a: Claim, b: Claim, keys: seq<string>, ok: bool, r: Claim, p: Path,
    text: string)
    requires a.Object? && b.Object? && r.Object? && forall i | 0 <= i < |keys| :: keys[i] in a.members
    requires MergesFrom(a, b, keys, ok, r)
    ensures LeafAt(b, p, text) ==> LeafAt(r, p, text)
    ensures LeafAt(r, p, text) ==> LeafAt(b, p, text) || (LeafAt(a, p, text) && Free(b, p))
    decreases a, 0, |keys|
  {
    if keys != [] && p != [] {
      var k, av := keys[0], a.members[keys[0]];
      if k !in b.members {
        var b' := Object(b.members[k := av]);
        MergeOnlyAddsFrom(a, b', keys[1..], ok, r, p, text);
        BlockedStep(b, p);
        BlockedStep(b', p);
        if p[0] == k {
          assert At(b', p) == At(a, p);
        }
      } else if av.Object? && b.members[k].Object? {
        var rest := p[1..];
        MergeOnlyAdds(av, b.members[k], ok, r.members[k], rest, text);
        BlockedStep(b, p);
        assert |p| == 1 <==> rest == [];
        if p[0] == k {
          assert At(b, p) == At(b.members[k], rest) && At(a, p) == At(av, rest) && At(r, p) == At(r.members[k], rest);
        } else {
          assert At(r, p) == At(b, p);
        }
      }
    }
  }

  /** Down a single key at each level, until all members are no objects. */
  predicate Chainlike(a: Claim)
    requires a.Object?
  {
    || (forall k | k in a.members :: a.members[k].Text?)
    || (|a.members| == 1 && forall k | k in a.members :: a.members[k].Object? && Chainlike(a.members[k]))
  }

  /** A merge that reports success has merged everything. */
  ghost predicate Complete(a: Claim)
    requires a.Object?
  {
    forall b: Claim, r: Claim | b.Object? && r.Object? && Merges(a, b, true, r) :: r == DeepMerged(b, a)
  }

  /** Exactly the members under `keys` have been added. */
  ghost predicate Added(a: Claim, b: Claim, keys: seq<string>, r: Claim)
    requires a.Object? && b.Object? && r.Object?
  {
    && (forall k :: k in r.members <==> k in b.members || k in keys)
    && (forall k | k in r.members ::
          if k in keys then k in a.members && r.members[k] == a.members[k]
          else k in b.members && r.members[k] == b.members[k])
  }

  lemma AddedStep(a: Claim, b: Claim, keys: seq<string>, r: Claim)
    requires a.Object? && b.Object? && r.Object? && keys != [] && keys[0] in a.members && keys[0] !in keys[1..]
    requires Added(a, Object(b.members[keys[0] := a.members[keys[0]]]), keys[1..], r)
    ensures Added(a, b, keys, r)
  {
    assert forall k :: k in keys <==> k == keys[0] || k in keys[1..];
  }

  lemma {:induction false} FlatMerge(a: Claim, b: Claim, keys: seq<string>, r: Claim)
    requires a.Object? && b.Object? && r.Object? && (forall k | k in a.members :: a.members[k].Text?)
    requires (forall i | 0 <= i < |keys| :: keys[i] in a.members)
      && (forall i, k | 0 <= i < k < |keys| :: keys[i] != keys[k])
    requires MergesFrom(a, b, keys, true, r)
    ensures Added(a, b, keys, r) && forall i | 0 <= i < |keys| :: keys[i] !in b.members
    decreases |keys|
  {
    if keys != [] {
      var b' := Object(b.members[keys[0] := a.members[keys[0]]]);
      FlatMerge(a, b', keys[1..], r);
      AddedStep(a, b, keys, r);
      forall i | 0 < i < |keys| ensures keys[i] !in b.members {
        assert keys[i] == keys[1..][i - 1];
      }
      hide Added, MergesFrom;
    }
  }

  /** Merging into claims that share no key simply adds the members. */
  lemma {:induction false} MergeApart(a: Claim, b: Claim, keys: seq<string>) returns (r: Claim)
    requires a.Object? && b.Object?
    requires (forall i | 0 <= i < |keys| :: keys[i] in a.members && keys[i] !in b.members)
    requires forall i, k | 0 <= i < k < |keys| :: keys[i] != keys[k]
    ensures r.Object? && Added(a, b, keys, r) && MergesFrom(a, b, keys, true, r)
    decreases |keys|
  {
    r := b;
    if keys != [] {
      var b' := Object(b.members[keys[0] := a.members[keys[0]]]);
      r := MergeApart(a, b', keys[1..]);
      AddedStep(a, b, keys, r);
      hide Added;
    }
  }

  lemma {:induction false} ChainlikeComplete(a: Claim, b: Claim, r: Claim)
    requires a.Object? && b.Object? && r.Object? && Chainlike(a) && Merges(a, b, true, r)
    ensures r == DeepMerged(b, a)
    decreases a
  {
    var keys :| MapOrder.IsOrder(a.members, keys) && MergesFrom(a, b, keys, true, r);
    if forall k | k in a.members :: a.members[k].Text? {
      FlatMerge(a, b, keys, r);
      AddedAll(a, b, keys, r);
    } else {
      var k := keys[0];
      assert keys == [k] && a.members.Keys == {k} by { assert forall x | x in a.members :: x in keys; }
      if k in b.members {
        ChainlikeComplete(a.members[k], b.members[k], r.members[k]);
        MergedOne(a, b, k, r);
      } else {
        assert MergesFrom(a, Object(b.members[k := a.members[k]]), keys[1..], true, r);
        AddedAll(a, b, keys, r);
      }
    }
  }

  lemma {:induction false} AddedAll(a: Claim, b: Claim, keys: seq<string>, r: Claim)
    requires a.Object? && b.Object? && r.Object? && Added(a, b, keys, r)
    requires forall k | k in a.members :: k in keys
    requires forall i | 0 <= i < |keys| :: keys[i] in a.members && keys[i] !in b.members
    ensures r == DeepMerged(b, a)
  {
    var whole := DeepMerged(b, a).members;
    assert forall k | k in keys :: k in a.members && k !in b.members;
    assert r.members.Keys == whole.Keys;
    assert forall k | k in whole :: r.members[k] == whole[k];
    assert r.members == whole;
  }

  lemma {:induction false} MergedOne(a: Claim, b: Claim, k: string, r: Claim)
    requires a.Object? && b.Object? && a.members.Keys == {k} && k in b.members && a.members[k].Object?
      && b.members[k].Object?
    requires r == Object(b.members[k := DeepMerged(b.members[k], a.members[k])])
    ensures r == DeepMerged(b, a)
  {
    var whole := DeepMerged(b, a).members;
    assert whole.Keys == b.members.Keys;
    assert r.members == whole;
  }

  lemma {:induction false} EndsAtFirst(a: Claim, keys: seq<string>, below: Claim, merged: Claim)
    requires a.Object? && below.Object? && merged.Object? && MapOrder.IsOrder(a.members, keys) && keys != []
    requires a.members[keys[0]].Object? && Merges(a.members[keys[0]], below, true, merged)
    ensures Merges(a, Object(map[keys[0] := below]), true, Object(map[keys[0] := merged]))
  {
    var k := keys[0];
    var b, r := Object(map[k := below]), Object(map[k := merged]);
    assert b.members[k := merged] == r.members;
    assert MergesFrom(a, b, keys, true, r);
  }

  /** Anything else can be cut short: there are claims and an order of keys for which the merge reports
      success and has left something out. */
  lemma {:induction false} CutShort(a: Claim) returns (b: Claim, r: Claim)
    requires a.Object? && !Chainlike(a)
    ensures b.Object? && r.Object? && Merges(a, b, true, r) && r != DeepMerged(b, a)
    decreases a
  {
    var k :| k in a.members && a.members[k].Object?;
    var keys := MapOrder.StartingWith(a.members, k);
    var av := a.members[k];
    var below, merged;
    if |a.members| == 1 {
      assert a.members.Keys == {k} by { assert forall x | x in a.members :: x in keys; }
      below, merged := CutShort(av);
    } else {
      below := Object(map[]);
      merged := av;
      MergeIntoNothing(av);
      assert keys[1] in a.members && keys[1] != k;
    }
    b := Object(map[k := below]);
    r := Object(map[k := merged]);
    EndsAtFirst(a, keys, below, merged);
    hide Merges, MergesFrom, Chainlike;
    if |a.members| == 1 {
      assert DeepMerged(b, a).members[k] == DeepMerged(below, av);
    } else {
      assert keys[1] in DeepMerged(b, a).members;
    }
  }

  lemma {:induction false} MergeIntoNothing(a: Claim)
    requires a.Object?
    ensures Merges(a, Object(map[]), true, a)
  {
    var nothing := Object(map[]);
    if a.members == map[] {
      assert MapOrder.IsOrder(a.members, []) && MergesFrom(a, nothing, [], true, a);
    } else {
      var first :| first in a.members;
      var keys := MapOrder.StartingWith(a.members, first);
      var r := MergeApart(a, nothing, keys);
      assert r.members == a.members;
    }
  }

  /** A reported success means a complete merge, for all claims and all orders, exactly when the
      capabilities are a single-key chain. */
  lemma {:induction false} CompleteExactly(a: Claim)
    requires a.Object?
    ensures Complete(a) <==> Chainlike(a)
  {
    if Chainlike(a) {
      forall b: Claim, r: Claim | b.Object? && r.Object? && Merges(a, b, true, r) ensures r == DeepMerged(b, a) {
        ChainlikeComplete(a, b, r);
      }
    } else {
      var b, r := CutShort(a);
    }
  }

  // ----- the chain that client capabilities are -----

  function Chain(p: Path, text: string): Claim {
    if p == [] then Text(text) else Object(map[p[0] := Chain(p[1..], text)])
  }

  const CAPABILITIES_PATH: Path := ["access_token", "xms_cc", "values"]

  lemma {:induction false} ChainLeaf(path: Path, text: string, p: Path, t: string)
    ensures LeafAt(Chain(path, text), p, t) <==> p == path && t == text
    ensures path != [] ==> Chainlike(Chain(path, text))
    decreases path
  {
    if path != [] {
      ChainLeaf(path[1..], text, if p != [] then p[1..] else [], t);
      if p != [] {
        assert p == path <==> p[0] == path[0] && p[1..] == path[1..];
      }
    }
  }

  /** Merging a chain succeeds exactly when the claims bind no non-object on the way and nothing at the
      end; then they gain that one leaf, and otherwise they stay as they were. */
  lemma {:induction false} ChainMerge(path: Path, text: string, b: Claim, ok: bool, r: Claim, p: Path, t: string)
    requires path != [] && b.Object? && r.Object? && Merges(Chain(path, text), b, ok, r)
    ensures ok <==> Free(b, path)
    ensures ok ==> (LeafAt(r, p, t) <==> LeafAt(b, p, t) || (p == path && t == text))
    ensures !ok ==> r == b
  {
    var a := Chain(path, text);
    ChainOutcome(path, text, b, ok, r);
    if ok {
      MergeOnlyAdds(a, b, ok, r, p, t);
      ChainLeaf(path, text, p, t);
      ChainlikeComplete(a, b, r);
      DeepMergedLeaves(b, a, p, t);
    }
  }

  lemma {:induction false} ChainOutcome(path: Path, text: string, b: Claim, ok: bool, r: Claim)
    requires path != [] && b.Object? && r.Object? && Merges(Chain(path, text), b, ok, r)
    ensures ok <==> Free(b, path)
    ensures !ok ==> r == b
    decreases path
  {
    var a, k, rest := Chain(path, text), path[0], path[1..];
    var keys :| MapOrder.IsOrder(a.members, keys) && MergesFrom(a, b, keys, ok, r);
    assert keys == [k] && keys[1..] == [] by { assert |a.members| == 1 && keys[0] in a.members; }
    assert a.members[k] == Chain(rest, text);
    BlockedStep(b, path);
    assert |path| == 1 <==> rest == [];
    if k in b.members {
      assert At(b, path) == At(b.members[k], rest);
      if rest != [] && b.members[k].Object? {
        ChainOutcome(rest, text, b.members[k], ok, r.members[k]);
        assert r.members[k] == b.members[k] ==> r.members == b.members;
      }
    } else {
      assert MergesFrom(a, Object(b.members[k := a.members[k]]), keys[1..], ok, r);
    }
  }
}
