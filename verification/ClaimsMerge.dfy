/** The two in-place merges, on objects that are maps in the heap. */
module ClaimsMerge {
  import opened Claims
  import MapOrder

  /** A parsed JSON object.  A value is either a nested object or anything else. */
  class Node {
    var members: map<string, Value>

    constructor (m: map<string, Value>)
      ensures members == m
    {
      members := m;
    }
  }

  datatype Value = Leaf(text: string) | Nested(node: Node)

  /** The members of some nodes at one moment. */
  type Heap = map<Node, map<string, Value>>

  ghost function Snap(nodes: set<Node>): Heap
    reads nodes
  {
    map n | n in nodes :: n.members
  }

  /** The tree that hangs off a node, and a set of nodes that holds it. */
  datatype Shape = Shape(node: Node, foot: set<Node>, kids: map<string, Shape>)

  /** The subtree under `k` is the one that the member points to, and stays below the node. */
  ghost predicate Fits(s: Shape, m: map<string, Value>, k: string)
    requires k in s.kids
  {
    && k in m && m[k] == Nested(s.kids[k].node)
    && s.kids[k].node in s.kids[k].foot && s.kids[k].foot <= s.foot && s.node !in s.kids[k].foot
  }

  /** One level of the tree, for a node with members `m`: the subtrees share nothing. */
  ghost predicate Level(s: Shape, m: map<string, Value>) {
    && s.node in s.foot
    && (forall k :: k in s.kids <==> k in m && m[k].Nested?)
    && (forall k | k in s.kids :: Fits(s, m, k))
    && (forall k, l | k in s.kids && l in s.kids && k != l :: s.kids[k].foot !! s.kids[l].foot)
  }

  /** The heap really has this tree: no sharing, no cycles. */
  ghost predicate Is(h: Heap, s: Shape)
    decreases s
  {
    s.node in h && Level(s, h[s.node]) && forall k | k in s.kids :: Is(h, s.kids[k])
  }

  /** The claim that the tree stands for. */
  ghost function Tree(h: Heap, s: Shape): (c: Claim)
    requires Is(h, s)
    ensures c.Object?
    decreases s
  {
    var m := h[s.node];
    Object(map k | k in m :: if m[k].Leaf? then Text(m[k].text) else Tree(h, s.kids[k]))
  }

  ghost predicate Agree(h: Heap, h': Heap, nodes: set<Node>) {
    forall n | n in nodes && n in h :: n in h' && h'[n] == h[n]
  }

  /** A tree depends on its own nodes only. */
  lemma {:induction false} Stays(h: Heap, h': Heap, s: Shape)
    requires Is(h, s) && Agree(h, h', s.foot)
    ensures Is(h', s) && Tree(h', s) == Tree(h, s)
    decreases s
  {
    forall k | k in s.kids ensures Is(h', s.kids[k]) && Tree(h', s.kids[k]) == Tree(h, s.kids[k]) {
      assert Fits(s, h[s.node], k);
      Stays(h, h', s.kids[k]);
    }
  }

  /** A level and the subtrees below it make a tree. */
  lemma {:induction false} Assemble(h: Heap, s: Shape, c: map<string, Claim>)
    requires s.node in h && Level(s, h[s.node]) && c.Keys == h[s.node].Keys
    requires forall k | k in s.kids :: Is(h, s.kids[k]) && Tree(h, s.kids[k]) == c[k]
    requires forall k | k in c && h[s.node][k].Leaf? :: c[k] == Text(h[s.node][k].text)
    ensures Is(h, s) && Tree(h, s) == Object(c)
  {
    assert Tree(h, s).members == c;
  }

  /** Replacing the subtree under `k`, or dropping it. */
  ghost function Reshaped(s: Shape, k: string, v: Value, kid: Shape): Shape {
    Shape(s.node, s.foot + (if v.Nested? then kid.foot else {}), if v.Nested? then s.kids[k := kid] else s.kids - {k})
  }

  lemma {:induction false} LevelKept(s: Shape, m: map<string, Value>, k: string, v: Value, kid: Shape)
    requires Level(s, m)
    requires v.Nested? ==> kid.node == v.node && kid.node in kid.foot && s.node !in kid.foot
    requires v.Nested? ==> forall l | l in s.kids && l != k :: s.kids[l].foot !! kid.foot
    ensures Level(Reshaped(s, k, v, kid), m[k := v])
  {
    var s', m' := Reshaped(s, k, v, kid), m[k := v];
    assert forall l | l in s.kids :: Fits(s, m, l);
    assert forall l | l in s'.kids && l != k :: l in s.kids && s'.kids[l] == s.kids[l];
    forall l | l in s'.kids ensures Fits(s', m', l) {
    }
  }

  /** The tree once the member `k` has been set to `v`; the subtree under `k` may have changed before. */
  lemma {:induction false} MemberSet(h: Heap, h': Heap, s: Shape, k: string, v: Value, kid: Shape)
    requires Is(h, s) && s.node in h' && h'[s.node] == h[s.node][k := v]
    requires Agree(h, h', s.foot - {s.node} - if k in s.kids then s.kids[k].foot else {})
    requires v.Nested? ==> kid.node == v.node && kid.node in kid.foot && s.node !in kid.foot && Is(h', kid)
    requires v.Nested? ==> forall l | l in s.kids && l != k :: s.kids[l].foot !! kid.foot
    ensures var s' := Reshaped(s, k, v, kid);
      && Is(h', s')
      && Tree(h', s') == Object(Tree(h, s).members[k := if v.Nested? then Tree(h', kid) else Text(v.text)])
  {
    var s' := Reshaped(s, k, v, kid);
    LevelKept(s, h[s.node], k, v, kid);
    forall l | l in s.kids && l != k ensures Is(h', s.kids[l]) && Tree(h', s.kids[l]) == Tree(h, s.kids[l]) {
      assert Fits(s, h[s.node], l);
      Stays(h, h', s.kids[l]);
    }
    hide Level;
    Assemble(h', s', Tree(h, s).members[k := if v.Nested? then Tree(h', kid) else Text(v.text)]);
  }

  lemma {:induction false} KidOf(h: Heap, s: Shape, k: string)
    requires Is(h, s) && k in s.kids
    ensures Is(h, s.kids[k]) && k in h[s.node] && h[s.node][k] == Nested(s.kids[k].node)
    ensures k in Tree(h, s).members && Tree(h, s).members[k] == Tree(h, s.kids[k])
    ensures s.kids[k].foot <= s.foot && s.node !in s.kids[k].foot && s.kids[k].node in s.kids[k].foot
    ensures forall l | l in s.kids && l != k :: s.kids[k].foot !! s.kids[l].foot
  {
    assert Fits(s, h[s.node], k);
  }

  lemma {:induction false} NodeOf(h: Heap, s: Shape)
    requires Is(h, s)
    ensures s.node in h && s.node in s.foot && Tree(h, s).members.Keys == h[s.node].Keys
    ensures forall k | k in h[s.node] :: k in s.kids <==> h[s.node][k].Nested?
    ensures forall k | k in h[s.node] :: Tree(h, s).members[k].Object? <==> h[s.node][k].Nested?
    ensures forall k | k in h[s.node] && h[s.node][k].Leaf? :: Tree(h, s).members[k] == Text(h[s.node][k].text)
    ensures forall k | k in s.kids :: k in h[s.node] && s.kids[k].foot <= s.foot && s.node !in s.kids[k].foot
    ensures forall k, l | k in s.kids && l in s.kids && k != l :: s.kids[k].foot !! s.kids[l].foot
  {
    assert forall k | k in s.kids :: Fits(s, h[s.node], k);
  }

  // ----- one round of either loop -----

  /** Every subtree is below its root, as far as the shape goes. */
  ghost predicate Below(s: Shape) {
    && s.node in s.foot
    && forall k | k in s.kids :: s.kids[k].foot <= s.foot && s.node !in s.kids[k].foot
  }

  /** The subtrees under keys that are not `done` are still those of the two original trees. */
  ghost predicate Untouched(D: Shape, S: Shape, R: Shape, done: seq<string>) {
    && Below(D) && R.node == D.node && D.foot <= R.foot <= D.foot + S.foot
    && (forall k | k in R.kids && k !in done :: k in D.kids && R.kids[k] == D.kids[k])
    && (forall k | k in S.kids && k !in done :: S.kids[k].foot !! R.foot)
  }

  /** The source still is the tree of `s`, the destination is some tree, and the keys to come are untouched. */
  ghost predicate Ready(h: Heap, D: Shape, S: Shape, R: Shape, s: Claim, done: seq<string>) {
    Is(h, S) && Tree(h, S) == s && Is(h, R) && Untouched(D, S, R, done)
  }

  lemma {:induction false} Start(h: Heap, D: Shape, S: Shape)
    requires Is(h, D) && Is(h, S) && D.foot !! S.foot
    ensures Ready(h, D, S, D, Tree(h, S), [])
  {
    NodeOf(h, S);
    NodeOf(h, D);
    hide Is, Tree;
  }

  lemma StillUntouched(D: Shape, S: Shape, R: Shape, done: seq<string>, k: string, v: Value, kid: Shape)
    requires Untouched(D, S, R, done) && (v.Nested? ==> k in S.kids)
    requires v.Nested? ==> kid.foot <= R.foot + S.kids[k].foot
    requires forall i, l | i in S.kids && l in S.kids && i != l :: S.kids[i].foot !! S.kids[l].foot
    requires forall i | i in S.kids :: S.kids[i].foot <= S.foot
    ensures Untouched(D, S, Reshaped(R, k, v, kid), done + [k])
  {
    assert forall x :: x in done + [k] <==> x in done || x == k;
  }

  /** One more member set; `kid` is the subtree that is now under `k`, if there is one. */
  lemma {:induction false} Round(h: Heap, h': Heap, D: Shape, S: Shape, R: Shape, s: Claim, done: seq<string>,
    k: string, v: Value, kid: Shape)
    requires Ready(h, D, S, R, s, done) && k !in done
    requires Agree(h, h', S.foot) && R.node in h' && h'[R.node] == h[R.node][k := v]
    requires Agree(h, h', R.foot - {R.node} - if k in R.kids then R.kids[k].foot else {})
    requires v.Nested? ==>
              k in S.kids && Is(h', kid) && kid.node == v.node && kid.node in kid.foot && R.node !in kid.foot
    requires v.Nested? ==> kid.foot <= (if k in R.kids then R.kids[k].foot else {}) + S.kids[k].foot
    ensures Ready(h', D, S, Reshaped(R, k, v, kid), s, done + [k]) && Is(h', Reshaped(R, k, v, kid))
    ensures Reshaped(R, k, v, kid).node == D.node && D.foot <= Reshaped(R, k, v, kid).foot <= D.foot + S.foot
    ensures Tree(h', Reshaped(R, k, v, kid)) ==
      Object(Tree(h, R).members[k := if v.Nested? then Tree(h', kid) else Text(v.text)])
  {
    NodeOf(h, S);
    NodeOf(h, R);
    hide Is, Tree;
    StillUntouched(D, S, R, done, k, v, kid);
    assert v.Nested? ==> forall l | l in R.kids && l != k :: R.kids[l].foot !! kid.foot;
    hide Untouched;
    Stays(h, h', S);
    MemberSet(h, h', R, k, v, kid);
  }

  /** What is known about the two values for a key that is still to come. */
  lemma {:induction false} Values(h: Heap, D: Shape, S: Shape, R: Shape, s: Claim, done: seq<string>, k: string)
    requires Ready(h, D, S, R, s, done) && k in s.members && k !in done
    ensures R.node == D.node && D.node in D.foot && D.foot <= R.foot <= D.foot + S.foot && D.node in h && S.node in h
      && k in h[S.node]
    ensures k in R.kids <==> k in h[D.node] && h[D.node][k].Nested?
    ensures k in R.kids ==>
      && R.kids[k].node == h[D.node][k].node && R.kids[k].node in R.kids[k].foot && R.kids[k].foot <= D.foot
      && D.node !in R.kids[k].foot && Is(h, R.kids[k])
    ensures k in S.kids <==> h[S.node][k].Nested?
    ensures k in S.kids ==>
      && S.kids[k].node == h[S.node][k].node && S.kids[k].node in S.kids[k].foot
      && S.kids[k].foot <= S.foot && S.kids[k].foot !! R.foot
      && Is(h, S.kids[k])
    ensures Is(h, R) && (k in Tree(h, R).members <==> k in h[D.node])
    ensures k in h[D.node] ==>
              Tree(h, R).members[k] == if k in R.kids then Tree(h, R.kids[k]) else Text(h[D.node][k].text)
    ensures s.members[k] == if k in S.kids then Tree(h, S.kids[k]) else Text(h[S.node][k].text)
  {
    NodeOf(h, R);
    NodeOf(h, S);
    if k in S.kids { KidOf(h, S, k); }
    if k in R.kids { KidOf(h, R, k); }
    hide Is, Tree;
  }

  lemma SnapAgrees(h: Heap, U: set<Node>, nodes: set<Node>)
    requires h.Keys == U && nodes <= U && forall n | n in nodes :: n.members == h[n]
    ensures Agree(h, Snap(U), nodes)
  {
  }

  lemma OrderFacts<V>(m: map<string, V>, keys: seq<string>)
    requires MapOrder.IsOrder(m, keys)
    ensures (forall k :: k in keys <==> k in m) && forall i | 0 <= i < |keys| :: keys[i] in m && keys[i] !in keys[..i]
  {
  }

  lemma {:induction false} OrderOf(U: set<Node>, S: Shape, keys: seq<string>)
    requires Is(Snap(U), S) && MapOrder.IsOrder(S.node.members, keys)
    ensures MapOrder.IsOrder(Tree(Snap(U), S).members, keys)
    ensures forall k :: k in keys <==> k in Tree(Snap(U), S).members
    ensures forall i | 0 <= i < |keys| :: keys[i] in Tree(Snap(U), S).members && keys[i] !in keys[..i]
  {
    OrderFacts(S.node.members, keys);
    NodeOf(Snap(U), S);
    assert |Tree(Snap(U), S).members| == |Tree(Snap(U), S).members.Keys| == |S.node.members.Keys|;
    hide Is, Tree;
  }

  // ----- deepMergeClaims -----

  /** The merge of a single key. */
  function Chosen(d: Claim, s: Claim, k: string): Claim
    requires d.Object? && s.Object? && k in s.members
  {
    if k in d.members && d.members[k].Object? && s.members[k].Object? then DeepMerged(d.members[k], s.members[k])
    else s.members[k]
  }

  /** What the members are once the keys `done` of `s` have been merged into `d`. */
  function Partly(d: Claim, s: Claim, done: seq<string>): map<string, Claim>
    requires d.Object? && s.Object? && forall k | k in done :: k in s.members
  {
    map k | k in d.members.Keys + (set x | x in done) :: if k in done then Chosen(d, s, k) else d.members[k]
  }

  lemma PartlyStep(d: Claim, s: Claim, done: seq<string>, k: string)
    requires d.Object? && s.Object? && (forall x | x in done :: x in s.members) && k in s.members && k !in done
    ensures Partly(d, s, done + [k]) == Partly(d, s, done)[k := Chosen(Object(Partly(d, s, done)), s, k)]
  {
  }

  lemma {:induction false} PartlyAll(d: Claim, s: Claim, keys: seq<string>)
    requires d.Object? && s.Object? && forall k :: k in keys <==> k in s.members
    ensures Object(Partly(d, s, keys)) == DeepMerged(d, s)
  {
    assert Partly(d, s, keys) == DeepMerged(d, s).members;
  }

  /** The keys `done` of the source have been merged. */
  ghost predicate Merging(h: Heap, D: Shape, S: Shape, R: Shape, d: Claim, s: Claim, done: seq<string>)
    requires d.Object? && s.Object?
  {
    && (forall x | x in done :: x in s.members)
    && Ready(h, D, S, R, s, done) && Tree(h, R) == Object(Partly(d, s, done))
  }

  lemma {:induction false} StartMerging(h: Heap, D: Shape, S: Shape)
    requires Is(h, D) && Is(h, S) && D.foot !! S.foot
    ensures Merging(h, D, S, D, Tree(h, D), Tree(h, S), [])
  {
    hide Is, Tree;
    Start(h, D, S);
    assert Partly(Tree(h, D), Tree(h, S), []) == Tree(h, D).members;
  }

  lemma {:induction false} Finish(h: Heap, D: Shape, S: Shape, R: Shape, d: Claim, s: Claim, keys: seq<string>)
    requires d.Object? && s.Object? && Merging(h, D, S, R, d, s, keys) && forall k :: k in keys <==> k in s.members
    ensures R.node == D.node && Is(h, R) && D.foot <= R.foot <= D.foot + S.foot && Tree(h, R) == DeepMerged(d, s)
  {
    hide Is, Tree;
    PartlyAll(d, s, keys);
  }

  /** `deepMergeClaims`, for two trees among the nodes `U` that share none. */
  method DeepMerge(dst: Node, src: Node, ghost U: set<Node>, ghost D: Shape, ghost S: Shape)
    returns (r: Node, ghost R: Shape)
    requires D.node == dst && S.node == src && D.foot + S.foot <= U && D.foot !! S.foot
    requires Is(Snap(U), D) && Is(Snap(U), S)
    modifies D.foot
    ensures r == dst == R.node && Is(Snap(U), R) && D.foot <= R.foot <= D.foot + S.foot
    ensures Tree(Snap(U), R) == old(DeepMerged(Tree(Snap(U), D), Tree(Snap(U), S)))
    decreases S, 1
  {
    hide *;
    ghost var d, s := Tree(Snap(U), D), Tree(Snap(U), S);
    StartMerging(Snap(U), D, S);
    var keys := MapOrder.Range(src.members);
    OrderOf(U, S, keys);
    R := D;
    for i := 0 to |keys|
      invariant Merging(Snap(U), D, S, R, d, s, keys[..i])
    {
      assert keys[..i + 1] == keys[..i] + [keys[i]];
      R := MergeKey(dst, src, keys[i], U, D, S, R, d, s, keys[..i]);
    }
    assert keys[..|keys|] == keys;
    Finish(Snap(U), D, S, R, d, s, keys);
    r := dst;
  }

  /** One round of the loop: the source's value for `k` is merged, or set. */
  method MergeKey(dst: Node, src: Node, k: string, ghost U: set<Node>, ghost D: Shape, ghost S: Shape, ghost R: Shape,
    ghost d: Claim, ghost s: Claim, ghost done: seq<string>) returns (ghost R': Shape)
    requires D.node == dst && S.node == src && D.foot + S.foot <= U && D.foot !! S.foot && d.Object? && s.Object?
    requires Merging(Snap(U), D, S, R, d, s, done) && k in s.members && k !in done
    modifies D.foot
    ensures Merging(Snap(U), D, S, R', d, s, done + [k])
    decreases S, 0
  {
    hide Is, Tree, Ready, Agree, Partly;
    ghost var h := Snap(U);
    Values(h, D, S, R, s, done, k);
    PartlyStep(d, s, done, k);
    var sv := src.members[k];
    ghost var kid := if sv.Nested? then S.kids[k] else S;
    if k in dst.members && dst.members[k].Nested? && sv.Nested? {
      var merged;
      merged, kid := DeepMerge(dst.members[k].node, sv.node, U, R.kids[k], S.kids[k]);
      ghost var mid := Snap(U);
      dst.members := dst.members[k := Nested(merged)];
      SnapAgrees(mid, U, kid.foot);
      Stays(mid, Snap(U), kid);
    } else {
      dst.members := dst.members[k := sv];
      SnapAgrees(h, U, S.foot);
      if sv.Nested? { Stays(h, Snap(U), kid); }
    }
    SnapAgrees(h, U, S.foot);
    SnapAgrees(h, U, R.foot - {R.node} - if k in R.kids then R.kids[k].foot else {});
    Round(h, Snap(U), D, S, R, s, done, k, dst.members[k], kid);
    R' := Reshaped(R, k, dst.members[k], kid);
  }

  // ----- merge -----

  /** Whatever the remaining keys lead to from `now` is what all keys lead to from `start`. */
  ghost predicate Leads(a: Claim, start: Claim, now: Claim, keys: seq<string>, i: nat)
    requires a.Object? && start.Object? && now.Object? && i <= |keys|
    requires forall x | 0 <= x < |keys| :: keys[x] in a.members
  {
    forall ok, r: Claim | r.Object? && MergesFrom(a, now, keys[i..], ok, r) :: MergesFrom(a, start, keys, ok, r)
  }

  lemma LeadsFromStart(a: Claim, start: Claim, keys: seq<string>)
    requires a.Object? && start.Object? && forall x | 0 <= x < |keys| :: keys[x] in a.members
    ensures Leads(a, start, start, keys, 0)
  {
    assert keys[0..] == keys;
  }

  lemma LeadsStep(a: Claim, start: Claim, now: Claim, next: Claim, keys: seq<string>, i: nat)
    requires a.Object? && start.Object? && now.Object? && i < |keys|
    requires forall x | 0 <= x < |keys| :: keys[x] in a.members
    requires Leads(a, start, now, keys, i) && keys[i] !in now.members
    requires next == Object(now.members[keys[i] := a.members[keys[i]]])
    ensures Leads(a, start, next, keys, i + 1)
  {
    assert keys[i..][0] == keys[i] && keys[i..][1..] == keys[i + 1..];
  }

  lemma {:induction false} LeadsToFailure(a: Claim, start: Claim, now: Claim, keys: seq<string>, i: nat)
    requires a.Object? && start.Object? && now.Object? && i < |keys| && MapOrder.IsOrder(a.members, keys)
    requires Leads(a, start, now, keys, i) && keys[i] in now.members
    requires !(a.members[keys[i]].Object? && now.members[keys[i]].Object?)
    ensures Merges(a, start, false, now)
  {
    assert MergesFrom(a, now, keys[i..], false, now);
  }

  lemma {:induction false} LeadsBelow(a: Claim, start: Claim, now: Claim, keys: seq<string>, i: nat, ok: bool,
    below: Claim)
    requires a.Object? && start.Object? && now.Object? && i < |keys| && MapOrder.IsOrder(a.members, keys)
    requires Leads(a, start, now, keys, i) && keys[i] in now.members
    requires a.members[keys[i]].Object? && now.members[keys[i]].Object? && below.Object?
    requires Merges(a.members[keys[i]], now.members[keys[i]], ok, below)
    ensures Merges(a, start, ok, Object(now.members[keys[i] := below]))
  {
    var r := Object(now.members[keys[i] := below]);
    assert keys[i..][0] == keys[i];
    assert MergesFrom(a, now, keys[i..], ok, r);
  }

  lemma {:induction false} LeadsToEnd(a: Claim, start: Claim, now: Claim, keys: seq<string>)
    requires a.Object? && start.Object? && now.Object? && MapOrder.IsOrder(a.members, keys)
      && Leads(a, start, now, keys, |keys|)
    ensures Merges(a, start, true, now)
  {
    assert MergesFrom(a, now, keys[|keys|..], true, now);
  }

  /** `merge`: adds the capabilities `a` to the claims `b`, stopping after the first object they share. */
  method Merge(a: Node, b: Node, ghost U: set<Node>, ghost A: Shape, ghost B: Shape) returns (ok: bool, ghost R: Shape)
    requires A.node == a && B.node == b && A.foot + B.foot <= U && A.foot !! B.foot
    requires Is(Snap(U), A) && Is(Snap(U), B)
    modifies B.foot
    ensures R.node == b && Is(Snap(U), R) && B.foot <= R.foot <= B.foot + A.foot
    ensures Merges(old(Tree(Snap(U), A)), old(Tree(Snap(U), B)), ok, Tree(Snap(U), R))
    decreases A, 1
  {
    hide Is, Tree, Ready, Agree, Leads, Merges, MergesFrom, MapOrder.IsOrder;
    ghost var av, bv := Tree(Snap(U), A), Tree(Snap(U), B);
    Start(Snap(U), B, A);
    var keys := MapOrder.Range(a.members);
    OrderOf(U, A, keys);
    R := B;
    assert keys[0..] == keys;
    LeadsFromStart(av, bv, keys);
    for i := 0 to |keys|
      invariant Ready(Snap(U), B, A, R, av, keys[..i]) && Is(Snap(U), R)
      invariant R.node == b && B.foot <= R.foot <= B.foot + A.foot
      invariant Leads(av, bv, Tree(Snap(U), R), keys, i)
    {
      var k := keys[i];
      ghost var h, was := Snap(U), R;
      Values(h, B, A, R, av, keys[..i], k);
      assert keys[..i + 1] == keys[..i] + [k];
      if k !in b.members {
        R := AddKey(a, b, k, U, A, B, R, av, keys[..i]);
        LeadsStep(av, bv, Tree(h, was), Tree(Snap(U), R), keys, i);
      } else if a.members[k].Nested? && b.members[k].Nested? {
        ghost var below;
        ok, R, below := MergeBelow(a, b, k, U, A, B, R, av, keys[..i]);
        LeadsBelow(av, bv, Tree(h, was), keys, i, ok, below);
        return;
      } else {
        LeadsToFailure(av, bv, Tree(h, was), keys, i);
        return false, R;
      }
    }
    LeadsToEnd(av, bv, Tree(Snap(U), R), keys);
    ok := true;
  }

  /** The claims do not have the key: they get the capability's value, shared. */
  method AddKey(a: Node, b: Node, k: string, ghost U: set<Node>, ghost A: Shape, ghost B: Shape, ghost R: Shape,
    ghost av: Claim, ghost done: seq<string>) returns (ghost R': Shape)
    requires A.node == a && B.node == b && A.foot + B.foot <= U && A.foot !! B.foot
    requires Ready(Snap(U), B, A, R, av, done) && Is(Snap(U), R) && av.Object? && k in av.members && k !in done
      && k !in b.members
    modifies b
    ensures Ready(Snap(U), B, A, R', av, done + [k]) && Is(Snap(U), R')
    ensures R'.node == b && B.foot <= R'.foot <= B.foot + A.foot
    ensures Tree(Snap(U), R') == old(Object(Tree(Snap(U), R).members[k := av.members[k]]))
  {
    hide Is, Tree, Ready, Agree;
    ghost var h := Snap(U);
    Values(h, B, A, R, av, done, k);
    b.members := b.members[k := a.members[k]];
    ghost var kid := if b.members[k].Nested? then A.kids[k] else A;
    SnapAgrees(h, U, A.foot);
    SnapAgrees(h, U, R.foot - {R.node} - {});
    if b.members[k].Nested? { Stays(h, Snap(U), kid); }
    Round(h, Snap(U), B, A, R, av, done, k, b.members[k], kid);
    R' := Reshaped(R, k, b.members[k], kid);
  }

  /** Both have an object there: that pair is merged, whatever comes of it. */
  method MergeBelow(a: Node, b: Node, k: string, ghost U: set<Node>, ghost A: Shape, ghost B: Shape, ghost R: Shape,
    ghost av: Claim, ghost done: seq<string>) returns (ok: bool, ghost R': Shape, ghost below: Claim)
    requires A.node == a && B.node == b && A.foot + B.foot <= U && A.foot !! B.foot
    requires Ready(Snap(U), B, A, R, av, done) && Is(Snap(U), R) && av.Object? && k in av.members && k !in done
    requires k in a.members && a.members[k].Nested? && k in b.members && b.members[k].Nested?
    modifies B.foot
    ensures R'.node == b && Is(Snap(U), R') && B.foot <= R'.foot <= B.foot + A.foot
    ensures old(k in Tree(Snap(U), R).members && Tree(Snap(U), R).members[k].Object?) && av.members[k].Object?
      && below.Object?
    ensures Merges(av.members[k], old(Tree(Snap(U), R)).members[k], ok, below)
    ensures Tree(Snap(U), R') == Object(old(Tree(Snap(U), R)).members[k := below])
    decreases A, 0
  {
    hide Is, Tree, Ready, Agree, Merges;
    ghost var h := Snap(U);
    Values(h, B, A, R, av, done, k);
    ghost var kid;
    ok, kid := Merge(a.members[k].node, b.members[k].node, U, A.kids[k], R.kids[k]);
    SnapAgrees(h, U, A.foot);
    SnapAgrees(h, U, R.foot - {R.node} - R.kids[k].foot);
    Round(h, Snap(U), B, A, R, av, done, k, b.members[k], kid);
    R' := Reshaped(R, k, b.members[k], kid);
    below := Tree(Snap(U), kid);
  }
}
