/** The claims of a request: the challenge, the client's own claims, and the capabilities. */
module ClaimsRequest {
  import opened Claims
  import opened ClaimsMerge

  /** A claims string, once parsed. */
  datatype Input = Absent | Malformed | Null | Parsed(node: Node)

  /** What comes out: one of the inputs as it was, the capabilities alone, a merged object, an error, or
      a write into Go's nil map. */
  datatype Outcome = Verbatim(input: Input) | CapabilitiesAlone | Merged(node: Node) | Failed | Crashed

  /** The trees of a request's two inputs, and those of the capabilities, share nothing. */
  ghost predicate Apart(U: set<Node>, x: Input, X: Shape, y: Input, Y: Shape)
    reads U
  {
    && (x.Parsed? ==> X.node == x.node && X.foot <= U && Is(Snap(U), X))
    && (y.Parsed? ==> Y.node == y.node && Y.foot <= U && Is(Snap(U), Y))
    && (x.Parsed? && y.Parsed? ==> X.foot !! Y.foot)
  }

  /** `mergeClaims`: with one input missing the other is not even looked at; with two, both must be objects. */
  method MergeClaims(x: Input, y: Input, ghost U: set<Node>, ghost X: Shape, ghost Y: Shape) returns (r: Outcome,
    ghost R: Shape)
    requires Apart(U, x, X, y, Y)
    modifies if x.Parsed? && y.Parsed? then X.foot else {}
    ensures x.Absent? ==> r == Verbatim(y) && R == Y
    ensures !x.Absent? && y.Absent? ==> r == Verbatim(x) && R == X
    ensures !x.Absent? && !y.Absent? ==>
              (r.Failed? <==> !x.Parsed? || !y.Parsed?) && (!r.Failed? ==> r == Merged(x.node))
    ensures r.Merged? ==> R.node == x.node && X.foot <= R.foot <= X.foot + Y.foot && Is(Snap(U), R)
    ensures r.Merged? ==> Tree(Snap(U), R) == old(DeepMerged(Tree(Snap(U), X), Tree(Snap(U), Y)))
  {
    if x.Absent? { return Verbatim(y), Y; }
    if y.Absent? { return Verbatim(x), X; }
    if !x.Parsed? || !y.Parsed? { return Failed, X; }
    var m;
    m, R := DeepMerge(x.node, y.node, U, X, Y);
    r := Merged(m);
  }

  /** There are claims, and all that are given are objects. */
  predicate Usable(x: Input, y: Input) {
    (x.Parsed? || x.Absent?) && (y.Parsed? || y.Absent?) && !(x.Absent? && y.Absent?)
  }

  lemma {:induction false} Unchanged(h: Heap, U: set<Node>, s: Shape)
    requires h.Keys == U && s.foot <= U && Is(h, s) && forall n | n in s.foot :: n.members == h[n]
    ensures Is(Snap(U), s) && Tree(Snap(U), s) == Tree(h, s)
  {
    SnapAgrees(h, U, s.foot);
    Stays(h, Snap(U), s);
  }

  /** The claims before the capabilities come in. */
  ghost function Before(h: Heap, x: Input, X: Shape, y: Input, Y: Shape): Claim
    requires Usable(x, y) && (x.Parsed? ==> Is(h, X)) && (y.Parsed? ==> Is(h, Y))
  {
    if x.Absent? then Tree(h, Y)
    else if y.Absent? then Tree(h, X)
    else DeepMerged(Tree(h, X), Tree(h, Y))
  }

  /** What a request with these inputs, in the heap `h`, comes to for a client whose capabilities are the
      chain down to `text`: it succeeds exactly when the claims leave room for the capabilities, and then
      the heap `h'` holds the claims and the capabilities; a single JSON `null` is written into a nil map. */
  ghost predicate Answered(h: Heap, h': Heap, x: Input, X: Shape, y: Input, Y: Shape, text: string, r: Outcome,
    R: Shape)
    requires (x.Parsed? ==> Is(h, X)) && (y.Parsed? ==> Is(h, Y))
  {
    && !r.Verbatim?
    && (r.CapabilitiesAlone? <==> x.Absent? && y.Absent?)
    && (r.Crashed? <==> (x.Absent? && y.Null?) || (x.Null? && y.Absent?))
    && (r.Merged? <==> Usable(x, y) && Free(Before(h, x, X, y, Y), CAPABILITIES_PATH))
    && (r.Merged? ==> R.node == r.node && Is(h', R) && Extends(Before(h, x, X, y, Y), Tree(h', R), text))
  }

  /** `b` is what the claims were, `c` what they are with the capabilities. */
  ghost predicate Extends(b: Claim, c: Claim, text: string) {
    forall p, t :: LeafAt(c, p, t) <==> LeafAt(b, p, t) || (p == CAPABILITIES_PATH && t == text)
  }

  /** The last step: the capabilities, which stay as they were, go into the challenge. */
  method AddCapabilities(caps: Node, challenge: Node, text: string, ghost U: set<Node>, ghost C: Shape, ghost B: Shape)
    returns (ok: bool, ghost R: Shape)
    requires C.node == caps && B.node == challenge && C.foot + B.foot <= U && C.foot !! B.foot
    requires Is(Snap(U), C) && Is(Snap(U), B) && Tree(Snap(U), C) == Chain(CAPABILITIES_PATH, text)
    modifies B.foot
    ensures ok <==> Free(old(Tree(Snap(U), B)), CAPABILITIES_PATH)
    ensures R.node == challenge && R.foot <= B.foot + C.foot && Is(Snap(U), R)
    ensures ok ==> Extends(old(Tree(Snap(U), B)), Tree(Snap(U), R), text)
  {
    hide Is, Tree, Free, LeafAt, Chain;
    ghost var b := Tree(Snap(U), B);
    ok, R := Merge(caps, challenge, U, C, B);
    ghost var c := Tree(Snap(U), R);
    ChainOutcome(CAPABILITIES_PATH, text, b, ok, c);
    if ok {
      forall p, t ensures LeafAt(c, p, t) <==> LeafAt(b, p, t) || (p == CAPABILITIES_PATH && t == text) {
        ChainMerge(CAPABILITIES_PATH, text, b, ok, c, p, t);
      }
    }
  }

  ghost function Feet(x: Input, X: Shape, y: Input, Y: Shape): set<Node> {
    (if x.Parsed? then X.foot else {}) + if y.Parsed? then Y.foot else {}
  }

  /** `MergeCapabilitiesAndClaims`.  Without capabilities the claims go out as they are; otherwise the
      capabilities, which stay as they were, are merged in. */
  method MergeCapabilitiesAndClaims(caps: Node?, x: Input, y: Input, text: string,
    ghost U: set<Node>, ghost C: Shape, ghost X: Shape, ghost Y: Shape) returns (r: Outcome, ghost R: Shape)
    requires Apart(U, x, X, y, Y)
    requires caps != null ==> C.node == caps && C.foot <= U && C.foot !! Feet(x, X, y, Y)
    requires caps != null ==> Is(Snap(U), C) && Tree(Snap(U), C) == Chain(CAPABILITIES_PATH, text)
    modifies Feet(x, X, y, Y)
    ensures caps == null && x.Absent? ==> r == Verbatim(y)
    ensures caps == null && !x.Absent? && y.Absent? ==> r == Verbatim(x)
    ensures caps == null && !x.Absent? && !y.Absent? ==>
      r == (if x.Parsed? && y.Parsed? then Merged(x.node) else Failed)
    ensures caps == null && r.Merged? ==> R.node == x.node && Is(Snap(U), R)
    ensures caps == null && r.Merged? ==> Tree(Snap(U), R) == old(DeepMerged(Tree(Snap(U), X), Tree(Snap(U), Y)))
    ensures r.Verbatim? ==> unchanged(U)
    ensures caps != null ==> Answered(old(Snap(U)), Snap(U), x, X, y, Y, text, r, R)
    ensures caps != null ==> Is(Snap(U), C) && Tree(Snap(U), C) == Chain(CAPABILITIES_PATH, text)
    ensures caps != null && r.Merged? ==> R.foot <= Feet(x, X, y, Y) + C.foot
  {
    hide Is, Tree, DeepMerged, Free, Extends, Chain;
    ghost var h := Snap(U);
    var claims;
    claims, R := MergeClaims(x, y, U, X, Y);
    if caps == null { return claims, R; }
    Unchanged(h, U, C);
    if claims.Failed? || claims == Verbatim(Malformed) { return Failed, R; }
    if claims == Verbatim(Absent) { return CapabilitiesAlone, R; }
    if claims == Verbatim(Null) { return Crashed, R; }
    var challenge := if claims.Merged? then claims.node else claims.input.node;
    ghost var h1, B := Snap(U), R;
    var ok;
    ok, R := AddCapabilities(caps, challenge, text, U, C, B);
    Unchanged(h1, U, C);
    r := if ok then Merged(challenge) else Failed;
  }

  // ----- many requests, one capability map -----

  /** A request's claims strings and the trees of those that are objects. */
  datatype Request = Request(x: Input, y: Input)

  datatype Trees = Trees(X: Shape, Y: Shape)

  ghost function FeetOf(q: Request, t: Trees): set<Node> { Feet(q.x, t.X, q.y, t.Y) }

  /** Trees that share nothing with each other or with the capabilities. */
  ghost predicate Separate(U: set<Node>, C: Shape, requests: seq<Request>, trees: seq<Trees>)
    reads U
  {
    && |trees| == |requests| && C.foot <= U && Is(Snap(U), C)
    && (forall i | 0 <= i < |trees| ::
          Apart(U, requests[i].x, trees[i].X, requests[i].y, trees[i].Y) && FeetOf(requests[i], trees[i]) !! C.foot)
    && (forall i, k | 0 <= i < k < |trees| :: FeetOf(requests[i], trees[i]) !! FeetOf(requests[k], trees[k]))
  }

  /** The answer does not depend on anything else in the heap, before or after. */
  lemma {:induction false} AnswerStays(h: Heap, h': Heap, g: Heap, g': Heap, q: Request, t: Trees, text: string,
    r: Outcome, R: Shape)
    requires (q.x.Parsed? ==> Is(h, t.X)) && (q.y.Parsed? ==> Is(h, t.Y))
      && Answered(h, h', q.x, t.X, q.y, t.Y, text, r, R)
    requires Agree(h, g, FeetOf(q, t)) && (r.Merged? ==> Agree(h', g', R.foot))
    ensures (q.x.Parsed? ==> Is(g, t.X)) && (q.y.Parsed? ==> Is(g, t.Y))
      && Answered(g, g', q.x, t.X, q.y, t.Y, text, r, R)
  {
    hide Is, Tree, DeepMerged, Free, Extends;
    if q.x.Parsed? { Stays(h, g, t.X); }
    if q.y.Parsed? { Stays(h, g, t.Y); }
    if r.Merged? { Stays(h', g', R); }
  }

  /** Request `i` has been answered as if it had been the only one. */
  ghost predicate AnsweredAt(h: Heap, h': Heap, C: Shape, requests: seq<Request>, trees: seq<Trees>, text: string,
    rs: seq<Outcome>, Rs: seq<Shape>, i: nat)
    requires i < |requests| && i < |trees| && i < |rs| && i < |Rs|
  {
    var q, t := requests[i], trees[i];
    && (q.x.Parsed? ==> Is(h, t.X)) && (q.y.Parsed? ==> Is(h, t.Y))
    && Answered(h, h', q.x, t.X, q.y, t.Y, text, rs[i], Rs[i])
    && (rs[i].Merged? ==> Rs[i].foot <= FeetOf(q, t) + C.foot)
  }

  /** The first `n` requests have been answered. */
  ghost predicate AllAnswered(h: Heap, h': Heap, C: Shape, requests: seq<Request>, trees: seq<Trees>, text: string,
    rs: seq<Outcome>, Rs: seq<Shape>)
    requires |rs| == |Rs| <= |requests| == |trees|
  {
    forall k | 0 <= k < |rs| :: AnsweredAt(h, h', C, requests, trees, text, rs, Rs, k)
  }

  /** Answering one more request leaves the earlier answers alone. */
  lemma {:induction false} OneMoreAnswer(h: Heap, h1: Heap, h': Heap, C: Shape, requests: seq<Request>,
    trees: seq<Trees>, text: string, rs: seq<Outcome>, Rs: seq<Shape>, r: Outcome, R: Shape)
    requires |rs| == |Rs| < |requests| == |trees| && AllAnswered(h, h1, C, requests, trees, text, rs, Rs)
    requires var q, t := requests[|rs|], trees[|rs|];
      && Agree(h1, h, FeetOf(q, t)) && Agree(h1, h', h1.Keys - FeetOf(q, t))
      && (q.x.Parsed? ==> Is(h1, t.X)) && (q.y.Parsed? ==> Is(h1, t.Y))
      && Answered(h1, h', q.x, t.X, q.y, t.Y, text, r, R)
      && (r.Merged? ==> R.foot <= FeetOf(q, t) + C.foot)
      && C.foot !! FeetOf(q, t) && forall k | 0 <= k < |rs| :: FeetOf(requests[k], trees[k]) !! FeetOf(q, t)
    ensures AllAnswered(h, h', C, requests, trees, text, rs + [r], Rs + [R])
  {
    hide Is, Answered, Feet;
    AnswerStays(h1, h', h, h', requests[|rs|], trees[|rs|], text, r, R);
    forall k | 0 <= k < |rs| ensures AnsweredAt(h, h', C, requests, trees, text, rs + [r], Rs + [R], k) {
      assert AnsweredAt(h, h1, C, requests, trees, text, rs, Rs, k);
      AnswerStays(h, h1, h, h', requests[k], trees[k], text, rs[k], Rs[k]);
    }
  }

  /** Any number of requests share one capability map: each is answered as if it were the only one, and the
      map is what it was. */
  method ManyRequests(caps: Node, requests: seq<Request>, text: string, ghost U: set<Node>, ghost C: Shape,
    ghost trees: seq<Trees>)
    returns (rs: seq<Outcome>, ghost Rs: seq<Shape>)
    requires C.node == caps && Separate(U, C, requests, trees) && Tree(Snap(U), C) == Chain(CAPABILITIES_PATH, text)
    modifies set i, n | 0 <= i < |trees| && n in FeetOf(requests[i], trees[i]) :: n
    ensures |rs| == |Rs| == |requests| && AllAnswered(old(Snap(U)), Snap(U), C, requests, trees, text, rs, Rs)
    ensures Is(Snap(U), C) && Tree(Snap(U), C) == Chain(CAPABILITIES_PATH, text)
  {
    assert forall k | 0 <= k < |trees| :: FeetOf(requests[k], trees[k]) <= U;
    hide Is, Tree, Free, Chain, Answered, AllAnswered, Feet;
    ghost var h := Snap(U);
    rs, Rs := [], [];
    for i := 0 to |requests|
      invariant |rs| == |Rs| == i && AllAnswered(h, Snap(U), C, requests, trees, text, rs, Rs)
      invariant forall n | n in C.foot :: n.members == h[n]
      invariant forall k, n | i <= k < |trees| && n in FeetOf(requests[k], trees[k]) :: n.members == h[n]
    {
      ghost var h1 := Snap(U);
      var q := requests[i];
      Unchanged(h, U, C);
      UnchangedRequest(h, U, q, trees[i]);
      var r;
      ghost var R;
      r, R := MergeCapabilitiesAndClaims(caps, q.x, q.y, text, U, C, trees[i].X, trees[i].Y);
      OneMoreAnswer(h, h1, Snap(U), C, requests, trees, text, rs, Rs, r, R);
      rs, Rs := rs + [r], Rs + [R];
    }
    Unchanged(h, U, C);
  }

  lemma {:induction false} UnchangedRequest(h: Heap, U: set<Node>, q: Request, t: Trees)
    requires h.Keys == U && FeetOf(q, t) <= U && forall n | n in FeetOf(q, t) :: n.members == h[n]
    requires (q.x.Parsed? ==> Is(h, t.X)) && (q.y.Parsed? ==> Is(h, t.Y))
    ensures (q.x.Parsed? ==> Is(Snap(U), t.X)) && (q.y.Parsed? ==> Is(Snap(U), t.Y))
  {
    if q.x.Parsed? { Unchanged(h, U, t.X); }
    if q.y.Parsed? { Unchanged(h, U, t.Y); }
  }
}
