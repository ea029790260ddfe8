/** Directed NEXT_HOP edges, walks over them, and the distance between two addresses. */
module HopGraph {

  type Edge = (string, string)

  /** `p` follows edges of `edges` from its first address to its last. */
  ghost predicate IsWalk(edges: set<Edge>, p: seq<string>) {
    && |p| > 0
    && forall i :: 0 <= i < |p| - 1 ==> (p[i], p[i + 1]) in edges
  }

  /** Some walk of exactly `n` edges leads from `a` to `b`. */
  ghost predicate Reaches(edges: set<Edge>, a: string, b: string, n: nat) {
    exists p :: IsWalk(edges, p) && |p| == n + 1 && p[0] == a && p[n] == b
  }

  /** `n` is the length of a shortest walk from `a` to `b`. */
  ghost predicate IsDistance(edges: set<Edge>, a: string, b: string, n: nat) {
    && Reaches(edges, a, b, n)
    && forall m: nat :: m < n ==> !Reaches(edges, a, b, m)
  }

  ghost predicate CanReach(edges: set<Edge>, a: string, b: string) {
    exists n: nat :: Reaches(edges, a, b, n)
  }

  function Flip(edges: set<Edge>): set<Edge> {
    set e | e in edges :: (e.1, e.0)
  }

  /** The addresses one edge away from some address of `from`. */
  function Successors(edges: set<Edge>, from: set<string>): set<string> {
    set e | e in edges && e.0 in from :: e.1
  }

  /** The addresses at most `n` edges away from `s`. */
  ghost function Ball(edges: set<Edge>, s: string, n: nat): set<string> {
    if n == 0 then {s}
    else Ball(edges, s, n - 1) + Successors(edges, Ball(edges, s, n - 1))
  }

  /** The addresses exactly `n` edges away from `s`. */
  ghost function Layer(edges: set<Edge>, s: string, n: nat): set<string> {
    if n == 0 then {s} else Ball(edges, s, n) - Ball(edges, s, n - 1)
  }

  // ---- walks and balls ------------------------------------------------------

  lemma ExtendWalk(edges: set<Edge>, a: string, b: string, c: string, n: nat)
    requires Reaches(edges, a, b, n) && (b, c) in edges
    ensures Reaches(edges, a, c, n + 1)
  {
    var p :| IsWalk(edges, p) && |p| == n + 1 && p[0] == a && p[n] == b;
    var q := p + [c];
    assert IsWalk(edges, q) && |q| == n + 2 && q[0] == a && q[n + 1] == c;
  }

  lemma ShortenWalk(edges: set<Edge>, a: string, c: string, n: nat) returns (b: string)
    requires n > 0 && Reaches(edges, a, c, n)
    ensures Reaches(edges, a, b, n - 1) && (b, c) in edges
  {
    var p :| IsWalk(edges, p) && |p| == n + 1 && p[0] == a && p[n] == c;
    var q := p[..n];
    b := q[n - 1];
    assert (p[n - 1], p[n]) in edges;
    assert IsWalk(edges, q) && |q| == n && q[0] == a && q[n - 1] == b;
  }

  lemma BallGrows(edges: set<Edge>, s: string, m: nat, n: nat)
    requires m <= n
    ensures Ball(edges, s, m) <= Ball(edges, s, n)
    decreases n
  {
    if m < n {
      BallGrows(edges, s, m, n - 1);
    }
  }

  /** A ball holds exactly the ends of walks no longer than its radius. */
  lemma {:induction false} BallIsWalkEnds(edges: set<Edge>, s: string, n: nat, v: string)
    ensures v in Ball(edges, s, n) <==> exists m: nat :: m <= n && Reaches(edges, s, v, m)
    decreases n
  {
    if v in Ball(edges, s, n) {
      WalkIntoBall(edges, s, n, v);
    }
    if m: nat :| m <= n && Reaches(edges, s, v, m) {
      WalkEndsInBall(edges, s, m, v);
      BallGrows(edges, s, m, n);
    }
  }

  lemma {:induction false} WalkIntoBall(edges: set<Edge>, s: string, n: nat, v: string)
    requires v in Ball(edges, s, n)
    ensures exists m: nat :: m <= n && Reaches(edges, s, v, m)
    decreases n
  {
    if n == 0 {
      assert IsWalk(edges, [s]);
      assert Reaches(edges, s, v, 0);
    } else if v in Ball(edges, s, n - 1) {
      WalkIntoBall(edges, s, n - 1, v);
    } else {
      var e :| e in edges && e.0 in Ball(edges, s, n - 1) && e.1 == v;
      WalkIntoBall(edges, s, n - 1, e.0);
      var m: nat :| m <= n - 1 && Reaches(edges, s, e.0, m);
      assert (e.0, v) == e;
      ExtendWalk(edges, s, e.0, v, m);
    }
  }

  lemma {:induction false} WalkEndsInBall(edges: set<Edge>, s: string, n: nat, v: string)
    requires Reaches(edges, s, v, n)
    ensures v in Ball(edges, s, n)
    decreases n
  {
    if n > 0 {
      var b := ShortenWalk(edges, s, v, n);
      WalkEndsInBall(edges, s, n - 1, b);
      assert (b, v).1 in Successors(edges, Ball(edges, s, n - 1));
    }
  }

  /** A layer holds exactly the addresses at that distance. */
  lemma {:induction false} LayerIsDistance(edges: set<Edge>, s: string, n: nat, v: string)
    ensures v in Layer(edges, s, n) <==> IsDistance(edges, s, v, n)
  {
    BallIsWalkEnds(edges, s, n, v);
    if n == 0 {
      if v == s {
        var m: nat :| m <= 0 && Reaches(edges, s, v, m);
      }
    } else {
      BallIsWalkEnds(edges, s, n - 1, v);
      if v in Layer(edges, s, n) {
        var m: nat :| m <= n && Reaches(edges, s, v, m);
        assert m == n;
      }
      if IsDistance(edges, s, v, n) {
        assert v !in Ball(edges, s, n - 1);
      }
    }
  }

  // ---- direction --------------------------------------------------------------

  lemma FlipEdge(edges: set<Edge>, a: string, b: string)
    ensures (a, b) in Flip(edges) <==> (b, a) in edges
  {
    if (b, a) in edges {
      assert (a, b) == ((b, a).1, (b, a).0);
    }
  }

  lemma FlipTwice(edges: set<Edge>)
    ensures Flip(Flip(edges)) == edges
  {
    forall a, b
      ensures (a, b) in Flip(Flip(edges)) <==> (a, b) in edges
    {
      FlipEdge(Flip(edges), a, b);
      FlipEdge(edges, b, a);
    }
    assert forall e :: e in edges <==> (e.0, e.1) in edges;
    assert forall e :: e in Flip(Flip(edges)) <==> (e.0, e.1) in Flip(Flip(edges));
  }

  lemma FlipOneWay(edges: set<Edge>, a: string, b: string, n: nat)
    requires Reaches(edges, a, b, n)
    ensures Reaches(Flip(edges), b, a, n)
  {
    var p :| IsWalk(edges, p) && |p| == n + 1 && p[0] == a && p[n] == b;
    var q := seq(n + 1, i requires 0 <= i < n + 1 => p[n - i]);
    forall i | 0 <= i < |q| - 1
      ensures (q[i], q[i + 1]) in Flip(edges)
    {
      var j := n - i - 1;
      assert (p[j], p[j + 1]) in edges;
      FlipEdge(edges, q[i], q[i + 1]);
    }
    assert IsWalk(Flip(edges), q);
  }

  /** Walking the flipped edges is walking the edges backwards. */
  lemma FlipReverses(edges: set<Edge>, a: string, b: string, n: nat)
    ensures Reaches(Flip(edges), b, a, n) <==> Reaches(edges, a, b, n)
  {
    if Reaches(edges, a, b, n) {
      FlipOneWay(edges, a, b, n);
    }
    if Reaches(Flip(edges), b, a, n) {
      FlipOneWay(Flip(edges), b, a, n);
      FlipTwice(edges);
    }
  }

  lemma FlipDistance(edges: set<Edge>, a: string, b: string, n: nat)
    ensures IsDistance(Flip(edges), b, a, n) <==> IsDistance(edges, a, b, n)
  {
    forall m: nat
      ensures Reaches(Flip(edges), b, a, m) <==> Reaches(edges, a, b, m)
    {
      FlipReverses(edges, a, b, m);
    }
  }

  // ---- breadth-first search ----------------------------------------------------

  /** Only the outermost layer can lead anywhere new. */
  lemma {:induction false} FrontierSuffices(edges: set<Edge>, s: string, n: nat)
    ensures Ball(edges, s, n + 1) == Ball(edges, s, n) + Successors(edges, Layer(edges, s, n))
  {
    if n > 0 {
      forall v | v in Successors(edges, Ball(edges, s, n))
        ensures v in Ball(edges, s, n) + Successors(edges, Layer(edges, s, n))
      {
        var e :| e in edges && e.0 in Ball(edges, s, n) && e.1 == v;
        if e.0 in Ball(edges, s, n - 1) {
          assert v in Successors(edges, Ball(edges, s, n - 1));
        } else {
          assert e.0 in Layer(edges, s, n);
        }
      }
    }
  }

  lemma EmptyLayer(edges: set<Edge>, s: string, m: nat)
    requires m > 0
    ensures Layer(edges, s, m) == {} <==> Ball(edges, s, m) == Ball(edges, s, m - 1)
  {
    BallGrows(edges, s, m - 1, m);
    EmptyDifference(Ball(edges, s, m), Ball(edges, s, m - 1));
  }

  lemma EmptyDifference<T>(a: set<T>, b: set<T>)
    requires b <= a
    ensures a - b == {} <==> a == b
  {
    if a - b == {} {
      forall x | x in a
        ensures x in b
      {
        assert x !in a - b;
      }
    }
  }

  /** Once a layer is empty the search is over: the ball never grows again. */
  lemma {:induction false} EmptyLayerSaturates(edges: set<Edge>, s: string, m: nat, n: nat)
    requires m > 0 && Layer(edges, s, m) == {} && m <= n
    ensures Ball(edges, s, n) == Ball(edges, s, m - 1)
    ensures Layer(edges, s, n) == {}
    decreases n
  {
    EmptyLayer(edges, s, m);
    if m < n {
      EmptyLayerSaturates(edges, s, m, n - 1);
      FrontierSuffices(edges, s, n - 1);
      assert Successors(edges, Layer(edges, s, n - 1)) == {};
      EmptyLayer(edges, s, n);
    }
  }

  /** A saturated ball is everything reachable. */
  lemma SaturatedBallIsReach(edges: set<Edge>, s: string, m: nat, v: string)
    requires m > 0 && Layer(edges, s, m) == {}
    ensures v in Ball(edges, s, m - 1) <==> CanReach(edges, s, v)
  {
    BallIsWalkEnds(edges, s, m - 1, v);
    if n: nat :| Reaches(edges, s, v, n) {
      WalkEndsInBall(edges, s, n, v);
      if n < m {
        BallGrows(edges, s, n, m - 1);
      } else {
        EmptyLayerSaturates(edges, s, m, n);
      }
    }
  }
}
