/**
 Reachability along stored adjacency: `Ball(g, s, k)` holds the vertices
 at most `k` hops from `s`. A vertex is reachable when some ball holds it,
 and its hop distance is the least such `k`.
 */
module Reachability {
  import opened Graphs

  /** The vertices one hop from some vertex of `b`. */
  ghost function Step(g: Graph, b: set<nat>): (r: set<nat>)
    requires Valid(g)
    requires forall x :: x in b ==> x < g.numVertices
    ensures forall y :: y in r ==> y < g.numVertices
  {
    set x, y: nat | x in b && y < g.numVertices && Adjacent(g, x, y) :: y
  }

  /** Vertices within `k` hops of `s`. */
  ghost function Ball(g: Graph, s: nat, k: nat): (r: set<nat>)
    requires Valid(g) && s < g.numVertices
    ensures forall x :: x in r ==> x < g.numVertices
    ensures s in r
  {
    if k == 0 then {s} else Ball(g, s, k - 1) + Step(g, Ball(g, s, k - 1))
  }

  ghost predicate Reachable(g: Graph, s: nat, v: nat)
    requires Valid(g) && s < g.numVertices
  {
    exists k: nat :: v in Ball(g, s, k)
  }

  /** `d` is the hop distance from `s` to `v`: `v` is within `d` hops but not within `d - 1`. */
  ghost predicate IsDistance(g: Graph, s: nat, v: nat, d: nat)
    requires Valid(g) && s < g.numVertices
  {
    v in Ball(g, s, d) && (d == 0 || v !in Ball(g, s, d - 1))
  }

  /** One hop past the ball of radius `k` lands in the ball of radius `k + 1`. */
  lemma StepOut(g: Graph, s: nat, k: nat, x: nat, y: nat)
    requires Valid(g) && s < g.numVertices && y < g.numVertices
    requires x in Ball(g, s, k) && Adjacent(g, x, y)
    ensures y in Ball(g, s, k + 1)
  {
    assert y in Step(g, Ball(g, s, k));
  }

  /** One hop from within `i` hops lands within any radius `k > i`. */
  lemma StepInto(g: Graph, s: nat, i: nat, k: nat, x: nat, y: nat)
    requires Valid(g) && s < g.numVertices && y < g.numVertices && i < k
    requires x in Ball(g, s, i) && Adjacent(g, x, y)
    ensures y in Ball(g, s, k)
  {
    BallMember(g, s, x, i, k - 1);
    assert y in Step(g, Ball(g, s, k - 1));
  }

  /** Balls grow with the radius. */
  lemma {:induction false} BallMonotone(g: Graph, s: nat, j: nat, k: nat)
    requires Valid(g) && s < g.numVertices && j <= k
    ensures Ball(g, s, j) <= Ball(g, s, k)
    decreases k - j
  {
    if j < k {
      BallMonotone(g, s, j + 1, k);
    }
  }

  lemma BallMember(g: Graph, s: nat, v: nat, j: nat, k: nat)
    requires Valid(g) && s < g.numVertices && j <= k && v in Ball(g, s, j)
    ensures v in Ball(g, s, k)
  {
    BallMonotone(g, s, j, k);
  }

  /** A hop distance is the least radius whose ball holds the vertex. */
  lemma DistanceIsLeast(g: Graph, s: nat, v: nat, d: nat, k: nat)
    requires Valid(g) && s < g.numVertices
    requires IsDistance(g, s, v, d) && v in Ball(g, s, k)
    ensures d <= k
  {
    if k < d {
      BallMember(g, s, v, k, d - 1);
    }
  }

  /** A vertex set that holds `s` and every neighbour of its members holds every ball around `s`. */
  lemma {:induction false} ClosedHoldsBalls(g: Graph, s: nat, m: set<nat>, k: nat)
    requires Valid(g) && s < g.numVertices && s in m
    requires forall x: nat, y: nat :: x in m && x < g.numVertices && y < g.numVertices && Adjacent(g, x, y) ==> y in m
    ensures Ball(g, s, k) <= m
  {
    if k > 0 {
      ClosedHoldsBalls(g, s, m, k - 1);
    }
  }

  /** A neighbour of a vertex at distance `d` that is not within `d` hops is at distance `d + 1`. */
  lemma NextDistance(g: Graph, s: nat, u: nat, v: nat, d: nat)
    requires Valid(g) && s < g.numVertices && v < g.numVertices
    requires IsDistance(g, s, u, d) && Adjacent(g, u, v) && v !in Ball(g, s, d)
    ensures IsDistance(g, s, v, d + 1)
  {
    StepOut(g, s, d, u, v);
  }
}
