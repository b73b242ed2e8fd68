/**
 The reference notion both graph searches are measured against: the set of nodes within a given
 number of undirected steps of a set of seeds, walking through known nodes only.
 */
module GraphBall {

  datatype Edge<T> = Edge(source: T, target: T, kind: nat)

  /** The edge joins `u` and `v`, in either direction. */
  predicate Joins<T(==)>(e: Edge<T>, u: T, v: T) {
    (e.source == u && e.target == v) || (e.source == v && e.target == u)
  }

  ghost predicate Adjacent<T>(edges: seq<Edge<T>>, u: T, v: T) {
    exists i :: 0 <= i < |edges| && Joins(edges[i], u, v)
  }

  /** The nodes within `k` steps of the seeds. */
  ghost function Ball<T>(nodes: set<T>, edges: seq<Edge<T>>, seeds: set<T>, k: nat): set<T> {
    if k == 0 then seeds * nodes
    else
      var b := Ball(nodes, edges, seeds, k - 1);
      b + set v | v in nodes && exists u :: u in b && Adjacent(edges, u, v)
  }

  /** `v` is exactly `d` steps away from the nearest seed. */
  ghost predicate AtDistance<T>(nodes: set<T>, edges: seq<Edge<T>>, seeds: set<T>, v: T, d: nat) {
    v in Ball(nodes, edges, seeds, d) && (d > 0 ==> v !in Ball(nodes, edges, seeds, d - 1))
  }

  lemma {:induction false} BallGrows<T>(nodes: set<T>, edges: seq<Edge<T>>, seeds: set<T>, j: nat, k: nat)
    requires j <= k
    ensures Ball(nodes, edges, seeds, j) <= Ball(nodes, edges, seeds, k) <= nodes
    decreases k
  {
    if j < k {
      BallGrows(nodes, edges, seeds, j, k - 1);
    } else if k > 0 {
      BallGrows(nodes, edges, seeds, k - 1, k - 1);
    }
  }

  /** More nodes, edges and seeds give a larger ball. */
  lemma {:induction false} BallMonotone<T>(nodes: set<T>, edges: seq<Edge<T>>, seeds: set<T>,
                                           nodes': set<T>, edges': seq<Edge<T>>, seeds': set<T>, k: nat)
    requires nodes <= nodes' && seeds <= seeds' && forall e :: e in edges ==> e in edges'
    ensures Ball(nodes, edges, seeds, k) <= Ball(nodes', edges', seeds', k)
  {
    if k > 0 {
      BallMonotone(nodes, edges, seeds, nodes', edges', seeds', k - 1);
      forall v | v in Ball(nodes, edges, seeds, k) ensures v in Ball(nodes', edges', seeds', k) {
        if v !in Ball(nodes, edges, seeds, k - 1) {
          var u :| u in Ball(nodes, edges, seeds, k - 1) && Adjacent(edges, u, v);
          AdjacentMonotone(edges, edges', u, v);
        }
      }
    }
  }

  lemma AdjacentMonotone<T>(edges: seq<Edge<T>>, edges': seq<Edge<T>>, u: T, v: T)
    requires Adjacent(edges, u, v) && forall e :: e in edges ==> e in edges'
    ensures Adjacent(edges', u, v)
  {
    var i :| 0 <= i < |edges| && Joins(edges[i], u, v);
    assert edges[i] in edges';
  }

  // ----- the ball in terms of walks

  ghost predicate IsWalk<T>(nodes: set<T>, edges: seq<Edge<T>>, seeds: set<T>, walk: seq<T>, v: T) {
    && |walk| > 0 && walk[0] in seeds && walk[|walk| - 1] == v
    && (forall i :: 0 <= i < |walk| ==> walk[i] in nodes)
    && (forall i :: 0 < i < |walk| ==> Adjacent(edges, walk[i - 1], walk[i]))
  }

  lemma {:induction false} WalkStaysInBall<T>(nodes: set<T>, edges: seq<Edge<T>>, seeds: set<T>, walk: seq<T>, v: T)
    requires IsWalk(nodes, edges, seeds, walk, v)
    ensures v in Ball(nodes, edges, seeds, |walk| - 1)
    decreases |walk|
  {
    if |walk| > 1 {
      WalkStaysInBall(nodes, edges, seeds, walk[..|walk| - 1], walk[|walk| - 2]);
      assert Adjacent(edges, walk[|walk| - 2], v);
    }
  }

  lemma {:induction false} WalkTo<T>(nodes: set<T>, edges: seq<Edge<T>>, seeds: set<T>, v: T,
                                     k: nat)
    returns (walk: seq<T>)
    requires v in Ball(nodes, edges, seeds, k)
    ensures IsWalk(nodes, edges, seeds, walk, v) && |walk| <= k + 1
    decreases k
  {
    if k == 0 {
      walk := [v];
    } else if v in Ball(nodes, edges, seeds, k - 1) {
      walk := WalkTo(nodes, edges, seeds, v, k - 1);
    } else {
      var u :| u in Ball(nodes, edges, seeds, k - 1) && Adjacent(edges, u, v);
      var w := WalkTo(nodes, edges, seeds, u, k - 1);
      walk := w + [v];
    }
  }

  /** A node is in the ball of radius `k` exactly when some walk of at most `k` steps leads to it from a seed. */
  lemma BallIsWalks<T>(nodes: set<T>, edges: seq<Edge<T>>, seeds: set<T>, v: T, k: nat)
    ensures v in Ball(nodes, edges, seeds, k) <==>
            exists walk :: IsWalk(nodes, edges, seeds, walk, v) && |walk| <= k + 1
  {
    if v in Ball(nodes, edges, seeds, k) {
      var walk := WalkTo(nodes, edges, seeds, v, k);
    }
    forall walk | IsWalk(nodes, edges, seeds, walk, v) && |walk| <= k + 1
      ensures v in Ball(nodes, edges, seeds, k)
    {
      WalkStaysInBall(nodes, edges, seeds, walk, v);
      BallGrows(nodes, edges, seeds, |walk| - 1, k);
    }
  }
}
