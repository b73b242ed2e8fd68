/**
 Impact analysis over the cognitive relation graph: a breadth-first search of depth three from a
 file, over relations taken as undirected edges.
 */
module ImpactAnalysis {
  import opened GraphBall
  import opened BreadthFirst

  /** A typed node of the relation graph, such as a file, a requirement or a test. */
  datatype Entity = Entity(kind: nat, id: nat)

  /** The kind of relation does not matter to the search, so every edge has kind zero. */
  function EdgeOf(source: Entity, target: Entity): Edge<Entity> {
    Edge(source, target, 0)
  }

  const IMPACT_DEPTH: nat := 3

  /** The start and every end of an edge. */
  function NodesOf(edges: seq<Edge<Entity>>, start: Entity): set<Entity> {
    {start} + (set i | 0 <= i < |edges| :: edges[i].source) + (set i | 0 <= i < |edges| :: edges[i].target)
  }

  /** The nodes seen and the entries still waiting. */
  datatype Sweep = Sweep(seen: set<Entity>, queue: seq<(Entity, nat)>)

  function SweepHop(v: Entity, d: nat, w: Sweep): Sweep {
    if v in w.seen then w else Sweep(w.seen + {v}, w.queue + [(v, d + 1)])
  }

  function SweepHops(hops: seq<Hop<Entity>>, d: nat, w: Sweep): (r: Sweep)
    ensures w.seen <= r.seen && (r.seen == w.seen ==> r.queue == w.queue)
  {
    if hops == [] then w else SweepHops(hops[1..], d, SweepHop(hops[0].0, d, w))
  }

  lemma {:induction false} SweepHopsBound(nodes: set<Entity>, hops: seq<Hop<Entity>>, d: nat, w: Sweep)
    requires forall i :: 0 <= i < |hops| ==> hops[i].0 in nodes
    ensures SweepHops(hops, d, w).seen <= w.seen + nodes
    decreases |hops|
  {
    if hops != [] {
      SweepHopsBound(nodes, hops[1..], d, SweepHop(hops[0].0, d, w));
    }
  }

  function SweepTurn(hopsOf: Entity -> seq<Hop<Entity>>, w: Sweep): Sweep
    requires w.queue != []
  {
    var (u, d) := w.queue[0];
    var popped := w.(queue := w.queue[1..]);
    if d == IMPACT_DEPTH then popped else SweepHops(hopsOf(u), d, popped)
  }

  ghost predicate HopsStayIn(nodes: set<Entity>, hopsOf: Entity -> seq<Hop<Entity>>) {
    forall u, i :: 0 <= i < |hopsOf(u)| ==> hopsOf(u)[i].0 in nodes
  }

  lemma SweepTurnShrinks(nodes: set<Entity>, hopsOf: Entity -> seq<Hop<Entity>>, w: Sweep)
    requires w.queue != [] && HopsStayIn(nodes, hopsOf)
    ensures var r := SweepTurn(hopsOf, w);
            if r.seen == w.seen then |r.queue| < |w.queue| else nodes - r.seen < nodes - w.seen
  {
    var r := SweepTurn(hopsOf, w);
    if r.seen != w.seen {
      var (u, d) := w.queue[0];
      SweepHopsBound(nodes, hopsOf(u), d, w.(queue := w.queue[1..]));
      var v :| v in r.seen && v !in w.seen;
      assert v in nodes - w.seen && v !in nodes - r.seen;
    }
  }

  ghost function SweepFinish(nodes: set<Entity>, hopsOf: Entity -> seq<Hop<Entity>>, w: Sweep): set<Entity>
    requires HopsStayIn(nodes, hopsOf)
    decreases nodes - w.seen, |w.queue|
  {
    if w.queue == [] then w.seen
    else
      SweepTurnShrinks(nodes, hopsOf, w);
      SweepFinish(nodes, hopsOf, SweepTurn(hopsOf, w))
  }

  // ----- the sweep is the general search, seen from outside

  function Shadow(s: Search<Entity>): Sweep {
    Sweep(s.dist.Keys, s.queue)
  }

  lemma {:induction false} SweepHopsShadow(nodes: set<Entity>, d: nat, hops: seq<Hop<Entity>>, s: Search<Entity>)
    requires forall i :: 0 <= i < |hops| ==> hops[i].0 in nodes
    ensures SweepHops(hops, d, Shadow(s)) == Shadow(VisitHops(nodes, d, hops, s))
    decreases |hops|
  {
    if hops != [] {
      assert SweepHop(hops[0].0, d, Shadow(s)) == Shadow(VisitHop(nodes, d, hops[0], s));
      SweepHopsShadow(nodes, d, hops[1..], VisitHop(nodes, d, hops[0], s));
    }
  }

  lemma SweepTurnShadow(p: Problem<Entity>, truth: map<Entity, nat>, hopsOf: Entity -> seq<Hop<Entity>>,
                        s: Search<Entity>)
    requires IsTruth(p, truth) && Ok(p, truth, s) && s.queue != [] && p.seeds <= p.nodes && p.radius == IMPACT_DEPTH
    requires HopsStayIn(p.nodes, hopsOf)
    ensures SweepTurn(hopsOf, Shadow(s)) == Shadow(Turn(p.nodes, IMPACT_DEPTH, hopsOf, s))
  {
    var (u, d) := s.queue[0];
    assert u in p.nodes && u in truth && d <= IMPACT_DEPTH;
    SweepHopsShadow(p.nodes, d, hopsOf(u), Emit(Pop(s), u));
    assert Shadow(Pop(s)) == Shadow(Emit(Pop(s), u));
  }

  /** Whatever the order in which neighbours are taken, the sweep ends with the nodes within three steps. */
  lemma {:induction false} SweepFindsBall(p: Problem<Entity>, truth: map<Entity, nat>,
                                          hopsOf: Entity -> seq<Hop<Entity>>,
                                         s: Search<Entity>)
    requires IsTruth(p, truth) && Ok(p, truth, s) && AllExpanded(p, s, |s.ordered|)
    requires p.seeds <= p.nodes && p.radius == IMPACT_DEPTH
    requires HopsStayIn(p.nodes, hopsOf) && forall u :: HopsAre(p.edges, u, hopsOf(u))
    ensures SweepFinish(p.nodes, hopsOf, Shadow(s)) == truth.Keys
    decreases p.nodes - s.dist.Keys, |s.queue|
  {
    if s.queue == [] {
      Drained(p, truth, s);
      forall v | v in s.dist ensures v in truth {
        assert v in p.nodes;
      }
      assert s.dist.Keys == truth.Keys;
    } else {
      SweepTurnShadow(p, truth, hopsOf, s);
      SweepTurnShrinks(p.nodes, hopsOf, Shadow(s));
      TurnKeeps(p, truth, IMPACT_DEPTH, hopsOf, s);
      SweepFindsBall(p, truth, hopsOf, Turn(p.nodes, IMPACT_DEPTH, hopsOf, s));
    }
  }

  // ----- the method

  function SetOf(adjacent: map<Entity, set<Entity>>, u: Entity): set<Entity> {
    if u in adjacent then adjacent[u] else {}
  }

  method BuildAdjacent(edges: seq<Edge<Entity>>) returns (adjacent: map<Entity, set<Entity>>)
    ensures forall u, v :: v in SetOf(adjacent, u) <==> Adjacent(edges, u, v)
  {
    adjacent := map[];
    for n := 0 to |edges|
      invariant forall u, v :: v in SetOf(adjacent, u) <==> Adjacent(edges[..n], u, v)
    {
      var left, right := edges[n].source, edges[n].target;
      ghost var before := adjacent;
      adjacent := adjacent[left := SetOf(adjacent, left) + {right}];
      adjacent := adjacent[right := SetOf(adjacent, right) + {left}];
      forall u, v ensures v in SetOf(adjacent, u) <==> Adjacent(edges[..n + 1], u, v) {
        assert v in SetOf(adjacent, u) <==> v in SetOf(before, u) || Joins(edges[n], u, v);
        OneMoreAdjacent(edges[..n], edges[n], u, v);
        assert edges[..n + 1] == edges[..n] + [edges[n]];
      }
    }
    assert edges[..|edges|] == edges;
  }

  lemma OneMoreAdjacent(edges: seq<Edge<Entity>>, e: Edge<Entity>, u: Entity, v: Entity)
    ensures Adjacent(edges + [e], u, v) <==> Adjacent(edges, u, v) || Joins(e, u, v)
  {
    var all := edges + [e];
    if Adjacent(edges, u, v) {
      var i :| 0 <= i < |edges| && Joins(edges[i], u, v);
      assert all[i] == edges[i];
    }
    if Joins(e, u, v) {
      assert all[|edges|] == e;
    }
  }

  ghost predicate ListsAll(hops: seq<Hop<Entity>>, s: set<Entity>) {
    && (forall v :: v in s <==> (v, 0) in hops)
    && (forall i :: 0 <= i < |hops| ==> hops[i].1 == 0)
  }

  /** Fixes an arbitrary iteration order for a set of neighbours. */
  method Iterate(s: set<Entity>) returns (hops: seq<Hop<Entity>>)
    ensures ListsAll(hops, s)
  {
    hops := [];
    var left := s;
    while left != {}
      invariant left <= s && forall v :: v in s <==> v in left || (v, 0) in hops
      invariant forall i :: 0 <= i < |hops| ==> hops[i].1 == 0
      decreases left
    {
      var v :| v in left;
      hops := hops + [(v, 0)];
      left := left - {v};
    }
  }

  function Listed(orders: map<Entity, seq<Hop<Entity>>>, u: Entity): seq<Hop<Entity>> {
    if u in orders then orders[u] else []
  }

  method IterateAll(adjacent: map<Entity, set<Entity>>) returns (orders: map<Entity, seq<Hop<Entity>>>)
    ensures forall u :: ListsAll(Listed(orders, u), SetOf(adjacent, u))
  {
    orders := map[];
    var left := adjacent.Keys;
    while left != {}
      invariant left <= adjacent.Keys && orders.Keys == adjacent.Keys - left
      invariant forall u :: u in orders ==> ListsAll(orders[u], adjacent[u])
      decreases left
    {
      var u :| u in left;
      var hops := Iterate(adjacent[u]);
      orders := orders[u := hops];
      left := left - {u};
    }
    forall u ensures ListsAll(Listed(orders, u), SetOf(adjacent, u)) {
      if u in orders { assert ListsAll(orders[u], adjacent[u]); }
    }
  }

  lemma OrdersAreHops(edges: seq<Edge<Entity>>, adjacent: map<Entity, set<Entity>>, hops: seq<Hop<Entity>>, u: Entity,
                      start: Entity)
    requires forall i :: 0 <= i < |edges| ==> edges[i].kind == 0
    requires forall v :: v in SetOf(adjacent, u) <==> Adjacent(edges, u, v)
    requires ListsAll(hops, SetOf(adjacent, u))
    ensures HopsAre(edges, u, hops) && forall i :: 0 <= i < |hops| ==> hops[i].0 in NodesOf(edges, start)
  {
  }

  method VisitNeighbors(hops: seq<Hop<Entity>>, d: nat, w: Sweep) returns (r: Sweep)
    ensures r == SweepHops(hops, d, w)
  {
    r := w;
    for k := 0 to |hops|
      invariant SweepHops(hops[k..], d, r) == SweepHops(hops, d, w)
    {
      assert hops[k..][0] == hops[k] && hops[k..][1..] == hops[k + 1..];
      var neighbor := hops[k].0;
      if neighbor !in r.seen {
        r := Sweep(r.seen + {neighbor}, r.queue + [(neighbor, d + 1)]);
      }
    }
  }

  lemma SweepIsBall(edges: seq<Edge<Entity>>, start: Entity, hopsOf: Entity -> seq<Hop<Entity>>)
    requires HopsStayIn(NodesOf(edges, start), hopsOf) && forall u :: HopsAre(edges, u, hopsOf(u))
    ensures SweepFinish(NodesOf(edges, start), hopsOf, Sweep({start}, [(start, 0)])) ==
            Ball(NodesOf(edges, start), edges, {start}, IMPACT_DEPTH)
  {
    var p := Problem(NodesOf(edges, start), edges, {start}, IMPACT_DEPTH);
    var truth := TruthExists(p, IMPACT_DEPTH);
    assert p.(radius := IMPACT_DEPTH) == p;
    var s := Search([(start, 0)], map[start := 0], []);
    assert Waiting(s, start) by { assert s.queue[0].0 == start; }
    assert Ok(p, truth, s);
    SweepFindsBall(p, truth, hopsOf, s);
    assert Shadow(s) == Sweep({start}, [(start, 0)]);
    assert Ball(p.nodes, p.edges, p.seeds, IMPACT_DEPTH) == Within(truth, IMPACT_DEPTH) == truth.Keys;
  }

  /** The impact search visits exactly the nodes at undirected distance at most three. */
  method Impact(edges: seq<Edge<Entity>>, start: Entity) returns (seen: set<Entity>)
    requires forall i :: 0 <= i < |edges| ==> edges[i].kind == 0
    ensures seen == Ball(NodesOf(edges, start), edges, {start}, IMPACT_DEPTH)
  {
    var adjacent := BuildAdjacent(edges);
    var orders := IterateAll(adjacent);
    ghost var nodes := NodesOf(edges, start);
    ghost var hopsOf := (u: Entity) => Listed(orders, u);
    forall u ensures HopsAre(edges, u, hopsOf(u)) && forall i :: 0 <= i < |hopsOf(u)| ==> hopsOf(u)[i].0 in nodes {
      OrdersAreHops(edges, adjacent, Listed(orders, u), u, start);
    }
    SweepIsBall(edges, start, hopsOf);
    var w := Sweep({start}, [(start, 0)]);
    while w.queue != []
      invariant SweepFinish(nodes, hopsOf, w) == SweepFinish(nodes, hopsOf, Sweep({start}, [(start, 0)]))
      decreases nodes - w.seen, |w.queue|
    {
      SweepTurnShrinks(nodes, hopsOf, w);
      var (node, depth) := w.queue[0];
      w := w.(queue := w.queue[1..]);
      if depth != 3 {
        w := VisitNeighbors(Listed(orders, node), depth, w);
      }
    }
    seen := w.seen;
  }

  /** More relations can only widen the impact of a file. */
  lemma ImpactGrows(edges: seq<Edge<Entity>>, edges': seq<Edge<Entity>>, start: Entity)
    requires forall e :: e in edges ==> e in edges'
    ensures Ball(NodesOf(edges, start), edges, {start}, IMPACT_DEPTH) <=
            Ball(NodesOf(edges', start), edges', {start}, IMPACT_DEPTH)
  {
    forall v | v in NodesOf(edges, start) ensures v in NodesOf(edges', start) {
      if v != start {
        var i :| 0 <= i < |edges| && (edges[i].source == v || edges[i].target == v);
        assert edges[i] in edges';
        var j :| 0 <= j < |edges'| && edges'[j] == edges[i];
      }
    }
    BallMonotone(NodesOf(edges, start), edges, {start}, NodesOf(edges', start), edges', {start}, IMPACT_DEPTH);
  }
}
