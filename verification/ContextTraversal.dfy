/**
 The bounded traversal of the context engine: a breadth-first search over graph nodes and
 edges, stopped by a depth and by a number of nodes, that also records why each node was reached.
 */
module ContextTraversal {
  import opened Common
  import opened GraphBall
  import opened BreadthFirst

  /** Node identifiers and edge kinds are only ever compared. */
  type Node = nat
  type Kind = nat

  /** Why a node is in the package: a request signal, or an edge of this kind from an earlier node. */
  datatype Why = Signal(name: nat) | Via(kind: Kind, from: Node)

  /** Insertion sort by an arbitrary comparison, standing for the role-dependent sort key. */
  function Insert(before: (Hop<Node>, Hop<Node>) -> bool, h: Hop<Node>, s: seq<Hop<Node>>): (r: seq<Hop<Node>>)
    ensures multiset(r) == multiset(s) + multiset{h}
  {
    if s == [] || before(h, s[0]) then [h] + s
    else
      assert s == [s[0]] + s[1..];
      [s[0]] + Insert(before, h, s[1..])
  }

  function SortHops(before: (Hop<Node>, Hop<Node>) -> bool, s: seq<Hop<Node>>): (r: seq<Hop<Node>>)
    ensures multiset(r) == multiset(s)
  {
    if s == [] then []
    else
      assert s == [s[0]] + s[1..];
      Insert(before, s[0], SortHops(before, s[1..]))
  }

  lemma SortedMembers(before: (Hop<Node>, Hop<Node>) -> bool, s: seq<Hop<Node>>, h: Hop<Node>)
    ensures h in SortHops(before, s) <==> h in s
  {
    assert h in multiset(SortHops(before, s)) <==> h in SortHops(before, s);
    assert h in multiset(s) <==> h in s;
  }

  // ----- adjacency

  function HopsOf(adjacency: map<Node, seq<Hop<Node>>>, u: Node): seq<Hop<Node>> {
    if u in adjacency then adjacency[u] else []
  }

  method BuildAdjacency(edges: seq<Edge<Node>>) returns (adjacency: map<Node, seq<Hop<Node>>>)
    ensures forall u, h :: h in HopsOf(adjacency, u) <==> HopExists(edges, u, h)
  {
    adjacency := map[];
    for n := 0 to |edges|
      invariant forall u, h :: h in HopsOf(adjacency, u) <==> HopExists(edges[..n], u, h)
    {
      var e := edges[n];
      ghost var before := adjacency;
      adjacency := adjacency[e.source := HopsOf(adjacency, e.source) + [(e.target, e.kind)]];
      adjacency := adjacency[e.target := HopsOf(adjacency, e.target) + [(e.source, e.kind)]];
      forall u, h ensures h in HopsOf(adjacency, u) <==> HopExists(edges[..n + 1], u, h) {
        assert h in HopsOf(adjacency, u) <==>
               h in HopsOf(before, u) || (u == e.source && h == (e.target, e.kind)) ||
               (u == e.target && h == (e.source, e.kind));
        OneMoreEdge(edges[..n], e, u, h);
        assert edges[..n + 1] == edges[..n] + [e];
      }
    }
    assert edges[..|edges|] == edges;
  }

  lemma OneMoreEdge(edges: seq<Edge<Node>>, e: Edge<Node>, u: Node, h: Hop<Node>)
    ensures HopExists(edges + [e], u, h) <==> HopExists(edges, u, h) || (Joins(e, u, h.0) && e.kind == h.1)
  {
    var all := edges + [e];
    if HopExists(edges, u, h) {
      var i :| 0 <= i < |edges| && Joins(edges[i], u, h.0) && edges[i].kind == h.1;
      assert all[i] == edges[i];
    }
    if Joins(e, u, h.0) && e.kind == h.1 {
      assert all[|edges|] == e;
    }
  }

  /** Sorting a node's hops, by whatever comparison, lists exactly its edges. */
  lemma SortedHopsAre(edges: seq<Edge<Node>>, adjacency: map<Node, seq<Hop<Node>>>,
                      before: (Hop<Node>, Hop<Node>) -> bool, u: Node)
    requires forall u, h :: h in HopsOf(adjacency, u) <==> HopExists(edges, u, h)
    ensures HopsAre(edges, u, SortHops(before, HopsOf(adjacency, u)))
  {
    var hops := SortHops(before, HopsOf(adjacency, u));
    forall i | 0 <= i < |hops| ensures HopExists(edges, u, hops[i]) {
      SortedMembers(before, HopsOf(adjacency, u), hops[i]);
    }
    forall v | Adjacent(edges, u, v) ensures exists i :: 0 <= i < |hops| && hops[i].0 == v {
      var k :| 0 <= k < |edges| && Joins(edges[k], u, v);
      var h := (v, edges[k].kind);
      assert HopExists(edges, u, h);
      SortedMembers(before, HopsOf(adjacency, u), h);
    }
  }

  // ----- the search with its reasons

  datatype Trail = Trail(search: Search<Node>, why: map<Node, set<Why>>)

  function AddWhy(why: map<Node, set<Why>>, v: Node, reason: Why): map<Node, set<Why>> {
    why[v := (if v in why then why[v] else {}) + {reason}]
  }

  function TrailHop(nodes: set<Node>, u: Node, d: nat, h: Hop<Node>, t: Trail): Trail {
    if h.0 in nodes && h.0 !in t.search.dist
    then Trail(Discover(t.search, h.0, d + 1), AddWhy(t.why, h.0, Via(h.1, u)))
    else t
  }

  function TrailHops(nodes: set<Node>, u: Node, d: nat, hops: seq<Hop<Node>>, t: Trail): Trail {
    if hops == [] then t else TrailHops(nodes, u, d, hops[1..], TrailHop(nodes, u, d, hops[0], t))
  }

  function TrailTurn(nodes: set<Node>, radius: int, hopsOf: Node -> seq<Hop<Node>>, t: Trail): Trail
    requires t.search.queue != []
  {
    var (u, d) := t.search.queue[0];
    var popped := Pop(t.search);
    if u !in nodes || u in t.search.ordered then t.(search := popped)
    else if d >= radius then t.(search := Emit(popped, u))
    else TrailHops(nodes, u, d, hopsOf(u), t.(search := Emit(popped, u)))
  }

  lemma {:induction false} TrailHopsSearch(nodes: set<Node>, u: Node, d: nat, hops: seq<Hop<Node>>, t: Trail)
    ensures TrailHops(nodes, u, d, hops, t).search == VisitHops(nodes, d, hops, t.search)
    decreases |hops|
  {
    if hops != [] {
      TrailHopsSearch(nodes, u, d, hops[1..], TrailHop(nodes, u, d, hops[0], t));
    }
  }

  lemma TrailTurnSearch(nodes: set<Node>, radius: int, hopsOf: Node -> seq<Hop<Node>>, t: Trail)
    requires t.search.queue != []
    ensures TrailTurn(nodes, radius, hopsOf, t).search == Turn(nodes, radius, hopsOf, t.search)
  {
    var (u, d) := t.search.queue[0];
    TrailHopsSearch(nodes, u, d, hopsOf(u), t.(search := Emit(Pop(t.search), u)));
  }

  // ----- reasons

  /** A node reached by the search carries exactly one reason: an edge from a listed node one step closer. */
  ghost predicate ReachedFrom(edges: seq<Edge<Node>>, ordered: seq<Node>, dist: map<Node, nat>, v: Node,
                              why: set<Why>) {
    exists u: Node, k: Kind :: ReachedBy(edges, ordered, dist, v, why, u, k)
  }

  ghost predicate ReachedBy(edges: seq<Edge<Node>>, ordered: seq<Node>, dist: map<Node, nat>, v: Node, why: set<Why>,
                            u: Node, k: Kind) {
    && u in ordered && u in dist && v in dist && dist[u] + 1 == dist[v]
    && HopExists(edges, u, (v, k)) && why == {Via(k, u)}
  }

  /** Seeds keep their reasons; every other key was reached along an edge from a listed node one step closer. */
  ghost predicate ReasonsOk(edges: seq<Edge<Node>>, given: map<Node, set<Why>>, ordered: seq<Node>,
                            dist: map<Node, nat>, why: map<Node, set<Why>>) {
    && why.Keys == dist.Keys
    && (forall v :: v in given ==> v in why && why[v] == given[v])
    && (forall v {:trigger ReachedFrom(edges, ordered, dist, v, why[v])} ::
          v in why && v !in given ==> ReachedFrom(edges, ordered, dist, v, why[v]))
  }

  /** Listing further nodes keeps the reasons. */
  lemma ReasonsStay(edges: seq<Edge<Node>>, given: map<Node, set<Why>>, ordered: seq<Node>, dist: map<Node, nat>,
                    why: map<Node, set<Why>>, v: Node)
    requires ReasonsOk(edges, given, ordered, dist, why)
    ensures ReasonsOk(edges, given, ordered + [v], dist, why)
  {
    forall w | w in why && w !in given ensures ReachedFrom(edges, ordered + [v], dist, w, why[w]) {
      assert ReachedFrom(edges, ordered, dist, w, why[w]);
      var u: Node, k: Kind :| ReachedBy(edges, ordered, dist, w, why[w], u, k);
      assert ReachedBy(edges, ordered + [v], dist, w, why[w], u, k);
    }
  }

  lemma ReasonAdded(edges: seq<Edge<Node>>, given: map<Node, set<Why>>, ordered: seq<Node>, dist: map<Node, nat>,
                    why: map<Node, set<Why>>, u: Node, h: Hop<Node>)
    requires ReasonsOk(edges, given, ordered, dist, why) && u in ordered && u in dist && h.0 !in dist &&
             HopExists(edges, u, h)
    ensures ReasonsOk(edges, given, ordered, dist[h.0 := dist[u] + 1], AddWhy(why, h.0, Via(h.1, u)))
  {
    var d := dist[h.0 := dist[u] + 1];
    var r := AddWhy(why, h.0, Via(h.1, u));
    forall w | w in r && w !in given ensures ReachedFrom(edges, ordered, d, w, r[w]) {
      if w != h.0 {
        assert ReachedFrom(edges, ordered, dist, w, why[w]);
        var x: Node, k: Kind :| ReachedBy(edges, ordered, dist, w, why[w], x, k);
        assert ReachedBy(edges, ordered, d, w, r[w], x, k);
      } else {
        assert ReachedBy(edges, ordered, d, w, r[w], u, h.1);
      }
    }
  }

  lemma {:induction false} HopsKeepReasons(edges: seq<Edge<Node>>, given: map<Node, set<Why>>, nodes: set<Node>,
                                          u: Node, d: nat, hops: seq<Hop<Node>>, t: Trail)
    requires ReasonsOk(edges, given, t.search.ordered, t.search.dist, t.why)
    requires u in t.search.ordered && u in t.search.dist && t.search.dist[u] == d
    requires forall i :: 0 <= i < |hops| ==> HopExists(edges, u, hops[i])
    ensures var r := TrailHops(nodes, u, d, hops, t);
            ReasonsOk(edges, given, r.search.ordered, r.search.dist, r.why)
    decreases |hops|
  {
    if hops != [] {
      if hops[0].0 in nodes && hops[0].0 !in t.search.dist {
        ReasonAdded(edges, given, t.search.ordered, t.search.dist, t.why, u, hops[0]);
      }
      HopsKeepReasons(edges, given, nodes, u, d, hops[1..], TrailHop(nodes, u, d, hops[0], t));
    }
  }

  // ----- what the caller gets

  /** An ordered selection, the depths assigned, and whether something is missing. */
  ghost predicate Selects(p: Problem<Node>, maxNodes: int, ordered: seq<Node>, dist: map<Node, nat>, truncated: bool) {
    var ball := Ball(p.nodes, p.edges, p.seeds, p.radius);
    && (forall v :: v in ordered ==> v in ball && v in dist && AtDistance(p.nodes, p.edges, p.seeds, v, dist[v]))
    && (forall i, j :: 0 <= i < j < |ordered| ==> ordered[i] != ordered[j] && dist[ordered[i]] <= dist[ordered[j]])
    && (forall v, w, d: nat :: v in ordered && AtDistance(p.nodes, p.edges, p.seeds, w, d) && d < dist[v] ==>
        w in ordered)
    && |ordered| == Min(Max(0, maxNodes), |ball|)
    && (!truncated <==> p.seeds <= p.nodes && forall v :: v in ball ==> v in ordered)
  }

  /**
   Seeds and nodes of the ball get a distance, and so does every neighbour of a listed node that is
   not at the rim.
   */
  ghost predicate Explores(p: Problem<Node>, ordered: seq<Node>, dist: map<Node, nat>) {
    && p.seeds <= dist.Keys && dist.Keys <= p.seeds + Ball(p.nodes, p.edges, p.seeds, p.radius)
    && (forall u :: u in dist && u !in p.seeds ==> dist[u] <= p.radius)
    && (forall i :: 0 <= i < |ordered| ==> Expanded(p, dist, ordered[i]))
  }

  lemma SeqCardinality<T>(s: seq<T>)
    requires forall i, j :: 0 <= i < j < |s| ==> s[i] != s[j]
    ensures |set v | v in s| == |s|
  {
    if s == [] {
      assert (set v | v in s) == {};
    } else {
      var n := |s| - 1;
      SeqCardinality(s[..n]);
      assert (set v | v in s) == (set v | v in s[..n]) + {s[n]};
    }
  }

  lemma SubsetSize<T>(a: set<T>, b: set<T>)
    requires a <= b
    ensures |a| <= |b| && (|a| == |b| ==> a == b)
  {
    assert b == a + (b - a);
  }

  lemma DistanceIsTruth(p: Problem<Node>, truth: map<Node, nat>, v: Node, d: nat)
    requires IsTruth(p, truth) && BallsAgree(p, truth, p.radius)
    ensures v in truth && truth[v] == d ==> AtDistance(p.nodes, p.edges, p.seeds, v, d)
    ensures d <= p.radius && AtDistance(p.nodes, p.edges, p.seeds, v, d) ==> v in truth && truth[v] == d
  {
    if d <= p.radius {
      assert Ball(p.nodes, p.edges, p.seeds, d) == Within(truth, d);
      if d > 0 {
        assert Ball(p.nodes, p.edges, p.seeds, d - 1) == Within(truth, d - 1);
      }
    }
  }

  /** The number of emitted nodes, and what it means that some are missing. */
  lemma CountsAndTruncation(p: Problem<Node>, truth: map<Node, nat>, s: Search<Node>, maxNodes: int)
    requires IsTruth(p, truth) && Ok(p, truth, s) && AllExpanded(p, s, |s.ordered|)
    requires s.queue == [] || |s.ordered| >= maxNodes
    requires |s.ordered| <= Max(0, maxNodes)
    ensures |s.ordered| == Min(Max(0, maxNodes), |truth.Keys|)
    ensures !(s.queue != [] || |s.dist| > |s.ordered|) <==>
            p.seeds <= p.nodes && forall v :: v in truth ==> v in s.ordered
  {
    var found := set v | v in s.ordered;
    SeqCardinality(s.ordered);
    assert found <= truth.Keys && found <= s.dist.Keys;
    SubsetSize(found, truth.Keys);
    SubsetSize(found, s.dist.Keys);
    if s.queue == [] {
      Drained(p, truth, s);
      assert found == truth.Keys;
    } else {
      assert s.queue[0].0 in s.dist && s.queue[0].0 !in s.ordered;
      if s.queue[0].0 in p.nodes {
        assert s.queue[0].0 in truth;
      }
    }
    if |s.dist| == |s.ordered| {
      assert s.dist.Keys == found;
    } else if p.seeds <= p.nodes && forall v :: v in truth ==> v in s.ordered {
      assert s.dist.Keys <= found;
      SubsetSize(s.dist.Keys, found);
    }
  }

  lemma SearchSelects(p: Problem<Node>, truth: map<Node, nat>, s: Search<Node>, maxNodes: int)
    requires IsTruth(p, truth) && BallsAgree(p, truth, p.radius) && Ok(p, truth, s) && AllExpanded(p, s, |s.ordered|)
    requires s.queue == [] || |s.ordered| >= maxNodes
    requires |s.ordered| <= Max(0, maxNodes)
    ensures Selects(p, maxNodes, s.ordered, s.dist, s.queue != [] || |s.dist| > |s.ordered|)
    ensures Explores(p, s.ordered, s.dist)
  {
    CountsAndTruncation(p, truth, s, maxNodes);
    assert Ball(p.nodes, p.edges, p.seeds, p.radius) == Within(truth, p.radius) == truth.Keys;
    forall v | v in s.ordered ensures v in s.dist && AtDistance(p.nodes, p.edges, p.seeds, v, s.dist[v]) {
      DistanceIsTruth(p, truth, v, s.dist[v]);
    }
    forall v, w, d: nat | v in s.ordered && AtDistance(p.nodes, p.edges, p.seeds, w, d) && d < s.dist[v]
      ensures w in s.ordered
    {
      DistanceIsTruth(p, truth, w, d);
      NothingCloserSkipped(p, truth, s, v, w);
    }
  }

  // ----- the traversal

  /** The queue holds each seed once, at depth zero. */
  ghost predicate SeedsQueued(seeds: set<Node>, queue: seq<Hop<Node>>) {
    && (forall i :: 0 <= i < |queue| ==> queue[i].0 in seeds && queue[i].1 == 0)
    && (forall i, j :: 0 <= i < j < |queue| ==> queue[i].0 != queue[j].0)
    && (forall v :: v in seeds ==> exists i :: 0 <= i < |queue| && queue[i].0 == v)
  }

  method Enqueue(seeds: set<Node>) returns (queue: seq<Hop<Node>>)
    ensures SeedsQueued(seeds, queue)
  {
    queue := [];
    var left := seeds;
    while left != {}
      invariant left <= seeds
      invariant forall i :: 0 <= i < |queue| ==> queue[i].0 in seeds && queue[i].0 !in left && queue[i].1 == 0
      invariant forall i, j :: 0 <= i < j < |queue| ==> queue[i].0 != queue[j].0
      invariant forall v :: v in seeds && v !in left ==> exists i :: 0 <= i < |queue| && queue[i].0 == v
      decreases left
    {
      var v :| v in left;
      ghost var before := queue;
      queue := queue + [(v, 0)];
      left := left - {v};
      forall w | w in seeds && w !in left ensures exists i :: 0 <= i < |queue| && queue[i].0 == w {
        if w == v {
          assert queue[|before|].0 == v;
        } else {
          var i :| 0 <= i < |before| && before[i].0 == w;
          assert queue[i].0 == w;
        }
      }
    }
  }

  lemma StartIsOk(p: Problem<Node>, truth: map<Node, nat>, queue: seq<Hop<Node>>)
    requires IsTruth(p, truth) && SeedsQueued(p.seeds, queue)
    ensures Ok(p, truth, Search(queue, map v | v in p.seeds :: 0, []))
  {
  }

  ghost function TrailFinish(nodes: set<Node>, radius: int, limit: int, hopsOf: Node -> seq<Hop<Node>>, t: Trail): Trail
    decreases Remaining(nodes, t.search), |t.search.queue|
  {
    if t.search.queue == [] || |t.search.ordered| >= limit then t
    else
      TrailTurnSearch(nodes, radius, hopsOf, t);
      assert t.search.queue[0].0 in nodes && t.search.queue[0].0 !in t.search.ordered ==>
             t.search.queue[0].0 in Remaining(nodes, t.search) &&
             t.search.queue[0].0 in Emit(Pop(t.search), t.search.queue[0].0).ordered;
      TrailFinish(nodes, radius, limit, hopsOf, TrailTurn(nodes, radius, hopsOf, t))
  }

  /** Following the reasons does not change the search, and every turn keeps the reasons sound. */
  lemma {:induction false} TrailFinishKeeps(p: Problem<Node>, truth: map<Node, nat>, given: map<Node, set<Why>>,
                                           radius: int, limit: int, hopsOf: Node -> seq<Hop<Node>>, t: Trail)
    requires IsTruth(p, truth) && Ok(p, truth, t.search) && AllExpanded(p, t.search, |t.search.ordered|)
    requires p.radius == (if radius < 0 then 0 else radius) && forall u :: HopsAre(p.edges, u, hopsOf(u))
    requires ReasonsOk(p.edges, given, t.search.ordered, t.search.dist, t.why)
    ensures var r := TrailFinish(p.nodes, radius, limit, hopsOf, t);
            && r.search == Finish(p.nodes, radius, limit, hopsOf, t.search)
            && ReasonsOk(p.edges, given, r.search.ordered, r.search.dist, r.why)
    decreases Remaining(p.nodes, t.search), |t.search.queue|
  {
    var s := t.search;
    if s.queue != [] && |s.ordered| < limit {
      var (u, d) := s.queue[0];
      TrailTurnSearch(p.nodes, radius, hopsOf, t);
      TurnKeeps(p, truth, radius, hopsOf, s);
      ReasonsStay(p.edges, given, s.ordered, s.dist, t.why, u);
      HopsKeepReasons(p.edges, given, p.nodes, u, d, hopsOf(u), t.(search := Emit(Pop(s), u)));
      assert u in p.nodes && u !in s.ordered ==> u in Remaining(p.nodes, s) && u in Emit(Pop(s), u).ordered;
      TrailFinishKeeps(p, truth, given, radius, limit, hopsOf, TrailTurn(p.nodes, radius, hopsOf, t));
    }
  }

  method VisitNeighbors(nodes: set<Node>, u: Node, d: nat, hops: seq<Hop<Node>>, t: Trail) returns (r: Trail)
    ensures r == TrailHops(nodes, u, d, hops, t)
  {
    r := t;
    for k := 0 to |hops|
      invariant TrailHops(nodes, u, d, hops[k..], r) == TrailHops(nodes, u, d, hops, t)
    {
      var (v, kind) := hops[k];
      assert hops[k..][0] == hops[k] && hops[k..][1..] == hops[k + 1..];
      if v in nodes && v !in r.search.dist {
        var queue, dist := r.search.queue + [(v, d + 1)], r.search.dist[v := d + 1];
        r := Trail(Search(queue, dist, r.search.ordered), AddWhy(r.why, v, Via(kind, u)));
      }
    }
  }

  /**
   The traversal.  Whatever the comparison used to sort neighbours and whatever order the seeds are
   taken in, the selection is the `maxNodes` nearest nodes of the ball of radius `maxDepth`, in order
   of exact distance, and `truncated` tells whether anything of the ball or any seed is missing.
   The reasons map ends up with one key per node that got a depth, not only the seeds.
   */
  method Traverse(nodes: set<Node>, edges: seq<Edge<Node>>, given: map<Node, set<Why>>,
                  maxDepth: int, maxNodes: int, before: (Hop<Node>, Hop<Node>) -> bool)
    returns (ordered: seq<Node>, distances: map<Node, nat>, truncated: bool, reasons: map<Node, set<Why>>)
    ensures Selects(Problem(nodes, edges, given.Keys, Max(0, maxDepth)), maxNodes, ordered, distances, truncated)
    ensures Explores(Problem(nodes, edges, given.Keys, Max(0, maxDepth)), ordered, distances)
    ensures ReasonsOk(edges, given, ordered, distances, reasons)
  {
    var adjacency := BuildAdjacency(edges);
    ghost var hopsOf := (u: Node) => SortHops(before, HopsOf(adjacency, u));
    var queue := Enqueue(given.Keys);
    var t := Trail(Search(queue, map v | v in given.Keys :: 0, []), given);
    ghost var start := t;
    while t.search.queue != [] && |t.search.ordered| < maxNodes
      invariant TrailFinish(nodes, maxDepth, maxNodes, hopsOf, t) ==
                TrailFinish(nodes, maxDepth, maxNodes, hopsOf, start)
      decreases Remaining(nodes, t.search), |t.search.queue|
    {
      var (u, distance) := t.search.queue[0];
      ghost var previous := t;
      t := t.(search := t.search.(queue := t.search.queue[1..]));
      if u in nodes && u !in t.search.ordered {
        assert u in Remaining(nodes, previous.search) && u in Emit(Pop(previous.search), u).ordered;
        t := t.(search := t.search.(ordered := t.search.ordered + [u]));
        if distance < maxDepth {
          var neighbors := SortHops(before, HopsOf(adjacency, u));
          TrailHopsSearch(nodes, u, distance, neighbors, t);
          t := VisitNeighbors(nodes, u, distance, neighbors, t);
        }
      }
      assert t == TrailTurn(nodes, maxDepth, hopsOf, previous);
    }
    ordered, distances, reasons := t.search.ordered, t.search.dist, t.why;
    truncated := t.search.queue != [] || |distances| > |ordered|;
    forall u ensures HopsAre(edges, u, hopsOf(u)) {
      SortedHopsAre(edges, adjacency, before, u);
    }
    TraversalIsRight(Problem(nodes, edges, given.Keys, Max(0, maxDepth)), given, maxDepth, maxNodes, hopsOf,
        start.search);
  }

  /** From the seeds alone, the finished search is the selection promised and its reasons are sound. */
  lemma TraversalIsRight(p: Problem<Node>, given: map<Node, set<Why>>, radius: int, limit: int,
                         hopsOf: Node -> seq<Hop<Node>>, start: Search<Node>)
    requires SeedsQueued(p.seeds, start.queue) && start == Search(start.queue, map v | v in p.seeds :: 0, [])
    requires p.radius == Max(0, radius) && given.Keys == p.seeds && forall u :: HopsAre(p.edges, u, hopsOf(u))
    ensures var r := TrailFinish(p.nodes, radius, limit, hopsOf, Trail(start, given));
            && Selects(p, limit, r.search.ordered, r.search.dist,
                       r.search.queue != [] || |r.search.dist| > |r.search.ordered|)
            && Explores(p, r.search.ordered, r.search.dist)
            && ReasonsOk(p.edges, given, r.search.ordered, r.search.dist, r.why)
  {
    var truth := TruthExists(p, p.radius);
    assert p.(radius := p.radius) == p;
    StartIsOk(p, truth, start.queue);
    FinishedTrail(p, truth, given, radius, limit, hopsOf, Trail(start, given));
  }

  lemma FinishedTrail(p: Problem<Node>, truth: map<Node, nat>, given: map<Node, set<Why>>,
                      radius: int, limit: int, hopsOf: Node -> seq<Hop<Node>>, t: Trail)
    requires IsTruth(p, truth) && BallsAgree(p, truth, p.radius) && Ok(p, truth, t.search) && t.search.ordered == []
    requires p.radius == Max(0, radius) && forall u :: HopsAre(p.edges, u, hopsOf(u))
    requires ReasonsOk(p.edges, given, t.search.ordered, t.search.dist, t.why)
    ensures var r := TrailFinish(p.nodes, radius, limit, hopsOf, t);
            && Selects(p, limit, r.search.ordered, r.search.dist,
                       r.search.queue != [] || |r.search.dist| > |r.search.ordered|)
            && Explores(p, r.search.ordered, r.search.dist)
            && ReasonsOk(p.edges, given, r.search.ordered, r.search.dist, r.why)
  {
    FinishKeeps(p, truth, radius, limit, hopsOf, t.search);
    TrailFinishKeeps(p, truth, given, radius, limit, hopsOf, t);
    SearchSelects(p, truth, Finish(p.nodes, radius, limit, hopsOf, t.search), limit);
  }

  // ----- when the keys of the reasons are the seeds

  /** Every neighbour, in the graph, of a node that was listed and expanded is a seed. */
  ghost predicate StaysAmongSeeds(p: Problem<Node>, ordered: seq<Node>, dist: map<Node, nat>) {
    forall u, w :: u in ordered && u in dist && dist[u] < p.radius && w in p.nodes && Adjacent(p.edges, u, w) ==>
        w in p.seeds
  }

  /**
   After a traversal the reasons are those of the seeds alone exactly when no expanded node has a
   neighbour that is no seed.
   */
  lemma ReasonKeysAreSeedsIff(p: Problem<Node>, given: map<Node, set<Why>>, ordered: seq<Node>, dist: map<Node, nat>,
                              reasons: map<Node, set<Why>>)
    requires Explores(p, ordered, dist) && ReasonsOk(p.edges, given, ordered, dist, reasons) && given.Keys == p.seeds
    ensures reasons.Keys == given.Keys <==> StaysAmongSeeds(p, ordered, dist)
  {
    if reasons.Keys == given.Keys {
      forall u, w | u in ordered && u in dist && dist[u] < p.radius && w in p.nodes && Adjacent(p.edges, u, w)
        ensures w in p.seeds
      {
        var i :| 0 <= i < |ordered| && ordered[i] == u;
        assert Expanded(p, dist, ordered[i]);
      }
    } else {
      var v :| v in reasons && v !in given;
      assert ReachedFrom(p.edges, ordered, dist, v, reasons[v]);
      var u: Node, k: Kind :| ReachedBy(p.edges, ordered, dist, v, reasons[v], u, k);
      HopIsAdjacent(p.edges, u, (v, k));
      BallGrows(p.nodes, p.edges, p.seeds, 0, p.radius);
    }
  }

  lemma {:induction false} BallStops(p: Problem<Node>, k: nat)
    requires Ball(p.nodes, p.edges, p.seeds, 1) <= p.seeds
    ensures Ball(p.nodes, p.edges, p.seeds, k) == Ball(p.nodes, p.edges, p.seeds, 0)
  {
    if k > 0 {
      BallStops(p, k - 1);
      assert Ball(p.nodes, p.edges, p.seeds, 1 - 1) == Ball(p.nodes, p.edges, p.seeds, 0);
      BallGrows(p.nodes, p.edges, p.seeds, 0, 1);
    }
  }

  /** If the limit leaves room for all seeds, all seeds in the graph are listed. */
  lemma SeedsAreListed(p: Problem<Node>, maxNodes: int, ordered: seq<Node>, dist: map<Node, nat>, truncated: bool,
                       u: Node)
    requires Selects(p, maxNodes, ordered, dist, truncated) && u in p.seeds * p.nodes && |p.seeds * p.nodes| <= maxNodes
    ensures u in ordered
  {
    var inside := Ball(p.nodes, p.edges, p.seeds, 0);
    var found := set v | v in ordered;
    BallGrows(p.nodes, p.edges, p.seeds, 0, p.radius);
    SubsetSize(inside, Ball(p.nodes, p.edges, p.seeds, p.radius));
    SeqCardinality(ordered);
    assert AtDistance(p.nodes, p.edges, p.seeds, u, 0);
    if u !in ordered {
      forall v | v in found ensures v in inside {
        assert dist[v] == 0;
      }
      SubsetSize(found, inside - {u});
    }
  }

  lemma OneStepFromSeeds(p: Problem<Node>, w: Node) returns (u: Node)
    requires w in Ball(p.nodes, p.edges, p.seeds, 1) && w !in p.seeds
    ensures u in p.seeds * p.nodes && Adjacent(p.edges, u, w) && w in p.nodes
  {
    var inside := Ball(p.nodes, p.edges, p.seeds, 0);
    assert Ball(p.nodes, p.edges, p.seeds, 1) ==
           inside + set v | v in p.nodes && exists u :: u in inside && Adjacent(p.edges, u, v);
    u :| u in inside && Adjacent(p.edges, u, w);
  }

  lemma FirstStepIsKept(p: Problem<Node>, maxNodes: int, ordered: seq<Node>, dist: map<Node, nat>, truncated: bool,
                        w: Node)
    requires Selects(p, maxNodes, ordered, dist, truncated) && Explores(p, ordered, dist) &&
             |p.seeds * p.nodes| <= maxNodes
    requires p.radius > 0 && w in Ball(p.nodes, p.edges, p.seeds, 1) && w !in p.seeds
    ensures w in dist
  {
    var u := OneStepFromSeeds(p, w);
    SeedsAreListed(p, maxNodes, ordered, dist, truncated, u);
    var i :| 0 <= i < |ordered| && ordered[i] == u;
    assert Expanded(p, dist, ordered[i]);
    SeedIsAtZero(p, u, dist[u]);
  }

  lemma SeedIsAtZero(p: Problem<Node>, u: Node, d: nat)
    requires u in p.seeds * p.nodes && AtDistance(p.nodes, p.edges, p.seeds, u, d)
    ensures d == 0
  {
    if d > 0 {
      BallGrows(p.nodes, p.edges, p.seeds, 0, d - 1);
    }
  }

  /**
   What a caller can check beforehand: with room for all seeds, the keys of the reasons are the seeds
   exactly when the first step from the seeds, if the depth allows one, reaches nothing else.
   */
  lemma SeedKeysIff(p: Problem<Node>, maxNodes: int, given: map<Node, set<Why>>, ordered: seq<Node>,
                    dist: map<Node, nat>, truncated: bool, reasons: map<Node, set<Why>>)
    requires Selects(p, maxNodes, ordered, dist, truncated) && Explores(p, ordered, dist)
    requires ReasonsOk(p.edges, given, ordered, dist, reasons) && given.Keys == p.seeds &&
             |p.seeds * p.nodes| <= maxNodes
    ensures reasons.Keys == given.Keys <==> p.radius == 0 || Ball(p.nodes, p.edges, p.seeds, 1) <= p.seeds
  {
    assert reasons.Keys == dist.Keys;
    if p.radius == 0 {
      assert Ball(p.nodes, p.edges, p.seeds, 0) <= p.seeds;
    } else if Ball(p.nodes, p.edges, p.seeds, 1) <= p.seeds {
      BallStops(p, p.radius);
      assert Ball(p.nodes, p.edges, p.seeds, 0) <= p.seeds;
    } else {
      var w :| w in Ball(p.nodes, p.edges, p.seeds, 1) && w !in p.seeds;
      FirstStepIsKept(p, maxNodes, ordered, dist, truncated, w);
    }
  }

  const PAIR: Problem<Node> := Problem({0, 1}, [Edge(0, 1, 0)], {0}, 1)

  lemma PairReachesBoth()
    ensures 1 in Ball(PAIR.nodes, PAIR.edges, PAIR.seeds, 1)
  {
    assert Joins(PAIR.edges[0], 0, 1);
    var inside := Ball(PAIR.nodes, PAIR.edges, PAIR.seeds, 0);
    assert 0 in inside && Adjacent(PAIR.edges, 0, 1);
    assert Ball(PAIR.nodes, PAIR.edges, PAIR.seeds, 1) ==
           inside + set v | v in PAIR.nodes && exists u :: u in inside && Adjacent(PAIR.edges, u, v);
  }

  lemma PairKeepsBoth(ordered: seq<Node>, dist: map<Node, nat>, truncated: bool)
    requires Selects(PAIR, 2, ordered, dist, truncated) && Explores(PAIR, ordered, dist)
    ensures 1 in dist && 1 !in PAIR.seeds
  {
    assert PAIR.seeds * PAIR.nodes == {0};
    PairReachesBoth();
    FirstStepIsKept(PAIR, 2, ordered, dist, truncated, 1);
  }

  /**
   Two joined nodes and one seed: after the traversal a node that is no seed is among the keys that
   are stored as seeds.
   */
  method SeedKeysExample(before: (Hop<Node>, Hop<Node>) -> bool) returns (reasons: map<Node, set<Why>>)
    ensures 1 in reasons && 1 !in PAIR.seeds
  {
    var given: map<Node, set<Why>> := map[0 := {Signal(0)}];
    var ordered, distances, truncated, all := Traverse(PAIR.nodes, PAIR.edges, given, PAIR.radius, 2, before);
    assert given.Keys == PAIR.seeds;
    PairKeepsBoth(ordered, distances, truncated);
    reasons := all;
  }
}
