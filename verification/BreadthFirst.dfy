/**
 What a first-in first-out search knows at any moment, independent of the order in which
 neighbours are enumerated.
 */
module BreadthFirst {
  import opened GraphBall

  /** The graph searched, the seeds, and the depth at which expansion stops. */
  datatype Problem<T> = Problem(nodes: set<T>, edges: seq<Edge<T>>, seeds: set<T>, radius: nat)

  /** Entries waiting, depths assigned so far, and nodes already emitted in order. */
  datatype Search<T> = Search(queue: seq<(T, nat)>, dist: map<T, nat>, ordered: seq<T>)

  /**
   `truth` gives the distance of every node within the radius.  Local conditions that pin it down:
   seeds are at 0, neighbours differ by at most one step, and every other node has a predecessor.
   */
  ghost predicate IsTruth<T>(p: Problem<T>, truth: map<T, nat>) {
    && (forall v :: v in truth ==> v in p.nodes && truth[v] <= p.radius)
    && (forall v :: v in p.seeds && v in p.nodes ==> v in truth && truth[v] == 0)
    && (forall v {:trigger HasOrigin(p, truth, v)} :: v in truth ==> HasOrigin(p, truth, v))
    && (forall u, v {:trigger Adjacent(p.edges, u, v)} ::
          u in truth && v in p.nodes && truth[u] < p.radius && Adjacent(p.edges, u, v) ==>
          v in truth && truth[v] <= truth[u] + 1)
  }

  ghost predicate HasOrigin<T>(p: Problem<T>, truth: map<T, nat>, v: T)
    requires v in truth
  {
    if truth[v] == 0 then v in p.seeds
    else exists u :: u in truth && truth[u] + 1 == truth[v] && Adjacent(p.edges, u, v)
  }

  /** Depths are true distances; nodes outside the graph can only be seeds. */
  ghost predicate DistancesOk<T>(p: Problem<T>, truth: map<T, nat>, dist: map<T, nat>) {
    && (forall v :: v in p.seeds ==> v in dist)
    && (forall v :: v in dist && v !in p.nodes ==> v in p.seeds && dist[v] == 0)
    && (forall v :: v in dist && v in p.nodes ==> v in truth && truth[v] == dist[v])
  }

  function Level<T>(s: Search<T>): nat {
    if s.ordered != [] && s.ordered[|s.ordered| - 1] in s.dist then s.dist[s.ordered[|s.ordered| - 1]] else 0
  }

  /** The queue is in order of depth and spans at most two levels, starting with the current one. */
  ghost predicate QueueOk<T>(s: Search<T>) {
    && (forall i :: 0 <= i < |s.queue| ==> s.queue[i].0 in s.dist && s.dist[s.queue[i].0] == s.queue[i].1)
    && (forall i :: 0 <= i < |s.queue| ==> s.queue[i].0 !in s.ordered)
    && (forall i, j :: 0 <= i < j < |s.queue| ==> s.queue[i].0 != s.queue[j].0 && s.queue[i].1 <= s.queue[j].1)
    && (forall i :: 0 <= i < |s.queue| ==> Level(s) <= s.queue[i].1 <= Level(s) + 1)
  }

  ghost predicate OrderedOk<T>(p: Problem<T>, s: Search<T>) {
    && (forall i :: 0 <= i < |s.ordered| ==> s.ordered[i] in s.dist && s.ordered[i] in p.nodes)
    && (forall i, j :: 0 <= i < j < |s.ordered| ==>
          s.ordered[i] != s.ordered[j] && s.dist[s.ordered[i]] <= s.dist[s.ordered[j]])
  }

  ghost predicate Waiting<T>(s: Search<T>, v: T) {
    exists i :: 0 <= i < |s.queue| && s.queue[i].0 == v
  }

  /** Every node of the graph with a depth is either emitted or waiting. */
  ghost predicate NothingLost<T>(p: Problem<T>, s: Search<T>) {
    forall v :: v in s.dist && v in p.nodes ==> v in s.ordered || Waiting(s, v)
  }

  ghost predicate Ok<T>(p: Problem<T>, truth: map<T, nat>, s: Search<T>) {
    DistancesOk(p, truth, s.dist) && QueueOk(s) && OrderedOk(p, s) && NothingLost(p, s)
  }

  /** Every neighbour of `u` in the graph has a depth, unless expansion stops at `u`. */
  ghost predicate Expanded<T>(p: Problem<T>, dist: map<T, nat>, u: T) {
    u in dist && dist[u] < p.radius ==>
        forall v {:trigger Adjacent(p.edges, u, v)} :: v in p.nodes && Adjacent(p.edges, u, v) ==> v in dist
  }

  ghost predicate AllExpanded<T>(p: Problem<T>, s: Search<T>, upto: nat)
    requires upto <= |s.ordered|
  {
    forall i :: 0 <= i < upto ==> Expanded(p, s.dist, s.ordered[i])
  }

  /** If everything closer than `v` has been expanded, then `v` has a depth. */
  lemma {:induction false} Complete<T>(p: Problem<T>, truth: map<T, nat>, dist: map<T, nat>, d: nat, v: T)
    requires IsTruth(p, truth) && DistancesOk(p, truth, dist) && v in truth && truth[v] <= d
    requires forall u :: u in dist && u in p.nodes && dist[u] < d ==> Expanded(p, dist, u)
    ensures v in dist
    decreases truth[v]
  {
    assert HasOrigin(p, truth, v);
    if truth[v] > 0 {
      var u :| u in truth && truth[u] + 1 == truth[v] && Adjacent(p.edges, u, v);
      Complete(p, truth, dist, d, u);
      assert Expanded(p, dist, u);
    }
  }

  /** Everything closer than the current level has been emitted. */
  lemma CloserIsEmitted<T>(p: Problem<T>, s: Search<T>, u: T)
    requires QueueOk(s) && NothingLost(p, s) && u in s.dist && u in p.nodes && s.dist[u] < Level(s)
    ensures u in s.ordered
  {
  }

  // ----- the steps of the search

  function Pop<T>(s: Search<T>): Search<T>
    requires |s.queue| > 0
  {
    Search(s.queue[1..], s.dist, s.ordered)
  }

  function Emit<T>(s: Search<T>, v: T): Search<T> {
    Search(s.queue, s.dist, s.ordered + [v])
  }

  function Discover<T>(s: Search<T>, v: T, d: nat): Search<T> {
    Search(s.queue + [(v, d)], s.dist[v := d], s.ordered)
  }

  lemma PopOutsider<T>(p: Problem<T>, truth: map<T, nat>, s: Search<T>)
    requires Ok(p, truth, s) && |s.queue| > 0 && s.queue[0].0 !in p.nodes
    ensures Ok(p, truth, Pop(s))
  {
  }

  lemma EmitKeepsQueue<T>(p: Problem<T>, s: Search<T>)
    requires QueueOk(s) && OrderedOk(p, s) && |s.queue| > 0 && s.queue[0].0 in p.nodes
    ensures var t := Emit(Pop(s), s.queue[0].0);
            QueueOk(t) && OrderedOk(p, t) && Level(t) == s.queue[0].1
  {
  }

  lemma PopAndEmit<T>(p: Problem<T>, truth: map<T, nat>, s: Search<T>)
    requires Ok(p, truth, s) && |s.queue| > 0 && s.queue[0].0 in p.nodes
    ensures var t := Emit(Pop(s), s.queue[0].0);
            Ok(p, truth, t) && Level(t) == s.queue[0].1
  {
    var t := Emit(Pop(s), s.queue[0].0);
    EmitKeepsQueue(p, s);
    forall w | w in t.dist && w in p.nodes ensures w in t.ordered || Waiting(t, w) {
      if w !in s.ordered {
        var i :| 0 <= i < |s.queue| && s.queue[i].0 == w;
        if i > 0 { assert t.queue[i - 1].0 == w; }
      }
    }
  }

  /** Everything closer than the current level has been emitted before the last node, hence expanded. */
  lemma CloserIsExpanded<T>(p: Problem<T>, s: Search<T>, u: T)
    requires QueueOk(s) && NothingLost(p, s) && OrderedOk(p, s) && s.ordered != []
    requires AllExpanded(p, s, |s.ordered| - 1)
    requires u in s.dist && u in p.nodes && s.dist[u] < Level(s)
    ensures Expanded(p, s.dist, u)
  {
  }

  /** A neighbour without a depth is exactly one step further than the node being expanded. */
  lemma NewIsOneFurther<T>(p: Problem<T>, truth: map<T, nat>, s: Search<T>, u: T, v: T)
    requires IsTruth(p, truth) && Ok(p, truth, s) && s.ordered != [] && u == s.ordered[|s.ordered| - 1]
    requires AllExpanded(p, s, |s.ordered| - 1) && s.dist[u] < p.radius
    requires v in p.nodes && v !in s.dist && Adjacent(p.edges, u, v)
    ensures v in truth && truth[v] == s.dist[u] + 1
  {
    var d := s.dist[u];
    if truth[v] <= d {
      forall w | w in s.dist && w in p.nodes && s.dist[w] < d ensures Expanded(p, s.dist, w) {
        CloserIsExpanded(p, s, w);
      }
      Complete(p, truth, s.dist, d, v);
    }
  }

  lemma DiscoverKeepsQueue<T>(p: Problem<T>, s: Search<T>, v: T)
    requires QueueOk(s) && OrderedOk(p, s) && s.ordered != [] && v !in s.dist
    ensures var t := Discover(s, v, Level(s) + 1);
            QueueOk(t) && OrderedOk(p, t)
  {
  }

  lemma DiscoverLosesNothing<T>(p: Problem<T>, s: Search<T>, v: T, d: nat)
    requires NothingLost(p, s)
    ensures NothingLost(p, Discover(s, v, d))
  {
    var t := Discover(s, v, d);
    forall w | w in t.dist && w in p.nodes ensures w in t.ordered || Waiting(t, w) {
      if w == v {
        assert t.queue[|s.queue|].0 == v;
      } else if w !in s.ordered {
        var i :| 0 <= i < |s.queue| && s.queue[i].0 == w;
        assert t.queue[i].0 == w;
      }
    }
  }

  lemma DiscoverKeepsExpanded<T>(p: Problem<T>, s: Search<T>, v: T, d: nat, upto: nat)
    requires upto <= |s.ordered| && AllExpanded(p, s, upto) && v !in s.dist && OrderedOk(p, s)
    ensures AllExpanded(p, Discover(s, v, d), upto)
  {
  }

  lemma DiscoverKeepsOk<T>(p: Problem<T>, truth: map<T, nat>, s: Search<T>, v: T)
    requires Ok(p, truth, s) && s.ordered != [] && v in p.nodes && v !in s.dist
    requires v in truth && truth[v] == Level(s) + 1
    ensures Ok(p, truth, Discover(s, v, Level(s) + 1))
  {
    DiscoverKeepsQueue(p, s, v);
    DiscoverLosesNothing(p, s, v, Level(s) + 1);
  }

  // ----- the whole search

  /** A neighbour and the kind of edge leading to it. */
  type Hop<T> = (T, nat)

  function VisitHop<T(==)>(nodes: set<T>, d: nat, h: Hop<T>, s: Search<T>): Search<T> {
    if h.0 in nodes && h.0 !in s.dist then Discover(s, h.0, d + 1) else s
  }

  function VisitHops<T(==)>(nodes: set<T>, d: nat, hops: seq<Hop<T>>, s: Search<T>): (t: Search<T>)
    ensures t.ordered == s.ordered
  {
    if hops == [] then s else VisitHops(nodes, d, hops[1..], VisitHop(nodes, d, hops[0], s))
  }

  /** One turn of the main loop. */
  function Turn<T(==)>(nodes: set<T>, radius: int, hopsOf: T -> seq<Hop<T>>, s: Search<T>): (t: Search<T>)
    requires s.queue != []
  {
    var (u, d) := s.queue[0];
    if u !in nodes || u in s.ordered then Pop(s)
    else if d >= radius then Emit(Pop(s), u)
    else VisitHops(nodes, d, hopsOf(u), Emit(Pop(s), u))
  }

  ghost function Remaining<T>(nodes: set<T>, s: Search<T>): set<T> {
    set v | v in nodes && v !in s.ordered
  }

  /** Turns until nothing waits or the limit is reached. */
  ghost function Finish<T>(nodes: set<T>, radius: int, limit: int, hopsOf: T -> seq<Hop<T>>, s: Search<T>): Search<T>
    decreases Remaining(nodes, s), |s.queue|
  {
    if s.queue == [] || |s.ordered| >= limit then s
    else
      assert s.queue[0].0 in nodes && s.queue[0].0 !in s.ordered ==>
             s.queue[0].0 in Remaining(nodes, s) && s.queue[0].0 in Emit(Pop(s), s.queue[0].0).ordered;
      Finish(nodes, radius, limit, hopsOf, Turn(nodes, radius, hopsOf, s))
  }

  ghost predicate HopExists<T>(edges: seq<Edge<T>>, u: T, h: Hop<T>) {
    exists i :: 0 <= i < |edges| && Joins(edges[i], u, h.0) && edges[i].kind == h.1
  }

  /** The hops listed for `u` are exactly its edges. */
  ghost predicate HopsAre<T(!new)>(edges: seq<Edge<T>>, u: T, hops: seq<Hop<T>>) {
    && (forall i :: 0 <= i < |hops| ==> HopExists(edges, u, hops[i]))
    && (forall v :: Adjacent(edges, u, v) ==> exists i :: 0 <= i < |hops| && hops[i].0 == v)
  }

  lemma HopIsAdjacent<T>(edges: seq<Edge<T>>, u: T, h: Hop<T>)
    requires HopExists(edges, u, h)
    ensures Adjacent(edges, u, h.0)
  {
  }

  /** The search while the last emitted node is being expanded. */
  ghost predicate Expanding<T>(p: Problem<T>, truth: map<T, nat>, s: Search<T>) {
    Ok(p, truth, s) && s.ordered != [] && AllExpanded(p, s, |s.ordered| - 1)
  }

  lemma VisitHopKeeps<T>(p: Problem<T>, truth: map<T, nat>, s: Search<T>, u: T, h: Hop<T>)
    requires IsTruth(p, truth) && Expanding(p, truth, s) && u == s.ordered[|s.ordered| - 1] && Level(s) < p.radius
    requires Adjacent(p.edges, u, h.0)
    ensures var t := VisitHop(p.nodes, Level(s), h, s);
            Expanding(p, truth, t) && Level(t) == Level(s) && t.ordered == s.ordered
  {
    if h.0 in p.nodes && h.0 !in s.dist {
      NewIsOneFurther(p, truth, s, u, h.0);
      DiscoverKeepsExpanding(p, truth, s, h.0);
    }
  }

  lemma DiscoverKeepsExpanding<T>(p: Problem<T>, truth: map<T, nat>, s: Search<T>, v: T)
    requires Expanding(p, truth, s) && v in p.nodes && v !in s.dist && v in truth && truth[v] == Level(s) + 1
    ensures var t := Discover(s, v, Level(s) + 1);
            Expanding(p, truth, t) && Level(t) == Level(s) && t.ordered == s.ordered
  {
    DiscoverKeepsOk(p, truth, s, v);
    DiscoverKeepsExpanded(p, s, v, Level(s) + 1, |s.ordered| - 1);
    assert s.ordered[|s.ordered| - 1] in s.dist;
  }

  lemma {:induction false} VisitHopsKeeps<T>(p: Problem<T>, truth: map<T, nat>, s: Search<T>, u: T, hops: seq<Hop<T>>)
    requires IsTruth(p, truth) && Expanding(p, truth, s) && u == s.ordered[|s.ordered| - 1] && Level(s) < p.radius
    requires forall i :: 0 <= i < |hops| ==> Adjacent(p.edges, u, hops[i].0)
    ensures var t := VisitHops(p.nodes, Level(s), hops, s);
            Expanding(p, truth, t) && Level(t) == Level(s) && t.ordered == s.ordered
    decreases |hops|
  {
    if hops != [] {
      VisitHopKeeps(p, truth, s, u, hops[0]);
      VisitHopsKeeps(p, truth, VisitHop(p.nodes, Level(s), hops[0], s), u, hops[1..]);
    }
  }

  /** Every hop into the graph gets a depth, and no depth is lost. */
  lemma {:induction false} HopsAreVisited<T>(nodes: set<T>, d: nat, hops: seq<Hop<T>>, s: Search<T>)
    ensures var t := VisitHops(nodes, d, hops, s);
            && (forall v :: v in s.dist ==> v in t.dist && t.dist[v] == s.dist[v])
            && (forall i :: 0 <= i < |hops| && hops[i].0 in nodes ==> hops[i].0 in t.dist)
    decreases |hops|
  {
    if hops != [] {
      var m, t := VisitHop(nodes, d, hops[0], s), VisitHops(nodes, d, hops, s);
      HopsAreVisited(nodes, d, hops[1..], m);
      assert t == VisitHops(nodes, d, hops[1..], m);
      assert forall v :: v in s.dist ==> v in m.dist && m.dist[v] == s.dist[v];
      forall i | 0 <= i < |hops| && hops[i].0 in nodes ensures hops[i].0 in t.dist {
        if i == 0 {
          assert hops[0].0 in m.dist;
        } else {
          assert hops[1..][i - 1] == hops[i];
        }
      }
    }
  }

  lemma ExpandKeeps<T(!new)>(p: Problem<T>, truth: map<T, nat>, s: Search<T>, u: T, hops: seq<Hop<T>>)
    requires IsTruth(p, truth) && Expanding(p, truth, s) && u == s.ordered[|s.ordered| - 1] && Level(s) < p.radius
    requires HopsAre(p.edges, u, hops)
    ensures var t := VisitHops(p.nodes, Level(s), hops, s);
            Ok(p, truth, t) && AllExpanded(p, t, |t.ordered|)
  {
    forall i | 0 <= i < |hops| ensures Adjacent(p.edges, u, hops[i].0) {
      HopIsAdjacent(p.edges, u, hops[i]);
    }
    VisitHopsKeeps(p, truth, s, u, hops);
    HopsAreVisited(p.nodes, Level(s), hops, s);
    AllHopsExpand(p, u, hops, VisitHops(p.nodes, Level(s), hops, s).dist);
  }

  lemma AllHopsExpand<T(!new)>(p: Problem<T>, u: T, hops: seq<Hop<T>>, dist: map<T, nat>)
    requires HopsAre(p.edges, u, hops) && forall i :: 0 <= i < |hops| && hops[i].0 in p.nodes ==> hops[i].0 in dist
    ensures Expanded(p, dist, u)
  {
  }

  lemma EmitKeepsExpanded<T>(p: Problem<T>, s: Search<T>)
    requires |s.queue| > 0 && AllExpanded(p, s, |s.ordered|)
    ensures var t := Emit(Pop(s), s.queue[0].0);
            && AllExpanded(p, t, |s.ordered|)
            && (s.queue[0].0 in s.dist && s.dist[s.queue[0].0] >= p.radius ==> AllExpanded(p, t, |t.ordered|))
  {
  }

  lemma TurnKeeps<T(!new)>(p: Problem<T>, truth: map<T, nat>, radius: int, hopsOf: T -> seq<Hop<T>>, s: Search<T>)
    requires IsTruth(p, truth) && Ok(p, truth, s) && AllExpanded(p, s, |s.ordered|) && s.queue != []
    requires p.radius == if radius < 0 then 0 else radius
    requires HopsAre(p.edges, s.queue[0].0, hopsOf(s.queue[0].0))
    ensures var t := Turn(p.nodes, radius, hopsOf, s);
            Ok(p, truth, t) && AllExpanded(p, t, |t.ordered|) && |t.ordered| <= |s.ordered| + 1
  {
    var u := s.queue[0].0;
    if u !in p.nodes {
      PopOutsider(p, truth, s);
    } else {
      PopAndEmit(p, truth, s);
      EmitKeepsExpanded(p, s);
      var t := Emit(Pop(s), u);
      if s.queue[0].1 < radius {
        assert t.ordered[|t.ordered| - 1] == u;
        ExpandKeeps(p, truth, t, u, hopsOf(u));
      }
    }
  }

  lemma {:induction false} FinishKeeps<T(!new)>(p: Problem<T>, truth: map<T, nat>, radius: int, limit: int,
                                         hopsOf: T -> seq<Hop<T>>, s: Search<T>)
    requires IsTruth(p, truth) && Ok(p, truth, s) && AllExpanded(p, s, |s.ordered|)
    requires p.radius == if radius < 0 then 0 else radius
    requires forall u :: HopsAre(p.edges, u, hopsOf(u))
    requires |s.ordered| <= (if limit < 0 then 0 else limit)
    ensures var t := Finish(p.nodes, radius, limit, hopsOf, s);
            && Ok(p, truth, t) && AllExpanded(p, t, |t.ordered|)
            && (t.queue == [] || |t.ordered| >= limit) && |t.ordered| <= (if limit < 0 then 0 else limit)
    decreases Remaining(p.nodes, s), |s.queue|
  {
    if s.queue != [] && |s.ordered| < limit {
      TurnKeeps(p, truth, radius, hopsOf, s);
      assert s.queue[0].0 in p.nodes && s.queue[0].0 !in s.ordered ==>
             s.queue[0].0 in Remaining(p.nodes, s) && s.queue[0].0 in Emit(Pop(s), s.queue[0].0).ordered;
      FinishKeeps(p, truth, radius, limit, hopsOf, Turn(p.nodes, radius, hopsOf, s));
    }
  }

  // ----- what a finished or interrupted search has found

  /** No node that is closer than an emitted one is missing. */
  lemma NothingCloserSkipped<T>(p: Problem<T>, truth: map<T, nat>, s: Search<T>, v: T, w: T)
    requires IsTruth(p, truth) && Ok(p, truth, s) && AllExpanded(p, s, |s.ordered|)
    requires v in s.ordered && v in truth && w in truth && truth[w] < truth[v]
    ensures w in s.ordered
  {
    LevelIsHighest(p, s, v);
    forall u | u in s.dist && u in p.nodes && s.dist[u] < truth[w] ensures Expanded(p, s.dist, u) {
      CloserIsExpanded(p, s, u);
    }
    Complete(p, truth, s.dist, truth[w], w);
    CloserIsEmitted(p, s, w);
  }

  lemma LevelIsHighest<T>(p: Problem<T>, s: Search<T>, v: T)
    requires OrderedOk(p, s) && v in s.ordered
    ensures v in s.dist && s.dist[v] <= Level(s)
  {
  }

  /** Once nothing waits, exactly the nodes within the radius have been emitted. */
  lemma Drained<T>(p: Problem<T>, truth: map<T, nat>, s: Search<T>)
    requires IsTruth(p, truth) && Ok(p, truth, s) && AllExpanded(p, s, |s.ordered|) && s.queue == []
    ensures forall v :: v in s.ordered <==> v in truth
  {
    forall u | u in s.dist && u in p.nodes ensures u in s.ordered && Expanded(p, s.dist, u) {
      assert !Waiting(s, u);
      var k :| 0 <= k < |s.ordered| && s.ordered[k] == u;
    }
    forall v | v in truth ensures v in s.ordered {
      Complete(p, truth, s.dist, p.radius, v);
    }
  }

  // ----- the true distances, built level by level

  ghost function Within<T>(truth: map<T, nat>, k: nat): set<T> {
    set v | v in truth && truth[v] <= k
  }

  /** The balls up to radius `k` can be read off the distances. */
  ghost predicate BallsAgree<T>(p: Problem<T>, truth: map<T, nat>, k: nat) {
    forall j: nat {:trigger Within(truth, j)} :: j <= k ==> Ball(p.nodes, p.edges, p.seeds, j) == Within(truth, j)
  }

  ghost predicate Touches<T>(p: Problem<T>, known: map<T, nat>, v: T) {
    exists u :: u in known && Adjacent(p.edges, u, v)
  }

  /** The nodes first reached in one more step. */
  ghost function Frontier<T>(p: Problem<T>, truth: map<T, nat>): set<T> {
    set v | v in p.nodes && v !in truth && Touches(p, truth, v)
  }

  ghost function NextLevel<T>(p: Problem<T>, truth: map<T, nat>, k: nat): map<T, nat> {
    truth + map v | v in Frontier(p, truth) :: k + 1
  }

  lemma NextLevelOrigins<T>(p: Problem<T>, truth: map<T, nat>, k: nat, v: T)
    requires IsTruth(p.(radius := k), truth) && v in NextLevel(p, truth, k)
    ensures HasOrigin(p.(radius := k + 1), NextLevel(p, truth, k), v)
  {
    var next := NextLevel(p, truth, k);
    if v in truth {
      assert HasOrigin(p.(radius := k), truth, v);
      if truth[v] > 0 {
        var u :| u in truth && truth[u] + 1 == truth[v] && Adjacent(p.edges, u, v);
        assert next[u] + 1 == next[v];
      }
    } else {
      assert Touches(p, truth, v);
      var u :| u in truth && Adjacent(p.edges, u, v);
      assert truth[u] == k && next[u] + 1 == next[v];
    }
  }

  lemma NextLevelSteps<T>(p: Problem<T>, truth: map<T, nat>, k: nat, u: T, v: T)
    requires IsTruth(p.(radius := k), truth)
    requires u in NextLevel(p, truth, k) && v in p.nodes && NextLevel(p, truth, k)[u] < k + 1 && Adjacent(p.edges, u, v)
    ensures v in NextLevel(p, truth, k) && NextLevel(p, truth, k)[v] <= NextLevel(p, truth, k)[u] + 1
  {
  }

  lemma NextLevelBounds<T>(p: Problem<T>, truth: map<T, nat>, k: nat, v: T)
    requires IsTruth(p.(radius := k), truth)
    ensures v in NextLevel(p, truth, k) ==> v in p.nodes && NextLevel(p, truth, k)[v] <= k + 1
    ensures v in truth ==> v in NextLevel(p, truth, k) && NextLevel(p, truth, k)[v] == truth[v]
  {
  }

  lemma NextLevelSupported<T>(p: Problem<T>, truth: map<T, nat>, k: nat)
    requires IsTruth(p.(radius := k), truth)
    ensures var q, next := p.(radius := k + 1), NextLevel(p, truth, k);
            && (forall v :: v in next ==> v in p.nodes && next[v] <= k + 1)
            && (forall v {:trigger HasOrigin(q, next, v)} :: v in next ==> HasOrigin(q, next, v))
            && (forall v :: v in p.seeds && v in p.nodes ==> v in next && next[v] == 0)
  {
    var q, next := p.(radius := k + 1), NextLevel(p, truth, k);
    forall v ensures v in next ==> v in p.nodes && next[v] <= k + 1 && HasOrigin(q, next, v) {
      NextLevelBounds(p, truth, k, v);
      if v in next {
        NextLevelOrigins(p, truth, k, v);
      }
    }
    forall v | v in p.seeds && v in p.nodes ensures v in next && next[v] == 0 {
      NextLevelBounds(p, truth, k, v);
    }
  }

  lemma NextLevelIsTruth<T>(p: Problem<T>, truth: map<T, nat>, k: nat)
    requires IsTruth(p.(radius := k), truth)
    ensures IsTruth(p.(radius := k + 1), NextLevel(p, truth, k))
  {
    var next := NextLevel(p, truth, k);
    NextLevelSupported(p, truth, k);
    forall u, v | u in next && v in p.nodes && next[u] < k + 1 && Adjacent(p.edges, u, v)
      ensures v in next && next[v] <= next[u] + 1
    {
      NextLevelSteps(p, truth, k, u, v);
    }
  }

  lemma NextBall<T>(p: Problem<T>, truth: map<T, nat>, k: nat)
    requires IsTruth(p.(radius := k), truth) && Ball(p.nodes, p.edges, p.seeds, k) == Within(truth, k)
    ensures Ball(p.nodes, p.edges, p.seeds, k + 1) == Within(NextLevel(p, truth, k), k + 1)
  {
  }

  lemma LowerLevelsStay<T>(p: Problem<T>, truth: map<T, nat>, k: nat, j: nat)
    requires j <= k
    ensures Within(NextLevel(p, truth, k), j) == Within(truth, j)
  {
  }

  lemma NextLevelAgrees<T>(p: Problem<T>, truth: map<T, nat>, k: nat)
    requires IsTruth(p.(radius := k), truth) && BallsAgree(p, truth, k)
    ensures BallsAgree(p, NextLevel(p, truth, k), k + 1)
  {
    var next := NextLevel(p, truth, k);
    forall j: nat | j <= k + 1 ensures Ball(p.nodes, p.edges, p.seeds, j) == Within(next, j) {
      if j == k + 1 {
        assert Ball(p.nodes, p.edges, p.seeds, k) == Within(truth, k);
        NextBall(p, truth, k);
      } else {
        LowerLevelsStay(p, truth, k, j);
      }
    }
  }

  lemma SeedsAreTruth<T>(p: Problem<T>, truth: map<T, nat>)
    requires truth == map v | v in p.seeds && v in p.nodes :: 0
    ensures IsTruth(p.(radius := 0), truth) && BallsAgree(p, truth, 0)
  {
  }

  /** True distances exist, and they are the ones the balls define. */
  lemma {:induction false} TruthExists<T>(p: Problem<T>, k: nat) returns (truth: map<T, nat>)
    ensures IsTruth(p.(radius := k), truth) && BallsAgree(p, truth, k)
    decreases k
  {
    if k == 0 {
      truth := map v | v in p.seeds && v in p.nodes :: 0;
      SeedsAreTruth(p, truth);
    } else {
      var j := k - 1;
      var before := TruthExists(p, j);
      NextLevelIsTruth(p, before, j);
      NextLevelAgrees(p, before, j);
      truth := NextLevel(p, before, j);
      assert j + 1 == k;
    }
  }
}
