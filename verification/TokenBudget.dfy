/**
 Compiling an agent's context under a token budget: mandatory text first, then memory, findings, a
 compacted context package and file excerpts, each charged against what remains.
 */
module TokenBudget {
  import opened Common

  // ----- estimates and trimming

  function EstimateLength(n: nat): (r: nat)
    ensures r >= 1
  {
    var quarter := (n + 3) / 4;
    if quarter < 1 then 1 else quarter
  }

  function Estimate(text: string): (r: nat)
    ensures r >= 1
  {
    EstimateLength(|text|)
  }

  function Clip(text: string, length: nat): string {
    if |text| <= length then text else text[..length]
  }

  function Trim(text: string, budget: int): string {
    Clip(text, if budget < 0 then 0 else budget * 4)
  }

  /** A trimmed text is a prefix that fits a positive budget, and a text is cut only if it then uses all of it. */
  lemma TrimFits(text: string, budget: int)
    requires budget > 0
    ensures Estimate(Trim(text, budget)) <= budget && Trim(text, budget) <= text
    ensures Trim(text, budget) == text || Estimate(Trim(text, budget)) == budget
    ensures text != "" ==> Trim(text, budget) != ""
  {
  }

  function Cost(texts: seq<string>): nat {
    if texts == [] then 0 else Cost(texts[..|texts| - 1]) + Estimate(texts[|texts| - 1])
  }

  lemma CostOfOneMore(texts: seq<string>, t: string)
    ensures Cost(texts + [t]) == Cost(texts) + Estimate(t)
  {
  }

  lemma {:induction false} CostSplits(a: seq<string>, b: seq<string>)
    ensures Cost(a + b) == Cost(a) + Cost(b)
  {
    if b == [] {
      assert a + b == a;
    } else {
      assert (a + b)[..|a + b| - 1] == a + b[..|b| - 1];
      CostSplits(a, b[..|b| - 1]);
    }
  }

  // ----- fitting a list of texts

  datatype Fitted = Fitted(texts: seq<string>, remaining: int)

  function FitOne(value: string, f: Fitted): Fitted {
    if value == "" || f.remaining <= 0 then f
    else
      var trimmed := Trim(value, f.remaining);
      Fitted(f.texts + [trimmed], f.remaining - Estimate(trimmed))
  }

  function Fit(values: seq<string>, remaining: int): Fitted {
    if values == [] then Fitted([], remaining)
    else FitOne(values[|values| - 1], Fit(values[..|values| - 1], remaining))
  }

  method FitValues(values: seq<string>, budget: int) returns (fitted: seq<string>, remaining: int)
    ensures Fitted(fitted, remaining) == Fit(values, budget)
  {
    fitted, remaining := [], budget;
    for n := 0 to |values|
      invariant Fitted(fitted, remaining) == Fit(values[..n], budget)
    {
      assert values[..n + 1][..n] == values[..n];
      var value := values[n];
      if value == "" || remaining <= 0 {
        continue;
      }
      var trimmed := Trim(value, remaining);
      fitted := fitted + [trimmed];
      remaining := remaining - Estimate(trimmed);
    }
    assert values[..|values|] == values;
  }

  function NonEmpty(values: seq<string>): seq<string> {
    if values == [] then []
    else
      var rest, last := NonEmpty(values[..|values| - 1]), values[|values| - 1];
      if last == "" then rest else rest + [last]
  }

  /** Fitting charges exactly what it keeps, never overdraws, and loses nothing unless the budget is used up. */
  lemma {:induction false} FitConserves(values: seq<string>, budget: int)
    ensures var f := Fit(values, budget);
            && f.remaining == budget - Cost(f.texts)
            && (budget >= 0 ==> f.remaining >= 0)
            && (budget <= 0 ==> f.texts == [])
            && (f.remaining > 0 ==> f.texts == NonEmpty(values))
            && |f.texts| <= |NonEmpty(values)|
  {
    if values != [] {
      var n := |values| - 1;
      var f := Fit(values[..n], budget);
      FitConserves(values[..n], budget);
      if values[n] != "" && f.remaining > 0 {
        TrimFits(values[n], f.remaining);
        CostOfOneMore(f.texts, Trim(values[n], f.remaining));
      }
    }
  }

  /** Whatever is kept is kept in order, and each text but the last is kept whole. */
  lemma {:induction false} FitKeepsPrefixes(values: seq<string>, budget: int, i: nat)
    requires i < |Fit(values, budget).texts| <= |NonEmpty(values)|
    ensures Fit(values, budget).texts[i] <= NonEmpty(values)[i]
    ensures i + 1 < |Fit(values, budget).texts| ==> Fit(values, budget).texts[i] == NonEmpty(values)[i]
  {
    var n := |values| - 1;
    var f := Fit(values[..n], budget);
    FitConserves(values[..n], budget);
    if i < |f.texts| {
      FitKeepsPrefixes(values[..n], budget, i);
    }
    if values[n] != "" && f.remaining > 0 {
      TrimFits(values[n], f.remaining);
    }
  }

  // ----- the compacted package

  // The entries of a package, with the text that each contributes.
  datatype NodeEntry = NodeEntry(id: nat, text: string)
  datatype EdgeEntry = EdgeEntry(source: nat, target: nat, text: string)
  type FileEntry = string

  datatype Payload = Payload(seeds: seq<string>, requirements: seq<string>, nodes: seq<NodeEntry>,
                             edges: seq<EdgeEntry>, files: seq<FileEntry>)

  datatype Excerpt = Excerpt(key: string, content: string, entry: FileEntry)

  datatype Header = Header(packageHash: string, graphHash: string, reason: string, truncated: bool)

  datatype Package = Package(header: Header, seeds: seq<string>, requirements: seq<string>, nodes: seq<NodeEntry>,
                             edges: seq<EdgeEntry>, excerpts: seq<Excerpt>, constraint: string)

  const HEADER: Payload := Payload([], [], [], [], [])

  function First<T>(items: seq<T>, n: nat): seq<T> {
    if |items| <= n then items else items[..n]
  }

  function Shorten(texts: seq<string>): seq<string> {
    seq(|texts|, i requires 0 <= i < |texts| => Clip(texts[i], 200))
  }

  function Included(nodes: seq<NodeEntry>): set<nat> {
    set i | 0 <= i < |nodes| :: nodes[i].id
  }

  /** The edges whose two ends are both included. */
  function Joining(edges: seq<EdgeEntry>, ids: set<nat>): seq<EdgeEntry> {
    if edges == [] then []
    else
      var rest, last := Joining(edges[..|edges| - 1], ids), edges[|edges| - 1];
      if last.source in ids && last.target in ids then rest + [last] else rest
  }

  function Entries(excerpts: seq<Excerpt>): seq<FileEntry> {
    seq(|excerpts|, i requires 0 <= i < |excerpts| => excerpts[i].entry)
  }

  /** How many of the offered items are kept: one after the other, until the payload with the next is too large. */
  function Keep(total: nat, sizeWith: nat -> nat, k: nat, max: int): nat
    requires k <= total
    decreases total - k
  {
    if k == total || sizeWith(k + 1) > max then k else Keep(total, sizeWith, k + 1, max)
  }

  /** The count kept is the longest run that fits throughout. */
  lemma {:induction false} KeepIsLongest(total: nat, sizeWith: nat -> nat, k: nat, max: int)
    requires k <= total
    ensures var r := Keep(total, sizeWith, k, max);
            && k <= r <= total && (forall j :: k < j <= r ==> sizeWith(j) <= max)
            && (r < total ==> sizeWith(r + 1) > max)
    decreases total - k
  {
    if k < total && sizeWith(k + 1) <= max {
      KeepIsLongest(total, sizeWith, k + 1, max);
    }
  }

  method KeepItems(total: nat, sizeWith: nat -> nat, max: int) returns (k: nat)
    ensures k == Keep(total, sizeWith, 0, max)
  {
    k := 0;
    while k < total
      invariant k <= total && Keep(total, sizeWith, k, max) == Keep(total, sizeWith, 0, max)
    {
      if sizeWith(k + 1) > max {
        break;
      }
      k := k + 1;
    }
  }

  method JoiningEdges(edges: seq<EdgeEntry>, ids: set<nat>) returns (r: seq<EdgeEntry>)
    ensures r == Joining(edges, ids)
  {
    r := [];
    for n := 0 to |edges|
      invariant r == Joining(edges[..n], ids)
    {
      assert edges[..n + 1][..n] == edges[..n];
      if edges[n].source !in ids || edges[n].target !in ids {
        continue;
      }
      r := r + [edges[n]];
    }
    assert edges[..|edges|] == edges;
  }

  // The size of the payload when the first n items of one list are in it.
  function WithSeeds(p: Payload, items: seq<string>, size: Payload -> nat): nat -> nat {
    n => size(p.(seeds := First(items, n)))
  }
  function WithRequirements(p: Payload, items: seq<string>, size: Payload -> nat): nat -> nat {
    n => size(p.(requirements := First(items, n)))
  }
  function WithNodes(p: Payload, items: seq<NodeEntry>, size: Payload -> nat): nat -> nat {
    n => size(p.(nodes := First(items, n)))
  }
  function WithEdges(p: Payload, items: seq<EdgeEntry>, size: Payload -> nat): nat -> nat {
    n => size(p.(edges := First(items, n)))
  }
  function WithFiles(p: Payload, items: seq<FileEntry>, size: Payload -> nat): nat -> nat {
    n => size(p.(files := First(items, n)))
  }

  function KeepSeeds(p: Payload, items: seq<string>, size: Payload -> nat, max: int): Payload {
    p.(seeds := First(items, Keep(|items|, WithSeeds(p, items, size), 0, max)))
  }
  function KeepRequirements(p: Payload, items: seq<string>, size: Payload -> nat, max: int): Payload {
    p.(requirements := First(items, Keep(|items|, WithRequirements(p, items, size), 0, max)))
  }
  function KeepNodes(p: Payload, items: seq<NodeEntry>, size: Payload -> nat, max: int): Payload {
    p.(nodes := First(items, Keep(|items|, WithNodes(p, items, size), 0, max)))
  }
  function KeepEdges(p: Payload, items: seq<EdgeEntry>, size: Payload -> nat, max: int): Payload {
    p.(edges := First(items, Keep(|items|, WithEdges(p, items, size), 0, max)))
  }
  function KeepFiles(p: Payload, items: seq<FileEntry>, size: Payload -> nat, max: int): Payload {
    p.(files := First(items, Keep(|items|, WithFiles(p, items, size), 0, max)))
  }

  function Compact(g: Package, size: Payload -> nat, max: int): Payload {
    var p1 := KeepSeeds(HEADER, Shorten(First(g.seeds, 12)), size, max);
    var p2 := KeepRequirements(p1, Shorten(First(g.requirements, 12)), size, max);
    var p3 := KeepNodes(p2, g.nodes, size, max);
    var p4 := KeepEdges(p3, Joining(g.edges, Included(p3.nodes)), size, max);
    KeepFiles(p4, Entries(g.excerpts), size, max)
  }

  method CompactPackage(g: Package, size: Payload -> nat, max: int) returns (p: Payload)
    ensures p == Compact(g, size, max)
  {
    p := HEADER;
    var seeds, requirements := Shorten(First(g.seeds, 12)), Shorten(First(g.requirements, 12));
    var k := KeepItems(|seeds|, WithSeeds(p, seeds, size), max);
    p := p.(seeds := First(seeds, k));
    k := KeepItems(|requirements|, WithRequirements(p, requirements, size), max);
    p := p.(requirements := First(requirements, k));
    k := KeepItems(|g.nodes|, WithNodes(p, g.nodes, size), max);
    p := p.(nodes := First(g.nodes, k));
    var edges := JoiningEdges(g.edges, Included(p.nodes));
    k := KeepItems(|edges|, WithEdges(p, edges, size), max);
    p := p.(edges := First(edges, k));
    var files := Entries(g.excerpts);
    k := KeepItems(|files|, WithFiles(p, files, size), max);
    p := p.(files := First(files, k));
  }

  lemma {:induction false} JoiningJoins(edges: seq<EdgeEntry>, ids: set<nat>, e: EdgeEntry)
    ensures e in Joining(edges, ids) <==> e in edges && e.source in ids && e.target in ids
  {
    if edges != [] {
      JoiningJoins(edges[..|edges| - 1], ids, e);
    }
  }

  /** No edge of a compacted package leads to a node that was left out. */
  lemma CompactEdgesJoinItsNodes(g: Package, size: Payload -> nat, max: int, e: EdgeEntry)
    requires e in Compact(g, size, max).edges
    ensures var ids := Included(Compact(g, size, max).nodes); e in g.edges && e.source in ids && e.target in ids
  {
    JoiningJoins(g.edges, Included(Compact(g, size, max).nodes), e);
  }

  /** A run of kept items leaves the size within the limit, or as it was. */
  lemma KeptFits(total: nat, sizeWith: nat -> nat, max: int)
    ensures var r := Keep(total, sizeWith, 0, max); sizeWith(r) <= Max(max, sizeWith(0))
  {
    KeepIsLongest(total, sizeWith, 0, max);
  }

  /** A compacted package never exceeds the larger of its share and its bare header. */
  lemma CompactFits(g: Package, size: Payload -> nat, max: int)
    ensures size(Compact(g, size, max)) <= Max(max, size(HEADER))
  {
    var seeds, requirements := Shorten(First(g.seeds, 12)), Shorten(First(g.requirements, 12));
    var p1 := KeepSeeds(HEADER, seeds, size, max);
    KeptFits(|seeds|, WithSeeds(HEADER, seeds, size), max);
    assert HEADER.(seeds := First(seeds, 0)) == HEADER;
    var p2 := KeepRequirements(p1, requirements, size, max);
    KeptFits(|requirements|, WithRequirements(p1, requirements, size), max);
    assert p1.(requirements := First(requirements, 0)) == p1;
    var p3 := KeepNodes(p2, g.nodes, size, max);
    KeptFits(|g.nodes|, WithNodes(p2, g.nodes, size), max);
    assert p2.(nodes := First(g.nodes, 0)) == p2;
    var edges, files := Joining(g.edges, Included(p3.nodes)), Entries(g.excerpts);
    var p4 := KeepEdges(p3, edges, size, max);
    KeptFits(|edges|, WithEdges(p3, edges, size), max);
    assert p3.(edges := First(edges, 0)) == p3;
    KeptFits(|files|, WithFiles(p4, files, size), max);
    assert p4.(files := First(files, 0)) == p4;
  }

  /** No payload renders shorter than the bare header. */
  ghost predicate HeaderIsSmallest(size: Payload -> nat) {
    forall p: Payload :: size(HEADER) <= size(p)
  }

  // ----- file excerpts

  datatype Kept = Kept(files: map<string, string>, charged: seq<string>, remaining: int)

  /** Excerpts until the budget is used up; an excerpt with a key seen before replaces the earlier one. */
  function KeepExcerpts(excerpts: seq<Excerpt>, budget: int): Kept {
    if excerpts == [] then Kept(map[], [], budget)
    else
      var rest, last := KeepExcerpts(excerpts[..|excerpts| - 1], budget), excerpts[|excerpts| - 1];
      if rest.remaining <= 0 then rest
      else
        var content := Trim(last.content, rest.remaining);
        Kept(rest.files[last.key := content], rest.charged + [content], rest.remaining - Estimate(content))
  }

  ghost function MapCost(m: map<string, string>): nat
    decreases m.Keys
  {
    if m == map[] then 0
    else
      var k :| k in m;
      assert m - {k} != m by { assert k !in m - {k}; }
      assert (m - {k}).Keys < m.Keys;
      MapCost(m - {k}) + Estimate(m[k])
  }

  lemma {:induction false} MapCostWithout(m: map<string, string>, k: string)
    requires k in m
    ensures MapCost(m) == MapCost(m - {k}) + Estimate(m[k])
    decreases m.Keys
  {
    var j :| j in m && MapCost(m) == MapCost(m - {j}) + Estimate(m[j]);
    if j != k {
      assert (m - {j}).Keys < m.Keys by { assert j !in m - {j}; }
      MapCostWithout(m - {j}, k);
      assert (m - {k}).Keys < m.Keys by { assert k !in m - {k}; }
      MapCostWithout(m - {k}, j);
      assert m - {j} - {k} == m - {k} - {j};
    }
  }

  lemma MapCostUpdate(m: map<string, string>, k: string, v: string)
    ensures MapCost(m[k := v]) <= MapCost(m) + Estimate(v)
  {
    var r := m[k := v];
    MapCostWithout(r, k);
    if k in m {
      MapCostWithout(m, k);
      assert r - {k} == m - {k};
    } else {
      assert r - {k} == m;
    }
  }

  /** Excerpts are charged exactly, never overdraw, and the files kept cost no more than was charged. */
  lemma {:induction false} ExcerptsConserve(excerpts: seq<Excerpt>, budget: int)
    ensures var r := KeepExcerpts(excerpts, budget);
            && r.remaining == budget - Cost(r.charged) && MapCost(r.files) <= Cost(r.charged)
            && (budget >= 0 ==> r.remaining >= 0)
            && (budget <= 0 ==> r == Kept(map[], [], budget))
  {
    if excerpts != [] {
      var n := |excerpts| - 1;
      var rest := KeepExcerpts(excerpts[..n], budget);
      ExcerptsConserve(excerpts[..n], budget);
      if rest.remaining > 0 {
        var content := Trim(excerpts[n].content, rest.remaining);
        TrimFits(excerpts[n].content, rest.remaining);
        CostOfOneMore(rest.charged, content);
        MapCostUpdate(rest.files, excerpts[n].key, content);
      }
    }
  }
}
