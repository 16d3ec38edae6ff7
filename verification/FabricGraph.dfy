/** The switch graph that candidate coverage is computed on
    (netopsbench/platform/pingmesh/planner.py, `_candidate_coverage`): its construction
    from the manifest's links, explicit paths, and breadth-first distances. */
module FabricGraph {
  import opened Counting

  type Name = string

  /** Adjacency lists in link order; a neighbour occurs once per parallel link. */
  type Graph = map<Name, seq<Name>>

  datatype Link = Link(a: Name, b: Name)

  /** How many links join `u` to `v`, read from the adjacency list of `v`. */
  function Multiplicity(g: Graph, u: Name, v: Name): nat {
    if v in g then multiset(g[v])[u] else 0
  }

  ghost predicate Closed(g: Graph) {
    forall u, v :: u in g && v in g[u] ==> v in g
  }

  ghost predicate Symmetric(g: Graph) {
    forall u, v :: u in g && v in g ==> multiset(g[u])[v] == multiset(g[v])[u]
  }

  ghost predicate Edge(g: Graph, u: Name, v: Name) {
    u in g && v in g && v in g[u]
  }

  // ---------------------------------------------------------------- construction

  /** Links of the prefix `links[..n]` that join `u` and `v`; a self-link counts twice. */
  function LinksBetween(links: seq<Link>, u: Name, v: Name): nat {
    if links == [] then 0 else
      var last := links[|links| - 1];
      LinksBetween(links[..|links| - 1], u, v)
      + (if last.a == u && last.b == v then 1 else 0)
      + (if last.a == v && last.b == u then 1 else 0)
  }

  /** The loop over `manifest.links`: only links between two switches enter the graph. */
  method BuildGraph(switches: set<Name>, links: seq<Link>) returns (g: Graph)
    ensures g.Keys == switches
    ensures Closed(g) && Symmetric(g)
    ensures forall u, v :: u in switches && v in switches ==>
                             Multiplicity(g, u, v) == LinksBetween(links, u, v)
  {
    g := map s | s in switches :: [];
    for n := 0 to |links|
      invariant g.Keys == switches
      invariant Closed(g)
      invariant forall u, v :: u in switches && v in switches ==>
                                 Multiplicity(g, u, v) == LinksBetween(links[..n], u, v)
    {
      var a, b := links[n].a, links[n].b;
      LinkEntered(g, links, n);
      if a in switches && b in switches {
        g := g[a := g[a] + [b]];
        g := g[b := g[b] + [a]];
      }
    }
    assert links[..|links|] == links;
    forall u, v | u in g && v in g
      ensures multiset(g[u])[v] == multiset(g[v])[u]
    {
      LinksBetweenSymmetric(links, u, v);
      assert Multiplicity(g, u, v) == multiset(g[v])[u];
      assert Multiplicity(g, v, u) == multiset(g[u])[v];
    }
  }

  /** The adjacency lists after one more link between switches. */
  function WithLink(g: Graph, a: Name, b: Name): Graph
    requires a in g && b in g
  {
    var h := g[a := g[a] + [b]];
    h[b := h[b] + [a]]
  }

  lemma WithLinkCounts(g: Graph, a: Name, b: Name, u: Name, v: Name)
    requires a in g && b in g
    ensures Multiplicity(WithLink(g, a, b), u, v) ==
            Multiplicity(g, u, v) + (if a == u && b == v then 1 else 0) + (if a == v && b == u then 1 else 0)
  {
  }

  lemma LinkEntered(g: Graph, links: seq<Link>, n: nat)
    requires n < |links| && Closed(g)
    requires forall u, v :: u in g && v in g ==> Multiplicity(g, u, v) == LinksBetween(links[..n], u, v)
    ensures var a, b := links[n].a, links[n].b;
            var h := if a in g && b in g then WithLink(g, a, b) else g;
            && h.Keys == g.Keys && Closed(h)
            && forall u, v :: u in g && v in g ==> Multiplicity(h, u, v) == LinksBetween(links[..n + 1], u, v)
  {
    var a, b := links[n].a, links[n].b;
    assert links[..n + 1][..n] == links[..n];
    if a in g && b in g {
      forall u, v | u in g && v in g
        ensures Multiplicity(WithLink(g, a, b), u, v) == LinksBetween(links[..n + 1], u, v)
      {
        WithLinkCounts(g, a, b, u, v);
      }
    }
  }

  lemma LinksBetweenSymmetric(links: seq<Link>, u: Name, v: Name)
    ensures LinksBetween(links, u, v) == LinksBetween(links, v, u)
  {
  }

  // ---------------------------------------------------------------- paths

  /** `p` lists the switches of a path from `s` to `d`; its length is `|p| - 1` links. */
  ghost predicate IsPath(g: Graph, p: seq<Name>, s: Name, d: Name) {
    && |p| > 0
    && p[0] == s && p[|p| - 1] == d
    && (forall i :: 0 <= i < |p| ==> p[i] in g)
    && (forall i, j :: 0 <= i && j == i + 1 && j < |p| ==> Edge(g, p[i], p[j]))
  }

  ghost predicate Reachable(g: Graph, s: Name, d: Name) {
    exists p :: IsPath(g, p, s, d)
  }

  ghost predicate IsShortest(g: Graph, p: seq<Name>, s: Name, d: Name) {
    IsPath(g, p, s, d) && forall q :: IsPath(g, q, s, d) ==> |p| <= |q|
  }

  ghost predicate Traverses(p: seq<Name>, i: nat, u: Name, v: Name) {
    i + 1 < |p| && p[i] == u && p[i + 1] == v
  }

  /** The directed link `u -> v` lies on some shortest path from `s` to `d`. */
  ghost predicate OnShortest(g: Graph, u: Name, v: Name, s: Name, d: Name) {
    exists p, i: nat :: IsShortest(g, p, s, d) && Traverses(p, i, u, v)
  }

  ghost predicate HasPath(g: Graph, s: Name, d: Name, n: nat) {
    exists p :: IsPath(g, p, s, d) && |p| == n + 1
  }

  lemma JoinPaths(g: Graph, p: seq<Name>, q: seq<Name>, s: Name, u: Name, v: Name, d: Name)
    requires IsPath(g, p, s, u) && Edge(g, u, v) && IsPath(g, q, v, d)
    ensures IsPath(g, p + q, s, d)
  {
    var r := p + q;
    forall i, j | 0 <= i && j == i + 1 && j < |r|
      ensures Edge(g, r[i], r[j])
    {
      if j < |p| {
        assert Edge(g, p[i], p[j]);
      } else if i >= |p| {
        assert Edge(g, q[i - |p|], q[j - |p|]);
      }
    }
  }

  lemma ExtendPath(g: Graph, s: Name, u: Name, v: Name, n: nat)
    requires HasPath(g, s, u, n) && Edge(g, u, v)
    ensures HasPath(g, s, v, n + 1)
  {
    var p :| IsPath(g, p, s, u) && |p| == n + 1;
    JoinPaths(g, p, [v], s, u, v, v);
    assert |p + [v]| == n + 2;
  }

  lemma PrependPath(g: Graph, u: Name, v: Name, d: Name, n: nat)
    requires Edge(g, u, v) && HasPath(g, v, d, n)
    ensures HasPath(g, u, d, n + 1)
  {
    var q :| IsPath(g, q, v, d) && |q| == n + 1;
    JoinPaths(g, [u], q, u, u, v, d);
    assert |[u] + q| == n + 2;
  }

  lemma SplitPath(g: Graph, p: seq<Name>, s: Name, d: Name, i: nat)
    requires IsPath(g, p, s, d) && i < |p|
    ensures IsPath(g, p[..i + 1], s, p[i]) && IsPath(g, p[i..], p[i], d)
  {
    var q, r := p[..i + 1], p[i..];
    forall k, j | 0 <= k && j == k + 1 && j < |q|
      ensures Edge(g, q[k], q[j])
    {
      assert Edge(g, p[k], p[j]);
    }
    forall k, j | 0 <= k && j == k + 1 && j < |r|
      ensures Edge(g, r[k], r[j])
    {
      assert Edge(g, p[i + k], p[i + j]);
    }
  }

  function Reversed(p: seq<Name>): (r: seq<Name>)
    ensures |r| == |p|
    ensures forall i :: 0 <= i < |p| ==> r[i] == p[|p| - 1 - i]
  {
    seq(|p|, i requires 0 <= i < |p| => p[|p| - 1 - i])
  }

  lemma EdgeSymmetric(g: Graph, u: Name, v: Name)
    requires Symmetric(g) && Edge(g, u, v)
    ensures Edge(g, v, u)
  {
    assert multiset(g[u])[v] > 0;
    assert u in multiset(g[v]);
  }

  lemma ReversePath(g: Graph, p: seq<Name>, s: Name, d: Name)
    requires Symmetric(g) && IsPath(g, p, s, d)
    ensures IsPath(g, Reversed(p), d, s)
  {
    var r := Reversed(p);
    forall i, j | 0 <= i && j == i + 1 && j < |r|
      ensures Edge(g, r[i], r[j])
    {
      assert Edge(g, p[|p| - 1 - j], p[|p| - 1 - i]);
      EdgeSymmetric(g, p[|p| - 1 - j], p[|p| - 1 - i]);
    }
  }

  /** A shortest path read backwards is a shortest path the other way. */
  lemma OnShortestReverses(g: Graph, u: Name, v: Name, s: Name, d: Name)
    requires Symmetric(g) && OnShortest(g, u, v, s, d)
    ensures OnShortest(g, v, u, d, s)
  {
    var p, i: nat :| IsShortest(g, p, s, d) && Traverses(p, i, u, v);
    var r := Reversed(p);
    ReversePath(g, p, s, d);
    forall q | IsPath(g, q, d, s)
      ensures |r| <= |q|
    {
      ReversePath(g, q, d, s);
      assert IsPath(g, Reversed(q), s, d);
    }
    assert Traverses(r, |p| - 2 - i, v, u);
  }

  // ---------------------------------------------------------------- breadth-first distances

  /** `dist` holds exactly the switches reachable from `s`, each with its path length. */
  ghost predicate IsDistanceMap(g: Graph, s: Name, dist: map<Name, nat>) {
    && (forall v :: v in dist ==> v in g && HasPath(g, s, v, dist[v]))
    && (forall v, p :: IsPath(g, p, s, v) ==> v in dist && dist[v] < |p|)
  }

  /** Every neighbour of `v` has a distance, at most one larger than that of `v`. */
  ghost predicate Settled(g: Graph, dist: map<Name, nat>, v: Name)
    requires v in g && v in dist
  {
    forall w :: w in g[v] ==> w in dist && dist[w] <= dist[v] + 1
  }

  lemma {:induction false} SettledBoundsPaths(g: Graph, s: Name, dist: map<Name, nat>, p: seq<Name>, v: Name)
    requires s in dist && dist[s] == 0
    requires forall u :: u in dist ==> u in g && Settled(g, dist, u)
    requires IsPath(g, p, s, v)
    ensures v in dist && dist[v] < |p|
    decreases |p|
  {
    if |p| > 1 {
      var k := |p| - 2;
      SplitPath(g, p, s, v, k);
      SettledBoundsPaths(g, s, dist, p[..k + 1], p[k]);
      assert Edge(g, p[k], p[k + 1]);
    }
  }

  /** The queue is ordered by distance, its entries span at most two levels, and every
      switch that has left it is settled. */
  ghost predicate Frontier(g: Graph, s: Name, dist: map<Name, nat>, queue: seq<Name>) {
    && s in dist && dist[s] == 0
    && (forall i :: 0 <= i < |queue| ==> queue[i] in dist)
    && (forall v :: v in dist ==> v in g && HasPath(g, s, v, dist[v]))
    && (forall i, j :: 0 <= i < j < |queue| ==> dist[queue[i]] <= dist[queue[j]])
    && (queue != [] ==> forall v :: v in dist ==> dist[v] <= dist[queue[0]] + 1)
    && (forall v :: v in dist && v !in queue ==> Settled(g, dist, v))
  }

  /** The queue loop of `_candidate_coverage`. */
  method ShortestDistances(g: Graph, source: Name) returns (dist: map<Name, nat>)
    requires Closed(g) && source in g
    ensures IsDistanceMap(g, source, dist)
  {
    dist := map[source := 0];
    var queue := [source];
    assert IsPath(g, [source], source, source) && |[source]| == 0 + 1;
    while queue != []
      invariant Frontier(g, source, dist, queue)
      decreases |g.Keys - dist.Keys|, |queue|
    {
      ghost var before := dist;
      dist, queue := VisitNeighbours(g, source, dist, queue);
      VisitedGrows(g.Keys, before.Keys, dist.Keys);
    }
    forall v, p | IsPath(g, p, source, v)
      ensures v in dist && dist[v] < |p|
    {
      SettledBoundsPaths(g, source, dist, p, v);
    }
  }

  lemma VisitedGrows(all: set<Name>, before: set<Name>, visited: set<Name>)
    requires before <= visited <= all
    ensures visited == before || |all - visited| < |all - before|
  {
    if visited != before {
      assert all - visited < all - before;
      SubsetCard(all - visited, all - before);
    }
  }

  /** What the loop over the neighbours of `node` has done to `before` and `rest`. */
  ghost predicate Scanned(g: Graph, s: Name, node: Name, before: map<Name, nat>, rest: seq<Name>,
                          dist: map<Name, nat>, queue: seq<Name>)
  {
    && before.Keys <= dist.Keys && node in before
    && (forall v :: v in before ==> v in dist && dist[v] == before[v])
    && (forall v :: v in dist ==> v in g && HasPath(g, s, v, dist[v]))
    && (forall v :: v in dist ==> dist[v] <= dist[node] + 1)
    && (forall v :: v in dist && v !in before ==> v in queue)
    && rest <= queue
    && (forall i :: 0 <= i < |queue| ==> queue[i] in dist && dist[node] <= dist[queue[i]])
    && (forall i, j :: 0 <= i < j < |queue| ==> dist[queue[i]] <= dist[queue[j]])
    && (dist.Keys == before.Keys ==> queue == rest)
  }

  lemma ScanStart(g: Graph, s: Name, before: map<Name, nat>, pending: seq<Name>)
    requires pending != [] && Frontier(g, s, before, pending)
    ensures Scanned(g, s, pending[0], before, pending[1..], before, pending[1..])
  {
  }

  lemma ScanOne(g: Graph, s: Name, node: Name, before: map<Name, nat>, rest: seq<Name>,
                dist: map<Name, nat>, queue: seq<Name>, w: Name)
    requires Closed(g) && Scanned(g, s, node, before, rest, dist, queue)
    requires w in g[node] && w !in dist
    ensures Scanned(g, s, node, before, rest, dist[w := dist[node] + 1], queue + [w])
  {
    ExtendPath(g, s, node, w, dist[node]);
    var dist', queue' := dist[w := dist[node] + 1], queue + [w];
    assert w in dist'.Keys && w !in before.Keys;
    assert queue'[|queue|] == w;
    assert rest <= queue';
  }

  lemma ScannedIsFrontier(g: Graph, s: Name, before: map<Name, nat>, pending: seq<Name>,
                          dist: map<Name, nat>, queue: seq<Name>)
    requires pending != [] && Frontier(g, s, before, pending)
    requires Scanned(g, s, pending[0], before, pending[1..], dist, queue)
    requires forall i :: 0 <= i < |g[pending[0]]| ==> g[pending[0]][i] in dist
    ensures Frontier(g, s, dist, queue)
    ensures before.Keys <= dist.Keys && (dist.Keys == before.Keys ==> |queue| < |pending|)
  {
    assert Settled(g, dist, pending[0]);
    var node, rest := pending[0], pending[1..];
    forall v | v in dist && v !in queue
      ensures Settled(g, dist, v)
    {
      if v != node {
        assert v in before;
        assert forall i :: 0 <= i < |rest| ==> rest[i] == queue[i];
        assert v !in rest;
        assert pending == [node] + rest;
        assert v !in pending;
        assert Settled(g, before, v);
      }
    }
  }

  /** One queue step: pop the head and visit its neighbours. */
  method VisitNeighbours(g: Graph, ghost source: Name, before: map<Name, nat>, pending: seq<Name>)
    returns (dist: map<Name, nat>, queue: seq<Name>)
    requires Closed(g) && pending != [] && Frontier(g, source, before, pending)
    ensures Frontier(g, source, dist, queue)
    ensures before.Keys <= dist.Keys
    ensures dist.Keys == before.Keys ==> |queue| < |pending|
  {
    var node, rest := pending[0], pending[1..];
    dist, queue := before, rest;
    ScanStart(g, source, before, pending);
    for k := 0 to |g[node]|
      invariant ScannedTo(g, source, node, before, rest, dist, queue, k)
    {
      var neighbour := g[node][k];
      ScanStep(g, source, node, before, rest, dist, queue, k);
      if neighbour !in dist {
        dist, queue := dist[neighbour := dist[node] + 1], queue + [neighbour];
      }
    }
    ScannedIsFrontier(g, source, before, pending, dist, queue);
  }

  /** The loop has also given a distance to the first `k` neighbours. */
  ghost predicate ScannedTo(g: Graph, s: Name, node: Name, before: map<Name, nat>, rest: seq<Name>,
                            dist: map<Name, nat>, queue: seq<Name>, k: nat)
  {
    && Scanned(g, s, node, before, rest, dist, queue)
    && k <= |g[node]| && forall i :: 0 <= i < k ==> g[node][i] in dist
  }

  lemma ScanStep(g: Graph, s: Name, node: Name, before: map<Name, nat>, rest: seq<Name>,
                 dist: map<Name, nat>, queue: seq<Name>, k: nat)
    requires Closed(g) && node in g && ScannedTo(g, s, node, before, rest, dist, queue, k) && k < |g[node]|
    ensures var w := g[node][k];
            if w in dist then ScannedTo(g, s, node, before, rest, dist, queue, k + 1)
            else ScannedTo(g, s, node, before, rest, dist[w := dist[node] + 1], queue + [w], k + 1)
  {
    if g[node][k] !in dist {
      ScanOne(g, s, node, before, rest, dist, queue, g[node][k]);
    }
  }
}
