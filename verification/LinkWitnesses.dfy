/** Witness counts of candidate coverage: for every ordered pair of racks, each directed
    link on a shortest path is credited with the number of probe pairs between the racks
    (netopsbench/platform/pingmesh/planner.py, `_candidate_coverage`). */
module LinkWitnesses {
  import opened FabricGraph
  import opened Counting

  type Tally = map<(Name, Name), nat>

  /** A `Counter` lookup: absent keys count zero. */
  function Count(t: Tally, u: Name, v: Name): nat {
    if (u, v) in t then t[(u, v)] else 0
  }

  datatype Outcome = Disconnected(source: Name, destination: Name) | Counted(witnesses: Tally)

  // ---------------------------------------------------------------- the shortest-path DAG

  /** `u` precedes `v` in the predecessor DAG of the distances `dist`. */
  ghost predicate Step(dist: map<Name, nat>, u: Name, v: Name) {
    u in dist && v in dist && dist[u] + 1 == dist[v]
  }

  /** `v` lies on a shortest path to `d`. */
  ghost predicate Toward(g: Graph, dist: map<Name, nat>, v: Name, d: Name) {
    v in dist && d in dist && dist[v] <= dist[d] && HasPath(g, v, d, dist[d] - dist[v])
  }

  lemma StepOnShortest(g: Graph, s: Name, d: Name, dist: map<Name, nat>, u: Name, v: Name)
    requires IsDistanceMap(g, s, dist) && Edge(g, u, v)
    requires Step(dist, u, v) && Toward(g, dist, v, d)
    ensures OnShortest(g, u, v, s, d)
  {
    var p :| IsPath(g, p, s, u) && |p| == dist[u] + 1;
    var q :| IsPath(g, q, v, d) && |q| == dist[d] - dist[v] + 1;
    JoinPaths(g, p, q, s, u, v, d);
    var r := p + q;
    assert |r| == dist[d] + 1;
    assert IsShortest(g, r, s, d);
    assert Traverses(r, |p| - 1, u, v);
  }

  lemma OnShortestIsStep(g: Graph, s: Name, d: Name, dist: map<Name, nat>, u: Name, v: Name)
    requires IsDistanceMap(g, s, dist) && OnShortest(g, u, v, s, d)
    ensures Edge(g, u, v) && Step(dist, u, v) && Toward(g, dist, v, d)
  {
    var p, i: nat :| IsShortest(g, p, s, d) && Traverses(p, i, u, v);
    SplitPath(g, p, s, d, i);
    SplitPath(g, p, s, d, i + 1);
    assert Edge(g, p[i], p[i + 1]);
    DistanceAlongShortest(g, s, d, dist, p, i);
    DistanceAlongShortest(g, s, d, dist, p, i + 1);
    assert |p[i + 1..]| == dist[d] - dist[v] + 1;
  }

  /** Every switch of a shortest path sits at its own distance from the start. */
  lemma DistanceAlongShortest(g: Graph, s: Name, d: Name, dist: map<Name, nat>, p: seq<Name>, i: nat)
    requires IsDistanceMap(g, s, dist) && IsShortest(g, p, s, d) && i < |p|
    ensures p[i] in dist && dist[p[i]] == i
    ensures d in dist && dist[d] + 1 == |p|
  {
    SplitPath(g, p, s, d, i);
    var x := p[i];
    assert x in dist && dist[x] < |p[..i + 1]|;
    var q :| IsPath(g, q, s, x) && |q| == dist[x] + 1;
    if i + 1 < |p| {
      SplitPath(g, p, s, d, i + 1);
      assert Edge(g, p[i], p[i + 1]);
      JoinPaths(g, q, p[i + 1..], s, x, p[i + 1], d);
    } else {
      assert IsPath(g, q, s, d);
    }
    var r :| IsPath(g, r, s, d) && |r| == dist[d] + 1;
  }

  // ---------------------------------------------------------------- the backward walk

  /** The credit one rack pair adds to `u -> v`. */
  ghost function Credit(g: Graph, s: Name, d: Name, count: nat, u: Name, v: Name): nat {
    if OnShortest(g, u, v, s, d) then count * Multiplicity(g, u, v) else 0
  }

  /** Credit earned so far: predecessors of fully processed switches, plus the first `k`
      entries of the adjacency list of the switch in hand. */
  ghost function Walked(g: Graph, dist: map<Name, nat>, count: nat, done: set<Name>, u: Name, v: Name): nat {
    if v in done && Step(dist, u, v) then count * Multiplicity(g, u, v) else 0
  }

  ghost predicate Tallied(g: Graph, dist: map<Name, nat>, count: nat, base: Tally, done: set<Name>, w: Tally) {
    forall u, v :: Count(w, u, v) == Count(base, u, v) + Walked(g, dist, count, done, u, v)
  }

  /** Walk invariant: visited switches lead to `d`, processed ones have all predecessors visited. */
  ghost predicate Walking(g: Graph, dist: map<Name, nat>, d: Name, visited: set<Name>, done: set<Name>) {
    && d in visited && done <= visited
    && (forall v :: v in visited ==> v in g && Toward(g, dist, v, d))
    && (forall u, v :: v in done && u in g[v] && Step(dist, u, v) ==> u in visited)
  }

  /** The predecessors of `node` among its listed neighbours. */
  ghost function Predecessors(adjacent: seq<Name>, dist: map<Name, nat>, node: Name): set<Name> {
    set u | u in adjacent && Step(dist, u, node)
  }

  ghost function NodeCredit(adjacent: seq<Name>, dist: map<Name, nat>, node: Name, count: nat, u: Name, v: Name): nat {
    if v == node && Step(dist, u, v) then count * multiset(adjacent)[u] else 0
  }

  ghost predicate NodeTallied(adjacent: seq<Name>, dist: map<Name, nat>, node: Name, count: nat, base: Tally, w: Tally) {
    forall u, v :: Count(w, u, v) == Count(base, u, v) + NodeCredit(adjacent, dist, node, count, u, v)
  }

  lemma CreditOne(adjacent: seq<Name>, u: Name, dist: map<Name, nat>, node: Name, count: nat, base: Tally, w: Tally)
    requires NodeTallied(adjacent, dist, node, count, base, w)
    ensures Step(dist, u, node) ==>
              NodeTallied(adjacent + [u], dist, node, count, base, w[(u, node) := Count(w, u, node) + count])
    ensures !Step(dist, u, node) ==> NodeTallied(adjacent + [u], dist, node, count, base, w)
  {
    var more := adjacent + [u];
    var w' := if Step(dist, u, node) then w[(u, node) := Count(w, u, node) + count] else w;
    forall x, y
      ensures Count(w', x, y) == Count(base, x, y) + NodeCredit(more, dist, node, count, x, y)
    {
      assert multiset(more)[x] == multiset(adjacent)[x] + if x == u then 1 else 0;
      assert Count(w, x, y) == Count(base, x, y) + NodeCredit(adjacent, dist, node, count, x, y);
      DistributeOne(count, multiset(adjacent)[x]);
    }
  }

  lemma DistributeOne(count: nat, m: nat)
    ensures count * (m + 1) == count * m + count
  {
  }

  /** One switch popped from the stack: the `for predecessor in graph[node]` loop. */
  method CreditPredecessors(adjacent: seq<Name>, dist: map<Name, nat>, node: Name, count: nat,
                            base: Tally, before: set<Name>, stack: seq<Name>)
    returns (w: Tally, visited: set<Name>, pending: seq<Name>)
    requires node in dist
    requires NoDup(stack) && Elems(stack) <= before
    ensures NodeTallied(adjacent, dist, node, count, base, w)
    ensures visited == before + Predecessors(adjacent, dist, node)
    ensures NoDup(pending) && Elems(pending) == Elems(stack) + (visited - before)
    ensures visited == before ==> pending == stack
  {
    w, visited, pending := base, before, stack;
    for k := 0 to |adjacent|
      invariant NodeTallied(adjacent[..k], dist, node, count, base, w)
      invariant visited == before + Predecessors(adjacent[..k], dist, node)
      invariant NoDup(pending) && Elems(pending) == Elems(stack) + (visited - before)
      invariant visited == before ==> pending == stack
    {
      var predecessor := adjacent[k];
      assert adjacent[..k + 1] == adjacent[..k] + [predecessor];
      CreditOne(adjacent[..k], predecessor, dist, node, count, base, w);
      if predecessor in dist && dist[predecessor] + 1 == dist[node] {
        w := w[(predecessor, node) := Count(w, predecessor, node) + count];
        if predecessor !in visited {
          PushFresh(pending, predecessor);
          visited := visited + {predecessor};
          pending := pending + [predecessor];
        }
      }
    }
    assert adjacent[..|adjacent|] == adjacent;
  }

  lemma PushFresh(s: seq<Name>, x: Name)
    requires NoDup(s) && x !in Elems(s)
    ensures NoDup(s + [x]) && Elems(s + [x]) == Elems(s) + {x}
  {
    assert forall i :: 0 <= i < |s| ==> s[i] in Elems(s);
    assert (s + [x])[|s|] == x;
  }

  lemma PopLast(s: seq<Name>)
    requires NoDup(s) && s != []
    ensures NoDup(s[..|s| - 1]) && Elems(s[..|s| - 1]) == Elems(s) - {s[|s| - 1]}
  {
    var last := s[|s| - 1];
    assert s == s[..|s| - 1] + [last];
  }

  lemma WalkOn(g: Graph, dist: map<Name, nat>, d: Name, visited: set<Name>, done: set<Name>, node: Name)
    requires Symmetric(g) && Closed(g) && Walking(g, dist, d, visited, done) && node in visited
    ensures Walking(g, dist, d, visited + Predecessors(g[node], dist, node), done + {node})
  {
    forall u | u in Predecessors(g[node], dist, node)
      ensures u in g && Toward(g, dist, u, d)
    {
      EdgeSymmetric(g, node, u);
      PrependPath(g, u, node, d, dist[d] - dist[node]);
    }
  }

  lemma TallyOn(g: Graph, dist: map<Name, nat>, count: nat, base: Tally, done: set<Name>, node: Name, w: Tally, w': Tally)
    requires node in g && node !in done
    requires Tallied(g, dist, count, base, done, w)
    requires NodeTallied(g[node], dist, node, count, w, w')
    ensures Tallied(g, dist, count, base, done + {node}, w')
  {
    forall u, v
      ensures Count(w', u, v) == Count(base, u, v) + Walked(g, dist, count, done + {node}, u, v)
    {
      assert Count(w, u, v) == Count(base, u, v) + Walked(g, dist, count, done, u, v);
    }
  }

  /** Once the stack is empty, the processed switches are all those on shortest paths to `d`. */
  lemma {:induction false} WalkComplete(g: Graph, s: Name, dist: map<Name, nat>, d: Name, visited: set<Name>, v: Name)
    requires Symmetric(g) && Walking(g, dist, d, visited, visited)
    requires IsDistanceMap(g, s, dist)
    requires Toward(g, dist, v, d)
    ensures v in visited
    decreases dist[d] - dist[v]
  {
    if dist[v] < dist[d] {
      var x := NextToward(g, s, dist, d, v);
      WalkComplete(g, s, dist, d, visited, x);
      EdgeSymmetric(g, v, x);
    } else {
      var q :| IsPath(g, q, v, d) && |q| == 1;
    }
  }

  /** The next switch of a shortest path toward `d`. */
  lemma NextToward(g: Graph, s: Name, dist: map<Name, nat>, d: Name, v: Name) returns (x: Name)
    requires IsDistanceMap(g, s, dist)
    requires Toward(g, dist, v, d) && dist[v] < dist[d]
    ensures Edge(g, v, x) && Step(dist, v, x) && Toward(g, dist, x, d)
  {
    var n := dist[d] - dist[v];
    var q :| IsPath(g, q, v, d) && |q| == n + 1;
    x := q[1];
    SplitPath(g, q, v, d, 1);
    assert Edge(g, q[0], q[1]);
    NeighbourDistance(g, s, dist, v, x);
    ReachedWithin(g, s, dist, q[1..], x, d);
    assert |q[1..]| == n;
  }

  lemma NeighbourDistance(g: Graph, s: Name, dist: map<Name, nat>, u: Name, v: Name)
    requires IsDistanceMap(g, s, dist)
    requires u in dist && Edge(g, u, v)
    ensures v in dist && dist[v] <= dist[u] + 1
  {
    ExtendPath(g, s, u, v, dist[u]);
    var p :| IsPath(g, p, s, v) && |p| == dist[u] + 2;
  }

  /** A path of `|q| - 1` links raises the distance by at most that much. */
  lemma ReachedWithin(g: Graph, s: Name, dist: map<Name, nat>, q: seq<Name>, x: Name, d: Name)
    requires IsDistanceMap(g, s, dist)
    requires x in dist && IsPath(g, q, x, d)
    ensures d in dist && dist[d] <= dist[x] + |q| - 1
  {
    var p :| IsPath(g, p, s, x) && |p| == dist[x] + 1;
    if |q| > 1 {
      SplitPath(g, q, x, d, 1);
      assert Edge(g, q[0], q[1]);
      JoinPaths(g, p, q[1..], s, x, q[1], d);
    }
  }

  /** State of the stack loop: the switches off the stack are processed and tallied. */
  ghost predicate Backward(g: Graph, d: Name, dist: map<Name, nat>, count: nat, base: Tally,
                           visited: set<Name>, pending: seq<Name>, w: Tally)
  {
    && NoDup(pending) && Elems(pending) <= visited
    && Walking(g, dist, d, visited, visited - Elems(pending))
    && Tallied(g, dist, count, base, visited - Elems(pending), w)
  }

  method WalkNode(g: Graph, ghost d: Name, dist: map<Name, nat>, count: nat, ghost base: Tally,
                  before: set<Name>, stack: seq<Name>, w0: Tally)
    returns (w: Tally, visited: set<Name>, pending: seq<Name>)
    requires Closed(g) && Symmetric(g) && stack != []
    requires Backward(g, d, dist, count, base, before, stack, w0)
    ensures Backward(g, d, dist, count, base, visited, pending, w)
    ensures before <= visited && (visited == before ==> |pending| < |stack|)
  {
    var node := stack[|stack| - 1];
    PopLast(stack);
    ghost var done := before - Elems(stack);
    assert node in Elems(stack);
    WalkOn(g, dist, d, before, done, node);
    w, visited, pending := CreditPredecessors(g[node], dist, node, count, w0, before, stack[..|stack| - 1]);
    TallyOn(g, dist, count, base, done, node, w0, w);
    assert visited - Elems(pending) == done + {node};
  }

  /** The stack loop for one rack pair: every directed link is credited exactly as often as
      its shortest-path membership and link multiplicity demand. */
  method CreditPair(g: Graph, ghost s: Name, d: Name, dist: map<Name, nat>, count: nat, base: Tally)
    returns (w: Tally)
    requires Closed(g) && Symmetric(g) && IsDistanceMap(g, s, dist) && d in dist
    ensures forall u, v :: Count(w, u, v) == Count(base, u, v) + Credit(g, s, d, count, u, v)
  {
    w := base;
    var pending, visited := [d], {d};
    BackwardStarts(g, s, d, dist, count, base);
    while pending != []
      invariant Backward(g, d, dist, count, base, visited, pending, w)
      decreases |g.Keys - visited|, |pending|
    {
      ghost var before := visited;
      w, visited, pending := WalkNode(g, d, dist, count, base, visited, pending, w);
      VisitedGrows(g.Keys, before, visited);
    }
    BackwardEnds(g, s, d, dist, count, base, visited, w);
  }

  lemma BackwardStarts(g: Graph, s: Name, d: Name, dist: map<Name, nat>, count: nat, base: Tally)
    requires IsDistanceMap(g, s, dist) && d in dist
    ensures Backward(g, d, dist, count, base, {d}, [d], base)
  {
    assert IsPath(g, [d], d, d) && |[d]| == 0 + 1;
    assert {d} - Elems([d]) == {};
  }

  lemma BackwardEnds(g: Graph, s: Name, d: Name, dist: map<Name, nat>, count: nat, base: Tally, visited: set<Name>, w: Tally)
    requires Closed(g) && Symmetric(g) && IsDistanceMap(g, s, dist) && d in dist
    requires Backward(g, d, dist, count, base, visited, [], w)
    ensures forall u, v :: Count(w, u, v) == Count(base, u, v) + Credit(g, s, d, count, u, v)
  {
    assert visited - Elems([]) == visited;
    forall u, v
      ensures Count(w, u, v) == Count(base, u, v) + Credit(g, s, d, count, u, v)
    {
      WalkedIsCredit(g, s, d, dist, count, visited, u, v);
    }
  }

  lemma WalkedIsCredit(g: Graph, s: Name, d: Name, dist: map<Name, nat>, count: nat, visited: set<Name>, u: Name, v: Name)
    requires Closed(g) && Symmetric(g) && IsDistanceMap(g, s, dist)
    requires Walking(g, dist, d, visited, visited)
    ensures Walked(g, dist, count, visited, u, v) == Credit(g, s, d, count, u, v)
  {
    if OnShortest(g, u, v, s, d) {
      OnShortestIsStep(g, s, d, dist, u, v);
      WalkComplete(g, s, dist, d, visited, v);
    } else if v in visited && Step(dist, u, v) {
      if u in g[v] {
        EdgeSymmetric(g, v, u);
        StepOnShortest(g, s, d, dist, u, v);
        assert false;
      }
      assert Multiplicity(g, u, v) == 0;
    }
  }

  // ---------------------------------------------------------------- all rack pairs

  /** Credit that the probe pairs from rack `s` to the racks `ds` give to `u -> v`. */
  ghost function RowCredit(g: Graph, pairs: Tally, s: Name, ds: seq<Name>, u: Name, v: Name): nat {
    if ds == [] then 0 else
      var d := ds[|ds| - 1];
      RowCredit(g, pairs, s, ds[..|ds| - 1], u, v) + Credit(g, s, d, Count(pairs, s, d), u, v)
  }

  /** The sum over ordered rack pairs of their pair count, for the pairs that have `u -> v`
      on a shortest path, once per parallel link. */
  ghost function TotalCredit(g: Graph, pairs: Tally, ss: seq<Name>, ds: seq<Name>, u: Name, v: Name): nat {
    if ss == [] then 0 else
      TotalCredit(g, pairs, ss[..|ss| - 1], ds, u, v) + RowCredit(g, pairs, ss[|ss| - 1], ds, u, v)
  }

  ghost predicate Probed(pairs: Tally, racks: seq<Name>, s: Name, d: Name) {
    s in racks && d in racks && Count(pairs, s, d) > 0
  }

  /** The inner loop over destinations, for one source whose distances are known. */
  method CreditSource(g: Graph, s: Name, dist: map<Name, nat>, racks: seq<Name>, pairs: Tally, base: Tally)
    returns (o: Outcome)
    requires Closed(g) && Symmetric(g) && IsDistanceMap(g, s, dist) && s in racks
    ensures o.Disconnected? ==>
              o.source == s && Probed(pairs, racks, s, o.destination) && !Reachable(g, s, o.destination)
    ensures o.Counted? ==>
              && (forall d :: Probed(pairs, racks, s, d) ==> Reachable(g, s, d))
              && (forall u, v :: Count(o.witnesses, u, v) == Count(base, u, v) + RowCredit(g, pairs, s, racks, u, v))
  {
    var w := base;
    for k := 0 to |racks|
      invariant forall i :: 0 <= i < k && Count(pairs, s, racks[i]) > 0 ==> Reachable(g, s, racks[i])
      invariant forall u, v :: Count(w, u, v) == Count(base, u, v) + RowCredit(g, pairs, s, racks[..k], u, v)
    {
      var d := racks[k];
      var count := Count(pairs, s, d);
      assert racks[..k + 1][..k] == racks[..k];
      if count != 0 {
        if d !in dist {
          return Disconnected(s, d);
        }
        w := CreditPair(g, s, d, dist, count, w);
        assert HasPath(g, s, d, dist[d]);
      }
    }
    assert racks[..|racks|] == racks;
    o := Counted(w);
  }

  /** `_candidate_coverage` up to the client links. */
  method CountWitnesses(g: Graph, racks: seq<Name>, pairs: Tally) returns (o: Outcome)
    requires Closed(g) && Symmetric(g)
    requires forall r :: r in racks ==> r in g
    ensures o.Disconnected? ==>
              Probed(pairs, racks, o.source, o.destination) && !Reachable(g, o.source, o.destination)
    ensures o.Counted? <==> forall s, d :: Probed(pairs, racks, s, d) ==> Reachable(g, s, d)
    ensures o.Counted? ==>
              forall u, v :: Count(o.witnesses, u, v) == TotalCredit(g, pairs, racks, racks, u, v)
  {
    var w: Tally := map[];
    for k := 0 to |racks|
      invariant forall i, d :: 0 <= i < k && Probed(pairs, racks, racks[i], d) ==> Reachable(g, racks[i], d)
      invariant forall u, v :: Count(w, u, v) == TotalCredit(g, pairs, racks[..k], racks, u, v)
    {
      var s := racks[k];
      var dist := ShortestDistances(g, s);
      var row := CreditSource(g, s, dist, racks, pairs, w);
      if row.Disconnected? {
        return row;
      }
      assert racks[..k + 1][..k] == racks[..k];
      w := row.witnesses;
    }
    assert racks[..|racks|] == racks;
    o := Counted(w);
  }

  // ---------------------------------------------------------------- both directions agree

  ghost predicate SymmetricPairs(pairs: Tally) {
    forall s, d :: Count(pairs, s, d) == Count(pairs, d, s)
  }

  lemma CreditReverses(g: Graph, s: Name, d: Name, count: nat, u: Name, v: Name)
    requires Symmetric(g) && Closed(g)
    ensures Credit(g, s, d, count, u, v) == Credit(g, d, s, count, v, u)
  {
    if OnShortest(g, u, v, s, d) {
      OnShortestReverses(g, u, v, s, d);
      OnShortestEnds(g, u, v, s, d);
    } else if OnShortest(g, v, u, d, s) {
      OnShortestReverses(g, v, u, d, s);
    }
  }

  lemma OnShortestEnds(g: Graph, u: Name, v: Name, s: Name, d: Name)
    requires OnShortest(g, u, v, s, d)
    ensures u in g && v in g
  {
    var p, i: nat :| IsShortest(g, p, s, d) && Traverses(p, i, u, v);
    assert Edge(g, p[i], p[i + 1]);
  }

  /** Sum over `ds` of the credit of the single pairs `(d, s)`. */
  ghost function ColumnCredit(g: Graph, pairs: Tally, ds: seq<Name>, s: Name, u: Name, v: Name): nat {
    if ds == [] then 0 else
      var d := ds[|ds| - 1];
      ColumnCredit(g, pairs, ds[..|ds| - 1], s, u, v) + Credit(g, d, s, Count(pairs, d, s), u, v)
  }

  lemma {:induction false} RowIsColumn(g: Graph, pairs: Tally, s: Name, ds: seq<Name>, u: Name, v: Name)
    requires Symmetric(g) && Closed(g) && SymmetricPairs(pairs)
    ensures RowCredit(g, pairs, s, ds, u, v) == ColumnCredit(g, pairs, ds, s, v, u)
  {
    if ds != [] {
      var d := ds[|ds| - 1];
      RowIsColumn(g, pairs, s, ds[..|ds| - 1], u, v);
      CreditReverses(g, s, d, Count(pairs, s, d), u, v);
    }
  }

  lemma {:induction false} PeelColumn(g: Graph, pairs: Tally, ss: seq<Name>, ds: seq<Name>, u: Name, v: Name)
    requires ds != []
    ensures TotalCredit(g, pairs, ss, ds, u, v) ==
            TotalCredit(g, pairs, ss, ds[..|ds| - 1], u, v) + ColumnCredit(g, pairs, ss, ds[|ds| - 1], u, v)
  {
    if ss != [] {
      PeelColumn(g, pairs, ss[..|ss| - 1], ds, u, v);
    }
  }

  /** Exchanging the order of summation: the two directions of a link earn the same total. */
  lemma {:induction false} TotalReverses(g: Graph, pairs: Tally, ss: seq<Name>, ds: seq<Name>, u: Name, v: Name)
    requires Symmetric(g) && Closed(g) && SymmetricPairs(pairs)
    ensures TotalCredit(g, pairs, ss, ds, u, v) == TotalCredit(g, pairs, ds, ss, v, u)
  {
    if ss == [] {
      EmptyColumns(g, pairs, ds, v, u);
    } else {
      var s := ss[|ss| - 1];
      TotalReverses(g, pairs, ss[..|ss| - 1], ds, u, v);
      RowIsColumn(g, pairs, s, ds, u, v);
      PeelColumn(g, pairs, ds, ss, v, u);
    }
  }

  lemma EmptyColumns(g: Graph, pairs: Tally, ss: seq<Name>, u: Name, v: Name)
    ensures TotalCredit(g, pairs, ss, [], u, v) == 0
  {
  }

  /** A positive total has a cause: some probed rack pair with the link on a shortest path. */
  lemma {:induction false} PositiveTotal(g: Graph, pairs: Tally, ss: seq<Name>, ds: seq<Name>, u: Name, v: Name)
    requires TotalCredit(g, pairs, ss, ds, u, v) > 0
    ensures exists s, d :: s in ss && d in ds && Count(pairs, s, d) > 0 && OnShortest(g, u, v, s, d)
  {
    var s, front := ss[|ss| - 1], ss[..|ss| - 1];
    if RowCredit(g, pairs, s, ds, u, v) > 0 {
      PositiveRow(g, pairs, s, ds, u, v);
    } else {
      PositiveTotal(g, pairs, front, ds, u, v);
      var s', d' :| s' in front && d' in ds && Count(pairs, s', d') > 0 && OnShortest(g, u, v, s', d');
      assert s' in ss;
    }
  }

  lemma CreditIsProbed(g: Graph, s: Name, d: Name, count: nat, u: Name, v: Name)
    requires Credit(g, s, d, count, u, v) > 0
    ensures count > 0 && OnShortest(g, u, v, s, d)
  {
  }

  lemma {:induction false} PositiveRow(g: Graph, pairs: Tally, s: Name, ds: seq<Name>, u: Name, v: Name)
    requires RowCredit(g, pairs, s, ds, u, v) > 0
    ensures exists d :: d in ds && Count(pairs, s, d) > 0 && OnShortest(g, u, v, s, d)
    decreases |ds|
  {
    var d, front := ds[|ds| - 1], ds[..|ds| - 1];
    if Credit(g, s, d, Count(pairs, s, d), u, v) > 0 {
      CreditIsProbed(g, s, d, Count(pairs, s, d), u, v);
      assert d in ds;
    } else {
      PositiveRow(g, pairs, s, front, u, v);
      var d' :| d' in front && Count(pairs, s, d') > 0 && OnShortest(g, u, v, s, d');
      assert d' in ds;
    }
  }
}
