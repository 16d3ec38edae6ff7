/** The report built from the witness counts: client links credited by peer degree, both
    directions of every link, and the acceptance checks on it
    (netopsbench/platform/pingmesh/planner.py:112-115, 155-176). */
module CoverageReport {
  import opened FabricGraph
  import opened LinkWitnesses
  import opened PeerMatching

  datatype LinkCoverage = LinkCoverage(source: Name, destination: Name, witnesses: nat)

  datatype Report = Report(links: seq<LinkCoverage>, covered: set<Name>, minimum: nat)

  datatype ReportOutcome = Unreachable(source: Name, destination: Name) | Built(report: Report)

  /** What a manifest guarantees about the roster: distinct client names, none of them a
      switch, every client attached to a switch. */
  ghost predicate ValidRoster(switches: set<Name>, clients: seq<Client>) {
    && DistinctClients(clients)
    && (forall c :: c in clients ==> c.name !in switches && c.rack in switches)
  }

  ghost predicate Attached(clients: seq<Client>, client: Name, switch: Name) {
    Client(client, switch) in clients
  }

  /** The witnesses of `u -> v`: peer degree on a client's own link, otherwise the sum over
      rack pairs with the link on a shortest path. */
  ghost function Witnesses(g: Graph, pairs: Tally, racks: seq<Name>, clients: seq<Client>, peers: PeerMap,
                           u: Name, v: Name): nat
  {
    if Attached(clients, u, v) && u in peers then |peers[u]|
    else if Attached(clients, v, u) && v in peers then |peers[v]|
    else TotalCredit(g, pairs, racks, racks, u, v)
  }

  /** The loop over `manifest.clients()`. */
  method CreditClients(switches: set<Name>, clients: seq<Client>, peers: PeerMap, base: Tally) returns (w: Tally)
    requires ValidRoster(switches, clients)
    requires forall c :: c in clients ==> c.name in peers
    ensures forall u, v :: Count(w, u, v) ==
                           if Attached(clients, u, v) then |peers[u]|
                           else if Attached(clients, v, u) then |peers[v]|
                           else Count(base, u, v)
  {
    w := base;
    for n := 0 to |clients|
      invariant forall u, v :: Count(w, u, v) ==
                               if Attached(clients[..n], u, v) then |peers[u]|
                               else if Attached(clients[..n], v, u) then |peers[v]|
                               else Count(base, u, v)
    {
      var c := clients[n];
      assert c in clients;
      var degree := |peers[c.name]|;
      ghost var before := w;
      w := w[(c.name, c.rack) := degree];
      w := w[(c.rack, c.name) := degree];
      assert clients[..n + 1] == clients[..n] + [c];
      forall u, v
        ensures Count(w, u, v) ==
                if Attached(clients[..n + 1], u, v) then |peers[u]|
                else if Attached(clients[..n + 1], v, u) then |peers[v]|
                else Count(base, u, v)
      {
        AttachedGrows(clients[..n], c, u, v);
        AttachedGrows(clients[..n], c, v, u);
        assert c.rack != c.name;
        assert forall x :: Client(x, c.name) in clients[..n] ==> Client(x, c.name) in clients;
      }
    }
    assert clients[..|clients|] == clients;
  }

  lemma AttachedGrows(clients: seq<Client>, c: Client, x: Name, y: Name)
    ensures Attached(clients + [c], x, y) <==> Attached(clients, x, y) || c == Client(x, y)
  {
  }

  ghost predicate Lists(entries: seq<LinkCoverage>, links: seq<Link>, w: Tally) {
    && |entries| == 2 * |links|
    && forall i :: 0 <= i < |links| ==>
                     && entries[2 * i] == LinkCoverage(links[i].a, links[i].b, Count(w, links[i].a, links[i].b))
                     && entries[2 * i + 1] == LinkCoverage(links[i].b, links[i].a, Count(w, links[i].b, links[i].a))
  }

  /** The loop over `manifest.links`. */
  method ListLinks(links: seq<Link>, w: Tally) returns (entries: seq<LinkCoverage>)
    ensures Lists(entries, links, w)
  {
    entries := [];
    for n := 0 to |links|
      invariant Lists(entries, links[..n], w)
    {
      var a, b := links[n].a, links[n].b;
      entries := entries + [LinkCoverage(a, b, Count(w, a, b)), LinkCoverage(b, a, Count(w, b, a))];
    }
    assert links[..|links|] == links;
  }

  /** The least witness count, zero without links. */
  method LeastWitnesses(entries: seq<LinkCoverage>) returns (minimum: nat)
    ensures entries == [] ==> minimum == 0
    ensures entries != [] ==> exists i :: 0 <= i < |entries| && entries[i].witnesses == minimum
    ensures forall i :: 0 <= i < |entries| ==> minimum <= entries[i].witnesses
  {
    minimum := if entries == [] then 0 else entries[0].witnesses;
    for n := 0 to |entries|
      invariant entries == [] ==> minimum == 0
      invariant entries != [] ==> exists i :: 0 <= i < |entries| && entries[i].witnesses == minimum
      invariant forall i :: 0 <= i < n ==> minimum <= entries[i].witnesses
    {
      if entries[n].witnesses < minimum {
        minimum := entries[n].witnesses;
      }
    }
  }

  /** The report: listed links, covered switches and the least witness count. */
  method MakeReport(switches: set<Name>, links: seq<Link>, w: Tally) returns (r: Report)
    ensures Lists(r.links, links, w)
    ensures forall x :: x in r.covered <==>
                        x in switches && exists e :: e in r.links && Endpoint(e, x)
    ensures r.links == [] ==> r.minimum == 0
    ensures r.links != [] ==> exists e :: e in r.links && e.witnesses == r.minimum
    ensures forall e :: e in r.links ==> r.minimum <= e.witnesses
  {
    var entries := ListLinks(links, w);
    var covered := set x | x in switches && exists e :: e in entries && Endpoint(e, x);
    var minimum := LeastWitnesses(entries);
    r := Report(entries, covered, minimum);
  }

  predicate Endpoint(e: LinkCoverage, x: Name) {
    e.witnesses > 0 && (x == e.source || x == e.destination)
  }

  /** `_candidate_coverage` as a whole. */
  method CandidateCoverage(switches: set<Name>, links: seq<Link>, clients: seq<Client>, racks: seq<Name>,
                           pairs: Tally, peers: PeerMap)
    returns (o: ReportOutcome, ghost g: Graph)
    requires ValidRoster(switches, clients)
    requires forall r :: r in racks ==> r in switches
    requires forall c :: c in clients ==> c.name in peers
    ensures g.Keys == switches && Closed(g) && Symmetric(g)
    ensures forall u, v :: u in switches && v in switches ==> Multiplicity(g, u, v) == LinksBetween(links, u, v)
    ensures o.Built? <==> forall s, d :: Probed(pairs, racks, s, d) ==> Reachable(g, s, d)
    ensures o.Unreachable? ==> Probed(pairs, racks, o.source, o.destination) && !Reachable(g, o.source, o.destination)
    ensures o.Built? ==> ReportOn(o.report, switches, links, Fabric(g, pairs, racks, clients, peers))
  {
    g := map[];
    var graph := BuildGraph(switches, links);
    g := graph;
    var counted := CountWitnesses(graph, racks, pairs);
    if counted.Disconnected? {
      return Unreachable(counted.source, counted.destination), g;
    }
    var w := CreditClients(switches, clients, peers, counted.witnesses);
    var report := MakeReport(switches, links, w);
    o := Built(report);
    assert forall u, v :: Count(w, u, v) == Witnesses(g, pairs, racks, clients, peers, u, v);
    WitnessedLinks(report.links, links, w, Fabric(g, pairs, racks, clients, peers));
  }

  /** What the witnesses of a link depend on. */
  datatype Fabric = Fabric(g: Graph, pairs: Tally, racks: seq<Name>, clients: seq<Client>, peers: PeerMap)

  ghost function WitnessesIn(f: Fabric, u: Name, v: Name): nat {
    Witnesses(f.g, f.pairs, f.racks, f.clients, f.peers, u, v)
  }

  /** Both directions of every link, in manifest order, with their witnesses. */
  ghost predicate LinksReported(entries: seq<LinkCoverage>, links: seq<Link>, f: Fabric) {
    && |entries| == 2 * |links|
    && forall i :: 0 <= i < |links| ==>
                     && entries[2 * i] == LinkCoverage(links[i].a, links[i].b, WitnessesIn(f, links[i].a, links[i].b))
                     && entries[2 * i + 1] == LinkCoverage(links[i].b, links[i].a, WitnessesIn(f, links[i].b, links[i].a))
  }

  /** The report: the links, the switches at the end of a witnessed link, the least count. */
  ghost predicate ReportOn(r: Report, switches: set<Name>, links: seq<Link>, f: Fabric) {
    && LinksReported(r.links, links, f)
    && (forall x :: x in r.covered <==> x in switches && exists e :: e in r.links && Endpoint(e, x))
    && (r.links == [] ==> r.minimum == 0)
    && (r.links != [] ==> exists e :: e in r.links && e.witnesses == r.minimum)
    && (forall e :: e in r.links ==> r.minimum <= e.witnesses)
  }

  lemma WitnessedLinks(entries: seq<LinkCoverage>, links: seq<Link>, w: Tally, f: Fabric)
    requires Lists(entries, links, w) && forall u, v :: Count(w, u, v) == WitnessesIn(f, u, v)
    ensures LinksReported(entries, links, f)
  {
  }

  /** Both directions of any link have the same witnesses, client links included. */
  lemma WitnessesReverse(g: Graph, switches: set<Name>, pairs: Tally, racks: seq<Name>, clients: seq<Client>,
                         peers: PeerMap, u: Name, v: Name)
    requires ValidRoster(switches, clients) && Closed(g) && Symmetric(g) && SymmetricPairs(pairs)
    ensures Witnesses(g, pairs, racks, clients, peers, u, v) == Witnesses(g, pairs, racks, clients, peers, v, u)
  {
    TotalReverses(g, pairs, racks, racks, u, v);
    assert Attached(clients, u, v) && Attached(clients, v, u) ==> u !in switches && u in switches;
  }

  /** A report that passes the `minimum_witnesses >= 1` check leaves no link between two
      switches off the shortest paths of the probed rack pairs. */
  lemma AcceptedCoversEveryLink(g: Graph, switches: set<Name>, pairs: Tally, racks: seq<Name>, clients: seq<Client>,
                                peers: PeerMap, u: Name, v: Name)
    requires ValidRoster(switches, clients) && u in switches && v in switches
    requires Witnesses(g, pairs, racks, clients, peers, u, v) >= 1
    ensures exists s, d :: Probed(pairs, racks, s, d) && OnShortest(g, u, v, s, d)
  {
    assert !Attached(clients, u, v) && !Attached(clients, v, u);
    PositiveTotal(g, pairs, racks, racks, u, v);
    var s, d :| s in racks && d in racks && Count(pairs, s, d) > 0 && OnShortest(g, u, v, s, d);
    assert Probed(pairs, racks, s, d);
  }
}
