/** Rack grouping and peer selection (netopsbench/platform/pingmesh/planner.py,
    `compile_pingmesh_plan`, lines 37-58). */
module PeerMatching {
  import opened FabricGraph
  import opened LinkWitnesses
  import opened Counting

  datatype Client = Client(name: Name, rack: Name)

  datatype Rack = Rack(switch: Name, members: seq<Name>)

  type Relation = set<(Name, Name)>

  ghost predicate DistinctClients(clients: seq<Client>) {
    forall i, j :: 0 <= i < j < |clients| ==> clients[i].name != clients[j].name
  }

  // ---------------------------------------------------------------- grouping by attached switch

  /** Names of the clients attached to `switch`, in roster order. */
  function Members(clients: seq<Client>, switch: Name): seq<Name> {
    if clients == [] then [] else
      var last := clients[|clients| - 1];
      var front := clients[..|clients| - 1];
      if last.rack == switch then Members(front, switch) + [last.name] else Members(front, switch)
  }

  /** Exactly the clients attached to the switch are members. */
  lemma {:induction false} MembersAttached(clients: seq<Client>, switch: Name, x: Name)
    ensures x in Members(clients, switch) <==> Client(x, switch) in clients
  {
    if clients != [] {
      var front, last := clients[..|clients| - 1], clients[|clients| - 1];
      MembersAttached(front, switch, x);
      assert clients == front + [last];
      assert last == Client(last.name, last.rack);
    }
  }

  ghost predicate Racked(racks: seq<Rack>, c: Client) {
    exists i :: 0 <= i < |racks| && racks[i].switch == c.rack
  }

  /** Racks partition the roster: distinct switches, exactly the attached clients, none empty. */
  ghost predicate Partition(clients: seq<Client>, racks: seq<Rack>) {
    && (forall i, j :: 0 <= i < j < |racks| ==> racks[i].switch != racks[j].switch)
    && (forall i :: 0 <= i < |racks| ==>
                      racks[i].members == Members(clients, racks[i].switch) && racks[i].members != [])
    && (forall c {:trigger Racked(racks, c)} :: c in clients ==> Racked(racks, c))
  }

  /** The loop that groups the roster by attached switch. */
  method GroupRacks(clients: seq<Client>) returns (racks: seq<Rack>)
    ensures Partition(clients, racks)
  {
    racks := [];
    for n := 0 to |clients|
      invariant Partition(clients[..n], racks)
    {
      var c := clients[n];
      assert clients[..n + 1] == clients[..n] + [c];
      var k := 0;
      while k < |racks| && racks[k].switch != c.rack
        invariant k <= |racks|
        invariant forall i :: 0 <= i < k ==> racks[i].switch != c.rack
      {
        k := k + 1;
      }
      ghost var before := racks;
      if k < |racks| {
        racks := racks[k := Rack(c.rack, racks[k].members + [c.name])];
      } else {
        MembersAbsent(clients[..n], before, c.rack);
        racks := racks + [Rack(c.rack, [c.name])];
      }
      Regrouped(clients[..n], before, c, k, racks);
    }
    assert clients[..|clients|] == clients;
  }

  lemma MembersAbsent(clients: seq<Client>, racks: seq<Rack>, switch: Name)
    requires Partition(clients, racks)
    requires forall i :: 0 <= i < |racks| ==> racks[i].switch != switch
    ensures Members(clients, switch) == []
  {
    forall x: Name
      ensures x !in Members(clients, switch)
    {
      MembersAttached(clients, switch, x);
      assert Client(x, switch) in clients ==> Racked(racks, Client(x, switch));
    }
    HeadOrEmpty(Members(clients, switch));
  }

  lemma HeadOrEmpty(m: seq<Name>)
    ensures m == [] || exists x :: x in m
  {
    if m != [] {
      assert m[0] in m;
    }
  }

  lemma Regrouped(clients: seq<Client>, before: seq<Rack>, c: Client, k: nat, after: seq<Rack>)
    requires Partition(clients, before) && k <= |before|
    requires forall i :: 0 <= i < k ==> before[i].switch != c.rack
    requires if k < |before| then before[k].switch == c.rack && after == before[k := Rack(c.rack, before[k].members + [c.name])]
             else Members(clients, c.rack) == [] && after == before + [Rack(c.rack, [c.name])]
    ensures Partition(clients + [c], after)
  {
    var more := clients + [c];
    assert more[..|more| - 1] == clients && more[|more| - 1] == c;
    forall i | 0 <= i < |after|
      ensures after[i].members == Members(more, after[i].switch) && after[i].members != []
    {
      if i < |before| && i != k {
        assert after[i] == before[i];
        assert after[i].switch != c.rack;
      }
    }
    forall x | x in more
      ensures Racked(after, x)
    {
      if x in clients {
        assert Racked(before, x);
        var i :| 0 <= i < |before| && before[i].switch == x.rack;
        assert after[i].switch == x.rack;
      } else {
        assert after[k].switch == x.rack;
      }
    }
  }

  // ---------------------------------------------------------------- the peer relation

  function Capacity(a: Rack, b: Rack): nat {
    if |a.members| >= |b.members| then |a.members| else |b.members|
  }

  /** The policy's pair count, or the larger rack size; zero stands for an unset policy. */
  function PairCount(cross: nat, a: Rack, b: Rack): nat {
    if cross == 0 then Capacity(a, b) else cross
  }

  function Chosen(m: seq<Name>, n: nat): Name
    requires m != []
  {
    m[Wrap(n, |m|)]
  }

  function Replica(a: seq<Name>, b: seq<Name>, n: nat): (Name, Name)
    requires a != [] && b != []
  {
    (Chosen(a, n), Chosen(b, n))
  }

  /** The two clients of one replica, by remainders. */
  method PickReplica(a: seq<Name>, b: seq<Name>, n: nat) returns (source: Name, destination: Name)
    requires a != [] && b != []
    ensures (source, destination) == Replica(a, b, n)
  {
    WrapIsModulo(n, |a|);
    WrapIsModulo(n, |b|);
    source, destination := a[n % |a|], b[n % |b|];
  }

  /** The first `n` replica pairs between two racks whose index sum is `offset`. */
  function Replicas(a: seq<Name>, b: seq<Name>, offset: nat, n: nat): Relation
    requires a != [] && b != []
  {
    if n == 0 then {} else
      Replicas(a, b, offset, n - 1) + {Replica(a, b, offset + n - 1)}
  }

  ghost predicate NonEmpty(racks: seq<Rack>) {
    forall i :: 0 <= i < |racks| ==> racks[i].members != []
  }

  /** Replica pairs of rack `i` with the racks after it and before `j`. */
  ghost function RowPairs(racks: seq<Rack>, cross: nat, i: nat, j: nat): Relation
    requires NonEmpty(racks) && i < |racks| && j <= |racks|
  {
    if j <= i + 1 then {} else
      RowPairs(racks, cross, i, j - 1)
      + Replicas(racks[i].members, racks[j - 1].members, i + j - 1, PairCount(cross, racks[i], racks[j - 1]))
  }

  ghost function CrossPairs(racks: seq<Rack>, cross: nat, i: nat): Relation
    requires NonEmpty(racks) && i <= |racks|
  {
    if i == 0 then {} else CrossPairs(racks, cross, i - 1) + RowPairs(racks, cross, i - 1, |racks|)
  }

  /** Ordered pairs of members at distinct positions. */
  ghost function MatePairs(m: seq<Name>): Relation {
    set a, b | 0 <= a < |m| && 0 <= b < |m| && a != b :: (m[a], m[b])
  }

  ghost function RackPairs(racks: seq<Rack>, n: nat): Relation
    requires n <= |racks|
  {
    if n == 0 then {} else RackPairs(racks, n - 1) + MatePairs(racks[n - 1].members)
  }

  ghost function Flip(r: Relation): Relation {
    set p | p in r :: (p.1, p.0)
  }

  /** The whole peer relation: rack mates, and replica pairs in both directions. */
  ghost function PeerRelation(racks: seq<Rack>, cross: nat): Relation
    requires NonEmpty(racks)
  {
    RackPairs(racks, |racks|) + BothWays(CrossPairs(racks, cross, |racks|))
  }

  // ---------------------------------------------------------------- replica pairs never repeat

  lemma {:induction false} ReplicaMember(a: seq<Name>, b: seq<Name>, offset: nat, n: nat, p: (Name, Name))
    requires a != [] && b != [] && p in Replicas(a, b, offset, n)
    ensures p.0 in a && p.1 in b
    ensures exists k: nat :: offset <= k < offset + n && p == Replica(a, b, k)
  {
    if p != Replica(a, b, offset + n - 1) {
      ReplicaMember(a, b, offset, n - 1, p);
    }
  }

  lemma ReplicasDiffer(a: seq<Name>, b: seq<Name>, k: nat, l: nat)
    requires a != [] && b != [] && NoDup(a) && NoDup(b)
    requires k < l && (l < k + |a| || l < k + |b|)
    ensures Replica(a, b, k) != Replica(a, b, l)
  {
    if l < k + |a| {
      WrapInjective(k, l, |a|);
    } else {
      WrapInjective(k, l, |b|);
    }
  }

  /** Within the matching capacity the `n` replicas are `n` different pairs. */
  lemma {:induction false} ReplicaCount(a: seq<Name>, b: seq<Name>, offset: nat, n: nat)
    requires a != [] && b != [] && NoDup(a) && NoDup(b)
    requires n <= |a| || n <= |b|
    ensures |Replicas(a, b, offset, n)| == n
  {
    if n > 0 {
      ReplicaCount(a, b, offset, n - 1);
      var l := offset + n - 1;
      if Replica(a, b, l) in Replicas(a, b, offset, n - 1) {
        ReplicaMember(a, b, offset, n - 1, Replica(a, b, l));
        var k: nat :| offset <= k < l && Replica(a, b, l) == Replica(a, b, k);
        ReplicasDiffer(a, b, k, l);
        assert false;
      }
    }
  }

  // ---------------------------------------------------------------- the matching loops

  type PeerMap = map<Name, set<Name>>

  datatype MatchOutcome =
    | OverCapacity(left: Name, right: Name)
    | Isolated(client: Name)
    | Matched(peers: PeerMap, pairs: Tally)

  /** `peers` stores exactly the relation `r`. */
  ghost predicate Holds(peers: PeerMap, r: Relation) {
    forall x, y {:trigger PeerOf(peers, x, y)} :: PeerOf(peers, x, y) <==> (x, y) in r
  }

  ghost predicate PeerOf(peers: PeerMap, x: Name, y: Name) {
    x in peers && y in peers[x]
  }

  function AddPeer(peers: PeerMap, x: Name, y: Name): PeerMap
    requires x in peers
  {
    peers[x := peers[x] + {y}]
  }

  lemma AddHolds(peers: PeerMap, r: Relation, x: Name, y: Name)
    requires Holds(peers, r) && x in peers
    ensures Holds(AddPeer(peers, x, y), r + {(x, y)})
    ensures AddPeer(peers, x, y).Keys == peers.Keys
  {
    forall u, v
      ensures PeerOf(AddPeer(peers, x, y), u, v) <==> (u, v) in r + {(x, y)}
    {
      assert PeerOf(peers, u, v) <==> (u, v) in r;
    }
  }

  /** The loop over the ordered pairs of rack mates. */
  method AddMates(before: PeerMap, ghost r: Relation, m: seq<Name>) returns (peers: PeerMap)
    requires Holds(before, r) && forall x :: x in m ==> x in before
    ensures peers.Keys == before.Keys && Holds(peers, r + MatePairs(m))
  {
    peers := before;
    ghost var added: Relation := {};
    for a := 0 to |m|
      invariant peers.Keys == before.Keys && Holds(peers, r + added)
      invariant added == set i, j | 0 <= i < a && 0 <= j < |m| && i != j :: (m[i], m[j])
    {
      ghost var row := added;
      for b := 0 to |m|
        invariant peers.Keys == before.Keys && Holds(peers, r + added)
        invariant added == row + set j | 0 <= j < b && a != j :: (m[a], m[j])
      {
        if a != b {
          assert m[a] in before;
          AddHolds(peers, r + added, m[a], m[b]);
          peers := AddPeer(peers, m[a], m[b]);
          assert r + added + {(m[a], m[b])} == r + (added + {(m[a], m[b])});
          added := added + {(m[a], m[b])};
        }
      }
    }
  }

  ghost function BothWays(r: Relation): Relation {
    r + Flip(r)
  }

  lemma BothWaysAdd(r: Relation, x: Name, y: Name)
    ensures BothWays(r + {(x, y)}) == BothWays(r) + {(x, y)} + {(y, x)}
  {
    var more := r + {(x, y)};
    forall p | p in Flip(r) + {(y, x)}
      ensures p in Flip(more)
    {
      assert (p.1, p.0) in more;
    }
  }

  lemma BothWaysUnion(a: Relation, b: Relation)
    ensures BothWays(a + b) == BothWays(a) + BothWays(b)
  {
    forall p | p in Flip(a) + Flip(b)
      ensures p in Flip(a + b)
    {
      assert (p.1, p.0) in a + b;
    }
  }

  lemma BothWaysOnto(base: Relation, a: Relation, b: Relation)
    ensures base + BothWays(a) + BothWays(b) == base + BothWays(a + b)
  {
    BothWaysUnion(a, b);
  }

  lemma AddBoth(peers: PeerMap, base: Relation, r: Relation, x: Name, y: Name)
    requires Holds(peers, base + BothWays(r)) && x in peers && y in peers
    ensures Holds(AddPeer(AddPeer(peers, x, y), y, x), base + BothWays(r + {(x, y)}))
  {
    var now := base + BothWays(r);
    AddHolds(peers, now, x, y);
    AddHolds(AddPeer(peers, x, y), now + {(x, y)}, y, x);
    BothWaysAdd(r, x, y);
    assert base + BothWays(r + {(x, y)}) == now + {(x, y)} + {(y, x)};
  }

  lemma ReplicaStep(peers: PeerMap, base: Relation, a: seq<Name>, b: seq<Name>, offset: nat, k: nat)
    requires a != [] && b != []
    requires (forall x :: x in a ==> x in peers) && (forall x :: x in b ==> x in peers)
    requires Holds(peers, base + BothWays(Replicas(a, b, offset, k)))
    ensures var (x, y) := Replica(a, b, offset + k);
            && x in peers && y in peers
            && AddPeer(AddPeer(peers, x, y), y, x).Keys == peers.Keys
            && Holds(AddPeer(AddPeer(peers, x, y), y, x), base + BothWays(Replicas(a, b, offset, k + 1)))
  {
    var (x, y) := Replica(a, b, offset + k);
    assert x in a && y in b;
    AddBoth(peers, base, Replicas(a, b, offset, k), x, y);
  }

  /** One replica: both directions are stored. */
  method AddReplica(before: PeerMap, ghost base: Relation, a: seq<Name>, b: seq<Name>, offset: nat, k: nat)
    returns (peers: PeerMap)
    requires a != [] && b != [] && Holds(before, base + BothWays(Replicas(a, b, offset, k)))
    requires (forall x :: x in a ==> x in before) && (forall x :: x in b ==> x in before)
    ensures peers.Keys == before.Keys
    ensures Holds(peers, base + BothWays(Replicas(a, b, offset, k + 1)))
  {
    var source, destination := PickReplica(a, b, offset + k);
    ReplicaStep(before, base, a, b, offset, k);
    peers := AddPeer(AddPeer(before, source, destination), destination, source);
  }

  /** The loop over the replicas of two racks. */
  method AddReplicas(before: PeerMap, ghost base: Relation, a: seq<Name>, b: seq<Name>, offset: nat, count: nat)
    returns (peers: PeerMap)
    requires a != [] && b != [] && Holds(before, base)
    requires (forall x :: x in a ==> x in before) && (forall x :: x in b ==> x in before)
    ensures peers.Keys == before.Keys
    ensures Holds(peers, base + BothWays(Replicas(a, b, offset, count)))
  {
    peers := before;
    assert base + BothWays({}) == base;
    for k := 0 to count
      invariant peers.Keys == before.Keys
      invariant Holds(peers, base + BothWays(Replicas(a, b, offset, k)))
    {
      peers := AddReplica(peers, base, a, b, offset, k);
    }
  }

  ghost predicate Rostered(racks: seq<Rack>, peers: PeerMap) {
    forall i, x :: 0 <= i < |racks| && x in racks[i].members ==> x in peers
  }

  /** The pair counter after the rack combinations up to `(i, j)`. */
  ghost predicate PairsUpTo(racks: seq<Rack>, cross: nat, i: nat, j: nat, pairs: Tally) {
    && SymmetricPairs(pairs)
    && (forall p, q {:trigger Count(pairs, racks[p].switch, racks[q].switch)} ::
          0 <= p < |racks| && 0 <= q < |racks| && p <= q ==>
                         Count(pairs, racks[p].switch, racks[q].switch) ==
                         if p < q && (p < i || (p == i && q < j)) then PairCount(cross, racks[p], racks[q]) else 0)
  }

  lemma SetPair(racks: seq<Rack>, cross: nat, i: nat, j: nat, pairs: Tally)
    requires i < j < |racks| && PairsUpTo(racks, cross, i, j, pairs)
    requires forall p, q :: 0 <= p < q < |racks| ==> racks[p].switch != racks[q].switch
    ensures var c := PairCount(cross, racks[i], racks[j]);
            PairsUpTo(racks, cross, i, j + 1,
                      pairs[(racks[i].switch, racks[j].switch) := c][(racks[j].switch, racks[i].switch) := c])
  {
    var c := PairCount(cross, racks[i], racks[j]);
    var l, r := racks[i].switch, racks[j].switch;
    var pairs' := pairs[(l, r) := c][(r, l) := c];
    forall p, q | 0 <= p < |racks| && 0 <= q < |racks| && p <= q
      ensures Count(pairs', racks[p].switch, racks[q].switch) ==
              if p < q && (p < i || (p == i && q < j + 1)) then PairCount(cross, racks[p], racks[q]) else 0
    {
      assert Count(pairs, racks[p].switch, racks[q].switch) ==
             if p < q && (p < i || (p == i && q < j)) then PairCount(cross, racks[p], racks[q]) else 0;
    }
    forall s, d
      ensures Count(pairs', s, d) == Count(pairs', d, s)
    {
      assert Count(pairs, s, d) == Count(pairs, d, s);
    }
  }

  ghost predicate WithinCapacity(racks: seq<Rack>, cross: nat) {
    forall p, q :: 0 <= p < q < |racks| ==> Fits(cross, racks[p], racks[q])
  }

  lemma RowExtends(racks: seq<Rack>, cross: nat, i: nat, j: nat, base: Relation)
    requires NonEmpty(racks) && i < j < |racks|
    ensures base + BothWays(RowPairs(racks, cross, i, j + 1)) ==
            base + BothWays(RowPairs(racks, cross, i, j))
            + BothWays(Replicas(racks[i].members, racks[j].members, i + j, PairCount(cross, racks[i], racks[j])))
  {
    BothWaysOnto(base, RowPairs(racks, cross, i, j),
                 Replicas(racks[i].members, racks[j].members, i + j, PairCount(cross, racks[i], racks[j])));
  }

  ghost predicate RowState(racks: seq<Rack>, cross: nat, i: nat, j: nat, base: Relation, peers: PeerMap, pairs: Tally)
    requires NonEmpty(racks) && i < |racks| && j <= |racks|
  {
    && Rostered(racks, peers)
    && Holds(peers, base + BothWays(RowPairs(racks, cross, i, j)))
    && PairsUpTo(racks, cross, i, j, pairs)
  }

  ghost predicate DistinctSwitches(racks: seq<Rack>) {
    forall p, q :: 0 <= p < q < |racks| ==> racks[p].switch != racks[q].switch
  }

  /** One combination of two racks. */
  method MatchTwo(racks: seq<Rack>, cross: nat, i: nat, j: nat, ghost base: Relation, before: PeerMap, tally: Tally)
    returns (peers: PeerMap, pairs: Tally)
    requires NonEmpty(racks) && DistinctSwitches(racks) && i < j < |racks|
    requires RowState(racks, cross, i, j, base, before, tally)
    ensures peers.Keys == before.Keys && RowState(racks, cross, i, j + 1, base, peers, pairs)
  {
    var a, b := racks[i], racks[j];
    var count := PairCount(cross, a, b);
    peers := AddReplicas(before, base + BothWays(RowPairs(racks, cross, i, j)), a.members, b.members, i + j, count);
    RowExtends(racks, cross, i, j, base);
    SetPair(racks, cross, i, j, tally);
    pairs := tally[(a.switch, b.switch) := count];
    pairs := pairs[(b.switch, a.switch) := count];
  }

  /** No combination before `(i, j)` exceeds its matching capacity. */
  ghost predicate CapacityUpTo(racks: seq<Rack>, cross: nat, i: nat, j: nat) {
    forall p, q :: 0 <= p < q < |racks| && (p < i || (p == i && q < j)) ==> Fits(cross, racks[p], racks[q])
  }

  /** A set policy asks for no more pairs than one of the two racks has members. */
  ghost predicate Fits(cross: nat, a: Rack, b: Rack) {
    cross <= |a.members| || cross <= |b.members|
  }

  /** The combinations of one rack with the racks after it. */
  method MatchRow(racks: seq<Rack>, cross: nat, i: nat, ghost base: Relation, before: PeerMap, tally: Tally)
    returns (failed: bool, right: nat, peers: PeerMap, pairs: Tally)
    requires NonEmpty(racks) && DistinctSwitches(racks) && i < |racks|
    requires RowState(racks, cross, i, i + 1, base, before, tally) && CapacityUpTo(racks, cross, i, 0)
    ensures failed ==> i < right < |racks| && !Fits(cross, racks[i], racks[right])
    ensures !failed ==> CapacityUpTo(racks, cross, i, |racks|)
    ensures !failed ==> peers.Keys == before.Keys && RowState(racks, cross, i, |racks|, base, peers, pairs)
  {
    failed, right, peers, pairs := false, 0, before, tally;
    for j := i + 1 to |racks|
      invariant peers.Keys == before.Keys && RowState(racks, cross, i, j, base, peers, pairs)
      invariant CapacityUpTo(racks, cross, i, j)
    {
      if PairCount(cross, racks[i], racks[j]) > Capacity(racks[i], racks[j]) {
        failed, right := true, j;
        return;
      }
      peers, pairs := MatchTwo(racks, cross, i, j, base, peers, pairs);
      OneMoreFits(racks, cross, i, j);
    }
  }

  lemma OneMoreFits(racks: seq<Rack>, cross: nat, i: nat, j: nat)
    requires i < j < |racks| && CapacityUpTo(racks, cross, i, j) && Fits(cross, racks[i], racks[j])
    ensures CapacityUpTo(racks, cross, i, j + 1)
  {
  }

  ghost predicate RacksState(racks: seq<Rack>, cross: nat, i: nat, base: Relation, peers: PeerMap, pairs: Tally)
    requires NonEmpty(racks) && i <= |racks|
  {
    && Rostered(racks, peers)
    && Holds(peers, base + BothWays(CrossPairs(racks, cross, i)))
    && PairsUpTo(racks, cross, i, 0, pairs)
  }

  lemma EnterRow(racks: seq<Rack>, cross: nat, i: nat, base: Relation, peers: PeerMap, pairs: Tally)
    requires NonEmpty(racks) && i < |racks| && RacksState(racks, cross, i, base, peers, pairs)
    ensures RowState(racks, cross, i, i + 1, base + BothWays(CrossPairs(racks, cross, i)), peers, pairs)
  {
    var now := base + BothWays(CrossPairs(racks, cross, i));
    assert now + BothWays({}) == now;
  }

  lemma LeaveRow(racks: seq<Rack>, cross: nat, i: nat, base: Relation, peers: PeerMap, pairs: Tally)
    requires NonEmpty(racks) && i < |racks|
    requires RowState(racks, cross, i, |racks|, base + BothWays(CrossPairs(racks, cross, i)), peers, pairs)
    ensures RacksState(racks, cross, i + 1, base, peers, pairs)
  {
    BothWaysOnto(base, CrossPairs(racks, cross, i), RowPairs(racks, cross, i, |racks|));
  }

  /** The loop over the unordered pairs of racks. */
  method MatchRacks(racks: seq<Rack>, cross: nat, before: PeerMap, ghost base: Relation)
    returns (o: MatchOutcome)
    requires NonEmpty(racks) && DistinctSwitches(racks) && Rostered(racks, before) && Holds(before, base)
    ensures !o.Isolated?
    ensures o.Matched? <==> WithinCapacity(racks, cross)
    ensures o.Matched? ==> o.peers.Keys == before.Keys && RacksState(racks, cross, |racks|, base, o.peers, o.pairs)
  {
    var peers, pairs: Tally := before, map[];
    assert base + BothWays({}) == base;
    for i := 0 to |racks|
      invariant peers.Keys == before.Keys && RacksState(racks, cross, i, base, peers, pairs)
      invariant CapacityUpTo(racks, cross, i, 0)
    {
      EnterRow(racks, cross, i, base, peers, pairs);
      var failed, right, peers', pairs' :=
        MatchRow(racks, cross, i, base + BothWays(CrossPairs(racks, cross, i)), peers, pairs);
      if failed {
        return OverCapacity(racks[i].switch, racks[right].switch);
      }
      LeaveRow(racks, cross, i, base, peers', pairs');
      peers, pairs := peers', pairs';
    }
    o := Matched(peers, pairs);
  }

  /** One empty peer set per client name. */
  function NoPeers(clients: seq<Client>): (peers: PeerMap)
    ensures forall x :: x in peers <==> exists c :: c in clients && c.name == x
  {
    map c | c in clients :: c.name := {}
  }

  lemma StartsRostered(clients: seq<Client>, racks: seq<Rack>)
    requires Partition(clients, racks)
    ensures Rostered(racks, NoPeers(clients)) && NonEmpty(racks)
    ensures Holds(NoPeers(clients), {})
  {
    forall i, x | 0 <= i < |racks| && x in racks[i].members
      ensures x in NoPeers(clients)
    {
      MembersAttached(clients, racks[i].switch, x);
    }
  }

  ghost predicate HasPeers(peers: PeerMap, x: Name) {
    x in peers && peers[x] != {}
  }

  /** Lines 40-58: rack mates, replica pairs between racks, and the isolation check. */
  method MatchPeers(clients: seq<Client>, racks: seq<Rack>, cross: nat) returns (o: MatchOutcome)
    requires Partition(clients, racks)
    ensures o.OverCapacity? <==> !WithinCapacity(racks, cross)
    ensures o.Isolated? ==> o.client in NoPeers(clients) && forall y :: (o.client, y) !in PeerRelation(racks, cross)
    ensures DistinctClients(clients) && |clients| >= 2 ==> !o.Isolated?
    ensures o.Matched? ==>
              && o.peers.Keys == NoPeers(clients).Keys
              && Holds(o.peers, PeerRelation(racks, cross))
              && (forall x {:trigger HasPeers(o.peers, x)} :: x in o.peers ==> HasPeers(o.peers, x))
              && PairsUpTo(racks, cross, |racks|, 0, o.pairs)
    ensures o.Matched? && DistinctClients(clients) ==>
              forall i, j {:trigger CrossMatched(racks, cross, i, j, o.peers, o.pairs)} ::
                0 <= i < j < |racks| ==> CrossMatched(racks, cross, i, j, o.peers, o.pairs)
  {
    var peers := NoPeers(clients);
    StartsRostered(clients, racks);
    for n := 0 to |racks|
      invariant peers.Keys == NoPeers(clients).Keys && Holds(peers, RackPairs(racks, n))
    {
      peers := AddMates(peers, RackPairs(racks, n), racks[n].members);
    }
    o := MatchRacks(racks, cross, peers, RackPairs(racks, |racks|));
    if o.Matched? {
      var isolated, client := FindIsolated(clients, o.peers);
      if isolated {
        forall y
          ensures (client, y) !in PeerRelation(racks, cross)
        {
          assert !PeerOf(o.peers, client, y);
        }
        if DistinctClients(clients) && |clients| >= 2 {
          EveryClientHasPeer(clients, racks, cross, client);
        }
        o := Isolated(client);
      } else if DistinctClients(clients) {
        AllCrossMatched(clients, racks, cross, o.peers, o.pairs);
      }
    }
  }

  /** The search for a client without peers. */
  method FindIsolated(clients: seq<Client>, peers: PeerMap) returns (found: bool, client: Name)
    requires peers.Keys == NoPeers(clients).Keys
    ensures found ==> client in peers && peers[client] == {}
    ensures !found ==> forall x {:trigger HasPeers(peers, x)} :: x in peers ==> HasPeers(peers, x)
  {
    found, client := false, "";
    for n := 0 to |clients|
      invariant forall k :: 0 <= k < n ==> clients[k].name in peers && peers[clients[k].name] != {}
    {
      assert clients[n] in clients;
      assert clients[n].name in NoPeers(clients);
      if peers[clients[n].name] == {} {
        return true, clients[n].name;
      }
    }
    forall x | x in peers
      ensures HasPeers(peers, x)
    {
      assert x in NoPeers(clients);
    }
  }

  // ---------------------------------------------------------------- what the relation is

  lemma {:induction false} RackPairMember(racks: seq<Rack>, n: nat, p: (Name, Name))
    requires n <= |racks| && p in RackPairs(racks, n)
    ensures exists i :: 0 <= i < n && p in MatePairs(racks[i].members)
  {
    if p !in MatePairs(racks[n - 1].members) {
      RackPairMember(racks, n - 1, p);
    }
  }

  lemma {:induction false} RackPairsContain(racks: seq<Rack>, n: nat, i: nat, p: (Name, Name))
    requires i < n <= |racks| && p in MatePairs(racks[i].members)
    ensures p in RackPairs(racks, n)
  {
    if i < n - 1 {
      RackPairsContain(racks, n - 1, i, p);
    }
  }

  ghost predicate Between(racks: seq<Rack>, cross: nat, i: nat, j: nat, p: (Name, Name))
    requires NonEmpty(racks)
  {
    i < j < |racks| && p in Replicas(racks[i].members, racks[j].members, i + j, PairCount(cross, racks[i], racks[j]))
  }

  lemma BetweenMember(racks: seq<Rack>, cross: nat, i: nat, j: nat, p: (Name, Name))
    requires NonEmpty(racks) && Between(racks, cross, i, j, p)
    ensures i < j < |racks| && p.0 in racks[i].members && p.1 in racks[j].members
  {
    ReplicaMember(racks[i].members, racks[j].members, i + j, PairCount(cross, racks[i], racks[j]), p);
  }

  lemma {:induction false} RowMember(racks: seq<Rack>, cross: nat, i: nat, j: nat, p: (Name, Name))
    requires NonEmpty(racks) && i < |racks| && j <= |racks|
    ensures p in RowPairs(racks, cross, i, j) <==> exists q: nat :: q < j && Between(racks, cross, i, q, p)
  {
    if j > i + 1 {
      RowMember(racks, cross, i, j - 1, p);
      assert Between(racks, cross, i, j - 1, p) <==>
             p in Replicas(racks[i].members, racks[j - 1].members, i + j - 1, PairCount(cross, racks[i], racks[j - 1]));
    }
  }

  lemma {:induction false} CrossMember(racks: seq<Rack>, cross: nat, n: nat, p: (Name, Name))
    requires NonEmpty(racks) && n <= |racks|
    ensures p in CrossPairs(racks, cross, n) <==> exists i: nat, j: nat :: i < n && Between(racks, cross, i, j, p)
  {
    if n > 0 {
      CrossMember(racks, cross, n - 1, p);
      RowMember(racks, cross, n - 1, |racks|, p);
    }
  }

  /** Peering is symmetric. */
  lemma PeersSymmetric(racks: seq<Rack>, cross: nat, x: Name, y: Name)
    requires NonEmpty(racks) && (x, y) in PeerRelation(racks, cross)
    ensures (y, x) in PeerRelation(racks, cross)
  {
    if (x, y) in RackPairs(racks, |racks|) {
      RackPairMember(racks, |racks|, (x, y));
      var i :| 0 <= i < |racks| && (x, y) in MatePairs(racks[i].members);
      RackPairsContain(racks, |racks|, i, (y, x));
    }
  }

  lemma {:induction false} MembersDistinct(clients: seq<Client>, switch: Name)
    requires DistinctClients(clients)
    ensures NoDup(Members(clients, switch))
  {
    if clients != [] {
      var front, last := clients[..|clients| - 1], clients[|clients| - 1];
      MembersDistinct(front, switch);
      MembersAttached(front, switch, last.name);
    }
  }

  /** A client belongs to one rack only. */
  lemma OneRack(clients: seq<Client>, racks: seq<Rack>, i: nat, j: nat, x: Name)
    requires DistinctClients(clients) && Partition(clients, racks) && i < |racks| && j < |racks|
    requires x in racks[i].members && x in racks[j].members
    ensures i == j
  {
    MembersAttached(clients, racks[i].switch, x);
    MembersAttached(clients, racks[j].switch, x);
    var p :| 0 <= p < |clients| && clients[p] == Client(x, racks[i].switch);
    var q :| 0 <= q < |clients| && clients[q] == Client(x, racks[j].switch);
    assert p == q;
  }

  /** Racks as the matching sees them: non-empty, duplicate-free and pairwise disjoint. */
  ghost predicate Proper(racks: seq<Rack>) {
    && NonEmpty(racks)
    && (forall i :: 0 <= i < |racks| ==> NoDup(racks[i].members))
    && (forall i, j, x :: 0 <= i < |racks| && 0 <= j < |racks| && x in racks[i].members && x in racks[j].members ==> i == j)
  }

  lemma PartitionIsProper(clients: seq<Client>, racks: seq<Rack>)
    requires DistinctClients(clients) && Partition(clients, racks)
    ensures Proper(racks)
  {
    forall i | 0 <= i < |racks|
      ensures NoDup(racks[i].members)
    {
      MembersDistinct(clients, racks[i].switch);
    }
    forall i, j, x | 0 <= i < |racks| && 0 <= j < |racks| && x in racks[i].members && x in racks[j].members
      ensures i == j
    {
      OneRack(clients, racks, i, j, x);
    }
  }

  /** No client probes itself. */
  lemma PeersIrreflexive(racks: seq<Rack>, cross: nat, x: Name)
    requires Proper(racks)
    ensures (x, x) !in PeerRelation(racks, cross)
  {
    if (x, x) in RackPairs(racks, |racks|) {
      RackPairMember(racks, |racks|, (x, x));
      assert false;
    }
    if (x, x) in CrossPairs(racks, cross, |racks|) {
      CrossMember(racks, cross, |racks|, (x, x));
      var i: nat, j: nat :| Between(racks, cross, i, j, (x, x));
      BetweenMember(racks, cross, i, j, (x, x));
      assert false;
    }
  }

  // ---------------------------------------------------------------- nobody is isolated

  lemma {:induction false} ReplicasContain(a: seq<Name>, b: seq<Name>, offset: nat, n: nat, k: nat)
    requires a != [] && b != [] && offset <= k < offset + n
    ensures Replica(a, b, k) in Replicas(a, b, offset, n)
  {
    if k < offset + n - 1 {
      ReplicasContain(a, b, offset, n - 1, k);
    }
  }

  /** Two racks share at least one pair, so the only member of a rack is in it. */
  lemma LoneMember(racks: seq<Rack>, cross: nat, i: nat, j: nat, x: Name)
    requires NonEmpty(racks) && i < |racks| && j < |racks| && i != j && racks[i].members == [x]
    ensures exists y :: (x, y) in PeerRelation(racks, cross)
  {
    var lo, hi := Min(i, j), i + j - Min(i, j);
    var a, b := racks[lo].members, racks[hi].members;
    var p := Replica(a, b, lo + hi);
    ReplicasContain(a, b, lo + hi, PairCount(cross, racks[lo], racks[hi]), lo + hi);
    assert Between(racks, cross, lo, hi, p);
    CrossMember(racks, cross, |racks|, p);
    assert p in BothWays(CrossPairs(racks, cross, |racks|)) && (p.1, p.0) in BothWays(CrossPairs(racks, cross, |racks|));
    assert x == if lo == i then p.0 else p.1;
  }

  lemma RackMate(racks: seq<Rack>, cross: nat, i: nat, x: Name)
    requires NonEmpty(racks) && i < |racks| && x in racks[i].members && |racks[i].members| >= 2
    ensures exists y :: (x, y) in PeerRelation(racks, cross)
  {
    var m := racks[i].members;
    var k :| 0 <= k < |m| && m[k] == x;
    var l := if k == 0 then 1 else 0;
    assert (m[k], m[l]) in MatePairs(m);
    RackPairsContain(racks, |racks|, i, (m[k], m[l]));
  }

  /** With two clients or more, every client has a peer: the isolation check never fires. */
  lemma EveryClientHasPeer(clients: seq<Client>, racks: seq<Rack>, cross: nat, x: Name)
    requires DistinctClients(clients) && |clients| >= 2 && Partition(clients, racks) && x in NoPeers(clients)
    ensures NonEmpty(racks) && exists y :: (x, y) in PeerRelation(racks, cross)
  {
    var c :| c in clients && c.name == x;
    var d := if clients[0].name == x then clients[1] else clients[0];
    var i := RackOf(clients, racks, c);
    var j := RackOf(clients, racks, d);
    if |racks[i].members| >= 2 {
      RackMate(racks, cross, i, x);
    } else {
      assert racks[i].members == [x];
      LoneMember(racks, cross, i, j, x);
    }
  }

  lemma RackOf(clients: seq<Client>, racks: seq<Rack>, c: Client) returns (i: nat)
    requires Partition(clients, racks) && c in clients
    ensures i < |racks| && c.name in racks[i].members
  {
    assert Racked(racks, c);
    i :| 0 <= i < |racks| && racks[i].switch == c.rack;
    MembersAttached(clients, c.rack, c.name);
    assert c == Client(c.name, c.rack);
  }

  // ---------------------------------------------------------------- pair counts

  /** The peer pairs leading from rack `i` to rack `j`. */
  ghost function PairsBetween(racks: seq<Rack>, cross: nat, i: nat, j: nat): Relation
    requires NonEmpty(racks) && i < |racks| && j < |racks|
  {
    set p | p in PeerRelation(racks, cross) && p.0 in racks[i].members && p.1 in racks[j].members
  }

  /** The counter entry of two racks is the number of peer pairs between them, either way. */
  lemma PairCountExact(racks: seq<Rack>, cross: nat, i: nat, j: nat)
    requires Proper(racks) && i < j < |racks| && Fits(cross, racks[i], racks[j])
    ensures |PairsBetween(racks, cross, i, j)| == PairCount(cross, racks[i], racks[j])
    ensures |PairsBetween(racks, cross, j, i)| == PairCount(cross, racks[i], racks[j])
  {
    PairsForward(racks, cross, i, j);
    PairsBetweenFlip(racks, cross, i, j);
    FlipCount(PairsBetween(racks, cross, i, j));
  }

  lemma PairsForward(racks: seq<Rack>, cross: nat, i: nat, j: nat)
    requires Proper(racks) && i < j < |racks| && Fits(cross, racks[i], racks[j])
    ensures |PairsBetween(racks, cross, i, j)| == PairCount(cross, racks[i], racks[j])
  {
    var n := PairCount(cross, racks[i], racks[j]);
    var replicas := Replicas(racks[i].members, racks[j].members, i + j, n);
    assert |replicas| == n by {
      FittingReplicas(cross, racks[i], racks[j], i + j);
    }
    assert PairsBetween(racks, cross, i, j) == replicas by {
      PairsAreReplicas(racks, cross, i, j);
    }
  }

  lemma FittingReplicas(cross: nat, a: Rack, b: Rack, offset: nat)
    requires a.members != [] && b.members != [] && NoDup(a.members) && NoDup(b.members) && Fits(cross, a, b)
    ensures |Replicas(a.members, b.members, offset, PairCount(cross, a, b))| == PairCount(cross, a, b)
  {
    ReplicaCount(a.members, b.members, offset, PairCount(cross, a, b));
  }

  lemma PairsAreReplicas(racks: seq<Rack>, cross: nat, i: nat, j: nat)
    requires Proper(racks) && i < j < |racks|
    ensures PairsBetween(racks, cross, i, j) ==
            Replicas(racks[i].members, racks[j].members, i + j, PairCount(cross, racks[i], racks[j]))
  {
    forall p
      ensures p in PairsBetween(racks, cross, i, j) <==> Between(racks, cross, i, j, p)
    {
      ForwardPairs(racks, cross, i, j, p);
    }
  }

  lemma PairsBetweenFlip(racks: seq<Rack>, cross: nat, i: nat, j: nat)
    requires NonEmpty(racks) && i < |racks| && j < |racks|
    ensures PairsBetween(racks, cross, j, i) == Flip(PairsBetween(racks, cross, i, j))
  {
    forall p
      ensures p in PairsBetween(racks, cross, j, i) <==> p in Flip(PairsBetween(racks, cross, i, j))
    {
      FlipMember(PairsBetween(racks, cross, i, j), p);
      SymmetricMember(racks, cross, p);
    }
  }

  lemma SymmetricMember(racks: seq<Rack>, cross: nat, p: (Name, Name))
    requires NonEmpty(racks)
    ensures p in PeerRelation(racks, cross) <==> (p.1, p.0) in PeerRelation(racks, cross)
  {
    if p in PeerRelation(racks, cross) {
      PeersSymmetric(racks, cross, p.0, p.1);
    }
    if (p.1, p.0) in PeerRelation(racks, cross) {
      PeersSymmetric(racks, cross, p.1, p.0);
    }
  }

  lemma FlipMember(r: Relation, p: (Name, Name))
    ensures p in Flip(r) <==> (p.1, p.0) in r
  {
  }

  lemma FlipMore(r: Relation, p: (Name, Name))
    requires p !in r
    ensures Flip(r + {p}) == Flip(r) + {(p.1, p.0)} && (p.1, p.0) !in Flip(r)
  {
    FlipMember(r, (p.1, p.0));
  }

  lemma {:induction false} FlipCount(r: Relation)
    ensures |Flip(r)| == |r|
  {
    if r != {} {
      var p :| p in r;
      var rest := r - {p};
      FlipCount(rest);
      FlipMore(rest, p);
      assert r == rest + {p};
    }
  }

  lemma ForwardPairs(racks: seq<Rack>, cross: nat, i: nat, j: nat, p: (Name, Name))
    requires Proper(racks) && i < j < |racks|
    ensures p in PairsBetween(racks, cross, i, j) <==> Between(racks, cross, i, j, p)
  {
    if Between(racks, cross, i, j, p) {
      CrossMember(racks, cross, |racks|, p);
      BetweenMember(racks, cross, i, j, p);
    }
    if p in PairsBetween(racks, cross, i, j) {
      if p in RackPairs(racks, |racks|) {
        RackPairMember(racks, |racks|, p);
        assert false;
      } else if p in CrossPairs(racks, cross, |racks|) {
        OnlyBetween(racks, cross, i, j, p);
      } else {
        FlipMember(CrossPairs(racks, cross, |racks|), p);
        OnlyBetween(racks, cross, j, i, (p.1, p.0));
        assert false;
      }
    }
  }

  lemma OnlyBetween(racks: seq<Rack>, cross: nat, i: nat, j: nat, p: (Name, Name))
    requires Proper(racks) && i < |racks| && j < |racks|
    requires p in CrossPairs(racks, cross, |racks|) && p.0 in racks[i].members && p.1 in racks[j].members
    ensures Between(racks, cross, i, j, p)
  {
    CrossMember(racks, cross, |racks|, p);
    var k: nat, l: nat :| Between(racks, cross, k, l, p);
    BetweenMember(racks, cross, k, l, p);
    assert k == i && l == j;
  }

  // ---------------------------------------------------------------- what two racks are given

  /** The pairs two racks owe each other: what the policy asks for, or the larger rack size. */
  ghost function Owed(cross: nat, a: nat, b: nat): nat {
    if cross > 0 then cross else if a >= b then a else b
  }

  /** `x` and `y` stand at the same shift of two lists, modulo their lengths. */
  ghost predicate Aligned(a: seq<Name>, b: seq<Name>, i: nat, j: nat, k: nat, x: Name, y: Name)
    requires a != [] && b != []
  {
    x == a[(i + j + k) % |a|] && y == b[(i + j + k) % |b|]
  }

  /** The pairs with both ends in two lists that `peers` stores. */
  ghost function StoredPairs(peers: PeerMap, a: seq<Name>, b: seq<Name>): Relation {
    set x, y | x in a && y in b && PeerOf(peers, x, y) :: (x, y)
  }

  /** Racks `i` and `j` are given the pairs at equal shift `i + j + k` of both lists, modulo
      their lengths, for as many `k` as they owe each other; these are pairwise different, and
      the counter says how many there are, in both directions. */
  ghost predicate CrossMatched(racks: seq<Rack>, cross: nat, i: nat, j: nat, peers: PeerMap, pairs: Tally)
    requires i < |racks| && j < |racks|
  {
    var a, b := racks[i].members, racks[j].members;
    && a != [] && b != []
    && (forall x, y {:trigger PeerOf(peers, x, y)} :: x in a && y in b ==>
          (PeerOf(peers, x, y) <==>
             exists k: nat :: k < Owed(cross, |a|, |b|) && Aligned(a, b, i, j, k, x, y)))
    && (forall x, y {:trigger PeerOf(peers, x, y)} :: x in a && y in b && PeerOf(peers, x, y) ==> PeerOf(peers, y, x))
    && |StoredPairs(peers, a, b)| == Owed(cross, |a|, |b|)
    && Count(pairs, racks[i].switch, racks[j].switch) == Owed(cross, |a|, |b|)
    && Count(pairs, racks[j].switch, racks[i].switch) == Owed(cross, |a|, |b|)
  }

  /** Membership among the replicas, by remainders. */
  lemma ReplicasAre(a: seq<Name>, b: seq<Name>, i: nat, j: nat, n: nat, p: (Name, Name))
    requires a != [] && b != []
    ensures p in Replicas(a, b, i + j, n) <==> exists k: nat :: k < n && Aligned(a, b, i, j, k, p.0, p.1)
  {
    if p in Replicas(a, b, i + j, n) {
      ReplicaMember(a, b, i + j, n, p);
      var l: nat :| i + j <= l < i + j + n && p == Replica(a, b, l);
      ReplicaIs(a, b, l);
      assert Aligned(a, b, i, j, l - i - j, p.0, p.1);
    }
    if k: nat :| k < n && Aligned(a, b, i, j, k, p.0, p.1) {
      ReplicaIs(a, b, i + j + k);
      ReplicasContain(a, b, i + j, n, i + j + k);
    }
  }

  lemma ReplicaIs(a: seq<Name>, b: seq<Name>, n: nat)
    requires a != [] && b != []
    ensures Replica(a, b, n) == (a[n % |a|], b[n % |b|])
  {
    WrapIsModulo(n, |a|);
    WrapIsModulo(n, |b|);
  }

  /** Two racks within capacity: how many pairs lead from one to the other, and which. */
  lemma CrossRackPairs(racks: seq<Rack>, cross: nat, i: nat, j: nat)
    requires Proper(racks) && i < j < |racks|
    requires cross <= |racks[i].members| || cross <= |racks[j].members|
    ensures var a, b := racks[i].members, racks[j].members;
            && a != [] && b != []
            && |PairsBetween(racks, cross, i, j)| == Owed(cross, |a|, |b|)
            && forall p :: p in PairsBetween(racks, cross, i, j) <==>
                           exists k: nat :: k < Owed(cross, |a|, |b|) && Aligned(a, b, i, j, k, p.0, p.1)
  {
    var a, b := racks[i].members, racks[j].members;
    var n := PairCount(cross, racks[i], racks[j]);
    PairsForward(racks, cross, i, j);
    PairsAreReplicas(racks, cross, i, j);
    forall p
      ensures p in Replicas(a, b, i + j, n) <==>
              exists k: nat :: k < n && Aligned(a, b, i, j, k, p.0, p.1)
    {
      ReplicasAre(a, b, i, j, n, p);
    }
  }

  /** Without a policy every member of both racks is in a pair between them. */
  lemma NobodyLeftOut(racks: seq<Rack>, i: nat, j: nat, x: Name)
    requires Proper(racks) && i < j < |racks|
    ensures x in racks[i].members ==> exists y :: (x, y) in PairsBetween(racks, 0, i, j)
    ensures x in racks[j].members ==> exists y :: (y, x) in PairsBetween(racks, 0, i, j)
  {
    var a, b := racks[i].members, racks[j].members;
    PairsAreReplicas(racks, 0, i, j);
    var n := PairCount(0, racks[i], racks[j]);
    if x in a {
      var q :| 0 <= q < |a| && a[q] == x;
      var l := WrapReaches(i + j, q, |a|);
      ReplicasContain(a, b, i + j, n, l);
    }
    if x in b {
      var q :| 0 <= q < |b| && b[q] == x;
      var l := WrapReaches(i + j, q, |b|);
      ReplicasContain(a, b, i + j, n, l);
    }
  }

  /** Two clients of one rack are peers unless they are the same. */
  lemma MatesArePeers(racks: seq<Rack>, cross: nat, i: nat, x: Name, y: Name)
    requires Proper(racks) && i < |racks| && x in racks[i].members && y in racks[i].members
    ensures (x, y) in PeerRelation(racks, cross) <==> x != y
  {
    if x != y {
      var m := racks[i].members;
      var k :| 0 <= k < |m| && m[k] == x;
      var l :| 0 <= l < |m| && m[l] == y;
      assert (m[k], m[l]) in MatePairs(m);
      RackPairsContain(racks, |racks|, i, (x, y));
    } else {
      PeersIrreflexive(racks, cross, x);
    }
  }

  lemma StoredAreBetween(racks: seq<Rack>, cross: nat, i: nat, j: nat, peers: PeerMap)
    requires NonEmpty(racks) && i < |racks| && j < |racks| && Holds(peers, PeerRelation(racks, cross))
    ensures StoredPairs(peers, racks[i].members, racks[j].members) == PairsBetween(racks, cross, i, j)
  {
    forall p: (Name, Name)
      ensures p in StoredPairs(peers, racks[i].members, racks[j].members) <==> p in PairsBetween(racks, cross, i, j)
    {
      assert PeerOf(peers, p.0, p.1) <==> (p.0, p.1) in PeerRelation(racks, cross);
    }
  }

  lemma PairEntry(racks: seq<Rack>, cross: nat, pairs: Tally, i: nat, j: nat)
    requires PairsUpTo(racks, cross, |racks|, 0, pairs) && i < j < |racks|
    ensures Count(pairs, racks[i].switch, racks[j].switch) == PairCount(cross, racks[i], racks[j])
    ensures Count(pairs, racks[j].switch, racks[i].switch) == PairCount(cross, racks[i], racks[j])
  {
    assert Count(pairs, racks[i].switch, racks[j].switch) == Count(pairs, racks[j].switch, racks[i].switch);
  }

  lemma CrossIsMatched(racks: seq<Rack>, cross: nat, i: nat, j: nat, peers: PeerMap, pairs: Tally)
    requires Proper(racks) && i < j < |racks| && Fits(cross, racks[i], racks[j])
    requires Holds(peers, PeerRelation(racks, cross)) && PairsUpTo(racks, cross, |racks|, 0, pairs)
    ensures CrossMatched(racks, cross, i, j, peers, pairs)
  {
    var a, b := racks[i].members, racks[j].members;
    CrossRackPairs(racks, cross, i, j);
    StoredAreBetween(racks, cross, i, j, peers);
    PairEntry(racks, cross, pairs, i, j);
    forall x, y | x in a && y in b
      ensures PeerOf(peers, x, y) <==>
              exists k: nat :: k < Owed(cross, |a|, |b|) && Aligned(a, b, i, j, k, x, y)
      ensures PeerOf(peers, x, y) ==> PeerOf(peers, y, x)
    {
      var p := (x, y);
      assert PeerOf(peers, x, y) <==> p in PairsBetween(racks, cross, i, j);
      SymmetricMember(racks, cross, p);
    }
  }

  lemma AllCrossMatched(clients: seq<Client>, racks: seq<Rack>, cross: nat, peers: PeerMap, pairs: Tally)
    requires DistinctClients(clients) && Partition(clients, racks) && WithinCapacity(racks, cross)
    requires NonEmpty(racks) && Holds(peers, PeerRelation(racks, cross)) && PairsUpTo(racks, cross, |racks|, 0, pairs)
    ensures forall i, j {:trigger CrossMatched(racks, cross, i, j, peers, pairs)} ::
              0 <= i < j < |racks| ==> CrossMatched(racks, cross, i, j, peers, pairs)
  {
    PartitionIsProper(clients, racks);
    forall i, j | 0 <= i < j < |racks|
      ensures CrossMatched(racks, cross, i, j, peers, pairs)
    {
      CrossIsMatched(racks, cross, i, j, peers, pairs);
    }
  }
}
