/** `compile_pingmesh_plan` as a whole (netopsbench/platform/pingmesh/planner.py:32-117), the
    agent configuration derived from it (netopsbench/platform/client_agent/config.py:16-54),
    and the proof that the native agent accepts what is compiled. */
module PlanCompiler {
  import opened Options
  import opened FabricGraph
  import opened LinkWitnesses
  import opened PeerMatching
  import opened CoverageReport
  import opened Counting
  import opened ProbePlan
  import opened AgentValidation
  import opened FrameSchedule

  /** Zero stands for an unset `cross_rack_pairs` or `destination_batch_size`. */
  datatype Policy = Policy(crossRackPairs: nat, destinationBatchSize: nat, portPool: nat, portsPerCycle: nat,
                           cycleInterval: nat, dfPayload: nat)

  datatype Manifest = Manifest(switches: set<Name>, links: seq<Link>, clients: seq<Client>, policy: Policy,
                               redundantScale: bool)

  /** What the persisted models already enforce on a manifest. */
  ghost predicate ValidManifest(m: Manifest) {
    && ValidRoster(m.switches, m.clients)
    && m.policy.portPool >= 1 && m.policy.portsPerCycle >= 1 && m.policy.cycleInterval >= 1 && m.policy.dfPayload >= 1
  }

  datatype CompileError =
    | TooFewClients | CapacityExceeded | ClientIsolated | PortsPerCycleTooLarge | PortPoolTooLarge
    | RacksDisconnected | SwitchUncovered | TooFewWitnesses

  datatype Compiled = Failed(error: CompileError) | Plan(settings: Settings, plans: seq<ClientPlan>, report: Report)

  const FIRST_PORT := 33000

  // ---------------------------------------------------------------- targets in roster order

  /** The peers in roster order: the roster filtered by membership. */
  function TargetsOf(clients: seq<Client>, peers: set<Name>): seq<Name> {
    if clients == [] then [] else
      var front, last := clients[..|clients| - 1], clients[|clients| - 1];
      TargetsOf(front, peers) + if last.name in peers then [last.name] else []
  }

  ghost predicate IsClient(clients: seq<Client>, x: Name) {
    exists c :: c in clients && c.name == x
  }

  lemma {:induction false} TargetsMember(clients: seq<Client>, peers: set<Name>, x: Name)
    ensures x in TargetsOf(clients, peers) <==> x in peers && IsClient(clients, x)
  {
    if clients != [] {
      var front, last := clients[..|clients| - 1], clients[|clients| - 1];
      TargetsMember(front, peers, x);
      assert clients == front + [last];
      assert IsClient(clients, x) <==> IsClient(front, x) || last.name == x;
    }
  }

  lemma {:induction false} TargetsDistinct(clients: seq<Client>, peers: set<Name>)
    requires DistinctClients(clients)
    ensures NoDup(TargetsOf(clients, peers))
  {
    if clients != [] {
      var front, last := clients[..|clients| - 1], clients[|clients| - 1];
      TargetsDistinct(front, peers);
      TargetsMember(front, peers, last.name);
    }
  }

  /** Targets come in roster order. */
  lemma {:induction false} TargetsInOrder(clients: seq<Client>, peers: set<Name>, i: nat, j: nat) returns (x: nat, y: nat)
    requires i < j < |clients| && clients[i].name in peers && clients[j].name in peers
    ensures var t := TargetsOf(clients, peers); x < y < |t| && t[x] == clients[i].name && t[y] == clients[j].name
  {
    var front := clients[..|clients| - 1];
    if j < |front| {
      x, y := TargetsInOrder(front, peers, i, j);
    } else {
      assert clients[i] in front;
      assert IsClient(front, clients[i].name);
      TargetsMember(front, peers, clients[i].name);
      x :| 0 <= x < |TargetsOf(front, peers)| && TargetsOf(front, peers)[x] == clients[i].name;
      y := |TargetsOf(front, peers)|;
    }
  }

  function Names(clients: seq<Client>): (names: seq<Name>)
    ensures |names| == |clients| && forall i :: 0 <= i < |clients| ==> names[i] == clients[i].name
  {
    seq(|clients|, i requires 0 <= i < |clients| => clients[i].name)
  }

  lemma NamesMember(clients: seq<Client>, x: Name)
    ensures x in Names(clients) <==> IsClient(clients, x)
  {
    if IsClient(clients, x) {
      var c :| c in clients && c.name == x;
      var i :| 0 <= i < |clients| && clients[i] == c;
      assert Names(clients)[i] == x;
    }
    if x in Names(clients) {
      var i :| 0 <= i < |clients| && Names(clients)[i] == x;
      assert clients[i] in clients;
    }
  }

  /** The sorted targets of `c` are its peers, once each, all of them other clients. */
  ghost predicate TargetsFit(clients: seq<Client>, c: Client, peers: PeerMap) {
    && c.name in peers
    && var t := TargetsOf(clients, peers[c.name]);
      && t != [] && NoDup(t) && Elems(t) == peers[c.name] && |t| == |peers[c.name]|
      && c.name !in t && Elems(t) <= Elems(Names(clients))
  }

  lemma TargetsAreFit(clients: seq<Client>, c: Client, peers: PeerMap)
    requires DistinctClients(clients) && c.name in peers
    requires peers[c.name] != {} && c.name !in peers[c.name]
    requires forall x :: x in peers[c.name] ==> IsClient(clients, x)
    ensures TargetsFit(clients, c, peers)
  {
    var t := TargetsOf(clients, peers[c.name]);
    TargetsDistinct(clients, peers[c.name]);
    forall x: Name
      ensures x in t <==> x in peers[c.name]
      ensures x in t ==> x in Names(clients)
    {
      TargetsMember(clients, peers[c.name], x);
      NamesMember(clients, x);
    }
    assert Elems(t) == peers[c.name];
    NoDupCard(t);
  }

  // ---------------------------------------------------------------- batch sizes

  /** The largest number of peers of any client. */
  method LargestDegree(clients: seq<Client>, peers: PeerMap) returns (most: nat)
    requires forall i :: 0 <= i < |clients| ==> clients[i].name in peers
    ensures forall i :: 0 <= i < |clients| ==> |peers[clients[i].name]| <= most
    ensures clients != [] ==> exists i :: 0 <= i < |clients| && |peers[clients[i].name]| == most
  {
    most := 0;
    for n := 0 to |clients|
      invariant forall k :: 0 <= k < n ==> |peers[clients[k].name]| <= most
      invariant n > 0 ==> exists k :: 0 <= k < n && |peers[clients[k].name]| == most
      invariant n == 0 ==> most == 0
    {
      var degree := |peers[clients[n].name]|;
      if degree > most || n == 0 {
        most := degree;
      }
    }
  }

  lemma RoundUp(x: nat, size: nat)
    requires size > 0
    ensures (x + size - 1) / size * size >= x
    ensures x > 0 ==> (x + size - 1) / size > 0 && ((x + size - 1) / size - 1) * size < x
  {
    var q := (x + size - 1) / size;
    assert x + size - 1 == q * size + (x + size - 1) % size;
    assert (q - 1) * size == q * size - size;
    if q == 0 {
      assert x + size - 1 < size;
    }
  }

  /** The least number of destination batches that holds every client's targets. */
  method DestinationBatches(clients: seq<Client>, peers: PeerMap, size: nat) returns (batches: nat)
    requires size > 0 && forall i :: 0 <= i < |clients| ==> clients[i].name in peers
    ensures forall i :: 0 <= i < |clients| ==> |peers[clients[i].name]| <= batches * size
    ensures batches > 0 ==> exists i :: 0 <= i < |clients| && (batches - 1) * size < |peers[clients[i].name]|
  {
    batches := 0;
    for n := 0 to |clients|
      invariant forall k :: 0 <= k < n ==> |peers[clients[k].name]| <= batches * size
      invariant batches > 0 ==> exists k :: 0 <= k < n && (batches - 1) * size < |peers[clients[k].name]|
    {
      var degree := |peers[clients[n].name]|;
      var needed := (degree + size - 1) / size;
      RoundUp(degree, size);
      if needed > batches {
        Scale(batches, needed, size);
        batches := needed;
      } else {
        Scale(needed, batches, size);
      }
    }
  }

  lemma Scale(a: nat, b: nat, size: nat)
    requires a <= b
    ensures a * size <= b * size
  {
  }

  // ---------------------------------------------------------------- settings and client plans

  function Max(a: nat, b: nat): nat { if a >= b then a else b }

  /** The pool is the ports from 33000 on, cut into slices of the requested size. */
  ghost predicate PortsLaid(s: Settings, p: Policy) {
    && |s.sourcePorts| == p.portPool && (forall i :: 0 <= i < |s.sourcePorts| ==> s.sourcePorts[i] == 33000 + i)
    && Cut(s.portBatches, p.portPool, p.portsPerCycle)
  }

  /** Lines 63-73 and 98-108. */
  method CompileSettings(p: Policy, size: nat, batches: nat, planId: string) returns (s: Settings)
    requires p.portsPerCycle >= 1 && FIRST_PORT + p.portPool <= RESPONDER_PORT
    ensures s.planId == planId && s.destinationBatchSize == size && s.dfPayloadSize == p.dfPayload
    ensures |s.sourcePorts| == p.portPool && NoDup(s.sourcePorts) && RESPONDER_PORT !in s.sourcePorts
    ensures PortsLaid(s, p)
    ensures Flatten(s.portBatches) == Range(p.portPool)
    ensures forall i :: 0 <= i < |s.portBatches| ==> s.portBatches[i] != []
    ensures p.portPool > 0 ==> s.portBatches != []
    ensures s.cycleIntervalSeconds == p.cycleInterval
    ensures s.coverageEpochCycles == batches * |s.portBatches|
    ensures s.coverageEpochSeconds == s.coverageEpochCycles * s.cycleIntervalSeconds
    ensures s.completeWindowSeconds == s.coverageEpochSeconds + Max(5, 2 * p.cycleInterval)
  {
    var ports := Span(FIRST_PORT, FIRST_PORT + p.portPool);
    var portBatches := PortBatches(p.portPool, p.portsPerCycle);
    var epoch := batches * |portBatches|;
    s := Settings(planId, ports, portBatches, size, p.cycleInterval, epoch, epoch * p.cycleInterval,
                  epoch * p.cycleInterval + Max(5, 2 * p.cycleInterval), p.dfPayload);
  }

  /** The roster configuration handed to every agent. */
  function ConfigOf(clients: seq<Client>, s: Settings, digests: map<Name, string>): AgentConfig {
    AgentConfig(SCHEMA_VERSION, Names(clients), digests, s)
  }

  /** The plan of `client`: its peers in roster order, accepted by the agent whatever digests accompany it. */
  ghost predicate Scheduled(plan: ClientPlan, clients: seq<Client>, client: Client, peers: PeerMap, s: Settings) {
    && client.name in peers
    && plan.name == client.name && plan.targets == TargetsOf(clients, peers[client.name])
    && forall digests :: PlanAccepted(plan, ConfigOf(clients, s, digests), client.name)
  }

  /** Settings whose frames a batch count fits. */
  ghost predicate Emits(s: Settings, batches: nat) {
    && (forall i :: 0 <= i < |s.portBatches| ==> s.portBatches[i] != [])
    && s.coverageEpochCycles == batches * |s.portBatches| && s.cycleIntervalSeconds >= 1
  }

  /** The schedule of one client (lines 76-96); `hash` is the name hash behind the jitter. */
  method CompileClient(clients: seq<Client>, client: Client, peers: PeerMap, s: Settings, batches: nat, hash: Name -> nat)
    returns (plan: ClientPlan)
    requires TargetsFit(clients, client, peers) && Emits(s, batches)
    requires |peers[client.name]| <= batches * s.destinationBatchSize
    ensures Scheduled(plan, clients, client, peers, s)
    ensures FramesLaid(plan, s, batches)
    ensures plan.startupDelayMs == hash(client.name) % (s.cycleIntervalSeconds * 1000)
  {
    var targets := TargetsOf(clients, peers[client.name]);
    var frames := ClientFrames(|targets|, s, batches);
    var jitter := hash(client.name) % (s.cycleIntervalSeconds * 1000);
    plan := ClientPlan(SCHEMA_VERSION, s.planId, client.name, targets, jitter, frames);
    forall digests
      ensures PlanAccepted(plan, ConfigOf(clients, s, digests), client.name)
    {
      HeaderHolds(clients, client, peers, s, digests, plan);
    }
  }

  lemma HeaderHolds(clients: seq<Client>, client: Client, peers: PeerMap, s: Settings, digests: map<Name, string>,
                    plan: ClientPlan)
    requires TargetsFit(clients, client, peers)
    requires plan.schemaVersion == SCHEMA_VERSION && plan.planId == s.planId && plan.name == client.name
    requires plan.targets == TargetsOf(clients, peers[client.name])
    requires |plan.frames| == s.coverageEpochCycles && plan.startupDelayMs < s.cycleIntervalSeconds * 1000
    ensures HeaderAccepted(plan, ConfigOf(clients, s, digests), client.name)
  {
    NoDupCard(plan.targets);
    forall i | 0 <= i < |plan.targets|
      ensures plan.targets[i] != client.name && plan.targets[i] in Names(clients)
    {
      assert plan.targets[i] in Elems(plan.targets);
    }
  }

  /** Every frame is in its place: the port batches in turn, and under each the destination batches. */
  ghost predicate FramesLaid(plan: ClientPlan, s: Settings, batches: nat) {
    && |plan.frames| == |s.portBatches| * batches
    && forall k :: 0 <= k < |plan.frames| ==> Positioned(plan.frames[k], k, batches, s, |plan.targets|)
  }

  /** What one client's schedule needs. */
  ghost predicate Schedulable(clients: seq<Client>, client: Client, peers: PeerMap, s: Settings, batches: nat) {
    TargetsFit(clients, client, peers) && |peers[client.name]| <= batches * s.destinationBatchSize
  }

  ghost predicate AllScheduled(plans: seq<ClientPlan>, n: nat, clients: seq<Client>, peers: PeerMap, s: Settings)
    requires n <= |clients|
  {
    |plans| == n && forall i :: 0 <= i < n ==> Scheduled(plans[i], clients, clients[i], peers, s)
  }

  lemma OneMorePlan(plans: seq<ClientPlan>, plan: ClientPlan, n: nat, clients: seq<Client>, peers: PeerMap, s: Settings)
    requires n < |clients| && AllScheduled(plans, n, clients, peers, s)
    requires Scheduled(plan, clients, clients[n], peers, s)
    ensures AllScheduled(plans + [plan], n + 1, clients, peers, s)
  {
    var more := plans + [plan];
    forall i | 0 <= i < n + 1
      ensures Scheduled(more[i], clients, clients[i], peers, s)
    {
      if i < n {
        assert more[i] == plans[i];
      }
    }
  }

  method CompileClients(clients: seq<Client>, peers: PeerMap, s: Settings, batches: nat, hash: Name -> nat)
    returns (plans: seq<ClientPlan>)
    requires Emits(s, batches)
    requires forall i :: 0 <= i < |clients| ==> Schedulable(clients, clients[i], peers, s, batches)
    ensures AllScheduled(plans, |clients|, clients, peers, s)
    ensures forall i :: 0 <= i < |plans| ==> FramesLaid(plans[i], s, batches)
  {
    plans := [];
    for n := 0 to |clients|
      invariant AllScheduled(plans, n, clients, peers, s)
      invariant forall i :: 0 <= i < |plans| ==> FramesLaid(plans[i], s, batches)
    {
      assert Schedulable(clients, clients[n], peers, s, batches);
      var plan := CompileClient(clients, clients[n], peers, s, batches, hash);
      OneMorePlan(plans, plan, n, clients, peers, s);
      plans := plans + [plan];
    }
  }

  // ---------------------------------------------------------------- the agent accepts the compiled configuration

  ghost predicate PortableNames(clients: seq<Client>) {
    forall c :: c in clients ==> '/' !in c.name && c.name != ".."
  }

  ghost predicate SettingsCompiled(s: Settings, p: Policy) {
    && |s.planId| == 64 && s.dfPayloadSize == p.dfPayload
    && |s.sourcePorts| == p.portPool > 0 && NoDup(s.sourcePorts) && RESPONDER_PORT !in s.sourcePorts
    && Flatten(s.portBatches) == Range(p.portPool) && s.portBatches != []
    && (forall i :: 0 <= i < |s.portBatches| ==> s.portBatches[i] != [])
    && s.cycleIntervalSeconds > 0 && s.coverageEpochCycles > 0 && s.destinationBatchSize > 0
    && s.coverageEpochSeconds == s.coverageEpochCycles * s.cycleIntervalSeconds
    && s.completeWindowSeconds >= s.coverageEpochSeconds
  }

  /** The agent accepts a compiled configuration exactly when the DF payload fits a UDP
      datagram that can hold the probe header and no client name is a path; the compiler
      itself checks neither. */
  lemma ConfigAcceptedIff(clients: seq<Client>, s: Settings, p: Policy, digests: map<Name, string>)
    requires DistinctClients(clients) && |clients| >= 2 && SettingsCompiled(s, p)
    requires digests.Keys == Elems(Names(clients))
    ensures ConfigAccepted(ConfigOf(clients, s, digests)) <==>
            24 <= p.dfPayload <= 65507 && PortableNames(clients)
  {
    var config := ConfigOf(clients, s, digests);
    NoDupCard(config.clients);
    NoDupCard(s.sourcePorts);
    SortAscending(Range(p.portPool));
    if PortableNames(clients) {
      forall i | 0 <= i < |config.clients|
        ensures '/' !in config.clients[i] && config.clients[i] != ".."
      {
        assert clients[i] in clients;
      }
    }
    if RosterAccepted(config) {
      forall c | c in clients
        ensures '/' !in c.name && c.name != ".."
      {
        var i :| 0 <= i < |clients| && clients[i] == c;
        assert config.clients[i] == c.name;
      }
    }
  }

  /** A client as the manifest lists it; an empty address is a missing one. */
  datatype Addressed = Addressed(client: Client, dataIp: string, managementIp: string)

  predicate HasAddresses(c: Addressed) { c.dataIp != "" && c.managementIp != "" && c.client.rack != "" }

  function Roster(clients: seq<Addressed>): (roster: seq<Client>)
    ensures |roster| == |clients| && forall i :: 0 <= i < |clients| ==> roster[i] == clients[i].client
  {
    seq(|clients|, i requires 0 <= i < |clients| => clients[i].client)
  }

  /** `build_client_agent_config`: refused for a client without an address or a switch; what is
      built then passes the agent's validation exactly under the conditions above. */
  method BuildAgentConfig(clients: seq<Addressed>, s: Settings, digests: map<Name, string>, ghost p: Policy)
    returns (c: Option<AgentConfig>)
    ensures c.Some? <==> forall i :: 0 <= i < |clients| ==> HasAddresses(clients[i])
    ensures c.Some? ==> c.value == ConfigOf(Roster(clients), s, digests)
    ensures DistinctClients(Roster(clients)) && |clients| >= 2 && SettingsCompiled(s, p)
            && digests.Keys == Elems(Names(Roster(clients))) ==>
              (c.Some? && ConfigAccepted(c.value) <==>
               && (forall i :: 0 <= i < |clients| ==> HasAddresses(clients[i]))
               && 24 <= p.dfPayload <= 65507 && PortableNames(Roster(clients)))
  {
    for n := 0 to |clients|
      invariant forall i :: 0 <= i < n ==> HasAddresses(clients[i])
    {
      if !HasAddresses(clients[n]) {
        return None;
      }
    }
    var roster := Roster(clients);
    if DistinctClients(roster) && |roster| >= 2 && SettingsCompiled(s, p) && digests.Keys == Elems(Names(roster)) {
      ConfigAcceptedIff(roster, s, p, digests);
    }
    c := Some(ConfigOf(roster, s, digests));
  }

  // ---------------------------------------------------------------- the compiler

  /** The outcome of the matching stage: racks, peers and pair counts that belong together. */
  ghost predicate MatchStage(m: Manifest, racks: seq<Rack>, peers: PeerMap, pairs: Tally) {
    && Partition(m.clients, racks) && WithinCapacity(racks, m.policy.crossRackPairs)
    && Holds(peers, PeerRelation(racks, m.policy.crossRackPairs))
    && FitRoster(m.clients, peers)
    && (forall x, y :: x in peers && y in peers[x] ==> y in peers && x in peers[y])
    && PairsUpTo(racks, m.policy.crossRackPairs, |racks|, 0, pairs)
  }

  ghost predicate FitRoster(clients: seq<Client>, peers: PeerMap) {
    forall i :: 0 <= i < |clients| ==> TargetsFit(clients, clients[i], peers)
  }

  lemma MatchedFit(clients: seq<Client>, peers: PeerMap, i: nat)
    requires DistinctClients(clients) && i < |clients|
    requires peers.Keys == NoPeers(clients).Keys
    requires clients[i].name in peers ==> HasPeers(peers, clients[i].name) && clients[i].name !in peers[clients[i].name]
    requires forall x, y :: x in peers && y in peers[x] ==> y in peers
    ensures TargetsFit(clients, clients[i], peers)
  {
    var c := clients[i];
    assert c in clients;
    assert c.name in NoPeers(clients);
    forall x | x in peers[c.name]
      ensures IsClient(clients, x)
    {
      assert x in NoPeers(clients);
    }
    TargetsAreFit(clients, c, peers);
  }

  ghost predicate SymmetricRelation(r: Relation) {
    forall x, y :: (x, y) in r ==> (y, x) in r
  }

  ghost predicate IrreflexiveRelation(r: Relation) {
    forall x :: (x, x) !in r
  }

  lemma RelationFits(clients: seq<Client>, peers: PeerMap, r: Relation)
    requires DistinctClients(clients) && peers.Keys == NoPeers(clients).Keys
    requires Holds(peers, r) && SymmetricRelation(r) && IrreflexiveRelation(r)
    requires forall x {:trigger HasPeers(peers, x)} :: x in peers ==> HasPeers(peers, x)
    ensures FitRoster(clients, peers)
    ensures forall x, y :: x in peers && y in peers[x] ==> y in peers && x in peers[y]
  {
    forall x, y | x in peers && y in peers[x]
      ensures y in peers && x in peers[y]
    {
      assert PeerOf(peers, x, y) && (x, y) in r && (y, x) in r;
      assert PeerOf(peers, y, x);
    }
    forall i | 0 <= i < |clients|
      ensures TargetsFit(clients, clients[i], peers)
    {
      var x := clients[i].name;
      assert (x, x) !in r && !PeerOf(peers, x, x);
      assert x in peers ==> HasPeers(peers, x);
      MatchedFit(clients, peers, i);
    }
  }

  lemma PeerRelationLaws(clients: seq<Client>, racks: seq<Rack>, cross: nat)
    requires DistinctClients(clients) && Partition(clients, racks)
    ensures SymmetricRelation(PeerRelation(racks, cross)) && IrreflexiveRelation(PeerRelation(racks, cross))
  {
    PartitionIsProper(clients, racks);
    forall x, y | (x, y) in PeerRelation(racks, cross)
      ensures (y, x) in PeerRelation(racks, cross)
    {
      PeersSymmetric(racks, cross, x, y);
    }
    forall x
      ensures (x, x) !in PeerRelation(racks, cross)
    {
      PeersIrreflexive(racks, cross, x);
    }
  }

  /** A client of the roster without a peer. */
  ghost predicate Isolates(m: Manifest, racks: seq<Rack>, client: Name) {
    && Partition(m.clients, racks)
    && client in NoPeers(m.clients) && forall y :: (client, y) !in PeerRelation(racks, m.policy.crossRackPairs)
  }

  method MatchRoster(m: Manifest) returns (o: MatchOutcome, racks: seq<Rack>)
    requires ValidManifest(m)
    ensures Partition(m.clients, racks)
    ensures o.OverCapacity? <==> !WithinCapacity(racks, m.policy.crossRackPairs)
    ensures o.Isolated? ==> Isolates(m, racks, o.client)
    ensures |m.clients| >= 2 ==> !o.Isolated?
    ensures o.Matched? ==> MatchStage(m, racks, o.peers, o.pairs)
  {
    racks := GroupRacks(m.clients);
    o := MatchPeers(m.clients, racks, m.policy.crossRackPairs);
    if o.Matched? {
      PeerRelationLaws(m.clients, racks, m.policy.crossRackPairs);
      RelationFits(m.clients, o.peers, PeerRelation(racks, m.policy.crossRackPairs));
    }
  }

  /** The outcome of the scheduling stage. */
  ghost predicate ScheduleStage(m: Manifest, peers: PeerMap, s: Settings, plans: seq<ClientPlan>) {
    && SettingsCompiled(s, m.policy)
    && s.completeWindowSeconds == s.coverageEpochSeconds + Max(5, 2 * s.cycleIntervalSeconds)
    && |plans| == |m.clients|
    && forall i :: 0 <= i < |plans| ==> Scheduled(plans[i], m.clients, m.clients[i], peers, s)
  }

  /** The batch size is the requested one, or else the largest degree; the batches are the
      fewest that hold every client's targets. */
  ghost predicate BatchesFit(clients: seq<Client>, peers: PeerMap, requested: nat, size: nat, batches: nat)
    requires forall i :: 0 <= i < |clients| ==> clients[i].name in peers
  {
    && (if requested > 0 then size == requested else
        && (forall i :: 0 <= i < |clients| ==> |peers[clients[i].name]| <= size)
        && exists i :: 0 <= i < |clients| && |peers[clients[i].name]| == size)
    && (forall i :: 0 <= i < |clients| ==> |peers[clients[i].name]| <= batches * size)
    && exists i :: 0 <= i < |clients| && (batches - 1) * size < |peers[clients[i].name]|
  }

  method BatchSizes(clients: seq<Client>, peers: PeerMap, requested: nat) returns (size: nat, batches: nat)
    requires clients != [] && forall i :: 0 <= i < |clients| ==> clients[i].name in peers
    requires |peers[clients[0].name]| > 0
    ensures size > 0 && batches > 0
    ensures BatchesFit(clients, peers, requested, size, batches)
  {
    size := requested;
    if size == 0 {
      size := LargestDegree(clients, peers);
    }
    batches := DestinationBatches(clients, peers, size);
  }

  /** Sizes, ports and frames of a compiled schedule. */
  ghost predicate LaidOver(m: Manifest, peers: PeerMap, s: Settings, plans: seq<ClientPlan>, batches: nat) {
    && (forall i :: 0 <= i < |m.clients| ==> m.clients[i].name in peers)
    && BatchesFit(m.clients, peers, m.policy.destinationBatchSize, s.destinationBatchSize, batches)
    && s.coverageEpochCycles == batches * |s.portBatches| && s.cycleIntervalSeconds == m.policy.cycleInterval
    && PortsLaid(s, m.policy)
    && forall i :: 0 <= i < |plans| ==> FramesLaid(plans[i], s, batches)
  }

  ghost predicate Laid(m: Manifest, peers: PeerMap, s: Settings, plans: seq<ClientPlan>) {
    exists batches: nat :: LaidOver(m, peers, s, plans, batches)
  }

  lemma PositiveProduct(a: nat, b: nat)
    requires a > 0 && b > 0
    ensures a * b > 0
  {
  }

  /** Settings and batch count of a schedule. */
  ghost predicate SettingsLaid(m: Manifest, peers: PeerMap, s: Settings, batches: nat) {
    && (forall i :: 0 <= i < |m.clients| ==> m.clients[i].name in peers)
    && BatchesFit(m.clients, peers, m.policy.destinationBatchSize, s.destinationBatchSize, batches)
    && SettingsCompiled(s, m.policy) && PortsLaid(s, m.policy) && Emits(s, batches)
    && s.cycleIntervalSeconds == m.policy.cycleInterval
    && s.completeWindowSeconds == s.coverageEpochSeconds + Max(5, 2 * s.cycleIntervalSeconds)
  }

  /** Lines 61-73: batch sizes, ports and the settings made of them. */
  method ScheduleSettings(m: Manifest, peers: PeerMap, planId: string) returns (s: Settings, batches: nat)
    requires ValidManifest(m) && m.clients != [] && |planId| == 64 && FitRoster(m.clients, peers)
    requires m.policy.portsPerCycle <= m.policy.portPool && FIRST_PORT + m.policy.portPool <= RESPONDER_PORT
    ensures SettingsLaid(m, peers, s, batches)
  {
    assert TargetsFit(m.clients, m.clients[0], peers);
    var size;
    size, batches := BatchSizes(m.clients, peers, m.policy.destinationBatchSize);
    s := CompileSettings(m.policy, size, batches, planId);
    PositiveProduct(batches, |s.portBatches|);
  }

  method Schedule(m: Manifest, peers: PeerMap, planId: string, hash: Name -> nat)
    returns (s: Settings, plans: seq<ClientPlan>)
    requires ValidManifest(m) && m.clients != [] && |planId| == 64 && FitRoster(m.clients, peers)
    requires m.policy.portsPerCycle <= m.policy.portPool && FIRST_PORT + m.policy.portPool <= RESPONDER_PORT
    ensures ScheduleStage(m, peers, s, plans)
    ensures Laid(m, peers, s, plans)
  {
    var batches;
    s, batches := ScheduleSettings(m, peers, planId);
    plans := CompileClients(m.clients, peers, s, batches, hash);
    assert LaidOver(m, peers, s, plans, batches);
  }

  /** The switches of the racks, in dictionary order. */
  function RackSwitches(racks: seq<Rack>): seq<Name> {
    seq(|racks|, i requires 0 <= i < |racks| => racks[i].switch)
  }

  lemma RackSwitchesKnown(m: Manifest, racks: seq<Rack>)
    requires ValidManifest(m) && Partition(m.clients, racks)
    ensures forall r :: r in RackSwitches(racks) ==> r in m.switches
  {
    forall i | 0 <= i < |racks|
      ensures racks[i].switch in m.switches
    {
      var x := racks[i].members[0];
      MembersAttached(m.clients, racks[i].switch, x);
    }
  }

  /** The graph is the manifest's switch links, with multiplicities. */
  ghost predicate FabricOf(m: Manifest, g: Graph) {
    && g.Keys == m.switches && Closed(g) && Symmetric(g)
    && forall u, v :: u in m.switches && v in m.switches ==> Multiplicity(g, u, v) == LinksBetween(m.links, u, v)
  }

  function NeededWitnesses(m: Manifest): nat { if m.redundantScale then 2 else 1 }

  /** The outcome of the coverage stage: every switch and every directed link is witnessed. */
  ghost predicate CoverageStage(m: Manifest, f: Fabric, report: Report) {
    && FabricOf(m, f.g) && ReportOn(report, m.switches, m.links, f)
    && m.switches <= report.covered && report.minimum >= NeededWitnesses(m)
  }

  /** Why a plan is refused. */
  ghost predicate Explains(error: CompileError, m: Manifest, racks: seq<Rack>, f: Fabric) {
    match error
    case TooFewClients => |m.clients| < 2
    case CapacityExceeded => Partition(m.clients, racks) && !WithinCapacity(racks, m.policy.crossRackPairs)
    case ClientIsolated => exists c :: Isolates(m, racks, c)
    case PortsPerCycleTooLarge => m.policy.portsPerCycle > m.policy.portPool
    case PortPoolTooLarge => m.policy.portPool > RESPONDER_PORT - FIRST_PORT
    case _ => MatchStage(m, racks, f.peers, f.pairs) && FabricOf(m, f.g) && LacksCoverage(error, m, f)
  }

  ghost predicate LacksCoverage(error: CompileError, m: Manifest, f: Fabric) {
    match error
    case RacksDisconnected => exists s, d :: Probed(f.pairs, f.racks, s, d) && !Reachable(f.g, s, d)
    case SwitchUncovered => exists r :: ReportOn(r, m.switches, m.links, f) && !(m.switches <= r.covered)
    case TooFewWitnesses => exists r :: ReportOn(r, m.switches, m.links, f) && r.minimum < NeededWitnesses(m)
    case _ => false
  }

  ghost predicate Connected(f: Fabric) {
    forall s, d :: Probed(f.pairs, f.racks, s, d) ==> Reachable(f.g, s, d)
  }

  /** Link `i` ends at `x` and is witnessed in some direction. */
  ghost predicate Shown(links: seq<Link>, f: Fabric, i: nat, x: Name)
    requires i < |links|
  {
    && (x == links[i].a || x == links[i].b)
    && (WitnessesIn(f, links[i].a, links[i].b) > 0 || WitnessesIn(f, links[i].b, links[i].a) > 0)
  }

  /** Every switch is at the end of a witnessed link. */
  ghost predicate AllShown(m: Manifest, f: Fabric) {
    forall x :: x in m.switches ==> exists i: nat :: i < |m.links| && Shown(m.links, f, i, x)
  }

  ghost predicate Enough(links: seq<Link>, f: Fabric, i: nat, needed: nat)
    requires i < |links|
  {
    WitnessesIn(f, links[i].a, links[i].b) >= needed && WitnessesIn(f, links[i].b, links[i].a) >= needed
  }

  /** There are links, and each is witnessed often enough in both directions. */
  ghost predicate AllWitnessed(m: Manifest, f: Fabric) {
    m.links != [] && forall i: nat :: i < |m.links| ==> Enough(m.links, f, i, NeededWitnesses(m))
  }

  /** The two entries of link `i`. */
  lemma LinkEntries(entries: seq<LinkCoverage>, links: seq<Link>, f: Fabric, i: nat)
    requires LinksReported(entries, links, f) && i < |links|
    ensures |entries| == 2 * |links|
    ensures entries[2 * i] == LinkCoverage(links[i].a, links[i].b, WitnessesIn(f, links[i].a, links[i].b))
    ensures entries[2 * i + 1] == LinkCoverage(links[i].b, links[i].a, WitnessesIn(f, links[i].b, links[i].a))
  {
  }

  /** Every entry belongs to a link. */
  lemma EntryLink(entries: seq<LinkCoverage>, links: seq<Link>, f: Fabric, e: LinkCoverage) returns (i: nat)
    requires LinksReported(entries, links, f) && e in entries
    ensures i < |links|
    ensures || e == LinkCoverage(links[i].a, links[i].b, WitnessesIn(f, links[i].a, links[i].b))
            || e == LinkCoverage(links[i].b, links[i].a, WitnessesIn(f, links[i].b, links[i].a))
  {
    var k :| 0 <= k < |entries| && entries[k] == e;
    i := k / 2;
    assert k == 2 * i || k == 2 * i + 1;
    LinkEntries(entries, links, f, i);
  }

  /** A switch is covered exactly when a witnessed link ends at it. */
  lemma CoveredIff(m: Manifest, f: Fabric, r: Report, x: Name)
    requires ReportOn(r, m.switches, m.links, f) && x in m.switches
    ensures x in r.covered <==> exists i: nat :: i < |m.links| && Shown(m.links, f, i, x)
  {
    if x in r.covered {
      var e :| e in r.links && Endpoint(e, x);
      var i := EntryLink(r.links, m.links, f, e);
      assert Shown(m.links, f, i, x);
    }
    if i: nat :| i < |m.links| && Shown(m.links, f, i, x) {
      LinkEntries(r.links, m.links, f, i);
      var e := r.links[if WitnessesIn(f, m.links[i].a, m.links[i].b) > 0 then 2 * i else 2 * i + 1];
      assert e in r.links && Endpoint(e, x);
    }
  }

  /** The least count is enough exactly when every link is witnessed often enough. */
  lemma MinimumIff(m: Manifest, f: Fabric, r: Report)
    requires ReportOn(r, m.switches, m.links, f)
    ensures r.minimum >= NeededWitnesses(m) <==> AllWitnessed(m, f)
  {
    if r.minimum >= NeededWitnesses(m) {
      forall i: nat | i < |m.links|
        ensures Enough(m.links, f, i, NeededWitnesses(m))
      {
        LinkEntries(r.links, m.links, f, i);
        assert r.links[2 * i] in r.links && r.links[2 * i + 1] in r.links;
      }
    }
    if AllWitnessed(m, f) {
      assert r.links != [];
      var e :| e in r.links && e.witnesses == r.minimum;
      var i := EntryLink(r.links, m.links, f, e);
      assert Enough(m.links, f, i, NeededWitnesses(m));
    }
  }

  /** The two checks on the report, in terms of the fabric. */
  lemma VerdictIff(m: Manifest, f: Fabric, r: Report)
    requires ReportOn(r, m.switches, m.links, f)
    ensures m.switches <= r.covered <==> AllShown(m, f)
    ensures r.minimum >= NeededWitnesses(m) <==> AllWitnessed(m, f)
  {
    forall x | x in m.switches
      ensures x in r.covered <==> exists i: nat :: i < |m.links| && Shown(m.links, f, i, x)
    {
      CoveredIff(m, f, r, x);
    }
    MinimumIff(m, f, r);
  }

  method Cover(m: Manifest, racks: seq<Name>, peers: PeerMap, pairs: Tally)
    returns (error: CompileError, ok: bool, report: Report, ghost f: Fabric)
    requires ValidManifest(m) && FitRoster(m.clients, peers)
    requires forall r :: r in racks ==> r in m.switches
    ensures f == Fabric(f.g, pairs, racks, m.clients, peers) && FabricOf(m, f.g)
    ensures if ok then CoverageStage(m, f, report) else LacksCoverage(error, m, f)
    ensures ok <==> Connected(f) && AllShown(m, f) && AllWitnessed(m, f)
  {
    ok, error, report := false, RacksDisconnected, Report([], {}, 0);
    forall c | c in m.clients
      ensures c.name in peers
    {
      var i :| 0 <= i < |m.clients| && m.clients[i] == c;
      assert TargetsFit(m.clients, m.clients[i], peers);
    }
    var built, g := CandidateCoverage(m.switches, m.links, m.clients, racks, pairs, peers);
    f := Fabric(g, pairs, racks, m.clients, peers);
    if built.Built? {
      report := built.report;
      VerdictIff(m, f, report);
      if !(m.switches <= report.covered) {
        error := SwitchUncovered;
      } else if report.minimum < NeededWitnesses(m) {
        error := TooFewWitnesses;
      } else {
        ok := true;
      }
    }
  }

  /** What the compiler asks before it looks at the fabric. */
  ghost predicate Matchable(m: Manifest, racks: seq<Rack>) {
    && |m.clients| >= 2 && Partition(m.clients, racks) && WithinCapacity(racks, m.policy.crossRackPairs)
    && m.policy.portsPerCycle <= m.policy.portPool <= RESPONDER_PORT - FIRST_PORT
  }

  /** `compile_pingmesh_plan`; `planId` is the 64-digit fingerprint and `hash` the name hash. */
  method Compile(m: Manifest, planId: string, hash: Name -> nat)
    returns (r: Compiled, ghost racks: seq<Rack>, ghost f: Fabric)
    requires ValidManifest(m) && |planId| == 64
    ensures r.Plan? ==>
              && MatchStage(m, racks, f.peers, f.pairs)
              && ScheduleStage(m, f.peers, r.settings, r.plans)
              && Laid(m, f.peers, r.settings, r.plans)
              && f.racks == RackSwitches(racks) && CoverageStage(m, f, r.report)
              && m.policy.portsPerCycle <= m.policy.portPool <= RESPONDER_PORT - FIRST_PORT
    ensures r.Failed? ==> Explains(r.error, m, racks, f) && r.error != ClientIsolated
    ensures r.Plan? <==> Matchable(m, racks) && Connected(f) && AllShown(m, f) && AllWitnessed(m, f)
    ensures Matchable(m, racks) ==>
              MatchStage(m, racks, f.peers, f.pairs) && FabricOf(m, f.g) && f.racks == RackSwitches(racks) && f.clients == m.clients
    ensures |m.clients| < 2 <==> r == Failed(TooFewClients)
    ensures |m.clients| >= 2 ==>
              && Partition(m.clients, racks)
              && (r == Failed(CapacityExceeded) <==> !WithinCapacity(racks, m.policy.crossRackPairs))
  {
    racks, f := [], Fabric(map[], map[], [], [], map[]);
    var p := m.policy;
    if |m.clients| < 2 {
      r := Failed(TooFewClients);
      return;
    }
    var matched, rackList := MatchRoster(m);
    racks := rackList;
    if matched.OverCapacity? {
      r := Failed(CapacityExceeded);
    } else if matched.Isolated? {
      r := Failed(ClientIsolated);
    } else if p.portsPerCycle > p.portPool {
      r := Failed(PortsPerCycleTooLarge);
    } else if FIRST_PORT + p.portPool > RESPONDER_PORT {
      r := Failed(PortPoolTooLarge);
    } else {
      var s, plans := Schedule(m, matched.peers, planId, hash);
      RackSwitchesKnown(m, rackList);
      var error, ok, report;
      error, ok, report, f := Cover(m, RackSwitches(rackList), matched.peers, matched.pairs);
      r := if ok then Plan(s, plans, report) else Failed(error);
    }
  }

  // ---------------------------------------------------------------- what every compiled plan has

  /** The counter between two racks is the number of peer pairs that lead from one to the other. */
  lemma CompiledPairCounts(m: Manifest, racks: seq<Rack>, f: Fabric, i: nat, j: nat)
    requires ValidManifest(m) && MatchStage(m, racks, f.peers, f.pairs) && i < j < |racks|
    ensures NonEmpty(racks)
    ensures Count(f.pairs, racks[i].switch, racks[j].switch) == |PairsBetween(racks, m.policy.crossRackPairs, i, j)|
    ensures Count(f.pairs, racks[j].switch, racks[i].switch) == |PairsBetween(racks, m.policy.crossRackPairs, j, i)|
  {
    PartitionIsProper(m.clients, racks);
    PairCountExact(racks, m.policy.crossRackPairs, i, j);
    PairEntry(racks, m.policy.crossRackPairs, f.pairs, i, j);
  }

  lemma LeastIsLeast(m: Manifest, f: Fabric, report: Report, k: nat)
    requires CoverageStage(m, f, report) && k < |report.links|
    ensures report.links[k].witnesses >= NeededWitnesses(m)
  {
    assert report.links[k] in report.links;
  }

  lemma MatchedPairsSymmetric(m: Manifest, racks: seq<Rack>, peers: PeerMap, pairs: Tally)
    requires MatchStage(m, racks, peers, pairs)
    ensures SymmetricPairs(pairs)
  {
    CountedPairsSymmetric(racks, m.policy.crossRackPairs, pairs);
  }

  lemma CountedPairsSymmetric(racks: seq<Rack>, cross: nat, pairs: Tally)
    requires PairsUpTo(racks, cross, |racks|, 0, pairs)
    ensures SymmetricPairs(pairs)
  {
  }

  /** Every link of a compiled plan is witnessed equally in both directions, at least as often
      as the scale needs; a link between switches lies on a shortest path of a probed rack pair. */
  lemma CompiledLinksBalanced(m: Manifest, racks: seq<Rack>, f: Fabric, report: Report, i: nat)
    requires ValidManifest(m) && MatchStage(m, racks, f.peers, f.pairs) && CoverageStage(m, f, report)
    requires f.clients == m.clients && i < |m.links|
    ensures |report.links| == 2 * |m.links|
    ensures var e, back := report.links[2 * i], report.links[2 * i + 1];
            && e.source == back.destination == m.links[i].a && e.destination == back.source == m.links[i].b
            && e.witnesses == back.witnesses >= NeededWitnesses(m)
    ensures m.links[i].a in m.switches && m.links[i].b in m.switches ==>
              exists s, d :: Probed(f.pairs, f.racks, s, d) && OnShortest(f.g, m.links[i].a, m.links[i].b, s, d)
  {
    var a, b := m.links[i].a, m.links[i].b;
    assert |report.links| == 2 * |m.links| && report.links[2 * i] == LinkCoverage(a, b, WitnessesIn(f, a, b))
           && report.links[2 * i + 1] == LinkCoverage(b, a, WitnessesIn(f, b, a)) by {
      LinkEntries(report.links, m.links, f, i);
    }
    assert report.links[2 * i].witnesses >= NeededWitnesses(m) by {
      LeastIsLeast(m, f, report, 2 * i);
    }
    assert WitnessesIn(f, a, b) == WitnessesIn(f, b, a) by {
      MatchedPairsSymmetric(m, racks, f.peers, f.pairs);
      WitnessesReverse(f.g, m.switches, f.pairs, f.racks, f.clients, f.peers, a, b);
    }
    if a in m.switches && b in m.switches {
      AcceptedCoversEveryLink(f.g, m.switches, f.pairs, f.racks, f.clients, f.peers, a, b);
    }
  }

  /** The agent accepts the configuration and every client plan of a compiled manifest, and each
      plan probes each of its targets over every port of the pool once, with one DF probe per
      target and port batch. */
  lemma CompiledProbesExactlyOnce(m: Manifest, peers: PeerMap, s: Settings, plans: seq<ClientPlan>, i: nat,
                                  digests: map<Name, string>)
    requires ValidManifest(m) && ScheduleStage(m, peers, s, plans) && i < |plans| && |m.clients| >= 2
    requires 24 <= m.policy.dfPayload <= 65507 && PortableNames(m.clients) && digests.Keys == Elems(Names(m.clients))
    ensures ConfigAccepted(ConfigOf(m.clients, s, digests))
    ensures PlanAccepted(plans[i], ConfigOf(m.clients, s, digests), m.clients[i].name)
    ensures Probing(plans[i].frames, s)
    ensures multiset(EpochRtt(plans[i].frames, s)) == multiset(Grid(|plans[i].targets|, m.policy.portPool))
    ensures multiset(EpochDf(plans[i].frames, s)) == multiset(Grid(|plans[i].targets|, |s.portBatches|))
  {
    ConfigAcceptedIff(m.clients, s, m.policy, digests);
    assert Scheduled(plans[i], m.clients, m.clients[i], peers, s);
    AcceptedProbesExactlyOnce(plans[i], ConfigOf(m.clients, s, digests), m.clients[i].name);
  }

  // ---------------------------------------------------------------- compiled, then refused

  /** Two clients on one switch, and a DF payload too small for the probe header. */
  function SmallManifest(): Manifest {
    Manifest({"leaf"}, [Link("a", "leaf"), Link("b", "leaf")], [Client("a", "leaf"), Client("b", "leaf")],
             Policy(0, 0, 1, 1, 1, 1), false)
  }

  lemma SmallIsValid()
    ensures ValidManifest(SmallManifest())
  {
  }

  /** Any grouping of its clients has one rack, so no rack pair needs a path or fits ill. */
  lemma SmallRacks(racks: seq<Rack>)
    requires Partition(SmallManifest().clients, racks)
    ensures |racks| <= 1 && WithinCapacity(racks, 0)
  {
    if |racks| > 1 {
      SmallSwitch(racks, 0);
      SmallSwitch(racks, 1);
      assert false;
    }
  }

  lemma SmallSwitch(racks: seq<Rack>, i: nat)
    requires Partition(SmallManifest().clients, racks) && i < |racks|
    ensures racks[i].switch == "leaf"
  {
    var x := racks[i].members[0];
    MembersAttached(SmallManifest().clients, racks[i].switch, x);
  }

  lemma SmallCovered(racks: seq<Rack>, f: Fabric)
    requires MatchStage(SmallManifest(), racks, f.peers, f.pairs) && f.racks == RackSwitches(racks)
    requires f.clients == SmallManifest().clients
    ensures Connected(f) && AllShown(SmallManifest(), f) && AllWitnessed(SmallManifest(), f)
  {
    var m := SmallManifest();
    SmallConnected(racks, f);
    forall i: nat | i < |m.links|
      ensures Enough(m.links, f, i, 1)
    {
      SmallWitnesses(f, i);
    }
    assert Enough(m.links, f, 0, 1);
    assert Shown(m.links, f, 0, "leaf");
  }

  lemma SmallConnected(racks: seq<Rack>, f: Fabric)
    requires MatchStage(SmallManifest(), racks, f.peers, f.pairs) && f.racks == RackSwitches(racks)
    ensures Connected(f)
  {
    SmallRacks(racks);
    forall s, d
      ensures !Probed(f.pairs, f.racks, s, d)
    {
      if s in f.racks && d in f.racks {
        assert s == racks[0].switch == d;
        assert Count(f.pairs, racks[0].switch, racks[0].switch) == 0;
      }
    }
  }

  lemma SmallWitnesses(f: Fabric, i: nat)
    requires f.clients == SmallManifest().clients && FitRoster(f.clients, f.peers) && i < |SmallManifest().links|
    ensures Enough(SmallManifest().links, f, i, 1)
  {
    var c := f.clients[i];
    assert TargetsFit(f.clients, c, f.peers);
    assert Attached(f.clients, c.name, "leaf");
  }

  /** The manifest compiles, and the agent refuses the configuration whatever digests go with it. */
  method CompiledThenRefused(planId: string, hash: Name -> nat) returns (m: Manifest, r: Compiled)
    requires |planId| == 64
    ensures ValidManifest(m) && r.Plan?
    ensures forall digests :: !ConfigAccepted(ConfigOf(m.clients, r.settings, digests))
  {
    m := SmallManifest();
    SmallIsValid();
    ghost var racks, f;
    r, racks, f := Compile(m, planId, hash);
    SmallRacks(racks);
    SmallCovered(racks, f);
    assert r.Plan?;
    assert r.settings.dfPayloadSize == 1;
  }
}
