/** From a manifest to a window: what a compiled plan gives the detector that was built from it
    and the agents that run it (netopsbench/platform/pingmesh/planner.py:32-117,
    netopsbench/platform/pingmesh/detector.py:68-74,
    netopsbench/platform/pingmesh/_detector_coverage.py:9-23). */
module PlanPipeline {
  import opened FabricGraph
  import opened Counting
  import opened ProbePlan
  import opened AgentValidation
  import opened IngestionProofs
  import opened BoundaryPadding
  import Matching = PeerMatching
  import Coverage = CoverageReport
  import Compiler = PlanCompiler
  import Audit = CoverageAudit
  import Ingest = WindowIngestion

  /** The detector's view of a plan. */
  function DetectorPlan(clients: seq<Name>, s: Settings, e: Audit.Expectations, addresses: map<Name, string>): Ingest.Plan {
    Ingest.Plan(s.planId, s.coverageEpochCycles, s.cycleIntervalSeconds, clients, e.frames, addresses)
  }

  /** A compiled manifest and the detector built from it. */
  ghost predicate Deployed(m: Compiler.Manifest, peers: Matching.PeerMap, s: Settings, plans: seq<ClientPlan>,
                           e: Audit.Expectations, p: Ingest.Plan)
  {
    && Compiler.ValidManifest(m) && Compiler.ScheduleStage(m, peers, s, plans)
    && e.combinations == Audit.AllCombinations(plans, |plans|) && Audit.StoredUpTo(plans, |plans|, e.frames)
    && p == DetectorPlan(Compiler.Names(m.clients), s, e, p.addresses)
  }

  // ---------------------------------------------------------------- what each plan guarantees

  function ConfigWith(m: Compiler.Manifest, s: Settings): AgentConfig { Compiler.ConfigOf(m.clients, s, map[]) }

  /** The plan of the i-th client carries its name and passes the agent's validation. */
  lemma PlanOf(m: Compiler.Manifest, peers: Matching.PeerMap, s: Settings, plans: seq<ClientPlan>, i: nat)
    requires Compiler.ScheduleStage(m, peers, s, plans) && i < |plans|
    ensures |plans| == |m.clients| && plans[i].name == m.clients[i].name
    ensures PlanAccepted(plans[i], ConfigWith(m, s), plans[i].name)
  {
    assert Compiler.Scheduled(plans[i], m.clients, m.clients[i], peers, s);
  }

  lemma PlanShape(plan: ClientPlan, c: AgentConfig)
    requires PlanAccepted(plan, c, plan.name)
    ensures |plan.frames| == c.settings.coverageEpochCycles && plan.targets != [] && Audit.TargetsInRange(plan)
    ensures forall k :: 0 <= k < |plan.frames| ==> plan.frames[k].portBatch < |c.settings.portBatches|
  {
    forall k | 0 <= k < |plan.frames|
      ensures plan.frames[k].portBatch < |c.settings.portBatches|
    {
      assert plan.frames[k] in plan.frames;
    }
  }

  lemma {:induction false} TaskFrame(frames: seq<Frame>, x: (nat, nat)) returns (k: nat)
    requires x in EpochTasks(frames)
    ensures k < |frames| && x in FrameTasks(frames[k])
  {
    var n := |frames| - 1;
    if x in FrameTasks(frames[n]) {
      k := n;
    } else {
      k := TaskFrame(frames[..n], x);
    }
  }

  /** An accepted plan probes something in some cycle. */
  lemma BusyFrame(plan: ClientPlan, c: AgentConfig) returns (k: nat)
    requires PlanAccepted(plan, c, plan.name) && c.settings.portBatches != []
    ensures k < |plan.frames| && Audit.FrameNames(plan, plan.frames[k]) != {}
  {
    var x := (0, 0);
    GridMember(|plan.targets|, |c.settings.portBatches|, x);
    assert x in Elems(EpochTasks(plan.frames));
    k := TaskFrame(plan.frames, x);
    var f := plan.frames[k];
    var i :| 0 <= i < |FrameTasks(f)| && FrameTasks(f)[i] == x;
    assert f.targets[i] == 0;
    assert plan.targets[0] in Audit.FrameNames(plan, f);
  }

  // ---------------------------------------------------------------- the detector's premises

  lemma PlansDistinct(m: Compiler.Manifest, peers: Matching.PeerMap, s: Settings, plans: seq<ClientPlan>)
    requires Compiler.ValidManifest(m) && Compiler.ScheduleStage(m, peers, s, plans)
    ensures Audit.DistinctPlans(plans)
  {
    forall i, j | 0 <= i < j < |plans|
      ensures plans[i].name != plans[j].name
    {
      PlanOf(m, peers, s, plans, i);
      PlanOf(m, peers, s, plans, j);
    }
  }

  lemma PlansInRange(m: Compiler.Manifest, peers: Matching.PeerMap, s: Settings, plans: seq<ClientPlan>)
    requires Compiler.ScheduleStage(m, peers, s, plans)
    ensures forall i :: 0 <= i < |plans| ==> Audit.TargetsInRange(plans[i]) && |plans[i].frames| == s.coverageEpochCycles
    ensures Audit.BatchesKnown(plans, s) && Audit.AllAccepted(plans, ConfigWith(m, s))
  {
    forall i | 0 <= i < |plans|
      ensures Audit.TargetsInRange(plans[i]) && |plans[i].frames| == s.coverageEpochCycles
      ensures Audit.Accepts(plans, i, ConfigWith(m, s))
      ensures forall k :: 0 <= k < |plans[i].frames| ==> plans[i].frames[k].portBatch < |s.portBatches|
    {
      PlanOf(m, peers, s, plans, i);
      PlanShape(plans[i], ConfigWith(m, s));
    }
  }

  /** The coverage expectations are those of plans the agents accept. */
  lemma DeployedIsCompiled(m: Compiler.Manifest, peers: Matching.PeerMap, s: Settings, plans: seq<ClientPlan>,
                           e: Audit.Expectations, p: Ingest.Plan)
    requires Deployed(m, peers, s, plans, e, p)
    ensures Audit.Compiled(plans, s, e) && Audit.BatchesKnown(plans, s) && Audit.AllAccepted(plans, ConfigWith(m, s))
  {
    PlansDistinct(m, peers, s, plans);
    PlansInRange(m, peers, s, plans);
  }

  /** The stored frame of the i-th client's cycle. */
  lemma StoredFrame(m: Compiler.Manifest, peers: Matching.PeerMap, s: Settings, plans: seq<ClientPlan>,
                    e: Audit.Expectations, p: Ingest.Plan, i: nat, c: nat)
    requires Deployed(m, peers, s, plans, e, p) && i < |plans|
    ensures p.epoch > 0 && |plans[i].frames| == p.epoch && (plans[i].name, Wrap(c, p.epoch)) in p.frames
    ensures p.frames[(plans[i].name, Wrap(c, p.epoch))] == Audit.ExpectOf(plans[i], Audit.FrameAt(plans[i], c))
    ensures Ingest.Expected(p, plans[i].name, c) == Audit.FrameNames(plans[i], Audit.FrameAt(plans[i], c))
  {
    PlanOf(m, peers, s, plans, i);
    PlanShape(plans[i], ConfigWith(m, s));
    assert Audit.Stored(plans[i], |plans[i].frames|, e.frames);
  }

  lemma ClientIndex(m: Compiler.Manifest, peers: Matching.PeerMap, s: Settings, plans: seq<ClientPlan>,
                    e: Audit.Expectations, p: Ingest.Plan, x: Name) returns (i: nat)
    requires Deployed(m, peers, s, plans, e, p) && x in p.clients
    ensures i < |plans| && plans[i].name == x
  {
    i :| 0 <= i < |p.clients| && p.clients[i] == x;
    PlanOf(m, peers, s, plans, i);
  }

  /** The detector's plan stores exactly one frame per client and cycle of the epoch. */
  lemma DeployedIsValid(m: Compiler.Manifest, peers: Matching.PeerMap, s: Settings, plans: seq<ClientPlan>,
                        e: Audit.Expectations, p: Ingest.Plan)
    requires Deployed(m, peers, s, plans, e, p)
    ensures Ingest.ValidPlan(p)
  {
    forall x: Name, c: nat
      ensures (x, c) in p.frames <==> x in p.clients && c < p.epoch
    {
      if (x, c) in p.frames {
        assert Audit.OfPlan(plans, |plans|, x, c);
        var i :| 0 <= i < |plans| && plans[i].name == x && c < |plans[i].frames|;
        StoredFrame(m, peers, s, plans, e, p, i, c);
        PlanOf(m, peers, s, plans, i);
        assert p.clients[i] == x;
      }
      if x in p.clients && c < p.epoch {
        var i := ClientIndex(m, peers, s, plans, e, p, x);
        StoredFrame(m, peers, s, plans, e, p, i, c);
      }
    }
  }

  /** Every client probes something in some cycle of the epoch. */
  lemma DeployedIsBusy(m: Compiler.Manifest, peers: Matching.PeerMap, s: Settings, plans: seq<ClientPlan>,
                       e: Audit.Expectations, p: Ingest.Plan, x: Name)
    requires Deployed(m, peers, s, plans, e, p) && x in p.clients
    ensures p.epoch > 0 && SomeProbe(Idle(p, x))
  {
    var i := ClientIndex(m, peers, s, plans, e, p, x);
    PlanOf(m, peers, s, plans, i);
    PlanShape(plans[i], ConfigWith(m, s));
    var k := BusyFrame(plans[i], ConfigWith(m, s));
    StoredFrame(m, peers, s, plans, e, p, i, k);
    assert !Idle(p, x)[k];
  }

  /** Compiles a plan and builds the detector's expectations and padding from it. */
  method Prepare(m: Compiler.Manifest, planId: string, hash: Name -> nat, addresses: map<Name, string>)
    returns (r: Compiler.Compiled, e: Audit.Expectations, p: Ingest.Plan, padding: nat,
             ghost racks: seq<Matching.Rack>, ghost f: Coverage.Fabric)
    requires Compiler.ValidManifest(m) && |planId| == 64
    ensures r.Plan? ==> Deployed(m, f.peers, r.settings, r.plans, e, p) && p.addresses == addresses
    ensures r.Plan? ==> p.epoch > 0 && exists longest: nat :: LongestIdle(p, longest) && padding == (longest + 2) * p.interval
    ensures r.Failed? ==> Compiler.Explains(r.error, m, racks, f)
  {
    e, p, padding := Audit.Expectations({}, map[], {}), Ingest.Plan("", 1, 0, [], map[], map[]), 0;
    r, racks, f := Compiler.Compile(m, planId, hash);
    if r.Plan? {
      PlansDistinct(m, f.peers, r.settings, r.plans);
      PlansInRange(m, f.peers, r.settings, r.plans);
      e := Audit.CompileExpectations(r.plans);
      p := DetectorPlan(Compiler.Names(m.clients), r.settings, e, addresses);
      padding := PaddingSeconds(p);
    }
  }

  // ---------------------------------------------------------------- coverage of every compiled plan

  /** For every compiled manifest: with no missed ticks, rows stamped before the next tick and no
      local errors, every window of the advertised length observes every combination, of which
      there are as many as directed pairs times port batches, and every row is valid. */
  lemma CompiledWindowComplete(m: Compiler.Manifest, peers: Matching.PeerMap, s: Settings, plans: seq<ClientPlan>,
                               e: Audit.Expectations, p: Ingest.Plan, src: Audit.Source, unit: nat, from: int,
                               rows: seq<Audit.Observation>)
    requires Deployed(m, peers, s, plans, e, p) && unit > 0 && Audit.BatchesKnown(plans, s)
    requires Audit.Healthy(plans, src, unit * s.cycleIntervalSeconds)
    requires forall i :: 0 <= i < |plans| ==> src.origin(plans[i].name) <= from
    requires Audit.Snapshot(plans, s, src, from, from + unit * s.completeWindowSeconds, rows)
    ensures s.coverageEpochCycles > 0
    ensures (set o | o in rows && Audit.Valid(e, s, o) :: Audit.CombinationOf(o)) == e.combinations
    ensures forall j :: 0 <= j < |rows| ==> Audit.Valid(e, s, rows[j])
    ensures |e.combinations| == Audit.DirectedPairs(plans, |plans|) * |s.portBatches|
  {
    DeployedIsCompiled(m, peers, s, plans, e, p);
    assert |e.combinations| == Audit.DirectedPairs(plans, |plans|) * |s.portBatches| by {
      Audit.CombinationCount(plans, |plans|, ConfigWith(m, s));
    }
    Audit.CompleteWindow(plans, s, e, src, unit, from, rows);
  }

  // ---------------------------------------------------------------- readiness of every compiled plan

  /** An emitted row as the store returns it. */
  ghost predicate StoredAs(o: Audit.Observation, r: Ingest.Row) {
    && r.planId == Ingest.Is(o.planId) && r.source == Ingest.Is(o.source) && r.destination == Ingest.Is(o.destination)
    && HoldsNumber(o.cycle, r.cycle)
    && HoldsNumber(o.destinationBatch, r.destinationBatch) && HoldsNumber(o.portBatch, r.portBatch)
  }

  ghost predicate HoldsNumber(written: Audit.Reading, read: Ingest.Field<nat>) {
    written.Some? && written.value >= 0 && read == Ingest.Is(written.value)
  }

  /** The agent's row with the addresses of the manifest, a timestamp and finite metrics. */
  ghost predicate AgentRow(plan: ClientPlan, s: Settings, addresses: map<Name, string>, c: nat, d: Name, errors: nat, r: Ingest.Row)
    requires plan.frames != [] && Audit.FrameAt(plan, c).portBatch < |s.portBatches|
  {
    && StoredAs(Audit.EmittedRow(plan, s, c, d, errors), r)
    && r.stamp.Is? && Ingest.Finite(r)
    && (plan.name in addresses ==> r.sourceIp == addresses[plan.name])
    && (d in addresses ==> r.destinationIp == addresses[d])
  }

  /** Every due row is written, with whatever local errors the cycle had. */
  ghost predicate AgentsEmit(plans: seq<ClientPlan>, s: Settings, addresses: map<Name, string>,
                             errors: (Name, nat, Name) -> nat, h: History)
    requires Audit.BatchesKnown(plans, s)
  {
    forall i: nat, c: nat, d: Name {:trigger Audit.Due(plans, i, c, d)} :: Audit.Due(plans, i, c, d) ==>
      AgentRow(plans[i], s, addresses, c, d, errors(plans[i].name, c, d), h(plans[i].name, c, d))
  }

  lemma PlannedIsDue(m: Compiler.Manifest, peers: Matching.PeerMap, s: Settings, plans: seq<ClientPlan>,
                     e: Audit.Expectations, p: Ingest.Plan, x: Name, c: nat, d: Name) returns (i: nat)
    requires Deployed(m, peers, s, plans, e, p) && p.epoch > 0 && Planned(p, x, c, d)
    ensures Audit.Due(plans, i, c, d) && plans[i].name == x
  {
    i := ClientIndex(m, peers, s, plans, e, p, x);
    StoredFrame(m, peers, s, plans, e, p, i, c);
  }

  lemma EmittedFits(m: Compiler.Manifest, peers: Matching.PeerMap, s: Settings, plans: seq<ClientPlan>,
                    e: Audit.Expectations, p: Ingest.Plan, errors: (Name, nat, Name) -> nat, h: History,
                    x: Name, c: nat, d: Name)
    requires Deployed(m, peers, s, plans, e, p)
    requires Audit.BatchesKnown(plans, s) && AgentsEmit(plans, s, p.addresses, errors, h)
    requires p.epoch > 0 && Planned(p, x, c, d)
    ensures RowFits(p, h, x, c, d)
  {
    var i := PlannedIsDue(m, peers, s, plans, e, p, x, c, d);
    StoredFrame(m, peers, s, plans, e, p, i, c);
    assert AgentRow(plans[i], s, p.addresses, c, d, errors(x, c, d), h(x, c, d));
  }

  /** Ticks keep the cycles of a source in time order, whatever unit the clock counts. */
  lemma TicksInOrder(p: Ingest.Plan, h: History, origin: Name -> int, tick: nat, x: Name, b: nat, c: nat, d: Name, d': Name)
    requires p.epoch > 0 && Regular(p, h, origin, tick) && Planned(p, x, b, d) && Planned(p, x, c, d') && b < c
    ensures At(h, x, b, d) <= At(h, x, c, d')
  {
    CycleOrder(b + 1, c, tick);
    assert (b + 1) * tick == b * tick + tick;
  }

  /** Agents that tick regularly, with any period in any clock unit, and write their planned rows
      make a genuine history. */
  lemma AgentsAreGenuine(m: Compiler.Manifest, peers: Matching.PeerMap, s: Settings, plans: seq<ClientPlan>,
                         e: Audit.Expectations, p: Ingest.Plan, errors: (Name, nat, Name) -> nat, h: History,
                         origin: Name -> int, tick: nat)
    requires Deployed(m, peers, s, plans, e, p)
    requires Audit.BatchesKnown(plans, s) && AgentsEmit(plans, s, p.addresses, errors, h)
    requires p.epoch > 0 && Regular(p, h, origin, tick)
    ensures Genuine(p, h)
  {
    DeployedIsValid(m, peers, s, plans, e, p);
    forall x, c, d | Planned(p, x, c, d)
      ensures RowFits(p, h, x, c, d)
    {
      EmittedFits(m, peers, s, plans, e, p, errors, h, x, c, d);
    }
    forall x, b: nat, c: nat, d, d' | Planned(p, x, b, d) && Planned(p, x, c, d') && b < c
      ensures At(h, x, b, d) <= At(h, x, c, d')
    {
      TicksInOrder(p, h, origin, tick, x, b, c, d, d');
    }
  }

  lemma ScaledPadding(unit: nat, longest: nat, interval: nat)
    ensures unit * ((longest + 2) * interval) == (longest + 2) * (unit * interval)
  {
  }

  /** For every compiled manifest and every clock unit (`unit` of them to the second): agents
      that tick every interval, stamp their rows before the next tick and have enough history
      before the window make the padded query ready once every row is ingested whole. */
  lemma CompiledWindowReady(m: Compiler.Manifest, peers: Matching.PeerMap, s: Settings, plans: seq<ClientPlan>,
                            e: Audit.Expectations, p: Ingest.Plan, errors: (Name, nat, Name) -> nat, h: History,
                            origin: Name -> int, unit: nat, longest: nat, padding: nat,
                            progress: seq<Ingest.Row>, snapshot: seq<Ingest.Row>, start: int, end: int)
    requires Deployed(m, peers, s, plans, e, p) && p.epoch > 0 && start <= end && unit > 0
    requires LongestIdle(p, longest) && padding == (longest + 2) * p.interval
    requires Audit.BatchesKnown(plans, s) && AgentsEmit(plans, s, p.addresses, errors, h)
    requires Regular(p, h, origin, unit * p.interval)
    requires forall i :: 0 <= i < |p.clients| ==> origin(p.clients[i]) <= start - unit * padding
    requires DrawnProgress(p, h, progress) && DrawnSnapshot(p, h, snapshot) && WithinQuery(snapshot, start, end)
    requires Ingested(p, h, Ingest.KeySet(Ingest.CompleteRows(progress)), start - unit * padding, end + unit * padding)
    requires Ingested(p, h, Ingest.KeySet(Ingest.FullRows(snapshot)), start, end)
    ensures Ingest.IsReady(p, progress, snapshot, start, end) <==> Ingest.Whole(progress, snapshot, start, end)
  {
    var tick := unit * p.interval;
    assert tick > 0;
    ScaledPadding(unit, longest, p.interval);
    AgentsAreGenuine(m, peers, s, plans, e, p, errors, h, origin, tick);
    forall i | 0 <= i < |p.clients|
      ensures SomeProbe(Idle(p, p.clients[i]))
    {
      DeployedIsBusy(m, peers, s, plans, e, p, p.clients[i]);
    }
    PaddedQueryIsReady(p, h, origin, tick, longest, progress, snapshot, start, end);
  }
}
