# NetOpsBench verification

A Dafny model of the parts of NetOpsBench that have to agree with each other without ever
talking to each other, and proofs of what they promise together.

- **The Pingmesh plan.** The Python compiler matches peers between racks, cuts targets and
  source ports into batches, emits an epoch of probe frames and counts the witnesses of every
  link with a breadth-first search and a backward walk. The native agent validates each client
  plan again by counting. The detector audits observations against the same plan. Proved: the
  witness counts are the shortest-path sums they stand for, the agent accepts what the compiler
  emits, whatever it accepts probes everything exactly once, and a window of the advertised
  length is complete.
- **The ingestion audit.** From late and partial rows the audit decides whether a window is
  ready. Proved against a history of what each source emitted: no false alarm, ready means
  exact, ready stays ready, and the padded query does become ready.
- **The probe cycle.** Conservation of every probe over any interleaving of sends and replies, and
  published results that are the counts of the cycle's own events.
- **The traffic agent.** An invariant over requests interleaved with the scheduler, what accepted
  requests achieve, and upper and lower rate bounds of its token bucket.
- **The BGP collector.** An event log that replays to the tracked state, and a bounded spool
  that loses nothing it accepted.
- **The anomaly analysis, payload compaction and subnet allocation** around them.

Code that works step by step is a method with loops (a class where fields are updated in
place), proved against functions and predicates; the laws are lemmas about those. Check the
whole project with `dafny verify dfyconfig.toml`.

| file | contents |
|---|---|
| `FabricGraph`, `LinkWitnesses`, `CoverageReport` | shortest paths, witness counts, the coverage report |
| `PeerMatching`, `FrameSchedule`, `PlanCompiler` | the compiler |
| `ProbePlan`, `AgentValidation` | plans as data, the native validator |
| `WindowIngestion`, `IngestionProofs`, `BoundaryPadding` | the audit, its guarantees, the query padding |
| `CoverageAudit` | the detector's expectations and coverage summary |
| `PlanPipeline` | compiler, detector and agents composed: complete and ready windows of every compiled manifest |
| `ProbeEvents`, `ProbeCycle` | sends and replies in any order, and one probe cycle |
| `TrafficAgent`, `TokenBucket` | the traffic agent |
| `BgpTracker`, `BgpSpool` | the BGP collector |
| `AnomalyAnalysis`, `AnomalyReport`, `WindowMerge` | detectors, absolute health, window merge |
| `PayloadBounds`, `ManagementSubnets` | compaction, subnet allocation |
| `Counting`, `Options` | counting arguments and optional values shared by the modules |

Findings where the code differs from what one might expect of it, each with its exact condition:

- The compiler checks neither the DF payload range nor the characters of client names; the
  agent does (`PlanCompiler.ConfigAcceptedIff`, `PlanCompiler.CompiledThenRefused`).
- Parallel links are credited once per parallel link, in each direction, so a witness count is
  the pair count times the number of parallel links (`LinkWitnesses.CountWitnesses`).
- A traffic agent without a plan reports ready after a disable request for generation 0
  (`TrafficAgent.ReadyWithoutPlan`).
- A spool write can end above the limit by the marker it appends, and never by more
  (`BgpSpool.RunSize`, `BgpSpool.LimitCanBeExceeded`).
- Segment identities repeat when batches share a timestamp and a segment of it was deleted
  (`BgpSpool.ReusedIffDeleted`, `BgpSpool.IdentityCanRepeat`). Deleting a repeated identity then
  loses lines that were never ingested (`BgpSpool.SharedTimestampsLoseLine`); this is possible
  exactly when a write seals such lines under a confirmed identity
  (`BgpSpool.WriteEndangersIff`), which fresh batch timestamps rule out.
- The MTU detector skips positive drop totals while the absolute counter wants zero, so they
  part on negative totals (`AnomalyReport.MtuSignalIsAbsolute`).
- A sub-window may be named "full"; it then adds its anomalies to the full window's and replaces
  those of the same family. The report is the full window's exactly when such sub-windows agree
  with it (`WindowMerge.MergeKeepsFullIff`).
- The check for a client without probes never fires for two clients or more
  (`PeerMatching.EveryClientHasPeer`).

## Model

| member | source | states |
|---|---|---|
| `FabricGraph.BuildGraph` | netopsbench/platform/pingmesh/planner.py:121-127 | the adjacency lists hold every switch-to-switch link once per direction, with parallel links counted; the graph is symmetric and closed |
| `FabricGraph.ShortestDistances` | netopsbench/platform/pingmesh/planner.py:131-138 | the queue loop labels exactly the reachable switches, each with the length of a shortest path |
| `FabricGraph.OnShortestReverses` | netopsbench/platform/pingmesh/planner.py:129-154 | a link lies on a shortest s-d path iff its reverse lies on a shortest d-s path |
| `LinkWitnesses.StepOnShortest` | netopsbench/platform/pingmesh/planner.py:149-150 | a predecessor step on the way to the destination lies on a shortest path |
| `LinkWitnesses.OnShortestIsStep` | netopsbench/platform/pingmesh/planner.py:149-150 | every link of a shortest path is such a step |
| `LinkWitnesses.CreditPair` | netopsbench/platform/pingmesh/planner.py:145-154 | the backward walk credits each directed link of the rack pair's shortest-path DAG once per parallel link and no other link |
| `LinkWitnesses.CountWitnesses` | netopsbench/platform/pingmesh/planner.py:128-154 | fails iff some probed rack pair is disconnected; otherwise every count is the sum over ordered rack pairs of the pair count times the multiplicity of the link, if it lies on a shortest path |
| `LinkWitnesses.TotalReverses` | netopsbench/platform/pingmesh/planner.py:128-154 | with symmetric pair counts both directions of a link get the same total |
| `LinkWitnesses.PositiveTotal` | netopsbench/platform/pingmesh/planner.py:128-154 | a positive total names a probed rack pair with the link on a shortest path |
| `PeerMatching.GroupRacks` | netopsbench/platform/pingmesh/planner.py:37-39 | the racks partition the roster by attached switch |
| `PeerMatching.MatchPeers` | netopsbench/platform/pingmesh/planner.py:40-58 | the peer sets are exactly the rack-mate pairs and the modular replica pairs, both ways, cross_rack_pairs of them per two racks or, unset, as many as the larger rack has members, and the counter records as many; refused iff some two racks are both smaller than a set cross_rack_pairs; with two clients or more the check for a client without peers never fires |
| `PeerMatching.EveryClientHasPeer` | netopsbench/platform/pingmesh/planner.py:42-58 | with two clients or more every client has a peer, a lone rack member through the replica pairs |
| `PeerMatching.PeersSymmetric` | netopsbench/platform/pingmesh/planner.py:42-54 | the peer relation is symmetric |
| `PeerMatching.PeersIrreflexive` | netopsbench/platform/pingmesh/planner.py:42-54 | no client is its own peer |
| `PeerMatching.MatesArePeers` | netopsbench/platform/pingmesh/planner.py:42-44 | two clients of one rack are peers iff they differ |
| `PeerMatching.CrossRackPairs` | netopsbench/platform/pingmesh/planner.py:45-54 | between two racks within capacity there are cross_rack_pairs pairs, or max(len(a), len(b)) when it is unset, and they are exactly the pairs of members at equal positions modulo the rack sizes |
| `PeerMatching.NobodyLeftOut` | netopsbench/platform/pingmesh/planner.py:47-54 | with cross_rack_pairs unset every member of either of two racks is in a pair between them |
| `PeerMatching.ReplicaCount` | netopsbench/platform/pingmesh/planner.py:50-52 | up to max(len(a), len(b)) consecutive replicas are pairwise different pairs |
| `PeerMatching.PairCountExact` | netopsbench/platform/pingmesh/planner.py:55-56 | the recorded count of two racks is the number of peer pairs between them, in either direction |
| `CoverageReport.CreditClients` | netopsbench/platform/pingmesh/planner.py:155-158 | client links carry the peer degree both ways; all other counts are untouched |
| `CoverageReport.MakeReport` | netopsbench/platform/pingmesh/planner.py:159-176 | both directions of every link in order, the switches at a witnessed link, and the least count (zero without links) |
| `CoverageReport.CandidateCoverage` | netopsbench/platform/pingmesh/planner.py:120-176 | the whole coverage computation: built iff every probed rack pair is connected, and then every reported link carries its shortest-path or degree witnesses |
| `CoverageReport.WitnessesReverse` | netopsbench/platform/pingmesh/planner.py:155-158 | both directions of any link, client links included, have equal witnesses |
| `CoverageReport.AcceptedCoversEveryLink` | netopsbench/platform/pingmesh/planner.py:114-115 | a witnessed link between switches lies on a shortest path of a probed rack pair |
| `FrameSchedule.FrameProbes` | netopsbench/platform/pingmesh/planner.py:83-86 | one RTT probe per (target, socket), one DF probe per target on socket target mod sockets, nothing else |
| `FrameSchedule.PortBatches` | netopsbench/platform/pingmesh/planner.py:68-71 | the batches are non-empty, at most the requested size, and concatenate to the whole port pool in order |
| `FrameSchedule.ClientFrames` | netopsbench/platform/pingmesh/planner.py:77-94 | the frames of an epoch are in (port batch, destination batch) order and cover every (target, port batch) exactly once |
| `PlanCompiler.DestinationBatches` | netopsbench/platform/pingmesh/planner.py:62-62 | the batch count is enough for every client and no smaller count is |
| `PlanCompiler.BatchSizes` | netopsbench/platform/pingmesh/planner.py:61-62 | the size is the requested one or, unset, the largest degree of a client; the batches hold every client and one fewer would not |
| `PlanCompiler.CompileSettings` | netopsbench/platform/pingmesh/planner.py:63-73 | the pool is the consecutive ports from 33000, cut into slices of the requested size; epoch and window lengths follow from the batch counts |
| `PlanCompiler.TargetsInOrder` | netopsbench/platform/pingmesh/planner.py:76-76 | a client's targets come in roster order |
| `PlanCompiler.CompileClient` | netopsbench/platform/pingmesh/planner.py:76-96 | a client's plan lists its peers in roster order, has its frames in their places and passes the native plan validation whatever digests accompany it |
| `PlanCompiler.Compile` | netopsbench/platform/pingmesh/planner.py:32-117 | a plan results iff there are two clients, the racks are within capacity, the ports fit, the probed racks are connected, every switch ends a witnessed link and every link is witnessed often enough; it then satisfies the matching, scheduling and coverage stages with the least number of batches and every frame in its place, and every refusal is explained by the state that causes it |
| `PlanCompiler.BuildAgentConfig` | netopsbench/platform/client_agent/config.py:16-45 | refused iff a client lacks an address or a switch; what is built passes the native validation iff moreover the DF payload is in 24..65507 and no client name contains '/' or is '..' |
| `PlanCompiler.ConfigAcceptedIff` | native/client-agent/src/config.rs:110-153 | the compiled configuration passes the native validation iff the DF payload is in 24..65507 and no client name contains '/' or is '..' |
| `PlanCompiler.CompiledThenRefused` | native/client-agent/src/config.rs:137-146 | a concrete manifest compiles, and the agent refuses its configuration whatever the digests |
| `PlanCompiler.CompiledPairCounts` | netopsbench/platform/pingmesh/planner.py:45-56 | in every compiled plan the pair counter of two racks is the number of peer pairs leading from one to the other |
| `PlanCompiler.CompiledLinksBalanced` | netopsbench/platform/pingmesh/planner.py:110-115 | in every compiled plan both directions of a link have equal witnesses, at least the required number, and every switch link is on a shortest path of a probed rack pair |
| `PlanCompiler.CompiledProbesExactlyOnce` | netopsbench/platform/pingmesh/planner.py:60-117 | the agent accepts every plan of a compiled manifest, and each probes every (target, source port) once and every (target, port batch) with one DF probe |
| `AgentValidation.CheckProbes` | native/client-agent/src/config.rs:190-213 | the set insertions and cardinality checks accept iff the probes are exactly one RTT per (target, socket) and one DF per target |
| `AgentValidation.CheckFrame` | native/client-agent/src/config.rs:176-213 | accepts iff the frame's port batch, targets and probes are exact |
| `AgentValidation.InsertTasks` | native/client-agent/src/config.rs:214-218 | fails iff a (target, port batch) combination repeats |
| `AgentValidation.ValidatePlan` | native/client-agent/src/config.rs:157-224 | accepts iff the header matches, every frame is exact and the epoch covers the (target, port batch) grid, each combination once |
| `AgentValidation.PortsPartitioned` | native/client-agent/src/config.rs:147-151 | sorted-equals-range means every port index is in exactly one batch, once |
| `AgentValidation.AcceptedProbesExactlyOnce` | native/client-agent/src/config.rs:110-224 | any accepted configuration and plan probes every (target, source port) by RTT exactly once per epoch and sends one DF task per (target, port batch), and nothing else |
| `AgentValidation.AlteredPlanRefused` | native/client-agent/src/config.rs:157-173 | an accepted plan is refused under another schema, identity or client, with another number of frames, a late start or no targets |
| `AgentValidation.AlteredTargetRefused` | native/client-agent/src/config.rs:166-172 | and with a target that is the client itself, unknown or repeated |
| `AgentValidation.AlteredSettingsRefused` | native/client-agent/src/config.rs:111-146 | accepted settings are refused with any other interval, epoch or epoch length, a window shorter than the epoch, an unreadable identity, nothing to run or a DF payload out of range |
| `AgentValidation.AlteredPortRefused` | native/client-agent/src/config.rs:130-146 | and with the responder's or a repeated port, or an empty port batch |
| `WindowIngestion.ProgressFrames` | netopsbench/platform/pingmesh/_detector_ingestion.py:64-88 | accepts iff every row is identified by the plan and no (source, cycle, peer) has two timestamps; returns the keys seen |
| `WindowIngestion.OrderConflict` | netopsbench/platform/pingmesh/_detector_ingestion.py:109-111 | the sorted adjacent-pair test finds a conflict iff some two points have time and cycle in opposite order |
| `WindowIngestion.Boundaries` | netopsbench/platform/pingmesh/_detector_ingestion.py:112-117 | left is the last cycle seen before the window, right the first one at or after its end |
| `WindowIngestion.AuditSource` | netopsbench/platform/pingmesh/_detector_ingestion.py:108-123 | a source is open, crossing or closed, with the keys its closed frames put inside the window |
| `WindowIngestion.AuditSources` | netopsbench/platform/pingmesh/_detector_ingestion.py:105-123 | the per-source verdicts combined: crossing iff some source conflicts, closed iff all are |
| `WindowIngestion.CollectSnapshot` | netopsbench/platform/pingmesh/_detector_ingestion.py:124-138 | the records are the complete rows by key; illegible iff one is non-finite, unreadable or conflicts |
| `WindowIngestion.Audit` | netopsbench/platform/pingmesh/_detector_ingestion.py:90-165 | invalid iff two progress rows of a client reverse time and cycle, or a row or pair of rows is misplaced, duplicated, unreadable or in conflict; ready iff the evidence is sound, whole, closed on both sides for every client and the snapshot keys equal the expected ones; the records are those of the snapshot |
| `WindowIngestion.SoundIff` | netopsbench/platform/pingmesh/_detector_ingestion.py:64-138 | the evidence is sound iff no written-out contradiction holds: a missing or misplaced identity, two times for one task, a client whose rows have time and cycle in opposite order, a conflicting or unreadable snapshot row |
| `WindowIngestion.ConflictRows` | netopsbench/platform/pingmesh/_detector_ingestion.py:109-111 | every conflict the sorted test finds comes from two rows of the client with the earlier time and the later cycle |
| `WindowIngestion.WholeIff` | netopsbench/platform/pingmesh/_detector_ingestion.py:99-130 | nothing is missing iff no progress row stamped inside the window lacks a field and no snapshot row lacks a field or metric |
| `IngestionProofs.GenuineNeverInvalid` | netopsbench/platform/pingmesh/_detector_ingestion.py:64-88 | rows drawn from a genuine history never make the audit invalid |
| `IngestionProofs.ExpectedIsEmitted` | netopsbench/platform/pingmesh/_detector_ingestion.py:117-123 | for closed genuine sources the expected keys are exactly those emitted inside the window |
| `IngestionProofs.ReadyIsExact` | netopsbench/platform/pingmesh/_detector_ingestion.py:90-165 | ready on genuine rows means the snapshot holds exactly what every source emitted in [start, end) |
| `IngestionProofs.StaysClosing` | netopsbench/platform/pingmesh/_detector_ingestion.py:108-142 | once the frames close a window on a snapshot, any later superset of genuine rows is sound and closes it with the same keys, although boundary cycles may move |
| `IngestionProofs.ReadyIsStable` | netopsbench/platform/pingmesh/_detector_ingestion.py:108-142 | once ready, any later superset of genuine rows is ready with the same keys iff none of its rows misses a field |
| `IngestionProofs.SameRecords` | netopsbench/platform/pingmesh/_detector_ingestion.py:124-142 | two ready verdicts on the same history carry the same records |
| `BoundaryPadding.ScanClient` | netopsbench/platform/pingmesh/_detector_ingestion.py:58-61 | the run counter over the doubled frame list reaches the longest trailing run, cut to the list length |
| `BoundaryPadding.ScanBoundsRuns` | netopsbench/platform/pingmesh/_detector_ingestion.py:58-61 | that scan bounds every cyclic run of empty frames of a client that probes at all |
| `BoundaryPadding.ScanIsAttained` | netopsbench/platform/pingmesh/_detector_ingestion.py:58-61 | and is attained by a cyclic run |
| `BoundaryPadding.PaddingSeconds` | netopsbench/platform/pingmesh/_detector_ingestion.py:55-62 | padding is (longest cyclic idle run of any client + 2) intervals |
| `BoundaryPadding.PaddedQueryIsReady` | netopsbench/platform/pingmesh/_detector_ingestion.py:55-62 | under a regular cadence, in any clock unit, a query padded by that many ticks holds boundary frames for every client, so the fully ingested window is ready iff no row misses a field |
| `CoverageAudit.CompileExpectations` | netopsbench/platform/pingmesh/_detector_coverage.py:9-23 | the expected frames, combinations and destination batches are those of the compiled plans |
| `CoverageAudit.EmittedIsValid` | native/client-agent/src/pingmesh.rs:325-352 | the row the agent writes from its own frame, without local errors, is what the detector expects of that cycle |
| `CoverageAudit.Summarize` | netopsbench/platform/pingmesh/_detector_coverage.py:25-114 | observed, missing and the three row counts: valid rows, rows of the plan with wrong sockets or local errors, rows outside the plan; complete iff nothing is missing and every row is valid |
| `CoverageAudit.ObservationsExact` | netopsbench/platform/pingmesh/_detector_coverage.py:42-92 | a row fits the plan iff some client emits it in some cycle up to its socket and error counts, and is valid iff some client emits exactly it without local errors |
| `CoverageAudit.CombinationsAre` | netopsbench/platform/pingmesh/_detector_coverage.py:13-21 | a combination is expected iff a frame of its source lists its destination under its port batch |
| `CoverageAudit.DestinationsAre` | netopsbench/platform/pingmesh/_detector_coverage.py:22-23 | a destination batch is expected iff a frame of it has targets |
| `CoverageAudit.ObservedPlusMissing` | netopsbench/platform/pingmesh/_detector_coverage.py:104-114 | observed combinations are planned ones, so observed plus missing is the whole plan |
| `CoverageAudit.CombinationCount` | netopsbench/platform/pingmesh/_detector_coverage.py:13-21 | the plan expects directed pairs times port batches combinations |
| `CoverageAudit.CompleteWindow` | netopsbench/platform/pingmesh/planner.py:105-106 | with no missed ticks, rows stamped before the next tick and no local errors, every window of complete_window_seconds observes every combination and no invalid row; the rows are those the agents derive from their frames |
| `PlanPipeline.Prepare` | netopsbench/platform/pingmesh/detector.py:68-74 | compiles a plan and the detector built from it: expectations, frames and padding |
| `PlanPipeline.DeployedIsValid` | netopsbench/platform/pingmesh/_detector_coverage.py:13-20 | the detector of a compiled plan stores exactly one frame per client and cycle of the epoch |
| `PlanPipeline.DeployedIsBusy` | native/client-agent/src/config.rs:174-222 | every client of a compiled plan probes something in some cycle |
| `PlanPipeline.CompiledWindowComplete` | netopsbench/platform/pingmesh/planner.py:97-117 | for every compiled manifest: a healthy window of the advertised length observes all of the directed pairs times port batches combinations |
| `PlanPipeline.AgentsAreGenuine` | netopsbench/platform/pingmesh/_detector_ingestion.py:64-88 | agents that tick regularly, with any period in any clock unit, and write the rows of their frames make a genuine history |
| `PlanPipeline.CompiledWindowReady` | netopsbench/platform/pingmesh/_detector_ingestion.py:55-165 | for every compiled manifest and every clock unit: agents that tick every interval and stamp rows before the next tick, with enough history, make the query padded by the detector's padding ready once every row is ingested whole |
| `ProbeEvents.ApplyBalanced` | native/client-agent/src/pingmesh.rs:526-628 | one send or reply keeps, per kind and target, sent = received + invalid + unanswered + path errors |
| `ProbeEvents.EveryRunConserves` | native/client-agent/src/pingmesh.rs:404-494 | the same over every interleaving of sends and replies from any sequence number, wrap-around included |
| `ProbeEvents.RunExplained` | native/client-agent/src/pingmesh.rs:526-628 | after any run the pending map holds exactly the probes sent and not answered, and every counter and round trip is what the events say: one round trip per timed reply |
| `ProbeEvents.CountersAre` | native/client-agent/src/pingmesh.rs:526-628 | the same per kind and target, with the attempts split into answered, unanswered, path errors, transient errors and local failures |
| `ProbeCycle.UnansweredDf` | native/client-agent/src/pingmesh.rs:568-574 | lists every pending DF probe once |
| `ProbeCycle.SendQueue` | native/client-agent/src/pingmesh.rs:404-425 | the events are those of the queue, in order, with the outcomes the sockets gave and the replies drained in between |
| `ProbeCycle.Confirm` | native/client-agent/src/pingmesh.rs:446-472 | the events are those of fifteen rounds over the listed targets, none for an empty list, a drain after each |
| `ProbeCycle.RunCycle` | native/client-agent/src/pingmesh.rs:381-494 | a finished cycle sent exactly the queue in order and then fifteen rounds over the DF probes unanswered at the cutoff, with the outcomes the sockets gave; its state is the replay of its events, polls end early only with nothing pending, an aborted cycle met a socket that broke, and every published result reports its events: lost = unanswered plus path errors and sent = attempts less local failures for RTT and DF each, DF drops, local errors, loss percentage and one round trip per timed reply |
| `ProbeCycle.ResultReports` | native/client-agent/src/pingmesh.rs:740-775 | the result built from final counters has, for RTT and DF each, the sent and lost numbers, drops, errors, percentage and round trips of the events |
| `ProbeCycle.CycleAttempts` | native/client-agent/src/pingmesh.rs:404-472 | per target: every queued RTT probe is attempted once, DF attempts are the queued ones plus fifteen per DF probe unanswered at the cutoff |
| `ProbeEvents.LossIsExact` | native/client-agent/src/pingmesh.rs:740-775 | subtraction never saturates, loss is unanswered plus path errors, local errors are no loss, 100 percent iff nothing was received |
| `ProbeCycle.OneOrSixteen` | native/client-agent/src/pingmesh.rs:442-472 | a target of a validated frame gets 1 or 16 DF attempts, 16 iff its first was unanswered at the cutoff |
| `TrafficAgent.StepKeepsInv` | native/client-agent/src/traffic.rs:169-284 | every request and scheduler step keeps plan/generation/digest, listener, flow-count and readiness consistency |
| `TrafficAgent.ReachableInv` | native/client-agent/src/traffic.rs:169-284 | so does every run, with flag changes in flight between requests |
| `TrafficAgent.ReadyMeansAllActive` | native/client-agent/src/traffic.rs:644-660 | with no flag change in flight an enabled agent is ready iff every flow flag is up |
| `TrafficAgent.RejectedLeavesNoTrace` | native/client-agent/src/traffic.rs:169-262 | a request that fails its generation or digest check leaves no trace: the run without it ends in the same state |
| `TrafficAgent.ReadyWithoutPlan` | native/client-agent/src/traffic.rs:264-273 | without a plan the agent turns ready exactly on a disable request naming generation 0 and no digest |
| `TrafficAgent.LoadInstalls` | native/client-agent/src/traffic.rs:170-220 | an accepted load installs the plan with its counts, disabled and ready, or leaves no plan when a listener could not be bound |
| `TrafficAgent.EnableStarts` | native/client-agent/src/traffic.rs:231-254 | an accepted enable of a disabled agent starts one lowered flag per flow and clears readiness; without flows the agent is ready and has no sender; an enabled agent is unchanged |
| `TrafficAgent.DisableStops` | native/client-agent/src/traffic.rs:264-273 | an accepted disable ends with no sender, no active flow and the agent disabled, the plan kept |
| `TrafficAgent.RaisingCounts` | native/client-agent/src/traffic.rs:644-660 | raising different flags counts each once, and the agent is ready iff all are raised |
| `TrafficAgent.TrafficFlows` | native/client-agent/src/traffic.rs:170-273 | whatever ran before, load, enable and raising every flag in any order end with every flow active and the agent ready; a disable then stops it |
| `TrafficAgent.TrafficRuntime.Load` | native/client-agent/src/traffic.rs:170-220 | a rejected load changes nothing, a failed bind resets the agent, a successful one installs the plan disabled, its listeners up and no sender |
| `TrafficAgent.TrafficRuntime.Reset` | native/client-agent/src/traffic.rs:222-229 | the agent is fresh again |
| `TrafficAgent.TrafficRuntime.Enable` | native/client-agent/src/traffic.rs:231-254 | succeeds iff the request matches and a sender runs or a plan is loaded; it then leaves the agent enabled, with one lowered flag per flow and not ready, or ready at once without flows; idempotent while enabled |
| `TrafficAgent.TrafficRuntime.DisableAll` | native/client-agent/src/traffic.rs:264-273 | stops the sender, zeroes active flows, ready iff listeners are up |
| `TrafficAgent.TrafficRuntime.HandleDisable` | native/client-agent/src/traffic.rs:256-273 | disables iff generation and digest match |
| `TrafficAgent.TrafficRuntime.RaiseFlag` | native/client-agent/src/traffic.rs:645-648 | the flag half of a flow change |
| `TrafficAgent.TrafficRuntime.CommitFlag` | native/client-agent/src/traffic.rs:649-659 | the status half: flow count and readiness |
| `TokenBucket.SendUdp` | native/client-agent/src/traffic.rs:464-483 | exactly as many whole datagrams leave as the tokens cover and the socket takes in a row; tokens fall by their bytes; the flow failed iff an error ended the loop |
| `TokenBucket.DatagramsUnique` | native/client-agent/src/traffic.rs:464-483 | the number of datagrams is determined by the tokens and the answers of the socket |
| `TokenBucket.OfferedFits` | native/client-agent/src/traffic.rs:527-530 | the offered TCP write is positive, capped and covered by the tokens; it is as many whole payloads as they cover, unless whole payloads beyond the cap fit |
| `TokenBucket.SendTcp` | native/client-agent/src/traffic.rs:526-547 | each write takes what the stream will of the offer; the loop ends only when no whole payload is covered, a write would block, takes nothing or fails, and the last two disconnect; tokens, bytes and payloads are those of the writes |
| `TokenBucket.PayloadsCover` | native/client-agent/src/traffic.rs:538-538 | the payloads counted for writes cover their bytes, with less than one to spare per write |
| `TokenBucket.ServiceFlow` | native/client-agent/src/traffic.rs:422-566 | a tick replenishes, then sends what the tokens and the socket allow by the UDP or TCP rule, or nothing while not connected |
| `TokenBucket.BytesBounded` | native/client-agent/src/traffic.rs:429-435 | over any run bytes plus remaining tokens never exceed the initial tokens plus rate times time |
| `TokenBucket.NeverAboveRate` | native/client-agent/src/traffic.rs:350-380 | a new flow never sends more than its bandwidth times elapsed time |
| `TokenBucket.BurstBound` | native/client-agent/src/traffic.rs:596-605 | any stretch of ticks sends at most one burst plus rate times its length |
| `TokenBucket.BytesExact` | native/client-agent/src/traffic.rs:429-435 | while no tick has to cut tokens to the burst size, bytes sent plus tokens left are exactly the tokens at hand plus rate times time |
| `TokenBucket.BandwidthReached` | native/client-agent/src/traffic.rs:350-380 | a flow that is never cut and sends all it may has sent its bandwidth times elapsed time, but for less than one payload |
| `BgpTracker.BgpTransitionTracker.Process` | netopsbench/platform/observability/bgp_collector.py:219-282 | a failed poll changes nothing and emits its heartbeat; a successful one moves every neighbour to its reported or missing state, and its lines are the heartbeat, then the reported neighbours in row order, then the missing ones in dictionary order, each with exactly its transition and prefix lines; every transition leaves its state, is a session_down iff it leaves ESTABLISHED and a session_recovered iff it enters it |
| `BgpTracker.LogReplays` | netopsbench/platform/observability/bgp_collector.py:240-282 | replaying a neighbour's transitions from its state at any point yields the tracked state, each event continuing the one before |
| `BgpTracker.FirstSeen` | netopsbench/platform/observability/bgp_collector.py:243-264 | a neighbour's first report emits no event and is tracked as reported |
| `BgpTracker.SwingsAlternate` | netopsbench/platform/observability/bgp_collector.py:170-177 | session_down and session_recovered strictly alternate, the first being session_down iff the session starts established |
| `BgpTracker.LogKindsFit` | netopsbench/platform/observability/bgp_collector.py:170-177 | in the log of every run a transition is session_down iff it leaves ESTABLISHED and session_recovered iff it enters it |
| `BgpTracker.SwingsTell` | netopsbench/platform/observability/bgp_collector.py:170-177 | over every run the downs and recoveries of a neighbour are odd in number iff exactly one of its first and last states is established |
| `BgpTracker.PollStores` | netopsbench/platform/observability/bgp_collector.py:228-282 | after a successful poll a neighbour is as its last row reports, or marked missing without a prefix count if no row names it |
| `BgpTracker.PollEmits` | netopsbench/platform/observability/bgp_collector.py:179-216 | the lines of a tracked neighbour written out from its entry before and after the poll |
| `BgpTracker.NormalizeTrims` | netopsbench/platform/observability/bgp_collector.py:94-97 | a normalized state has no white space at its ends and no lower-case letter |
| `BgpTracker.NormalizeSpace` | netopsbench/platform/observability/bgp_collector.py:94-97 | white space around a state does not matter |
| `BgpTracker.NormalizeKeeps` | netopsbench/platform/observability/bgp_collector.py:94-97 | otherwise the state is the text in upper case, and UNKNOWN when empty |
| `BgpTracker.PollsCommute` | netopsbench/platform/observability/bgp_collector.py:240-282 | polls of different devices commute: same table, same lines |
| `BgpSpool.FreeId` | netopsbench/platform/observability/bgp_collector.py:494-500 | the search ends at the first unused sequence number of the timestamp |
| `BgpSpool.FileMaxTimestamp` | netopsbench/platform/observability/bgp_collector.py:462-469 | the latest timestamp of a file, or none |
| `BgpSpool.MaxStampIs` | netopsbench/platform/observability/bgp_collector.py:462-469 | the maximum is the timestamp of some line and none is later; there is none iff no line has one |
| `BgpSpool.SpoolFiles.Rotate` | netopsbench/platform/observability/bgp_collector.py:488-515 | nothing to do on an empty active file; otherwise seals it whole under the free identity with its marker, or changes nothing, and says exactly when each refusal occurs |
| `BgpSpool.SpoolFiles.Write` | netopsbench/platform/observability/bgp_collector.py:523-551 | all lines are appended, after a seal if the segment would overflow, or nothing changes; exactly when each refusal occurs |
| `BgpSpool.SpoolFiles.DeleteIngested` | netopsbench/platform/observability/bgp_collector.py:554-563 | removes exactly the sealed segments whose identity was ingested |
| `BgpSpool.RunConserves` | netopsbench/platform/observability/bgp_collector.py:488-563 | over every run each accepted line is in the active file, one sealed segment or a deleted one, whatever the timestamps |
| `BgpSpool.WriteSize` | netopsbench/platform/observability/bgp_collector.py:523-551 | the size a write reaches, and exactly when it passes the limit: by the marker the check did not reserve |
| `BgpSpool.RunSize` | netopsbench/platform/observability/bgp_collector.py:536-536 | over every run from the empty spool, whatever the timestamps, the size stays within the limit plus the marker of the last write's seal |
| `BgpSpool.RunBounded` | netopsbench/platform/observability/bgp_collector.py:541-546 | over every run no file holds more than a segment's bytes, or a single write's if that is more, besides its marker |
| `BgpSpool.NeverSealsEarly` | netopsbench/platform/observability/bgp_collector.py:541-546 | while all that was written fits one segment nothing is sealed |
| `BgpSpool.LimitCanBeExceeded` | netopsbench/platform/observability/bgp_collector.py:505-511 | two writes into an empty spool that end above the limit |
| `BgpSpool.SealIsNew` | netopsbench/platform/observability/bgp_collector.py:491-500 | with fresh batch timestamps a seal gets an identity never used before |
| `BgpSpool.ReachableGood` | netopsbench/platform/observability/bgp_collector.py:488-563 | in every run from the empty spool with fresh batch timestamps no identity is reused and a confirmed marker vouches for its own segment's lines |
| `BgpSpool.ReachableCovered` | netopsbench/platform/observability/bgp_collector.py:554-563 | in every run, whatever the timestamps, that never seals under a confirmed identity, each deleted line was ingested |
| `BgpSpool.WriteEndangersIff` | netopsbench/platform/observability/bgp_collector.py:494-514 | a write makes a losing deletion possible iff it seals lines the database lacks under an identity it has confirmed |
| `BgpSpool.RunKeepsNamed` | netopsbench/platform/observability/bgp_collector.py:488-563 | over every run, whatever the timestamps, sealed identities stay distinct and those of one timestamp are handed out consecutively |
| `BgpSpool.ReusedIffDeleted` | netopsbench/platform/observability/bgp_collector.py:494-500 | in every reachable state an identity is reused iff a segment of the same timestamp was deleted |
| `BgpSpool.IdentityCanRepeat` | netopsbench/platform/observability/bgp_collector.py:494-500 | a concrete run with a shared timestamp whose next seal repeats a confirmed identity |
| `BgpSpool.SharedTimestampsLoseLine` | netopsbench/platform/observability/bgp_collector.py:554-563 | that run continued: a deletion of the confirmed identity loses a line that was never ingested |
| `AnomalyAnalysis.GroupBy` | netopsbench/platform/pingmesh/_detector_analysis.py:54-76 | the groups are the rows of each key, keys in order of first appearance |
| `AnomalyAnalysis.LossStats` | netopsbench/platform/pingmesh/_detector_analysis.py:79-106 | totals over the rows that sent probes; none iff no row sent any |
| `AnomalyAnalysis.RealsSorted` | netopsbench/platform/pingmesh/_detector_analysis.py:184-191 | the values a median is read from are in ascending order |
| `AnomalyAnalysis.MedianIsMiddle` | netopsbench/platform/pingmesh/_detector_analysis.py:184-191 | the median is the mean of the values of the two middle ranks, counted by how many values are below and not above them |
| `AnomalyAnalysis.TotalsAdd` | netopsbench/platform/pingmesh/_detector_analysis.py:79-106 | totals add up over rows: sent, lost and samples of the rows that sent probes, drops of all |
| `AnomalyAnalysis.LatencyExact` | netopsbench/platform/pingmesh/_detector_analysis.py:184-206 | a latency spike iff the median is up by 20 ms or more, high from 50 ms, else medium |
| `AnomalyAnalysis.LossExact` | netopsbench/platform/pingmesh/_detector_analysis.py:208-252 | unreachable iff every probe was lost; packet loss iff at least three and not all were, and both the least percentage and the least increase are reached |
| `AnomalyAnalysis.LossSeverity` | netopsbench/platform/pingmesh/_detector_analysis.py:128-141 | a loss is high beyond twice its threshold, low up to one and a half times it |
| `AnomalyAnalysis.MtuExact` | netopsbench/platform/pingmesh/_detector_analysis.py:254-292 | an MTU suspicion iff RTT lost nothing under a positive threshold and sixteen or more DF probes were all lost without drops, up by 15 points or more |
| `AnomalyReport.DetectLatency` | netopsbench/platform/pingmesh/_detector_analysis.py:177-206 | the latency findings, path by path |
| `AnomalyReport.DetectLoss` | netopsbench/platform/pingmesh/_detector_analysis.py:208-252 | the loss findings path by path, and the number of paths measured without a baseline |
| `AnomalyReport.DetectMtu` | netopsbench/platform/pingmesh/_detector_analysis.py:254-292 | one MTU finding per path with a signalling port batch |
| `AnomalyReport.AnalyzeSnapshot` | netopsbench/platform/pingmesh/_detector_analysis.py:294-359 | the anomalies are sorted, one per family and path, each supported by the rows and none omitted; the counters are the sizes of the absolute-health path sets |
| `AnomalyReport.AnalysisReports` | netopsbench/platform/pingmesh/_detector_analysis.py:301-333 | the same of the analysis as a function of the rows |
| `AnomalyReport.LossIsAbsolute` | netopsbench/platform/pingmesh/_detector_analysis.py:311-318 | every loss or unreachability anomaly is on a path the absolute counters count |
| `AnomalyReport.MtuSignalIsAbsolute` | netopsbench/platform/pingmesh/_detector_analysis.py:320-332 | a signalling batch is an absolute MTU batch iff its drop total is not negative |
| `AnomalyReport.MtuIsAbsolute` | netopsbench/platform/pingmesh/_detector_analysis.py:320-332 | without negative drop counts every MTU anomaly is on an absolute MTU path |
| `AnomalyReport.NegativeDropsEscape` | netopsbench/platform/pingmesh/_detector_analysis.py:278-279 | a row with a negative drop count yields an MTU anomaly that no absolute counter shows |
| `AnomalyReport.SelfComparison` | netopsbench/platform/pingmesh/_detector_analysis.py:177-341 | rows compared with themselves give exactly one path_unreachable per absolutely unreachable path, packet_loss for the absolutely lossy paths iff the delta is not positive, and nothing else |
| `WindowMerge.SliceRows` | netopsbench/platform/pingmesh/detector.py:159-173 | exactly the rows stamped in [start, end), in order; a slice of full length is the snapshot itself |
| `WindowMerge.SliceParts` | netopsbench/platform/pingmesh/detector.py:159-173 | slicing goes row by row and keeps the order |
| `WindowMerge.MergeWindows` | netopsbench/platform/pingmesh/detector.py:175-203 | the merged list as a function of the analyses: the last full-window value of each family, labelled and sorted |
| `WindowMerge.MergeKeepsFullIff` | netopsbench/platform/pingmesh/detector.py:175-203 | the merge is the full analysis in order, with only windows and persistence set, iff every family a sub-window named "full" reports is the full window's and its last such report is the same finding |
| `WindowMerge.MergeKeepsFull` | netopsbench/platform/pingmesh/detector.py:175-203 | in particular when no sub-window is named "full" |
| `WindowMerge.SeenExactly` | netopsbench/platform/pingmesh/detector.py:185-194 | a family's windows are the names of the analyses that reported it |
| `WindowMerge.MergedLasting` | netopsbench/platform/pingmesh/detector.py:185-203 | a merged anomaly is persistent iff the early and the steady window report its family, early-only or steady-only iff just that one does, and of the full window iff neither does |
| `WindowMerge.MergedFamilies` | netopsbench/platform/pingmesh/detector.py:178-184 | the merge reports exactly the families of the analyses named "full", each once |
| `WindowMerge.MergeAddsNothingIff` | netopsbench/platform/pingmesh/detector.py:178-184 | the families of the report are the full window's iff sub-windows named "full" report no family of their own |
| `WindowMerge.WindowNamedFullAdds` | netopsbench/platform/pingmesh/detector.py:178-184 | a sub-window named "full" adds its own anomaly |
| `WindowMerge.WindowNamedFullReplaces` | netopsbench/platform/pingmesh/detector.py:178-184 | a sub-window named "full" replaces the full window's anomaly of the same family |
| `WindowMerge.WindowedAnomalies` | netopsbench/platform/pingmesh/detector.py:243-255 | the slice-reuse shortcut does not change the report: every window counts as analysed on its own slice |
| `WindowMerge.WindowedKeepsFullIff` | netopsbench/platform/pingmesh/detector.py:243-255 | the report is the labelled full analysis iff the windows named "full" agree with it |
| `WindowMerge.WindowedKeepsFull` | netopsbench/platform/pingmesh/detector.py:243-255 | in particular when no window is named "full" |
| `PayloadBounds.Compact` | netopsbench/platform/incident/payloads.py:25-53 | the recursive compaction as a function of value and budget |
| `PayloadBounds.CompactionReduces` | netopsbench/platform/incident/payloads.py:25-53 | at every depth compaction keeps scalars, cuts texts and says their length, and keeps the first children of a dictionary or list, in order and under their keys, with the number of the others |
| `PayloadBounds.SizeIsLength` | netopsbench/platform/incident/payloads.py:9-10 | the size of a value is the length of its compact JSON text |
| `PayloadBounds.CompactJson` | netopsbench/platform/incident/payloads.py:13-22 | the value itself if it fits, else its compaction if that fits, else the bare marker; within the bound iff one of the three is |
| `PayloadBounds.ObjectFits` | netopsbench/platform/incident/payloads.py:26-37 | a compacted dictionary keeps a key-order prefix, counts the rest as omitted, and fits its budget whenever it keeps a member |
| `PayloadBounds.ArrayFits` | netopsbench/platform/incident/payloads.py:38-47 | the same of a list |
| `PayloadBounds.MembersMaximal` | netopsbench/platform/incident/payloads.py:33-35 | keeping stops only where one more member would overflow |
| `PayloadBounds.ItemsMaximal` | netopsbench/platform/incident/payloads.py:44-46 | the same of list items |
| `ManagementSubnets.CandidatesDisjoint` | netopsbench/platform/runtime/deployment.py:39-51 | candidates at least a stride apart normalise to disjoint blocks, aligned base or not |
| `ManagementSubnets.CandidateHolds` | netopsbench/platform/runtime/deployment.py:39-51 | the candidate of an octet is the aligned block of the prefix length around 172.31.octet.0 |
| `ManagementSubnets.StrideIs` | netopsbench/platform/runtime/deployment.py:39-51 | octets advance by exactly one block, or by one for blocks within an octet |
| `ManagementSubnets.Allocate` | netopsbench/platform/runtime/deployment.py:90-113 | fails on the first-worker range check, or, for at least one worker, iff fewer than that many candidates are free; otherwise returns the first free ones |
| `ManagementSubnets.AllocationDisjoint` | netopsbench/platform/runtime/deployment.py:101-112 | the allocated subnets are pairwise disjoint and disjoint from every used network |
| `ManagementSubnets.FreeComplete` | netopsbench/platform/runtime/deployment.py:101-109 | no free candidate of the range is passed over |

## Left out

- Sockets, kernel timestamps, HTTP, Flux queries, CSV parsing, Docker and process control: a send, a write, a bind or a drain is an outcome given to the step.
- Text encodings (line protocol, ISO times, JSON escapes) and SHA-256: a row or line carries its values, digests and name hashes are parameters, JSON text sizes are given by an encoder.
- Floating point: percentages, medians, tokens and times are reals or integers; NaN and rounding do not occur.
- `_query_covered_snapshot` and its retry loop and deadlines: only the audit they call is modelled.
- `WindowIngestion.Audit`: the reasons list, record counts and record digest of the answer are not modelled; a progress row without any `_time` makes the source raise outside its handled exceptions and counts as invalid here.
- `CoverageAudit.Summarize`: spans, samples per pair and the lists of rejected records in the summary are not modelled.
- `PlanPipeline.CompiledWindowReady`: the store returns the rows the agents wrote, late or partially but unaltered.
- `PlanCompiler.Compile`: the fingerprint is a parameter of 64 characters; interface names of links are not modelled; a client plan's file digest is any map over the roster.
- `AgentValidation.ValidatePlan`: the products of epoch seconds and jitter bounds are unbounded, so an overflow of u64 in the native code is outside the model.
- `ProbeCycle.RunCycle`: assumes fewer than 2^64 / 16 queued probes, which the address space enforces; the send pacing, the stale-reply drain before the cycle and the latency percentiles are not modelled.
- `TrafficAgent.TrafficRuntime.Load`: heartbeats, error texts and the time a listener takes to close are not modelled; aborting the sender is one step.
- `TokenBucket.ServiceFlow`: reconnect timers and jitter are not modelled, a flow is connected or not at each tick; the active flag and its status update belong to `TrafficAgent`; a UDP socket takes a whole datagram.
- `BgpTracker.BgpTransitionTracker.Process`: white space and case are ASCII; timestamps and topology tags of lines are not modelled; the process lock is implied by one poll being one step.
- `BgpSpool.SpoolFiles.Write`: crashes between the marker write and the rename, and files other than the collector's own, are not modelled.
- `AnomalyAnalysis.GroupBy`: the sort by time inside a group is not modelled; sums and medians do not depend on it.
- `AnomalyReport.AnalyzeSnapshot`: names, leaves and the timestamp an anomaly copies from its earliest row are not modelled, so neither is the time order inside a group, which decides nothing else; the local DF drop and local error sums are not modelled.
- `WindowMerge.MergeWindows`: anomalies are values, so sharing of one anomaly object between two analyses is not modelled; the window names of an anomaly are a set rather than its sorted list.
- `PayloadBounds.Compact`: a dictionary is its members in key order; keys that collide as text or equal `_truncation` are not modelled; the text cut is the encoder's.
- `ManagementSubnets.Allocate`: the used networks are given as address ranges; unparsable ones are already skipped.
- Agent projections of the topology, incident engine, scoring, plotting, SDK managers and LLM agents: simple guards, formatting or foreign services.
