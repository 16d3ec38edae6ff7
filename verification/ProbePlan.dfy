/** Compiled probe schedules as the Python compiler writes them and the native agent reads
    them (netopsbench/models/pingmesh.py, native/client-agent/src/config.rs). */
module ProbePlan {
  import opened FabricGraph
  import opened Counting

  datatype ProbeKind = Rtt | Df

  /** Frame-local target index and batch-local socket index. */
  datatype Probe = Probe(kind: ProbeKind, target: nat, socket: nat)

  datatype Frame = Frame(destinationBatch: nat, portBatch: nat, targets: seq<nat>, probes: seq<Probe>)

  datatype ClientPlan = ClientPlan(
    schemaVersion: nat, planId: string, name: Name, targets: seq<Name>, startupDelayMs: nat, frames: seq<Frame>)

  datatype Settings = Settings(
    planId: string, sourcePorts: seq<nat>, portBatches: seq<seq<nat>>, destinationBatchSize: nat,
    cycleIntervalSeconds: nat, coverageEpochCycles: nat, coverageEpochSeconds: nat,
    completeWindowSeconds: nat, dfPayloadSize: nat)

  datatype AgentConfig = AgentConfig(
    schemaVersion: nat, clients: seq<Name>, digests: map<Name, string>, settings: Settings)

  const SCHEMA_VERSION := 2
  const RESPONDER_PORT := 33434

  /** `(target, socket)` of the RTT probes, in order. */
  function RttTasks(probes: seq<Probe>): seq<(nat, nat)> {
    if probes == [] then [] else
      var last := probes[|probes| - 1];
      RttTasks(probes[..|probes| - 1]) + if last.kind.Rtt? then [(last.target, last.socket)] else []
  }

  /** Target indices of the DF probes, in order. */
  function DfTasks(probes: seq<Probe>): seq<nat> {
    if probes == [] then [] else
      var last := probes[|probes| - 1];
      DfTasks(probes[..|probes| - 1]) + if last.kind.Df? then [last.target] else []
  }

  /** The `(target, port batch)` combinations one frame covers. */
  function FrameTasks(f: Frame): seq<(nat, nat)> {
    seq(|f.targets|, i requires 0 <= i < |f.targets| => (f.targets[i], f.portBatch))
  }

  function EpochTasks(frames: seq<Frame>): seq<(nat, nat)> {
    if frames == [] then [] else
      EpochTasks(frames[..|frames| - 1]) + FrameTasks(frames[|frames| - 1])
  }

  function Flatten(batches: seq<seq<nat>>): seq<nat> {
    if batches == [] then [] else Flatten(batches[..|batches| - 1]) + batches[|batches| - 1]
  }
}
