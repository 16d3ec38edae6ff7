/** The native agent's own re-check of a compiled plan
    (native/client-agent/src/config.rs, `ClientAgentConfig::validate` and
    `ClientProbePlan::validate`), and what acceptance guarantees. */
module AgentValidation {
  import opened FabricGraph
  import opened Counting
  import opened ProbePlan

  // ---------------------------------------------------------------- configuration

  function Insert(s: seq<nat>, x: nat): (r: seq<nat>)
    ensures multiset(r) == multiset(s) + multiset{x}
  {
    if s == [] || x <= s[0] then [x] + s else
      assert s == [s[0]] + s[1..];
      [s[0]] + Insert(s[1..], x)
  }

  /** The indices in ascending order. */
  function Sort(s: seq<nat>): (r: seq<nat>)
    ensures multiset(r) == multiset(s)
  {
    if s == [] then [] else
      assert s == [s[0]] + s[1..];
      Insert(Sort(s[1..]), s[0])
  }

  predicate RosterAccepted(c: AgentConfig) {
    && |c.clients| >= 2
    && |Elems(c.clients)| == |c.clients|
    && (forall i :: 0 <= i < |c.clients| ==> '/' !in c.clients[i] && c.clients[i] != "..")
    && c.digests.Keys == Elems(c.clients)
  }

  predicate SettingsAccepted(s: Settings) {
    && |s.planId| == 64
    && s.sourcePorts != []
    && RESPONDER_PORT !in s.sourcePorts
    && |Elems(s.sourcePorts)| == |s.sourcePorts|
    && s.cycleIntervalSeconds != 0
    && s.coverageEpochCycles != 0
    && s.destinationBatchSize != 0
    && 24 <= s.dfPayloadSize <= 65507
    && s.portBatches != []
    && (forall i :: 0 <= i < |s.portBatches| ==> s.portBatches[i] != [])
    && s.coverageEpochSeconds == s.coverageEpochCycles * s.cycleIntervalSeconds
    && s.completeWindowSeconds >= s.coverageEpochSeconds
  }

  /** `ClientAgentConfig::validate`. */
  predicate ConfigAccepted(c: AgentConfig) {
    && c.schemaVersion == SCHEMA_VERSION
    && RosterAccepted(c)
    && SettingsAccepted(c.settings)
    && Sort(Flatten(c.settings.portBatches)) == Range(|c.settings.sourcePorts|)
  }

  // ---------------------------------------------------------------- the per-frame loops

  ghost predicate InRange(probes: seq<Probe>, n: nat, b: nat) {
    forall i :: 0 <= i < |probes| ==> probes[i].target < n && probes[i].socket < b
  }

  /** One RTT probe per (target, socket) and one DF probe per target, and nothing else. */
  ghost predicate ExactTasks(probes: seq<Probe>, n: nat, b: nat) {
    && InRange(probes, n, b)
    && NoDup(RttTasks(probes)) && Elems(RttTasks(probes)) == Grid(n, b)
    && NoDup(DfTasks(probes)) && Elems(DfTasks(probes)) == Elems(Range(n))
  }

  lemma {:induction false} TasksInRange(probes: seq<Probe>, n: nat, b: nat)
    requires InRange(probes, n, b)
    ensures forall x :: x in RttTasks(probes) ==> x in Grid(n, b)
    ensures forall x :: x in DfTasks(probes) ==> x < n
  {
    if probes != [] {
      TasksInRange(probes[..|probes| - 1], n, b);
      var last := probes[|probes| - 1];
      GridMember(n, b, (last.target, last.socket));
    }
  }

  lemma Appended<T>(s: seq<T>, x: T)
    ensures Elems(s + [x]) == Elems(s) + {x}
    ensures NoDup(s + [x]) <==> NoDup(s) && x !in s
  {
    var t := s + [x];
    assert t[|s|] == x;
    if NoDup(t) {
      assert forall i :: 0 <= i < |s| ==> t[i] == s[i];
    }
  }

  lemma PrefixNoDup<T>(s: seq<T>, t: seq<T>)
    requires s <= t && NoDup(t)
    ensures NoDup(s)
  {
  }

  lemma TaskStep(probes: seq<Probe>, k: nat)
    requires k < |probes|
    ensures RttTasks(probes[..k + 1]) ==
            RttTasks(probes[..k]) + if probes[k].kind.Rtt? then [(probes[k].target, probes[k].socket)] else []
    ensures DfTasks(probes[..k + 1]) == DfTasks(probes[..k]) + if probes[k].kind.Df? then [probes[k].target] else []
  {
    assert probes[..k + 1][..k] == probes[..k];
  }

  lemma {:induction false} TaskPrefix(probes: seq<Probe>, k: nat)
    requires k <= |probes|
    ensures RttTasks(probes[..k]) <= RttTasks(probes)
    ensures DfTasks(probes[..k]) <= DfTasks(probes)
    decreases |probes| - k
  {
    if k < |probes| {
      TaskStep(probes, k);
      TaskPrefix(probes, k + 1);
    } else {
      assert probes[..k] == probes;
    }
  }

  ghost predicate Collected(probes: seq<Probe>, n: nat, b: nat, rtt: set<(nat, nat)>, df: set<nat>) {
    && InRange(probes, n, b)
    && NoDup(RttTasks(probes)) && rtt == Elems(RttTasks(probes))
    && NoDup(DfTasks(probes)) && df == Elems(DfTasks(probes))
  }

  /** What inserting one probe into the hash sets may do. */
  lemma CollectOne(probes: seq<Probe>, k: nat, n: nat, b: nat, rtt: set<(nat, nat)>, df: set<nat>)
    requires k < |probes| && Collected(probes[..k], n, b, rtt, df)
    ensures var p := probes[k];
            var fits := p.target < n && p.socket < b &&
                        if p.kind.Rtt? then (p.target, p.socket) !in rtt else p.target !in df;
            && (!fits ==> !ExactTasks(probes, n, b))
            && (fits ==> Collected(probes[..k + 1], n, b,
                                   if p.kind.Rtt? then rtt + {(p.target, p.socket)} else rtt,
                                   if p.kind.Df? then df + {p.target} else df))
  {
    TaskStep(probes, k);
    TaskPrefix(probes, k + 1);
    var p := probes[k];
    if p.kind.Rtt? {
      Appended(RttTasks(probes[..k]), (p.target, p.socket));
    } else {
      Appended(DfTasks(probes[..k]), p.target);
    }
  }

  /** The loop over `frame.probes` with the two hash sets, and the count check after it. */
  method CheckProbes(probes: seq<Probe>, n: nat, b: nat) returns (ok: bool)
    ensures ok <==> ExactTasks(probes, n, b)
  {
    var rtt: set<(nat, nat)>, df: set<nat> := {}, {};
    for k := 0 to |probes|
      invariant Collected(probes[..k], n, b, rtt, df)
    {
      var kind, target, socket := probes[k].kind, probes[k].target, probes[k].socket;
      CollectOne(probes, k, n, b, rtt, df);
      if target >= n || socket >= b {
        return false;
      }
      match kind {
        case Rtt =>
          if (target, socket) in rtt {
            return false;
          }
          rtt := rtt + {(target, socket)};
        case Df =>
          if target in df {
            return false;
          }
          df := df + {target};
      }
    }
    assert probes[..|probes|] == probes;
    TasksInRange(probes, n, b);
    FullGrid(rtt, n, b);
    FullRange(df, n);
    ok := |rtt| == n * b && |df| == n;
  }

  ghost predicate FrameAccepted(f: Frame, s: Settings, targets: nat) {
    && f.portBatch < |s.portBatches|
    && |f.targets| <= s.destinationBatchSize
    && (forall i :: 0 <= i < |f.targets| ==> f.targets[i] < targets)
    && NoDup(f.targets)
    && ExactTasks(f.probes, |f.targets|, |s.portBatches[f.portBatch]|)
  }

  method CheckFrame(f: Frame, s: Settings, targets: nat) returns (ok: bool)
    ensures ok <==> FrameAccepted(f, s, targets)
  {
    if f.portBatch >= |s.portBatches| {
      return false;
    }
    NoDupCard(f.targets);
    if |f.targets| > s.destinationBatchSize
       || (exists i :: 0 <= i < |f.targets| && f.targets[i] >= targets)
       || |Elems(f.targets)| != |f.targets| {
      return false;
    }
    ok := CheckProbes(f.probes, |f.targets|, |s.portBatches[f.portBatch]|);
  }

  // ---------------------------------------------------------------- the whole plan

  predicate HeaderAccepted(plan: ClientPlan, c: AgentConfig, local: Name) {
    && plan.schemaVersion == SCHEMA_VERSION
    && plan.planId == c.settings.planId
    && plan.name == local
    && |plan.frames| == c.settings.coverageEpochCycles
    && plan.targets != []
    && |Elems(plan.targets)| == |plan.targets|
    && (forall i :: 0 <= i < |plan.targets| ==> plan.targets[i] != local && plan.targets[i] in c.clients)
    && plan.startupDelayMs < c.settings.cycleIntervalSeconds * 1000
  }

  /** What acceptance means: every frame exact, and every (target, port batch) in exactly one frame. */
  ghost predicate PlanAccepted(plan: ClientPlan, c: AgentConfig, local: Name) {
    && HeaderAccepted(plan, c, local)
    && (forall f :: f in plan.frames ==> FrameAccepted(f, c.settings, |plan.targets|))
    && NoDup(EpochTasks(plan.frames))
    && Elems(EpochTasks(plan.frames)) == Grid(|plan.targets|, |c.settings.portBatches|)
  }

  lemma EpochStep(frames: seq<Frame>, k: nat)
    requires k < |frames|
    ensures EpochTasks(frames[..k + 1]) == EpochTasks(frames[..k]) + FrameTasks(frames[k])
  {
    assert frames[..k + 1][..k] == frames[..k];
  }

  lemma {:induction false} EpochPrefix(frames: seq<Frame>, k: nat)
    requires k <= |frames|
    ensures EpochTasks(frames[..k]) <= EpochTasks(frames)
    decreases |frames| - k
  {
    if k < |frames| {
      EpochStep(frames, k);
      EpochPrefix(frames, k + 1);
    } else {
      assert frames[..k] == frames;
    }
  }

  lemma {:induction false} EpochInRange(frames: seq<Frame>, s: Settings, targets: nat)
    requires forall f :: f in frames ==> FrameAccepted(f, s, targets)
    ensures forall x :: x in EpochTasks(frames) ==> x in Grid(targets, |s.portBatches|)
  {
    if frames != [] {
      var front, last := frames[..|frames| - 1], frames[|frames| - 1];
      EpochInRange(front, s, targets);
      assert FrameAccepted(last, s, targets);
      forall i | 0 <= i < |last.targets|
        ensures FrameTasks(last)[i] in Grid(targets, |s.portBatches|)
      {
        GridMember(targets, |s.portBatches|, FrameTasks(last)[i]);
      }
    }
  }

  /** The `coverage.insert` loop of one frame; it fails on the first repeated combination. */
  method InsertTasks(tasks: seq<(nat, nat)>, ghost done: seq<(nat, nat)>, before: set<(nat, nat)>)
    returns (ok: bool, coverage: set<(nat, nat)>)
    requires NoDup(done) && before == Elems(done)
    ensures ok <==> NoDup(done + tasks)
    ensures ok ==> coverage == Elems(done + tasks)
  {
    coverage := before;
    assert done + [] == done;
    for i := 0 to |tasks|
      invariant NoDup(done + tasks[..i]) && coverage == Elems(done + tasks[..i])
    {
      ghost var now := done + tasks[..i];
      Appended(now, tasks[i]);
      assert done + tasks[..i + 1] == now + [tasks[i]];
      if tasks[i] in coverage {
        if NoDup(done + tasks) {
          PrefixNoDup(done + tasks[..i + 1], done + tasks);
        }
        return false, coverage;
      }
      coverage := coverage + {tasks[i]};
    }
    assert tasks[..|tasks|] == tasks;
    ok := true;
  }

  /** `ClientProbePlan::validate`. */
  method ValidatePlan(plan: ClientPlan, c: AgentConfig, local: Name) returns (ok: bool)
    ensures ok <==> PlanAccepted(plan, c, local)
  {
    if !HeaderAccepted(plan, c, local) {
      return false;
    }
    var frames, s, n := plan.frames, c.settings, |plan.targets|;
    var exact, coverage := CheckFrames(frames, s, n);
    if !exact {
      return false;
    }
    EpochInRange(frames, s, n);
    FullGrid(coverage, n, |s.portBatches|);
    ok := |coverage| == n * |s.portBatches|;
  }

  /** Frames that are exact and cover no combination twice. */
  ghost predicate FramesExact(frames: seq<Frame>, s: Settings, n: nat) {
    (forall i :: 0 <= i < |frames| ==> FrameAccepted(frames[i], s, n)) && NoDup(EpochTasks(frames))
  }

  lemma FramesPrefix(frames: seq<Frame>, k: nat, s: Settings, n: nat)
    requires k <= |frames| && FramesExact(frames, s, n)
    ensures FramesExact(frames[..k], s, n)
  {
    EpochPrefix(frames, k);
    PrefixNoDup(EpochTasks(frames[..k]), EpochTasks(frames));
  }

  lemma FramesStep(frames: seq<Frame>, k: nat, s: Settings, n: nat)
    requires k < |frames| && FramesExact(frames[..k], s, n)
    ensures FramesExact(frames[..k + 1], s, n) <==>
            FrameAccepted(frames[k], s, n) && NoDup(EpochTasks(frames[..k]) + FrameTasks(frames[k]))
  {
    EpochStep(frames, k);
    var now := frames[..k + 1];
    assert now[k] == frames[k];
    assert forall i :: 0 <= i < k ==> now[i] == frames[..k][i];
  }

  /** The frame loop, with the combinations covered. */
  method CheckFrames(frames: seq<Frame>, s: Settings, n: nat) returns (ok: bool, coverage: set<(nat, nat)>)
    ensures ok <==> FramesExact(frames, s, n)
    ensures ok ==> coverage == Elems(EpochTasks(frames))
  {
    coverage := {};
    for k := 0 to |frames|
      invariant FramesExact(frames[..k], s, n) && coverage == Elems(EpochTasks(frames[..k]))
    {
      FramesStep(frames, k, s, n);
      EpochStep(frames, k);
      var exact := CheckFrame(frames[k], s, n);
      var unseen := false;
      if exact {
        unseen, coverage := InsertTasks(FrameTasks(frames[k]), EpochTasks(frames[..k]), coverage);
      }
      if !unseen {
        if FramesExact(frames, s, n) {
          FramesPrefix(frames, k + 1, s, n);
        }
        return false, coverage;
      }
    }
    assert frames[..|frames|] == frames;
    ok := true;
  }

  // ---------------------------------------------------------------- what an accepted plan probes

  /** `(target, source port)` of every RTT probe of a frame. */
  ghost function FrameRtt(f: Frame, batch: seq<nat>): seq<(nat, nat)>
    requires InRange(f.probes, |f.targets|, |batch|)
  {
    RttPorts(f.probes, f.targets, batch)
  }

  ghost function RttPorts(probes: seq<Probe>, targets: seq<nat>, batch: seq<nat>): seq<(nat, nat)>
    requires InRange(probes, |targets|, |batch|)
  {
    if probes == [] then [] else
      var last := probes[|probes| - 1];
      RttPorts(probes[..|probes| - 1], targets, batch)
      + if last.kind.Rtt? then [(targets[last.target], batch[last.socket])] else []
  }

  ghost predicate Probing(frames: seq<Frame>, s: Settings) {
    forall f :: f in frames ==>
                  f.portBatch < |s.portBatches| && InRange(f.probes, |f.targets|, |s.portBatches[f.portBatch]|)
  }

  /** `(target, source port)` of every RTT probe of an epoch, in sending order. */
  ghost function EpochRtt(frames: seq<Frame>, s: Settings): seq<(nat, nat)>
    requires Probing(frames, s)
  {
    if frames == [] then [] else
      var last := frames[|frames| - 1];
      EpochRtt(frames[..|frames| - 1], s) + FrameRtt(last, s.portBatches[last.portBatch])
  }

  /** `(target, port batch)` of every DF probe of a frame. */
  ghost function DfTargets(probes: seq<Probe>, targets: seq<nat>, batch: nat): seq<(nat, nat)>
    requires forall i :: 0 <= i < |probes| ==> probes[i].target < |targets|
  {
    if probes == [] then [] else
      var last := probes[|probes| - 1];
      DfTargets(probes[..|probes| - 1], targets, batch) + if last.kind.Df? then [(targets[last.target], batch)] else []
  }

  ghost function EpochDf(frames: seq<Frame>, s: Settings): seq<(nat, nat)>
    requires Probing(frames, s)
  {
    if frames == [] then [] else
      var last := frames[|frames| - 1];
      EpochDf(frames[..|frames| - 1], s) + DfTargets(last.probes, last.targets, last.portBatch)
  }

  lemma FrontInRange(probes: seq<Probe>, n: nat, b: nat)
    requires probes != [] && InRange(probes, n, b)
    ensures InRange(probes[..|probes| - 1], n, b)
    ensures probes[|probes| - 1].target < n && probes[|probes| - 1].socket < b
  {
  }

  lemma CountAppend<T>(s: seq<T>, y: T, x: T)
    ensures multiset(s + [y])[x] == multiset(s)[x] + if x == y then 1 else 0
  {
  }

  /** Injective tables tell tasks apart. */
  lemma SameTask(targets: seq<nat>, batch: seq<nat>, x: (nat, nat), y: (nat, nat))
    requires NoDup(targets) && NoDup(batch)
    requires x.0 < |targets| && y.0 < |targets| && x.1 < |batch| && y.1 < |batch|
    ensures (targets[x.0], batch[x.1]) == (targets[y.0], batch[y.1]) <==> x == y
  {
  }

  /** Renaming local indices by injective tables keeps multiplicities. */
  lemma {:induction false} RttPortsCount(probes: seq<Probe>, targets: seq<nat>, batch: seq<nat>, t: nat, p: nat)
    requires InRange(probes, |targets|, |batch|) && NoDup(targets) && NoDup(batch)
    requires t < |targets| && p < |batch|
    ensures multiset(RttPorts(probes, targets, batch))[(targets[t], batch[p])] == multiset(RttTasks(probes))[(t, p)]
  {
    if probes != [] {
      var front, last := probes[..|probes| - 1], probes[|probes| - 1];
      FrontInRange(probes, |targets|, |batch|);
      RttPortsCount(front, targets, batch, t, p);
      if last.kind.Rtt? {
        SameTask(targets, batch, (t, p), (last.target, last.socket));
        CountAppend(RttPorts(front, targets, batch), (targets[last.target], batch[last.socket]), (targets[t], batch[p]));
        CountAppend(RttTasks(front), (last.target, last.socket), (t, p));
      } else {
        assert RttPorts(probes, targets, batch) == RttPorts(front, targets, batch);
        assert RttTasks(probes) == RttTasks(front);
      }
    }
  }

  lemma {:induction false} RttPortsWithin(probes: seq<Probe>, targets: seq<nat>, batch: seq<nat>)
    requires InRange(probes, |targets|, |batch|)
    ensures forall x :: x in RttPorts(probes, targets, batch) ==> x.0 in targets && x.1 in batch
  {
    if probes != [] {
      RttPortsWithin(probes[..|probes| - 1], targets, batch);
    }
  }

  lemma SameTarget(targets: seq<nat>, t: nat, u: nat)
    requires NoDup(targets) && t < |targets| && u < |targets|
    ensures targets[t] == targets[u] <==> t == u
  {
  }

  lemma {:induction false} DfTargetsCount(probes: seq<Probe>, targets: seq<nat>, batch: nat, t: nat)
    requires forall i :: 0 <= i < |probes| ==> probes[i].target < |targets|
    requires NoDup(targets) && t < |targets|
    ensures multiset(DfTargets(probes, targets, batch))[(targets[t], batch)] == multiset(DfTasks(probes))[t]
  {
    if probes != [] {
      var front, last := probes[..|probes| - 1], probes[|probes| - 1];
      DfTargetsCount(front, targets, batch, t);
      if last.kind.Df? {
        SameTarget(targets, t, last.target);
        CountAppend(DfTargets(front, targets, batch), (targets[last.target], batch), (targets[t], batch));
        CountAppend(DfTasks(front), last.target, t);
      } else {
        assert DfTargets(probes, targets, batch) == DfTargets(front, targets, batch);
        assert DfTasks(probes) == DfTasks(front);
      }
    }
  }

  lemma {:induction false} DfTargetsWithin(probes: seq<Probe>, targets: seq<nat>, batch: nat)
    requires forall i :: 0 <= i < |probes| ==> probes[i].target < |targets|
    ensures forall x :: x in DfTargets(probes, targets, batch) ==> x.0 in targets && x.1 == batch
  {
    if probes != [] {
      DfTargetsWithin(probes[..|probes| - 1], targets, batch);
    }
  }

  /** A frame probes exactly its own targets, each over every port of its batch, once. */
  lemma FrameRttCount(f: Frame, batch: seq<nat>, target: nat, port: nat)
    requires NoDup(f.targets) && NoDup(batch) && ExactTasks(f.probes, |f.targets|, |batch|)
    ensures multiset(FrameRtt(f, batch))[(target, port)] == if target in f.targets && port in batch then 1 else 0
  {
    if target in f.targets && port in batch {
      var t :| 0 <= t < |f.targets| && f.targets[t] == target;
      var p :| 0 <= p < |batch| && batch[p] == port;
      RttPortsCount(f.probes, f.targets, batch, t, p);
      GridMember(|f.targets|, |batch|, (t, p));
      NoDupCount(RttTasks(f.probes), (t, p));
      assert (t, p) in Elems(RttTasks(f.probes));
    } else {
      RttPortsWithin(f.probes, f.targets, batch);
    }
  }

  lemma FrameDfCount(f: Frame, batch: seq<nat>, target: nat, index: nat)
    requires NoDup(f.targets) && ExactTasks(f.probes, |f.targets|, |batch|)
    ensures multiset(DfTargets(f.probes, f.targets, f.portBatch))[(target, index)] ==
            if target in f.targets && index == f.portBatch then 1 else 0
  {
    if target in f.targets && index == f.portBatch {
      var t :| 0 <= t < |f.targets| && f.targets[t] == target;
      DfTargetsCount(f.probes, f.targets, f.portBatch, t);
      NoDupCount(DfTasks(f.probes), t);
      assert Range(|f.targets|)[t] == t;
      assert t in Elems(DfTasks(f.probes));
    } else {
      DfTargetsWithin(f.probes, f.targets, f.portBatch);
    }
  }

  lemma FrameTaskCount(f: Frame, target: nat, index: nat)
    requires NoDup(f.targets)
    ensures multiset(FrameTasks(f))[(target, index)] == if target in f.targets && index == f.portBatch then 1 else 0
  {
    var s := FrameTasks(f);
    assert NoDup(s);
    NoDupCount(s, (target, index));
    if target in f.targets && index == f.portBatch {
      var t :| 0 <= t < |f.targets| && f.targets[t] == target;
      assert s[t] == (target, index);
    }
  }

  // ---------------------------------------------------------------- the port-batch partition

  lemma {:induction false} FlattenCount(batches: seq<seq<nat>>, i: nat, x: nat)
    requires i < |batches|
    ensures multiset(Flatten(batches))[x] >= multiset(batches[i])[x]
    ensures forall j :: i < j < |batches| ==> multiset(Flatten(batches))[x] >= multiset(batches[i])[x] + multiset(batches[j])[x]
  {
    var front, last := batches[..|batches| - 1], batches[|batches| - 1];
    if i < |front| {
      FlattenCount(front, i, x);
      assert forall j :: i < j < |front| ==> front[j] == batches[j];
    }
  }

  lemma {:induction false} FlattenMember(batches: seq<seq<nat>>, x: nat)
    requires x in Flatten(batches)
    ensures exists i :: 0 <= i < |batches| && x in batches[i]
  {
    var front, last := batches[..|batches| - 1], batches[|batches| - 1];
    if x !in last {
      FlattenMember(front, x);
      var i :| 0 <= i < |front| && x in front[i];
      assert x in batches[i];
    }
  }

  lemma PortCounted(s: Settings, port: nat)
    requires Sort(Flatten(s.portBatches)) == Range(|s.sourcePorts|) && port < |s.sourcePorts|
    ensures multiset(Flatten(s.portBatches))[port] == 1 && port in Flatten(s.portBatches)
  {
    RangeCard(|s.sourcePorts|);
    NoDupCount(Range(|s.sourcePorts|), port);
    assert Range(|s.sourcePorts|)[port] == port;
    assert port in multiset(Flatten(s.portBatches));
  }

  /** The sort-and-compare check makes the batches a partition of the port pool. */
  lemma PortsPartitioned(s: Settings, port: nat)
    requires Sort(Flatten(s.portBatches)) == Range(|s.sourcePorts|) && port < |s.sourcePorts|
    ensures exists i :: 0 <= i < |s.portBatches| && port in s.portBatches[i]
    ensures forall i, j :: 0 <= i < j < |s.portBatches| && port in s.portBatches[i] ==> port !in s.portBatches[j]
  {
    PortCounted(s, port);
    FlattenMember(s.portBatches, port);
    forall i, j | 0 <= i < j < |s.portBatches| && port in s.portBatches[i]
      ensures port !in s.portBatches[j]
    {
      FlattenCount(s.portBatches, i, port);
      assert multiset(s.portBatches[i])[port] >= 1;
    }
  }

  lemma BatchNoDup(s: Settings, i: nat)
    requires Sort(Flatten(s.portBatches)) == Range(|s.sourcePorts|) && i < |s.portBatches|
    ensures NoDup(s.portBatches[i])
  {
    var b := s.portBatches[i];
    if !NoDup(b) {
      var k, l :| 0 <= k < l < |b| && b[k] == b[l];
      Twice(b, k, l);
      FlattenCount(s.portBatches, i, b[k]);
      RangeCard(|s.sourcePorts|);
      NoDupCount(Range(|s.sourcePorts|), b[k]);
      assert false;
    }
  }

  lemma Twice(b: seq<nat>, k: nat, l: nat)
    requires k < l < |b| && b[k] == b[l]
    ensures multiset(b)[b[k]] >= 2
  {
    assert b == b[..k] + [b[k]] + b[k + 1..l] + [b[k]] + b[l + 1..];
  }

  // ---------------------------------------------------------------- main theorems

  lemma {:induction false} EpochRttCount(frames: seq<Frame>, s: Settings, targets: nat, target: nat, port: nat, b: nat)
    requires Sort(Flatten(s.portBatches)) == Range(|s.sourcePorts|) && port < |s.sourcePorts|
    requires Probing(frames, s)
    requires forall f :: f in frames ==> FrameAccepted(f, s, targets)
    requires b < |s.portBatches| && port in s.portBatches[b]
    ensures multiset(EpochRtt(frames, s))[(target, port)] == multiset(EpochTasks(frames))[(target, b)]
  {
    if frames != [] {
      var front, last := frames[..|frames| - 1], frames[|frames| - 1];
      EpochRttCount(front, s, targets, target, port, b);
      assert FrameAccepted(last, s, targets);
      var batch := s.portBatches[last.portBatch];
      BatchNoDup(s, last.portBatch);
      FrameRttCount(last, batch, target, port);
      FrameTaskCount(last, target, b);
      PortsPartitioned(s, port);
      assert port in batch <==> last.portBatch == b;
    }
  }

  lemma {:induction false} EpochDfCount(frames: seq<Frame>, s: Settings, targets: nat, target: nat, b: nat)
    requires Probing(frames, s)
    requires forall f :: f in frames ==> FrameAccepted(f, s, targets)
    ensures multiset(EpochDf(frames, s))[(target, b)] == multiset(EpochTasks(frames))[(target, b)]
  {
    if frames != [] {
      var front, last := frames[..|frames| - 1], frames[|frames| - 1];
      EpochDfCount(front, s, targets, target, b);
      assert FrameAccepted(last, s, targets);
      FrameDfCount(last, s.portBatches[last.portBatch], target, b);
      FrameTaskCount(last, target, b);
    }
  }

  lemma {:induction false} FlattenContains(batches: seq<seq<nat>>, i: nat, x: nat)
    requires i < |batches| && x in batches[i]
    ensures x in Flatten(batches)
  {
    if i < |batches| - 1 {
      FlattenContains(batches[..|batches| - 1], i, x);
    }
  }

  lemma PortsInPool(s: Settings, i: nat, port: nat)
    requires Sort(Flatten(s.portBatches)) == Range(|s.sourcePorts|)
    requires i < |s.portBatches| && port in s.portBatches[i]
    ensures port < |s.sourcePorts|
  {
    FlattenContains(s.portBatches, i, port);
    assert port in multiset(Flatten(s.portBatches));
    assert port in Range(|s.sourcePorts|);
  }

  lemma {:induction false} EpochWithin(frames: seq<Frame>, s: Settings, targets: nat)
    requires Sort(Flatten(s.portBatches)) == Range(|s.sourcePorts|)
    requires Probing(frames, s)
    requires forall f :: f in frames ==> FrameAccepted(f, s, targets)
    ensures forall x :: x in EpochRtt(frames, s) ==> x.0 < targets && x.1 < |s.sourcePorts|
    ensures forall x :: x in EpochDf(frames, s) ==> x.0 < targets && x.1 < |s.portBatches|
  {
    if frames != [] {
      var front, last := frames[..|frames| - 1], frames[|frames| - 1];
      EpochWithin(front, s, targets);
      assert FrameAccepted(last, s, targets);
      var batch := s.portBatches[last.portBatch];
      RttPortsWithin(last.probes, last.targets, batch);
      DfTargetsWithin(last.probes, last.targets, last.portBatch);
      forall p | p in batch
        ensures p < |s.sourcePorts|
      {
        PortsInPool(s, last.portBatch, p);
      }
    }
  }

  lemma SameCounts(s: seq<(nat, nat)>, n: nat, m: nat)
    requires forall x :: x in s ==> x.0 < n && x.1 < m
    requires forall i: nat, j: nat :: i < n && j < m ==> multiset(s)[(i, j)] == 1
    ensures multiset(s) == multiset(Grid(n, m))
  {
    var g := multiset(Grid(n, m));
    forall x: (nat, nat)
      ensures multiset(s)[x] == g[x]
    {
      GridMember(n, m, x);
      if x in multiset(s) {
        assert x in s;
      }
      assert x == (x.0, x.1);
    }
  }

  lemma TaskOnce(plan: ClientPlan, c: AgentConfig, local: Name, target: nat, b: nat)
    requires PlanAccepted(plan, c, local) && target < |plan.targets| && b < |c.settings.portBatches|
    ensures multiset(EpochTasks(plan.frames))[(target, b)] == 1
  {
    var tasks := EpochTasks(plan.frames);
    NoDupCount(tasks, (target, b));
    GridMember(|plan.targets|, |c.settings.portBatches|, (target, b));
    assert (target, b) in Elems(tasks);
  }

  lemma AcceptedIsProbing(plan: ClientPlan, c: AgentConfig, local: Name)
    requires PlanAccepted(plan, c, local)
    ensures Probing(plan.frames, c.settings)
  {
    forall f | f in plan.frames
      ensures f.portBatch < |c.settings.portBatches|
              && InRange(f.probes, |f.targets|, |c.settings.portBatches[f.portBatch]|)
    {
      assert FrameAccepted(f, c.settings, |plan.targets|);
    }
  }

  /** Whatever the agent accepts probes every target from every source port by RTT exactly
      once per epoch, sends exactly one DF task per target and port batch, and nothing else. */
  lemma AcceptedProbesExactlyOnce(plan: ClientPlan, c: AgentConfig, local: Name)
    requires ConfigAccepted(c) && PlanAccepted(plan, c, local)
    ensures Probing(plan.frames, c.settings)
    ensures multiset(EpochRtt(plan.frames, c.settings)) ==
            multiset(Grid(|plan.targets|, |c.settings.sourcePorts|))
    ensures multiset(EpochDf(plan.frames, c.settings)) ==
            multiset(Grid(|plan.targets|, |c.settings.portBatches|))
  {
    var frames, s, n := plan.frames, c.settings, |plan.targets|;
    AcceptedIsProbing(plan, c, local);
    EpochWithin(frames, s, n);
    forall target: nat, port: nat | target < n && port < |s.sourcePorts|
      ensures multiset(EpochRtt(frames, s))[(target, port)] == 1
    {
      PortsPartitioned(s, port);
      var b :| 0 <= b < |s.portBatches| && port in s.portBatches[b];
      EpochRttCount(frames, s, n, target, port, b);
      TaskOnce(plan, c, local, target, b);
    }
    SameCounts(EpochRtt(frames, s), n, |s.sourcePorts|);
    forall target: nat, b: nat | target < n && b < |s.portBatches|
      ensures multiset(EpochDf(frames, s))[(target, b)] == 1
    {
      EpochDfCount(frames, s, n, target, b);
      TaskOnce(plan, c, local, target, b);
    }
    SameCounts(EpochDf(frames, s), n, |s.portBatches|);
  }

  // ---------------------------------------------------------------- nothing can be altered

  /** An accepted plan is refused under another identity, with another number of frames, with a
      start that is late, and without targets. */
  lemma AlteredPlanRefused(plan: ClientPlan, c: AgentConfig, local: Name)
    requires PlanAccepted(plan, c, local)
    ensures forall v: nat :: v != plan.schemaVersion ==> !PlanAccepted(plan.(schemaVersion := v), c, local)
    ensures forall id: string :: id != plan.planId ==> !PlanAccepted(plan.(planId := id), c, local)
    ensures forall x: Name :: x != local ==> !PlanAccepted(plan.(name := x), c, local) && !PlanAccepted(plan, c, x)
    ensures forall ms: nat :: ms >= c.settings.cycleIntervalSeconds * 1000 ==>
              !PlanAccepted(plan.(startupDelayMs := ms), c, local)
    ensures forall frames: seq<Frame> :: |frames| != |plan.frames| ==> !PlanAccepted(plan.(frames := frames), c, local)
    ensures !PlanAccepted(plan.(targets := []), c, local)
  {
  }

  /** So it is with a target that is the client itself, unknown or repeated. */
  lemma AlteredTargetRefused(plan: ClientPlan, c: AgentConfig, local: Name, i: nat, x: Name)
    requires PlanAccepted(plan, c, local) && i < |plan.targets| && x != plan.targets[i]
    requires x == local || x !in c.clients || x in plan.targets
    ensures !PlanAccepted(plan.(targets := plan.targets[i := x]), c, local)
  {
    var altered := plan.targets[i := x];
    assert altered[i] == x;
    NoDupCard(altered);
    if x in plan.targets {
      var j :| 0 <= j < |plan.targets| && plan.targets[j] == x;
      assert altered[j] == x;
    }
  }

  /** An accepted configuration is refused with an unreadable identity, with nothing to run, with
      a DF payload out of range, or with times that do not fit the epoch. */
  lemma AlteredSettingsRefused(c: AgentConfig)
    requires ConfigAccepted(c)
    ensures forall v: nat :: v != c.schemaVersion ==> !ConfigAccepted(c.(schemaVersion := v))
    ensures forall id: string :: |id| != 64 ==> !SettingsAccepted(c.settings.(planId := id))
    ensures !SettingsAccepted(c.settings.(sourcePorts := [])) && !SettingsAccepted(c.settings.(portBatches := []))
    ensures !SettingsAccepted(c.settings.(destinationBatchSize := 0))
    ensures forall n: nat :: n < 24 || n > 65507 ==> !SettingsAccepted(c.settings.(dfPayloadSize := n))
    ensures forall n: nat :: n != c.settings.cycleIntervalSeconds ==> !SettingsAccepted(c.settings.(cycleIntervalSeconds := n))
    ensures forall n: nat :: n != c.settings.coverageEpochCycles ==> !SettingsAccepted(c.settings.(coverageEpochCycles := n))
    ensures forall n: nat :: n != c.settings.coverageEpochSeconds ==> !SettingsAccepted(c.settings.(coverageEpochSeconds := n))
    ensures forall n: nat :: n < c.settings.coverageEpochSeconds ==> !SettingsAccepted(c.settings.(completeWindowSeconds := n))
  {
    var s := c.settings;
    forall n: nat | n != s.cycleIntervalSeconds
      ensures !SettingsAccepted(s.(cycleIntervalSeconds := n))
    {
      Products(s.coverageEpochCycles, s.cycleIntervalSeconds, n);
    }
    forall n: nat | n != s.coverageEpochCycles
      ensures !SettingsAccepted(s.(coverageEpochCycles := n))
    {
      Products(s.cycleIntervalSeconds, s.coverageEpochCycles, n);
    }
  }

  /** So it is with the responder's port or a repeated one in the pool, or an empty port batch. */
  lemma AlteredPortRefused(c: AgentConfig, i: nat, port: nat, k: nat)
    requires ConfigAccepted(c)
    requires i < |c.settings.sourcePorts| && port != c.settings.sourcePorts[i]
    requires port == RESPONDER_PORT || port in c.settings.sourcePorts
    requires k < |c.settings.portBatches|
    ensures !SettingsAccepted(c.settings.(sourcePorts := c.settings.sourcePorts[i := port]))
    ensures !SettingsAccepted(c.settings.(portBatches := c.settings.portBatches[k := []]))
  {
    var s := c.settings;
    var altered := s.sourcePorts[i := port];
    assert altered[i] == port;
    NoDupCard(altered);
    if port in s.sourcePorts {
      var j :| 0 <= j < |s.sourcePorts| && s.sourcePorts[j] == port;
      assert altered[j] == port;
    }
    assert s.portBatches[k := []][k] == [];
  }

  lemma Products(k: nat, a: nat, b: nat)
    requires k > 0 && a != b
    ensures k * a != k * b
  {
    assert k * a - k * b == k * (a - b);
    if a > b {
      assert k * (a - b) > 0;
    } else {
      assert k * (b - a) > 0;
    }
  }
}
