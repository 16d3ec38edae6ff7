/** Batching and frame emission (netopsbench/platform/pingmesh/planner.py:60-95). */
module FrameSchedule {
  import opened FabricGraph
  import opened Counting
  import opened ProbePlan
  import opened AgentValidation

  // ---------------------------------------------------------------- probes of one frame

  lemma {:induction false} TasksAppend(p: seq<Probe>, q: seq<Probe>)
    ensures RttTasks(p + q) == RttTasks(p) + RttTasks(q)
    ensures DfTasks(p + q) == DfTasks(p) + DfTasks(q)
    decreases |q|
  {
    if q == [] {
      assert p + q == p;
    } else {
      var front := q[..|q| - 1];
      TasksAppend(p, front);
      var all := p + q;
      assert all[..|all| - 1] == p + front && all[|all| - 1] == q[|q| - 1];
    }
  }

  /** Row-major list of the tasks of `n` full targets over `b` sockets. */
  function TaskGrid(n: nat, b: nat, s: nat): seq<(nat, nat)> {
    (if n == 0 then [] else TaskGrid(n - 1, b, b)) + seq(s, i requires 0 <= i => (n, i))
  }

  /** `x` precedes position `(n, s)` of the row-major order. */
  predicate Earlier(x: (nat, nat), n: nat, b: nat, s: nat) {
    (x.0 < n && x.1 < b) || (x.0 == n && x.1 < s)
  }

  lemma {:induction false} TaskGridMember(n: nat, b: nat, s: nat)
    ensures forall x :: x in TaskGrid(n, b, s) <==> Earlier(x, n, b, s)
    ensures NoDup(TaskGrid(n, b, s))
  {
    var row := seq(s, i requires 0 <= i => (n, i));
    assert forall i: nat :: i < s ==> row[i] == (n, i);
    assert forall x: (nat, nat) :: x in row <==> x.0 == n && x.1 < s by {
      forall x: (nat, nat) | x.0 == n && x.1 < s ensures x in row { assert row[x.1] == x; }
    }
    if n > 0 {
      TaskGridMember(n - 1, b, b);
      NoDupConcat(TaskGrid(n - 1, b, b), row);
    }
  }

  lemma NoDupConcat<T>(s: seq<T>, t: seq<T>)
    requires NoDup(s) && NoDup(t) && forall x :: x in t ==> x !in s
    ensures NoDup(s + t)
  {
    var r := s + t;
    forall i, j | 0 <= i < j < |r|
      ensures r[i] != r[j]
    {
      if i < |s| <= j {
        assert t[j - |s|] !in s;
      }
    }
  }

  lemma TaskGridFull(n: nat, b: nat)
    ensures Elems(TaskGrid(n, b, 0)) == Grid(n, b) && NoDup(TaskGrid(n, b, 0))
  {
    TaskGridMember(n, b, 0);
    forall x: (nat, nat)
      ensures x in Elems(TaskGrid(n, b, 0)) <==> x in Grid(n, b)
    {
      GridMember(n, b, x);
    }
  }

  lemma TaskGridStep(n: nat, b: nat, s: nat)
    ensures TaskGrid(n, b, s + 1) == TaskGrid(n, b, s) + [(n, s)]
    ensures TaskGrid(n + 1, b, 0) == TaskGrid(n, b, b)
  {
  }

  /** The probes of a frame, target by target: every socket by RTT, then one DF probe. */
  method FrameProbes(n: nat, b: nat) returns (probes: seq<Probe>)
    requires b > 0
    ensures ExactTasks(probes, n, b)
    ensures RttTasks(probes) == TaskGrid(n, b, 0) && DfTasks(probes) == Range(n)
    ensures forall p :: p in probes && p.kind.Df? ==> p.socket == p.target % b
  {
    probes := [];
    for target := 0 to n
      invariant InRange(probes, n, b)
      invariant RttTasks(probes) == TaskGrid(target, b, 0) && DfTasks(probes) == Range(target)
      invariant forall p :: p in probes && p.kind.Df? ==> p.socket == p.target % b
    {
      for socket := 0 to b
        invariant InRange(probes, n, b)
        invariant RttTasks(probes) == TaskGrid(target, b, socket) && DfTasks(probes) == Range(target)
        invariant forall p :: p in probes && p.kind.Df? ==> p.socket == p.target % b
      {
        TasksAppend(probes, [Probe(Rtt, target, socket)]);
        TaskGridStep(target, b, socket);
        probes := probes + [Probe(Rtt, target, socket)];
      }
      TasksAppend(probes, [Probe(Df, target, target % b)]);
      TaskGridStep(target, b, 0);
      probes := probes + [Probe(Df, target, target % b)];
      assert Range(target + 1) == Range(target) + [target];
    }
    TaskGridFull(n, b);
    RangeCard(n);
  }

  // ---------------------------------------------------------------- port batches

  function Span(lo: nat, hi: nat): (r: seq<nat>)
    ensures |r| == if lo <= hi then hi - lo else 0
    ensures forall i :: 0 <= i < |r| ==> r[i] == lo + i
  {
    seq(if lo <= hi then hi - lo else 0, i requires 0 <= i => lo + i)
  }

  /** The source ports cut into consecutive slices of the pool. */
  method PortBatches(pool: nat, perCycle: nat) returns (batches: seq<seq<nat>>)
    requires perCycle > 0
    ensures Flatten(batches) == Range(pool)
    ensures forall i :: 0 <= i < |batches| ==>
                          batches[i] != [] && batches[i] == Span(i * perCycle, Min((i + 1) * perCycle, pool))
    ensures pool > 0 ==> batches != []
  {
    batches := [];
    var start := 0;
    while start < pool
      invariant start == |batches| * perCycle
      invariant Flatten(batches) == Range(Min(start, pool))
      invariant Cut(batches, pool, perCycle)
    {
      CutOne(batches, pool, perCycle);
      batches := batches + [Span(start, Min(start + perCycle, pool))];
      start := start + perCycle;
    }
  }

  /** Every batch is the slice of the pool at its place. */
  ghost predicate Cut(batches: seq<seq<nat>>, pool: nat, perCycle: nat) {
    forall i :: 0 <= i < |batches| ==>
                  batches[i] != [] && batches[i] == Span(i * perCycle, Min((i + 1) * perCycle, pool))
  }

  lemma CutOne(batches: seq<seq<nat>>, pool: nat, perCycle: nat)
    requires perCycle > 0 && |batches| * perCycle < pool && Cut(batches, pool, perCycle)
    requires Flatten(batches) == Range(|batches| * perCycle)
    ensures var start := |batches| * perCycle;
            var more := batches + [Span(start, Min(start + perCycle, pool))];
            && |more| * perCycle == start + perCycle
            && Flatten(more) == Range(Min(start + perCycle, pool)) && Cut(more, pool, perCycle)
  {
    var start := |batches| * perCycle;
    var batch := Span(start, Min(start + perCycle, pool));
    var more := batches + [batch];
    NextBatch(|batches|, perCycle);
    assert more[..|batches|] == batches;
    assert Range(Min(start + perCycle, pool)) == Range(start) + batch;
    forall i | 0 <= i < |more|
      ensures more[i] != [] && more[i] == Span(i * perCycle, Min((i + 1) * perCycle, pool))
    {
      if i < |batches| {
        assert more[i] == batches[i];
      }
    }
  }

  lemma {:induction false} SortAscending(s: seq<nat>)
    requires forall i, j :: 0 <= i < j < |s| ==> s[i] < s[j]
    ensures Sort(s) == s
  {
    if s != [] {
      SortAscending(s[1..]);
      assert s == [s[0]] + s[1..];
    }
  }

  // ---------------------------------------------------------------- frames of one client

  /** Row-major list of the combinations emitted before frame `(pb, db)`: all targets of the
      earlier port batches, then the first `m` targets of port batch `pb`. */
  function Emitted(targets: nat, pb: nat, m: nat): seq<(nat, nat)> {
    (if pb == 0 then [] else Emitted(targets, pb - 1, targets)) + seq(m, i requires 0 <= i => (i, pb))
  }

  lemma {:induction false} EmittedMember(targets: nat, pb: nat, m: nat)
    requires m <= targets
    ensures forall x :: x in Emitted(targets, pb, m) <==> (x.0 < targets && x.1 < pb) || (x.0 < m && x.1 == pb)
    ensures NoDup(Emitted(targets, pb, m))
  {
    var row := seq(m, i requires 0 <= i => (i, pb));
    assert forall x: (nat, nat) :: x in row <==> x.0 < m && x.1 == pb by {
      forall x: (nat, nat) | x.0 < m && x.1 == pb ensures x in row { assert row[x.0] == x; }
    }
    if pb > 0 {
      EmittedMember(targets, pb - 1, targets);
      NoDupConcat(Emitted(targets, pb - 1, targets), row);
    }
  }

  lemma EmittedFull(targets: nat, batches: nat)
    ensures NoDup(Emitted(targets, batches, 0)) && Elems(Emitted(targets, batches, 0)) == Grid(targets, batches)
  {
    EmittedMember(targets, batches, 0);
    forall x: (nat, nat)
      ensures x in Elems(Emitted(targets, batches, 0)) <==> x in Grid(targets, batches)
    {
      GridMember(targets, batches, x);
    }
  }

  lemma EmitFrame(targets: nat, f: Frame, lo: nat, hi: nat)
    requires lo <= hi && f.targets == Span(lo, Min(hi, targets))
    ensures Emitted(targets, f.portBatch, Min(lo, targets)) + FrameTasks(f) ==
            Emitted(targets, f.portBatch, Min(hi, targets))
  {
  }

  /** Frame number `pb * batches + db` covers destination batch `db` over port batch `pb`; its DF
      probes go over the sockets in turn. */
  ghost predicate Positioned(f: Frame, k: nat, batches: nat, s: Settings, targets: nat) {
    && k == f.portBatch * batches + f.destinationBatch && f.destinationBatch < batches
    && f.targets == Span(f.destinationBatch * s.destinationBatchSize, Min((f.destinationBatch + 1) * s.destinationBatchSize, targets))
    && f.portBatch < |s.portBatches| && s.portBatches[f.portBatch] != []
    && forall p :: p in f.probes && p.kind.Df? ==> p.socket == p.target % |s.portBatches[f.portBatch]|
  }

  /** Frames emitted so far: all exact, in place, and covering the combinations up to `(pb, m)`. */
  ghost predicate Emission(frames: seq<Frame>, s: Settings, targets: nat, batches: nat, pb: nat, m: nat) {
    && (forall f :: f in frames ==> FrameAccepted(f, s, targets))
    && (forall k :: 0 <= k < |frames| ==> Positioned(frames[k], k, batches, s, targets))
    && EpochTasks(frames) == Emitted(targets, pb, m)
  }

  lemma EmitOne(frames: seq<Frame>, s: Settings, targets: nat, batches: nat, f: Frame, lo: nat)
    requires Emission(frames, s, targets, batches, f.portBatch, Min(lo, targets))
    requires FrameAccepted(f, s, targets) && Positioned(f, |frames|, batches, s, targets)
    requires lo == f.destinationBatch * s.destinationBatchSize
    ensures Emission(frames + [f], s, targets, batches, f.portBatch, Min(lo + s.destinationBatchSize, targets))
  {
    NextBatch(f.destinationBatch, s.destinationBatchSize);
    EmitFrame(targets, f, lo, lo + s.destinationBatchSize);
    assert (frames + [f])[..|frames|] == frames;
  }

  lemma NextBatch(db: nat, size: nat)
    ensures (db + 1) * size == db * size + size
  {
  }

  /** The frame of one destination batch over one port batch. */
  method MakeFrame(targets: nat, s: Settings, pb: nat, db: nat, ghost k: nat, ghost batches: nat) returns (f: Frame)
    requires pb < |s.portBatches| && s.portBatches[pb] != []
    requires db < batches && k == pb * batches + db
    ensures f.portBatch == pb && f.destinationBatch == db
    ensures FrameAccepted(f, s, targets) && Positioned(f, k, batches, s, targets)
  {
    var lo, hi := db * s.destinationBatchSize, (db + 1) * s.destinationBatchSize;
    var active := Span(lo, Min(hi, targets));
    var probes := FrameProbes(|active|, |s.portBatches[pb]|);
    f := Frame(db, pb, active, probes);
    assert FrameAccepted(f, s, targets) by {
      NextBatch(db, s.destinationBatchSize);
      SpanAccepted(f, s, targets, lo, hi);
    }
    assert Positioned(f, k, batches, s, targets);
  }

  lemma SpanAccepted(f: Frame, s: Settings, targets: nat, lo: nat, hi: nat)
    requires f.portBatch < |s.portBatches| && hi == lo + s.destinationBatchSize
    requires f.targets == Span(lo, Min(hi, targets))
    requires ExactTasks(f.probes, |f.targets|, |s.portBatches[f.portBatch]|)
    ensures FrameAccepted(f, s, targets)
  {
  }

  /** One port batch: a frame per destination batch. */
  method PortBatchFrames(targets: nat, s: Settings, pb: nat, batches: nat, before: seq<Frame>) returns (frames: seq<Frame>)
    requires pb < |s.portBatches| && s.portBatches[pb] != []
    requires targets <= batches * s.destinationBatchSize
    requires |before| == pb * batches && Emission(before, s, targets, batches, pb, 0)
    ensures |frames| == |before| + batches && Emission(frames, s, targets, batches, pb + 1, 0)
  {
    frames := before;
    ghost var lo := 0;
    for db := 0 to batches
      invariant |frames| == |before| + db
      invariant lo == db * s.destinationBatchSize
      invariant Emission(frames, s, targets, batches, pb, Min(lo, targets))
    {
      var f := MakeFrame(targets, s, pb, db, |frames|, batches);
      EmitOne(frames, s, targets, batches, f, lo);
      NextBatch(db, s.destinationBatchSize);
      frames := frames + [f];
      lo := lo + s.destinationBatchSize;
    }
    assert Emitted(targets, pb, targets) == Emitted(targets, pb + 1, 0);
  }

  /** The two nested loops that emit a client's epoch. */
  method ClientFrames(targets: nat, s: Settings, batches: nat) returns (frames: seq<Frame>)
    requires targets <= batches * s.destinationBatchSize
    requires forall i :: 0 <= i < |s.portBatches| ==> s.portBatches[i] != []
    ensures |frames| == |s.portBatches| * batches
    ensures forall f :: f in frames ==> FrameAccepted(f, s, targets)
    ensures forall k :: 0 <= k < |frames| ==> Positioned(frames[k], k, batches, s, targets)
    ensures NoDup(EpochTasks(frames)) && Elems(EpochTasks(frames)) == Grid(targets, |s.portBatches|)
  {
    frames := [];
    for pb := 0 to |s.portBatches|
      invariant |frames| == pb * batches && Emission(frames, s, targets, batches, pb, 0)
    {
      frames := PortBatchFrames(targets, s, pb, batches, frames);
      NextBatch(pb, batches);
    }
    EmittedFull(targets, |s.portBatches|);
  }
}
