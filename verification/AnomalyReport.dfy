/** The snapshot detectors, their absolute-health counters and what relates the two
    (netopsbench/platform/pingmesh/_detector_analysis.py). */
module AnomalyReport {
  import opened Options
  import opened Counting
  import opened AnomalyAnalysis

  // ---------------------------------------------------------------- absolute health

  predicate DeadPath(cur: seq<ProbeRow>, p: Path) { Unreachable(PathLoss(cur, p)) }

  predicate LossyPath(l: Limits, cur: seq<ProbeRow>, p: Path) { Lossy(l, PathLoss(cur, p)) }

  function UnreachablePaths(cur: seq<ProbeRow>): set<Path> {
    set p | p in KeyOrder(cur, PathOf) && DeadPath(cur, p)
  }

  function LossyPaths(l: Limits, cur: seq<ProbeRow>): set<Path> {
    set p | p in KeyOrder(cur, PathOf) && LossyPath(l, cur, p)
  }

  predicate FragmentedBatch(cur: seq<ProbeRow>, k: (Path, string)) {
    Fragmented(BatchLoss(cur, k, false), BatchLoss(cur, k, true))
  }

  function FragmentedPaths(cur: seq<ProbeRow>): set<Path> {
    set k | k in KeyOrder(cur, BatchOf) && FragmentedBatch(cur, k) :: k.0
  }

  /** Measured now, never measured in the baseline. */
  function UncomparedPaths(base: seq<ProbeRow>, cur: seq<ProbeRow>): set<Path> {
    set p | p in KeyOrder(cur, PathOf) && Uncompared(base, cur, p)
  }

  predicate Uncompared(base: seq<ProbeRow>, cur: seq<ProbeRow>, p: Path) {
    PathLoss(cur, p).Measured? && PathLoss(base, p).Unmeasured?
  }

  datatype Quality = Quality(
    baselinePaths: nat, currentPaths: nat, notObserved: nat, insufficientBaseline: nat,
    unreachable: nat, lossy: nat, fragmented: nat)

  ghost predicate Counts(q: Quality, l: Limits, base: seq<ProbeRow>, cur: seq<ProbeRow>) {
    && q.baselinePaths == |Elems(KeyOrder(base, PathOf))|
    && q.currentPaths == |Elems(KeyOrder(cur, PathOf))|
    && q.notObserved == |Elems(KeyOrder(base, PathOf)) - Elems(KeyOrder(cur, PathOf))|
    && q.insufficientBaseline == |UncomparedPaths(base, cur)|
    && q.unreachable == |UnreachablePaths(cur)|
    && q.lossy == |LossyPaths(l, cur)|
    && q.fragmented == |FragmentedPaths(cur)|
  }

  // ---------------------------------------------------------------- detectors

  /** The round-trip averages above zero. */
  method PositiveRtts(rows: seq<ProbeRow>) returns (values: seq<real>)
    ensures values == Rtts(rows)
  {
    values := [];
    for i := 0 to |rows|
      invariant values == Rtts(rows[..i])
    {
      assert rows[..i + 1][..i] == rows[..i];
      if rows[i].rtt > 0.0 {
        values := values + [rows[i].rtt];
      }
    }
    assert rows[..|rows|] == rows;
  }

  /** The latency comparison of one path. */
  method LatencyRound(ghost base: seq<ProbeRow>, ghost cur: seq<ProbeRow>, ghost baseOrder: seq<Path>,
                      basePaths: map<Path, seq<ProbeRow>>, ghost order: seq<Path>, paths: map<Path, seq<ProbeRow>>, p: Path)
    returns (finding: Option<Anomaly>)
    requires Grouped(base, PathOf, baseOrder, basePaths) && Grouped(cur, PathOf, order, paths)
    ensures finding == LatencyAt(base, cur, p)
  {
    LookupRows(base, PathOf, baseOrder, basePaths, p);
    LookupRows(cur, PathOf, order, paths, p);
    var baseline := PositiveRtts(Lookup(basePaths, p));
    var current := PositiveRtts(Lookup(paths, p));
    finding := LatencyFinding(baseline, current, p);
  }

  /** `_detect_latency_from_rows`. */
  method DetectLatency(ghost base: seq<ProbeRow>, ghost cur: seq<ProbeRow>, ghost baseOrder: seq<Path>,
                       basePaths: map<Path, seq<ProbeRow>>, order: seq<Path>, paths: map<Path, seq<ProbeRow>>)
    returns (found: seq<Anomaly>)
    requires Grouped(base, PathOf, baseOrder, basePaths) && Grouped(cur, PathOf, order, paths)
    ensures found == Latencies(base, cur)
  {
    found := [];
    for i := 0 to |order|
      invariant found == Collect(order[..i], LatencyDetector(base, cur))
    {
      CollectStep(order, i, LatencyDetector(base, cur));
      var finding := LatencyRound(base, cur, baseOrder, basePaths, order, paths, order[i]);
      if finding.Some? {
        found := found + [finding.value];
      }
    }
    assert order[..|order|] == order;
  }

  lemma CollectStep<K>(keys: seq<K>, i: nat, find: K -> Option<Anomaly>)
    requires i < |keys|
    ensures find(keys[i]).Some? ==> Collect(keys[..i + 1], find) == Collect(keys[..i], find) + [find(keys[i]).value]
    ensures find(keys[i]).None? ==> Collect(keys[..i + 1], find) == Collect(keys[..i], find)
  {
    assert keys[..i + 1][..i] == keys[..i];
  }

  /** The listed paths that satisfy `p`. */
  function Where(paths: seq<Path>, p: Path -> bool): set<Path> {
    set x | x in paths && p(x)
  }

  lemma WhereStep(paths: seq<Path>, i: nat, p: Path -> bool)
    requires i < |paths| && NoDup(paths)
    ensures |Where(paths[..i + 1], p)| == |Where(paths[..i], p)| + if p(paths[i]) then 1 else 0
  {
    var front, x := paths[..i], paths[i];
    assert paths[..i + 1] == front + [x];
    assert x !in front;
    assert Where(front + [x], p) == Where(front, p) + if p(x) then {x} else {};
  }

  /** The loss of one path from its group. */
  method MeasurePath(ghost rows: seq<ProbeRow>, ghost order: seq<Path>, groups: map<Path, seq<ProbeRow>>, p: Path)
    returns (m: Loss)
    requires Grouped(rows, PathOf, order, groups)
    ensures m == PathLoss(rows, p)
  {
    LookupRows(rows, PathOf, order, groups, p);
    m := LossStats(Lookup(groups, p), false);
  }

  /** The loss of one port batch from its group. */
  method MeasureBatch(ghost rows: seq<ProbeRow>, ghost order: seq<(Path, string)>,
                      groups: map<(Path, string), seq<ProbeRow>>, k: (Path, string), df: bool)
    returns (m: Loss)
    requires Grouped(rows, BatchOf, order, groups)
    ensures m == BatchLoss(rows, k, df)
  {
    LookupRows(rows, BatchOf, order, groups, k);
    m := LossStats(Lookup(groups, k), df);
  }

  /** One round of the loss loop. */
  method LossRound(l: Limits, ghost base: seq<ProbeRow>, ghost cur: seq<ProbeRow>, ghost baseOrder: seq<Path>,
                   basePaths: map<Path, seq<ProbeRow>>, ghost order: seq<Path>, paths: map<Path, seq<ProbeRow>>, p: Path)
    returns (finding: Option<Anomaly>, insufficient: bool)
    requires Grouped(base, PathOf, baseOrder, basePaths) && Grouped(cur, PathOf, order, paths)
    ensures finding == LossDetector(l, base, cur)(p)
    ensures insufficient == Uncompared(base, cur, p)
  {
    var current := MeasurePath(cur, order, paths, p);
    var baseline := MeasurePath(base, baseOrder, basePaths, p);
    insufficient := current.Measured? && baseline.Unmeasured?;
    finding := LossFinding(l, baseline, current, p);
  }

  /** `_detect_loss_from_rows`: the findings, and the paths without a baseline. */
  method DetectLoss(l: Limits, ghost base: seq<ProbeRow>, ghost cur: seq<ProbeRow>, ghost baseOrder: seq<Path>,
                    basePaths: map<Path, seq<ProbeRow>>, order: seq<Path>, paths: map<Path, seq<ProbeRow>>)
    returns (found: seq<Anomaly>, insufficient: nat)
    requires Grouped(base, PathOf, baseOrder, basePaths) && Grouped(cur, PathOf, order, paths)
    ensures found == Losses(l, base, cur)
    ensures insufficient == |UncomparedPaths(base, cur)|
  {
    found, insufficient := [], 0;
    ghost var find := LossDetector(l, base, cur);
    ghost var uncompared := p => Uncompared(base, cur, p);
    KeyOrderDistinct(cur, PathOf);
    for i := 0 to |order|
      invariant found == Collect(order[..i], find)
      invariant insufficient == |Where(order[..i], uncompared)|
    {
      CollectStep(order, i, find);
      WhereStep(order, i, uncompared);
      var finding, missing := LossRound(l, base, cur, baseOrder, basePaths, order, paths, order[i]);
      if missing {
        insufficient := insufficient + 1;
      }
      if finding.Some? {
        found := found + [finding.value];
      }
    }
    assert order[..|order|] == order;
    assert Where(order, uncompared) == UncomparedPaths(base, cur);
  }

  /** One round of the DF loop. */
  method MtuRound(l: Limits, ghost base: seq<ProbeRow>, ghost cur: seq<ProbeRow>, ghost baseOrder: seq<(Path, string)>,
                  baseBatches: map<(Path, string), seq<ProbeRow>>, ghost order: seq<(Path, string)>,
                  batches: map<(Path, string), seq<ProbeRow>>, k: (Path, string))
    returns (finding: Option<Anomaly>)
    requires Grouped(base, BatchOf, baseOrder, baseBatches) && Grouped(cur, BatchOf, order, batches)
    ensures finding == MtuDetector(l, base, cur)(k)
  {
    var baseDf := MeasureBatch(base, baseOrder, baseBatches, k, true);
    var df := MeasureBatch(cur, order, batches, k, true);
    var baseRtt := MeasureBatch(base, baseOrder, baseBatches, k, false);
    var rtt := MeasureBatch(cur, order, batches, k, false);
    finding := MtuFinding(l, baseRtt, baseDf, rtt, df, k.0);
  }

  lemma PutAllStep(s: seq<Anomaly>, a: Anomaly)
    ensures PutAll([], s + [a]) == Put(PutAll([], s), a)
  {
    assert (s + [a])[..|s|] == s;
  }

  /** `_detect_df_from_rows`. */
  method DetectMtu(l: Limits, ghost base: seq<ProbeRow>, ghost cur: seq<ProbeRow>, ghost baseOrder: seq<(Path, string)>,
                   baseBatches: map<(Path, string), seq<ProbeRow>>,
                   order: seq<(Path, string)>, batches: map<(Path, string), seq<ProbeRow>>)
    returns (found: seq<Anomaly>)
    requires Grouped(base, BatchOf, baseOrder, baseBatches) && Grouped(cur, BatchOf, order, batches)
    ensures found == MtuSuspects(l, base, cur)
  {
    found := [];
    ghost var find := MtuDetector(l, base, cur);
    for i := 0 to |order|
      invariant found == PutAll([], Collect(order[..i], find))
    {
      CollectStep(order, i, find);
      var finding := MtuRound(l, base, cur, baseOrder, baseBatches, order, batches, order[i]);
      if finding.Some? {
        PutAllStep(Collect(order[..i], find), finding.value);
        found := Put(found, finding.value);
      }
    }
    assert order[..|order|] == order;
  }

  /** The absolute path counters. */
  method CountPaths(l: Limits, ghost cur: seq<ProbeRow>, order: seq<Path>, paths: map<Path, seq<ProbeRow>>)
    returns (unreachable: nat, lossy: nat)
    requires Grouped(cur, PathOf, order, paths)
    ensures unreachable == |UnreachablePaths(cur)| && lossy == |LossyPaths(l, cur)|
  {
    unreachable, lossy := 0, 0;
    ghost var dead, bad := p => DeadPath(cur, p), p => LossyPath(l, cur, p);
    KeyOrderDistinct(cur, PathOf);
    for i := 0 to |order|
      invariant unreachable == |Where(order[..i], dead)| && lossy == |Where(order[..i], bad)|
    {
      WhereStep(order, i, dead);
      WhereStep(order, i, bad);
      var down, poor := PathHealth(l, cur, order, paths, order[i]);
      if down {
        unreachable := unreachable + 1;
      } else if poor {
        lossy := lossy + 1;
      }
    }
    assert order[..|order|] == order;
    assert Where(order, dead) == UnreachablePaths(cur) && Where(order, bad) == LossyPaths(l, cur);
  }

  method PathHealth(l: Limits, ghost cur: seq<ProbeRow>, ghost order: seq<Path>, paths: map<Path, seq<ProbeRow>>, p: Path)
    returns (down: bool, poor: bool)
    requires Grouped(cur, PathOf, order, paths)
    ensures down == DeadPath(cur, p) && poor == LossyPath(l, cur, p)
    ensures !(down && poor)
  {
    var regular := MeasurePath(cur, order, paths, p);
    down := regular.Measured? && regular.lost >= regular.sent;
    poor := regular.Measured? && !down && Pct(regular) >= l.lossPct && regular.lost >= MIN_PATH_LOST_PROBES;
  }

  /** The absolute MTU health of one port batch. */
  method BatchHealth(ghost cur: seq<ProbeRow>, ghost order: seq<(Path, string)>, batches: map<(Path, string), seq<ProbeRow>>,
                     k: (Path, string))
    returns (fragmented: bool)
    requires Grouped(cur, BatchOf, order, batches)
    ensures fragmented == FragmentedBatch(cur, k)
  {
    LookupRows(cur, BatchOf, order, batches, k);
    var regular := LossStats(Lookup(batches, k), false);
    var df := LossStats(Lookup(batches, k), true);
    fragmented := Fragmented(regular, df);
  }

  /** The paths of the listed batches in absolute MTU trouble. */
  ghost function FragmentedAmong(cur: seq<ProbeRow>, keys: seq<(Path, string)>): set<Path> {
    set k | k in keys && FragmentedBatch(cur, k) :: k.0
  }

  lemma FragmentedStep(cur: seq<ProbeRow>, keys: seq<(Path, string)>, k: (Path, string))
    ensures FragmentedAmong(cur, keys + [k]) == FragmentedAmong(cur, keys) + if FragmentedBatch(cur, k) then {k.0} else {}
  {
  }

  /** The absolute MTU paths. */
  method CollectFragmented(ghost cur: seq<ProbeRow>, order: seq<(Path, string)>, batches: map<(Path, string), seq<ProbeRow>>)
    returns (fragmented: set<Path>)
    requires Grouped(cur, BatchOf, order, batches)
    ensures fragmented == FragmentedPaths(cur)
  {
    fragmented := {};
    for i := 0 to |order|
      invariant fragmented == FragmentedAmong(cur, order[..i])
    {
      assert order[..i + 1] == order[..i] + [order[i]];
      FragmentedStep(cur, order[..i], order[i]);
      var signal := BatchHealth(cur, order, batches, order[i]);
      if signal {
        fragmented := fragmented + {order[i].0};
      }
    }
    assert order[..|order|] == order;
  }

  /** `analyze_snapshot_rows`. */
  method AnalyzeSnapshot(l: Limits, base: seq<ProbeRow>, cur: seq<ProbeRow>) returns (anomalies: seq<Anomaly>, quality: Quality)
    ensures anomalies == Analysis(l, base, cur)
    ensures ReportOf(l, base, cur, anomalies)
    ensures Counts(quality, l, base, cur)
  {
    var baseOrder, basePaths := GroupBy(base, PathOf);
    var order, paths := GroupBy(cur, PathOf);
    var baseKeys, baseBatches := GroupBy(base, BatchOf);
    var keys, batches := GroupBy(cur, BatchOf);
    var losses, insufficient := DetectLoss(l, base, cur, baseOrder, basePaths, order, paths);
    var latencies := DetectLatency(base, cur, baseOrder, basePaths, order, paths);
    var suspects := DetectMtu(l, base, cur, baseKeys, baseBatches, keys, batches);
    anomalies := latencies + losses + suspects;
    var unreachable, lossy := CountPaths(l, cur, order, paths);
    var fragmented := CollectFragmented(cur, keys, batches);
    anomalies := SortAnomalies(anomalies);
    AnalysisReports(l, base, cur);
    quality := Quality(|basePaths.Keys|, |paths.Keys|, |basePaths.Keys - paths.Keys|, insufficient,
                       unreachable, lossy, |fragmented|);
  }

  // ---------------------------------------------------------------- what a report says

  /** The anomalies the rows support. */
  ghost predicate Finding(l: Limits, base: seq<ProbeRow>, cur: seq<ProbeRow>, a: Anomaly) {
    match a.kind
    case LatencySpike => LatencyAt(base, cur, a.path) == Some(a)
    case MtuSuspect => exists b: string :: MtuBatch(l, base, cur, a, b)
    case _ => LossAt(l, base, cur, a.path) == Some(a)
  }

  ghost predicate MtuBatch(l: Limits, base: seq<ProbeRow>, cur: seq<ProbeRow>, a: Anomaly, b: string) {
    MtuAt(l, base, cur, (a.path, b)) == Some(a)
  }

  /** Sorted, one anomaly per family and path, every anomaly supported, every supported
      family and path reported. */
  ghost predicate ReportOf(l: Limits, base: seq<ProbeRow>, cur: seq<ProbeRow>, out: seq<Anomaly>) {
    && Sorted(out)
    && NoDup(Families(out))
    && (forall a :: a in out ==> Finding(l, base, cur, a))
    && (forall a :: Finding(l, base, cur, a) ==> Family(a) in Families(out))
  }

  lemma {:induction false} CollectedFrom<K>(keys: seq<K>, find: K -> Option<Anomaly>, a: Anomaly) returns (k: K)
    requires a in Collect(keys, find)
    ensures k in keys && find(k) == Some(a)
  {
    var front, last := keys[..|keys| - 1], keys[|keys| - 1];
    if find(last) == Some(a) {
      k := last;
    } else {
      k := CollectedFrom(front, find, a);
    }
  }

  lemma {:induction false} CollectedAll<K>(keys: seq<K>, find: K -> Option<Anomaly>, k: K)
    requires k in keys && find(k).Some?
    ensures find(k).value in Collect(keys, find)
  {
    var front, last := keys[..|keys| - 1], keys[|keys| - 1];
    if k != last {
      assert keys == front + [last];
      CollectedAll(front, find, k);
    }
  }

  /** One finding per path, of one family, gives distinct families. */
  lemma {:induction false} CollectedDistinct(keys: seq<Path>, find: Path -> Option<Anomaly>, kind: Kind)
    requires NoDup(keys)
    requires forall p :: p in keys && find(p).Some? ==> Family(find(p).value) == (kind, p)
    ensures NoDup(Families(Collect(keys, find)))
  {
    if keys != [] {
      var front, last := keys[..|keys| - 1], keys[|keys| - 1];
      CollectedDistinct(front, find, kind);
      var before := Collect(front, find);
      if find(last).Some? {
        forall i | 0 <= i < |before| ensures Families(before)[i] != Family(find(last).value) {
          var p := CollectedFrom(front, find, before[i]);
        }
        assert Families(before + [find(last).value]) == Families(before) + [Family(find(last).value)];
      } else {
        assert before + [] == before;
      }
    }
  }

  /** The dictionary holds the last value of every family put into it. */
  lemma {:induction false} PutAllExact(s: seq<Anomaly>)
    ensures NoDup(Families(PutAll([], s)))
    ensures forall a :: a in PutAll([], s) ==> a in s
    ensures forall a :: a in s ==> Family(a) in Families(PutAll([], s))
  {
    if s != [] {
      var front, last := s[..|s| - 1], s[|s| - 1];
      PutAllExact(front);
      var entries := PutAll([], front);
      PutDistinct(entries, last);
      forall a | a in PutAll([], s) ensures a in s {
        PutExact(entries, last, a);
      }
      forall a | a in s ensures Family(a) in Families(PutAll([], s)) {
        PutKeepsFamily(entries, last, a);
        assert s == front + [last];
      }
    }
  }

  lemma PutKeepsFamily(entries: seq<Anomaly>, last: Anomaly, a: Anomaly)
    requires NoDup(Families(entries))
    requires a == last || Family(a) in Families(entries)
    ensures Family(a) in Families(Put(entries, last))
  {
    if Family(a) == Family(last) {
      PutExact(entries, last, last);
      FamilyListed(Put(entries, last), last);
    } else {
      var i :| 0 <= i < |entries| && Families(entries)[i] == Family(a);
      PutExact(entries, last, entries[i]);
      FamilyListed(Put(entries, last), entries[i]);
    }
  }

  lemma FamilyListed(s: seq<Anomaly>, a: Anomaly)
    requires a in s
    ensures Family(a) in Families(s)
  {
    var i :| 0 <= i < |s| && s[i] == a;
    assert Families(s)[i] == Family(a);
  }

  lemma FamilyHolder(s: seq<Anomaly>, f: (Kind, Path)) returns (a: Anomaly)
    requires f in Families(s)
    ensures a in s && Family(a) == f
  {
    var i :| 0 <= i < |s| && Families(s)[i] == f;
    a := s[i];
  }

  lemma LatencyKind(base: seq<ProbeRow>, cur: seq<ProbeRow>, p: Path)
    requires LatencyAt(base, cur, p).Some?
    ensures Family(LatencyAt(base, cur, p).value) == (LatencySpike, p)
    ensures p in KeyOrder(cur, PathOf)
  {
    KeyHasRows(cur, PathOf, p);
  }

  lemma LossKind(l: Limits, base: seq<ProbeRow>, cur: seq<ProbeRow>, p: Path)
    requires LossAt(l, base, cur, p).Some?
    ensures Family(LossAt(l, base, cur, p).value) == (PacketLoss, p)
    ensures p in KeyOrder(cur, PathOf)
  {
    KeyHasRows(cur, PathOf, p);
  }

  lemma MtuKind(l: Limits, base: seq<ProbeRow>, cur: seq<ProbeRow>, k: (Path, string))
    requires MtuAt(l, base, cur, k).Some?
    ensures MtuAt(l, base, cur, k).value.kind == MtuSuspect && MtuAt(l, base, cur, k).value.path == k.0
    ensures k in KeyOrder(cur, BatchOf)
  {
    KeyHasRows(cur, BatchOf, k);
  }

  /** A part of the report: distinct families of one kind, sound and complete. */
  ghost predicate Part(l: Limits, base: seq<ProbeRow>, cur: seq<ProbeRow>, s: seq<Anomaly>, kind: Kind) {
    && NoDup(Families(s))
    && (forall a :: a in s ==> Finding(l, base, cur, a) && Family(a).0 == kind)
    && (forall a :: Finding(l, base, cur, a) && Family(a).0 == kind ==> Family(a) in Families(s))
  }

  lemma LatencyPart(l: Limits, base: seq<ProbeRow>, cur: seq<ProbeRow>)
    ensures Part(l, base, cur, Latencies(base, cur), LatencySpike)
  {
    var keys, find := KeyOrder(cur, PathOf), LatencyDetector(base, cur);
    KeyOrderDistinct(cur, PathOf);
    CollectedDistinct(keys, find, LatencySpike);
    forall a | a in Latencies(base, cur) ensures Finding(l, base, cur, a) && Family(a).0 == LatencySpike {
      var p := CollectedFrom(keys, find, a);
      LatencyKind(base, cur, p);
    }
    forall a | Finding(l, base, cur, a) && Family(a).0 == LatencySpike ensures Family(a) in Families(Latencies(base, cur)) {
      LatencyKind(base, cur, a.path);
      CollectedAll(keys, find, a.path);
      FamilyListed(Latencies(base, cur), a);
    }
  }

  lemma LossPart(l: Limits, base: seq<ProbeRow>, cur: seq<ProbeRow>)
    ensures Part(l, base, cur, Losses(l, base, cur), PacketLoss)
  {
    var keys, find := KeyOrder(cur, PathOf), LossDetector(l, base, cur);
    KeyOrderDistinct(cur, PathOf);
    CollectedDistinct(keys, find, PacketLoss);
    forall a | a in Losses(l, base, cur) ensures Finding(l, base, cur, a) && Family(a).0 == PacketLoss {
      var p := CollectedFrom(keys, find, a);
      LossKind(l, base, cur, p);
    }
    forall a | Finding(l, base, cur, a) && Family(a).0 == PacketLoss ensures Family(a) in Families(Losses(l, base, cur)) {
      LossKind(l, base, cur, a.path);
      CollectedAll(keys, find, a.path);
      FamilyListed(Losses(l, base, cur), a);
    }
  }

  lemma MtuPart(l: Limits, base: seq<ProbeRow>, cur: seq<ProbeRow>)
    ensures Part(l, base, cur, MtuSuspects(l, base, cur), MtuSuspect)
  {
    var keys, find := KeyOrder(cur, BatchOf), MtuDetector(l, base, cur);
    PutAllExact(Collect(keys, find));
    forall a | a in MtuSuspects(l, base, cur) ensures Finding(l, base, cur, a) && Family(a).0 == MtuSuspect {
      var k := CollectedFrom(keys, find, a);
      MtuKind(l, base, cur, k);
      assert MtuBatch(l, base, cur, a, k.1);
    }
    forall a | Finding(l, base, cur, a) && Family(a).0 == MtuSuspect ensures Family(a) in Families(MtuSuspects(l, base, cur)) {
      var b :| MtuBatch(l, base, cur, a, b);
      MtuKind(l, base, cur, (a.path, b));
      CollectedAll(keys, find, (a.path, b));
    }
  }

  /** Distinct families survive a permutation. */
  lemma FamiliesPermuted(s: seq<Anomaly>, t: seq<Anomaly>)
    requires multiset(s) == multiset(t) && NoDup(Families(s))
    ensures NoDup(Families(t))
    ensures Elems(Families(s)) == Elems(Families(t))
    ensures forall a :: a in s <==> a in t
  {
    assert forall a :: a in s <==> a in multiset(s);
    assert forall a :: a in t <==> a in multiset(t);
    forall f | f in Families(s) ensures f in Families(t) {
      var a := FamilyHolder(s, f);
      FamilyListed(t, a);
    }
    forall f | f in Families(t) ensures f in Families(s) {
      var a := FamilyHolder(t, f);
      FamilyListed(s, a);
    }
    assert |s| == |multiset(s)| == |multiset(t)| == |t|;
    assert Elems(Families(s)) == Elems(Families(t));
    NoDupCard(Families(s));
    NoDupCard(Families(t));
  }

  lemma JoinDistinct(s: seq<Anomaly>, t: seq<Anomaly>)
    requires NoDup(Families(s)) && NoDup(Families(t))
    requires forall a, b :: a in s && b in t ==> Family(a) != Family(b)
    ensures NoDup(Families(s + t)) && Families(s + t) == Families(s) + Families(t)
  {
    assert Families(s + t) == Families(s) + Families(t);
    forall i, j | 0 <= i < |s| && 0 <= j < |t| ensures Families(s)[i] != Families(t)[j] {
      assert s[i] in s && t[j] in t;
    }
  }

  /** The analysis is sorted, free of duplicates, sound and complete. */
  lemma AnalysisReports(l: Limits, base: seq<ProbeRow>, cur: seq<ProbeRow>)
    ensures ReportOf(l, base, cur, Analysis(l, base, cur))
  {
    var x, y, z := Latencies(base, cur), Losses(l, base, cur), MtuSuspects(l, base, cur);
    LatencyPart(l, base, cur);
    LossPart(l, base, cur);
    MtuPart(l, base, cur);
    JoinDistinct(x, y);
    JoinDistinct(x + y, z);
    SortSorts(x + y + z);
    FamiliesPermuted(x + y + z, Analysis(l, base, cur));
    forall a | Finding(l, base, cur, a) ensures Family(a) in Families(Analysis(l, base, cur)) {
      assert Family(a) in Families(x + y + z);
      assert Family(a) in Elems(Families(x + y + z));
    }
  }

  // ---------------------------------------------------------------- relative against absolute

  /** Every loss or unreachability anomaly is on a path of that absolute health. */
  lemma LossIsAbsolute(l: Limits, base: seq<ProbeRow>, cur: seq<ProbeRow>, a: Anomaly)
    requires a in Analysis(l, base, cur)
    ensures a.kind == PathUnreachable ==> a.path in UnreachablePaths(cur)
    ensures a.kind == PacketLoss ==> a.path in LossyPaths(l, cur)
  {
    AnalysisReports(l, base, cur);
    if a.kind == PathUnreachable || a.kind == PacketLoss {
      LossFindingIsAbsolute(l, base, cur, a);
    }
  }

  lemma LossFindingIsAbsolute(l: Limits, base: seq<ProbeRow>, cur: seq<ProbeRow>, a: Anomaly)
    requires LossAt(l, base, cur, a.path) == Some(a)
    ensures a.path in KeyOrder(cur, PathOf)
    ensures if a.kind == PathUnreachable then DeadPath(cur, a.path) else LossyPath(l, cur, a.path)
  {
    LossKind(l, base, cur, a.path);
  }

  /** An MTU signal in a batch is an absolute one exactly when the batch's drops are not negative. */
  lemma MtuSignalIsAbsolute(l: Limits, base: seq<ProbeRow>, cur: seq<ProbeRow>, k: (Path, string))
    requires MtuAt(l, base, cur, k).Some?
    ensures FragmentedBatch(cur, k) <==> BatchLoss(cur, k, true).drops >= 0.0
  {
  }

  lemma {:induction false} DropsNonNegative(rows: seq<ProbeRow>)
    requires forall r :: r in rows ==> r.mtuDrops >= 0.0
    ensures Totals(rows, true).drops >= 0.0
  {
    if rows != [] {
      DropsNonNegative(rows[..|rows| - 1]);
    }
  }

  lemma {:induction false} RowsOfSubset<K>(rows: seq<ProbeRow>, key: ProbeRow -> K, k: K)
    ensures forall r :: r in RowsOf(rows, key, k) ==> r in rows
  {
    if rows != [] {
      RowsOfSubset(rows[..|rows| - 1], key, k);
    }
  }

  /** Every MTU anomaly is on an absolute MTU path, when no row reports negative drops. */
  lemma MtuIsAbsolute(l: Limits, base: seq<ProbeRow>, cur: seq<ProbeRow>, a: Anomaly)
    requires forall r :: r in cur ==> r.mtuDrops >= 0.0
    requires a in Analysis(l, base, cur) && a.kind == MtuSuspect
    ensures a.path in FragmentedPaths(cur)
  {
    AnalysisReports(l, base, cur);
    var b :| MtuBatch(l, base, cur, a, b);
    var k := (a.path, b);
    MtuKind(l, base, cur, k);
    RowsOfSubset(cur, BatchOf, k);
    DropsNonNegative(RowsOf(cur, BatchOf, k));
    MtuSignalIsAbsolute(l, base, cur, k);
  }

  lemma {:induction false} OneRow<K>(r: ProbeRow, key: ProbeRow -> K)
    ensures KeyOrder([r], key) == [key(r)] && RowsOf([r], key, key(r)) == [r]
  {
    assert [r][..0] == [];
  }

  lemma OneRowTotals(r: ProbeRow, df: bool)
    requires SentBy(r, df) > 0.0
    ensures Measure([r], df) == Measured(SentBy(r, df), LostBy(r, df), 1, if df then r.mtuDrops else 0.0)
  {
    assert [r][..0] == [];
    assert Totals([], df) == Measured(0.0, 0.0, 0, 0.0);
    assert Totals([r], df) == Measured(SentBy(r, df), LostBy(r, df), 1, if df then r.mtuDrops else 0.0);
  }

  function SampleRow(p: Path, dfLost: real, drops: real): ProbeRow {
    ProbeRow(p, "0", None, 1.0, 16.0, 0.0, 16.0, dfLost, drops)
  }

  lemma SampleLoss(p: Path, dfLost: real, drops: real)
    ensures var r := SampleRow(p, dfLost, drops);
            && BatchLoss([r], (p, "0"), false) == Measured(16.0, 0.0, 1, 0.0)
            && BatchLoss([r], (p, "0"), true) == Measured(16.0, dfLost, 1, drops)
            && KeyOrder([r], BatchOf) == [(p, "0")]
  {
    var r := SampleRow(p, dfLost, drops);
    OneRow(r, BatchOf);
    OneRowTotals(r, true);
    OneRowTotals(r, false);
  }

  lemma SampleSignal(p: Path)
    ensures MtuAt(Limits(5.0, 5.0), [SampleRow(p, 0.0, 0.0)], [SampleRow(p, 16.0, -1.0)], (p, "0")).Some?
  {
    SampleLoss(p, 0.0, 0.0);
    SampleLoss(p, 16.0, -1.0);
    var none := Measured(16.0, 0.0, 1, 0.0);
    EndsFinding(none, none, none, Measured(16.0, 16.0, 1, -1.0), p);
  }

  /** The extreme percentages. */
  lemma PctEnds(m: Loss)
    requires m.Measured? && m.sent > 0.0
    ensures m.lost == 0.0 ==> Pct(m) == 0.0
    ensures m.lost == m.sent ==> Pct(m) == 100.0
  {
    if m.lost == m.sent {
      assert m.lost / m.sent == 1.0;
    }
  }

  lemma EndsFinding(baseRtt: Loss, baseDf: Loss, rtt: Loss, df: Loss, p: Path)
    requires baseRtt.Measured? && baseDf.Measured? && rtt.Measured? && df.Measured?
    requires baseRtt.sent > 0.0 && baseDf.sent > 0.0 && rtt.sent > 0.0 && df.sent >= 16.0
    requires baseRtt.lost == baseDf.lost == rtt.lost == 0.0 && df.lost == df.sent && df.drops <= 0.0
    ensures MtuFinding(Limits(5.0, 5.0), baseRtt, baseDf, rtt, df, p).Some?
  {
    PctEnds(baseRtt);
    PctEnds(baseDf);
    PctEnds(rtt);
    PctEnds(df);
  }

  lemma SampleHealth(p: Path)
    ensures FragmentedPaths([SampleRow(p, 16.0, -1.0)]) == {}
  {
    SampleLoss(p, 16.0, -1.0);
  }

  /** A negative drop count makes an MTU anomaly that no absolute counter shows. */
  lemma NegativeDropsEscape(p: Path)
    ensures (MtuSuspect, p) in Families(Analysis(Limits(5.0, 5.0), [SampleRow(p, 0.0, 0.0)], [SampleRow(p, 16.0, -1.0)]))
    ensures FragmentedPaths([SampleRow(p, 16.0, -1.0)]) == {}
  {
    SampleHealth(p);
    SampleSignal(p);
    MtuReported(Limits(5.0, 5.0), [SampleRow(p, 0.0, 0.0)], [SampleRow(p, 16.0, -1.0)], (p, "0"));
  }

  /** A signalling batch has its path reported. */
  lemma MtuReported(l: Limits, base: seq<ProbeRow>, cur: seq<ProbeRow>, k: (Path, string))
    requires MtuAt(l, base, cur, k).Some?
    ensures (MtuSuspect, k.0) in Families(Analysis(l, base, cur))
  {
    MtuKind(l, base, cur, k);
    var a := MtuAt(l, base, cur, k).value;
    assert MtuBatch(l, base, cur, a, k.1);
    AnalysisReports(l, base, cur);
    assert Finding(l, base, cur, a);
  }

  // ---------------------------------------------------------------- rows against themselves

  lemma SelfLatency(cur: seq<ProbeRow>, p: Path)
    ensures LatencyAt(cur, cur, p).None?
  {
  }

  lemma SelfMtu(l: Limits, cur: seq<ProbeRow>, k: (Path, string))
    ensures MtuAt(l, cur, cur, k).None?
  {
  }

  /** Against itself a path is unreachable iff absolutely so, and lossy iff the delta is not
      positive and it is absolutely so. */
  lemma SelfLoss(l: Limits, cur: seq<ProbeRow>, p: Path)
    ensures LossAt(l, cur, cur, p).Some? <==>
            p in UnreachablePaths(cur) || (l.lossDelta <= 0.0 && p in LossyPaths(l, cur))
    ensures LossAt(l, cur, cur, p).Some? ==>
              (LossAt(l, cur, cur, p).value.kind == PathUnreachable <==> p in UnreachablePaths(cur))
  {
    KeyHasRows(cur, PathOf, p);
  }

  function PathsOf(s: seq<Anomaly>): set<Path> {
    set a | a in s :: a.path
  }

  function OfKind(s: seq<Anomaly>, kind: Kind): seq<Anomaly> {
    if s == [] then [] else
      var last := s[|s| - 1];
      OfKind(s[..|s| - 1], kind) + if last.kind == kind then [last] else []
  }

  lemma {:induction false} OfKindMember(s: seq<Anomaly>, kind: Kind, a: Anomaly)
    ensures a in OfKind(s, kind) <==> a in s && a.kind == kind
  {
    if s != [] {
      OfKindMember(s[..|s| - 1], kind, a);
      assert s == s[..|s| - 1] + [s[|s| - 1]];
    }
  }

  /** With distinct families, anomalies of one kind are as many as their paths. */
  lemma {:induction false} OfKindCount(s: seq<Anomaly>, kind: Kind)
    requires NoDup(Families(s))
    ensures |OfKind(s, kind)| == |PathsOf(OfKind(s, kind))|
  {
    if s != [] {
      var front, last := s[..|s| - 1], s[|s| - 1];
      assert Families(front) == Families(s)[..|s| - 1];
      OfKindCount(front, kind);
      if last.kind == kind {
        forall a | a in OfKind(front, kind) ensures a.path != last.path {
          OfKindMember(front, kind, a);
          var i :| 0 <= i < |front| && front[i] == a;
          assert Families(s)[i] == Family(a) && Families(s)[|s| - 1] == Family(last);
        }
        assert PathsOf(OfKind(s, kind)) == PathsOf(OfKind(front, kind)) + {last.path};
      } else {
        assert OfKind(s, kind) == OfKind(front, kind);
      }
    }
  }

  /** A snapshot compared with itself reports its unreachable paths, each once, and, unless the
      delta is positive, its lossy ones; nothing else. */
  lemma SelfComparison(l: Limits, cur: seq<ProbeRow>)
    ensures var out := Analysis(l, cur, cur);
            && (forall a :: a in out ==> a.kind == PathUnreachable || (a.kind == PacketLoss && l.lossDelta <= 0.0))
            && |OfKind(out, PathUnreachable)| == |UnreachablePaths(cur)|
            && |OfKind(out, PacketLoss)| == if l.lossDelta > 0.0 then 0 else |LossyPaths(l, cur)|
  {
    var out := Analysis(l, cur, cur);
    AnalysisReports(l, cur, cur);
    forall a | a in out ensures a.kind == PathUnreachable || (a.kind == PacketLoss && l.lossDelta <= 0.0) {
      SelfKinds(l, cur, a);
    }
    OfKindCount(out, PathUnreachable);
    SelfPaths(l, cur, PathUnreachable);
    OfKindCount(out, PacketLoss);
    SelfPaths(l, cur, PacketLoss);
  }

  lemma SelfKinds(l: Limits, cur: seq<ProbeRow>, a: Anomaly)
    requires Finding(l, cur, cur, a)
    ensures a.kind == PathUnreachable || (a.kind == PacketLoss && l.lossDelta <= 0.0)
  {
    SelfLatency(cur, a.path);
    SelfLoss(l, cur, a.path);
    forall b: string ensures !MtuBatch(l, cur, cur, a, b) {
      SelfMtu(l, cur, (a.path, b));
    }
  }

  function SelfExpected(l: Limits, cur: seq<ProbeRow>, kind: Kind): set<Path> {
    match kind
    case PathUnreachable => UnreachablePaths(cur)
    case PacketLoss => if l.lossDelta > 0.0 then {} else LossyPaths(l, cur)
    case _ => {}
  }

  lemma SelfPathReported(l: Limits, cur: seq<ProbeRow>, kind: Kind, p: Path)
    requires kind == PathUnreachable || kind == PacketLoss
    requires p in SelfExpected(l, cur, kind)
    ensures p in PathsOf(OfKind(Analysis(l, cur, cur), kind))
  {
    var out := Analysis(l, cur, cur);
    AnalysisReports(l, cur, cur);
    SelfLoss(l, cur, p);
    var a := LossAt(l, cur, cur, p).value;
    LossKind(l, cur, cur, p);
    assert Finding(l, cur, cur, a);
    var b := FamilyHolder(out, Family(a));
    SelfKindOf(l, cur, b);
    SelfKindOf(l, cur, a);
    OfKindMember(out, kind, b);
  }

  /** The kind of a finding of rows against themselves follows from its path. */
  lemma SelfKindOf(l: Limits, cur: seq<ProbeRow>, a: Anomaly)
    requires Finding(l, cur, cur, a) && Family(a).0 == PacketLoss
    ensures a.path in SelfExpected(l, cur, a.kind)
    ensures a.kind == PathUnreachable <==> a.path in UnreachablePaths(cur)
  {
    SelfLoss(l, cur, a.path);
  }

  lemma SelfPaths(l: Limits, cur: seq<ProbeRow>, kind: Kind)
    requires kind == PathUnreachable || kind == PacketLoss
    ensures PathsOf(OfKind(Analysis(l, cur, cur), kind)) == SelfExpected(l, cur, kind)
  {
    var out := Analysis(l, cur, cur);
    AnalysisReports(l, cur, cur);
    forall p | p in SelfExpected(l, cur, kind) ensures p in PathsOf(OfKind(out, kind)) {
      SelfPathReported(l, cur, kind, p);
    }
    forall p | p in PathsOf(OfKind(out, kind)) ensures p in SelfExpected(l, cur, kind) {
      var a :| a in OfKind(out, kind) && a.path == p;
      OfKindMember(out, kind, a);
      SelfKindOf(l, cur, a);
    }
  }
}
