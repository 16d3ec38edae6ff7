/** Relative and absolute health of a probe snapshot
    (netopsbench/platform/pingmesh/_detector_analysis.py). */
module AnomalyAnalysis {
  import opened Options
  import opened Counting

  datatype Path = Path(src: string, dst: string)

  datatype ProbeRow = ProbeRow(
    path: Path, batch: string, time: Option<int>, rtt: real,
    sent: real, lost: real, dfSent: real, dfLost: real, mtuDrops: real)

  /** In the alphabetical order of the reported type names. */
  datatype Kind = LatencySpike | MtuSuspect | PacketLoss | PathUnreachable

  datatype Severity = Low | Medium | High

  datatype Persistence = Unset | Persistent | EarlyOnly | SteadyOnly | FullWindow

  datatype Anomaly = Anomaly(
    kind: Kind, path: Path, value: real, baseline: real, threshold: real, severity: Severity,
    sent: int, lost: int, samples: nat, windows: set<string>, persistence: Persistence)

  datatype Limits = Limits(lossPct: real, lossDelta: real)

  const MIN_LATENCY_DELTA_MS := 20.0
  const MIN_PATH_LOST_PROBES := 3.0
  const MIN_CONFIRMED_DF_PROBES := 16.0

  // ---------------------------------------------------------------- grouping

  function PathOf(r: ProbeRow): Path { r.path }

  function BatchOf(r: ProbeRow): (Path, string) { (r.path, r.batch) }

  /** The rows with key `k`, in row order. */
  function RowsOf<K(==)>(rows: seq<ProbeRow>, key: ProbeRow -> K, k: K): seq<ProbeRow> {
    if rows == [] then [] else
      var last := rows[|rows| - 1];
      RowsOf(rows[..|rows| - 1], key, k) + if key(last) == k then [last] else []
  }

  /** The keys, in order of first appearance. */
  function KeyOrder<K(==)>(rows: seq<ProbeRow>, key: ProbeRow -> K): seq<K> {
    if rows == [] then [] else
      var before, k := KeyOrder(rows[..|rows| - 1], key), key(rows[|rows| - 1]);
      if k in before then before else before + [k]
  }

  lemma {:induction false} KeyOrderDistinct<K>(rows: seq<ProbeRow>, key: ProbeRow -> K)
    ensures NoDup(KeyOrder(rows, key))
  {
    if rows != [] {
      KeyOrderDistinct(rows[..|rows| - 1], key);
    }
  }

  /** A key is listed exactly when it has rows. */
  lemma {:induction false} KeyHasRows<K>(rows: seq<ProbeRow>, key: ProbeRow -> K, k: K)
    ensures k in KeyOrder(rows, key) <==> RowsOf(rows, key, k) != []
  {
    if rows != [] {
      KeyHasRows(rows[..|rows| - 1], key, k);
    }
  }

  lemma RowsOfStep<K>(front: seq<ProbeRow>, r: ProbeRow, key: ProbeRow -> K, k: K)
    ensures RowsOf(front + [r], key, k) == RowsOf(front, key, k) + if key(r) == k then [r] else []
  {
    assert (front + [r])[..|front|] == front;
  }

  /** Grouping goes row by row: the group of a list is made of the groups of its parts. */
  lemma {:induction false} RowsOfParts<K>(a: seq<ProbeRow>, b: seq<ProbeRow>, key: ProbeRow -> K, k: K)
    ensures RowsOf(a + b, key, k) == RowsOf(a, key, k) + RowsOf(b, key, k)
    decreases |b|
  {
    if b == [] {
      assert a + b == a;
    } else {
      var front, last := b[..|b| - 1], b[|b| - 1];
      RowsOfParts(a, front, key, k);
      RowsOfStep(a + front, last, key, k);
      assert a + b == (a + front) + [last];
    }
  }

  ghost predicate Grouped<K>(rows: seq<ProbeRow>, key: ProbeRow -> K, order: seq<K>, groups: map<K, seq<ProbeRow>>) {
    && order == KeyOrder(rows, key)
    && groups.Keys == Elems(order)
    && forall k :: k in groups ==> groups[k] == RowsOf(rows, key, k)
  }

  /** The grouping loop: each row is appended to the list of its key. */
  method GroupBy<K(==)>(rows: seq<ProbeRow>, key: ProbeRow -> K) returns (order: seq<K>, groups: map<K, seq<ProbeRow>>)
    ensures Grouped(rows, key, order, groups)
  {
    order, groups := [], map[];
    for i := 0 to |rows|
      invariant Grouped(rows[..i], key, order, groups)
    {
      var k := key(rows[i]);
      assert rows[..i + 1][..i] == rows[..i];
      forall x ensures RowsOf(rows[..i + 1], key, x) == RowsOf(rows[..i], key, x) + if k == x then [rows[i]] else [] {}
      KeyHasRows(rows[..i], key, k);
      if k !in groups {
        groups, order := groups[k := []], order + [k];
      }
      groups := groups[k := groups[k] + [rows[i]]];
    }
    assert rows[..|rows|] == rows;
  }

  /** The group of a key, empty when there is none. */
  function Lookup<K(==)>(groups: map<K, seq<ProbeRow>>, k: K): seq<ProbeRow> {
    if k in groups then groups[k] else []
  }

  lemma LookupRows<K>(rows: seq<ProbeRow>, key: ProbeRow -> K, order: seq<K>, groups: map<K, seq<ProbeRow>>, k: K)
    requires Grouped(rows, key, order, groups)
    ensures Lookup(groups, k) == RowsOf(rows, key, k)
  {
    KeyHasRows(rows, key, k);
  }

  // ---------------------------------------------------------------- loss

  datatype Loss = Unmeasured | Measured(sent: real, lost: real, samples: nat, drops: real)

  function SentBy(r: ProbeRow, df: bool): real { if df then r.dfSent else r.sent }
  function LostBy(r: ProbeRow, df: bool): real { if df then r.dfLost else r.lost }

  /** Totals over the rows that sent anything; MTU drops over all rows, DF probes only. */
  function Totals(rows: seq<ProbeRow>, df: bool): (t: Loss)
    ensures t.Measured? && (if t.samples == 0 then t.sent == 0.0 == t.lost else t.sent > 0.0)
  {
    if rows == [] then Measured(0.0, 0.0, 0, 0.0) else
      var t, r := Totals(rows[..|rows| - 1], df), rows[|rows| - 1];
      var d := if df then t.drops + r.mtuDrops else t.drops;
      if SentBy(r, df) > 0.0 then Measured(t.sent + SentBy(r, df), t.lost + LostBy(r, df), t.samples + 1, d)
      else t.(drops := d)
  }

  /** Totals add up: sent and lost probes and samples over the rows that sent probes, MTU drops
      over all rows, and none of them without DF probes. */
  lemma {:induction false} TotalsAdd(a: seq<ProbeRow>, b: seq<ProbeRow>, r: ProbeRow, df: bool)
    ensures var s, t, u := Totals(a, df), Totals(b, df), Totals(a + b, df);
            && u.sent == s.sent + t.sent && u.lost == s.lost + t.lost
            && u.samples == s.samples + t.samples && u.drops == s.drops + t.drops
    ensures Totals([r], df) == var counts := (if df then r.dfSent else r.sent) > 0.0;
                               Measured(if !counts then 0.0 else if df then r.dfSent else r.sent,
                                        if !counts then 0.0 else if df then r.dfLost else r.lost,
                                        if counts then 1 else 0, if df then r.mtuDrops else 0.0)
    decreases |b|
  {
    if b == [] {
      assert a + b == a;
    } else {
      TotalsAdd(a, b[..|b| - 1], r, df);
      assert (a + b)[..|a + b| - 1] == a + b[..|b| - 1];
    }
    assert [r][..0] == [];
  }

  function Measure(rows: seq<ProbeRow>, df: bool): (m: Loss)
    ensures m.Measured? ==> m.sent > 0.0
  {
    var t := Totals(rows, df);
    if t.samples == 0 then Unmeasured else t
  }

  /** `_loss_stats`. */
  method LossStats(rows: seq<ProbeRow>, df: bool) returns (m: Loss)
    ensures m == Measure(rows, df)
    ensures m.Unmeasured? <==> forall r :: r in rows ==> SentBy(r, df) <= 0.0
  {
    var sent, lost, samples: nat, drops := 0.0, 0.0, 0, 0.0;
    for i := 0 to |rows|
      invariant Totals(rows[..i], df) == Measured(sent, lost, samples, drops)
      invariant samples == 0 <==> forall r :: r in rows[..i] ==> SentBy(r, df) <= 0.0
    {
      assert rows[..i + 1][..i] == rows[..i];
      if SentBy(rows[i], df) > 0.0 {
        sent, lost, samples := sent + SentBy(rows[i], df), lost + LostBy(rows[i], df), samples + 1;
      }
      if df {
        drops := drops + rows[i].mtuDrops;
      }
    }
    assert rows[..|rows|] == rows;
    m := if samples == 0 then Unmeasured else Measured(sent, lost, samples, drops);
  }

  function Pct(m: Loss): real
    requires m.Measured? && m.sent > 0.0
  {
    m.lost / m.sent * 100.0
  }

  function Max(a: real, b: real): real { if a < b then b else a }

  // ---------------------------------------------------------------- signals

  predicate Unreachable(cur: Loss) { cur.Measured? && cur.lost >= cur.sent }

  function LossThreshold(l: Limits, base: Loss): real
    requires base.Measured? && base.sent > 0.0
  {
    Max(l.lossPct, Pct(base) + l.lossDelta)
  }

  /** Absolute packet loss of one path. */
  predicate Lossy(l: Limits, cur: Loss)
    requires cur.Measured? ==> cur.sent > 0.0
  {
    cur.Measured? && !Unreachable(cur) && Pct(cur) >= l.lossPct && cur.lost >= MIN_PATH_LOST_PROBES
  }

  /** Absolute MTU trouble of one port batch. */
  predicate Fragmented(rtt: Loss, df: Loss) {
    rtt.Measured? && df.Measured? && rtt.sent > 0.0 && rtt.lost == 0.0
    && df.sent >= MIN_CONFIRMED_DF_PROBES && df.lost >= df.sent && df.drops == 0.0
  }

  function SeverityOf(kind: Kind, value: real, baseline: real, threshold: real): Severity {
    if kind.LatencySpike? then
      var increase := Max(0.0, value - baseline);
      if increase >= 50.0 then High else if increase >= 10.0 then Medium else Low
    else if threshold == 0.0 then High
    else
      var ratio := value / threshold;
      if ratio > 2.0 then High else if ratio > 1.5 then Medium else Low
  }

  /** Python's `int`: truncation toward zero. */
  function Truncate(x: real): int { if x >= 0.0 then x.Floor else -((-x).Floor) }

  function LossFinding(l: Limits, base: Loss, cur: Loss, p: Path): Option<Anomaly>
    requires base.Measured? ==> base.sent > 0.0
    requires cur.Measured? ==> cur.sent > 0.0
  {
    if cur.Unmeasured? || base.Unmeasured? then None
    else if cur.lost >= cur.sent then
      Some(Anomaly(PathUnreachable, p, 100.0, Pct(base), 100.0, High,
                   Truncate(cur.sent), Truncate(cur.lost), cur.samples, {}, Unset))
    else if Pct(cur) >= LossThreshold(l, base) && cur.lost >= MIN_PATH_LOST_PROBES then
      Some(Anomaly(PacketLoss, p, Pct(cur), Pct(base), LossThreshold(l, base),
                   SeverityOf(PacketLoss, Pct(cur), Pct(base), LossThreshold(l, base)),
                   Truncate(cur.sent), Truncate(cur.lost), cur.samples, {}, Unset))
    else None
  }

  function MtuFinding(l: Limits, baseRtt: Loss, baseDf: Loss, rtt: Loss, df: Loss, p: Path): Option<Anomaly>
    requires (baseRtt.Measured? ==> baseRtt.sent > 0.0) && (baseDf.Measured? ==> baseDf.sent > 0.0)
    requires (rtt.Measured? ==> rtt.sent > 0.0) && (df.Measured? ==> df.sent > 0.0)
  {
    if baseDf.Unmeasured? || df.Unmeasured? || baseRtt.Unmeasured? || rtt.Unmeasured? then None
    else
      var healthy := rtt.sent > 0.0 && Pct(rtt) < LossThreshold(l, baseRtt) && rtt.lost == 0.0;
      var signal := df.sent >= MIN_CONFIRMED_DF_PROBES && df.lost >= df.sent && Pct(df) - Pct(baseDf) >= 15.0;
      if !healthy || !signal || df.drops > 0.0 then None
      else Some(Anomaly(MtuSuspect, p, Pct(df), Pct(baseDf), Max(20.0, Pct(baseDf) + 15.0), High,
                        Truncate(df.sent), Truncate(df.lost), df.samples, {}, Unset))
  }

  // ---------------------------------------------------------------- medians

  function InsertReal(s: seq<real>, x: real): (r: seq<real>)
    ensures multiset(r) == multiset(s) + multiset{x}
  {
    if s == [] then [x] else if x <= s[0] then [x] + s else
      assert s == [s[0]] + s[1..];
      [s[0]] + InsertReal(s[1..], x)
  }

  function SortReals(s: seq<real>): (r: seq<real>)
    ensures multiset(r) == multiset(s)
  {
    if s == [] then [] else
      assert s == [s[0]] + s[1..];
      InsertReal(SortReals(s[1..]), s[0])
  }

  ghost predicate Ascending(s: seq<real>) {
    forall i, j :: 0 <= i < j < |s| ==> s[i] <= s[j]
  }

  lemma {:induction false} InsertAscending(s: seq<real>, x: real)
    requires Ascending(s)
    ensures Ascending(InsertReal(s, x))
  {
    if s != [] && x > s[0] {
      InsertAscending(s[1..], x);
      var rest := InsertReal(s[1..], x);
      forall j | 0 <= j < |rest| ensures s[0] <= rest[j] {
        assert rest[j] in multiset(rest);
      }
    }
  }

  /** The values a median is read from are in order. */
  lemma {:induction false} RealsSorted(s: seq<real>)
    ensures Ascending(SortReals(s))
  {
    if s != [] {
      RealsSorted(s[1..]);
      InsertAscending(SortReals(s[1..]), s[0]);
    }
  }

  lemma {:induction false} SortedSize(s: seq<real>)
    ensures |SortReals(s)| == |s|
  {
    assert |multiset(SortReals(s))| == |multiset(s)|;
  }

  function Median(s: seq<real>): real
    requires s != []
  {
    SortedSize(s);
    var sorted, mid := SortReals(s), |s| / 2;
    if |s| % 2 == 1 then sorted[mid] else (sorted[mid - 1] + sorted[mid]) / 2.0
  }

  /** The positive round-trip averages. */
  function Rtts(rows: seq<ProbeRow>): seq<real> {
    if rows == [] then [] else
      var last := rows[|rows| - 1];
      Rtts(rows[..|rows| - 1]) + if last.rtt > 0.0 then [last.rtt] else []
  }

  lemma {:induction false} RttsParts(a: seq<ProbeRow>, b: seq<ProbeRow>, r: ProbeRow)
    ensures Rtts(a + b) == Rtts(a) + Rtts(b)
    ensures Rtts([r]) == if r.rtt > 0.0 then [r.rtt] else []
    decreases |b|
  {
    if b == [] {
      assert a + b == a;
    } else {
      RttsParts(a, b[..|b| - 1], r);
      assert (a + b)[..|a + b| - 1] == a + b[..|b| - 1];
    }
  }

  function LatencyFinding(base: seq<real>, cur: seq<real>, p: Path): Option<Anomaly> {
    if base == [] || cur == [] || Median(cur) < Median(base) + MIN_LATENCY_DELTA_MS then None
    else Some(Anomaly(LatencySpike, p, Median(cur), Median(base), Median(base) + MIN_LATENCY_DELTA_MS,
                      SeverityOf(LatencySpike, Median(cur), Median(base), Median(base) + MIN_LATENCY_DELTA_MS),
                      0, 0, |cur|, {}, Unset))
  }

  // ---------------------------------------------------------------- what a median is

  /** How many of the values lie below `x`, and how many not above it. */
  function Below(s: seq<real>, x: real): nat {
    if s == [] then 0 else Below(s[1..], x) + if s[0] < x then 1 else 0
  }

  function UpTo(s: seq<real>, x: real): nat {
    if s == [] then 0 else UpTo(s[1..], x) + if s[0] <= x then 1 else 0
  }

  /** `x` has rank `r` among the values: the value at place `r` of any ascending arrangement. */
  ghost predicate Ranks(s: seq<real>, x: real, r: nat) {
    Below(s, x) <= r < UpTo(s, x)
  }

  lemma {:induction false} InsertCounts(s: seq<real>, y: real, x: real)
    ensures Below(InsertReal(s, y), x) == Below(s, x) + if y < x then 1 else 0
    ensures UpTo(InsertReal(s, y), x) == UpTo(s, x) + if y <= x then 1 else 0
  {
    if s == [] {
      assert InsertReal(s, y)[1..] == [];
    } else if y <= s[0] {
      assert ([y] + s)[1..] == s;
    } else {
      InsertCounts(s[1..], y, x);
      assert ([s[0]] + InsertReal(s[1..], y))[1..] == InsertReal(s[1..], y);
    }
  }

  lemma {:induction false} SortCounts(s: seq<real>, x: real)
    ensures Below(SortReals(s), x) == Below(s, x) && UpTo(SortReals(s), x) == UpTo(s, x)
  {
    if s != [] {
      SortCounts(s[1..], x);
      InsertCounts(SortReals(s[1..]), s[0], x);
    }
  }

  lemma {:induction false} NoneBelow(s: seq<real>, x: real)
    requires forall i :: 0 <= i < |s| ==> x <= s[i]
    ensures Below(s, x) == 0
  {
    if s != [] {
      NoneBelow(s[1..], x);
    }
  }

  lemma {:induction false} PlaceRanks(s: seq<real>, r: nat)
    requires Ascending(s) && r < |s|
    ensures Ranks(s, s[r], r)
  {
    if r == 0 {
      NoneBelow(s, s[0]);
    } else {
      PlaceRanks(s[1..], r - 1);
    }
  }

  lemma {:induction false} CountsOrder(s: seq<real>, a: real, b: real)
    requires a < b
    ensures UpTo(s, a) <= Below(s, b)
  {
    if s != [] {
      CountsOrder(s[1..], a, b);
    }
  }

  lemma RankUnique(s: seq<real>, a: real, b: real, r: nat)
    requires Ranks(s, a, r) && Ranks(s, b, r)
    ensures a == b
  {
    if a < b {
      CountsOrder(s, a, b);
    } else if b < a {
      CountsOrder(s, b, a);
    }
  }

  /** The median is the mean of the two values in the middle, which are one for an odd number. */
  lemma MedianIsMiddle(s: seq<real>, a: real, b: real)
    requires s != [] && Ranks(s, a, (|s| - 1) / 2) && Ranks(s, b, |s| / 2)
    ensures Median(s) == (a + b) / 2.0
  {
    var x, y := MiddleValues(s);
    RankUnique(s, a, x, (|s| - 1) / 2);
    RankUnique(s, b, y, |s| / 2);
  }

  /** There always are such values. */
  lemma MiddleValues(s: seq<real>) returns (a: real, b: real)
    requires s != []
    ensures Ranks(s, a, (|s| - 1) / 2) && Ranks(s, b, |s| / 2) && Median(s) == (a + b) / 2.0
  {
    SortedSize(s);
    RealsSorted(s);
    var t := SortReals(s);
    a, b := t[(|s| - 1) / 2], t[|s| / 2];
    PlaceRanks(t, (|s| - 1) / 2);
    PlaceRanks(t, |s| / 2);
    SortCounts(s, a);
    SortCounts(s, b);
  }

  // ---------------------------------------------------------------- when there is a finding, and how severe

  lemma PctIs(m: Loss)
    requires m.Measured? && m.sent > 0.0
    ensures Pct(m) * m.sent == 100.0 * m.lost
  {
  }

  lemma TruncateIs(x: real)
    ensures x >= 0.0 ==> 0 <= Truncate(x) && Truncate(x) as real <= x < Truncate(x) as real + 1.0
    ensures x < 0.0 ==> Truncate(x) <= 0 && Truncate(x) as real - 1.0 < x <= Truncate(x) as real
  {
  }

  /** A latency spike is a median up by 20 ms or more; it is severe from 50 ms on and never minor. */
  lemma LatencyExact(base: seq<real>, cur: seq<real>, p: Path)
    ensures var f := LatencyFinding(base, cur, p);
            && (f.Some? <==> base != [] && cur != [] && Median(cur) - Median(base) >= 20.0)
            && (f.Some? ==> f.value == Anomaly(
                  LatencySpike, p, Median(cur), Median(base), Median(base) + 20.0,
                  if Median(cur) - Median(base) >= 50.0 then High else Medium, 0, 0, |cur|, {}, Unset))
  {
  }

  lemma RatioIs(value: real, threshold: real, k: real)
    requires threshold > 0.0
    ensures value / threshold > k <==> value > k * threshold
  {
    var q := value / threshold;
    assert q * threshold == value;
    if q > k {
      Greater(q, k, threshold);
    } else if q < k {
      Greater(k, q, threshold);
    }
  }

  lemma Greater(a: real, b: real, c: real)
    requires a > b && c > 0.0
    ensures a * c > b * c
  {
  }

  /** The severity of a loss at or above a threshold: beyond twice the threshold, beyond one and
      a half times, or less; a threshold of zero makes every loss severe. */
  lemma LossSeverity(value: real, baseline: real, threshold: real)
    requires value >= threshold
    ensures threshold > 0.0 ==> (SeverityOf(PacketLoss, value, baseline, threshold) == High <==> value > 2.0 * threshold)
    ensures threshold > 0.0 ==> (SeverityOf(PacketLoss, value, baseline, threshold) == Low <==> value <= 1.5 * threshold)
    ensures threshold == 0.0 ==> SeverityOf(PacketLoss, value, baseline, threshold) == High
    ensures threshold < 0.0 ==> SeverityOf(PacketLoss, value, baseline, threshold) == Low
  {
    if threshold > 0.0 {
      RatioIs(value, threshold, 2.0);
      RatioIs(value, threshold, 1.5);
    } else if threshold < 0.0 {
      RatioBelow(value, threshold);
    }
  }

  lemma RatioBelow(value: real, threshold: real)
    requires threshold < 0.0 && value >= threshold
    ensures value / threshold <= 1.0
  {
    var q := value / threshold;
    assert q * threshold == value;
    if q > 1.0 {
      Greater(q, 1.0, -threshold);
    }
  }

  /** A path is reported unreachable when every probe was lost, lossy when at least three probes
      and both the least percentage and the least increase over the baseline are reached. */
  lemma LossExact(l: Limits, base: Loss, cur: Loss, p: Path)
    requires base.Measured? ==> base.sent > 0.0
    requires cur.Measured? ==> cur.sent > 0.0
    ensures var f := LossFinding(l, base, cur, p);
            && (f.Some? && f.value.kind == PathUnreachable <==> base.Measured? && cur.Measured? && cur.lost >= cur.sent)
            && (f.Some? && f.value.kind == PacketLoss <==>
                  && base.Measured? && cur.Measured? && 3.0 <= cur.lost < cur.sent
                  && Pct(cur) >= l.lossPct && Pct(cur) - Pct(base) >= l.lossDelta)
            && (f.Some? ==> f.value.kind == PathUnreachable || f.value.kind == PacketLoss)
    ensures var f := LossFinding(l, base, cur, p);
            f.Some? && f.value.kind == PathUnreachable ==>
              f.value == Anomaly(PathUnreachable, p, 100.0, Pct(base), 100.0, High,
                                 Truncate(cur.sent), Truncate(cur.lost), cur.samples, {}, Unset)
    ensures var f := LossFinding(l, base, cur, p);
            f.Some? && f.value.kind == PacketLoss ==>
              var t := if l.lossPct >= Pct(base) + l.lossDelta then l.lossPct else Pct(base) + l.lossDelta;
              f.value == Anomaly(PacketLoss, p, Pct(cur), Pct(base), t, SeverityOf(PacketLoss, Pct(cur), Pct(base), t),
                                 Truncate(cur.sent), Truncate(cur.lost), cur.samples, {}, Unset)
  {
  }

  /** An MTU suspicion takes a clean RTT side, sixteen or more DF probes all lost and no drop
      recorded, and DF loss up by 15 points or more. */
  lemma MtuExact(l: Limits, baseRtt: Loss, baseDf: Loss, rtt: Loss, df: Loss, p: Path)
    requires (baseRtt.Measured? ==> baseRtt.sent > 0.0) && (baseDf.Measured? ==> baseDf.sent > 0.0)
    requires (rtt.Measured? ==> rtt.sent > 0.0) && (df.Measured? ==> df.sent > 0.0)
    ensures var f := MtuFinding(l, baseRtt, baseDf, rtt, df, p);
            && (f.Some? <==>
                  && baseRtt.Measured? && baseDf.Measured? && rtt.Measured? && df.Measured?
                  && rtt.lost == 0.0 && (l.lossPct > 0.0 || Pct(baseRtt) + l.lossDelta > 0.0)
                  && df.sent >= 16.0 && df.lost >= df.sent && df.drops <= 0.0 && Pct(df) - Pct(baseDf) >= 15.0)
            && (f.Some? ==> f.value == Anomaly(
                  MtuSuspect, p, Pct(df), Pct(baseDf), if Pct(baseDf) >= 5.0 then Pct(baseDf) + 15.0 else 20.0, High,
                  Truncate(df.sent), Truncate(df.lost), df.samples, {}, Unset))
  {
    if rtt.Measured? && rtt.lost == 0.0 {
      assert Pct(rtt) == 0.0;
    }
  }

  // ---------------------------------------------------------------- findings of one key

  function PathLoss(rows: seq<ProbeRow>, p: Path): (m: Loss)
    ensures m.Measured? ==> m.sent > 0.0
  {
    Measure(RowsOf(rows, PathOf, p), false)
  }

  function BatchLoss(rows: seq<ProbeRow>, k: (Path, string), df: bool): (m: Loss)
    ensures m.Measured? ==> m.sent > 0.0
  {
    Measure(RowsOf(rows, BatchOf, k), df)
  }

  function LatencyAt(base: seq<ProbeRow>, cur: seq<ProbeRow>, p: Path): Option<Anomaly> {
    LatencyFinding(Rtts(RowsOf(base, PathOf, p)), Rtts(RowsOf(cur, PathOf, p)), p)
  }

  function LossAt(l: Limits, base: seq<ProbeRow>, cur: seq<ProbeRow>, p: Path): Option<Anomaly> {
    LossFinding(l, PathLoss(base, p), PathLoss(cur, p), p)
  }

  function MtuAt(l: Limits, base: seq<ProbeRow>, cur: seq<ProbeRow>, k: (Path, string)): Option<Anomaly> {
    MtuFinding(l, BatchLoss(base, k, false), BatchLoss(base, k, true), BatchLoss(cur, k, false), BatchLoss(cur, k, true), k.0)
  }

  // ---------------------------------------------------------------- insertion-ordered dictionaries

  /** `_anomaly_family` with the path: loss and unreachability are one family. */
  function Family(a: Anomaly): (Kind, Path) {
    (if a.kind.PathUnreachable? then PacketLoss else a.kind, a.path)
  }

  function Families(s: seq<Anomaly>): seq<(Kind, Path)> {
    seq(|s|, i requires 0 <= i < |s| => Family(s[i]))
  }

  /** Assignment by family: an existing entry keeps its place, a new one goes last. */
  function Put(entries: seq<Anomaly>, a: Anomaly): (r: seq<Anomaly>) {
    if entries == [] then [a]
    else if Family(entries[0]) == Family(a) then [a] + entries[1..]
    else [entries[0]] + Put(entries[1..], a)
  }

  function PutAll(entries: seq<Anomaly>, added: seq<Anomaly>): (r: seq<Anomaly>) {
    if added == [] then entries else
      Put(PutAll(entries, added[..|added| - 1]), added[|added| - 1])
  }

  /** Putting replaces the family's value or adds the family, and nothing else. */
  lemma {:induction false} PutExact(entries: seq<Anomaly>, a: Anomaly, x: Anomaly)
    requires NoDup(Families(entries))
    ensures x in Put(entries, a) <==> x == a || (x in entries && Family(x) != Family(a))
  {
    if entries != [] {
      var rest := entries[1..];
      assert entries == [entries[0]] + rest;
      FamiliesTail(entries);
      if Family(entries[0]) != Family(a) {
        PutExact(rest, a, x);
      }
    }
  }

  /** The head's family is not among the rest. */
  lemma FamiliesTail(entries: seq<Anomaly>)
    requires entries != [] && NoDup(Families(entries))
    ensures NoDup(Families(entries[1..]))
    ensures forall x :: x in entries[1..] ==> Family(x) != Family(entries[0])
  {
    var rest := entries[1..];
    assert forall i :: 0 <= i < |rest| ==> Families(rest)[i] == Families(entries)[i + 1];
    forall x | x in rest
      ensures Family(x) != Family(entries[0])
    {
      var i :| 0 <= i < |rest| && rest[i] == x;
      assert Families(entries)[i + 1] == Family(x) && Families(entries)[0] == Family(entries[0]);
    }
  }

  lemma FamiliesHead(a: Anomaly, rest: seq<Anomaly>)
    requires NoDup(Families(rest)) && forall x :: x in rest ==> Family(x) != Family(a)
    ensures NoDup(Families([a] + rest))
  {
    assert Families([a] + rest) == [Family(a)] + Families(rest);
    assert forall i :: 0 <= i < |rest| ==> Families(rest)[i] == Family(rest[i]) && rest[i] in rest;
  }

  lemma {:induction false} PutDistinct(entries: seq<Anomaly>, a: Anomaly)
    requires NoDup(Families(entries))
    ensures NoDup(Families(Put(entries, a)))
  {
    if entries != [] {
      FamiliesTail(entries);
      var rest := entries[1..];
      if Family(entries[0]) == Family(a) {
        FamiliesHead(a, rest);
      } else {
        PutDistinct(rest, a);
        forall x | x in Put(rest, a)
          ensures Family(x) != Family(entries[0])
        {
          PutExact(rest, a, x);
        }
        FamiliesHead(entries[0], Put(rest, a));
      }
    }
  }

  /** A new family is appended. */
  lemma {:induction false} PutFresh(entries: seq<Anomaly>, a: Anomaly)
    requires forall x :: x in entries ==> Family(x) != Family(a)
    ensures Put(entries, a) == entries + [a]
  {
    if entries != [] {
      PutFresh(entries[1..], a);
      assert entries == [entries[0]] + entries[1..];
    }
  }

  // ---------------------------------------------------------------- all findings

  /** The findings over a list of keys, in key order. */
  function Collect<K>(keys: seq<K>, find: K -> Option<Anomaly>): seq<Anomaly> {
    if keys == [] then [] else
      var found := find(keys[|keys| - 1]);
      Collect(keys[..|keys| - 1], find) + if found.Some? then [found.value] else []
  }

  function LatencyDetector(base: seq<ProbeRow>, cur: seq<ProbeRow>): Path -> Option<Anomaly> {
    p => LatencyAt(base, cur, p)
  }

  function LossDetector(l: Limits, base: seq<ProbeRow>, cur: seq<ProbeRow>): Path -> Option<Anomaly> {
    p => LossAt(l, base, cur, p)
  }

  function MtuDetector(l: Limits, base: seq<ProbeRow>, cur: seq<ProbeRow>): ((Path, string)) -> Option<Anomaly> {
    k => MtuAt(l, base, cur, k)
  }

  function Latencies(base: seq<ProbeRow>, cur: seq<ProbeRow>): seq<Anomaly> {
    Collect(KeyOrder(cur, PathOf), LatencyDetector(base, cur))
  }

  function Losses(l: Limits, base: seq<ProbeRow>, cur: seq<ProbeRow>): seq<Anomaly> {
    Collect(KeyOrder(cur, PathOf), LossDetector(l, base, cur))
  }

  /** One entry per path: the last signalling port batch wins. */
  function MtuSuspects(l: Limits, base: seq<ProbeRow>, cur: seq<ProbeRow>): seq<Anomaly> {
    PutAll([], Collect(KeyOrder(cur, BatchOf), MtuDetector(l, base, cur)))
  }

  function Analysis(l: Limits, base: seq<ProbeRow>, cur: seq<ProbeRow>): seq<Anomaly> {
    SortAnomalies(Latencies(base, cur) + Losses(l, base, cur) + MtuSuspects(l, base, cur))
  }

  // ---------------------------------------------------------------- order

  predicate TextLeq(a: string, b: string) {
    a == [] || (b != [] && (a[0] < b[0] || (a[0] == b[0] && TextLeq(a[1..], b[1..]))))
  }

  lemma {:induction false} TextTotal(a: string, b: string)
    ensures TextLeq(a, b) || TextLeq(b, a)
    ensures TextLeq(a, b) && TextLeq(b, a) ==> a == b
  {
    if a != [] && b != [] {
      TextTotal(a[1..], b[1..]);
      assert a == [a[0]] + a[1..] && b == [b[0]] + b[1..];
    }
  }

  lemma {:induction false} TextTransitive(a: string, b: string, c: string)
    requires TextLeq(a, b) && TextLeq(b, c)
    ensures TextLeq(a, c)
  {
    if a != [] && a[0] == b[0] == c[0] {
      TextTransitive(a[1..], b[1..], c[1..]);
    }
  }

  function Rank(k: Kind): nat {
    match k
    case LatencySpike => 0
    case MtuSuspect => 1
    case PacketLoss => 2
    case PathUnreachable => 3
  }

  predicate PathLeq(p: Path, q: Path) {
    if p.src != q.src then TextLeq(p.src, q.src) else TextLeq(p.dst, q.dst)
  }

  /** The sort key `(type, src_ip, dst_ip)`. */
  predicate Leq(a: Anomaly, b: Anomaly) {
    if Rank(a.kind) != Rank(b.kind) then Rank(a.kind) < Rank(b.kind) else PathLeq(a.path, b.path)
  }

  lemma LeqTotal(a: Anomaly, b: Anomaly)
    ensures Leq(a, b) || Leq(b, a)
    ensures Leq(a, b) && Leq(b, a) ==> a.kind == b.kind && a.path == b.path
  {
    TextTotal(a.path.src, b.path.src);
    TextTotal(a.path.dst, b.path.dst);
  }

  lemma PathTransitive(p: Path, q: Path, r: Path)
    requires PathLeq(p, q) && PathLeq(q, r)
    ensures PathLeq(p, r)
  {
    if p.src == q.src == r.src {
      TextTransitive(p.dst, q.dst, r.dst);
    } else if p.src != q.src && q.src != r.src {
      TextTransitive(p.src, q.src, r.src);
      TextTotal(p.src, q.src);
    }
  }

  lemma LeqTransitive(a: Anomaly, b: Anomaly, c: Anomaly)
    requires Leq(a, b) && Leq(b, c)
    ensures Leq(a, c)
  {
    if Rank(a.kind) == Rank(b.kind) == Rank(c.kind) {
      PathTransitive(a.path, b.path, c.path);
    }
  }

  function Insert(s: seq<Anomaly>, x: Anomaly): (r: seq<Anomaly>)
    ensures multiset(r) == multiset(s) + multiset{x}
  {
    if s == [] then [x] else if Leq(x, s[0]) then [x] + s else
      assert s == [s[0]] + s[1..];
      [s[0]] + Insert(s[1..], x)
  }

  /** Stable sort by `Leq`. */
  function SortAnomalies(s: seq<Anomaly>): (r: seq<Anomaly>)
    ensures multiset(r) == multiset(s)
  {
    if s == [] then [] else
      assert s == [s[0]] + s[1..];
      Insert(SortAnomalies(s[1..]), s[0])
  }

  ghost predicate Sorted(s: seq<Anomaly>) {
    forall i, j :: 0 <= i < j < |s| ==> Leq(s[i], s[j])
  }

  lemma {:induction false} InsertSorted(s: seq<Anomaly>, x: Anomaly)
    requires Sorted(s)
    ensures Sorted(Insert(s, x))
  {
    if s != [] && Leq(x, s[0]) {
      forall j | 0 < j < |s| ensures Leq(x, s[j]) {
        LeqTransitive(x, s[0], s[j]);
      }
    } else if s != [] {
      LeqTotal(x, s[0]);
      InsertSorted(s[1..], x);
      var rest := Insert(s[1..], x);
      forall j | 0 <= j < |rest| ensures Leq(s[0], rest[j]) {
        assert rest[j] in multiset(rest);
        if rest[j] != x {
          var i :| 0 <= i < |s[1..]| && s[1..][i] == rest[j];
        }
      }
    }
  }

  lemma {:induction false} SortSorts(s: seq<Anomaly>)
    ensures Sorted(SortAnomalies(s))
  {
    if s != [] {
      SortSorts(s[1..]);
      InsertSorted(SortAnomalies(s[1..]), s[0]);
    }
  }

  /** Sorting a sorted list changes nothing. */
  lemma {:induction false} SortIdempotent(s: seq<Anomaly>)
    requires Sorted(s)
    ensures SortAnomalies(s) == s
  {
    if s != [] {
      SortIdempotent(s[1..]);
      assert s == [s[0]] + s[1..];
    }
  }
}
