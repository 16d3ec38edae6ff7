/** What the ingestion audit guarantees when its rows come from genuine sources: soundness,
    absence of false alarms, and stability under later arrivals. */
module IngestionProofs {
  import opened FabricGraph
  import opened Counting
  import opened WindowIngestion

  /** The full row each source emits for a planned (source, cycle, target). */
  type History = (Name, nat, Name) -> Row

  ghost predicate Planned(p: Plan, s: Name, c: nat, d: Name)
    requires p.epoch > 0
  {
    s in p.clients && d in Expected(p, s, c)
  }

  ghost predicate RowFits(p: Plan, h: History, s: Name, c: nat, d: Name)
    requires p.epoch > 0
  {
    var r := h(s, c, d);
    Identified(p, r) && Full(r) && Finite(r) && KeyOf(r) == Key(s, c, d, r.stamp.value)
  }

  ghost function At(h: History, s: Name, c: nat, d: Name): int {
    var r := h(s, c, d);
    if r.stamp.Is? then r.stamp.value.at else 0
  }

  /** Each cycle emits its planned targets once, and later cycles never carry earlier times. */
  ghost predicate Genuine(p: Plan, h: History) {
    && ValidPlan(p)
    && (forall s, c, d {:trigger Planned(p, s, c, d)} :: Planned(p, s, c, d) ==> RowFits(p, h, s, c, d))
    && (forall s, b, c, d, e {:trigger Planned(p, s, b, d), Planned(p, s, c, e)} ::
          Planned(p, s, b, d) && Planned(p, s, c, e) && b < c ==> At(h, s, b, d) <= At(h, s, c, e))
  }

  /** A row of the history, possibly queried without its metrics. */
  ghost predicate Observed(p: Plan, h: History, r: Row)
    requires p.epoch > 0
  {
    && Readable(r)
    && Planned(p, r.source.value, r.cycle.value, r.destination.value)
    && r == h(r.source.value, r.cycle.value, r.destination.value).(metrics := r.metrics)
  }

  ghost predicate Exact(p: Plan, h: History, r: Row)
    requires p.epoch > 0
  {
    && Readable(r)
    && Planned(p, r.source.value, r.cycle.value, r.destination.value)
    && r == h(r.source.value, r.cycle.value, r.destination.value)
  }

  /** Progress rows come from the history; a row still missing fields at least has its time. */
  ghost predicate DrawnProgress(p: Plan, h: History, rows: seq<Row>)
    requires p.epoch > 0
  {
    forall i :: 0 <= i < |rows| ==>
                  (if Complete(rows[i]) then Observed(p, h, rows[i]) else rows[i].stamp.Is?)
  }

  ghost predicate DrawnSnapshot(p: Plan, h: History, rows: seq<Row>)
    requires p.epoch > 0
  {
    forall i :: 0 <= i < |rows| && Full(rows[i]) ==> Exact(p, h, rows[i])
  }

  /** A key the history emits. */
  ghost predicate Emitted(p: Plan, h: History, k: Key)
    requires p.epoch > 0
  {
    Planned(p, k.source, k.cycle, k.destination) && h(k.source, k.cycle, k.destination).stamp == Is(k.stamp)
  }

  // ---------------------------------------------------------------- rows and keys

  lemma ObservedIdentified(p: Plan, h: History, r: Row)
    requires Genuine(p, h) && Observed(p, h, r)
    ensures Identified(p, r) && Emitted(p, h, KeyOf(r))
  {
    assert RowFits(p, h, r.source.value, r.cycle.value, r.destination.value);
  }

  lemma CompleteObserved(p: Plan, h: History, rows: seq<Row>, r: Row)
    requires p.epoch > 0 && DrawnProgress(p, h, rows) && r in CompleteRows(rows)
    ensures Observed(p, h, r)
  {
    CompleteMember(rows, r);
    var i :| 0 <= i < |rows| && rows[i] == r;
  }

  lemma FullExact(p: Plan, h: History, rows: seq<Row>, r: Row)
    requires p.epoch > 0 && DrawnSnapshot(p, h, rows) && r in FullRows(rows)
    ensures Exact(p, h, r) && Observed(p, h, r)
  {
    FullMember(rows, r);
    var i :| 0 <= i < |rows| && rows[i] == r;
  }

  ghost predicate AllEmitted(p: Plan, h: History, keys: set<Key>)
    requires p.epoch > 0
  {
    forall k :: k in keys ==> Emitted(p, h, k)
  }

  lemma ProgressEmitted(p: Plan, h: History, rows: seq<Row>)
    requires Genuine(p, h) && DrawnProgress(p, h, rows)
    ensures AllEmitted(p, h, KeySet(CompleteRows(rows))) && AllIdentified(p, CompleteRows(rows))
  {
    var complete := CompleteRows(rows);
    forall r | r in complete
      ensures Identified(p, r) && Emitted(p, h, KeyOf(r))
    {
      CompleteObserved(p, h, rows, r);
      ObservedIdentified(p, h, r);
    }
    assert forall i :: 0 <= i < |complete| ==> complete[i] in complete;
  }

  lemma SnapshotEmitted(p: Plan, h: History, rows: seq<Row>)
    requires Genuine(p, h) && DrawnSnapshot(p, h, rows)
    ensures AllEmitted(p, h, KeySet(FullRows(rows))) && AllIdentified(p, FullRows(rows))
  {
    var full := FullRows(rows);
    forall r | r in full
      ensures Identified(p, r) && Emitted(p, h, KeyOf(r))
    {
      FullExact(p, h, rows, r);
      ObservedIdentified(p, h, r);
    }
    assert forall i :: 0 <= i < |full| ==> full[i] in full;
  }

  lemma EmittedFunctional(p: Plan, h: History, keys: set<Key>)
    requires p.epoch > 0 && AllEmitted(p, h, keys)
    ensures Functional(keys)
  {
  }

  /** Earlier cycles have earlier times. */
  lemma EmittedOrder(p: Plan, h: History, k: Key, l: Key)
    requires Genuine(p, h) && Emitted(p, h, k) && Emitted(p, h, l) && k.source == l.source && k.cycle < l.cycle
    ensures k.stamp.at <= l.stamp.at
  {
    assert At(h, k.source, k.cycle, k.destination) <= At(h, l.source, l.cycle, l.destination);
  }

  // ---------------------------------------------------------------- no false alarms

  lemma NoConflict(p: Plan, h: History, keys: set<Key>, s: Name)
    requires Genuine(p, h) && AllEmitted(p, h, keys)
    ensures !Conflict(keys, s)
  {
    forall k, l | k in keys && l in keys && k.source == s && l.source == s
      ensures !Crossed(PointOf(k), PointOf(l))
    {
      if l.cycle < k.cycle {
        EmittedOrder(p, h, l, k);
      }
    }
  }

  lemma SnapshotIsSound(p: Plan, h: History, rows: seq<Row>)
    requires Genuine(p, h) && DrawnSnapshot(p, h, rows)
    ensures SnapshotSound(p, FullRows(rows))
  {
    var full := FullRows(rows);
    SnapshotEmitted(p, h, rows);
    EmittedFunctional(p, h, KeySet(full));
    forall i | 0 <= i < |full|
      ensures Finite(full[i]) && Exact(p, h, full[i])
    {
      var r := full[i];
      assert r in full;
      FullExact(p, h, rows, r);
      assert RowFits(p, h, r.source.value, r.cycle.value, r.destination.value);
    }
  }

  /** Rows drawn from a genuine history are never judged invalid. */
  lemma GenuineNeverInvalid(p: Plan, h: History, progress: seq<Row>, snapshot: seq<Row>, start: int, end: int)
    requires Genuine(p, h) && DrawnProgress(p, h, progress) && DrawnSnapshot(p, h, snapshot)
    ensures Sound(p, progress, snapshot, start, end)
  {
    var keys := KeySet(CompleteRows(progress));
    ProgressEmitted(p, h, progress);
    EmittedFunctional(p, h, keys);
    forall i | 0 <= i < |p.clients|
      ensures !Conflict(keys, p.clients[i])
    {
      NoConflict(p, h, keys, p.clients[i]);
    }
    SnapshotIsSound(p, h, snapshot);
  }

  // ---------------------------------------------------------------- closed frames prove the window

  /** A key emitted in the window lies between the observed boundaries. */
  lemma EmittedBetween(p: Plan, h: History, keys: set<Key>, start: int, end: int, k: Key, left: nat, right: nat)
    requires Genuine(p, h) && AllEmitted(p, h, keys)
    requires IsLeft(keys, k.source, start, left) && IsRight(keys, k.source, end, right)
    requires Emitted(p, h, k) && InWindow(k, start, end)
    ensures left <= k.cycle <= right
  {
    var b :| b in keys && b.source == k.source && b.stamp.at < start && b.cycle == left;
    var a :| a in keys && a.source == k.source && a.stamp.at >= end && a.cycle == right;
    if k.cycle < left {
      EmittedOrder(p, h, k, b);
    }
    if right < k.cycle {
      EmittedOrder(p, h, a, k);
    }
  }

  lemma CompleteFrameHolds(p: Plan, h: History, keys: set<Key>, k: Key)
    requires p.epoch > 0 && AllEmitted(p, h, keys) && Emitted(p, h, k)
    requires FrameComplete(p, keys, k.source, k.cycle)
    ensures k in keys
  {
    assert k.destination in Targets(keys, k.source, k.cycle);
    var l :| l in keys && l.source == k.source && l.cycle == k.cycle && l.destination == k.destination;
    assert Emitted(p, h, l);
  }

  /** With every source closed, the expected records are exactly what was emitted in the window. */
  lemma ExpectedIsEmitted(p: Plan, h: History, keys: set<Key>, start: int, end: int, k: Key)
    requires Genuine(p, h) && AllEmitted(p, h, keys) && AllSourcesClosed(p, keys, start, end)
    ensures k in ExpectedKeys(p, keys, start, end, |p.clients|) <==> Emitted(p, h, k) && InWindow(k, start, end)
  {
    assert p.clients[..|p.clients|] == p.clients;
    if Emitted(p, h, k) && InWindow(k, start, end) {
      var i :| 0 <= i < |p.clients| && p.clients[i] == k.source;
      assert HasClosed(p, keys, p.clients[i], start, end);
      var left: nat, right: nat :| SourceClosed(p, keys, k.source, start, end, left, right);
      EmittedBetween(p, h, keys, start, end, k, left, right);
      CompleteFrameHolds(p, h, keys, k);
      assert Enclosed(p, keys, start, end, k);
    }
  }

  /** A ready verdict means the snapshot is exactly the rows every source emitted in the
      window: nothing missing, nothing extra. */
  lemma ReadyIsExact(p: Plan, h: History, progress: seq<Row>, snapshot: seq<Row>, start: int, end: int)
    requires Genuine(p, h) && DrawnProgress(p, h, progress) && DrawnSnapshot(p, h, snapshot)
    requires Whole(progress, snapshot, start, end) && Closing(p, progress, snapshot, start, end)
    ensures forall s, c, d {:trigger Planned(p, s, c, d)} :: Planned(p, s, c, d) ==>
              (h(s, c, d) in snapshot <==> start <= At(h, s, c, d) < end)
    ensures forall r :: r in snapshot ==> Exact(p, h, r)
  {
    var keys := KeySet(CompleteRows(progress));
    ProgressEmitted(p, h, progress);
    forall r | r in snapshot
      ensures Exact(p, h, r)
    {
      var i :| 0 <= i < |snapshot| && snapshot[i] == r;
    }
    forall s, c, d | Planned(p, s, c, d)
      ensures h(s, c, d) in snapshot <==> start <= At(h, s, c, d) < end
    {
      assert RowFits(p, h, s, c, d);
      ExactlyInWindow(p, h, progress, snapshot, start, end, h(s, c, d));
    }
  }

  lemma ExactlyInWindow(p: Plan, h: History, progress: seq<Row>, snapshot: seq<Row>, start: int, end: int, r: Row)
    requires Genuine(p, h) && DrawnProgress(p, h, progress) && DrawnSnapshot(p, h, snapshot)
    requires Closing(p, progress, snapshot, start, end)
    requires Exact(p, h, r) && Full(r)
    ensures r in snapshot <==> InWindow(KeyOf(r), start, end)
  {
    var keys := KeySet(CompleteRows(progress));
    var k := KeyOf(r);
    ProgressEmitted(p, h, progress);
    ObservedIdentified(p, h, r);
    ExpectedIsEmitted(p, h, keys, start, end, k);
    if r in snapshot {
      FullMember(snapshot, r);
      assert k in KeySet(FullRows(snapshot));
    }
    if k in KeySet(FullRows(snapshot)) {
      var x :| x in FullRows(snapshot) && Readable(x) && KeyOf(x) == k;
      FullExact(p, h, snapshot, x);
      FullMember(snapshot, x);
    }
  }

  // ---------------------------------------------------------------- stability

  /** The observed keys on one side of a boundary have a last and a first cycle. */
  lemma {:induction false} HasLeft(keys: set<Key>, s: Name, start: int)
    requires exists k :: k in keys && k.source == s && k.stamp.at < start
    ensures exists left: nat :: IsLeft(keys, s, start, left)
  {
    var k :| k in keys && k.source == s && k.stamp.at < start;
    if l :| l in keys && l.source == s && l.stamp.at < start && l.cycle > k.cycle {
      var fewer := keys - {k};
      assert l in fewer;
      HasLeft(fewer, s, start);
      var left: nat :| IsLeft(fewer, s, start, left);
      assert IsLeft(keys, s, start, left);
    } else {
      assert IsLeft(keys, s, start, k.cycle);
    }
  }

  lemma {:induction false} HasRight(keys: set<Key>, s: Name, end: int)
    requires exists k :: k in keys && k.source == s && k.stamp.at >= end
    ensures exists right: nat :: IsRight(keys, s, end, right)
  {
    var k :| k in keys && k.source == s && k.stamp.at >= end;
    if l :| l in keys && l.source == s && l.stamp.at >= end && l.cycle < k.cycle {
      var fewer := keys - {k};
      assert l in fewer;
      HasRight(fewer, s, end);
      var right: nat :| IsRight(fewer, s, end, right);
      assert IsRight(keys, s, end, right);
    } else {
      assert IsRight(keys, s, end, k.cycle);
    }
  }

  /** A complete frame stays complete when more genuine rows arrive. */
  lemma FrameStaysComplete(p: Plan, h: History, keys: set<Key>, more: set<Key>, s: Name, c: nat)
    requires p.epoch > 0 && keys <= more && AllEmitted(p, h, more) && FrameComplete(p, keys, s, c)
    ensures FrameComplete(p, more, s, c)
  {
    forall d | d in Targets(more, s, c)
      ensures d in Expected(p, s, c)
    {
      var k :| k in more && k.source == s && k.cycle == c && k.destination == d;
      assert Emitted(p, h, k);
    }
    forall d | d in Targets(keys, s, c)
      ensures d in Targets(more, s, c)
    {
      var k :| k in keys && k.source == s && k.cycle == c && k.destination == d;
      assert k in more;
    }
  }

  /** More rows move the left boundary right, if at all. */
  lemma LeftMoves(keys: set<Key>, more: set<Key>, s: Name, start: int, left: nat) returns (left': nat)
    requires keys <= more && IsLeft(keys, s, start, left)
    ensures IsLeft(more, s, start, left') && left <= left'
  {
    var b :| b in keys && b.source == s && b.stamp.at < start && b.cycle == left;
    assert b in more;
    HasLeft(more, s, start);
    left' :| IsLeft(more, s, start, left');
  }

  /** And the right boundary left. */
  lemma RightMoves(keys: set<Key>, more: set<Key>, s: Name, end: int, right: nat) returns (right': nat)
    requires keys <= more && IsRight(keys, s, end, right)
    ensures IsRight(more, s, end, right') && right' <= right
  {
    var a :| a in keys && a.source == s && a.stamp.at >= end && a.cycle == right;
    assert a in more;
    HasRight(more, s, end);
    right' :| IsRight(more, s, end, right');
  }

  /** Boundary cycles may move inwards, but a closed source stays closed. */
  lemma StaysClosed(p: Plan, h: History, keys: set<Key>, more: set<Key>, s: Name, start: int, end: int)
    requires p.epoch > 0 && keys <= more && AllEmitted(p, h, more) && HasClosed(p, keys, s, start, end)
    ensures HasClosed(p, more, s, start, end)
  {
    var left: nat, right: nat :| SourceClosed(p, keys, s, start, end, left, right);
    var left' := LeftMoves(keys, more, s, start, left);
    var right' := RightMoves(keys, more, s, end, right);
    forall c: nat | left' <= c <= right'
      ensures FrameComplete(p, more, s, c)
    {
      FrameStaysComplete(p, h, keys, more, s, c);
    }
    assert SourceClosed(p, more, s, start, end, left', right');
  }

  lemma MoreProgressKeys(rows: seq<Row>, more: seq<Row>)
    requires forall r :: r in rows ==> r in more
    ensures KeySet(CompleteRows(rows)) <= KeySet(CompleteRows(more))
  {
    forall r | r in CompleteRows(rows)
      ensures r in CompleteRows(more)
    {
      CompleteMember(rows, r);
      CompleteMember(more, r);
    }
  }

  lemma MoreSnapshotKeys(rows: seq<Row>, more: seq<Row>)
    requires forall r :: r in rows ==> r in more
    ensures KeySet(FullRows(rows)) <= KeySet(FullRows(more))
  {
    forall r | r in FullRows(rows)
      ensures r in FullRows(more)
    {
      FullMember(rows, r);
      FullMember(more, r);
    }
  }

  /** The snapshot query returns rows of its own interval. */
  ghost predicate WithinQuery(rows: seq<Row>, start: int, end: int) {
    forall i :: 0 <= i < |rows| && Readable(rows[i]) ==> InWindow(KeyOf(rows[i]), start, end)
  }

  lemma QueryKeys(rows: seq<Row>, start: int, end: int, k: Key)
    requires WithinQuery(rows, start, end) && k in KeySet(FullRows(rows))
    ensures InWindow(k, start, end)
  {
    var r :| r in FullRows(rows) && Readable(r) && KeyOf(r) == k;
    FullMember(rows, r);
    var i :| 0 <= i < |rows| && rows[i] == r;
  }

  /** Once a window is ready, every later superset of rows from the same history is ready
      again, with the same keys, exactly when none of its rows misses a field. */
  lemma ReadyIsStable(p: Plan, h: History, progress: seq<Row>, snapshot: seq<Row>,
                      later: seq<Row>, laterSnapshot: seq<Row>, start: int, end: int)
    requires Genuine(p, h) && DrawnProgress(p, h, progress) && DrawnSnapshot(p, h, snapshot)
    requires DrawnProgress(p, h, later) && DrawnSnapshot(p, h, laterSnapshot) && WithinQuery(laterSnapshot, start, end)
    requires forall r :: r in progress ==> r in later
    requires forall r :: r in snapshot ==> r in laterSnapshot
    requires IsReady(p, progress, snapshot, start, end)
    ensures IsReady(p, later, laterSnapshot, start, end) <==> Whole(later, laterSnapshot, start, end)
    ensures KeySet(FullRows(laterSnapshot)) == KeySet(FullRows(snapshot))
  {
    StaysClosing(p, h, progress, snapshot, later, laterSnapshot, start, end);
  }

  /** Once the frames close a window on a snapshot, they close it on every later superset of
      rows from the same history, with the same keys. */
  lemma StaysClosing(p: Plan, h: History, progress: seq<Row>, snapshot: seq<Row>,
                      later: seq<Row>, laterSnapshot: seq<Row>, start: int, end: int)
    requires Genuine(p, h) && DrawnProgress(p, h, progress) && DrawnSnapshot(p, h, snapshot)
    requires DrawnProgress(p, h, later) && DrawnSnapshot(p, h, laterSnapshot) && WithinQuery(laterSnapshot, start, end)
    requires forall r :: r in progress ==> r in later
    requires forall r :: r in snapshot ==> r in laterSnapshot
    requires Closing(p, progress, snapshot, start, end)
    ensures Sound(p, later, laterSnapshot, start, end) && Closing(p, later, laterSnapshot, start, end)
    ensures KeySet(FullRows(laterSnapshot)) == KeySet(FullRows(snapshot))
  {
    var keys, more := KeySet(CompleteRows(progress)), KeySet(CompleteRows(later));
    GenuineNeverInvalid(p, h, later, laterSnapshot, start, end);
    ProgressEmitted(p, h, progress);
    ProgressEmitted(p, h, later);
    MoreProgressKeys(progress, later);
    MoreSnapshotKeys(snapshot, laterSnapshot);
    SnapshotEmitted(p, h, laterSnapshot);
    forall i | 0 <= i < |p.clients|
      ensures HasClosed(p, more, p.clients[i], start, end)
    {
      StaysClosed(p, h, keys, more, p.clients[i], start, end);
    }
    SameExpected(p, h, keys, more, start, end);
    forall k | k in KeySet(FullRows(laterSnapshot))
      ensures k in ExpectedKeys(p, keys, start, end, |p.clients|)
    {
      QueryKeys(laterSnapshot, start, end, k);
      ExpectedIsEmitted(p, h, keys, start, end, k);
    }
  }

  lemma SameExpected(p: Plan, h: History, keys: set<Key>, more: set<Key>, start: int, end: int)
    requires Genuine(p, h) && AllEmitted(p, h, keys) && AllEmitted(p, h, more)
    requires AllSourcesClosed(p, keys, start, end) && AllSourcesClosed(p, more, start, end)
    ensures ExpectedKeys(p, keys, start, end, |p.clients|) == ExpectedKeys(p, more, start, end, |p.clients|)
  {
    var n := |p.clients|;
    forall k: Key
      ensures k in ExpectedKeys(p, keys, start, end, n) <==> k in ExpectedKeys(p, more, start, end, n)
    {
      ExpectedIsEmitted(p, h, keys, start, end, k);
      ExpectedIsEmitted(p, h, more, start, end, k);
    }
  }

  /** Equal key sets from one history carry equal records, so the digest does not move either. */
  lemma SameRecords(p: Plan, h: History, snapshot: seq<Row>, later: seq<Row>, a: map<Key, Row>, b: map<Key, Row>)
    requires p.epoch > 0 && DrawnSnapshot(p, h, snapshot) && DrawnSnapshot(p, h, later)
    requires KeySet(FullRows(snapshot)) == KeySet(FullRows(later))
    requires Records(FullRows(snapshot), a) && Records(FullRows(later), b)
    ensures a == b
  {
    forall k | k in a
      ensures a[k] == b[k]
    {
      RecordOf(p, h, snapshot, a, k);
      RecordOf(p, h, later, b, k);
    }
  }

  lemma RecordOf(p: Plan, h: History, rows: seq<Row>, records: map<Key, Row>, k: Key)
    requires p.epoch > 0 && DrawnSnapshot(p, h, rows) && Records(FullRows(rows), records) && k in records
    ensures records[k] == h(k.source, k.cycle, k.destination)
  {
    var r :| r in FullRows(rows) && Readable(r) && KeyOf(r) == k;
    FullExact(p, h, rows, r);
    var i :| 0 <= i < |FullRows(rows)| && FullRows(rows)[i] == r;
  }
}
