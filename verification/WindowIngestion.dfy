/** The ingestion audit that closes an observation window
    (netopsbench/platform/pingmesh/_detector_ingestion.py, `_progress_frames` and
    `audit_ingestion`). */
module WindowIngestion {
  import opened FabricGraph
  import opened Counting

  // ---------------------------------------------------------------- plan and rows

  /** What the plan expects of one cycle of one source. */
  datatype Expect = Expect(destinationBatch: nat, portBatch: nat, names: set<Name>)

  datatype Plan = Plan(planId: string, epoch: nat, interval: nat, clients: seq<Name>,
                       frames: map<(Name, nat), Expect>, addresses: map<Name, string>)

  ghost predicate ValidPlan(p: Plan) {
    && p.epoch > 0
    && forall s: Name, c: nat :: (s, c) in p.frames <==> s in p.clients && c < p.epoch
  }

  /** The targets source `s` probes in cycle `c`. */
  function Expected(p: Plan, s: Name, c: nat): set<Name>
    requires p.epoch > 0
  {
    if (s, Wrap(c, p.epoch)) in p.frames then p.frames[(s, Wrap(c, p.epoch))].names else {}
  }

  /** A queried field: missing or empty, unreadable, or a value. */
  datatype Field<T> = Absent | Malformed | Is(value: T)

  /** A timestamp as text, with the instant it denotes. */
  datatype Stamp = Stamp(text: string, at: int)

  datatype Row = Row(planId: Field<string>, source: Field<Name>, cycle: Field<nat>, destination: Field<Name>,
                     stamp: Field<Stamp>, destinationBatch: Field<nat>, portBatch: Field<nat>,
                     sourceIp: string, destinationIp: string, metrics: seq<Field<real>>)

  datatype Key = Key(source: Name, cycle: nat, destination: Name, stamp: Stamp)

  /** All of `_PROGRESS_KEYS` are present. */
  predicate Complete(r: Row) {
    !r.planId.Absent? && !r.source.Absent? && !r.cycle.Absent? && !r.destination.Absent? && !r.stamp.Absent?
    && !r.destinationBatch.Absent? && !r.portBatch.Absent?
  }

  predicate Readable(r: Row) {
    r.source.Is? && r.cycle.Is? && r.destination.Is? && r.stamp.Is?
  }

  function KeyOf(r: Row): Key
    requires Readable(r)
  {
    Key(r.source.value, r.cycle.value, r.destination.value, r.stamp.value)
  }

  predicate AddressFits(p: Plan, name: Name, ip: string) {
    name in p.addresses ==> p.addresses[name] == ip
  }

  /** Everything `_progress_frames` checks on a single row. */
  predicate Identified(p: Plan, r: Row)
    requires p.epoch > 0
  {
    && Readable(r)
    && r.planId == Is(p.planId)
    && AddressFits(p, r.source.value, r.sourceIp) && AddressFits(p, r.destination.value, r.destinationIp)
    && InFrame(p, r, (r.source.value, Wrap(r.cycle.value, p.epoch)))
  }

  predicate InFrame(p: Plan, r: Row, slot: (Name, nat))
    requires Readable(r)
  {
    && slot in p.frames
    && r.destination.value in p.frames[slot].names
    && r.destinationBatch == Is(p.frames[slot].destinationBatch)
    && r.portBatch == Is(p.frames[slot].portBatch)
  }

  predicate SameTask(k: Key, l: Key) {
    k.source == l.source && k.cycle == l.cycle && k.destination == l.destination
  }

  /** No task occurs with two timestamps. */
  ghost predicate Functional(keys: set<Key>) {
    forall k, l :: k in keys && l in keys && SameTask(k, l) ==> k == l
  }

  ghost function KeySet(rows: seq<Row>): set<Key> {
    set r | r in rows && Readable(r) :: KeyOf(r)
  }

  ghost predicate AllIdentified(p: Plan, rows: seq<Row>)
    requires p.epoch > 0
  {
    forall i :: 0 <= i < |rows| ==> Identified(p, rows[i])
  }

  lemma KeySetAppend(rows: seq<Row>, r: Row)
    requires Readable(r)
    ensures KeySet(rows + [r]) == KeySet(rows) + {KeyOf(r)}
  {
    assert r in rows + [r];
  }

  lemma KeySetPrefix(rows: seq<Row>, n: nat)
    requires n <= |rows|
    ensures KeySet(rows[..n]) <= KeySet(rows)
  {
  }

  /** `_progress_frames`: the collected frames as the set of their (task, timestamp) keys. */
  method ProgressFrames(p: Plan, rows: seq<Row>) returns (ok: bool, keys: set<Key>)
    requires p.epoch > 0
    ensures ok <==> AllIdentified(p, rows) && Functional(KeySet(rows))
    ensures ok ==> keys == KeySet(rows)
  {
    keys := {};
    for n := 0 to |rows|
      invariant AllIdentified(p, rows[..n]) && Functional(keys) && keys == KeySet(rows[..n])
    {
      var row := rows[n];
      if !Identified(p, row) {
        return false, keys;
      }
      var key := KeyOf(row);
      assert rows[..n + 1] == rows[..n] + [row];
      KeySetAppend(rows[..n], row);
      KeySetPrefix(rows, n + 1);
      if previous :| previous in keys && SameTask(previous, key) && previous.stamp != key.stamp {
        return false, keys;
      }
      keys := keys + {key};
    }
    assert rows[..|rows|] == rows;
    ok := true;
  }

  // ---------------------------------------------------------------- order of cycles and times

  datatype Point = Point(at: int, cycle: nat)

  predicate Leq(a: Point, b: Point) {
    a.at < b.at || (a.at == b.at && a.cycle <= b.cycle)
  }

  ghost predicate Ordered(s: seq<Point>) {
    forall i, j :: 0 <= i < j < |s| ==> Leq(s[i], s[j])
  }

  function InsertPoint(s: seq<Point>, x: Point): (r: seq<Point>)
    requires Ordered(s)
    ensures Ordered(r) && forall y :: y in r <==> y in s || y == x
  {
    if s == [] || Leq(x, s[0]) then [x] + s else
      var rest := InsertPoint(s[1..], x);
      assert s == [s[0]] + s[1..];
      assert forall i :: 0 <= i < |rest| ==> rest[i] in rest;
      assert forall y :: y in s[1..] ==> Leq(s[0], y);
      [s[0]] + rest
  }

  /** `sorted(by_source[source])`: lexicographic in (time, cycle). */
  function SortPoints(s: seq<Point>): (r: seq<Point>)
    ensures Ordered(r) && forall y :: y in r <==> y in s
  {
    if s == [] then [] else
      assert s == [s[0]] + s[1..];
      InsertPoint(SortPoints(s[1..]), s[0])
  }

  /** `a` is earlier than `b` but belongs to a later cycle. */
  predicate Crossed(a: Point, b: Point) {
    a.at < b.at && b.cycle < a.cycle
  }

  /** Comparing neighbours of the sorted list finds every crossing pair. */
  method OrderConflict(points: seq<Point>) returns (conflict: bool)
    ensures conflict <==> exists a, b :: a in points && b in points && Crossed(a, b)
  {
    var ordered := SortPoints(points);
    var n := 1;
    while n < |ordered|
      invariant 1 <= n
      invariant forall i, j :: 0 <= i < j < |ordered| && j < n ==> ordered[i].cycle <= ordered[j].cycle
    {
      if ordered[n].cycle < ordered[n - 1].cycle {
        assert Leq(ordered[n - 1], ordered[n]);
        assert ordered[n - 1] in points && ordered[n] in points && Crossed(ordered[n - 1], ordered[n]);
        return true;
      }
      n := n + 1;
    }
    forall a, b | a in points && b in points
      ensures !Crossed(a, b)
    {
      assert a in ordered && b in ordered;
      var i :| 0 <= i < |ordered| && ordered[i] == a;
      var j :| 0 <= j < |ordered| && ordered[j] == b;
    }
    conflict := false;
  }

  // ---------------------------------------------------------------- one source

  function PointOf(k: Key): Point { Point(k.stamp.at, k.cycle) }

  /** Two keys of one source whose times and cycles disagree. */
  ghost predicate Conflict(keys: set<Key>, s: Name) {
    exists k, l :: k in keys && l in keys && k.source == s && l.source == s && Crossed(PointOf(k), PointOf(l))
  }

  /** The observed keys of one source, listed in any order. */
  method ListSource(keys: set<Key>, s: Name) returns (list: seq<Key>)
    ensures forall k :: k in list <==> k in keys && k.source == s
  {
    list := [];
    var rest := keys;
    while rest != {}
      invariant rest <= keys
      invariant forall k :: k in list <==> k in keys && k !in rest && k.source == s
    {
      var k :| k in rest;
      rest := rest - {k};
      if k.source == s {
        list := list + [k];
      }
    }
  }

  method SourceConflict(list: seq<Key>) returns (conflict: bool)
    ensures conflict <==> exists k, l :: k in list && l in list && Crossed(PointOf(k), PointOf(l))
  {
    var points := seq(|list|, i requires 0 <= i < |list| => PointOf(list[i]));
    forall k | k in list
      ensures PointOf(k) in points
    {
      var i :| 0 <= i < |list| && list[i] == k;
      assert points[i] == PointOf(k);
    }
    conflict := OrderConflict(points);
    if conflict {
      var a, b :| a in points && b in points && Crossed(a, b);
      var i :| 0 <= i < |points| && points[i] == a;
      var j :| 0 <= j < |points| && points[j] == b;
      assert list[i] in list && list[j] in list && Crossed(PointOf(list[i]), PointOf(list[j]));
    }
  }

  /** `left` is the last cycle of `s` observed before `start`. */
  ghost predicate IsLeft(keys: set<Key>, s: Name, start: int, left: nat) {
    && (exists k :: k in keys && k.source == s && k.stamp.at < start && k.cycle == left)
    && (forall k :: k in keys && k.source == s && k.stamp.at < start ==> k.cycle <= left)
  }

  /** `right` is the first cycle of `s` observed at or after `end`. */
  ghost predicate IsRight(keys: set<Key>, s: Name, end: int, right: nat) {
    && (exists k :: k in keys && k.source == s && k.stamp.at >= end && k.cycle == right)
    && (forall k :: k in keys && k.source == s && k.stamp.at >= end ==> right <= k.cycle)
  }

  /** The two boundary cycles, if rows exist on both sides. */
  method Boundaries(list: seq<Key>, start: int, end: int) returns (before: bool, after: bool, left: nat, right: nat)
    ensures before <==> exists k :: k in list && k.stamp.at < start
    ensures after <==> exists k :: k in list && k.stamp.at >= end
    ensures before ==> (exists k :: k in list && k.stamp.at < start && k.cycle == left)
                       && (forall k :: k in list && k.stamp.at < start ==> k.cycle <= left)
    ensures after ==> (exists k :: k in list && k.stamp.at >= end && k.cycle == right)
                      && (forall k :: k in list && k.stamp.at >= end ==> right <= k.cycle)
  {
    before, after, left, right := false, false, 0, 0;
    for n := 0 to |list|
      invariant before <==> exists k :: k in list[..n] && k.stamp.at < start
      invariant after <==> exists k :: k in list[..n] && k.stamp.at >= end
      invariant before ==> (exists k :: k in list[..n] && k.stamp.at < start && k.cycle == left)
                           && (forall k :: k in list[..n] && k.stamp.at < start ==> k.cycle <= left)
      invariant after ==> (exists k :: k in list[..n] && k.stamp.at >= end && k.cycle == right)
                          && (forall k :: k in list[..n] && k.stamp.at >= end ==> right <= k.cycle)
    {
      var k := list[n];
      assert list[..n + 1] == list[..n] + [k];
      if k.stamp.at < start {
        left := if before && left >= k.cycle then left else k.cycle;
        before := true;
      }
      if k.stamp.at >= end {
        right := if after && right <= k.cycle then right else k.cycle;
        after := true;
      }
    }
    assert list[..|list|] == list;
  }

  /** The targets observed in one cycle of a source. */
  function Targets(keys: set<Key>, s: Name, c: nat): set<Name> {
    set k | k in keys && k.source == s && k.cycle == c :: k.destination
  }

  predicate FrameComplete(p: Plan, keys: set<Key>, s: Name, c: nat)
    requires p.epoch > 0
  {
    Targets(keys, s, c) == Expected(p, s, c)
  }

  /** Both boundaries are observed and every frame between them is complete. */
  ghost predicate SourceClosed(p: Plan, keys: set<Key>, s: Name, start: int, end: int, left: nat, right: nat)
    requires p.epoch > 0
  {
    && IsLeft(keys, s, start, left) && IsRight(keys, s, end, right)
    && forall c: nat :: left <= c <= right ==> FrameComplete(p, keys, s, c)
  }

  predicate InWindow(k: Key, start: int, end: int) {
    start <= k.stamp.at < end
  }

  /** Keys of `s` inside the window, from the frames between the boundaries. */
  function Between(keys: set<Key>, s: Name, left: nat, right: nat, start: int, end: int): set<Key> {
    set k | k in keys && k.source == s && left <= k.cycle <= right && InWindow(k, start, end)
  }

  datatype SourceResult = Crossing | Open | Closed(left: nat, right: nat, expected: set<Key>)

  /** The body of the loop over `self._pingmesh_clients` for one source. */
  method AuditSource(p: Plan, keys: set<Key>, s: Name, start: int, end: int) returns (r: SourceResult)
    requires p.epoch > 0
    ensures r.Crossing? <==> Conflict(keys, s)
    ensures r.Open? ==> forall left: nat, right: nat :: !SourceClosed(p, keys, s, start, end, left, right)
    ensures r.Closed? ==> SourceClosed(p, keys, s, start, end, r.left, r.right)
                          && r.expected == Between(keys, s, r.left, r.right, start, end)
  {
    var list := ListSource(keys, s);
    var crossing := SourceConflict(list);
    if crossing {
      return Crossing;
    }
    var before, after, left, right := Boundaries(list, start, end);
    if !before || !after {
      return Open;
    }
    assert IsLeft(keys, s, start, left) && IsRight(keys, s, end, right);
    var missing, expected := AuditFrames(p, keys, s, start, end, left, right);
    r := if missing then Open else Closed(left, right, expected);
  }

  /** `for cycle in range(left, right + 1)`. */
  method AuditFrames(p: Plan, keys: set<Key>, s: Name, start: int, end: int, left: nat, right: nat)
    returns (missing: bool, expected: set<Key>)
    requires p.epoch > 0
    ensures !missing <==> forall c: nat :: left <= c <= right ==> FrameComplete(p, keys, s, c)
    ensures expected == Between(keys, s, left, right, start, end)
  {
    missing, expected := false, {};
    var c := left;
    while c <= right
      invariant left <= c
      invariant !missing <==> forall c': nat :: left <= c' < c && c' <= right ==> FrameComplete(p, keys, s, c')
      invariant expected == set k | k in keys && k.source == s && left <= k.cycle < c && k.cycle <= right && InWindow(k, start, end)
    {
      if !FrameComplete(p, keys, s, c) {
        missing := true;
      }
      expected := expected + set k | k in keys && k.source == s && k.cycle == c && InWindow(k, start, end);
      c := c + 1;
    }
  }

  // ---------------------------------------------------------------- all sources

  ghost predicate HasClosed(p: Plan, keys: set<Key>, s: Name, start: int, end: int)
    requires p.epoch > 0
  {
    exists left: nat, right: nat :: SourceClosed(p, keys, s, start, end, left, right)
  }

  /** `k` lies in the window and between the boundaries of its source. */
  ghost predicate Enclosed(p: Plan, keys: set<Key>, start: int, end: int, k: Key)
    requires p.epoch > 0
  {
    InWindow(k, start, end)
    && exists left: nat, right: nat ::
      SourceClosed(p, keys, k.source, start, end, left, right) && left <= k.cycle <= right
  }

  /** The records the frames prove were emitted in the window by the first `n` clients. */
  ghost function ExpectedKeys(p: Plan, keys: set<Key>, start: int, end: int, n: nat): set<Key>
    requires p.epoch > 0 && n <= |p.clients|
  {
    set k | k in keys && k.source in p.clients[..n] && Enclosed(p, keys, start, end, k)
  }

  lemma ClosedUnique(p: Plan, keys: set<Key>, s: Name, start: int, end: int, left: nat, right: nat, left': nat, right': nat)
    requires p.epoch > 0
    requires SourceClosed(p, keys, s, start, end, left, right) && SourceClosed(p, keys, s, start, end, left', right')
    ensures left == left' && right == right'
  {
  }

  lemma ExpectedGrows(p: Plan, keys: set<Key>, start: int, end: int, n: nat, left: nat, right: nat)
    requires p.epoch > 0 && n < |p.clients|
    requires SourceClosed(p, keys, p.clients[n], start, end, left, right)
    ensures ExpectedKeys(p, keys, start, end, n + 1) ==
            ExpectedKeys(p, keys, start, end, n) + Between(keys, p.clients[n], left, right, start, end)
  {
    var s := p.clients[n];
    assert p.clients[..n + 1] == p.clients[..n] + [s];
    forall k | k in keys && k.source == s
      ensures Enclosed(p, keys, start, end, k) <==> InWindow(k, start, end) && left <= k.cycle <= right
    {
      if Enclosed(p, keys, start, end, k) {
        var l: nat, r: nat :| SourceClosed(p, keys, s, start, end, l, r) && l <= k.cycle <= r;
        ClosedUnique(p, keys, s, start, end, left, right, l, r);
      }
    }
  }

  datatype SourcesResult = SomeCrossing | SomeOpen | AllClosed(expected: set<Key>)

  ghost predicate ClosedUpTo(p: Plan, keys: set<Key>, start: int, end: int, n: nat)
    requires p.epoch > 0
  {
    forall i :: 0 <= i < n && i < |p.clients| ==> HasClosed(p, keys, p.clients[i], start, end)
  }

  /** The loop over the clients. */
  method AuditSources(p: Plan, keys: set<Key>, start: int, end: int) returns (r: SourcesResult)
    requires p.epoch > 0
    ensures r.SomeCrossing? <==> exists i :: 0 <= i < |p.clients| && Conflict(keys, p.clients[i])
    ensures r.SomeOpen? ==> exists i :: 0 <= i < |p.clients| && !HasClosed(p, keys, p.clients[i], start, end)
    ensures r.AllClosed? ==> (forall i :: 0 <= i < |p.clients| ==> HasClosed(p, keys, p.clients[i], start, end))
                             && r.expected == ExpectedKeys(p, keys, start, end, |p.clients|)
  {
    var open, expected: set<Key> := false, {};
    for n := 0 to |p.clients|
      invariant forall i :: 0 <= i < n ==> !Conflict(keys, p.clients[i])
      invariant open <==> !ClosedUpTo(p, keys, start, end, n)
      invariant !open ==> expected == ExpectedKeys(p, keys, start, end, n)
    {
      var one := AuditSource(p, keys, p.clients[n], start, end);
      match one {
        case Crossing => return SomeCrossing;
        case Open => open := true;
        case Closed(left, right, more) =>
          ExpectedGrows(p, keys, start, end, n, left, right);
          expected := expected + more;
      }
    }
    r := if open then SomeOpen else AllClosed(expected);
  }

  // ---------------------------------------------------------------- the two queries

  function CompleteRows(rows: seq<Row>): seq<Row> {
    if rows == [] then [] else
      var last := rows[|rows| - 1];
      CompleteRows(rows[..|rows| - 1]) + if Complete(last) then [last] else []
  }

  predicate Holed(r: Row, start: int, end: int) {
    !Complete(r) && r.stamp.Is? && start <= r.stamp.value.at < end
  }

  /** An incomplete row whose time cannot be read, met before any incomplete row of the window. */
  ghost predicate Unreadable(rows: seq<Row>, start: int, end: int) {
    exists i :: 0 <= i < |rows| && !Complete(rows[i]) && !rows[i].stamp.Is?
                && forall j :: 0 <= j < i ==> !Holed(rows[j], start, end)
  }

  /** `any(... for row in progress_rows)`, which stops at the first incomplete row of the window. */
  method FindHole(rows: seq<Row>, start: int, end: int) returns (unreadable: bool, hole: bool)
    ensures unreadable <==> Unreadable(rows, start, end)
    ensures !unreadable ==> (hole <==> exists i :: 0 <= i < |rows| && Holed(rows[i], start, end))
  {
    for n := 0 to |rows|
      invariant forall i :: 0 <= i < n ==> !Holed(rows[i], start, end)
      invariant forall i :: 0 <= i < n && !Complete(rows[i]) ==> rows[i].stamp.Is?
    {
      if !Complete(rows[n]) {
        if !rows[n].stamp.Is? {
          return true, false;
        }
        if Holed(rows[n], start, end) {
          return false, true;
        }
      }
    }
    return false, false;
  }

  /** A snapshot row with every metric present. */
  predicate Full(r: Row) {
    Complete(r) && forall i :: 0 <= i < |r.metrics| ==> !r.metrics[i].Absent?
  }

  predicate Finite(r: Row) {
    forall i :: 0 <= i < |r.metrics| ==> r.metrics[i].Is?
  }

  function FullRows(rows: seq<Row>): seq<Row> {
    if rows == [] then [] else
      var last := rows[|rows| - 1];
      FullRows(rows[..|rows| - 1]) + if Full(last) then [last] else []
  }

  ghost predicate OneRowPerKey(rows: seq<Row>) {
    forall i, j :: 0 <= i < j < |rows| && Readable(rows[i]) && Readable(rows[j]) && KeyOf(rows[i]) == KeyOf(rows[j]) ==>
                     rows[i] == rows[j]
  }

  ghost predicate RowsLegible(rows: seq<Row>) {
    forall i :: 0 <= i < |rows| ==> Finite(rows[i]) && Readable(rows[i])
  }

  /** What the audit asks of the complete snapshot rows. */
  ghost predicate SnapshotSound(p: Plan, rows: seq<Row>)
    requires p.epoch > 0
  {
    RowsLegible(rows) && OneRowPerKey(rows) && AllIdentified(p, rows) && Functional(KeySet(rows))
  }

  /** The records collected from the snapshot: one row per key. */
  ghost predicate Records(rows: seq<Row>, actual: map<Key, Row>) {
    && actual.Keys == KeySet(rows)
    && forall i :: 0 <= i < |rows| ==> Readable(rows[i]) && KeyOf(rows[i]) in actual && actual[KeyOf(rows[i])] == rows[i]
  }

  lemma RecordMore(rows: seq<Row>, actual: map<Key, Row>, r: Row)
    requires RowsLegible(rows) && OneRowPerKey(rows) && Records(rows, actual) && Readable(r) && Finite(r)
    ensures KeyOf(r) in actual && actual[KeyOf(r)] != r ==> !OneRowPerKey(rows + [r])
    ensures !(KeyOf(r) in actual && actual[KeyOf(r)] != r) ==>
              OneRowPerKey(rows + [r]) && Records(rows + [r], actual[KeyOf(r) := r])
  {
    KeySetAppend(rows, r);
    var more := rows + [r];
    if KeyOf(r) in actual && actual[KeyOf(r)] != r {
      assert KeyOf(r) in KeySet(rows);
      var x :| x in rows && Readable(x) && KeyOf(x) == KeyOf(r);
      var i :| 0 <= i < |rows| && rows[i] == x;
      assert more[i] == x && more[|rows|] == r;
    }
  }

  lemma {:induction false} FullPrefix(rows: seq<Row>, n: nat)
    requires n <= |rows|
    ensures FullRows(rows[..n]) <= FullRows(rows)
    decreases |rows| - n
  {
    if n < |rows| {
      assert rows[..n + 1][..n] == rows[..n];
      FullPrefix(rows, n + 1);
    } else {
      assert rows[..n] == rows;
    }
  }

  ghost predicate Gathered(rows: seq<Row>, actual: map<Key, Row>) {
    RowsLegible(rows) && OneRowPerKey(rows) && Records(rows, actual)
  }

  predicate Clashes(actual: map<Key, Row>, r: Row)
    requires Readable(r)
  {
    KeyOf(r) in actual && actual[KeyOf(r)] != r
  }

  lemma PrefixSound(rows: seq<Row>, all: seq<Row>)
    requires rows <= all && RowsLegible(all) && OneRowPerKey(all)
    ensures RowsLegible(rows) && OneRowPerKey(rows)
  {
  }

  lemma SkipPartial(rows: seq<Row>, n: nat)
    requires n < |rows| && !Full(rows[n])
    ensures FullRows(rows[..n + 1]) == FullRows(rows[..n])
  {
    assert rows[..n + 1][..n] == rows[..n];
  }

  lemma TakeFull(rows: seq<Row>, n: nat)
    requires n < |rows| && Full(rows[n])
    ensures FullRows(rows[..n + 1]) == FullRows(rows[..n]) + [rows[n]]
  {
    assert rows[..n + 1][..n] == rows[..n];
  }

  /** A row that cannot be read or clashes spoils everything it is part of. */
  lemma GatherStops(kept: seq<Row>, row: Row, all: seq<Row>, actual: map<Key, Row>)
    requires Gathered(kept, actual) && kept + [row] <= all
    requires !Finite(row) || !Readable(row) || Clashes(actual, row)
    ensures !(RowsLegible(all) && OneRowPerKey(all))
  {
    assert (kept + [row])[|kept|] == row == all[|kept|];
    if Finite(row) && Readable(row) {
      RecordMore(kept, actual, row);
      if RowsLegible(all) && OneRowPerKey(all) {
        PrefixSound(kept + [row], all);
      }
    }
  }

  lemma GatherOne(kept: seq<Row>, row: Row, actual: map<Key, Row>)
    requires Gathered(kept, actual)
    requires Finite(row) && Readable(row) && !Clashes(actual, row)
    ensures Gathered(kept + [row], actual[KeyOf(row) := row])
  {
    RecordMore(kept, actual, row);
  }

  /** One complete row of the loop. */
  method CollectRow(row: Row, ghost kept: seq<Row>, ghost all: seq<Row>, actual: map<Key, Row>)
    returns (legible: bool, after: map<Key, Row>)
    requires Gathered(kept, actual) && kept + [row] <= all
    ensures legible ==> Gathered(kept + [row], after)
    ensures !legible ==> !(RowsLegible(all) && OneRowPerKey(all))
  {
    if !Finite(row) || !Readable(row) || Clashes(actual, row) {
      GatherStops(kept, row, all, actual);
      return false, actual;
    }
    GatherOne(kept, row, actual);
    return true, actual[KeyOf(row) := row];
  }

  /** The loop over `snapshot_rows`. */
  method CollectSnapshot(rows: seq<Row>) returns (legible: bool, missing: bool, actual: map<Key, Row>)
    ensures legible <==> RowsLegible(FullRows(rows)) && OneRowPerKey(FullRows(rows))
    ensures legible ==> (missing <==> exists i :: 0 <= i < |rows| && !Full(rows[i]))
    ensures legible ==> Records(FullRows(rows), actual)
  {
    missing, actual := false, map[];
    for n := 0 to |rows|
      invariant Gathered(FullRows(rows[..n]), actual)
      invariant missing <==> exists i :: 0 <= i < n && !Full(rows[i])
    {
      if !Full(rows[n]) {
        SkipPartial(rows, n);
        missing := true;
      } else {
        TakeFull(rows, n);
        FullPrefix(rows, n + 1);
        legible, actual := CollectRow(rows[n], FullRows(rows[..n]), FullRows(rows), actual);
        if !legible {
          return false, missing, actual;
        }
      }
    }
    assert rows[..|rows|] == rows;
    legible := true;
  }

  // ---------------------------------------------------------------- the verdict

  datatype Verdict = Invalid | Pending | Ready(records: map<Key, Row>)

  ghost predicate ProgressSound(p: Plan, progress: seq<Row>, start: int, end: int)
    requires p.epoch > 0
  {
    var rows := CompleteRows(progress);
    && !Unreadable(progress, start, end)
    && AllIdentified(p, rows) && Functional(KeySet(rows))
    && forall i :: 0 <= i < |p.clients| ==> !Conflict(KeySet(rows), p.clients[i])
  }

  ghost predicate Sound(p: Plan, progress: seq<Row>, snapshot: seq<Row>, start: int, end: int)
    requires p.epoch > 0
  {
    ProgressSound(p, progress, start, end) && SnapshotSound(p, FullRows(snapshot))
  }

  /** Every client's frames close the window. */
  ghost predicate AllSourcesClosed(p: Plan, keys: set<Key>, start: int, end: int)
    requires p.epoch > 0
  {
    forall i :: 0 <= i < |p.clients| ==> HasClosed(p, keys, p.clients[i], start, end)
  }

  /** No row still misses a field: progress rows inside the window, snapshot rows anywhere. */
  ghost predicate Whole(progress: seq<Row>, snapshot: seq<Row>, start: int, end: int) {
    && (forall i :: 0 <= i < |progress| ==> !Holed(progress[i], start, end))
    && (forall i :: 0 <= i < |snapshot| ==> Full(snapshot[i]))
  }

  ghost predicate Closing(p: Plan, progress: seq<Row>, snapshot: seq<Row>, start: int, end: int)
    requires p.epoch > 0
  {
    var keys := KeySet(CompleteRows(progress));
    && AllSourcesClosed(p, keys, start, end)
    && KeySet(FullRows(snapshot)) == ExpectedKeys(p, keys, start, end, |p.clients|)
  }

  /** When the verdict is `Ready`. */
  ghost predicate IsReady(p: Plan, progress: seq<Row>, snapshot: seq<Row>, start: int, end: int)
    requires p.epoch > 0
  {
    && Sound(p, progress, snapshot, start, end)
    && Whole(progress, snapshot, start, end)
    && Closing(p, progress, snapshot, start, end)
  }

  // ---------------------------------------------------------------- contradictions, row by row

  lemma {:induction false} CompleteMember(rows: seq<Row>, r: Row)
    ensures r in CompleteRows(rows) <==> r in rows && Complete(r)
  {
    if rows != [] {
      CompleteMember(rows[..|rows| - 1], r);
      assert rows == rows[..|rows| - 1] + [rows[|rows| - 1]];
    }
  }

  lemma {:induction false} FullMember(rows: seq<Row>, r: Row)
    ensures r in FullRows(rows) <==> r in rows && Full(r)
  {
    if rows != [] {
      FullMember(rows[..|rows| - 1], r);
      assert rows == rows[..|rows| - 1] + [rows[|rows| - 1]];
    }
  }

  /** One of the seven required fields is missing. */
  ghost predicate Lacking(r: Row) {
    || r.planId == Absent || r.source == Absent || r.cycle == Absent || r.destination == Absent
    || r.stamp == Absent || r.destinationBatch == Absent || r.portBatch == Absent
  }

  /** A row that the plan does not explain: an unreadable field, another plan, no frame for its
      cycle, a target or batch its frame does not have, or an address the manifest contradicts. */
  ghost predicate Misplaced(p: Plan, r: Row)
    requires p.epoch > 0
  {
    || !r.source.Is? || !r.cycle.Is? || !r.destination.Is? || !r.stamp.Is?
    || r.planId != Is(p.planId)
    || (r.source.value, r.cycle.value % p.epoch) !in p.frames
    || (var frame := p.frames[(r.source.value, r.cycle.value % p.epoch)];
        r.destination.value !in frame.names
        || r.destinationBatch != Is(frame.destinationBatch) || r.portBatch != Is(frame.portBatch))
    || (r.source.value in p.addresses && p.addresses[r.source.value] != r.sourceIp)
    || (r.destination.value in p.addresses && p.addresses[r.destination.value] != r.destinationIp)
  }

  /** The same source, cycle and peer at two timestamps: a restarted source. */
  ghost predicate Restart(a: Row, b: Row) {
    && a.source.Is? && a.cycle.Is? && a.destination.Is? && a.stamp.Is? && b.stamp.Is?
    && a.source == b.source && a.cycle == b.cycle && a.destination == b.destination && a.stamp != b.stamp
  }

  /** An earlier row of a client carries a later cycle: a reversed clock. */
  ghost predicate Reversal(p: Plan, a: Row, b: Row) {
    && a.source.Is? && a.cycle.Is? && a.destination.Is? && a.stamp.Is?
    && b.source.Is? && b.cycle.Is? && b.destination.Is? && b.stamp.Is?
    && a.source.value == b.source.value && a.source.value in p.clients
    && a.stamp.value.at < b.stamp.value.at && a.cycle.value > b.cycle.value
  }

  /** A complete progress row. */
  ghost predicate Told(progress: seq<Row>, r: Row) { r in progress && !Lacking(r) }

  /** A snapshot row without a missing field or metric. */
  ghost predicate Kept(snapshot: seq<Row>, r: Row) {
    r in snapshot && !Lacking(r) && forall i :: 0 <= i < |r.metrics| ==> r.metrics[i] != Absent
  }

  ghost predicate RowsTold(p: Plan, progress: seq<Row>)
    requires p.epoch > 0
  {
    || (exists a :: Told(progress, a) && Misplaced(p, a))
    || (exists a, b :: Told(progress, a) && Told(progress, b) && Restart(a, b))
  }

  ghost predicate RowsReversed(p: Plan, progress: seq<Row>) {
    exists a, b :: Told(progress, a) && Told(progress, b) && Reversal(p, a, b)
  }

  /** Two snapshot rows of one key that differ. */
  ghost predicate Duplicate(a: Row, b: Row) {
    && a.source.Is? && a.cycle.Is? && a.destination.Is? && a.stamp.Is?
    && a.source == b.source && a.cycle == b.cycle && a.destination == b.destination && a.stamp == b.stamp && a != b
  }

  ghost predicate RowsKept(p: Plan, snapshot: seq<Row>)
    requires p.epoch > 0
  {
    || (exists a :: Kept(snapshot, a) && Misplaced(p, a))
    || (exists a, i :: Kept(snapshot, a) && 0 <= i < |a.metrics| && a.metrics[i].Malformed?)
    || (exists a, b :: Kept(snapshot, a) && Kept(snapshot, b) && (Restart(a, b) || Duplicate(a, b)))
  }

  /** A row that lacks a field and has no readable time, with no row before it that lacks a field
      inside the window (there the search stops). */
  ghost predicate RowsTimeless(progress: seq<Row>, start: int, end: int) {
    exists i :: 0 <= i < |progress| && Lacking(progress[i]) && !progress[i].stamp.Is?
                && forall j :: 0 <= j < i && Lacking(progress[j]) && progress[j].stamp.Is? ==>
                                 !(start <= progress[j].stamp.value.at < end)
  }

  /** Everything that makes the evidence contradictory. */
  ghost predicate Contradictory(p: Plan, progress: seq<Row>, snapshot: seq<Row>, start: int, end: int)
    requires p.epoch > 0
  {
    RowsTold(p, progress) || RowsReversed(p, progress) || RowsKept(p, snapshot) || RowsTimeless(progress, start, end)
  }

  lemma MisplacedIff(p: Plan, r: Row)
    requires p.epoch > 0
    ensures Misplaced(p, r) <==> !Identified(p, r)
  {
    if r.cycle.Is? {
      WrapIsModulo(r.cycle.value, p.epoch);
    }
  }

  lemma ToldIff(progress: seq<Row>, r: Row)
    ensures Told(progress, r) <==> r in CompleteRows(progress)
  {
    CompleteMember(progress, r);
  }

  lemma KeptIff(snapshot: seq<Row>, r: Row)
    ensures Kept(snapshot, r) <==> r in FullRows(snapshot)
  {
    FullMember(snapshot, r);
  }

  lemma MisplacedSome(p: Plan, rows: seq<Row>)
    requires p.epoch > 0
    ensures AllIdentified(p, rows) <==> forall r :: r in rows ==> !Misplaced(p, r)
  {
    forall r
      ensures Misplaced(p, r) <==> !Identified(p, r)
    {
      MisplacedIff(p, r);
    }
    assert forall i :: 0 <= i < |rows| ==> rows[i] in rows;
  }

  /** Two timestamps of one task, as rows instead of keys. */
  lemma RestartIff(rows: seq<Row>)
    requires forall r :: r in rows ==> Readable(r)
    ensures Functional(KeySet(rows)) <==> forall a, b :: a in rows && b in rows ==> !Restart(a, b)
  {
    if Functional(KeySet(rows)) {
      forall a, b | a in rows && b in rows
        ensures !Restart(a, b)
      {
        assert KeyOf(a) in KeySet(rows) && KeyOf(b) in KeySet(rows);
      }
    }
    if forall a, b :: a in rows && b in rows ==> !Restart(a, b) {
      forall k, l | k in KeySet(rows) && l in KeySet(rows) && SameTask(k, l)
        ensures k == l
      {
        var a :| a in rows && Readable(a) && KeyOf(a) == k;
        var b :| b in rows && Readable(b) && KeyOf(b) == l;
        assert !Restart(a, b);
      }
    }
  }

  lemma ReversalIff(p: Plan, rows: seq<Row>)
    requires forall r :: r in rows ==> Readable(r)
    ensures (forall i :: 0 <= i < |p.clients| ==> !Conflict(KeySet(rows), p.clients[i])) <==>
            forall a, b :: a in rows && b in rows ==> !Reversal(p, a, b)
  {
    if a, b :| a in rows && b in rows && Reversal(p, a, b) {
      var i :| 0 <= i < |p.clients| && p.clients[i] == a.source.value;
      assert KeyOf(a) in KeySet(rows) && KeyOf(b) in KeySet(rows);
      assert Crossed(PointOf(KeyOf(a)), PointOf(KeyOf(b)));
      assert Conflict(KeySet(rows), p.clients[i]);
    }
    if i :| 0 <= i < |p.clients| && Conflict(KeySet(rows), p.clients[i]) {
      ConflictRows(p, rows, i);
    }
  }

  lemma ConflictRows(p: Plan, rows: seq<Row>, i: nat)
    requires i < |p.clients| && Conflict(KeySet(rows), p.clients[i])
    ensures exists a, b :: a in rows && b in rows && Reversal(p, a, b)
  {
    var keys, s := KeySet(rows), p.clients[i];
    var k, l :| k in keys && l in keys && k.source == s && l.source == s && Crossed(PointOf(k), PointOf(l));
    var a :| a in rows && Readable(a) && KeyOf(a) == k;
    var b :| b in rows && Readable(b) && KeyOf(b) == l;
    assert Reversal(p, a, b);
  }

  lemma DuplicateIff(rows: seq<Row>)
    requires forall r :: r in rows ==> Readable(r)
    ensures OneRowPerKey(rows) <==> forall a, b :: a in rows && b in rows ==> !Duplicate(a, b)
  {
    if OneRowPerKey(rows) {
      forall a, b | a in rows && b in rows
        ensures !Duplicate(a, b)
      {
        var i :| 0 <= i < |rows| && rows[i] == a;
        var j :| 0 <= j < |rows| && rows[j] == b;
      }
    } else {
      var i, j :| 0 <= i < j < |rows| && Readable(rows[i]) && Readable(rows[j]) && KeyOf(rows[i]) == KeyOf(rows[j])
                  && rows[i] != rows[j];
      assert Duplicate(rows[i], rows[j]);
    }
  }

  lemma TimelessIff(progress: seq<Row>, start: int, end: int)
    ensures RowsTimeless(progress, start, end) <==> Unreadable(progress, start, end)
  {
  }

  lemma ProgressContradicts(p: Plan, progress: seq<Row>, start: int, end: int)
    requires p.epoch > 0
    ensures ProgressSound(p, progress, start, end) <==>
            !RowsTold(p, progress) && !RowsReversed(p, progress) && !RowsTimeless(progress, start, end)
  {
    TimelessIff(progress, start, end);
    var rows := CompleteRows(progress);
    forall r
      ensures Told(progress, r) <==> r in rows
    {
      ToldIff(progress, r);
    }
    MisplacedSome(p, rows);
    if AllIdentified(p, rows) {
      assert forall r :: r in rows ==> Readable(r);
      RestartIff(rows);
      ReversalIff(p, rows);
    }
  }

  lemma SnapshotContradicts(p: Plan, snapshot: seq<Row>)
    requires p.epoch > 0
    ensures SnapshotSound(p, FullRows(snapshot)) <==> !RowsKept(p, snapshot)
  {
    var rows := FullRows(snapshot);
    forall r
      ensures Kept(snapshot, r) <==> r in rows
    {
      KeptIff(snapshot, r);
    }
    MisplacedSome(p, rows);
    if AllIdentified(p, rows) {
      assert forall r :: r in rows ==> Readable(r);
      RestartIff(rows);
      DuplicateIff(rows);
      FiniteIff(snapshot);
    }
  }

  lemma FiniteIff(snapshot: seq<Row>)
    ensures (forall r :: r in FullRows(snapshot) ==> Finite(r)) <==>
            !exists a, i :: Kept(snapshot, a) && 0 <= i < |a.metrics| && a.metrics[i].Malformed?
  {
    forall r
      ensures Kept(snapshot, r) <==> r in FullRows(snapshot)
    {
      KeptIff(snapshot, r);
    }
    forall r | r in FullRows(snapshot)
      ensures Finite(r) <==> !exists i :: 0 <= i < |r.metrics| && r.metrics[i].Malformed?
    {
      assert Kept(snapshot, r);
    }
  }

  /** The evidence is sound exactly when no row and no pair of rows contradicts it. */
  lemma SoundIff(p: Plan, progress: seq<Row>, snapshot: seq<Row>, start: int, end: int)
    requires p.epoch > 0
    ensures Sound(p, progress, snapshot, start, end) <==> !Contradictory(p, progress, snapshot, start, end)
  {
    ProgressContradicts(p, progress, start, end);
    SnapshotContradicts(p, snapshot);
  }

  /** Nothing is missing: no progress row of the window lacks a field, and no snapshot row lacks
      a field or a metric. */
  lemma WholeIff(progress: seq<Row>, snapshot: seq<Row>, start: int, end: int)
    ensures Whole(progress, snapshot, start, end) <==>
            && (forall r :: r in progress && Lacking(r) && r.stamp.Is? ==> !(start <= r.stamp.value.at < end))
            && (forall r :: r in snapshot ==> Kept(snapshot, r))
  {
    assert forall i :: 0 <= i < |progress| ==> progress[i] in progress;
    assert forall i :: 0 <= i < |snapshot| ==> snapshot[i] in snapshot;
  }

  method FilterComplete(rows: seq<Row>) returns (complete: seq<Row>)
    ensures complete == CompleteRows(rows)
  {
    complete := [];
    for n := 0 to |rows|
      invariant complete == CompleteRows(rows[..n])
    {
      assert rows[..n + 1][..n] == rows[..n];
      if Complete(rows[n]) {
        complete := complete + [rows[n]];
      }
    }
    assert rows[..|rows|] == rows;
  }

  /** `audit_ingestion`: `Invalid` exactly on contradictory evidence, `Ready` exactly when
      the evidence is whole and the snapshot matches the closed frames. */
  method Audit(p: Plan, progress: seq<Row>, snapshot: seq<Row>, start: int, end: int) returns (v: Verdict)
    requires p.epoch > 0
    ensures v.Invalid? <==> Contradictory(p, progress, snapshot, start, end)
    ensures v.Invalid? <==> !Sound(p, progress, snapshot, start, end)
    ensures v.Ready? <==> IsReady(p, progress, snapshot, start, end)
    ensures v.Ready? ==> Records(FullRows(snapshot), v.records)
  {
    SoundIff(p, progress, snapshot, start, end);
    var complete := FilterComplete(progress);
    var unreadable, hole := FindHole(progress, start, end);
    if unreadable {
      return Invalid;
    }
    var ok, keys := ProgressFrames(p, complete);
    if !ok {
      return Invalid;
    }
    var sources := AuditSources(p, keys, start, end);
    if sources.SomeCrossing? {
      return Invalid;
    }
    var legible, missing, actual := CollectSnapshot(snapshot);
    if !legible {
      return Invalid;
    }
    var full := FilterFull(snapshot);
    var identified, _ := ProgressFrames(p, full);
    if !identified {
      return Invalid;
    }
    if hole || missing || sources.SomeOpen? || actual.Keys != sources.expected {
      return Pending;
    }
    v := Ready(actual);
  }

  /** The rows kept in `actual`, which are the complete snapshot rows. */
  method FilterFull(rows: seq<Row>) returns (full: seq<Row>)
    ensures full == FullRows(rows)
  {
    full := [];
    for n := 0 to |rows|
      invariant full == FullRows(rows[..n])
    {
      assert rows[..n + 1][..n] == rows[..n];
      if Full(rows[n]) {
        full := full + [rows[n]];
      }
    }
    assert rows[..|rows|] == rows;
  }
}
