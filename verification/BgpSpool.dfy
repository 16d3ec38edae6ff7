/** The bounded, segmented spool of the BGP collector
    (netopsbench/platform/observability/bgp_collector.py:457-563). Files are their lines; a
    line is its timestamp and its size in bytes. */
module BgpSpool {
  import opened Options
  import opened Counting

  datatype SegmentId = SegmentId(stamp: nat, sequence: nat)

  datatype Line = Data(stamp: Option<nat>, text: string, bytes: nat) | Marker(id: SegmentId, bytes: nat)

  datatype Segment = Segment(id: SegmentId, lines: seq<Line>)

  datatype Spool = Spool(active: seq<Line>, sealed: seq<Segment>)

  /** Limits in bytes (zero or less disables one) and the size of a segment's marker line. */
  datatype Limits = Limits(maxBytes: int, segmentBytes: int, markerBytes: SegmentId -> nat)

  datatype WriteResult = Written | NothingToSeal | LimitReached | SealLimitReached | NoTimestamp

  // ---------------------------------------------------------------- sizes and stamps

  function Size(lines: seq<Line>): nat {
    if lines == [] then 0 else Size(lines[..|lines| - 1]) + lines[|lines| - 1].bytes
  }

  function SealedSize(segments: seq<Segment>): nat {
    if segments == [] then 0 else SealedSize(segments[..|segments| - 1]) + Size(segments[|segments| - 1].lines)
  }

  /** `_spool_size`. */
  function Total(s: Spool): nat { Size(s.active) + SealedSize(s.sealed) }

  function StampOf(x: Line): Option<nat> { if x.Data? then x.stamp else Some(x.id.stamp) }

  function MaxStamp(lines: seq<Line>): Option<nat> {
    if lines == [] then None else
      var before, last := MaxStamp(lines[..|lines| - 1]), StampOf(lines[|lines| - 1]);
      if last.None? then before
      else if before.Some? && before.value >= last.value then before else last
  }

  predicate Exists(segments: seq<Segment>, id: SegmentId) {
    exists i :: 0 <= i < |segments| && segments[i].id == id
  }

  lemma SizeAppend(a: seq<Line>, b: seq<Line>)
    ensures Size(a + b) == Size(a) + Size(b)
  {
    if b == [] {
      assert a + b == a;
    } else {
      SizeAppend(a, b[..|b| - 1]);
      assert (a + b)[..|a + b| - 1] == a + b[..|b| - 1];
    }
  }

  lemma SizeOne(x: Line)
    ensures Size([x]) == x.bytes
  {
  }

  /** The maximum is one of the timestamps and none is later; there is none without timestamps. */
  lemma {:induction false} MaxStampIs(lines: seq<Line>)
    ensures MaxStamp(lines).None? <==> forall x :: x in lines ==> x.Data? && x.stamp.None?
    ensures MaxStamp(lines).Some? ==>
              && (exists x :: x in lines && StampOf(x) == MaxStamp(lines))
              && forall x :: x in lines && StampOf(x).Some? ==> StampOf(x).value <= MaxStamp(lines).value
  {
    if lines != [] {
      var front, last := lines[..|lines| - 1], lines[|lines| - 1];
      MaxStampIs(front);
      assert lines == front + [last];
      assert last in lines;
    }
  }

  lemma ExistsAppend(segments: seq<Segment>, x: Segment)
    ensures forall id :: Exists(segments + [x], id) <==> Exists(segments, id) || id == x.id
  {
    var more := segments + [x];
    assert more[|segments|] == x;
    forall id | Exists(segments, id)
      ensures Exists(more, id)
    {
      var i :| 0 <= i < |segments| && segments[i].id == id;
      assert more[i].id == id;
    }
  }

  // ---------------------------------------------------------------- sealing

  /** The first sequence number whose file does not exist. */
  ghost predicate IsFreeId(segments: seq<Segment>, id: SegmentId) {
    !Exists(segments, id) && forall k: nat :: k < id.sequence ==> Exists(segments, SegmentId(id.stamp, k))
  }

  lemma {:induction false} SomeFree(segments: seq<Segment>, stamp: nat, from: nat)
    requires forall k: nat :: k < from ==> Exists(segments, SegmentId(stamp, k))
    ensures from <= |segments|
  {
    var taken := set k: nat | k < from :: SegmentId(stamp, k);
    FirstIds(stamp, from);
    IdCount(segments);
    forall id | id in taken
      ensures id in set i | 0 <= i < |segments| :: segments[i].id
    {
      assert Exists(segments, id);
    }
    SubsetCard(taken, set i | 0 <= i < |segments| :: segments[i].id);
  }

  lemma {:induction false} FirstIds(stamp: nat, n: nat)
    ensures |set k: nat | k < n :: SegmentId(stamp, k)| == n
  {
    if n > 0 {
      FirstIds(stamp, n - 1);
      assert (set k: nat | k < n :: SegmentId(stamp, k)) ==
             (set k: nat | k < n - 1 :: SegmentId(stamp, k)) + {SegmentId(stamp, n - 1)};
    }
  }

  lemma {:induction false} IdCount(segments: seq<Segment>)
    ensures |set i | 0 <= i < |segments| :: segments[i].id| <= |segments|
  {
    if segments != [] {
      var front, last := segments[..|segments| - 1], segments[|segments| - 1];
      IdCount(front);
      assert (set i | 0 <= i < |segments| :: segments[i].id) == (set i | 0 <= i < |front| :: front[i].id) + {last.id};
    }
  }

  /** The `while True` search of `_rotate_active_segment`. */
  method FreeId(segments: seq<Segment>, stamp: nat) returns (id: SegmentId)
    ensures id.stamp == stamp && IsFreeId(segments, id)
  {
    var sequence := 0;
    while Exists(segments, SegmentId(stamp, sequence))
      invariant forall k: nat :: k < sequence ==> Exists(segments, SegmentId(stamp, k))
      decreases |segments| - sequence
    {
      SomeFree(segments, stamp, sequence + 1);
      sequence := sequence + 1;
    }
    id := SegmentId(stamp, sequence);
  }

  lemma FreeIdUnique(segments: seq<Segment>, stamp: nat, id: SegmentId)
    requires id.stamp == stamp && IsFreeId(segments, id)
    ensures forall other: SegmentId {:trigger IsFreeId(segments, other)} :: other.stamp == stamp && IsFreeId(segments, other) ==> other == id
  {
    forall other: SegmentId {:trigger IsFreeId(segments, other)} | other.stamp == stamp && IsFreeId(segments, other)
      ensures other == id
    {
      assert other == SegmentId(stamp, other.sequence) && id == SegmentId(stamp, id.sequence);
    }
  }

  function SealedSegment(s: Spool, id: SegmentId, limits: Limits): Segment {
    Segment(id, s.active + [Marker(id, limits.markerBytes(id))])
  }

  /** The spool after the active file was sealed as `id`. */
  function SealedAs(s: Spool, id: SegmentId, limits: Limits): Spool {
    Spool([], s.sealed + [SealedSegment(s, id, limits)])
  }

  predicate Exceeds(size: int, limits: Limits) { limits.maxBytes > 0 && size > limits.maxBytes }

  /** When sealing as `id` is what `_rotate_active_segment` does. */
  ghost predicate SealAllowed(s: Spool, id: SegmentId, limits: Limits) {
    && Size(s.active) > 0 && MaxStamp(s.active) == Some(id.stamp) && IsFreeId(s.sealed, id)
    && !Exceeds(Total(s) + limits.markerBytes(id), limits)
  }

  /** The marker of the segment to be sealed does not fit. */
  ghost predicate SealExceeds(s: Spool, limits: Limits) {
    exists id: SegmentId :: MaxStamp(s.active) == Some(id.stamp) && IsFreeId(s.sealed, id)
                 && Exceeds(Total(s) + limits.markerBytes(id), limits)
  }

  predicate MustSeal(s: Spool, lines: seq<Line>, limits: Limits) {
    limits.segmentBytes > 0 && Size(s.active) > 0 && Size(s.active) + Size(lines) > limits.segmentBytes
  }

  /** An accepted write, and the identity of the segment sealed on the way, if any. */
  ghost predicate WriteAllowed(s: Spool, lines: seq<Line>, seal: Option<SegmentId>, limits: Limits) {
    && !Exceeds(Total(s) + Size(lines), limits)
    && (MustSeal(s, lines, limits) <==> seal.Some?)
    && (seal.Some? ==> SealAllowed(s, seal.value, limits))
  }

  function WrittenTo(s: Spool, lines: seq<Line>, seal: Option<SegmentId>, limits: Limits): Spool {
    var t := if seal.Some? then SealedAs(s, seal.value, limits) else s;
    t.(active := t.active + lines)
  }

  function Keep(segments: seq<Segment>, ingested: set<SegmentId>): seq<Segment> {
    if segments == [] then [] else
      var last := segments[|segments| - 1];
      var front := Keep(segments[..|segments| - 1], ingested);
      if last.id in ingested then front else front + [last]
  }

  /** The spool directory, updated in place. */
  class SpoolFiles {
    var active: seq<Line>
    var sealed: seq<Segment>
    const limits: Limits

    ghost function View(): Spool
      reads this
    {
      Spool(active, sealed)
    }

    constructor (limits: Limits)
      ensures View() == Spool([], []) && this.limits == limits
    {
      active, sealed := [], [];
      this.limits := limits;
    }

    /** `_rotate_active_segment`. */
    method Rotate() returns (r: WriteResult, ghost id: SegmentId)
      modifies this
      ensures r.Written? ==> SealAllowed(old(View()), id, limits) && View() == SealedAs(old(View()), id, limits)
      ensures !r.Written? ==> View() == old(View())
      ensures r.NothingToSeal? <==> Size(old(active)) == 0
      ensures r.NoTimestamp? <==> Size(old(active)) > 0 && MaxStamp(old(active)).None?
      ensures r.SealLimitReached? <==> Size(old(active)) > 0 && SealExceeds(old(View()), limits)
      ensures !r.LimitReached?
    {
      id := SegmentId(0, 0);
      if Size(active) == 0 {
        return NothingToSeal, id;
      }
      var stamp := FileMaxTimestamp(active);
      if stamp.None? {
        return NoTimestamp, id;
      }
      var free := FreeId(sealed, stamp.value);
      id := free;
      FreeIdUnique(sealed, stamp.value, free);
      var marker := Marker(free, limits.markerBytes(free));
      if limits.maxBytes > 0 && Size(active) + SealedSize(sealed) + marker.bytes > limits.maxBytes {
        return SealLimitReached, id;
      }
      active := active + [marker];
      sealed := sealed + [Segment(free, active)];
      active := [];
      r := Written;
    }

    /** `_write_segmented_lines`: all lines or none. */
    method Write(lines: seq<Line>) returns (r: WriteResult, ghost seal: Option<SegmentId>)
      modifies this
      ensures r.Written? ==> WriteAllowed(old(View()), lines, seal, limits)
                             && View() == WrittenTo(old(View()), lines, seal, limits)
      ensures !r.Written? ==> View() == old(View())
      ensures r.LimitReached? <==> Exceeds(Total(old(View())) + Size(lines), limits)
      ensures r.NoTimestamp? <==>
              !Exceeds(Total(old(View())) + Size(lines), limits) && MustSeal(old(View()), lines, limits)
              && MaxStamp(old(active)).None?
      ensures r.SealLimitReached? <==>
              !Exceeds(Total(old(View())) + Size(lines), limits) && MustSeal(old(View()), lines, limits)
              && SealExceeds(old(View()), limits)
      ensures !r.NothingToSeal?
    {
      seal := None;
      if limits.maxBytes > 0 && Size(active) + SealedSize(sealed) + Size(lines) > limits.maxBytes {
        return LimitReached, seal;
      }
      if limits.segmentBytes > 0 && Size(active) > 0 && Size(active) + Size(lines) > limits.segmentBytes {
        ghost var id;
        r, id := Rotate();
        if !r.Written? {
          return;
        }
        seal := Some(id);
      }
      active := active + lines;
      r := Written;
    }

    /** `_delete_ingested_segments`. */
    method DeleteIngested(ingested: set<SegmentId>) returns (removed: seq<SegmentId>)
      modifies this`sealed
      ensures sealed == Keep(old(sealed), ingested)
      ensures forall id :: id in removed <==> Exists(old(sealed), id) && id in ingested
    {
      removed := [];
      var kept: seq<Segment>, all := [], sealed;
      for i := 0 to |all|
        invariant kept == Keep(all[..i], ingested) && sealed == all
        invariant forall id :: id in removed <==> Exists(all[..i], id) && id in ingested
      {
        assert all[..i + 1][..i] == all[..i];
        assert all[..i + 1] == all[..i] + [all[i]];
        ExistsAppend(all[..i], all[i]);
        if all[i].id in ingested {
          removed := removed + [all[i].id];
        } else {
          kept := kept + [all[i]];
        }
      }
      assert all[..|all|] == all;
      sealed := kept;
    }
  }

  /** `_file_max_timestamp`. */
  method FileMaxTimestamp(lines: seq<Line>) returns (latest: Option<nat>)
    ensures latest == MaxStamp(lines)
  {
    latest := None;
    for i := 0 to |lines|
      invariant latest == MaxStamp(lines[..i])
    {
      assert lines[..i + 1][..i] == lines[..i];
      var stamp := StampOf(lines[i]);
      if stamp.Some? && (latest.None? || stamp.value > latest.value) {
        latest := stamp;
      }
    }
    assert lines[..|lines|] == lines;
  }

  // ---------------------------------------------------------------- every run

  /** The data lines of a file, as a multiset. */
  ghost function Payload(lines: seq<Line>): multiset<Line> {
    if lines == [] then multiset{} else
      var last := lines[|lines| - 1];
      Payload(lines[..|lines| - 1]) + if last.Data? then multiset{last} else multiset{}
  }

  ghost function SealedPayload(segments: seq<Segment>): multiset<Line> {
    if segments == [] then multiset{} else
      SealedPayload(segments[..|segments| - 1]) + Payload(segments[|segments| - 1].lines)
  }

  /** The data lines of the segments a deletion removes. */
  ghost function Dropped(segments: seq<Segment>, ids: set<SegmentId>): multiset<Line> {
    if segments == [] then multiset{} else
      var last := segments[|segments| - 1];
      Dropped(segments[..|segments| - 1], ids) + if last.id in ids then Payload(last.lines) else multiset{}
  }

  /** The spool with its past: accepted and deleted lines, identities ever used, identities
      whose marker the database has confirmed, and the lines it holds. */
  datatype World = World(spool: Spool, accepted: multiset<Line>, retired: multiset<Line>,
                         ever: set<SegmentId>, confirmed: set<SegmentId>, ingested: set<Line>)

  const EMPTY_WORLD := World(Spool([], []), multiset{}, multiset{}, {}, {}, {})

  datatype Step =
    | WriteStep(lines: seq<Line>, seal: Option<SegmentId>)
    | IngestStep(segment: nat)
    | DeleteStep(ids: set<SegmentId>)

  ghost predicate AllData(lines: seq<Line>) {
    forall i :: 0 <= i < |lines| ==> lines[i].Data?
  }

  ghost predicate Enabled(w: World, step: Step, limits: Limits) {
    match step
    case WriteStep(lines, seal) => AllData(lines) && WriteAllowed(w.spool, lines, seal, limits)
    case IngestStep(i) => i < |w.spool.sealed|
    case DeleteStep(ids) => ids <= w.confirmed
  }

  ghost function Next(w: World, step: Step, limits: Limits): World
    requires Enabled(w, step, limits)
  {
    match step
    case WriteStep(lines, seal) =>
      w.(spool := WrittenTo(w.spool, lines, seal, limits), accepted := w.accepted + Payload(lines),
         ever := if seal.Some? then w.ever + {seal.value} else w.ever)
    case IngestStep(i) =>
      var seg := w.spool.sealed[i];
      w.(confirmed := w.confirmed + {seg.id}, ingested := w.ingested + set x | x in seg.lines && x.Data?)
    case DeleteStep(ids) =>
      w.(spool := w.spool.(sealed := Keep(w.spool.sealed, ids)),
         retired := w.retired + Dropped(w.spool.sealed, ids))
  }

  /** The data lines a spool holds. */
  ghost function Stock(s: Spool): multiset<Line> { Payload(s.active) + SealedPayload(s.sealed) }

  /** Each accepted line is in the active file, in one sealed segment, or in a deleted one. */
  ghost predicate Conserved(w: World) {
    w.accepted == Stock(w.spool) + w.retired
  }

  ghost predicate Named(w: World) {
    && (forall i, j :: 0 <= i < j < |w.spool.sealed| ==> w.spool.sealed[i].id != w.spool.sealed[j].id)
    && (forall i :: 0 <= i < |w.spool.sealed| ==> w.spool.sealed[i].id in w.ever)
    && w.confirmed <= w.ever
    && AllData(w.spool.active)
  }

  lemma {:induction false} PayloadAppend(a: seq<Line>, b: seq<Line>)
    ensures Payload(a + b) == Payload(a) + Payload(b)
  {
    if b == [] {
      assert a + b == a;
    } else {
      PayloadAppend(a, b[..|b| - 1]);
      assert (a + b)[..|a + b| - 1] == a + b[..|b| - 1];
    }
  }

  lemma SealedAppend(segments: seq<Segment>, x: Segment)
    ensures SealedPayload(segments + [x]) == SealedPayload(segments) + Payload(x.lines)
    ensures SealedSize(segments + [x]) == SealedSize(segments) + Size(x.lines)
  {
    assert (segments + [x])[..|segments|] == segments;
  }

  lemma {:induction false} KeepPart(segments: seq<Segment>, ids: set<SegmentId>)
    ensures SealedPayload(segments) == SealedPayload(Keep(segments, ids)) + Dropped(segments, ids)
  {
    if segments != [] {
      var front, last := segments[..|segments| - 1], segments[|segments| - 1];
      KeepPart(front, ids);
      if last.id !in ids {
        SealedAppend(Keep(front, ids), last);
        SumSwap(SealedPayload(Keep(front, ids)), Dropped(front, ids), Payload(last.lines));
      }
    }
  }

  lemma SumSwap(a: multiset<Line>, b: multiset<Line>, c: multiset<Line>)
    ensures a + b + c == a + c + b
  {
  }

  lemma {:induction false} KeepSize(segments: seq<Segment>, ids: set<SegmentId>)
    ensures SealedSize(Keep(segments, ids)) <= SealedSize(segments)
  {
    if segments != [] {
      var front, last := segments[..|segments| - 1], segments[|segments| - 1];
      KeepSize(front, ids);
      SealedAppend(Keep(front, ids), last);
    }
  }

  lemma {:induction false} KeepMember(segments: seq<Segment>, ids: set<SegmentId>, x: Segment)
    ensures x in Keep(segments, ids) <==> x in segments && x.id !in ids
  {
    if segments != [] {
      var front, last := segments[..|segments| - 1], segments[|segments| - 1];
      KeepMember(front, ids, x);
      assert segments == front + [last];
    }
  }

  lemma {:induction false} DroppedMember(segments: seq<Segment>, ids: set<SegmentId>, x: Line)
    requires x in Dropped(segments, ids)
    ensures exists i :: 0 <= i < |segments| && segments[i].id in ids && x in segments[i].lines && x.Data?
  {
    var front, last := segments[..|segments| - 1], segments[|segments| - 1];
    if last.id in ids && x in Payload(last.lines) {
      PayloadMember(last.lines, x);
      assert segments[|segments| - 1] == last;
    } else {
      DroppedMember(front, ids, x);
      var i :| 0 <= i < |front| && front[i].id in ids && x in front[i].lines && x.Data?;
      assert segments[i] == front[i];
    }
  }

  lemma {:induction false} KeepDistinct(segments: seq<Segment>, ids: set<SegmentId>)
    requires forall i, j :: 0 <= i < j < |segments| ==> segments[i].id != segments[j].id
    ensures var kept := Keep(segments, ids); forall i, j :: 0 <= i < j < |kept| ==> kept[i].id != kept[j].id
  {
    if segments != [] {
      var front, last := segments[..|segments| - 1], segments[|segments| - 1];
      KeepDistinct(front, ids);
      var kept := Keep(front, ids);
      forall i | 0 <= i < |kept|
        ensures kept[i].id != last.id
      {
        KeepMember(front, ids, kept[i]);
        var j :| 0 <= j < |front| && front[j] == kept[i];
      }
    }
  }

  lemma SealConserves(s: Spool, id: SegmentId, limits: Limits)
    ensures SealedPayload(SealedAs(s, id, limits).sealed) == SealedPayload(s.sealed) + Payload(s.active)
    ensures Total(SealedAs(s, id, limits)) == Total(s) + limits.markerBytes(id)
  {
    var marker := Marker(id, limits.markerBytes(id));
    var lines := s.active + [marker];
    assert lines[..|s.active|] == s.active;
    SealedAppend(s.sealed, SealedSegment(s, id, limits));
  }

  lemma WriteConserves(s: Spool, lines: seq<Line>, seal: Option<SegmentId>, limits: Limits)
    ensures Stock(WrittenTo(s, lines, seal, limits)) == Stock(s) + Payload(lines)
  {
    if seal.Some? {
      SealConserves(s, seal.value, limits);
      assert [] + lines == lines;
    } else {
      PayloadAppend(s.active, lines);
    }
  }

  lemma DeleteConserves(s: Spool, ids: set<SegmentId>)
    ensures Stock(s) == Stock(s.(sealed := Keep(s.sealed, ids))) + Dropped(s.sealed, ids)
  {
    KeepPart(s.sealed, ids);
  }

  lemma SumsAgree(a: multiset<Line>, b: multiset<Line>, c: multiset<Line>, d: multiset<Line>)
    requires a == b + c
    ensures a + d == b + d + c && b + (c + d) == a + d && b + (d + c) == a + d
  {
  }

  /** Nothing is ever lost or duplicated inside the spool, whatever the timestamps. */
  lemma StepConserves(w: World, step: Step, limits: Limits)
    requires Conserved(w) && Enabled(w, step, limits)
    ensures Conserved(Next(w, step, limits))
  {
    match step {
      case WriteStep(lines, seal) =>
        WriteConserves(w.spool, lines, seal, limits);
        SumsAgree(w.accepted, Stock(w.spool), w.retired, Payload(lines));
      case IngestStep(_) =>
      case DeleteStep(ids) =>
        DeleteConserves(w.spool, ids);
        SumsAgree(Stock(w.spool), Stock(w.spool.(sealed := Keep(w.spool.sealed, ids))), Dropped(w.spool.sealed, ids), w.retired);
    }
  }

  /** The size a write can reach: the limit, or the limit plus the marker it appended. */
  lemma WriteSize(s: Spool, lines: seq<Line>, seal: Option<SegmentId>, limits: Limits)
    requires WriteAllowed(s, lines, seal, limits) && limits.maxBytes > 0
    ensures var marker := if seal.Some? then limits.markerBytes(seal.value) else 0;
            Total(WrittenTo(s, lines, seal, limits)) == Total(s) + Size(lines) + marker <= limits.maxBytes + marker
    ensures Exceeds(Total(WrittenTo(s, lines, seal, limits)), limits) <==>
            seal.Some? && Total(s) + Size(lines) + limits.markerBytes(seal.value) > limits.maxBytes
  {
    if seal.Some? {
      SealConserves(s, seal.value, limits);
      assert [] + lines == lines;
    } else {
      SizeAppend(s.active, lines);
    }
  }

  // ---------------------------------------------------------------- runs

  /** A run of enabled steps. */
  ghost predicate Reaches(w: World, steps: seq<Step>, limits: Limits, end: World)
    decreases |steps|
  {
    if steps == [] then end == w else
      Enabled(w, steps[0], limits) && Reaches(Next(w, steps[0], limits), steps[1..], limits, end)
  }

  /** The bytes of the marker a step appends. */
  ghost function MarkerOf(step: Step, limits: Limits): nat {
    if step.WriteStep? && step.seal.Some? then limits.markerBytes(step.seal.value) else 0
  }

  /** The marker of the last write of a run, or `before` when it writes nothing. */
  ghost function LastMarker(steps: seq<Step>, limits: Limits, before: nat): nat {
    if steps == [] then before
    else LastMarker(steps[1..], limits, if steps[0].WriteStep? then MarkerOf(steps[0], limits) else before)
  }

  /** One step: a write ends within the limit plus its own marker, nothing else grows. */
  lemma StepSize(w: World, step: Step, limits: Limits)
    requires limits.maxBytes > 0 && Enabled(w, step, limits)
    ensures step.WriteStep? ==> Total(Next(w, step, limits).spool) <= limits.maxBytes + MarkerOf(step, limits)
    ensures !step.WriteStep? ==> Total(Next(w, step, limits).spool) <= Total(w.spool)
  {
    match step {
      case WriteStep(lines, seal) => WriteSize(w.spool, lines, seal, limits);
      case IngestStep(_) =>
      case DeleteStep(ids) => KeepSize(w.spool.sealed, ids);
    }
  }

  lemma {:induction false} RunSizeFrom(w: World, steps: seq<Step>, limits: Limits, end: World, before: nat)
    requires limits.maxBytes > 0 && Reaches(w, steps, limits, end) && Total(w.spool) <= limits.maxBytes + before
    ensures Total(end.spool) <= limits.maxBytes + LastMarker(steps, limits, before)
    decreases |steps|
  {
    if steps != [] {
      StepSize(w, steps[0], limits);
      RunSizeFrom(Next(w, steps[0], limits), steps[1..], limits, end,
                  if steps[0].WriteStep? then MarkerOf(steps[0], limits) else before);
    }
  }

  /** Over every run, whatever the timestamps, the spool stays within the limit plus the marker
      the last write appended, if it sealed a segment. */
  lemma RunSize(steps: seq<Step>, limits: Limits, end: World)
    requires limits.maxBytes > 0 && Reaches(EMPTY_WORLD, steps, limits, end)
    ensures Total(end.spool) <= limits.maxBytes + LastMarker(steps, limits, 0)
  {
    RunSizeFrom(EMPTY_WORLD, steps, limits, end, 0);
  }

  /** The active file and every sealed segment, less its marker, hold at most `b` bytes. */
  ghost predicate Bounded(s: Spool, b: nat, limits: Limits) {
    && Size(s.active) <= b
    && forall g :: g in s.sealed ==> Size(g.lines) <= b + limits.markerBytes(g.id)
  }

  ghost predicate WritesWithin(steps: seq<Step>, b: nat) {
    forall i :: 0 <= i < |steps| && steps[i].WriteStep? ==> Size(steps[i].lines) <= b
  }

  lemma SealBounded(s: Spool, id: SegmentId, limits: Limits, b: nat)
    requires Bounded(s, b, limits)
    ensures Bounded(SealedAs(s, id, limits), b, limits)
  {
    var marker := Marker(id, limits.markerBytes(id));
    SizeAppend(s.active, [marker]);
    SizeOne(marker);
  }

  lemma StepBounded(w: World, step: Step, limits: Limits, b: nat)
    requires 0 < limits.segmentBytes <= b && Bounded(w.spool, b, limits) && Enabled(w, step, limits)
    requires step.WriteStep? ==> Size(step.lines) <= b
    ensures Bounded(Next(w, step, limits).spool, b, limits)
  {
    match step {
      case WriteStep(lines, seal) =>
        if seal.Some? {
          SealBounded(w.spool, seal.value, limits, b);
          assert [] + lines == lines;
        } else {
          SizeAppend(w.spool.active, lines);
        }
      case IngestStep(_) =>
      case DeleteStep(ids) =>
        forall g | g in Keep(w.spool.sealed, ids)
          ensures g in w.spool.sealed
        {
          KeepMember(w.spool.sealed, ids, g);
        }
    }
  }

  /** Over every run no file holds more than a segment's bytes, or a single write's if that is
      more, besides its marker. */
  lemma {:induction false} RunBounded(w: World, steps: seq<Step>, limits: Limits, end: World, b: nat)
    requires 0 < limits.segmentBytes <= b && Bounded(w.spool, b, limits)
    requires Reaches(w, steps, limits, end) && WritesWithin(steps, b)
    ensures Bounded(end.spool, b, limits)
    decreases |steps|
  {
    if steps != [] {
      StepBounded(w, steps[0], limits, b);
      RunBounded(Next(w, steps[0], limits), steps[1..], limits, end, b);
    }
  }

  /** The bytes a run writes, without markers. */
  ghost function Written(steps: seq<Step>): nat {
    if steps == [] then 0 else
      (if steps[0].WriteStep? then Size(steps[0].lines) else 0) + Written(steps[1..])
  }

  /** Nothing is sealed before it has to be: while all that is written fits one segment, or
      segments are not bounded, it stays in the active file. */
  lemma {:induction false} NeverSealsEarly(w: World, steps: seq<Step>, limits: Limits, end: World)
    requires Reaches(w, steps, limits, end) && w.spool.sealed == []
    requires limits.segmentBytes <= 0 || Size(w.spool.active) + Written(steps) <= limits.segmentBytes
    ensures end.spool.sealed == [] && Size(end.spool.active) == Size(w.spool.active) + Written(steps)
    decreases |steps|
  {
    if steps != [] {
      if steps[0].WriteStep? {
        SizeAppend(w.spool.active, steps[0].lines);
      }
      NeverSealsEarly(Next(w, steps[0], limits), steps[1..], limits, end);
    }
  }

  lemma ReachesMore(w: World, first: Step, rest: seq<Step>, limits: Limits, end: World)
    requires Enabled(w, first, limits) && Reaches(Next(w, first, limits), rest, limits, end)
    ensures Reaches(w, [first] + rest, limits, end)
  {
    assert ([first] + rest)[1..] == rest;
  }

  /** A run can be continued by an enabled step. */
  lemma {:induction false} ReachesOn(w: World, steps: seq<Step>, limits: Limits, mid: World, step: Step)
    requires Reaches(w, steps, limits, mid) && Enabled(mid, step, limits)
    ensures Reaches(w, steps + [step], limits, Next(mid, step, limits))
    decreases |steps|
  {
    var end := Next(mid, step, limits);
    if steps == [] {
      ReachesMore(w, step, [], limits, end);
      assert steps + [step] == [step] + [];
    } else {
      ReachesOn(Next(w, steps[0], limits), steps[1..], limits, mid, step);
      ReachesMore(w, steps[0], steps[1..] + [step], limits, end);
      assert steps + [step] == [steps[0]] + (steps[1..] + [step]);
    }
  }

  /** A write of one line into an empty spool. */
  lemma FirstWrite(x: Line, limits: Limits)
    requires x.Data? && !Exceeds(x.bytes, limits)
    ensures Enabled(EMPTY_WORLD, WriteStep([x], None), limits)
    ensures Next(EMPTY_WORLD, WriteStep([x], None), limits).spool == Spool([x], [])
  {
    assert [x][..0] == [] && [] + [x] == [x];
    assert Size([x]) == x.bytes && Size([]) == 0 && SealedSize([]) == 0;
  }

  /** A second line that overflows the segment seals the first one. */
  ghost predicate Overflows(x: Line, y: Line, limits: Limits) {
    && x.Data? && y.Data? && x.stamp.Some? && x.bytes > 0
    && limits.segmentBytes > 0 && x.bytes + y.bytes > limits.segmentBytes
    && !Exceeds(x.bytes + y.bytes, limits) && !Exceeds(x.bytes + limits.markerBytes(SegmentId(x.stamp.value, 0)), limits)
  }

  lemma OneLine(x: Line)
    ensures Size([x]) == x.bytes && MaxStamp([x]) == StampOf(x) && SealedSize([]) == 0
  {
    assert [x][..0] == [];
    assert Size([]) == 0 && MaxStamp([]) == None;
  }

  lemma SecondAllowed(x: Line, y: Line, limits: Limits)
    requires Overflows(x, y, limits)
    ensures WriteAllowed(Spool([x], []), [y], Some(SegmentId(x.stamp.value, 0)), limits)
  {
    OneLine(x);
    OneLine(y);
    assert IsFreeId([], SegmentId(x.stamp.value, 0));
  }

  lemma SecondWrite(w: World, x: Line, y: Line, limits: Limits)
    requires w.spool == Spool([x], []) && Overflows(x, y, limits)
    ensures var id := SegmentId(x.stamp.value, 0);
            && Enabled(w, WriteStep([y], Some(id)), limits)
            && Next(w, WriteStep([y], Some(id)), limits).spool ==
               Spool([y], [Segment(id, [x, Marker(id, limits.markerBytes(id))])])
  {
    var id := SegmentId(x.stamp.value, 0);
    SecondAllowed(x, y, limits);
    assert [x] + [Marker(id, limits.markerBytes(id))] == [x, Marker(id, limits.markerBytes(id))];
    assert [] + [y] == [y];
  }

  /** The check before a write does not reserve the marker the write may append: two writes
      into an empty spool end above the limit. */
  lemma LimitCanBeExceeded()
    ensures exists steps, limits: Limits, end ::
              limits.maxBytes > 0 && Reaches(EMPTY_WORLD, steps, limits, end) && Total(end.spool) > limits.maxBytes
  {
    var x, y := Data(Some(1), "a", 50), Data(Some(2), "b", 50);
    var limits, id := Limits(100, 60, _ => 10), SegmentId(1, 0);
    var first, second := WriteStep([x], None), WriteStep([y], Some(id));
    FirstWrite(x, limits);
    var w := Next(EMPTY_WORLD, first, limits);
    SecondWrite(w, x, y, limits);
    ReachesOn(EMPTY_WORLD, [], limits, EMPTY_WORLD, first);
    ReachesOn(EMPTY_WORLD, [] + [first], limits, w, second);
    var end := Next(w, second, limits);
    TwoLines(x, y, id, 10);
    assert Total(end.spool) == 110;
  }

  lemma TwoLines(x: Line, y: Line, id: SegmentId, marker: nat)
    ensures Total(Spool([y], [Segment(id, [x, Marker(id, marker)])])) == x.bytes + y.bytes + marker
  {
    var lines := [x, Marker(id, marker)];
    var segments := [Segment(id, lines)];
    assert [y][..0] == [] && lines[..1] == [x] && [x][..0] == [] && segments[..0] == [];
    assert Size([x]) == x.bytes && Size([y]) == y.bytes;
    assert lines[|lines| - 1] == Marker(id, marker) && Size(lines) == Size(lines[..1]) + marker;
    assert SealedSize(segments) == SealedSize([]) + Size(lines);
  }

  // ---------------------------------------------------------------- identities and confirmed deletion

  ghost predicate Carries(lines: multiset<Line>, stamp: nat) {
    exists x :: x in lines && x.Data? && x.stamp == Some(stamp)
  }

  /** A batch whose timestamps no accepted line carries. */
  ghost predicate FreshStamps(w: World, step: Step) {
    step.WriteStep? ==> forall t: nat :: Carries(Payload(step.lines), t) ==> !Carries(w.accepted, t)
  }

  /** Used identities belong to timestamps that have left the active file. */
  ghost predicate StampsLeft(w: World) {
    forall id :: id in w.ever ==> Carries(w.accepted, id.stamp) && !Carries(Payload(w.spool.active), id.stamp)
  }

  /** Confirmed segments still present are wholly ingested, and so is every deleted line. */
  ghost predicate Covered(w: World) {
    && (forall i :: 0 <= i < |w.spool.sealed| && w.spool.sealed[i].id in w.confirmed ==> Held(w, w.spool.sealed[i]))
    && NothingLost(w)
  }

  ghost predicate NothingLost(w: World) {
    forall x :: x in w.retired ==> x in w.ingested
  }

  ghost predicate Safe(w: World) { StampsLeft(w) && Covered(w) }

  ghost predicate Held(w: World, seg: Segment) {
    forall x :: x in seg.lines && x.Data? ==> x in w.ingested
  }

  lemma {:induction false} PayloadMember(lines: seq<Line>, x: Line)
    ensures x in Payload(lines) <==> x in lines && x.Data?
  {
    if lines != [] {
      PayloadMember(lines[..|lines| - 1], x);
      assert lines == lines[..|lines| - 1] + [lines[|lines| - 1]];
    }
  }

  lemma {:induction false} MaxStampCarried(lines: seq<Line>)
    requires AllData(lines) && MaxStamp(lines).Some?
    ensures Carries(Payload(lines), MaxStamp(lines).value)
  {
    var front, last := lines[..|lines| - 1], lines[|lines| - 1];
    if MaxStamp(lines) == StampOf(last) {
      PayloadMember(lines, last);
      assert last in Payload(lines);
    } else {
      MaxStampCarried(front);
      var x :| x in Payload(front) && x.Data? && x.stamp == Some(MaxStamp(front).value);
      assert x in Payload(lines);
    }
  }

  lemma CarriesSum(a: multiset<Line>, b: multiset<Line>, t: nat)
    ensures Carries(a + b, t) <==> Carries(a, t) || Carries(b, t)
  {
    if Carries(a, t) {
      var x :| x in a && x.Data? && x.stamp == Some(t);
      assert x in a + b;
    }
    if Carries(b, t) {
      var x :| x in b && x.Data? && x.stamp == Some(t);
      assert x in a + b;
    }
  }

  /** With fresh timestamps a sealed segment gets an identity never used before. */
  lemma SealIsNew(w: World, id: SegmentId, limits: Limits)
    requires Named(w) && Safe(w) && SealAllowed(w.spool, id, limits)
    ensures id !in w.ever
  {
    MaxStampCarried(w.spool.active);
  }

  ghost predicate Good(w: World) { Conserved(w) && Named(w) && Safe(w) }

  lemma ActiveAccepted(w: World, t: nat)
    requires Conserved(w) && Carries(Payload(w.spool.active), t)
    ensures Carries(w.accepted, t)
  {
    CarriesSum(Payload(w.spool.active), SealedPayload(w.spool.sealed), t);
    CarriesSum(Payload(w.spool.active) + SealedPayload(w.spool.sealed), w.retired, t);
  }

  lemma WriteKeepsStamps(w: World, lines: seq<Line>, seal: Option<SegmentId>, limits: Limits, id: SegmentId)
    requires Good(w) && Enabled(w, WriteStep(lines, seal), limits) && FreshStamps(w, WriteStep(lines, seal))
    requires id in w.ever || seal == Some(id)
    ensures var w' := Next(w, WriteStep(lines, seal), limits);
            Carries(w'.accepted, id.stamp) && !Carries(Payload(w'.spool.active), id.stamp)
  {
    if id !in w.ever {
      MaxStampCarried(w.spool.active);
      ActiveAccepted(w, id.stamp);
    }
    CarriesSum(w.accepted, Payload(lines), id.stamp);
    if seal.Some? {
      assert [] + lines == lines;
    } else {
      PayloadAppend(w.spool.active, lines);
      CarriesSum(Payload(w.spool.active), Payload(lines), id.stamp);
    }
  }

  lemma WriteKeepsSafe(w: World, lines: seq<Line>, seal: Option<SegmentId>, limits: Limits)
    requires Good(w) && Enabled(w, WriteStep(lines, seal), limits) && FreshStamps(w, WriteStep(lines, seal))
    ensures Safe(Next(w, WriteStep(lines, seal), limits))
  {
    var w' := Next(w, WriteStep(lines, seal), limits);
    forall id | id in w'.ever
      ensures Carries(w'.accepted, id.stamp) && !Carries(Payload(w'.spool.active), id.stamp)
    {
      WriteKeepsStamps(w, lines, seal, limits, id);
    }
    if seal.Some? {
      SealIsNew(w, seal.value, limits);
    }
    StepKeepsCovered(w, WriteStep(lines, seal), limits);
  }

  /** Every step whose batch carries new timestamps keeps the spool good. */
  lemma StepKeepsGood(w: World, step: Step, limits: Limits)
    requires Good(w) && Enabled(w, step, limits) && FreshStamps(w, step)
    ensures Good(Next(w, step, limits))
  {
    StepConserves(w, step, limits);
    StepKeepsNamed(w, step, limits);
    if step.WriteStep? {
      WriteKeepsSafe(w, step.lines, step.seal, limits);
    } else {
      StepKeepsCovered(w, step, limits);
    }
  }

  /** Every batch of the run carries new timestamps. */
  ghost predicate FreshAlong(w: World, steps: seq<Step>, limits: Limits)
    decreases |steps|
  {
    steps != [] && Enabled(w, steps[0], limits) ==>
      FreshStamps(w, steps[0]) && FreshAlong(Next(w, steps[0], limits), steps[1..], limits)
  }

  lemma {:induction false} RunKeepsGood(w: World, steps: seq<Step>, limits: Limits, end: World)
    requires Good(w) && Reaches(w, steps, limits, end) && FreshAlong(w, steps, limits)
    ensures Good(end)
    decreases |steps|
  {
    if steps != [] {
      StepKeepsGood(w, steps[0], limits);
      RunKeepsGood(Next(w, steps[0], limits), steps[1..], limits, end);
    }
  }

  lemma EmptyWorldGood()
    ensures Good(EMPTY_WORLD) && Consecutive(EMPTY_WORLD)
  {
  }

  /** In every state a run with new timestamps reaches, each accepted line is in the active file
      or in one sealed segment, unless its segment was deleted after the database had received
      that very line; identities are never used twice. */
  lemma ReachableGood(steps: seq<Step>, limits: Limits, end: World)
    requires Reaches(EMPTY_WORLD, steps, limits, end) && FreshAlong(EMPTY_WORLD, steps, limits)
    ensures Good(end)
  {
    EmptyWorldGood();
    RunKeepsGood(EMPTY_WORLD, steps, limits, end);
  }

  // ---------------------------------------------------------------- any timestamps

  lemma StepKeepsNamed(w: World, step: Step, limits: Limits)
    requires Named(w) && Enabled(w, step, limits)
    ensures Named(Next(w, step, limits))
  {
    match step {
      case WriteStep(lines, seal) =>
        if seal.Some? {
          SealKeepsNames(w.spool.sealed, SealedSegment(w.spool, seal.value, limits));
        }
      case IngestStep(_) =>
      case DeleteStep(ids) =>
        KeepDistinct(w.spool.sealed, ids);
        var kept := Keep(w.spool.sealed, ids);
        forall i | 0 <= i < |kept|
          ensures kept[i].id in w.ever
        {
          KeepMember(w.spool.sealed, ids, kept[i]);
        }
    }
  }

  /** A segment under a free identity keeps the identities distinct. */
  lemma SealKeepsNames(segments: seq<Segment>, x: Segment)
    requires forall i, j :: 0 <= i < j < |segments| ==> segments[i].id != segments[j].id
    requires !Exists(segments, x.id)
    ensures var more := segments + [x]; forall i, j :: 0 <= i < j < |more| ==> more[i].id != more[j].id
  {
  }

  lemma {:induction false} RunKeepsNamed(w: World, steps: seq<Step>, limits: Limits, end: World)
    requires Named(w) && Consecutive(w) && Reaches(w, steps, limits, end)
    ensures Named(end) && Consecutive(end)
    decreases |steps|
  {
    if steps != [] {
      StepKeepsNamed(w, steps[0], limits);
      ConsecutiveKept(w, steps[0], limits);
      RunKeepsNamed(Next(w, steps[0], limits), steps[1..], limits, end);
    }
  }

  /** The write seals a segment under an identity the database has already confirmed. */
  ghost predicate ReusesConfirmed(w: World, step: Step) {
    step.WriteStep? && step.seal.Some? && step.seal.value in w.confirmed
  }

  lemma DeleteKeepsCovered(w: World, ids: set<SegmentId>, limits: Limits)
    requires Covered(w) && ids <= w.confirmed
    ensures Covered(Next(w, DeleteStep(ids), limits))
  {
    var w' := Next(w, DeleteStep(ids), limits);
    var kept := w'.spool.sealed;
    forall i | 0 <= i < |kept| && kept[i].id in w.confirmed
      ensures Held(w', kept[i])
    {
      KeepMember(w.spool.sealed, ids, kept[i]);
      var j :| 0 <= j < |w.spool.sealed| && w.spool.sealed[j] == kept[i];
      assert Held(w, w.spool.sealed[j]);
    }
    forall x | x in w'.retired
      ensures x in w'.ingested
    {
      if x !in w.retired {
        DroppedMember(w.spool.sealed, ids, x);
        var i :| 0 <= i < |w.spool.sealed| && w.spool.sealed[i].id in ids && x in w.spool.sealed[i].lines && x.Data?;
        assert Held(w, w.spool.sealed[i]);
      }
    }
  }

  lemma IngestKeepsCovered(w: World, i: nat, limits: Limits)
    requires Covered(w) && Named(w) && i < |w.spool.sealed|
    ensures Covered(Next(w, IngestStep(i), limits))
  {
    var w' := Next(w, IngestStep(i), limits);
    forall j | 0 <= j < |w.spool.sealed| && w.spool.sealed[j].id in w'.confirmed
      ensures Held(w', w.spool.sealed[j])
    {
      if j != i {
        assert Held(w, w.spool.sealed[j]);
      }
    }
  }

  /** A write keeps every confirmed segment ingested exactly when it does not seal lines the
      database lacks under an identity it has confirmed. */
  lemma WriteKeepsCoveredIff(w: World, lines: seq<Line>, seal: Option<SegmentId>, limits: Limits)
    requires Covered(w) && AllData(w.spool.active) && Enabled(w, WriteStep(lines, seal), limits)
    ensures Covered(Next(w, WriteStep(lines, seal), limits)) <==>
            !(ReusesConfirmed(w, WriteStep(lines, seal)) && exists x :: x in w.spool.active && x !in w.ingested)
  {
    var w' := Next(w, WriteStep(lines, seal), limits);
    var n := |w.spool.sealed|;
    forall i | 0 <= i < n && w'.spool.sealed[i].id in w'.confirmed
      ensures Held(w', w'.spool.sealed[i])
    {
      assert w'.spool.sealed[i] == w.spool.sealed[i];
      assert Held(w, w.spool.sealed[i]);
    }
    if seal.Some? {
      var seg := SealedSegment(w.spool, seal.value, limits);
      assert w'.spool.sealed[n] == seg;
      assert Held(w', seg) <==> forall x :: x in w.spool.active ==> x in w.ingested;
    }
  }

  lemma StepKeepsCovered(w: World, step: Step, limits: Limits)
    requires Covered(w) && Named(w) && Enabled(w, step, limits) && !ReusesConfirmed(w, step)
    ensures Covered(Next(w, step, limits))
  {
    match step {
      case WriteStep(lines, seal) => WriteKeepsCoveredIff(w, lines, seal, limits);
      case IngestStep(i) => IngestKeepsCovered(w, i, limits);
      case DeleteStep(ids) => DeleteKeepsCovered(w, ids, limits);
    }
  }

  /** No write of the run seals under an identity confirmed before. */
  ghost predicate NoReuse(w: World, steps: seq<Step>, limits: Limits)
    decreases |steps|
  {
    steps != [] && Enabled(w, steps[0], limits) ==>
      !ReusesConfirmed(w, steps[0]) && NoReuse(Next(w, steps[0], limits), steps[1..], limits)
  }

  lemma {:induction false} RunKeepsCovered(w: World, steps: seq<Step>, limits: Limits, end: World)
    requires Covered(w) && Named(w) && Reaches(w, steps, limits, end) && NoReuse(w, steps, limits)
    ensures Covered(end)
    decreases |steps|
  {
    if steps != [] {
      StepKeepsCovered(w, steps[0], limits);
      StepKeepsNamed(w, steps[0], limits);
      RunKeepsCovered(Next(w, steps[0], limits), steps[1..], limits, end);
    }
  }

  /** Whatever the timestamps, a run that never seals under a confirmed identity loses nothing:
      each deleted line was ingested. */
  lemma ReachableCovered(steps: seq<Step>, limits: Limits, end: World)
    requires Reaches(EMPTY_WORLD, steps, limits, end) && NoReuse(EMPTY_WORLD, steps, limits)
    ensures NothingLost(end)
  {
    EmptyWorldGood();
    RunKeepsCovered(EMPTY_WORLD, steps, limits, end);
  }

  /** A confirmed segment that is not wholly ingested can be deleted, and then a line is lost. */
  lemma UncoveredCanBeLost(w: World, i: nat, limits: Limits)
    requires i < |w.spool.sealed| && w.spool.sealed[i].id in w.confirmed && !Held(w, w.spool.sealed[i])
    ensures Enabled(w, DeleteStep({w.spool.sealed[i].id}), limits)
    ensures !NothingLost(Next(w, DeleteStep({w.spool.sealed[i].id}), limits))
  {
    var ids := {w.spool.sealed[i].id};
    var x :| x in w.spool.sealed[i].lines && x.Data? && x !in w.ingested;
    DroppedContains(w.spool.sealed, ids, i, x);
    assert x in Next(w, DeleteStep(ids), limits).retired;
  }

  /** A deletion that loses a line is possible. */
  ghost predicate Endangered(w: World, limits: Limits) {
    exists ids :: Enabled(w, DeleteStep(ids), limits) && !NothingLost(Next(w, DeleteStep(ids), limits))
  }

  /** A write makes the loss of a line possible exactly when it seals lines the database lacks
      under an identity the database has confirmed. */
  lemma WriteEndangersIff(w: World, lines: seq<Line>, seal: Option<SegmentId>, limits: Limits)
    requires Covered(w) && Named(w) && Enabled(w, WriteStep(lines, seal), limits)
    ensures Endangered(Next(w, WriteStep(lines, seal), limits), limits) <==>
            ReusesConfirmed(w, WriteStep(lines, seal)) && exists x :: x in w.spool.active && x !in w.ingested
  {
    var w' := Next(w, WriteStep(lines, seal), limits);
    WriteKeepsCoveredIff(w, lines, seal, limits);
    if Covered(w') {
      forall ids | Enabled(w', DeleteStep(ids), limits)
        ensures NothingLost(Next(w', DeleteStep(ids), limits))
      {
        DeleteKeepsCovered(w', ids, limits);
      }
    } else {
      var i :| 0 <= i < |w'.spool.sealed| && w'.spool.sealed[i].id in w'.confirmed && !Held(w', w'.spool.sealed[i]);
      UncoveredCanBeLost(w', i, limits);
    }
  }

  lemma {:induction false} DroppedContains(segments: seq<Segment>, ids: set<SegmentId>, i: nat, x: Line)
    requires i < |segments| && segments[i].id in ids && x in segments[i].lines && x.Data?
    ensures x in Dropped(segments, ids)
  {
    if i < |segments| - 1 {
      DroppedContains(segments[..|segments| - 1], ids, i, x);
    } else {
      PayloadMember(segments[i].lines, x);
    }
  }

  // ---------------------------------------------------------------- when identities are reused

  /** Identities of one timestamp are handed out consecutively. */
  ghost predicate Consecutive(w: World) {
    forall id, k: nat {:trigger SegmentId(id.stamp, k)} :: id in w.ever && k < id.sequence ==> SegmentId(id.stamp, k) in w.ever
  }

  lemma ReusedIffGone(w: World, id: SegmentId, limits: Limits)
    requires Named(w) && Consecutive(w) && SealAllowed(w.spool, id, limits)
    ensures id in w.ever <==> exists gone :: gone in w.ever && gone.stamp == id.stamp && !Exists(w.spool.sealed, gone)
  {
    if id in w.ever {
      assert !Exists(w.spool.sealed, id);
    }
    if gone :| gone in w.ever && gone.stamp == id.stamp && !Exists(w.spool.sealed, gone) {
      assert gone == SegmentId(id.stamp, gone.sequence);
      if gone.sequence < id.sequence {
        assert false;
      }
      if id.sequence < gone.sequence {
        assert SegmentId(gone.stamp, id.sequence) in w.ever;
        assert id == SegmentId(gone.stamp, id.sequence);
      } else {
        assert id == gone;
      }
    }
  }

  /** In every reachable state, whatever the timestamps, a sealed segment repeats an identity
      exactly when a segment of the same timestamp has been deleted before. */
  lemma ReusedIffDeleted(steps: seq<Step>, limits: Limits, w: World, id: SegmentId)
    requires Reaches(EMPTY_WORLD, steps, limits, w) && SealAllowed(w.spool, id, limits)
    ensures id in w.ever <==> exists gone :: gone in w.ever && gone.stamp == id.stamp && !Exists(w.spool.sealed, gone)
  {
    EmptyWorldGood();
    RunKeepsNamed(EMPTY_WORLD, steps, limits, w);
    ReusedIffGone(w, id, limits);
  }

  lemma ConsecutiveKept(w: World, step: Step, limits: Limits)
    requires Named(w) && Consecutive(w) && Enabled(w, step, limits)
    ensures Consecutive(Next(w, step, limits))
  {
    if step.WriteStep? && step.seal.Some? {
      var id := step.seal.value;
      forall k: nat | k < id.sequence
        ensures SegmentId(id.stamp, k) in w.ever
      {
        assert Exists(w.spool.sealed, SegmentId(id.stamp, k));
      }
    }
  }

  // ---------------------------------------------------------------- a run that loses a line

  /** Lines of the same timestamp, one byte each; any two of them overflow a segment. */
  ghost function Sample(text: string): Line { Data(Some(1), text, 1) }

  const SAMPLE_LIMITS := Limits(0, 1, _ => 80)

  const SAMPLE_ID := SegmentId(1, 0)

  /** A segment that holds one sample line and its marker. */
  ghost function SampleSegment(text: string): Segment { Segment(SAMPLE_ID, [Sample(text), Marker(SAMPLE_ID, 80)]) }

  ghost function SampleWrite(text: string): Step { WriteStep([Sample(text)], Some(SAMPLE_ID)) }

  /** Two writes, the second one sealing the first line. */
  lemma SampleSealed() returns (w: World)
    ensures Reaches(EMPTY_WORLD, [WriteStep([Sample("a")], None), SampleWrite("b")], SAMPLE_LIMITS, w)
    ensures w.spool == Spool([Sample("b")], [SampleSegment("a")]) && w.ever == {SAMPLE_ID} && w.ingested == {}
  {
    var first := WriteStep([Sample("a")], None);
    FirstWrite(Sample("a"), SAMPLE_LIMITS);
    var w1 := Next(EMPTY_WORLD, first, SAMPLE_LIMITS);
    SecondWrite(w1, Sample("a"), Sample("b"), SAMPLE_LIMITS);
    ReachesOn(EMPTY_WORLD, [], SAMPLE_LIMITS, EMPTY_WORLD, first);
    ReachesOn(EMPTY_WORLD, [] + [first], SAMPLE_LIMITS, w1, SampleWrite("b"));
    w := Next(w1, SampleWrite("b"), SAMPLE_LIMITS);
    assert [] + [first] + [SampleWrite("b")] == [first, SampleWrite("b")];
  }

  lemma SampleIngest(w: World)
    requires w.spool == Spool([Sample("b")], [SampleSegment("a")]) && w.ingested == {}
    ensures Enabled(w, IngestStep(0), SAMPLE_LIMITS)
    ensures var v := Next(w, IngestStep(0), SAMPLE_LIMITS);
            v.ingested == {Sample("a")} && SAMPLE_ID in v.confirmed && v.spool == w.spool && v.ever == w.ever
  {
    var lines := w.spool.sealed[0].lines;
    assert lines == [Sample("a"), Marker(SAMPLE_ID, 80)];
    assert forall x :: x in lines && x.Data? <==> x == Sample("a");
  }

  lemma SampleDelete(w: World)
    requires w.spool == Spool([Sample("b")], [SampleSegment("a")]) && SAMPLE_ID in w.confirmed
    ensures Enabled(w, DeleteStep({SAMPLE_ID}), SAMPLE_LIMITS)
    ensures Next(w, DeleteStep({SAMPLE_ID}), SAMPLE_LIMITS).spool == Spool([Sample("b")], [])
  {
    var segments := [SampleSegment("a")];
    assert segments[..0] == [] && Keep([], {SAMPLE_ID}) == [];
    assert Keep(segments, {SAMPLE_ID}) == [];
  }

  /** The segment is ingested and deleted; the next seal will repeat its identity. */
  lemma SampleDeleted() returns (steps: seq<Step>, w: World)
    ensures Reaches(EMPTY_WORLD, steps, SAMPLE_LIMITS, w) && w.spool == Spool([Sample("b")], [])
    ensures w.ingested == {Sample("a")} && SAMPLE_ID in w.ever && SAMPLE_ID in w.confirmed
  {
    var w2 := SampleSealed();
    steps := [WriteStep([Sample("a")], None), SampleWrite("b")];
    SampleIngest(w2);
    ReachesOn(EMPTY_WORLD, steps, SAMPLE_LIMITS, w2, IngestStep(0));
    var w3 := Next(w2, IngestStep(0), SAMPLE_LIMITS);
    SampleDelete(w3);
    ReachesOn(EMPTY_WORLD, steps + [IngestStep(0)], SAMPLE_LIMITS, w3, DeleteStep({SAMPLE_ID}));
    w := Next(w3, DeleteStep({SAMPLE_ID}), SAMPLE_LIMITS);
    steps := steps + [IngestStep(0)] + [DeleteStep({SAMPLE_ID})];
  }

  /** When batches share a timestamp, a run can seal a segment under an identity used and
      confirmed before. */
  lemma IdentityCanRepeat() returns (steps: seq<Step>, w: World)
    ensures Reaches(EMPTY_WORLD, steps, SAMPLE_LIMITS, w) && w.spool == Spool([Sample("b")], [])
    ensures Enabled(w, SampleWrite("c"), SAMPLE_LIMITS)
    ensures SAMPLE_ID in w.ever && ReusesConfirmed(w, SampleWrite("c")) && Sample("b") !in w.ingested
  {
    steps, w := SampleDeleted();
    SecondWrite(w, Sample("b"), Sample("c"), SAMPLE_LIMITS);
  }

  /** Deleting the confirmed identity once more then loses a line that was never ingested. */
  lemma SharedTimestampsLoseLine() returns (steps: seq<Step>, end: World)
    ensures Reaches(EMPTY_WORLD, steps, SAMPLE_LIMITS, end) && Conserved(end)
    ensures Sample("b") in end.retired && Sample("b") !in end.ingested && !NothingLost(end)
  {
    var before, w := IdentityCanRepeat();
    SecondWrite(w, Sample("b"), Sample("c"), SAMPLE_LIMITS);
    ReachesOn(EMPTY_WORLD, before, SAMPLE_LIMITS, w, SampleWrite("c"));
    var w5 := Next(w, SampleWrite("c"), SAMPLE_LIMITS);
    var ids := {SAMPLE_ID};
    assert w5.spool.sealed[0] == SampleSegment("b");
    DroppedContains(w5.spool.sealed, ids, 0, Sample("b"));
    ReachesOn(EMPTY_WORLD, before + [SampleWrite("c")], SAMPLE_LIMITS, w5, DeleteStep(ids));
    end := Next(w5, DeleteStep(ids), SAMPLE_LIMITS);
    steps := before + [SampleWrite("c")] + [DeleteStep(ids)];
    EmptyWorldGood();
    RunConserves(EMPTY_WORLD, steps, SAMPLE_LIMITS, end);
  }

  /** Nothing is lost or duplicated inside the spool over any run, whatever the timestamps. */
  lemma {:induction false} RunConserves(w: World, steps: seq<Step>, limits: Limits, end: World)
    requires Conserved(w) && Reaches(w, steps, limits, end)
    ensures Conserved(end)
    decreases |steps|
  {
    if steps != [] {
      StepConserves(w, steps[0], limits);
      RunConserves(Next(w, steps[0], limits), steps[1..], limits, end);
    }
  }
}
