/** How far the boundary query reaches beyond the window
    (netopsbench/platform/pingmesh/_detector_ingestion.py:55-62), and why that is enough
    under a regular cadence. */
module BoundaryPadding {
  import opened FabricGraph
  import opened Counting
  import opened WindowIngestion
  import opened IngestionProofs

  // ---------------------------------------------------------------- the doubled-list scan

  /** `true` marks an empty frame; positions count cycles, so the list is read cyclically. */
  ghost predicate EmptyRun(frames: seq<bool>, from: nat, length: nat) {
    frames != [] && forall c: nat :: from <= c < from + length ==> frames[Wrap(c, |frames|)]
  }

  /** The empty frames ending just before position `p` of a list. */
  function Trailing(list: seq<bool>, p: nat): nat
    requires p <= |list|
  {
    if p == 0 || !list[p - 1] then 0 else Trailing(list, p - 1) + 1
  }

  lemma {:induction false} TrailingRun(list: seq<bool>, p: nat)
    requires p <= |list|
    ensures Trailing(list, p) <= p
    ensures forall i :: p - Trailing(list, p) <= i < p ==> list[i]
  {
    if p > 0 && list[p - 1] {
      TrailingRun(list, p - 1);
    }
  }

  lemma {:induction false} TrailingCovers(list: seq<bool>, i: nat, p: nat)
    requires i <= p <= |list| && forall j :: i <= j < p ==> list[j]
    ensures p - i <= Trailing(list, p)
  {
    if i < p {
      TrailingCovers(list, i, p - 1);
    }
  }

  lemma DoubledAt(frames: seq<bool>, i: nat)
    requires i < 2 * |frames|
    ensures (frames + frames)[i] == frames[Wrap(i, |frames|)]
  {
  }

  /** The scan of one client: the longest run in the doubled list, cut to the list's length. */
  method ScanClient(frames: seq<bool>, before: nat) returns (longest: nat)
    ensures before <= longest
    ensures forall p: nat :: p <= 2 * |frames| ==> Min(Trailing(frames + frames, p), |frames|) <= longest
    ensures longest == before ||
            exists p: nat :: p <= 2 * |frames| && longest == Min(Trailing(frames + frames, p), |frames|)
  {
    longest := before;
    var doubled := frames + frames;
    var run := 0;
    for p := 0 to |doubled|
      invariant run == Trailing(doubled, p) && before <= longest
      invariant forall q: nat :: q <= p ==> Min(Trailing(doubled, q), |frames|) <= longest
      invariant longest == before || exists q: nat :: q <= p && longest == Min(Trailing(doubled, q), |frames|)
    {
      run := if doubled[p] then run + 1 else 0;
      var capped := Min(run, |frames|);
      longest := if capped > longest then capped else longest;
    }
  }

  ghost predicate SomeProbe(frames: seq<bool>) {
    exists i :: 0 <= i < |frames| && !frames[i]
  }

  /** A cyclic run that does not exceed the list shows up in the doubled list. */
  lemma RunInDoubled(frames: seq<bool>, from: nat, length: nat)
    requires EmptyRun(frames, from, length) && length <= |frames|
    ensures exists p: nat :: p <= 2 * |frames| && length <= Trailing(frames + frames, p)
  {
    var n := |frames|;
    var i := Wrap(from, n);
    var doubled := frames + frames;
    forall j | i <= j < i + length
      ensures doubled[j]
    {
      WrapShift(from, j - i, n);
      DoubledAt(frames, j);
      assert frames[Wrap(from + (j - i), n)];
    }
    TrailingCovers(doubled, i, i + length);
  }

  lemma RunShorterThanList(frames: seq<bool>, from: nat, length: nat)
    requires EmptyRun(frames, from, length) && SomeProbe(frames)
    ensures length < |frames|
  {
    var i :| 0 <= i < |frames| && !frames[i];
    var c := WrapReaches(from, i, |frames|);
    assert !frames[Wrap(c, |frames|)];
  }

  /** Scanned lists bound every cyclic run of empty frames. */
  lemma ScanBoundsRuns(frames: seq<bool>, longest: nat, from: nat, length: nat)
    requires forall p: nat :: p <= 2 * |frames| ==> Min(Trailing(frames + frames, p), |frames|) <= longest
    requires SomeProbe(frames) && EmptyRun(frames, from, length)
    ensures length <= longest
  {
    RunShorterThanList(frames, from, length);
    RunInDoubled(frames, from, length);
    var p: nat :| p <= 2 * |frames| && length <= Trailing(frames + frames, p);
    assert Min(Trailing(frames + frames, p), |frames|) <= longest;
  }

  /** And the bound is attained by an actual cyclic run. */
  lemma ScanIsAttained(frames: seq<bool>, p: nat)
    requires frames != [] && p <= 2 * |frames|
    ensures exists from: nat :: EmptyRun(frames, from, Min(Trailing(frames + frames, p), |frames|))
  {
    var doubled := frames + frames;
    var length := Min(Trailing(doubled, p), |frames|);
    TrailingRun(doubled, p);
    var from := p - length;
    forall c: nat | from <= c < from + length
      ensures frames[Wrap(c, |frames|)]
    {
      DoubledAt(frames, c);
    }
    assert EmptyRun(frames, from, length);
  }

  // ---------------------------------------------------------------- the padding

  /** Which cycles of the epoch leave source `s` idle. */
  function Idle(p: Plan, s: Name): (frames: seq<bool>)
    requires p.epoch > 0
    ensures |frames| == p.epoch
    ensures forall c :: 0 <= c < p.epoch ==> frames[c] == (Expected(p, s, c) == {})
  {
    seq(p.epoch, c requires 0 <= c => Expected(p, s, c) == {})
  }

  /** The longest cyclic run of idle cycles of any client, exactly. */
  ghost predicate LongestIdle(p: Plan, longest: nat)
    requires p.epoch > 0
  {
    LongestOf(p, |p.clients|, longest)
  }

  /** The same of the first `n` clients. */
  ghost predicate LongestOf(p: Plan, n: nat, longest: nat)
    requires p.epoch > 0 && n <= |p.clients|
  {
    && (forall i :: 0 <= i < n ==> RunsWithin(Idle(p, p.clients[i]), longest))
    && (longest == 0 || exists i :: 0 <= i < n && HasRun(Idle(p, p.clients[i]), longest))
  }

  ghost predicate HasRun(frames: seq<bool>, length: nat) {
    exists from: nat :: EmptyRun(frames, from, length)
  }

  ghost predicate RunsWithin(frames: seq<bool>, longest: nat) {
    SomeProbe(frames) ==> forall from: nat, length: nat :: EmptyRun(frames, from, length) ==> length <= longest
  }

  /** One client of the loop. */
  method ScanIdle(p: Plan, s: Name, before: nat) returns (most: nat)
    requires p.epoch > 0
    ensures before <= most && RunsWithin(Idle(p, s), most)
    ensures most == before || HasRun(Idle(p, s), most)
  {
    var frames := Idle(p, s);
    most := ScanClient(frames, before);
    if SomeProbe(frames) {
      forall from: nat, length: nat | EmptyRun(frames, from, length)
        ensures length <= most
      {
        ScanBoundsRuns(frames, most, from, length);
      }
    }
    if most != before {
      ghost var q: nat :| q <= 2 * |frames| && most == Min(Trailing(frames + frames, q), |frames|);
      ScanIsAttained(frames, q);
    }
  }

  lemma NextClient(p: Plan, n: nat, before: nat, most: nat)
    requires p.epoch > 0 && n < |p.clients| && LongestOf(p, n, before) && before <= most
    requires RunsWithin(Idle(p, p.clients[n]), most)
    requires most == before || HasRun(Idle(p, p.clients[n]), most)
    ensures LongestOf(p, n + 1, most)
  {
    forall i | 0 <= i < n + 1
      ensures RunsWithin(Idle(p, p.clients[i]), most)
    {
      if i < n {
        assert RunsWithin(Idle(p, p.clients[i]), before);
      }
    }
  }

  /** `_boundary_padding_seconds`. */
  method PaddingSeconds(p: Plan) returns (padding: nat)
    requires p.epoch > 0
    ensures exists longest: nat :: LongestIdle(p, longest) && padding == (longest + 2) * p.interval
  {
    var most := 0;
    for n := 0 to |p.clients|
      invariant LongestOf(p, n, most)
    {
      ghost var before := most;
      most := ScanIdle(p, p.clients[n], most);
      NextClient(p, n, before, most);
    }
    assert LongestIdle(p, most);
    padding := (most + 2) * p.interval;
  }

  // ---------------------------------------------------------------- readiness under a regular cadence

  /** Source `s` ticks from `origin` on, in whatever unit the clock counts; each row is stamped
      before the next tick. */
  ghost predicate Regular(p: Plan, h: History, origin: Name -> int, tick: nat)
    requires p.epoch > 0
  {
    forall s: Name, c: nat, d: Name {:trigger Planned(p, s, c, d)} :: Planned(p, s, c, d) ==>
      origin(s) + c * tick <= At(h, s, c, d) < origin(s) + c * tick + tick
  }

  /** Of `longest + 1` consecutive cycles at least one probes something. */
  lemma BusyCycle(p: Plan, s: Name, longest: nat, from: nat) returns (c: nat)
    requires p.epoch > 0 && RunsWithin(Idle(p, s), longest) && SomeProbe(Idle(p, s))
    ensures from <= c <= from + longest && Expected(p, s, c) != {}
  {
    var frames := Idle(p, s);
    if EmptyRun(frames, from, longest + 1) {
      assert false;
    }
    c :| from <= c < from + (longest + 1) && !frames[Wrap(c, |frames|)];
    WrapTwice(c, p.epoch);
    assert Expected(p, s, Wrap(c, p.epoch)) == Expected(p, s, c);
  }

  /** A stretch of `longest + 2` ticks holds a whole cycle that probes something. */
  lemma BusyCycleWithin(p: Plan, s: Name, longest: nat, origin: int, tick: nat, lo: int) returns (c: nat)
    requires p.epoch > 0 && tick > 0 && RunsWithin(Idle(p, s), longest) && SomeProbe(Idle(p, s))
    requires origin <= lo
    ensures Expected(p, s, c) != {}
    ensures lo <= origin + c * tick && origin + c * tick + tick <= lo + (longest + 2) * tick
  {
    var first := FirstTick(origin, tick, lo);
    c := BusyCycle(p, s, longest, first);
    CycleSpan(c, first, longest, tick);
    assert (longest + 2) * tick == (longest + 1) * tick + tick;
  }

  /** All rows of the padded interval have been ingested. */
  ghost predicate Ingested(p: Plan, h: History, keys: set<Key>, lo: int, hi: int)
    requires p.epoch > 0
  {
    forall k :: Emitted(p, h, k) && lo <= k.stamp.at < hi ==> k in keys
  }

  /** The key the history emits for a planned row. */
  ghost function KeyAt(h: History, s: Name, c: nat, d: Name): Key {
    var r := h(s, c, d);
    Key(s, c, d, if r.stamp.Is? then r.stamp.value else Stamp("", 0))
  }

  lemma KeyAtEmitted(p: Plan, h: History, s: Name, c: nat, d: Name)
    requires Genuine(p, h) && Planned(p, s, c, d)
    ensures Emitted(p, h, KeyAt(h, s, c, d)) && KeyAt(h, s, c, d).stamp.at == At(h, s, c, d)
  {
    assert RowFits(p, h, s, c, d);
  }

  /** Between a whole cycle before the window and one after it, every frame is complete. */
  lemma FramesComplete(p: Plan, h: History, origin: Name -> int, tick: nat, keys: set<Key>, lo: int, hi: int,
                       s: Name, b: nat, a: nat, c: nat)
    requires Genuine(p, h) && Regular(p, h, origin, tick) && s in p.clients
    requires AllEmitted(p, h, keys) && Ingested(p, h, keys, lo, hi)
    requires lo <= origin(s) + b * tick && origin(s) + a * tick + tick <= hi && b <= c <= a
    ensures FrameComplete(p, keys, s, c)
  {
    CycleOrder(b, c, tick);
    CycleOrder(c, a, tick);
    forall d | d in Expected(p, s, c)
      ensures d in Targets(keys, s, c)
    {
      assert Planned(p, s, c, d);
      KeyAtEmitted(p, h, s, c, d);
      assert KeyAt(h, s, c, d) in keys;
    }
    forall d | d in Targets(keys, s, c)
      ensures d in Expected(p, s, c)
    {
      var k :| k in keys && k.source == s && k.cycle == c && k.destination == d;
      assert Emitted(p, h, k);
    }
  }

  /** One source closes once its padded interval is ingested. */
  lemma SourceCloses(p: Plan, h: History, origin: Name -> int, tick: nat, keys: set<Key>, longest: nat, s: Name, start: int, end: int)
    requires Genuine(p, h) && Regular(p, h, origin, tick) && tick > 0 && s in p.clients && start <= end
    requires RunsWithin(Idle(p, s), longest) && SomeProbe(Idle(p, s))
    requires origin(s) <= start - (longest + 2) * tick
    requires AllEmitted(p, h, keys)
    requires Ingested(p, h, keys, start - (longest + 2) * tick, end + (longest + 2) * tick)
    ensures HasClosed(p, keys, s, start, end)
  {
    var pad := (longest + 2) * tick;
    var b := BusyCycleWithin(p, s, longest, origin(s), tick, start - pad);
    var a := BusyCycleWithin(p, s, longest, origin(s), tick, end);
    var d :| d in Expected(p, s, b);
    var e :| e in Expected(p, s, a);
    assert Planned(p, s, b, d) && Planned(p, s, a, e);
    KeyAtEmitted(p, h, s, b, d);
    KeyAtEmitted(p, h, s, a, e);
    BoundaryClose(p, h, origin, tick, keys, start - pad, end + pad, s, KeyAt(h, s, b, d), KeyAt(h, s, a, e), start, end);
  }

  lemma BoundaryClose(p: Plan, h: History, origin: Name -> int, tick: nat, keys: set<Key>, lo: int, hi: int, s: Name,
                      kb: Key, ka: Key, start: int, end: int)
    requires Genuine(p, h) && Regular(p, h, origin, tick) && s in p.clients
    requires AllEmitted(p, h, keys) && Ingested(p, h, keys, lo, hi) && lo <= start <= end <= hi
    requires Emitted(p, h, kb) && kb.source == s && lo <= kb.stamp.at < start && lo <= origin(s) + kb.cycle * tick
    requires Emitted(p, h, ka) && ka.source == s && end <= ka.stamp.at < hi
             && origin(s) + ka.cycle * tick + tick <= hi
    ensures HasClosed(p, keys, s, start, end)
  {
    assert kb in keys && ka in keys;
    HasLeft(keys, s, start);
    HasRight(keys, s, end);
    var left: nat :| IsLeft(keys, s, start, left);
    var right: nat :| IsRight(keys, s, end, right);
    assert kb.cycle <= left && right <= ka.cycle;
    forall c: nat | left <= c <= right
      ensures FrameComplete(p, keys, s, c)
    {
      FramesComplete(p, h, origin, tick, keys, lo, hi, s, kb.cycle, ka.cycle, c);
    }
    assert SourceClosed(p, keys, s, start, end, left, right);
  }

  /** Under a regular cadence with enough history, the padded progress query and a snapshot of
      all the emitted keys of the window make the audit ready exactly when no row misses a field. */
  lemma PaddedQueryIsReady(p: Plan, h: History, origin: Name -> int, tick: nat, longest: nat,
                           progress: seq<Row>, snapshot: seq<Row>, start: int, end: int)
    requires Genuine(p, h) && Regular(p, h, origin, tick) && tick > 0 && start <= end && LongestIdle(p, longest)
    requires forall i :: 0 <= i < |p.clients| ==>
                           SomeProbe(Idle(p, p.clients[i])) && origin(p.clients[i]) <= start - (longest + 2) * tick
    requires DrawnProgress(p, h, progress) && DrawnSnapshot(p, h, snapshot) && WithinQuery(snapshot, start, end)
    requires Ingested(p, h, KeySet(CompleteRows(progress)),
                      start - (longest + 2) * tick, end + (longest + 2) * tick)
    requires Ingested(p, h, KeySet(FullRows(snapshot)), start, end)
    ensures IsReady(p, progress, snapshot, start, end) <==> Whole(progress, snapshot, start, end)
  {
    PaddedQueryCloses(p, h, origin, tick, longest, progress, snapshot, start, end);
  }

  /** The padded progress query closes every source, and the snapshot's keys are the expected ones. */
  lemma PaddedQueryCloses(p: Plan, h: History, origin: Name -> int, tick: nat, longest: nat,
                           progress: seq<Row>, snapshot: seq<Row>, start: int, end: int)
    requires Genuine(p, h) && Regular(p, h, origin, tick) && tick > 0 && start <= end && LongestIdle(p, longest)
    requires forall i :: 0 <= i < |p.clients| ==>
                           SomeProbe(Idle(p, p.clients[i])) && origin(p.clients[i]) <= start - (longest + 2) * tick
    requires DrawnProgress(p, h, progress) && DrawnSnapshot(p, h, snapshot) && WithinQuery(snapshot, start, end)
    requires Ingested(p, h, KeySet(CompleteRows(progress)),
                      start - (longest + 2) * tick, end + (longest + 2) * tick)
    requires Ingested(p, h, KeySet(FullRows(snapshot)), start, end)
    ensures Sound(p, progress, snapshot, start, end) && Closing(p, progress, snapshot, start, end)
  {
    var keys := KeySet(CompleteRows(progress));
    GenuineNeverInvalid(p, h, progress, snapshot, start, end);
    ProgressEmitted(p, h, progress);
    SnapshotEmitted(p, h, snapshot);
    forall i | 0 <= i < |p.clients|
      ensures HasClosed(p, keys, p.clients[i], start, end)
    {
      SourceCloses(p, h, origin, tick, keys, longest, p.clients[i], start, end);
    }
    forall k: Key
      ensures k in KeySet(FullRows(snapshot)) <==> k in ExpectedKeys(p, keys, start, end, |p.clients|)
    {
      ExpectedIsEmitted(p, h, keys, start, end, k);
      if k in KeySet(FullRows(snapshot)) {
        QueryKeys(snapshot, start, end, k);
      }
    }
  }
}
