/** Sub-window analyses and their merge into the full-window report
    (netopsbench/platform/pingmesh/detector.py). */
module WindowMerge {
  import opened Options
  import opened Counting
  import opened AnomalyAnalysis
  import opened AnomalyReport

  datatype Analysed = Analysed(name: string, anomalies: seq<Anomaly>)

  datatype Window = Window(name: string, start: int, end: int)

  // ---------------------------------------------------------------- slices

  predicate Inside(r: ProbeRow, start: int, end: int) {
    r.time.Some? && start <= r.time.value < end
  }

  function Slice(rows: seq<ProbeRow>, start: int, end: int): (r: seq<ProbeRow>)
    ensures |r| <= |rows|
  {
    if rows == [] then [] else
      var last := rows[|rows| - 1];
      Slice(rows[..|rows| - 1], start, end) + if Inside(last, start, end) then [last] else []
  }

  /** A slice as long as the snapshot is the snapshot. */
  lemma {:induction false} SliceWhole(rows: seq<ProbeRow>, start: int, end: int)
    ensures |Slice(rows, start, end)| == |rows| ==> Slice(rows, start, end) == rows
  {
    if rows != [] {
      var front, last := rows[..|rows| - 1], rows[|rows| - 1];
      SliceWhole(front, start, end);
      assert rows == front + [last];
    }
  }

  /** A slice holds exactly the rows stamped inside. */
  lemma {:induction false} SliceMember(rows: seq<ProbeRow>, start: int, end: int, r: ProbeRow)
    ensures r in Slice(rows, start, end) <==> r in rows && Inside(r, start, end)
  {
    if rows != [] {
      var front, last := rows[..|rows| - 1], rows[|rows| - 1];
      SliceMember(front, start, end, r);
      assert rows == front + [last];
    }
  }

  /** Slicing goes row by row and keeps the order. */
  lemma {:induction false} SliceParts(a: seq<ProbeRow>, b: seq<ProbeRow>, r: ProbeRow, start: int, end: int)
    ensures Slice(a + b, start, end) == Slice(a, start, end) + Slice(b, start, end)
    ensures Slice([r], start, end) == if r.time.Some? && start <= r.time.value < end then [r] else []
    decreases |b|
  {
    if b == [] {
      assert a + b == a;
    } else {
      SliceParts(a, b[..|b| - 1], r, start, end);
      assert (a + b)[..|a + b| - 1] == a + b[..|b| - 1];
    }
  }

  /** `_slice_rows`. */
  method SliceRows(rows: seq<ProbeRow>, start: int, end: int) returns (selected: seq<ProbeRow>)
    ensures selected == Slice(rows, start, end)
    ensures |selected| == |rows| ==> selected == rows
    ensures forall r :: r in selected <==> r in rows && Inside(r, start, end)
  {
    selected := [];
    for i := 0 to |rows|
      invariant selected == Slice(rows[..i], start, end)
    {
      assert rows[..i + 1][..i] == rows[..i];
      if Inside(rows[i], start, end) {
        selected := selected + [rows[i]];
      }
    }
    assert rows[..|rows|] == rows;
    SliceWhole(rows, start, end);
    forall r
      ensures r in selected <==> r in rows && Inside(r, start, end)
    {
      SliceMember(rows, start, end, r);
    }
  }

  // ---------------------------------------------------------------- the merged report

  const FULL := "full"

  /** The anomalies of the analyses named "full", in order. */
  function FullList(analyses: seq<Analysed>): seq<Anomaly> {
    if analyses == [] then [] else
      var last := analyses[|analyses| - 1];
      FullList(analyses[..|analyses| - 1]) + if last.name == FULL then last.anomalies else []
  }

  predicate Has(s: seq<Anomaly>, f: (Kind, Path)) {
    exists i :: 0 <= i < |s| && Family(s[i]) == f
  }

  /** The names of the analyses that saw a family. */
  function SeenIn(analyses: seq<Analysed>, f: (Kind, Path)): set<string> {
    if analyses == [] then {} else
      var last := analyses[|analyses| - 1];
      SeenIn(analyses[..|analyses| - 1], f) + if Has(last.anomalies, f) then {last.name} else {}
  }

  function Lasting(names: set<string>): Persistence {
    if "early" in names && "steady" in names then Persistent
    else if "early" in names then EarlyOnly
    else if "steady" in names then SteadyOnly
    else FullWindow
  }

  function Label(a: Anomaly, names: set<string>): Anomaly {
    a.(windows := names, persistence := Lasting(names))
  }

  function LabelAll(s: seq<Anomaly>, analyses: seq<Analysed>): seq<Anomaly> {
    seq(|s|, i requires 0 <= i < |s| => Label(s[i], SeenIn(analyses, Family(s[i]))))
  }

  function Merged(analyses: seq<Analysed>): seq<Anomaly> {
    SortAnomalies(LabelAll(PutAll([], FullList(analyses)), analyses))
  }

  // ---------------------------------------------------------------- the merge loops

  type Sightings = map<(Kind, Path), set<string>>

  ghost predicate FirstPass(list: seq<Anomaly>, entries: seq<Anomaly>, seen: Sightings) {
    && entries == PutAll([], list)
    && (forall f :: f in seen <==> Has(list, f))
    && (forall f :: f in seen ==> seen[f] == {FULL})
  }

  lemma FirstPassStep(list: seq<Anomaly>, entries: seq<Anomaly>, seen: Sightings, a: Anomaly)
    requires FirstPass(list, entries, seen)
    ensures FirstPass(list + [a], Put(entries, a), seen[Family(a) := {FULL}])
  {
    PutAllStep(list, a);
    forall f ensures Has(list + [a], f) <==> Has(list, f) || f == Family(a) {
      HasStep(list, a, f);
    }
  }

  lemma HasStep(s: seq<Anomaly>, a: Anomaly, f: (Kind, Path))
    ensures Has(s + [a], f) <==> Has(s, f) || f == Family(a)
  {
    var t := s + [a];
    if Has(s, f) {
      var i :| 0 <= i < |s| && Family(s[i]) == f;
      assert Family(t[i]) == f;
    }
    if f == Family(a) {
      assert Family(t[|s|]) == f;
    }
  }

  lemma HasIsListed(s: seq<Anomaly>, f: (Kind, Path))
    ensures Has(s, f) <==> f in Families(s)
  {
    if Has(s, f) {
      var i :| 0 <= i < |s| && Family(s[i]) == f;
      assert Families(s)[i] == f;
    }
  }

  /** The loop over the anomalies of one "full" analysis. */
  method EnterAll(anomalies: seq<Anomaly>, ghost list: seq<Anomaly>, before: seq<Anomaly>, known: Sightings)
    returns (entries: seq<Anomaly>, seen: Sightings)
    requires FirstPass(list, before, known)
    ensures FirstPass(list + anomalies, entries, seen)
  {
    entries, seen := before, known;
    assert list + anomalies[..0] == list;
    for i := 0 to |anomalies|
      invariant FirstPass(list + anomalies[..i], entries, seen)
    {
      var a := anomalies[i];
      FirstPassStep(list + anomalies[..i], entries, seen, a);
      assert list + anomalies[..i] + [a] == list + anomalies[..i + 1];
      entries := Put(entries, a);
      seen := seen[Family(a) := (if Family(a) in seen then seen[Family(a)] else {}) + {FULL}];
    }
    assert anomalies[..|anomalies|] == anomalies;
  }

  ghost predicate SecondPass(analyses: seq<Analysed>, keys: set<(Kind, Path)>, seen: Sightings) {
    seen.Keys == keys && forall f :: f in seen ==> seen[f] == {FULL} + SeenIn(analyses, f)
  }

  /** The loop over the anomalies of one other analysis. */
  method NoteAll(done: seq<Analysed>, next: Analysed, ghost keys: set<(Kind, Path)>, known: Sightings) returns (seen: Sightings)
    requires SecondPass(done, keys, known)
    ensures SecondPass(done + [next], keys, seen)
  {
    seen := known;
    for i := 0 to |next.anomalies|
      invariant Noted(known, next.name, next.anomalies[..i], seen)
    {
      var a := next.anomalies[i];
      assert next.anomalies[..i + 1] == next.anomalies[..i] + [a];
      NotedStep(known, next.name, next.anomalies[..i], seen, a);
      if Family(a) in seen {
        seen := seen[Family(a) := seen[Family(a)] + {next.name}];
      }
    }
    assert next.anomalies[..|next.anomalies|] == next.anomalies;
    assert (done + [next])[..|done|] == done;
  }

  ghost predicate Noted(known: Sightings, name: string, s: seq<Anomaly>, seen: Sightings) {
    && seen.Keys == known.Keys
    && forall f :: f in seen ==> seen[f] == known[f] + if Has(s, f) then {name} else {}
  }

  lemma NotedStep(known: Sightings, name: string, s: seq<Anomaly>, seen: Sightings, a: Anomaly)
    requires Noted(known, name, s, seen)
    ensures Family(a) !in seen ==> Noted(known, name, s + [a], seen)
    ensures Family(a) in seen ==> Noted(known, name, s + [a], seen[Family(a) := seen[Family(a)] + {name}])
  {
    forall f ensures Has(s + [a], f) <==> Has(s, f) || f == Family(a) {
      HasStep(s, a, f);
    }
  }

  /** The loop over the "full" analyses. */
  method EnterFull(analyses: seq<Analysed>) returns (entries: seq<Anomaly>, seen: Sightings)
    ensures FirstPass(FullList(analyses), entries, seen)
  {
    entries, seen := [], map[];
    for j := 0 to |analyses|
      invariant FirstPass(FullList(analyses[..j]), entries, seen)
    {
      assert analyses[..j + 1][..j] == analyses[..j];
      if analyses[j].name == FULL {
        entries, seen := EnterAll(analyses[j].anomalies, FullList(analyses[..j]), entries, seen);
      } else {
        assert FullList(analyses[..j + 1]) == FullList(analyses[..j]);
      }
    }
    assert analyses[..|analyses|] == analyses;
  }

  lemma SkipFull(done: seq<Analysed>, next: Analysed, keys: set<(Kind, Path)>, seen: Sightings)
    requires SecondPass(done, keys, seen) && next.name == FULL
    ensures SecondPass(done + [next], keys, seen)
  {
    assert (done + [next])[..|done|] == done;
  }

  /** The loop over the other analyses. */
  method NoteOthers(analyses: seq<Analysed>, known: Sightings) returns (seen: Sightings)
    requires forall f :: f in known ==> known[f] == {FULL}
    ensures SecondPass(analyses, known.Keys, seen)
  {
    seen := known;
    for j := 0 to |analyses|
      invariant SecondPass(analyses[..j], known.Keys, seen)
    {
      assert analyses[..j + 1] == analyses[..j] + [analyses[j]];
      if analyses[j].name != FULL {
        seen := NoteAll(analyses[..j], analyses[j], known.Keys, seen);
      } else {
        SkipFull(analyses[..j], analyses[j], known.Keys, seen);
      }
    }
    assert analyses[..|analyses|] == analyses;
  }

  /** `_merge_window_anomalies`. */
  method MergeWindows(analyses: seq<Analysed>) returns (merged: seq<Anomaly>)
    ensures merged == Merged(analyses)
  {
    var entries, known := EnterFull(analyses);
    var seen := NoteOthers(analyses, known);
    forall i | 0 <= i < |entries|
      ensures Family(entries[i]) in seen && seen[Family(entries[i])] == SeenIn(analyses, Family(entries[i]))
    {
      EntrySeen(analyses, entries[i]);
    }
    merged := LabelEntries(entries, seen, analyses);
    merged := SortAnomalies(merged);
  }

  method LabelEntries(entries: seq<Anomaly>, seen: Sightings, ghost analyses: seq<Analysed>) returns (labelled: seq<Anomaly>)
    requires forall i :: 0 <= i < |entries| ==>
                           Family(entries[i]) in seen && seen[Family(entries[i])] == SeenIn(analyses, Family(entries[i]))
    ensures labelled == LabelAll(entries, analyses)
  {
    labelled := [];
    for i := 0 to |entries|
      invariant labelled == LabelAll(entries[..i], analyses)
    {
      labelled := labelled + [Label(entries[i], seen[Family(entries[i])])];
    }
    assert entries[..|entries|] == entries;
  }

  lemma {:induction false} FullIsSeen(analyses: seq<Analysed>, f: (Kind, Path))
    requires Has(FullList(analyses), f)
    ensures FULL in SeenIn(analyses, f)
  {
    if analyses != [] {
      var front, last := analyses[..|analyses| - 1], analyses[|analyses| - 1];
      var s, t := FullList(front), if last.name == FULL then last.anomalies else [];
      var i :| 0 <= i < |s + t| && Family((s + t)[i]) == f;
      if i < |s| {
        assert Family(s[i]) == f;
        FullIsSeen(front, f);
      } else {
        assert Family(t[i - |s|]) == f;
      }
    }
  }

  lemma EntrySeen(analyses: seq<Analysed>, a: Anomaly)
    requires a in PutAll([], FullList(analyses))
    ensures Has(FullList(analyses), Family(a)) && FULL in SeenIn(analyses, Family(a))
  {
    PutAllExact(FullList(analyses));
    FamilyListed(FullList(analyses), a);
    HasIsListed(FullList(analyses), Family(a));
    FullIsSeen(analyses, Family(a));
  }

  // ---------------------------------------------------------------- what a merge keeps

  lemma {:induction false} PutAllDistinct(s: seq<Anomaly>)
    requires NoDup(Families(s))
    ensures PutAll([], s) == s
  {
    if s != [] {
      var front, last := s[..|s| - 1], s[|s| - 1];
      assert Families(front) == Families(s)[..|s| - 1];
      PutAllDistinct(front);
      forall x | x in front ensures Family(x) != Family(last) {
        var i :| 0 <= i < |front| && front[i] == x;
        assert Families(s)[i] == Family(x) && Families(s)[|s| - 1] == Family(last);
      }
      PutFresh(front, last);
    }
  }

  /** The full window comes first, then what sub-windows named "full" report. */
  lemma {:induction false} FullListSplit(full: seq<Anomaly>, windows: seq<Analysed>)
    ensures FullList([Analysed(FULL, full)] + windows) == full + FullList(windows)
  {
    var all := [Analysed(FULL, full)] + windows;
    if windows == [] {
      assert all[..0] == [];
      assert FullList(all) == FullList(all[..0]) + full;
    } else {
      var front, last := windows[..|windows| - 1], windows[|windows| - 1];
      assert all[..|all| - 1] == [Analysed(FULL, full)] + front;
      FullListSplit(full, front);
    }
  }

  lemma {:induction false} NoFullList(windows: seq<Analysed>)
    requires forall w :: w in windows ==> w.name != FULL
    ensures FullList(windows) == []
  {
    if windows != [] {
      NoFullList(windows[..|windows| - 1]);
      assert windows[|windows| - 1] in windows;
    }
  }

  /** The last anomaly of a family in a list. */
  function LastOf(s: seq<Anomaly>, f: (Kind, Path)): Option<Anomaly> {
    if s == [] then None
    else if Family(s[|s| - 1]) == f then Some(s[|s| - 1])
    else LastOf(s[..|s| - 1], f)
  }

  lemma {:induction false} PutAllJoin(entries: seq<Anomaly>, a: seq<Anomaly>, b: seq<Anomaly>)
    ensures PutAll(entries, a + b) == PutAll(PutAll(entries, a), b)
  {
    if b == [] {
      assert a + b == a;
    } else {
      PutAllJoin(entries, a, b[..|b| - 1]);
      assert (a + b)[..|a + b| - 1] == a + b[..|b| - 1];
    }
  }

  /** After a list of puts a family holds its last value, or what it held before. */
  lemma {:induction false} PutAllHolds(entries: seq<Anomaly>, s: seq<Anomaly>, x: Anomaly)
    requires NoDup(Families(entries))
    ensures NoDup(Families(PutAll(entries, s)))
    ensures x in PutAll(entries, s) <==>
            LastOf(s, Family(x)) == Some(x) || (LastOf(s, Family(x)).None? && x in entries)
  {
    if s != [] {
      var front, last := s[..|s| - 1], s[|s| - 1];
      PutAllHolds(entries, front, x);
      PutDistinct(PutAll(entries, front), last);
      PutExact(PutAll(entries, front), last, x);
    }
  }

  /** Putting a listed family changes no place. */
  lemma {:induction false} PutInPlace(entries: seq<Anomaly>, a: Anomaly)
    requires Family(a) in Families(entries)
    ensures Families(Put(entries, a)) == Families(entries)
  {
    var rest := entries[1..];
    assert Families(entries) == [Family(entries[0])] + Families(rest);
    if Family(entries[0]) != Family(a) {
      PutInPlace(rest, a);
      assert Families([entries[0]] + Put(rest, a)) == [Family(entries[0])] + Families(Put(rest, a));
    } else {
      assert Families([a] + rest) == [Family(a)] + Families(rest);
    }
  }

  lemma {:induction false} PutAllInPlace(entries: seq<Anomaly>, s: seq<Anomaly>)
    requires forall x :: x in s ==> Family(x) in Families(entries)
    ensures Families(PutAll(entries, s)) == Families(entries)
  {
    if s != [] {
      var front, last := s[..|s| - 1], s[|s| - 1];
      PutAllInPlace(entries, front);
      assert last in s;
      PutInPlace(PutAll(entries, front), last);
    }
  }

  /** Equal up to the windows and the persistence a merge sets. */
  ghost predicate SameFinding(a: Anomaly, b: Anomaly) { Label(a, {}) == Label(b, {}) }

  /** Every family listed later is one of the full window's, with its anomaly as last report. */
  ghost predicate Agrees(full: seq<Anomaly>, later: seq<Anomaly>) {
    forall f :: LastOf(later, f).Some? ==> Retold(full, LastOf(later, f).value)
  }

  ghost predicate Retold(full: seq<Anomaly>, a: Anomaly) {
    exists i :: 0 <= i < |full| && SameFinding(full[i], a)
  }

  lemma {:induction false} LastOfMember(s: seq<Anomaly>, f: (Kind, Path))
    ensures LastOf(s, f).Some? <==> f in Families(s)
    ensures LastOf(s, f).Some? ==> LastOf(s, f).value in s && Family(LastOf(s, f).value) == f
  {
    if s != [] {
      var front, last := s[..|s| - 1], s[|s| - 1];
      LastOfMember(front, f);
      assert s == front + [last];
      assert Families(s) == Families(front) + [Family(last)];
    }
  }

  /** When later reports agree, every entry keeps its place and its finding. */
  lemma AgreeingEntries(full: seq<Anomaly>, later: seq<Anomaly>)
    requires NoDup(Families(full)) && Agrees(full, later)
    ensures Families(PutAll(full, later)) == Families(full)
    ensures forall i :: 0 <= i < |full| ==> |PutAll(full, later)| == |full| && SameFinding(PutAll(full, later)[i], full[i])
  {
    forall x | x in later
      ensures Family(x) in Families(full)
    {
      FamilyListed(later, x);
      LastOfMember(later, Family(x));
      var i :| 0 <= i < |full| && SameFinding(full[i], LastOf(later, Family(x)).value);
      assert Families(full)[i] == Family(x);
    }
    PutAllInPlace(full, later);
    var entries := PutAll(full, later);
    assert |Families(entries)| == |entries| && |Families(full)| == |full|;
    forall i | 0 <= i < |full|
      ensures SameFinding(entries[i], full[i])
    {
      var x := entries[i];
      assert Families(entries)[i] == Family(x) && Families(full)[i] == Family(full[i]);
      PutAllHolds(full, later, x);
      if LastOf(later, Family(x)) == Some(x) {
        var j :| 0 <= j < |full| && SameFinding(full[j], x);
        assert Families(full)[j] == Family(x);
      } else {
        var j :| 0 <= j < |full| && full[j] == x;
        assert Families(full)[j] == Family(x);
      }
    }
  }

  lemma LabelledSorted(full: seq<Anomaly>, all: seq<Analysed>)
    requires Sorted(full)
    ensures SortAnomalies(LabelAll(full, all)) == LabelAll(full, all)
  {
    var labelled := LabelAll(full, all);
    assert forall i, j :: 0 <= i < j < |full| ==> Leq(full[i], full[j]) && Leq(labelled[i], labelled[j]);
    SortIdempotent(labelled);
  }

  lemma FullEntries(full: seq<Anomaly>, windows: seq<Analysed>)
    requires NoDup(Families(full))
    ensures PutAll([], FullList([Analysed(FULL, full)] + windows)) == PutAll(full, FullList(windows))
  {
    FullListSplit(full, windows);
    PutAllJoin([], full, FullList(windows));
    PutAllDistinct(full);
  }

  lemma AgreeingMerge(full: seq<Anomaly>, windows: seq<Analysed>)
    requires Sorted(full) && NoDup(Families(full)) && Agrees(full, FullList(windows))
    ensures Merged([Analysed(FULL, full)] + windows) == LabelAll(full, [Analysed(FULL, full)] + windows)
  {
    var all := [Analysed(FULL, full)] + windows;
    FullEntries(full, windows);
    AgreeingEntries(full, FullList(windows));
    var entries := PutAll(full, FullList(windows));
    assert |Families(entries)| == |entries| && |Families(full)| == |full|;
    forall i | 0 <= i < |full|
      ensures LabelAll(entries, all)[i] == LabelAll(full, all)[i]
    {
      assert Families(entries)[i] == Families(full)[i];
    }
    assert LabelAll(entries, all) == LabelAll(full, all);
    LabelledSorted(full, all);
  }

  lemma MergeAgrees(full: seq<Anomaly>, windows: seq<Analysed>)
    requires NoDup(Families(full))
    requires Merged([Analysed(FULL, full)] + windows) == LabelAll(full, [Analysed(FULL, full)] + windows)
    ensures Agrees(full, FullList(windows))
  {
    var all, later := [Analysed(FULL, full)] + windows, FullList(windows);
    FullEntries(full, windows);
    var entries := PutAll(full, later);
    forall f | LastOf(later, f).Some?
      ensures Retold(full, LastOf(later, f).value)
    {
      var a := LastOf(later, f).value;
      LastOfMember(later, f);
      PutAllHolds(full, later, a);
      var k :| 0 <= k < |entries| && entries[k] == a;
      var labelled := LabelAll(entries, all)[k];
      assert labelled in multiset(LabelAll(entries, all));
      assert labelled in LabelAll(full, all);
      var i :| 0 <= i < |full| && LabelAll(full, all)[i] == labelled;
      assert SameFinding(full[i], a);
    }
  }

  /** The merge is the full window's analysis, in order, with only the windows and the
      persistence set, exactly when every family a sub-window named "full" reports is one of
      the full window's and its last such report is the same finding. */
  lemma MergeKeepsFullIff(full: seq<Anomaly>, windows: seq<Analysed>)
    requires Sorted(full) && NoDup(Families(full))
    ensures Merged([Analysed(FULL, full)] + windows) == LabelAll(full, [Analysed(FULL, full)] + windows) <==>
            Agrees(full, FullList(windows))
  {
    if Agrees(full, FullList(windows)) {
      AgreeingMerge(full, windows);
    } else if Merged([Analysed(FULL, full)] + windows) == LabelAll(full, [Analysed(FULL, full)] + windows) {
      MergeAgrees(full, windows);
    }
  }

  /** With no sub-window named "full", merging keeps the full-window anomalies. */
  lemma MergeKeepsFull(full: seq<Anomaly>, windows: seq<Analysed>)
    requires Sorted(full) && NoDup(Families(full))
    requires forall w :: w in windows ==> w.name != FULL
    ensures Merged([Analysed(FULL, full)] + windows) == LabelAll(full, [Analysed(FULL, full)] + windows)
  {
    NoFullList(windows);
    MergeKeepsFullIff(full, windows);
  }

  /** A sub-window named "full" replaces the full window's anomaly of the same family. */
  lemma WindowNamedFullReplaces(a: Anomaly, b: Anomaly)
    requires Family(a) == Family(b) && !SameFinding(a, b)
    ensures var all := [Analysed(FULL, [a])] + [Analysed(FULL, [b])];
            && Merged(all) == LabelAll([b], all)
            && Merged(all) != LabelAll([a], all)
  {
    var w := Analysed(FULL, [b]);
    var all := [Analysed(FULL, [a])] + [w];
    assert Families([a]) == [Family(a)];
    FullEntries([a], [w]);
    assert [w][..0] == [] && [b][..0] == [];
    assert FullList([w]) == FullList([]) + [b];
    assert PutAll([a], [b]) == Put(PutAll([a], []), b) == [b];
    LabelledSorted([b], all);
    assert LabelAll([b], all)[0] != LabelAll([a], all)[0];
  }

  /** A family's windows are the analyses that reported it. */
  lemma {:induction false} SeenExactly(analyses: seq<Analysed>, f: (Kind, Path), name: string)
    ensures name in SeenIn(analyses, f) <==>
            exists i :: 0 <= i < |analyses| && analyses[i].name == name && Has(analyses[i].anomalies, f)
  {
    if analyses != [] {
      var n := |analyses| - 1;
      SeenExactly(analyses[..n], f, name);
      assert forall i :: 0 <= i < n ==> analyses[..n][i] == analyses[i];
    }
  }

  /** Analysis `i` has the given name and reports the family. */
  ghost predicate Tells(analyses: seq<Analysed>, i: nat, name: string, f: (Kind, Path)) {
    i < |analyses| && analyses[i].name == name && Has(analyses[i].anomalies, f)
  }

  ghost predicate Told(analyses: seq<Analysed>, name: string, f: (Kind, Path)) {
    exists i: nat :: Tells(analyses, i, name, f)
  }

  lemma ToldSeen(analyses: seq<Analysed>, name: string, f: (Kind, Path))
    ensures name in SeenIn(analyses, f) <==> Told(analyses, name, f)
  {
    SeenExactly(analyses, f, name);
    if name in SeenIn(analyses, f) {
      var i :| 0 <= i < |analyses| && analyses[i].name == name && Has(analyses[i].anomalies, f);
      assert Tells(analyses, i, name, f);
    }
  }

  /** A merged anomaly lasts as long as the early and the steady windows tell: in both it is
      persistent, in one it is of that one only, in neither it is of the full window. */
  lemma MergedLasting(analyses: seq<Analysed>, x: Anomaly)
    requires x in Merged(analyses)
    ensures forall name :: name in x.windows <==> Told(analyses, name, Family(x))
    ensures x.persistence == Persistent <==> Told(analyses, "early", Family(x)) && Told(analyses, "steady", Family(x))
    ensures x.persistence == EarlyOnly <==> Told(analyses, "early", Family(x)) && !Told(analyses, "steady", Family(x))
    ensures x.persistence == SteadyOnly <==> !Told(analyses, "early", Family(x)) && Told(analyses, "steady", Family(x))
    ensures x.persistence == FullWindow <==> !Told(analyses, "early", Family(x)) && !Told(analyses, "steady", Family(x))
  {
    var entries := PutAll([], FullList(analyses));
    var labelled := LabelAll(entries, analyses);
    assert x in multiset(labelled);
    var i :| 0 <= i < |labelled| && labelled[i] == x;
    assert x == Label(entries[i], SeenIn(analyses, Family(entries[i])));
    assert Family(x) == Family(entries[i]);
    forall name
      ensures name in x.windows <==> Told(analyses, name, Family(x))
    {
      ToldSeen(analyses, name, Family(x));
    }
    assert "early" in x.windows <==> Told(analyses, "early", Family(x));
    assert "steady" in x.windows <==> Told(analyses, "steady", Family(x));
  }

  lemma LabelledFamilies(s: seq<Anomaly>, analyses: seq<Analysed>)
    ensures Families(LabelAll(s, analyses)) == Families(s)
  {
  }

  /** The merge reports exactly the families of the analyses named "full", each once. */
  lemma MergedFamilies(analyses: seq<Analysed>)
    ensures NoDup(Families(Merged(analyses)))
    ensures Elems(Families(Merged(analyses))) == Elems(Families(FullList(analyses)))
  {
    var list := FullList(analyses);
    var entries := PutAll([], list);
    PutAllExact(list);
    LabelledFamilies(entries, analyses);
    FamiliesPermuted(LabelAll(entries, analyses), Merged(analyses));
    forall f | f in Families(entries) ensures f in Families(list) {
      var a := FamilyHolder(entries, f);
      FamilyListed(list, a);
    }
    forall f | f in Families(list) ensures f in Families(entries) {
      var a := FamilyHolder(list, f);
    }
  }

  lemma {:induction false} FullFamilies(analyses: seq<Analysed>, f: (Kind, Path))
    ensures f in Families(FullList(analyses)) <==>
            exists i :: 0 <= i < |analyses| && analyses[i].name == FULL && f in Families(analyses[i].anomalies)
  {
    if analyses != [] {
      var n := |analyses| - 1;
      var front, last := FullList(analyses[..n]), analyses[n];
      FullFamilies(analyses[..n], f);
      assert forall i :: 0 <= i < n ==> analyses[..n][i] == analyses[i];
      assert last.name == FULL ==> Families(FullList(analyses)) == Families(front) + Families(last.anomalies);
      assert last.name != FULL ==> FullList(analyses) == front;
    }
  }

  /** Sub-windows leave the reported families alone exactly when those named "full" report no
      family of their own; which anomaly stands for a family is `MergeKeepsFullIff`. */
  lemma MergeAddsNothingIff(full: seq<Anomaly>, windows: seq<Analysed>)
    ensures Elems(Families(Merged([Analysed(FULL, full)] + windows))) == Elems(Families(full)) <==>
            forall w :: w in windows && w.name == FULL ==> Elems(Families(w.anomalies)) <= Elems(Families(full))
  {
    var all := [Analysed(FULL, full)] + windows;
    MergedFamilies(all);
    var merged := Elems(Families(Merged(all)));
    assert all[0].anomalies == full;
    forall f ensures f in merged <==>
                     f in Families(full) || exists w :: w in windows && w.name == FULL && f in Families(w.anomalies)
    {
      FullFamilies(all, f);
      if exists w :: w in windows && w.name == FULL && f in Families(w.anomalies) {
        var w :| w in windows && w.name == FULL && f in Families(w.anomalies);
        var i :| 0 <= i < |windows| && windows[i] == w;
        assert all[i + 1] == w;
      }
    }
    if forall w :: w in windows && w.name == FULL ==> Elems(Families(w.anomalies)) <= Elems(Families(full)) {
      assert forall f :: f in merged <==> f in Elems(Families(full));
    } else {
      var w :| w in windows && w.name == FULL && !(Elems(Families(w.anomalies)) <= Elems(Families(full)));
      var f :| f in Elems(Families(w.anomalies)) && f !in Elems(Families(full));
      assert f in merged;
    }
  }

  /** The name "full" is not reserved: a sub-window so named adds its own anomalies. */
  lemma WindowNamedFullAdds(a: Anomaly)
    ensures Family(a) in Elems(Families(Merged([Analysed(FULL, []), Analysed(FULL, [a])])))
  {
    var w := Analysed(FULL, [a]);
    MergeAddsNothingIff([], [w]);
    assert [Analysed(FULL, [])] + [w] == [Analysed(FULL, []), w];
    MergedFamilies([Analysed(FULL, []), w]);
    FullFamilies([Analysed(FULL, []), w], Family(a));
    assert Families(w.anomalies)[0] == Family(a);
    assert [Analysed(FULL, []), w][1].name == FULL;
  }

  // ---------------------------------------------------------------- the windowed report

  function WindowName(w: Window): string { if w.name == "" then "window" else w.name }

  /** A window analysed on its own slice. */
  function WindowAnalysis(l: Limits, base: seq<ProbeRow>, cur: seq<ProbeRow>, w: Window): Analysed {
    Analysed(WindowName(w), Analysis(l, base, Slice(cur, w.start, w.end)))
  }

  function Sliced(l: Limits, base: seq<ProbeRow>, cur: seq<ProbeRow>, windows: seq<Window>): seq<Analysed> {
    if windows == [] then [] else
      Sliced(l, base, cur, windows[..|windows| - 1]) + [WindowAnalysis(l, base, cur, windows[|windows| - 1])]
  }

  /** One window, reusing the full analysis when the slice holds the whole snapshot. */
  method AnalyzeWindow(l: Limits, base: seq<ProbeRow>, cur: seq<ProbeRow>, full: seq<Anomaly>, w: Window) returns (r: Analysed)
    requires full == Analysis(l, base, cur)
    ensures r == WindowAnalysis(l, base, cur, w)
  {
    var rows := SliceRows(cur, w.start, w.end);
    if |rows| == |cur| {
      r := Analysed(WindowName(w), full);
    } else {
      var own, _ := AnalyzeSnapshot(l, base, rows);
      r := Analysed(WindowName(w), own);
    }
  }

  lemma {:induction false} SlicedNames(l: Limits, base: seq<ProbeRow>, cur: seq<ProbeRow>, windows: seq<Window>, a: Analysed)
    requires a in Sliced(l, base, cur, windows)
    ensures exists w :: w in windows && a == WindowAnalysis(l, base, cur, w)
  {
    var front, last := windows[..|windows| - 1], windows[|windows| - 1];
    if a in Sliced(l, base, cur, front) {
      SlicedNames(l, base, cur, front, a);
      var w :| w in front && a == WindowAnalysis(l, base, cur, w);
      assert w in windows;
    } else {
      assert last in windows;
    }
  }

  /** The loop over the windows. */
  method AnalyzeWindows(l: Limits, base: seq<ProbeRow>, cur: seq<ProbeRow>, full: seq<Anomaly>, windows: seq<Window>)
    returns (analyses: seq<Analysed>)
    requires full == Analysis(l, base, cur)
    ensures analyses == [Analysed(FULL, full)] + Sliced(l, base, cur, windows)
  {
    var rest: seq<Analysed> := [];
    for j := 0 to |windows|
      invariant rest == Sliced(l, base, cur, windows[..j])
    {
      var next := AnalyzeWindow(l, base, cur, full, windows[j]);
      SlicedStep(l, base, cur, windows, j);
      rest := rest + [next];
    }
    assert windows[..|windows|] == windows;
    analyses := [Analysed(FULL, full)] + rest;
  }

  lemma SlicedStep(l: Limits, base: seq<ProbeRow>, cur: seq<ProbeRow>, windows: seq<Window>, j: nat)
    requires j < |windows|
    ensures Sliced(l, base, cur, windows[..j + 1]) ==
            Sliced(l, base, cur, windows[..j]) + [WindowAnalysis(l, base, cur, windows[j])]
  {
    assert windows[..j + 1][..j] == windows[..j];
  }

  /** The analyses the windowed report merges. */
  function Windowed(l: Limits, base: seq<ProbeRow>, cur: seq<ProbeRow>, windows: seq<Window>): seq<Analysed> {
    [Analysed(FULL, Analysis(l, base, cur))] + Sliced(l, base, cur, windows)
  }

  /** The report is the full analysis with its labels exactly when the windows named "full"
      agree with it. */
  lemma WindowedKeepsFullIff(l: Limits, base: seq<ProbeRow>, cur: seq<ProbeRow>, windows: seq<Window>)
    ensures Merged(Windowed(l, base, cur, windows)) == LabelAll(Analysis(l, base, cur), Windowed(l, base, cur, windows)) <==>
            Agrees(Analysis(l, base, cur), FullList(Sliced(l, base, cur, windows)))
  {
    AnalysisReports(l, base, cur);
    MergeKeepsFullIff(Analysis(l, base, cur), Sliced(l, base, cur, windows));
  }

  /** With no window named "full", the report is the full analysis with its labels. */
  lemma WindowedKeepsFull(l: Limits, base: seq<ProbeRow>, cur: seq<ProbeRow>, windows: seq<Window>)
    requires forall w :: w in windows ==> w.name != FULL
    ensures Merged(Windowed(l, base, cur, windows)) ==
            LabelAll(Analysis(l, base, cur), Windowed(l, base, cur, windows))
  {
    AnalysisReports(l, base, cur);
    forall a | a in Sliced(l, base, cur, windows) ensures a.name != FULL {
      SlicedNames(l, base, cur, windows, a);
    }
    MergeKeepsFull(Analysis(l, base, cur), Sliced(l, base, cur, windows));
  }

  /** `generate_windowed_anomaly_report` once the snapshots are read. */
  method WindowedAnomalies(l: Limits, base: seq<ProbeRow>, cur: seq<ProbeRow>, windows: seq<Window>)
    returns (merged: seq<Anomaly>, quality: Quality)
    ensures Counts(quality, l, base, cur)
    ensures merged == Merged(Windowed(l, base, cur, windows))
  {
    var full, counts := AnalyzeSnapshot(l, base, cur);
    var analyses := AnalyzeWindows(l, base, cur, full, windows);
    merged := MergeWindows(analyses);
    quality := counts;
  }
}
