/** The BGP transition tracker (netopsbench/platform/observability/bgp_collector.py:94-97,
    162-282). Line protocol text is abstracted to the values a line carries. */
module BgpTracker {
  import opened Options
  import opened FabricGraph
  import opened Counting

  /** One neighbour as a poll reports it; `state` is the raw text, empty when absent. */
  datatype Peer = Peer(state: string, asn: Option<int>, prefixes: Option<int>)

  datatype Report = Report(neighbor: Name, peer: Peer)

  datatype EventKind = SessionDown | SessionRecovered | StateChanged

  datatype Line =
    | Heartbeat(device: Name, ok: bool)
    | Transition(device: Name, neighbor: Name, previous: string, latest: string, kind: EventKind,
                 asn: Option<int>, prefixesBefore: Option<int>, prefixesAfter: Option<int>)
    | PrefixCount(device: Name, neighbor: Name, before: int, after: int)

  const ESTABLISHED := "ESTABLISHED"
  const MISSING := "MISSING"

  // ---------------------------------------------------------------- states

  /** The ASCII characters that `strip` removes. */
  predicate IsSpace(c: char) { c == ' ' || '\t' <= c <= '\r' || '\U{1C}' <= c <= '\U{1F}' }

  function StripLeft(s: string): string {
    if s != [] && IsSpace(s[0]) then StripLeft(s[1..]) else s
  }

  function StripRight(s: string): string {
    if s != [] && IsSpace(s[|s| - 1]) then StripRight(s[..|s| - 1]) else s
  }

  function Upper(s: string): string {
    seq(|s|, i requires 0 <= i < |s| => if 'a' <= s[i] <= 'z' then s[i] - 'a' + 'A' else s[i])
  }

  /** `normalize_bgp_state`. */
  function Normalize(s: string): string {
    if s == "" then "UNKNOWN" else Upper(StripRight(StripLeft(s)))
  }

  lemma NormalizeMissing()
    ensures Normalize(MISSING) == MISSING
  {
    assert StripLeft(MISSING) == MISSING;
    assert StripRight(MISSING) == MISSING;
  }

  function KindOf(previous: string, latest: string): EventKind {
    if previous == ESTABLISHED && latest != ESTABLISHED then SessionDown
    else if previous != ESTABLISHED && latest == ESTABLISHED then SessionRecovered
    else StateChanged
  }

  /** `build_bgp_transition_line`: the AS number of the latest poll, or else of the one before. */
  function TransitionLine(device: Name, neighbor: Name, previous: Peer, latest: Peer): Line {
    Transition(device, neighbor, Normalize(previous.state), Normalize(latest.state),
               KindOf(Normalize(previous.state), Normalize(latest.state)),
               if latest.asn.Some? then latest.asn else previous.asn, previous.prefixes, latest.prefixes)
  }

  lemma StripLeftSpace(c: char, s: string)
    requires IsSpace(c)
    ensures StripLeft([c] + s) == StripLeft(s)
  {
    assert ([c] + s)[1..] == s;
  }

  lemma {:induction false} StripLeftEnds(s: string)
    ensures StripLeft(s) == "" || !IsSpace(StripLeft(s)[0])
    ensures forall t: string :: StripLeft(s) != "" ==> StripLeft(s + t) == StripLeft(s) + t
  {
    if s != [] && IsSpace(s[0]) {
      StripLeftEnds(s[1..]);
      forall t: string | StripLeft(s) != ""
        ensures StripLeft(s + t) == StripLeft(s) + t
      {
        assert (s + t)[1..] == s[1..] + t;
      }
    }
  }

  lemma {:induction false} StripRightEnds(s: string)
    ensures StripRight(s) <= s
    ensures StripRight(s) == "" || !IsSpace(StripRight(s)[|StripRight(s)| - 1])
  {
    if s != [] && IsSpace(s[|s| - 1]) {
      StripRightEnds(s[..|s| - 1]);
    }
  }

  /** A normalized state has no white space at its ends and no lower-case letter. */
  lemma NormalizeTrims(s: string)
    ensures var r := Normalize(s);
            && (r == "" || (!IsSpace(r[0]) && !IsSpace(r[|r| - 1])))
            && forall i :: 0 <= i < |r| ==> !('a' <= r[i] <= 'z')
  {
    StripLeftEnds(s);
    StripRightEnds(StripLeft(s));
    var stripped := StripRight(StripLeft(s));
    assert forall i :: 0 <= i < |stripped| ==> (IsSpace(Upper(stripped)[i]) <==> IsSpace(stripped[i]));
  }

  /** Leading and trailing white space does not matter to a state that has something else. */
  lemma NormalizeSpace(s: string, c: char)
    requires IsSpace(c) && s != ""
    ensures Normalize([c] + s) == Normalize(s)
    ensures Normalize(s + [c]) == Normalize(s)
  {
    StripLeftSpace(c, s);
    StripLeftEnds(s);
    if StripLeft(s) != "" {
      assert StripLeft(s + [c]) == StripLeft(s) + [c];
      assert (StripLeft(s) + [c])[..|StripLeft(s)|] == StripLeft(s);
    } else {
      AllSpace(s, c);
    }
  }

  lemma {:induction false} AllSpace(s: string, c: char)
    requires IsSpace(c) && StripLeft(s) == ""
    ensures StripLeft(s + [c]) == ""
  {
    if s == [] {
      assert s + [c] == [c];
      assert [c][1..] == [];
    } else {
      AllSpace(s[1..], c);
      assert (s + [c])[1..] == s[1..] + [c];
    }
  }

  /** Neither does the case of its letters; what is left is the text itself. */
  lemma NormalizeKeeps(s: string)
    requires s != "" && !IsSpace(s[0]) && !IsSpace(s[|s| - 1])
    ensures |Normalize(s)| == |s|
    ensures forall i :: 0 <= i < |s| ==> Normalize(s)[i] == if 'a' <= s[i] <= 'z' then s[i] - 'a' + 'A' else s[i]
    ensures Normalize("") == "UNKNOWN"
  {
  }

  // ---------------------------------------------------------------- one neighbour, one poll

  type Table = map<(Name, Name), Peer>

  function Lookup(t: Table, d: Name, n: Name): Option<Peer> {
    if (d, n) in t then Some(t[(d, n)]) else None
  }

  function Seen(observed: map<Name, Peer>, n: Name): Option<Peer> {
    if n in observed then Some(observed[n]) else None
  }

  /** What a successful poll makes of one neighbour's entry. */
  function StepPeer(previous: Option<Peer>, current: Option<Peer>): Option<Peer> {
    match current
    case Some(c) => Some(c)
    case None =>
      if previous.Some? && Normalize(previous.value.state) != MISSING
      then Some(previous.value.(state := MISSING, prefixes := None)) else previous
  }

  /** The lines that go with it: a transition if the normalized state changed, and a prefix
      count if both polls carry one and they differ. */
  function StepLines(d: Name, n: Name, previous: Option<Peer>, current: Option<Peer>): seq<Line> {
    var next := StepPeer(previous, current);
    if previous.None? || next.None? then [] else
      (if Normalize(previous.value.state) != Normalize(next.value.state)
       then [TransitionLine(d, n, previous.value, next.value)] else [])
      + (if previous.value.prefixes.Some? && next.value.prefixes.Some? && previous.value.prefixes != next.value.prefixes
         then [PrefixCount(d, n, previous.value.prefixes.value, next.value.prefixes.value)] else [])
  }

  predicate Concerns(x: Line, d: Name, n: Name) {
    !x.Heartbeat? && x.device == d && x.neighbor == n
  }

  /** The lines of one neighbour among a list of lines. */
  function LinesOf(lines: seq<Line>, d: Name, n: Name): seq<Line> {
    if lines == [] then [] else
      var last := lines[|lines| - 1];
      LinesOf(lines[..|lines| - 1], d, n)
      + if Concerns(last, d, n) then [last] else []
  }

  /** The reported neighbours by name: rows without a name are skipped, the last row of a name wins. */
  function Observed(rows: seq<Report>): map<Name, Peer> {
    if rows == [] then map[] else
      var last := rows[|rows| - 1];
      if last.neighbor == "" then Observed(rows[..|rows| - 1])
      else Observed(rows[..|rows| - 1])[last.neighbor := last.peer]
  }

  /** The table after a successful poll of `d`. */
  function NextTable(t: Table, d: Name, observed: map<Name, Peer>): Table {
    var merged := t + map n | n in observed :: (d, n) := observed[n];
    map k | k in merged :: if k.0 == d && k.1 !in observed then StepPeer(Lookup(t, k.0, k.1), None).value else merged[k]
  }

  lemma NextTableLookup(t: Table, device: Name, observed: map<Name, Peer>, d: Name, n: Name)
    ensures Lookup(NextTable(t, device, observed), d, n) ==
            if d == device then StepPeer(Lookup(t, d, n), Seen(observed, n)) else Lookup(t, d, n)
  {
  }

  lemma SameLookups(t: Table, u: Table)
    requires forall d, n :: Lookup(t, d, n) == Lookup(u, d, n)
    ensures t == u
  {
    forall k: (Name, Name)
      ensures k in t <==> k in u
      ensures k in t && k in u ==> t[k] == u[k]
    {
      assert Lookup(t, k.0, k.1) == Lookup(u, k.0, k.1);
    }
  }

  // ---------------------------------------------------------------- the loops of one poll

  /** Entry and lines of `(d, n)` once the neighbours in `done` have been handled. */
  ghost predicate EntryDone(t0: Table, t: Table, lines: seq<Line>, device: Name, observed: map<Name, Peer>,
                            done: set<Name>, d: Name, n: Name)
  {
    if d == device && n in done
    then Lookup(t, d, n) == StepPeer(Lookup(t0, d, n), Seen(observed, n))
         && LinesOf(lines, d, n) == StepLines(d, n, Lookup(t0, d, n), Seen(observed, n))
    else Lookup(t, d, n) == Lookup(t0, d, n) && LinesOf(lines, d, n) == []
  }

  ghost predicate Handled(t0: Table, t: Table, lines: seq<Line>, device: Name, observed: map<Name, Peer>, done: set<Name>) {
    forall d, n {:trigger EntryDone(t0, t, lines, device, observed, done, d, n)} ::
      EntryDone(t0, t, lines, device, observed, done, d, n)
  }

  lemma {:induction false} LinesJoin(a: seq<Line>, b: seq<Line>, d: Name, n: Name)
    ensures LinesOf(a + b, d, n) == LinesOf(a, d, n) + LinesOf(b, d, n)
  {
    if b == [] {
      assert a + b == a;
    } else {
      LinesJoin(a, b[..|b| - 1], d, n);
      assert (a + b)[..|a + b| - 1] == a + b[..|b| - 1];
    }
  }

  /** The lines of one neighbour concern it alone. */
  lemma StepLinesOf(device: Name, n: Name, previous: Option<Peer>, current: Option<Peer>, d: Name, m: Name)
    ensures LinesOf(StepLines(device, n, previous, current), d, m) ==
            if d == device && m == n then StepLines(device, n, previous, current) else []
  {
    var lines := StepLines(device, n, previous, current);
    assert forall x :: x in lines ==> Concerns(x, device, n);
    ConcerningLines(lines, device, n, d, m);
  }

  lemma {:induction false} ConcerningLines(lines: seq<Line>, device: Name, n: Name, d: Name, m: Name)
    requires forall x :: x in lines ==> Concerns(x, device, n)
    ensures LinesOf(lines, d, m) == if d == device && m == n then lines else []
  {
    if lines != [] {
      var front, last := lines[..|lines| - 1], lines[|lines| - 1];
      assert lines == front + [last];
      assert last in lines;
      ConcerningLines(front, device, n, d, m);
    }
  }

  /** One more neighbour handled: its entry moves and its lines are appended. */
  lemma HandleOne(t0: Table, t: Table, lines: seq<Line>, device: Name, observed: map<Name, Peer>, done: set<Name>,
                  n: Name, t': Table)
    requires Handled(t0, t, lines, device, observed, done) && n !in done
    requires forall d, m :: Lookup(t', d, m) ==
               if d == device && m == n then StepPeer(Lookup(t, d, m), Seen(observed, m)) else Lookup(t, d, m)
    ensures Lookup(t, device, n) == Lookup(t0, device, n)
    ensures Handled(t0, t', lines + StepLines(device, n, Lookup(t0, device, n), Seen(observed, n)), device, observed, done + {n})
  {
    var extra := StepLines(device, n, Lookup(t0, device, n), Seen(observed, n));
    assert EntryDone(t0, t, lines, device, observed, done, device, n);
    forall d, m
      ensures EntryDone(t0, t', lines + extra, device, observed, done + {n}, d, m)
    {
      assert EntryDone(t0, t, lines, device, observed, done, d, m);
      LinesJoin(lines, extra, d, m);
      StepLinesOf(device, n, Lookup(t0, device, n), Seen(observed, n), d, m);
    }
  }

  /** One neighbour of the loop over `current_rows`. */
  method TrackOne(t: Table, lines0: seq<Line>, device: Name, n: Name, current: Peer) returns (t': Table, lines: seq<Line>)
    ensures forall d, m :: Lookup(t', d, m) == if d == device && m == n then Some(current) else Lookup(t, d, m)
    ensures lines == lines0 + StepLines(device, n, Lookup(t, device, n), Some(current))
  {
    var added: seq<Line> := [];
    if (device, n) in t {
      var previous := t[(device, n)];
      if Normalize(previous.state) != Normalize(current.state) {
        added := [TransitionLine(device, n, previous, current)];
      }
      if previous.prefixes.Some? && current.prefixes.Some? && previous.prefixes.value != current.prefixes.value {
        added := added + [PrefixCount(device, n, previous.prefixes.value, current.prefixes.value)];
      }
    }
    lines := lines0 + added;
    t' := t[(device, n) := current];
  }

  /** One key of the loop over `missing_keys`. */
  method DropOne(t: Table, lines0: seq<Line>, device: Name, n: Name) returns (t': Table, lines: seq<Line>)
    requires (device, n) in t
    ensures forall d, m :: Lookup(t', d, m) ==
                           if d == device && m == n then StepPeer(Lookup(t, d, m), None) else Lookup(t, d, m)
    ensures lines == lines0 + StepLines(device, n, Lookup(t, device, n), None)
  {
    t', lines := t, lines0;
    var previous := t[(device, n)];
    if Normalize(previous.state) != MISSING {
      var missing := previous.(state := MISSING, prefixes := None);
      NormalizeMissing();
      lines := lines0 + [TransitionLine(device, n, previous, missing)];
      t' := t[(device, n) := missing];
    }
  }

  /** The reported neighbours in order of first appearance. */
  function RowOrder(rows: seq<Report>): seq<Name> {
    if rows == [] then [] else
      var before, n := RowOrder(rows[..|rows| - 1]), rows[|rows| - 1].neighbor;
      if n == "" || n in before then before else before + [n]
  }

  /** The dictionary of the poll's rows, its keys in insertion order. */
  method CollectRows(rows: seq<Report>) returns (order: seq<Name>, observed: map<Name, Peer>)
    ensures observed == Observed(rows) && order == RowOrder(rows)
    ensures NoDup(order) && Elems(order) == observed.Keys
  {
    order, observed := [], map[];
    for k := 0 to |rows|
      invariant observed == Observed(rows[..k]) && order == RowOrder(rows[..k])
      invariant NoDup(order) && Elems(order) == observed.Keys
    {
      assert rows[..k + 1][..k] == rows[..k];
      if rows[k].neighbor != "" {
        if rows[k].neighbor !in observed {
          order := order + [rows[k].neighbor];
        }
        observed := observed[rows[k].neighbor := rows[k].peer];
      }
    }
    assert rows[..|rows|] == rows;
  }

  /** The lines of several neighbours, one after the other. */
  function LinesFor(t: Table, device: Name, names: seq<Name>, observed: map<Name, Peer>): seq<Line> {
    if names == [] then [] else
      var n := names[|names| - 1];
      LinesFor(t, device, names[..|names| - 1], observed) + StepLines(device, n, Lookup(t, device, n), Seen(observed, n))
  }

  lemma LinesForStep(t: Table, device: Name, names: seq<Name>, observed: map<Name, Peer>, i: nat)
    requires i < |names|
    ensures LinesFor(t, device, names[..i + 1], observed) ==
            LinesFor(t, device, names[..i], observed)
            + StepLines(device, names[i], Lookup(t, device, names[i]), Seen(observed, names[i]))
  {
    assert names[..i + 1][..i] == names[..i];
  }

  /** The tracked neighbours of a device that a poll does not report, in dictionary order. */
  function MissingOf(keys: seq<(Name, Name)>, device: Name, observed: map<Name, Peer>): seq<Name> {
    if keys == [] then [] else
      var before, k := MissingOf(keys[..|keys| - 1], device, observed), keys[|keys| - 1];
      if k.0 == device && k.1 !in observed then before + [k.1] else before
  }

  lemma {:induction false} MissingMember(keys: seq<(Name, Name)>, device: Name, observed: map<Name, Peer>, n: Name)
    ensures n in MissingOf(keys, device, observed) <==> (device, n) in keys && n !in observed
  {
    if keys != [] {
      MissingMember(keys[..|keys| - 1], device, observed, n);
      assert keys == keys[..|keys| - 1] + [keys[|keys| - 1]];
    }
  }

  lemma {:induction false} MissingDistinct(keys: seq<(Name, Name)>, device: Name, observed: map<Name, Peer>)
    requires NoDup(keys)
    ensures NoDup(MissingOf(keys, device, observed))
  {
    if keys != [] {
      var front, last := keys[..|keys| - 1], keys[|keys| - 1];
      MissingDistinct(front, device, observed);
      MissingMember(front, device, observed, last.1);
    }
  }

  /** The keys of the dictionary once the listed neighbours of a device are stored. */
  function KeysAfter(keys: seq<(Name, Name)>, device: Name, names: seq<Name>): seq<(Name, Name)> {
    if names == [] then keys else
      var before, k := KeysAfter(keys, device, names[..|names| - 1]), (device, names[|names| - 1]);
      if k in before then before else before + [k]
  }

  /** Keys a poll reports do not change which ones it misses. */
  lemma {:induction false} MissingKept(keys: seq<(Name, Name)>, device: Name, names: seq<Name>, observed: map<Name, Peer>)
    requires forall n :: n in names ==> n in observed
    ensures MissingOf(KeysAfter(keys, device, names), device, observed) == MissingOf(keys, device, observed)
  {
    if names != [] {
      var front := names[..|names| - 1];
      MissingKept(keys, device, front, observed);
      var before, k := KeysAfter(keys, device, front), (device, names[|names| - 1]);
      assert k.1 in names;
      assert (before + [k])[..|before|] == before;
    }
  }

  /** `keys` lists the keys of the table. */
  ghost predicate Listed(t: Table, keys: seq<(Name, Name)>) { NoDup(keys) && Elems(keys) == t.Keys }

  ghost function Prefix(order: seq<Name>, i: nat): set<Name>
    requires i <= |order|
  {
    set k | 0 <= k < i :: order[k]
  }

  lemma PrefixGrows(order: seq<Name>, i: nat)
    requires i < |order| && NoDup(order)
    ensures order[i] !in Prefix(order, i) && Prefix(order, i + 1) == Prefix(order, i) + {order[i]}
  {
  }

  /** After the first `i` reported neighbours. */
  ghost predicate Reported(t0: Table, keys0: seq<(Name, Name)>, device: Name, order: seq<Name>, observed: map<Name, Peer>,
                           i: nat, t: Table, keys: seq<(Name, Name)>, lines: seq<Line>)
    requires i <= |order|
  {
    && Handled(t0, t, lines, device, observed, Prefix(order, i))
    && lines == [Heartbeat(device, true)] + LinesFor(t0, device, order[..i], observed)
    && Listed(t, keys) && keys == KeysAfter(keys0, device, order[..i])
  }

  /** One round of the loop over the reported neighbours. */
  method TrackRound(ghost t0: Table, ghost keys0: seq<(Name, Name)>, device: Name, order: seq<Name>, observed: map<Name, Peer>,
                    i: nat, t: Table, keys: seq<(Name, Name)>, lines: seq<Line>)
    returns (t': Table, keys': seq<(Name, Name)>, lines': seq<Line>)
    requires NoDup(order) && i < |order| && order[i] in observed
    requires Reported(t0, keys0, device, order, observed, i, t, keys, lines)
    ensures Reported(t0, keys0, device, order, observed, i + 1, t', keys', lines')
  {
    t', lines' := TrackOne(t, lines, device, order[i], observed[order[i]]);
    keys' := if (device, order[i]) in keys then keys else keys + [(device, order[i])];
    ReportedHandled(t0, device, order, observed, i, t, lines, t');
    ReportedLines(t0, device, order, observed, i, lines);
    StoreKey(t, t', keys, device, order[i]);
    assert order[..i + 1][..i] == order[..i];
  }

  lemma ReportedLines(t0: Table, device: Name, order: seq<Name>, observed: map<Name, Peer>, i: nat, lines: seq<Line>)
    requires i < |order| && order[i] in observed
    requires lines == [Heartbeat(device, true)] + LinesFor(t0, device, order[..i], observed)
    ensures lines + StepLines(device, order[i], Lookup(t0, device, order[i]), Some(observed[order[i]])) ==
            [Heartbeat(device, true)] + LinesFor(t0, device, order[..i + 1], observed)
  {
    LinesForStep(t0, device, order, observed, i);
  }

  lemma ReportedHandled(t0: Table, device: Name, order: seq<Name>, observed: map<Name, Peer>, i: nat, t: Table,
                        lines: seq<Line>, t': Table)
    requires NoDup(order) && i < |order| && order[i] in observed
    requires Handled(t0, t, lines, device, observed, Prefix(order, i))
    requires forall d, m :: Lookup(t', d, m) == if d == device && m == order[i] then Some(observed[m]) else Lookup(t, d, m)
    ensures Lookup(t, device, order[i]) == Lookup(t0, device, order[i])
    ensures Handled(t0, t', lines + StepLines(device, order[i], Lookup(t0, device, order[i]), Some(observed[order[i]])),
                    device, observed, Prefix(order, i + 1))
  {
    PrefixGrows(order, i);
    HandleOne(t0, t, lines, device, observed, Prefix(order, i), order[i], t');
  }

  /** The loop over the reported neighbours. */
  method TrackReported(t0: Table, keys0: seq<(Name, Name)>, device: Name, order: seq<Name>, observed: map<Name, Peer>)
    returns (t: Table, keys: seq<(Name, Name)>, lines: seq<Line>)
    requires NoDup(order) && Elems(order) == observed.Keys && Listed(t0, keys0)
    ensures Handled(t0, t, lines, device, observed, observed.Keys)
    ensures lines == [Heartbeat(device, true)] + LinesFor(t0, device, order, observed)
    ensures Listed(t, keys) && keys == KeysAfter(keys0, device, order)
  {
    t, keys, lines := t0, keys0, [Heartbeat(device, true)];
    HandledStart(t0, device, true, observed);
    assert Prefix(order, 0) == {};
    for i := 0 to |order|
      invariant Reported(t0, keys0, device, order, observed, i, t, keys, lines)
    {
      assert order[i] in Elems(order);
      t, keys, lines := TrackRound(t0, keys0, device, order, observed, i, t, keys, lines);
    }
    assert order[..|order|] == order;
    assert Prefix(order, |order|) == observed.Keys;
  }

  lemma StoreKey(t: Table, t': Table, keys: seq<(Name, Name)>, device: Name, n: Name)
    requires Listed(t, keys)
    requires (device, n) in t' && forall d, m :: (d, m) != (device, n) ==> Lookup(t', d, m) == Lookup(t, d, m)
    ensures Listed(t', if (device, n) in keys then keys else keys + [(device, n)])
  {
    assert t'.Keys == t.Keys + {(device, n)} by {
      forall k: (Name, Name)
        ensures k in t'.Keys <==> k in t.Keys + {(device, n)}
      {
        if k != (device, n) {
          assert Lookup(t', k.0, k.1) == Lookup(t, k.0, k.1);
        }
      }
    }
  }

  /** After the first `i` missing neighbours. */
  ghost predicate Dropped(t0: Table, t1: Table, lines1: seq<Line>, device: Name, observed: map<Name, Peer>,
                          missing: seq<Name>, i: nat, t: Table, lines: seq<Line>)
    requires i <= |missing|
  {
    && t.Keys == t1.Keys && Handled(t0, t, lines, device, observed, observed.Keys + Prefix(missing, i))
    && lines == lines1 + LinesFor(t0, device, missing[..i], observed)
  }

  lemma DroppedOne(t0: Table, t1: Table, lines1: seq<Line>, device: Name, observed: map<Name, Peer>,
                   missing: seq<Name>, i: nat, t: Table, lines: seq<Line>, t': Table)
    requires NoDup(missing) && i < |missing| && missing[i] !in observed && (device, missing[i]) in t
    requires Dropped(t0, t1, lines1, device, observed, missing, i, t, lines)
    requires forall d, m :: Lookup(t', d, m) ==
               if d == device && m == missing[i] then StepPeer(Lookup(t, d, m), None) else Lookup(t, d, m)
    ensures var lines' := lines + StepLines(device, missing[i], Lookup(t, device, missing[i]), None);
            Dropped(t0, t1, lines1, device, observed, missing, i + 1, t', lines')
  {
    var done := observed.Keys + Prefix(missing, i);
    PrefixGrows(missing, i);
    assert observed.Keys + Prefix(missing, i + 1) == done + {missing[i]};
    HandleOne(t0, t, lines, device, observed, done, missing[i], t');
    LinesForStep(t0, device, missing, observed, i);
    KeysKept(t, t', device, missing[i]);
  }

  /** The loop over the missing neighbours. */
  method DropMissing(ghost t0: Table, t1: Table, lines1: seq<Line>, device: Name, ghost observed: map<Name, Peer>, missing: seq<Name>)
    returns (t: Table, lines: seq<Line>)
    requires Handled(t0, t1, lines1, device, observed, observed.Keys) && NoDup(missing)
    requires forall n :: n in missing <==> (device, n) in t1 && n !in observed
    ensures t.Keys == t1.Keys && Handled(t0, t, lines, device, observed, observed.Keys + Elems(missing))
    ensures lines == lines1 + LinesFor(t0, device, missing, observed)
  {
    t, lines := t1, lines1;
    assert observed.Keys + Prefix(missing, 0) == observed.Keys;
    for i := 0 to |missing|
      invariant Dropped(t0, t1, lines1, device, observed, missing, i, t, lines)
    {
      assert missing[i] in missing;
      ghost var before, lines' := t, lines;
      t, lines := DropOne(t, lines, device, missing[i]);
      DroppedOne(t0, t1, lines1, device, observed, missing, i, before, lines', t);
    }
    assert missing[..|missing|] == missing;
    assert Prefix(missing, |missing|) == Elems(missing);
  }

  /** The event type of a transition says whether it leaves or enters the established state. */
  ghost predicate KindFits(x: Line) {
    x.Transition? ==>
      && x.previous != x.latest
      && (x.kind == SessionDown <==> x.previous == "ESTABLISHED")
      && (x.kind == SessionRecovered <==> x.latest == "ESTABLISHED")
  }

  lemma StepKindsFit(d: Name, n: Name, previous: Option<Peer>, current: Option<Peer>)
    ensures forall x :: x in StepLines(d, n, previous, current) ==> KindFits(x)
  {
  }

  lemma {:induction false} LineListed(lines: seq<Line>, x: Line, d: Name, n: Name)
    ensures x in lines && Concerns(x, d, n) <==> x in LinesOf(lines, d, n)
  {
    if lines != [] {
      LineListed(lines[..|lines| - 1], x, d, n);
      assert lines == lines[..|lines| - 1] + [lines[|lines| - 1]];
    }
  }

  lemma LinesFit(t: Table, device: Name, lines: seq<Line>, observed: map<Name, Peer>)
    requires forall d, n {:trigger LinesOf(lines, d, n)} :: LinesOf(lines, d, n) ==
               if d == device then StepLines(d, n, Lookup(t, d, n), Seen(observed, n)) else []
    ensures forall x :: x in lines ==> KindFits(x)
  {
    forall x | x in lines
      ensures KindFits(x)
    {
      if x.Transition? {
        LineListed(lines, x, x.device, x.neighbor);
        StepKindsFit(x.device, x.neighbor, Lookup(t, x.device, x.neighbor), Seen(observed, x.neighbor));
      }
    }
  }

  class BgpTransitionTracker {
    /** The dictionary: its entries, and its keys in insertion order. */
    var previous: Table
    var keys: seq<(Name, Name)>

    ghost predicate Valid()
      reads this
    {
      Listed(previous, keys)
    }

    constructor ()
      ensures Valid() && previous == map[]
    {
      previous, keys := map[], [];
    }

    /** `process`: the loop over the reported neighbours, then the one over the missing ones. */
    method Process(device: Name, rows: seq<Report>, ok: bool) returns (lines: seq<Line>)
      requires Valid()
      modifies this
      ensures Valid()
      ensures !ok ==> previous == old(previous) && keys == old(keys) && lines == [Heartbeat(device, false)]
      ensures ok ==> previous == NextTable(old(previous), device, Observed(rows))
      ensures ok ==> keys == KeysAfter(old(keys), device, RowOrder(rows))
      ensures ok ==> lines == [Heartbeat(device, true)]
                              + LinesFor(old(previous), device, RowOrder(rows), Observed(rows))
                              + LinesFor(old(previous), device, MissingOf(old(keys), device, Observed(rows)), Observed(rows))
      ensures ok ==> forall d, n {:trigger LinesOf(lines, d, n)} :: LinesOf(lines, d, n) ==
                       if d == device then StepLines(d, n, Lookup(old(previous), d, n), Seen(Observed(rows), n)) else []
      ensures forall x :: x in lines ==> KindFits(x)
    {
      var order, observed := CollectRows(rows);
      if !ok {
        return [Heartbeat(device, false)];
      }
      ghost var t0, keys0 := previous, keys;
      previous, keys, lines := TrackReported(previous, keys, device, order, observed);
      var missing := MissingOf(keys, device, observed);
      MissingKept(keys0, device, order, observed);
      MissingDistinct(keys, device, observed);
      forall n
        ensures n in missing <==> (device, n) in previous && n !in observed
      {
        MissingMember(keys, device, observed, n);
        assert (device, n) in keys <==> (device, n) in Elems(keys);
      }
      ghost var tracked := previous;
      previous, lines := DropMissing(t0, previous, lines, device, observed, missing);
      Finished(t0, previous, lines, device, observed, observed.Keys + Elems(missing));
      LinesFit(t0, device, lines, observed);
    }
  }

  lemma HandledStart(t0: Table, device: Name, ok: bool, observed: map<Name, Peer>)
    ensures Handled(t0, t0, [Heartbeat(device, ok)], device, observed, {})
  {
    var lines := [Heartbeat(device, ok)];
    assert lines[..|lines| - 1] == [];
    forall d, n
      ensures EntryDone(t0, t0, lines, device, observed, {}, d, n)
    {
    }
  }

  lemma KeysKept(t: Table, t': Table, device: Name, n: Name)
    requires (device, n) in t
    requires forall d, m :: Lookup(t', d, m) ==
               if d == device && m == n then StepPeer(Lookup(t, d, m), None) else Lookup(t, d, m)
    ensures t'.Keys == t.Keys
  {
    forall k: (Name, Name)
      ensures k in t' <==> k in t
    {
      assert Lookup(t', k.0, k.1).Some? <==> Lookup(t, k.0, k.1).Some?;
    }
  }

  lemma Finished(t0: Table, t: Table, lines: seq<Line>, device: Name, observed: map<Name, Peer>, done: set<Name>)
    requires Handled(t0, t, lines, device, observed, done) && observed.Keys <= done
    requires forall n :: (device, n) in t ==> n in done
    ensures t == NextTable(t0, device, observed)
    ensures forall d, n {:trigger LinesOf(lines, d, n)} :: LinesOf(lines, d, n) ==
              if d == device then StepLines(d, n, Lookup(t0, d, n), Seen(observed, n)) else []
  {
    forall d, n
      ensures Lookup(t, d, n) == Lookup(NextTable(t0, device, observed), d, n)
      ensures LinesOf(lines, d, n) ==
              if d == device then StepLines(d, n, Lookup(t0, d, n), Seen(observed, n)) else []
    {
      assert EntryDone(t0, t, lines, device, observed, done, d, n);
      NextTableLookup(t0, device, observed, d, n);
    }
    SameLookups(t, NextTable(t0, device, observed));
  }

  // ---------------------------------------------------------------- every run of polls

  datatype Poll = Poll(device: Name, rows: seq<Report>, ok: bool)

  function Polled(t: Table, p: Poll): Table {
    if p.ok then NextTable(t, p.device, Observed(p.rows)) else t
  }

  /** The lines of `(d, n)` that one poll emits, as `Process` states them. */
  function Emitted(t: Table, p: Poll, d: Name, n: Name): seq<Line> {
    if p.ok && p.device == d then StepLines(d, n, Lookup(t, d, n), Seen(Observed(p.rows), n)) else []
  }

  function TableAfter(t: Table, polls: seq<Poll>): Table
    decreases |polls|
  {
    if polls == [] then t else TableAfter(Polled(t, polls[0]), polls[1..])
  }

  function LogAfter(t: Table, polls: seq<Poll>, d: Name, n: Name): seq<Line>
    decreases |polls|
  {
    if polls == [] then [] else Emitted(t, polls[0], d, n) + LogAfter(Polled(t, polls[0]), polls[1..], d, n)
  }

  /** The log replayed from `state`; `None` when an event does not continue the one before it. */
  function Replay(state: string, log: seq<Line>): Option<string>
    decreases |log|
  {
    if log == [] then Some(state)
    else if log[0].PrefixCount? then Replay(state, log[1..])
    else if log[0].Transition? && log[0].previous == state && log[0].latest != state
            && log[0].kind == KindOf(log[0].previous, log[0].latest)
    then Replay(log[0].latest, log[1..]) else None
  }

  lemma StepReplays(t: Table, p: Poll, d: Name, n: Name)
    requires (d, n) in t
    ensures (d, n) in Polled(t, p)
    ensures Replay(Normalize(t[(d, n)].state), Emitted(t, p, d, n)) == Some(Normalize(Polled(t, p)[(d, n)].state))
  {
    PolledLookup(t, p, d, n);
    if p.ok && p.device == d {
      PeerReplays(d, n, t[(d, n)], Seen(Observed(p.rows), n));
    }
  }

  lemma PeerReplays(d: Name, n: Name, previous: Peer, current: Option<Peer>)
    ensures var next := StepPeer(Some(previous), current);
            && next.Some?
            && Replay(Normalize(previous.state), StepLines(d, n, Some(previous), current)) == Some(Normalize(next.value.state))
  {
    var next := StepPeer(Some(previous), current).value;
    var before, after := Normalize(previous.state), Normalize(next.state);
    var a := if before != after then [TransitionLine(d, n, previous, next)] else [];
    var b := if previous.prefixes.Some? && next.prefixes.Some? && previous.prefixes != next.prefixes
             then [PrefixCount(d, n, previous.prefixes.value, next.prefixes.value)] else [];
    assert StepLines(d, n, Some(previous), current) == a + b;
    OneReplays(before, after, a, b);
    ReplayAppend(before, a, b);
  }

  lemma OneReplays(before: string, after: string, a: seq<Line>, b: seq<Line>)
    requires if before == after then a == []
             else |a| == 1 && a[0].Transition? && a[0].previous == before && a[0].latest == after
                  && a[0].kind == KindOf(before, after)
    requires b == [] || (|b| == 1 && b[0].PrefixCount?)
    ensures Replay(before, a) == Some(after) && Replay(after, b) == Some(after)
  {
    if a != [] {
      assert a[1..] == [];
    }
    if b != [] {
      assert b[1..] == [];
    }
  }

  lemma {:induction false} ReplayAppend(state: string, a: seq<Line>, b: seq<Line>)
    requires Replay(state, a).Some?
    ensures Replay(state, a + b) == Replay(Replay(state, a).value, b)
    decreases |a|
  {
    if a == [] {
      assert a + b == b;
    } else {
      assert (a + b)[1..] == a[1..] + b;
      ReplayAppend(if a[0].PrefixCount? then state else a[0].latest, a[1..], b);
    }
  }

  /** Replaying a neighbour's emitted transitions from its state at any point of a run yields
      its tracked state at the end: events chain, and each one really changes the state. */
  lemma {:induction false} LogReplays(t: Table, polls: seq<Poll>, d: Name, n: Name)
    requires (d, n) in t
    ensures (d, n) in TableAfter(t, polls)
    ensures Replay(Normalize(t[(d, n)].state), LogAfter(t, polls, d, n)) ==
            Some(Normalize(TableAfter(t, polls)[(d, n)].state))
    decreases |polls|
  {
    if polls != [] {
      StepReplays(t, polls[0], d, n);
      LogReplays(Polled(t, polls[0]), polls[1..], d, n);
      ReplayAppend(Normalize(t[(d, n)].state), Emitted(t, polls[0], d, n), LogAfter(Polled(t, polls[0]), polls[1..], d, n));
    }
  }

  /** A neighbour seen for the first time emits nothing and is tracked as reported. */
  lemma FirstSeen(t: Table, p: Poll, d: Name, n: Name)
    requires (d, n) !in t
    ensures Emitted(t, p, d, n) == []
    ensures (d, n) in Polled(t, p) <==> p.ok && p.device == d && n in Observed(p.rows)
    ensures (d, n) in Polled(t, p) ==> Polled(t, p)[(d, n)] == Observed(p.rows)[n]
  {
    if p.ok {
      NextTableLookup(t, p.device, Observed(p.rows), d, n);
    }
  }

  /** The downs and recoveries of a log. */
  function Swings(log: seq<Line>): seq<EventKind>
    decreases |log|
  {
    if log == [] then [] else
      (if log[0].Transition? && !log[0].kind.StateChanged? then [log[0].kind] else []) + Swings(log[1..])
  }

  /** Downs and recoveries strictly alternate, starting with a down exactly from an
      established session. */
  lemma {:induction false} SwingsAlternate(state: string, log: seq<Line>)
    requires Replay(state, log).Some?
    ensures var s := Swings(log);
            && (s != [] ==> s[0] == if state == ESTABLISHED then SessionDown else SessionRecovered)
            && forall i, j :: 0 <= i && j == i + 1 && j < |s| ==> s[i] != s[j]
    decreases |log|
  {
    if log != [] {
      SwingsAlternate(if log[0].PrefixCount? then state else log[0].latest, log[1..]);
    }
  }

  /** Every transition of every run leaves its previous state, and its event type says whether it
      leaves or enters the established one. */
  lemma {:induction false} LogKindsFit(t: Table, polls: seq<Poll>, d: Name, n: Name, x: Line)
    requires x in LogAfter(t, polls, d, n)
    ensures KindFits(x)
    decreases |polls|
  {
    if x in Emitted(t, polls[0], d, n) {
      StepKindsFit(d, n, Lookup(t, d, n), Seen(Observed(polls[0].rows), n));
    } else {
      LogKindsFit(Polled(t, polls[0]), polls[1..], d, n, x);
    }
  }

  lemma {:induction false} SwingsCount(state: string, log: seq<Line>)
    requires Replay(state, log).Some?
    ensures |Swings(log)| % 2 == 1 <==> ((state == "ESTABLISHED") != (Replay(state, log).value == "ESTABLISHED"))
    decreases |log|
  {
    if log != [] {
      SwingsCount(if log[0].PrefixCount? then state else log[0].latest, log[1..]);
    }
  }

  /** Over every run, the downs and recoveries of a neighbour are odd in number exactly when one
      of its first and last states is established and the other is not. */
  lemma SwingsTell(t: Table, polls: seq<Poll>, d: Name, n: Name)
    requires (d, n) in t
    ensures (d, n) in TableAfter(t, polls)
    ensures |Swings(LogAfter(t, polls, d, n))| % 2 == 1 <==>
            ((Normalize(t[(d, n)].state) == "ESTABLISHED") != (Normalize(TableAfter(t, polls)[(d, n)].state) == "ESTABLISHED"))
  {
    LogReplays(t, polls, d, n);
    SwingsCount(Normalize(t[(d, n)].state), LogAfter(t, polls, d, n));
  }

  /** What a successful poll leaves of a neighbour: the last row that names it; without one, its
      entry marked missing, unless it is so already. */
  lemma PollStores(t: Table, p: Poll, d: Name, n: Name, i: nat)
    requires p.ok && p.device == d
    requires i <= |p.rows| && (forall j :: i < j < |p.rows| ==> p.rows[j].neighbor != n)
    ensures i < |p.rows| && p.rows[i].neighbor == n != "" ==>
              (d, n) in Polled(t, p) && Polled(t, p)[(d, n)] == p.rows[i].peer
    ensures i == 0 && (p.rows == [] || p.rows[0].neighbor != n || n == "") ==>
              && ((d, n) in Polled(t, p) <==> (d, n) in t)
              && ((d, n) in t ==>
                    Polled(t, p)[(d, n)] ==
                    if Normalize(t[(d, n)].state) == "MISSING" then t[(d, n)]
                    else t[(d, n)].(state := "MISSING", prefixes := None))
  {
    PolledLookup(t, p, d, n);
    LastRow(p.rows, n, i);
  }

  lemma {:induction false} LastRow(rows: seq<Report>, n: Name, i: nat)
    requires i <= |rows| && (forall j :: i < j < |rows| ==> rows[j].neighbor != n)
    ensures i < |rows| && rows[i].neighbor == n != "" ==> n in Observed(rows) && Observed(rows)[n] == rows[i].peer
    ensures i == 0 && (rows == [] || rows[0].neighbor != n || n == "") ==> n !in Observed(rows)
    decreases |rows|
  {
    if |rows| > i + 1 {
      LastRow(rows[..|rows| - 1], n, i);
    } else if |rows| == 1 {
      assert rows[..0] == [];
    }
  }

  /** The lines a poll emits for a tracked neighbour, from its entry before and after. */
  lemma PollEmits(t: Table, p: Poll, d: Name, n: Name)
    requires p.ok && p.device == d && (d, n) in t
    ensures (d, n) in Polled(t, p)
    ensures var before, after := t[(d, n)], Polled(t, p)[(d, n)];
            var was, now := Normalize(before.state), Normalize(after.state);
            Emitted(t, p, d, n) ==
            (if was == now then [] else
               [Transition(d, n, was, now,
                           if was == "ESTABLISHED" then SessionDown else if now == "ESTABLISHED" then SessionRecovered
                           else StateChanged,
                           if after.asn != None then after.asn else before.asn, before.prefixes, after.prefixes)])
            + (if before.prefixes.Some? && after.prefixes.Some? && before.prefixes.value != after.prefixes.value
               then [PrefixCount(d, n, before.prefixes.value, after.prefixes.value)] else [])
  {
    PolledLookup(t, p, d, n);
  }

  /** Polls of different devices commute: same table, and the same lines from each. */
  lemma PollsCommute(t: Table, p: Poll, q: Poll)
    requires p.device != q.device
    ensures Polled(Polled(t, p), q) == Polled(Polled(t, q), p)
    ensures forall d, n :: Emitted(Polled(t, p), q, d, n) == Emitted(t, q, d, n)
    ensures forall d, n :: Emitted(Polled(t, q), p, d, n) == Emitted(t, p, d, n)
  {
    forall d, n
      ensures Emitted(Polled(t, p), q, d, n) == Emitted(t, q, d, n) && Emitted(Polled(t, q), p, d, n) == Emitted(t, p, d, n)
    {
      PolledLookup(t, p, d, n);
      PolledLookup(t, q, d, n);
    }
    forall d, n
      ensures Lookup(Polled(Polled(t, p), q), d, n) == Lookup(Polled(Polled(t, q), p), d, n)
    {
      LookupsCommute(t, p, q, d, n);
    }
    SameLookups(Polled(Polled(t, p), q), Polled(Polled(t, q), p));
  }

  lemma LookupsCommute(t: Table, p: Poll, q: Poll, d: Name, n: Name)
    requires p.device != q.device
    ensures Lookup(Polled(Polled(t, p), q), d, n) == Lookup(Polled(Polled(t, q), p), d, n)
  {
    PolledLookup(t, p, d, n);
    PolledLookup(t, q, d, n);
    PolledLookup(Polled(t, p), q, d, n);
    PolledLookup(Polled(t, q), p, d, n);
  }

  lemma PolledLookup(t: Table, p: Poll, d: Name, n: Name)
    ensures Lookup(Polled(t, p), d, n) ==
            if p.ok && d == p.device then StepPeer(Lookup(t, d, n), Seen(Observed(p.rows), n)) else Lookup(t, d, n)
  {
    if p.ok {
      NextTableLookup(t, p.device, Observed(p.rows), d, n);
    }
  }
}
