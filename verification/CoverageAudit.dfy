/** The detector's audit of observations against the compiled plan
    (netopsbench/platform/pingmesh/_detector_coverage.py:9-114, 148-167). */
module CoverageAudit {
  import opened Options
  import opened FabricGraph
  import opened Counting
  import opened ProbePlan
  import opened AgentValidation
  import opened WindowIngestion

  type Combination = (Name, Name, nat)

  datatype Expectations = Expectations(combinations: set<Combination>, frames: map<(Name, nat), Expect>, destinations: set<nat>)

  // ---------------------------------------------------------------- expectations

  ghost predicate TargetsInRange(plan: ClientPlan) {
    forall f :: f in plan.frames ==> forall i :: 0 <= i < |f.targets| ==> f.targets[i] < |plan.targets|
  }

  function FrameNames(plan: ClientPlan, f: Frame): set<Name> {
    set i | i in f.targets && i < |plan.targets| :: plan.targets[i]
  }

  function ExpectOf(plan: ClientPlan, f: Frame): Expect {
    Expect(f.destinationBatch, f.portBatch, FrameNames(plan, f))
  }

  function FrameCombinations(plan: ClientPlan, f: Frame): set<Combination> {
    set d | d in FrameNames(plan, f) :: (plan.name, d, f.portBatch)
  }

  /** The combinations of the first `n` frames of a client. */
  ghost function ClientCombinations(plan: ClientPlan, n: nat): set<Combination>
    requires n <= |plan.frames|
  {
    if n == 0 then {} else ClientCombinations(plan, n - 1) + FrameCombinations(plan, plan.frames[n - 1])
  }

  ghost function AllCombinations(plans: seq<ClientPlan>, n: nat): set<Combination>
    requires n <= |plans|
  {
    if n == 0 then {} else
      AllCombinations(plans, n - 1) + ClientCombinations(plans[n - 1], |plans[n - 1].frames|)
  }

  /** The destination batches of the frames that probe something. */
  function FrameDestinations(plan: ClientPlan, f: Frame): set<nat> {
    if FrameNames(plan, f) == {} then {} else {f.destinationBatch}
  }

  ghost function ClientDestinations(plan: ClientPlan, n: nat): set<nat>
    requires n <= |plan.frames|
  {
    if n == 0 then {} else ClientDestinations(plan, n - 1) + FrameDestinations(plan, plan.frames[n - 1])
  }

  ghost function AllDestinations(plans: seq<ClientPlan>, n: nat): set<nat>
    requires n <= |plans|
  {
    if n == 0 then {} else
      AllDestinations(plans, n - 1) + ClientDestinations(plans[n - 1], |plans[n - 1].frames|)
  }

  ghost predicate DistinctPlans(plans: seq<ClientPlan>) {
    forall i, j :: 0 <= i < j < |plans| ==> plans[i].name != plans[j].name
  }

  /** The frames of the first `k` cycles of a plan are stored. */
  ghost predicate Stored(plan: ClientPlan, k: nat, frames: map<(Name, nat), Expect>) {
    forall c: nat :: c < k && c < |plan.frames| ==>
                       (plan.name, c) in frames && frames[(plan.name, c)] == ExpectOf(plan, plan.frames[c])
  }

  /** `after` keeps the frames of `before` and adds the first `k` of the plan. */
  ghost predicate Extended(plan: ClientPlan, k: nat, before: map<(Name, nat), Expect>, after: map<(Name, nat), Expect>) {
    && Stored(plan, k, after)
    && (forall s: Name, c: nat :: (s, c) in after <==> (s, c) in before || (s == plan.name && c < k && c < |plan.frames|))
    && (forall s: Name, c: nat :: (s, c) in before ==> after[(s, c)] == before[(s, c)])
  }

  lemma ExtendOne(plan: ClientPlan, k: nat, before: map<(Name, nat), Expect>, now: map<(Name, nat), Expect>)
    requires k < |plan.frames| && Extended(plan, k, before, now)
    requires forall c: nat :: (plan.name, c) !in before
    ensures Extended(plan, k + 1, before, now[(plan.name, k) := ExpectOf(plan, plan.frames[k])])
  {
  }

  /** One client of `_compile_coverage_expectations`. */
  method AddClient(plan: ClientPlan, before: Expectations) returns (e: Expectations)
    requires TargetsInRange(plan)
    requires forall c: nat :: (plan.name, c) !in before.frames
    ensures e.combinations == before.combinations + ClientCombinations(plan, |plan.frames|)
    ensures e.destinations == before.destinations + ClientDestinations(plan, |plan.frames|)
    ensures Extended(plan, |plan.frames|, before.frames, e.frames)
  {
    var combinations: set<Combination> := before.combinations;
    var frames: map<(Name, nat), Expect> := before.frames;
    var destinations: set<nat> := before.destinations;
    for k := 0 to |plan.frames|
      invariant combinations == before.combinations + ClientCombinations(plan, k)
      invariant destinations == before.destinations + ClientDestinations(plan, k)
      invariant Extended(plan, k, before.frames, frames)
    {
      ExtendOne(plan, k, before.frames, frames);
      frames := frames[(plan.name, k) := ExpectOf(plan, plan.frames[k])];
      combinations := combinations + FrameCombinations(plan, plan.frames[k]);
      destinations := destinations + FrameDestinations(plan, plan.frames[k]);
    }
    e := Expectations(combinations, frames, destinations);
  }

  /** The stored frames are those of the first `n` clients, and no others. */
  ghost predicate StoredUpTo(plans: seq<ClientPlan>, n: nat, frames: map<(Name, nat), Expect>) {
    && (forall i :: 0 <= i < n && i < |plans| ==> Stored(plans[i], |plans[i].frames|, frames))
    && (forall s: Name, c: nat {:trigger OfPlan(plans, n, s, c)} :: (s, c) in frames ==> OfPlan(plans, n, s, c))
  }

  ghost predicate OfPlan(plans: seq<ClientPlan>, n: nat, s: Name, c: nat) {
    exists i :: 0 <= i < n && i < |plans| && plans[i].name == s && c < |plans[i].frames|
  }

  /** `_compile_coverage_expectations`. */
  method CompileExpectations(plans: seq<ClientPlan>) returns (e: Expectations)
    requires DistinctPlans(plans) && forall i :: 0 <= i < |plans| ==> TargetsInRange(plans[i])
    ensures e.combinations == AllCombinations(plans, |plans|)
    ensures e.destinations == AllDestinations(plans, |plans|)
    ensures StoredUpTo(plans, |plans|, e.frames)
  {
    e := Expectations({}, map[], {});
    for n := 0 to |plans|
      invariant e.combinations == AllCombinations(plans, n)
      invariant e.destinations == AllDestinations(plans, n)
      invariant StoredUpTo(plans, n, e.frames)
    {
      ghost var before := e;
      NewName(plans, n, e.frames);
      e := AddClient(plans[n], e);
      ClientAdded(plans, n, before.frames, e.frames);
    }
  }

  lemma NewName(plans: seq<ClientPlan>, n: nat, frames: map<(Name, nat), Expect>)
    requires DistinctPlans(plans) && n < |plans| && StoredUpTo(plans, n, frames)
    ensures forall c: nat :: (plans[n].name, c) !in frames
  {
    forall c: nat
      ensures (plans[n].name, c) !in frames
    {
      assert !OfPlan(plans, n, plans[n].name, c);
    }
  }

  lemma ClientAdded(plans: seq<ClientPlan>, n: nat, before: map<(Name, nat), Expect>, frames: map<(Name, nat), Expect>)
    requires n < |plans| && StoredUpTo(plans, n, before) && Extended(plans[n], |plans[n].frames|, before, frames)
    ensures StoredUpTo(plans, n + 1, frames)
  {
    forall i | 0 <= i < n
      ensures Stored(plans[i], |plans[i].frames|, frames)
    {
      assert Stored(plans[i], |plans[i].frames|, before);
    }
    forall s: Name, c: nat | (s, c) in frames
      ensures OfPlan(plans, n + 1, s, c)
    {
      if (s, c) in before {
        assert OfPlan(plans, n, s, c);
      }
    }
  }

  // ---------------------------------------------------------------- observations

  /** Fields as `_field_int` reads them: `None` when missing or unreadable. */
  type Reading = Option<int>

  datatype Observation = Observation(
    planId: string, source: Name, destination: Name, cycle: Reading, destinationBatch: Reading, portBatch: Reading,
    portsActive: Reading, portsTotal: Reading, localErrors: Reading)

  /** The stored frame the row's cycle falls on. */
  predicate FitsPlan(e: Expectations, epoch: nat, planId: string, r: Observation)
    requires epoch > 0
  {
    && r.planId == planId
    && r.cycle.Some? && r.cycle.value >= 0
    && FitsFrame(e, (r.source, Wrap(r.cycle.value, epoch)), r)
  }

  predicate FitsFrame(e: Expectations, slot: (Name, nat), r: Observation) {
    && slot in e.frames
    && r.destinationBatch == Some(e.frames[slot].destinationBatch)
    && r.portBatch == Some(e.frames[slot].portBatch)
    && r.destination in e.frames[slot].names
  }

  /** `_has_valid_socket_batch`. */
  predicate ValidSockets(s: Settings, r: Observation) {
    && r.portBatch.Some? && 0 <= r.portBatch.value < |s.portBatches|
    && r.portsTotal == Some(|s.sourcePorts|)
    && r.portsActive == Some(|s.portBatches[r.portBatch.value]|)
    && r.localErrors == Some(0)
  }

  predicate Valid(e: Expectations, s: Settings, r: Observation)
    requires s.coverageEpochCycles > 0
  {
    FitsPlan(e, s.coverageEpochCycles, s.planId, r) && ValidSockets(s, r)
  }

  function CombinationOf(r: Observation): Combination {
    (r.source, r.destination, if r.portBatch.Some? && r.portBatch.value >= 0 then r.portBatch.value else 0)
  }

  datatype Summary = Summary(complete: bool, observed: set<Combination>, missing: set<Combination>,
                             validRows: nat, invalidSocketRows: nat, unexpectedRows: nat)

  /** The places of the rows that fit the plan, and of those that are valid. */
  ghost function Fitting(e: Expectations, s: Settings, rows: seq<Observation>): set<nat>
    requires s.coverageEpochCycles > 0
  {
    set k: nat | k < |rows| && FitsPlan(e, s.coverageEpochCycles, s.planId, rows[k])
  }

  ghost function Validated(e: Expectations, s: Settings, rows: seq<Observation>): set<nat>
    requires s.coverageEpochCycles > 0
  {
    set k: nat | k < |rows| && Valid(e, s, rows[k])
  }

  lemma FittingStep(e: Expectations, s: Settings, rows: seq<Observation>, row: Observation)
    requires s.coverageEpochCycles > 0
    ensures |Fitting(e, s, rows + [row])| ==
            |Fitting(e, s, rows)| + if FitsPlan(e, s.coverageEpochCycles, s.planId, row) then 1 else 0
  {
    assert Fitting(e, s, rows + [row]) ==
           Fitting(e, s, rows) + if FitsPlan(e, s.coverageEpochCycles, s.planId, row) then {|rows|} else {};
  }

  lemma ValidatedStep(e: Expectations, s: Settings, rows: seq<Observation>, row: Observation)
    requires s.coverageEpochCycles > 0
    ensures |Validated(e, s, rows + [row])| == |Validated(e, s, rows)| + if Valid(e, s, row) then 1 else 0
  {
    assert Validated(e, s, rows + [row]) == Validated(e, s, rows) + if Valid(e, s, row) then {|rows|} else {};
  }

  /** `summarize_coverage`: the classification loop and the coverage verdict. */
  method Summarize(e: Expectations, s: Settings, rows: seq<Observation>) returns (r: Summary)
    requires s.coverageEpochCycles > 0
    ensures r.observed == set o | o in rows && Valid(e, s, o) :: CombinationOf(o)
    ensures r.missing == e.combinations - r.observed
    ensures r.validRows == |Validated(e, s, rows)|
    ensures r.validRows + r.invalidSocketRows == |Fitting(e, s, rows)|
    ensures r.validRows + r.invalidSocketRows + r.unexpectedRows == |rows|
    ensures r.complete <==> r.missing == {} && forall i :: 0 <= i < |rows| ==> Valid(e, s, rows[i])
  {
    var observed: set<Combination>, valid, invalid, unexpected := {}, 0, 0, 0;
    for n := 0 to |rows|
      invariant observed == set o | o in rows[..n] && Valid(e, s, o) :: CombinationOf(o)
      invariant valid == |Validated(e, s, rows[..n])| && valid + invalid == |Fitting(e, s, rows[..n])|
      invariant valid + invalid + unexpected == n
      invariant invalid == 0 && unexpected == 0 <==> forall i :: 0 <= i < n ==> Valid(e, s, rows[i])
    {
      var row := rows[n];
      assert rows[..n + 1] == rows[..n] + [row];
      FittingStep(e, s, rows[..n], row);
      ValidatedStep(e, s, rows[..n], row);
      if !FitsPlan(e, s.coverageEpochCycles, s.planId, row) {
        unexpected := unexpected + 1;
      } else if !ValidSockets(s, row) {
        invalid := invalid + 1;
      } else {
        observed := observed + {CombinationOf(row)};
        valid := valid + 1;
      }
    }
    assert rows[..|rows|] == rows;
    var missing := e.combinations - observed;
    r := Summary(missing == {} && unexpected == 0 && invalid == 0, observed, missing, valid, invalid, unexpected);
  }

  // ---------------------------------------------------------------- observed and missing make up the plan

  lemma {:induction false} ClientContains(plan: ClientPlan, n: nat, c: nat, x: Combination)
    requires c < n <= |plan.frames| && x in FrameCombinations(plan, plan.frames[c])
    ensures x in ClientCombinations(plan, n)
  {
    if c < n - 1 {
      ClientContains(plan, n - 1, c, x);
    }
  }

  lemma {:induction false} AllContain(plans: seq<ClientPlan>, n: nat, i: nat, x: Combination)
    requires i < n <= |plans| && x in ClientCombinations(plans[i], |plans[i].frames|)
    ensures x in AllCombinations(plans, n)
  {
    if i < n - 1 {
      AllContain(plans, n - 1, i, x);
    }
  }

  lemma {:induction false} ClientOrigin(plan: ClientPlan, n: nat, x: Combination) returns (c: nat)
    requires n <= |plan.frames| && x in ClientCombinations(plan, n)
    ensures c < n && x in FrameCombinations(plan, plan.frames[c])
  {
    if x in FrameCombinations(plan, plan.frames[n - 1]) {
      c := n - 1;
    } else {
      c := ClientOrigin(plan, n - 1, x);
    }
  }

  lemma {:induction false} AllOrigin(plans: seq<ClientPlan>, n: nat, x: Combination) returns (i: nat)
    requires n <= |plans| && x in AllCombinations(plans, n)
    ensures i < n && x in ClientCombinations(plans[i], |plans[i].frames|)
  {
    if x in ClientCombinations(plans[n - 1], |plans[n - 1].frames|) {
      i := n - 1;
    } else {
      i := AllOrigin(plans, n - 1, x);
    }
  }

  /** Frame `k` of client `i` lists, as its target `j`, the destination of `x`, and is one of its
      source and port batch. */
  ghost predicate Lists(plans: seq<ClientPlan>, i: nat, k: nat, j: nat, x: Combination) {
    && i < |plans| && k < |plans[i].frames| && j < |plans[i].frames[k].targets|
    && var plan, f := plans[i], plans[i].frames[k];
      && f.targets[j] < |plan.targets| && x == (plan.name, plan.targets[f.targets[j]], f.portBatch)
  }

  lemma ListedOrigin(plans: seq<ClientPlan>, x: Combination) returns (i: nat, k: nat, j: nat)
    requires x in AllCombinations(plans, |plans|)
    ensures Lists(plans, i, k, j, x)
  {
    i := AllOrigin(plans, |plans|, x);
    k := ClientOrigin(plans[i], |plans[i].frames|, x);
    var plan, f := plans[i], plans[i].frames[k];
    var t :| t in f.targets && t < |plan.targets| && plan.targets[t] == x.1;
    j :| 0 <= j < |f.targets| && f.targets[j] == t;
  }

  lemma ListedExpected(plans: seq<ClientPlan>, i: nat, k: nat, j: nat, x: Combination)
    requires Lists(plans, i, k, j, x)
    ensures x in AllCombinations(plans, |plans|)
  {
    var f := plans[i].frames[k];
    assert f.targets[j] in f.targets;
    ClientContains(plans[i], |plans[i].frames|, k, x);
    AllContain(plans, |plans|, i, x);
  }

  /** A combination is expected exactly when some frame of its source lists its destination under
      its port batch. */
  lemma CombinationsAre(plans: seq<ClientPlan>, x: Combination)
    ensures x in AllCombinations(plans, |plans|) <==> exists i: nat, k: nat, j: nat :: Lists(plans, i, k, j, x)
  {
    if x in AllCombinations(plans, |plans|) {
      var i, k, j := ListedOrigin(plans, x);
    }
    if i: nat, k: nat, j: nat :| Lists(plans, i, k, j, x) {
      ListedExpected(plans, i, k, j, x);
    }
  }

  ghost predicate Visits(plan: ClientPlan, k: nat, b: nat) {
    k < |plan.frames| && plan.frames[k].targets != [] && plan.frames[k].destinationBatch == b
  }

  lemma {:induction false} ClientDestinationsAre(plan: ClientPlan, n: nat, b: nat)
    requires n <= |plan.frames| && TargetsInRange(plan)
    ensures b in ClientDestinations(plan, n) <==> exists k: nat :: k < n && Visits(plan, k, b)
    decreases n
  {
    if n > 0 {
      ClientDestinationsAre(plan, n - 1, b);
      var f := plan.frames[n - 1];
      assert f in plan.frames;
      if f.targets != [] {
        assert plan.targets[f.targets[0]] in FrameNames(plan, f);
      }
      assert b in FrameDestinations(plan, f) <==> Visits(plan, n - 1, b);
    }
  }

  /** A destination batch is expected exactly when a frame of it has targets. */
  lemma {:induction false} DestinationsAre(plans: seq<ClientPlan>, n: nat, b: nat)
    requires n <= |plans| && forall i :: 0 <= i < |plans| ==> TargetsInRange(plans[i])
    ensures b in AllDestinations(plans, n) <==> exists i: nat, k: nat :: i < n && Visits(plans[i], k, b)
    decreases n
  {
    if n > 0 {
      DestinationsAre(plans, n - 1, b);
      ClientDestinationsAre(plans[n - 1], |plans[n - 1].frames|, b);
      var earlier, last := AllDestinations(plans, n - 1), plans[n - 1];
      assert AllDestinations(plans, n) == earlier + ClientDestinations(last, |last.frames|);
      if k: nat :| Visits(last, k, b) {
        assert k < |last.frames|;
      }
    }
  }

  /** Expectations compiled from plans whose epochs all have the configured length. */
  ghost predicate Compiled(plans: seq<ClientPlan>, s: Settings, e: Expectations) {
    && s.coverageEpochCycles > 0 && DistinctPlans(plans)
    && (forall i :: 0 <= i < |plans| ==> |plans[i].frames| == s.coverageEpochCycles)
    && e.combinations == AllCombinations(plans, |plans|)
    && StoredUpTo(plans, |plans|, e.frames)
  }

  /** A valid row always counts toward an expected combination. */
  lemma ValidIsExpected(plans: seq<ClientPlan>, s: Settings, e: Expectations, r: Observation)
    requires Compiled(plans, s, e) && Valid(e, s, r)
    ensures CombinationOf(r) in e.combinations
  {
    var c := Wrap(r.cycle.value, s.coverageEpochCycles);
    assert OfPlan(plans, |plans|, r.source, c);
    var i :| 0 <= i < |plans| && plans[i].name == r.source && c < |plans[i].frames|;
    var f := plans[i].frames[c];
    assert Stored(plans[i], |plans[i].frames|, e.frames);
    assert e.frames[(r.source, c)] == ExpectOf(plans[i], f);
    assert CombinationOf(r) in FrameCombinations(plans[i], f);
    ClientContains(plans[i], |plans[i].frames|, c, CombinationOf(r));
    AllContain(plans, |plans|, i, CombinationOf(r));
  }

  /** Whatever rows arrive, observed and missing combinations add up to the plan. */
  lemma ObservedPlusMissing(plans: seq<ClientPlan>, s: Settings, e: Expectations, rows: seq<Observation>)
    requires Compiled(plans, s, e)
    ensures var observed := set o | o in rows && Valid(e, s, o) :: CombinationOf(o);
            observed <= e.combinations && |observed| + |e.combinations - observed| == |e.combinations|
  {
    var observed := set o | o in rows && Valid(e, s, o) :: CombinationOf(o);
    forall x | x in observed
      ensures x in e.combinations
    {
      var o :| o in rows && Valid(e, s, o) && CombinationOf(o) == x;
      ValidIsExpected(plans, s, e, o);
    }
    assert e.combinations == observed + (e.combinations - observed);
  }

  // ---------------------------------------------------------------- how many combinations a plan has

  ghost function Image(plan: ClientPlan, tasks: set<(nat, nat)>): set<Combination> {
    set x | x in tasks && x.0 < |plan.targets| :: (plan.name, plan.targets[x.0], x.1)
  }

  lemma ImageUnion(plan: ClientPlan, a: set<(nat, nat)>, b: set<(nat, nat)>)
    ensures Image(plan, a + b) == Image(plan, a) + Image(plan, b)
  {
  }

  lemma FrameImage(plan: ClientPlan, f: Frame)
    ensures FrameCombinations(plan, f) == Image(plan, Elems(FrameTasks(f)))
  {
    var tasks := FrameTasks(f);
    forall x | x in FrameCombinations(plan, f)
      ensures x in Image(plan, Elems(tasks))
    {
      var t :| t in f.targets && t < |plan.targets| && plan.targets[t] == x.1;
      var i :| 0 <= i < |f.targets| && f.targets[i] == t;
      assert tasks[i] == (t, f.portBatch);
      assert (t, f.portBatch) in Elems(tasks);
    }
    forall x | x in Image(plan, Elems(tasks))
      ensures x in FrameCombinations(plan, f)
    {
      var y :| y in Elems(tasks) && y.0 < |plan.targets| && x == (plan.name, plan.targets[y.0], y.1);
      var i :| 0 <= i < |tasks| && tasks[i] == y;
      assert f.targets[i] in f.targets;
    }
  }

  lemma {:induction false} ClientImage(plan: ClientPlan, n: nat)
    requires n <= |plan.frames|
    ensures ClientCombinations(plan, n) == Image(plan, Elems(EpochTasks(plan.frames[..n])))
  {
    if n > 0 {
      ClientImage(plan, n - 1);
      FrameImage(plan, plan.frames[n - 1]);
      EpochStep(plan.frames, n - 1);
      var a, b := EpochTasks(plan.frames[..n - 1]), FrameTasks(plan.frames[n - 1]);
      assert Elems(a + b) == Elems(a) + Elems(b);
      ImageUnion(plan, Elems(a), Elems(b));
    }
  }

  lemma {:induction false} ImageCard(plan: ClientPlan, tasks: set<(nat, nat)>)
    requires NoDup(plan.targets) && forall x :: x in tasks ==> x.0 < |plan.targets|
    ensures |Image(plan, tasks)| == |tasks|
  {
    if tasks != {} {
      var x :| x in tasks;
      var rest := tasks - {x};
      ImageCard(plan, rest);
      ImageFresh(plan, rest, x);
      assert tasks == rest + {x};
    }
  }

  lemma ImageFresh(plan: ClientPlan, rest: set<(nat, nat)>, x: (nat, nat))
    requires NoDup(plan.targets) && x !in rest && x.0 < |plan.targets|
    ensures |Image(plan, rest + {x})| == |Image(plan, rest)| + 1
  {
    var y := (plan.name, plan.targets[x.0], x.1);
    ImageUnion(plan, rest, {x});
    assert Image(plan, {x}) == {y} by {
      assert x in {x};
    }
    assert y !in Image(plan, rest);
  }

  ghost function DirectedPairs(plans: seq<ClientPlan>, n: nat): nat
    requires n <= |plans|
  {
    if n == 0 then 0 else DirectedPairs(plans, n - 1) + |plans[n - 1].targets|
  }

  lemma ClientCombinationCount(plan: ClientPlan, c: AgentConfig)
    requires PlanAccepted(plan, c, plan.name)
    ensures |ClientCombinations(plan, |plan.frames|)| == |plan.targets| * |c.settings.portBatches|
    ensures forall x :: x in ClientCombinations(plan, |plan.frames|) ==> x.0 == plan.name
  {
    var n, b := |plan.targets|, |c.settings.portBatches|;
    assert plan.frames[..|plan.frames|] == plan.frames;
    ClientImage(plan, |plan.frames|);
    NoDupCard(plan.targets);
    var tasks := Elems(EpochTasks(plan.frames));
    forall x | x in tasks
      ensures x.0 < n
    {
      GridMember(n, b, x);
    }
    ImageCard(plan, tasks);
    GridCard(n, b);
  }

  ghost predicate AllAccepted(plans: seq<ClientPlan>, c: AgentConfig) {
    forall i :: 0 <= i < |plans| ==> Accepts(plans, i, c)
  }

  ghost predicate Accepts(plans: seq<ClientPlan>, i: nat, c: AgentConfig)
    requires i < |plans|
  {
    PlanAccepted(plans[i], c, plans[i].name)
  }

  lemma {:induction false} OtherClients(plans: seq<ClientPlan>, n: nat, c: AgentConfig, x: Combination)
    requires n <= |plans| && AllAccepted(plans, c)
    requires x in AllCombinations(plans, n)
    ensures exists i :: 0 <= i < n && plans[i].name == x.0
  {
    var i := AllOrigin(plans, n, x);
    assert Accepts(plans, i, c);
    ClientCombinationCount(plans[i], c);
  }

  lemma ClientsDisjoint(plans: seq<ClientPlan>, n: nat, c: AgentConfig)
    requires 0 < n <= |plans| && DistinctPlans(plans)
    requires AllAccepted(plans, c)
    ensures |AllCombinations(plans, n)| ==
            |AllCombinations(plans, n - 1)| + Area(|plans[n - 1].targets|, |c.settings.portBatches|)
  {
    AreaIsProduct(|plans[n - 1].targets|, |c.settings.portBatches|);
    assert Accepts(plans, n - 1, c);
    ClientCombinationCount(plans[n - 1], c);
    var earlier, last := AllCombinations(plans, n - 1), ClientCombinations(plans[n - 1], |plans[n - 1].frames|);
    forall x | x in earlier
      ensures x !in last
    {
      OtherClients(plans, n - 1, c, x);
    }
    DisjointCard(earlier, last);
  }

  /** The targets of every plan, once per port batch. */
  ghost function Spread(plans: seq<ClientPlan>, n: nat, batches: nat): nat
    requires n <= |plans|
  {
    if n == 0 then 0 else Spread(plans, n - 1, batches) + Area(|plans[n - 1].targets|, batches)
  }

  lemma {:induction false} SpreadIsProduct(plans: seq<ClientPlan>, n: nat, batches: nat)
    requires n <= |plans|
    ensures Spread(plans, n, batches) == DirectedPairs(plans, n) * batches
  {
    if n > 0 {
      SpreadIsProduct(plans, n - 1, batches);
      AreaIsProduct(|plans[n - 1].targets|, batches);
      Distribute(DirectedPairs(plans, n - 1), |plans[n - 1].targets|, batches);
    }
  }

  /** How many combinations the first `n` clients have. */
  ghost predicate Counted(plans: seq<ClientPlan>, n: nat, batches: nat)
    requires n <= |plans|
  {
    |AllCombinations(plans, n)| == Spread(plans, n, batches)
  }

  lemma CountedStep(plans: seq<ClientPlan>, n: nat, c: AgentConfig)
    requires n < |plans| && DistinctPlans(plans) && AllAccepted(plans, c)
    requires Counted(plans, n, |c.settings.portBatches|)
    ensures Counted(plans, n + 1, |c.settings.portBatches|)
  {
    ClientsDisjoint(plans, n + 1, c);
  }

  lemma CombinationSpread(plans: seq<ClientPlan>, n: nat, c: AgentConfig)
    requires n <= |plans| && DistinctPlans(plans) && AllAccepted(plans, c)
    ensures Counted(plans, n, |c.settings.portBatches|)
  {
    for i := 0 to n
      invariant Counted(plans, i, |c.settings.portBatches|)
    {
      CountedStep(plans, i, c);
    }
  }

  /** The plan expects exactly (directed pairs) times (port batches) combinations. */
  lemma CombinationCount(plans: seq<ClientPlan>, n: nat, c: AgentConfig)
    requires n <= |plans| && DistinctPlans(plans) && AllAccepted(plans, c)
    ensures |AllCombinations(plans, n)| == DirectedPairs(plans, n) * |c.settings.portBatches|
  {
    CombinationSpread(plans, n, c);
    SpreadIsProduct(plans, n, |c.settings.portBatches|);
  }

  lemma DisjointCard<T>(a: set<T>, b: set<T>)
    requires forall x :: x in a ==> x !in b
    ensures |a + b| == |a| + |b|
  {
    assert a !! b;
  }

  lemma Distribute(a: nat, b: nat, c: nat)
    ensures (a + b) * c == a * c + b * c
  {
  }

  // ---------------------------------------------------------------- a complete window is complete

  /** When each row is stamped, how many local errors it reports, and when each source first ticks. */
  datatype Source = Source(time: (Name, nat, Name) -> int, errors: (Name, nat, Name) -> nat, origin: Name -> int)

  /** The frame the agent runs in cycle `c`. */
  function FrameAt(plan: ClientPlan, c: nat): Frame
    requires plan.frames != []
  {
    plan.frames[Wrap(c, |plan.frames|)]
  }

  /** The row the agent writes for a target of cycle `c`: batch indices from the frame, active
      ports from its port batch, all ports from the pool. */
  function EmittedRow(plan: ClientPlan, s: Settings, c: nat, d: Name, errors: nat): Observation
    requires plan.frames != [] && FrameAt(plan, c).portBatch < |s.portBatches|
  {
    var f := FrameAt(plan, c);
    Observation(s.planId, plan.name, d, Some(c), Some(f.destinationBatch), Some(f.portBatch),
                Some(|s.portBatches[f.portBatch]|), Some(|s.sourcePorts|), Some(errors))
  }

  /** Client `i` probes `d` in cycle `c`. */
  ghost predicate Due(plans: seq<ClientPlan>, i: nat, c: nat, d: Name) {
    i < |plans| && plans[i].frames != [] && d in FrameNames(plans[i], FrameAt(plans[i], c))
  }

  /** Every frame names a port batch of the settings. */
  ghost predicate BatchesKnown(plans: seq<ClientPlan>, s: Settings) {
    forall i, k :: 0 <= i < |plans| && 0 <= k < |plans[i].frames| ==> plans[i].frames[k].portBatch < |s.portBatches|
  }

  ghost function RowOf(plans: seq<ClientPlan>, s: Settings, src: Source, i: nat, c: nat, d: Name): Observation
    requires Due(plans, i, c, d) && BatchesKnown(plans, s)
  {
    EmittedRow(plans[i], s, c, d, src.errors(plans[i].name, c, d))
  }

  /** No missed ticks, rows stamped before the next tick, no local errors. */
  ghost predicate Healthy(plans: seq<ClientPlan>, src: Source, tick: nat) {
    forall i: nat, c: nat, d: Name {:trigger Due(plans, i, c, d)} :: Due(plans, i, c, d) ==>
      && src.errors(plans[i].name, c, d) == 0
      && src.origin(plans[i].name) + c * tick <= src.time(plans[i].name, c, d) < src.origin(plans[i].name) + c * tick + tick
  }

  ghost predicate Stamped(plans: seq<ClientPlan>, src: Source, i: nat, c: nat, d: Name, from: int, to: int)
    requires i < |plans|
  {
    from <= src.time(plans[i].name, c, d) < to
  }

  /** `rows` are exactly the rows stamped in `[from, to)`. */
  ghost predicate Snapshot(plans: seq<ClientPlan>, s: Settings, src: Source, from: int, to: int, rows: seq<Observation>)
    requires BatchesKnown(plans, s)
  {
    && (forall i: nat, c: nat, d: Name {:trigger Due(plans, i, c, d)} ::
          Due(plans, i, c, d) && Stamped(plans, src, i, c, d, from, to) ==> RowOf(plans, s, src, i, c, d) in rows)
    && (forall r :: r in rows ==> IsDueRow(plans, s, src, from, to, r))
  }

  ghost predicate IsDueRow(plans: seq<ClientPlan>, s: Settings, src: Source, from: int, to: int, r: Observation)
    requires BatchesKnown(plans, s)
  {
    exists i: nat, c: nat, d: Name ::
      Due(plans, i, c, d) && Stamped(plans, src, i, c, d, from, to) && r == RowOf(plans, s, src, i, c, d)
  }

  /** A row emitted without local errors is what the detector expects of its cycle. */
  lemma EmittedIsValid(plans: seq<ClientPlan>, s: Settings, e: Expectations, src: Source, i: nat, c: nat, d: Name)
    requires Compiled(plans, s, e) && BatchesKnown(plans, s) && Due(plans, i, c, d)
    requires src.errors(plans[i].name, c, d) == 0
    ensures Valid(e, s, RowOf(plans, s, src, i, c, d))
    ensures CombinationOf(RowOf(plans, s, src, i, c, d)) == (plans[i].name, d, FrameAt(plans[i], c).portBatch)
  {
    EmittedFits(plans, s, e, i, c, d);
  }

  /** The row belongs to the plan: an agent emits it in some cycle, whatever its socket and error
      counts. */
  ghost predicate Planned(plans: seq<ClientPlan>, s: Settings, r: Observation)
    requires BatchesKnown(plans, s)
  {
    exists i: nat, c: nat, d: Name {:trigger Due(plans, i, c, d)} :: Due(plans, i, c, d) &&
      r == EmittedRow(plans[i], s, c, d, 0).(portsActive := r.portsActive, portsTotal := r.portsTotal, localErrors := r.localErrors)
  }

  /** The row is one that an agent emits without local errors. */
  ghost predicate ErrorFree(plans: seq<ClientPlan>, s: Settings, r: Observation)
    requires BatchesKnown(plans, s)
  {
    exists i: nat, c: nat, d: Name {:trigger Due(plans, i, c, d)} ::
      Due(plans, i, c, d) && r == EmittedRow(plans[i], s, c, d, 0)
  }

  /** The frame that a row fitting the plan belongs to. */
  lemma FitsFrom(plans: seq<ClientPlan>, s: Settings, e: Expectations, r: Observation) returns (i: nat, c: nat)
    requires Compiled(plans, s, e) && BatchesKnown(plans, s) && FitsPlan(e, s.coverageEpochCycles, s.planId, r)
    ensures Due(plans, i, c, r.destination)
    ensures r == EmittedRow(plans[i], s, c, r.destination, 0).(portsActive := r.portsActive, portsTotal := r.portsTotal,
                                                               localErrors := r.localErrors)
  {
    c := r.cycle.value;
    var k := Wrap(c, s.coverageEpochCycles);
    assert OfPlan(plans, |plans|, r.source, k);
    i :| 0 <= i < |plans| && plans[i].name == r.source && k < |plans[i].frames|;
    assert Stored(plans[i], |plans[i].frames|, e.frames);
    assert e.frames[(r.source, k)] == ExpectOf(plans[i], plans[i].frames[k]);
  }

  /** The rows that are not unexpected are those of the plan; those that count as observations are
      exactly the error-free ones. */
  lemma ObservationsExact(plans: seq<ClientPlan>, s: Settings, e: Expectations, r: Observation)
    requires Compiled(plans, s, e) && BatchesKnown(plans, s)
    ensures FitsPlan(e, s.coverageEpochCycles, s.planId, r) <==> Planned(plans, s, r)
    ensures Valid(e, s, r) <==> ErrorFree(plans, s, r)
  {
    if FitsPlan(e, s.coverageEpochCycles, s.planId, r) {
      var i, c := FitsFrom(plans, s, e, r);
      assert Due(plans, i, c, r.destination);
    }
    if Planned(plans, s, r) {
      var i: nat, c: nat, d: Name :|
        && Due(plans, i, c, d)
        && r == EmittedRow(plans[i], s, c, d, 0).(portsActive := r.portsActive, portsTotal := r.portsTotal,
                                                  localErrors := r.localErrors);
      EmittedFits(plans, s, e, i, c, d);
    }
  }

  lemma EmittedFits(plans: seq<ClientPlan>, s: Settings, e: Expectations, i: nat, c: nat, d: Name)
    requires Compiled(plans, s, e) && BatchesKnown(plans, s) && Due(plans, i, c, d)
    ensures Valid(e, s, EmittedRow(plans[i], s, c, d, 0))
  {
    assert Stored(plans[i], |plans[i].frames|, e.frames);
    var k := Wrap(c, s.coverageEpochCycles);
    assert e.frames[(plans[i].name, k)] == ExpectOf(plans[i], plans[i].frames[k]);
  }

  /** Any stretch of `epoch + 1` ticks runs a given cycle of the epoch from start to end. */
  lemma EpochWithin(origin: int, tick: nat, epoch: nat, from: int, cycle: nat) returns (c: nat)
    requires tick > 0 && origin <= from && cycle < epoch
    ensures Wrap(c, epoch) == cycle
    ensures from <= origin + c * tick && origin + c * tick + tick <= from + epoch * tick + tick
  {
    var first := FirstTick(origin, tick, from);
    c := WrapReaches(first, cycle, epoch);
    CycleSpan(c, first, epoch - 1, tick);
  }

  /** Each expected combination is observed in any window of at least `epoch + 1` ticks. */
  lemma CombinationObserved(plans: seq<ClientPlan>, s: Settings, e: Expectations, src: Source, tick: nat,
                            from: int, to: int, rows: seq<Observation>, x: Combination) returns (o: Observation)
    requires Compiled(plans, s, e) && BatchesKnown(plans, s) && Healthy(plans, src, tick) && tick > 0
    requires Snapshot(plans, s, src, from, to, rows) && to >= from + s.coverageEpochCycles * tick + tick
    requires x in e.combinations && src.origin(x.0) <= from
    ensures o in rows && Valid(e, s, o) && CombinationOf(o) == x
  {
    var i := AllOrigin(plans, |plans|, x);
    var cycle := ClientOrigin(plans[i], |plans[i].frames|, x);
    var c := EpochWithin(src.origin(x.0), tick, s.coverageEpochCycles, from, cycle);
    assert Due(plans, i, c, x.1);
    o := RowOf(plans, s, src, i, c, x.1);
    EmittedIsValid(plans, s, e, src, i, c, x.1);
    assert Stamped(plans, src, i, c, x.1, from, to);
  }

  lemma AllObserved(plans: seq<ClientPlan>, s: Settings, e: Expectations, src: Source, tick: nat,
                    from: int, to: int, rows: seq<Observation>)
    requires Compiled(plans, s, e) && BatchesKnown(plans, s) && Healthy(plans, src, tick) && tick > 0
    requires Snapshot(plans, s, src, from, to, rows) && to >= from + s.coverageEpochCycles * tick + tick
    requires forall x :: x in e.combinations ==> src.origin(x.0) <= from
    ensures e.combinations <= set o | o in rows && Valid(e, s, o) :: CombinationOf(o)
  {
    forall x | x in e.combinations
      ensures exists o :: o in rows && Valid(e, s, o) && CombinationOf(o) == x
    {
      var o := CombinationObserved(plans, s, e, src, tick, from, to, rows, x);
    }
  }

  lemma AllDueValid(plans: seq<ClientPlan>, s: Settings, e: Expectations, src: Source, tick: nat, from: int, to: int,
                    rows: seq<Observation>)
    requires Compiled(plans, s, e) && BatchesKnown(plans, s) && Healthy(plans, src, tick)
    requires Snapshot(plans, s, src, from, to, rows)
    ensures forall i :: 0 <= i < |rows| ==> Valid(e, s, rows[i])
  {
    forall j | 0 <= j < |rows|
      ensures Valid(e, s, rows[j])
    {
      assert rows[j] in rows;
      assert IsDueRow(plans, s, src, from, to, rows[j]);
      var i: nat, c: nat, d: Name :|
        Due(plans, i, c, d) && Stamped(plans, src, i, c, d, from, to) && rows[j] == RowOf(plans, s, src, i, c, d);
      EmittedIsValid(plans, s, e, src, i, c, d);
    }
  }

  lemma OriginsKnown(plans: seq<ClientPlan>, s: Settings, e: Expectations, origin: Name -> int, from: int)
    requires Compiled(plans, s, e) && forall i :: 0 <= i < |plans| ==> origin(plans[i].name) <= from
    ensures forall x :: x in e.combinations ==> origin(x.0) <= from
  {
    forall x | x in e.combinations
      ensures origin(x.0) <= from
    {
      var i := AllOrigin(plans, |plans|, x);
      var cycle := ClientOrigin(plans[i], |plans[i].frames|, x);
    }
  }

  /** Every window of `complete_window_seconds` after the first tick is reported complete. */
  lemma CompleteWindow(plans: seq<ClientPlan>, s: Settings, e: Expectations, src: Source, unit: nat,
                       from: int, rows: seq<Observation>)
    requires Compiled(plans, s, e) && BatchesKnown(plans, s) && unit > 0 && s.cycleIntervalSeconds > 0
    requires s.coverageEpochSeconds == s.coverageEpochCycles * s.cycleIntervalSeconds
    requires s.completeWindowSeconds >= s.coverageEpochSeconds + 2 * s.cycleIntervalSeconds
    requires Healthy(plans, src, unit * s.cycleIntervalSeconds)
    requires forall i :: 0 <= i < |plans| ==> src.origin(plans[i].name) <= from
    requires Snapshot(plans, s, src, from, from + unit * s.completeWindowSeconds, rows)
    ensures (set o | o in rows && Valid(e, s, o) :: CombinationOf(o)) == e.combinations
    ensures forall i :: 0 <= i < |rows| ==> Valid(e, s, rows[i])
  {
    WindowTicks(s, unit);
    CompleteTicks(plans, s, e, src, unit * s.cycleIntervalSeconds, from, from + unit * s.completeWindowSeconds, rows);
  }

  /** A window one tick longer than an epoch observes every combination. */
  lemma CompleteTicks(plans: seq<ClientPlan>, s: Settings, e: Expectations, src: Source, tick: nat,
                      from: int, to: int, rows: seq<Observation>)
    requires Compiled(plans, s, e) && BatchesKnown(plans, s) && tick > 0 && Healthy(plans, src, tick)
    requires Snapshot(plans, s, src, from, to, rows)
    requires to >= from + s.coverageEpochCycles * tick + tick
    requires forall i :: 0 <= i < |plans| ==> src.origin(plans[i].name) <= from
    ensures (set o | o in rows && Valid(e, s, o) :: CombinationOf(o)) == e.combinations
    ensures forall i :: 0 <= i < |rows| ==> Valid(e, s, rows[i])
  {
    OriginsKnown(plans, s, e, src.origin, from);
    AllObserved(plans, s, e, src, tick, from, to, rows);
    ObservedPlusMissing(plans, s, e, rows);
    AllDueValid(plans, s, e, src, tick, from, to, rows);
  }

  lemma WindowTicks(s: Settings, unit: nat)
    requires unit > 0 && s.cycleIntervalSeconds > 0
    requires s.coverageEpochSeconds == s.coverageEpochCycles * s.cycleIntervalSeconds
    requires s.completeWindowSeconds >= s.coverageEpochSeconds + 2 * s.cycleIntervalSeconds
    ensures unit * s.cycleIntervalSeconds > 0
    ensures unit * s.completeWindowSeconds >=
            s.coverageEpochCycles * (unit * s.cycleIntervalSeconds) + unit * s.cycleIntervalSeconds
  {
    var e, i, w := s.coverageEpochCycles, s.cycleIntervalSeconds, s.completeWindowSeconds;
    Scaled(w, e * i + i, unit);
    assert unit * (e * i + i) == unit * (e * i) + unit * i;
    assert unit * (e * i) == e * (unit * i);
  }

  lemma Scaled(a: nat, b: nat, unit: nat)
    requires a >= b
    ensures unit * a >= unit * b
  {
  }
}
