/** The traffic agent's generation-guarded requests and the scheduler that owns the
    flow-active flags (native/client-agent/src/traffic.rs:169-284, 644-660). */
module TrafficAgent {
  import opened Counting
  import opened Options

  /** Only the shape of a plan matters here; `flows` are opaque descriptions. */
  datatype TrafficPlan = TrafficPlan(listeners: seq<nat>, flows: seq<string>)

  datatype Status = Status(ready: bool, enabled: bool, generation: nat, digest: string, expectedFlows: nat,
                           activeFlows: nat, expectedListeners: nat, activeListeners: nat)

  const DEFAULT_STATUS := Status(false, false, 0, "", 0, 0, 0, 0)

  /** The scheduler task: one flag per flow, and a flag change whose status update is still to
      come (`set_flow_active` awaits the status lock in between). */
  datatype Sender = Sender(active: seq<bool>, update: Option<bool>)

  datatype Agent = Agent(status: Status, plan: Option<TrafficPlan>, listenerTasks: nat, sender: Option<Sender>)

  const FRESH_AGENT := Agent(DEFAULT_STATUS, None, 0, None)

  // ---------------------------------------------------------------- requests

  predicate Matches(a: Agent, generation: nat, digest: string) {
    a.status.generation == generation && a.status.digest == digest
  }

  predicate ListenersUp(s: Status) { s.activeListeners == s.expectedListeners }

  /** `disable`: the scheduler is stopped before the status changes. */
  function Disable(a: Agent): Agent {
    a.(sender := None, status := a.status.(enabled := false, activeFlows := 0, ready := ListenersUp(a.status)))
  }

  predicate LoadAccepted(generation: nat, digest: string, plan: TrafficPlan, digestOf: TrafficPlan -> string) {
    generation != 0 && digest != "" && digestOf(plan) == digest
  }

  /** `load`; `bound` says whether every listener could be bound. */
  function Loaded(a: Agent, generation: nat, digest: string, plan: TrafficPlan, digestOf: TrafficPlan -> string, bound: bool): Agent {
    if !LoadAccepted(generation, digest, plan, digestOf) then a
    else if !bound then FRESH_AGENT
    else Agent(Status(true, false, generation, digest, |plan.flows|, 0, |plan.listeners|, |plan.listeners|),
               Some(plan), |plan.listeners|, None)
  }

  function Enabled(a: Agent, generation: nat, digest: string): Agent {
    if !Matches(a, generation, digest) || a.sender.Some? || a.plan.None? then a else
      var s := a.status.(enabled := true, ready := false, activeFlows := 0);
      if a.plan.value.flows == [] then a.(status := s.(ready := ListenersUp(s)))
      else a.(status := s, sender := Some(Sender(seq(|a.plan.value.flows|, _ => false), None)))
  }

  function DisableRequest(a: Agent, generation: nat, digest: string): Agent {
    if Matches(a, generation, digest) then Disable(a) else a
  }

  // ---------------------------------------------------------------- scheduler steps

  /** First half of `set_flow_active`: the flag. */
  function Flag(a: Agent, i: nat, value: bool): Agent {
    if a.sender.None? || a.sender.value.update.Some? || i >= |a.sender.value.active| || a.sender.value.active[i] == value
    then a
    else a.(sender := Some(Sender(a.sender.value.active[i := value], Some(value))))
  }

  /** Second half: the status, once its lock is held. */
  function Commit(a: Agent): Agent {
    if a.sender.None? || a.sender.value.update.None? then a else
      var up := a.sender.value.update.value;
      var flows := if up then a.status.activeFlows + 1 else if a.status.activeFlows > 0 then a.status.activeFlows - 1 else 0;
      var s := a.status.(activeFlows := flows);
      a.(sender := Some(Sender(a.sender.value.active, None)),
         status := s.(ready := ListenersUp(s) && (!s.enabled || s.activeFlows == s.expectedFlows)))
  }

  // ---------------------------------------------------------------- the invariant

  function TrueCount(flags: seq<bool>): nat {
    if flags == [] then 0 else TrueCount(flags[..|flags| - 1]) + if flags[|flags| - 1] then 1 else 0
  }

  /** The flags, the status count, and the change in flight. */
  ghost predicate FlagsCounted(s: Sender, activeFlows: nat) {
    match s.update
    case None => activeFlows == TrueCount(s.active)
    case Some(up) => if up then activeFlows + 1 == TrueCount(s.active) else activeFlows == TrueCount(s.active) + 1
  }

  ghost predicate PlanConsistent(a: Agent, digestOf: TrafficPlan -> string) {
    && (a.plan.Some? <==> a.status.generation != 0)
    && (a.plan.Some? ==> a.status.digest == digestOf(a.plan.value) && a.status.digest != "")
    && (a.plan.None? ==> a.status.digest == "")
    && a.status.expectedFlows == (if a.plan.Some? then |a.plan.value.flows| else 0)
  }

  ghost predicate ListenersConsistent(a: Agent) {
    && a.listenerTasks == a.status.activeListeners == a.status.expectedListeners
    && a.listenerTasks == (if a.plan.Some? then |a.plan.value.listeners| else 0)
  }

  ghost predicate SenderConsistent(a: Agent) {
    && (a.sender.Some? <==> a.status.enabled && a.status.expectedFlows > 0)
    && (a.sender.Some? ==> |a.sender.value.active| == a.status.expectedFlows
                           && FlagsCounted(a.sender.value, a.status.activeFlows))
    && (a.sender.None? ==> a.status.activeFlows == 0)
    && (a.status.enabled ==> a.plan.Some?)
  }

  ghost predicate ReadyConsistent(a: Agent) {
    && (a.status.enabled ==> (a.status.ready <==> a.status.activeFlows == a.status.expectedFlows))
    && (!a.status.enabled && a.plan.Some? ==> a.status.ready)
  }

  ghost predicate Inv(a: Agent, digestOf: TrafficPlan -> string) {
    PlanConsistent(a, digestOf) && ListenersConsistent(a) && SenderConsistent(a) && ReadyConsistent(a)
  }

  lemma {:induction false} TrueCountUpdate(flags: seq<bool>, i: nat, value: bool)
    requires i < |flags| && flags[i] != value
    ensures TrueCount(flags[i := value]) == if value then TrueCount(flags) + 1 else TrueCount(flags) - 1
  {
    var changed := flags[i := value];
    var n := |flags| - 1;
    if i < n {
      TrueCountUpdate(flags[..n], i, value);
      assert changed[..n] == flags[..n][i := value];
    } else {
      assert changed[..n] == flags[..n];
    }
  }

  lemma {:induction false} TrueCountAll(flags: seq<bool>)
    ensures TrueCount(flags) <= |flags|
    ensures TrueCount(flags) == |flags| <==> forall i :: 0 <= i < |flags| ==> flags[i]
  {
    if flags != [] {
      TrueCountAll(flags[..|flags| - 1]);
    }
  }

  lemma {:induction false} TrueCountNone(n: nat)
    ensures TrueCount(seq(n, _ => false)) == 0
  {
    var flags: seq<bool> := seq(n, _ => false);
    if n > 0 {
      TrueCountNone(n - 1);
      assert flags[..n - 1] == seq(n - 1, _ => false);
    }
  }

  // ---------------------------------------------------------------- runs

  datatype Step =
    | LoadStep(generation: nat, digest: string, plan: TrafficPlan, bound: bool)
    | EnableStep(generation: nat, digest: string)
    | DisableStep(generation: nat, digest: string)
    | ResetStep
    | FlagStep(flow: nat, value: bool)
    | CommitStep

  function Next(a: Agent, step: Step, digestOf: TrafficPlan -> string): Agent {
    match step
    case LoadStep(g, d, plan, bound) => Loaded(a, g, d, plan, digestOf, bound)
    case EnableStep(g, d) => Enabled(a, g, d)
    case DisableStep(g, d) => DisableRequest(a, g, d)
    case ResetStep => FRESH_AGENT
    case FlagStep(i, value) => Flag(a, i, value)
    case CommitStep => Commit(a)
  }

  lemma StepKeepsInv(a: Agent, step: Step, digestOf: TrafficPlan -> string)
    requires Inv(a, digestOf)
    ensures Inv(Next(a, step, digestOf), digestOf)
  {
    match step {
      case EnableStep(_, _) =>
        if a.plan.Some? {
          TrueCountNone(|a.plan.value.flows|);
        }
      case FlagStep(i, value) =>
        if a.sender.Some? && i < |a.sender.value.active| && a.sender.value.active[i] != value {
          TrueCountUpdate(a.sender.value.active, i, value);
        }
      case _ =>
    }
  }

  function Run(steps: seq<Step>, digestOf: TrafficPlan -> string): Agent {
    if steps == [] then FRESH_AGENT else Next(Run(steps[..|steps| - 1], digestOf), steps[|steps| - 1], digestOf)
  }

  /** In every reachable state: a plan is present exactly with a nonzero generation and its own
      digest, listener tasks match both counters, active flows count the raised flags, and an
      enabled agent is ready exactly when every flow is active. */
  lemma {:induction false} ReachableInv(steps: seq<Step>, digestOf: TrafficPlan -> string)
    ensures Inv(Run(steps, digestOf), digestOf)
  {
    if steps != [] {
      ReachableInv(steps[..|steps| - 1], digestOf);
      StepKeepsInv(Run(steps[..|steps| - 1], digestOf), steps[|steps| - 1], digestOf);
    }
  }

  /** With no flag change in flight, an enabled agent is ready exactly when all flags are up. */
  lemma ReadyMeansAllActive(a: Agent, digestOf: TrafficPlan -> string)
    requires Inv(a, digestOf) && a.sender.Some? && a.sender.value.update.None?
    ensures a.status.ready <==> forall i :: 0 <= i < |a.sender.value.active| ==> a.sender.value.active[i]
  {
    TrueCountAll(a.sender.value.active);
  }

  /** A request that fails the generation or digest check changes nothing. */
  lemma RejectedChangesNothing(a: Agent, generation: nat, digest: string, plan: TrafficPlan,
                               digestOf: TrafficPlan -> string, bound: bool)
    ensures !Matches(a, generation, digest) ==> Enabled(a, generation, digest) == a && DisableRequest(a, generation, digest) == a
    ensures (generation == 0 || digest == "" || digestOf(plan) != digest) ==> Loaded(a, generation, digest, plan, digestOf, bound) == a
  {
  }

  /** A request that fails its check in state `a`. */
  predicate Rejected(a: Agent, step: Step, digestOf: TrafficPlan -> string) {
    match step
    case LoadStep(g, d, plan, _) => !LoadAccepted(g, d, plan, digestOf)
    case EnableStep(g, d) => !Matches(a, g, d)
    case DisableStep(g, d) => !Matches(a, g, d)
    case _ => false
  }

  /** A rejected request leaves no trace: the run without it ends in the same state. */
  lemma {:induction false} RejectedLeavesNoTrace(before: seq<Step>, step: Step, after: seq<Step>, digestOf: TrafficPlan -> string)
    requires Rejected(Run(before, digestOf), step, digestOf)
    ensures Run(before + [step] + after, digestOf) == Run(before + after, digestOf)
  {
    if after == [] {
      var all := before + [step];
      assert all + after == all && before + after == before && all[..|before|] == before;
      match step {
        case LoadStep(g, d, plan, bound) => RejectedChangesNothing(Run(before, digestOf), g, d, plan, digestOf, bound);
        case EnableStep(g, d) => RejectedChangesNothing(Run(before, digestOf), g, d, TrafficPlan([], []), digestOf, false);
        case DisableStep(g, d) => RejectedChangesNothing(Run(before, digestOf), g, d, TrafficPlan([], []), digestOf, false);
        case _ =>
      }
    } else {
      var front, last := after[..|after| - 1], after[|after| - 1];
      RejectedLeavesNoTrace(before, step, front, digestOf);
      var longer, shorter := before + [step] + after, before + after;
      assert longer[..|longer| - 1] == before + [step] + front && shorter[..|shorter| - 1] == before + front;
    }
  }

  /** Readiness is no evidence of a plan: without one, the agent turns ready exactly on a
      disable request that names the empty generation. */
  lemma ReadyWithoutPlan(a: Agent, step: Step, digestOf: TrafficPlan -> string)
    requires Inv(a, digestOf) && a.plan.None? && !a.status.ready
    ensures var b := Next(a, step, digestOf);
            b.plan.None? && b.status.ready <==> step == DisableStep(0, "")
  {
  }

  // ---------------------------------------------------------------- what accepted requests achieve

  /** An accepted load whose listeners could be bound installs the plan, disabled and ready; one
      whose listeners could not leaves no plan. */
  lemma LoadInstalls(a: Agent, generation: nat, digest: string, plan: TrafficPlan, digestOf: TrafficPlan -> string, bound: bool)
    requires generation != 0 && digest != "" && digestOf(plan) == digest
    ensures var b := Next(a, LoadStep(generation, digest, plan, bound), digestOf);
            && b.sender == None && !b.status.enabled && b.status.activeFlows == 0
            && b.status.ready == bound
            && b.plan == (if bound then Some(plan) else None)
            && b.status.generation == (if bound then generation else 0) && b.status.digest == (if bound then digest else "")
            && b.status.expectedFlows == (if bound then |plan.flows| else 0)
            && b.listenerTasks == b.status.activeListeners == b.status.expectedListeners
            && b.listenerTasks == (if bound then |plan.listeners| else 0)
  {
  }

  /** An accepted enable of a disabled agent starts one lowered flag per flow; without flows the
      agent is ready at once. An enabled agent stays as it is. */
  lemma EnableStarts(a: Agent, generation: nat, digest: string, digestOf: TrafficPlan -> string)
    requires Inv(a, digestOf) && a.plan.Some? && a.status.generation == generation && a.status.digest == digest
    ensures var b := Next(a, EnableStep(generation, digest), digestOf);
            && b.status.enabled && b.plan == a.plan && b.listenerTasks == a.listenerTasks
            && b.status.generation == generation && b.status.digest == digest
            && b.status.expectedFlows == |a.plan.value.flows|
            && (a.status.enabled ==> b == a)
            && (!a.status.enabled ==>
                  && b.status.activeFlows == 0 && (b.status.ready <==> a.plan.value.flows == [])
                  && (b.sender.Some? <==> a.plan.value.flows != [])
                  && (b.sender.Some? ==>
                        && b.sender.value.update == None && |b.sender.value.active| == |a.plan.value.flows|
                        && forall i :: 0 <= i < |b.sender.value.active| ==> !b.sender.value.active[i]))
  {
  }

  /** An accepted disable stops the scheduler and keeps the plan. */
  lemma DisableStops(a: Agent, generation: nat, digest: string, digestOf: TrafficPlan -> string)
    requires Inv(a, digestOf) && a.status.generation == generation && a.status.digest == digest
    ensures var b := Next(a, DisableStep(generation, digest), digestOf);
            && !b.status.enabled && b.sender == None && b.status.activeFlows == 0 && b.status.ready
            && b.plan == a.plan && b.listenerTasks == a.listenerTasks
            && b.status.generation == generation && b.status.digest == digest
            && b.status.expectedFlows == a.status.expectedFlows
  {
  }

  /** The steps from any state. */
  function RunFrom(a: Agent, steps: seq<Step>, digestOf: TrafficPlan -> string): Agent {
    if steps == [] then a else Next(RunFrom(a, steps[..|steps| - 1], digestOf), steps[|steps| - 1], digestOf)
  }

  /** The flags of the listed flows raised one after the other, each with its status update. */
  function Raising(order: seq<nat>): seq<Step> {
    if order == [] then [] else
      Raising(order[..|order| - 1]) + [FlagStep(order[|order| - 1], true), CommitStep]
  }

  /** Exactly the flags of the listed flows are up and counted, and no change is in flight. */
  ghost predicate Raised(b: Agent, a: Agent, order: seq<nat>) {
    && b.plan == a.plan && b.listenerTasks == a.listenerTasks
    && b.status == a.status.(activeFlows := |order|, ready := |order| == a.status.expectedFlows)
    && b.sender.Some? && b.sender.value.update == None && |b.sender.value.active| == a.status.expectedFlows
    && forall i :: 0 <= i < |b.sender.value.active| ==> (b.sender.value.active[i] <==> i in order)
  }

  /** Every different flag raised and committed counts once; the agent is ready exactly when all are. */
  lemma {:induction false} RaisingCounts(a: Agent, order: seq<nat>, digestOf: TrafficPlan -> string)
    requires Inv(a, digestOf) && a.sender.Some? && a.sender.value.update == None && a.status.expectedFlows > 0
    requires forall i :: 0 <= i < |a.sender.value.active| ==> !a.sender.value.active[i]
    requires NoDup(order) && forall i :: i in order ==> i < a.status.expectedFlows
    ensures Raised(RunFrom(a, Raising(order), digestOf), a, order)
  {
    if order == [] {
      NoneRaised(a.sender.value.active);
    } else {
      var front, last := order[..|order| - 1], order[|order| - 1];
      assert order == front + [last];
      assert forall i :: i in front ==> i in order;
      RaisingCounts(a, front, digestOf);
      var steps := Raising(front);
      var all := steps + [FlagStep(last, true)] + [CommitStep];
      assert Raising(order) == all;
      assert all[..|all| - 1] == steps + [FlagStep(last, true)];
      assert (steps + [FlagStep(last, true)])[..|steps|] == steps;
      assert last in order && last !in front;
      RaiseOne(a, RunFrom(a, steps, digestOf), front, last);
    }
  }

  lemma RaiseOne(a: Agent, b: Agent, front: seq<nat>, last: nat)
    requires Raised(b, a, front) && last < a.status.expectedFlows && last !in front
    requires a.status.enabled && ListenersUp(a.status)
    ensures Raised(Commit(Flag(b, last, true)), a, front + [last])
  {
    assert !b.sender.value.active[last];
  }

  lemma {:induction false} NoneRaised(flags: seq<bool>)
    requires forall i :: 0 <= i < |flags| ==> !flags[i]
    ensures TrueCount(flags) == 0
  {
    if flags != [] {
      NoneRaised(flags[..|flags| - 1]);
    }
  }

  /** Loading a plan, enabling it and raising every flag, in any order, ends with every flow
      active and a ready agent, whatever the agent did before; the disable that follows stops it. */
  lemma TrafficFlows(before: seq<Step>, generation: nat, digest: string, plan: TrafficPlan, order: seq<nat>,
                     digestOf: TrafficPlan -> string)
    requires generation != 0 && digest != "" && digestOf(plan) == digest && plan.flows != []
    requires NoDup(order) && forall i: nat :: i in order <==> i < |plan.flows|
    ensures var steps := before + [LoadStep(generation, digest, plan, true), EnableStep(generation, digest)];
            var a := RunFrom(Run(steps, digestOf), Raising(order), digestOf);
            && a.status.enabled && a.status.ready && a.status.activeFlows == |plan.flows| == a.status.expectedFlows
            && a.plan == Some(plan) && a.status.generation == generation && a.status.digest == digest
            && a.sender.Some? && (forall i :: 0 <= i < |a.sender.value.active| ==> a.sender.value.active[i])
            && (var b := Next(a, DisableStep(generation, digest), digestOf);
                !b.status.enabled && b.sender == None && b.status.activeFlows == 0 && b.plan == Some(plan))
  {
    var loaded := before + [LoadStep(generation, digest, plan, true)];
    var steps := loaded + [EnableStep(generation, digest)];
    assert steps == before + [LoadStep(generation, digest, plan, true), EnableStep(generation, digest)];
    assert loaded[..|before|] == before && steps[..|loaded|] == loaded;
    ReachableInv(loaded, digestOf);
    ReachableInv(steps, digestOf);
    LoadInstalls(Run(before, digestOf), generation, digest, plan, digestOf, true);
    EnableStarts(Run(loaded, digestOf), generation, digest, digestOf);
    RaisingCounts(Run(steps, digestOf), order, digestOf);
    assert |order| == |plan.flows| by {
      AllListed(order, |plan.flows|);
    }
  }

  lemma AllListed(order: seq<nat>, n: nat)
    requires NoDup(order) && forall i: nat :: i in order <==> i < n
    ensures |order| == n
  {
    NoDupCard(order);
    RangeCard(n);
    assert Elems(order) == Elems(Range(n)) by {
      forall i: nat
        ensures i in Elems(order) <==> i in Elems(Range(n))
      {
        assert i < n ==> Range(n)[i] == i;
      }
    }
    NoDupCard(Range(n));
  }

  // ---------------------------------------------------------------- the runtime object

  /** `TrafficRuntime`: requests update its fields in place; the scheduler owns `sender`. */
  class TrafficRuntime {
    var status: Status
    var plan: Option<TrafficPlan>
    var listenerTasks: seq<nat>
    var sender: Option<Sender>

    ghost function View(): Agent
      reads this
    {
      Agent(status, plan, |listenerTasks|, sender)
    }

    constructor ()
      ensures View() == FRESH_AGENT
    {
      status, plan, listenerTasks, sender := DEFAULT_STATUS, None, [], None;
    }

    method DisableAll()
      modifies this
      ensures View() == Disable(old(View()))
      ensures !status.enabled && status.activeFlows == 0 && sender == None
      ensures plan == old(plan) && listenerTasks == old(listenerTasks)
    {
      sender := None;
      status := status.(enabled := false);
      status := status.(activeFlows := 0);
      status := status.(ready := status.activeListeners == status.expectedListeners);
    }

    /** Binds the plan's listeners in order; `binds` says which ports can be bound. */
    method Load(generation: nat, digest: string, newPlan: TrafficPlan, digestOf: TrafficPlan -> string, binds: nat -> bool)
      returns (ok: bool)
      modifies this
      ensures var bound := forall i :: 0 <= i < |newPlan.listeners| ==> binds(newPlan.listeners[i]);
              && View() == Loaded(old(View()), generation, digest, newPlan, digestOf, bound)
              && (ok <==> LoadAccepted(generation, digest, newPlan, digestOf) && bound)
      ensures ok ==>
                && plan == Some(newPlan) && listenerTasks == newPlan.listeners && sender == None
                && status == Status(true, false, generation, digest, |newPlan.flows|, 0, |newPlan.listeners|, |newPlan.listeners|)
    {
      if generation == 0 || digest == "" {
        return false;
      }
      if digestOf(newPlan) != digest {
        return false;
      }
      DisableAll();
      listenerTasks := [];
      var handles: seq<nat> := [];
      for i := 0 to |newPlan.listeners|
        invariant handles == newPlan.listeners[..i] && forall j :: 0 <= j < i ==> binds(newPlan.listeners[j])
      {
        if !binds(newPlan.listeners[i]) {
          plan := None;
          status := DEFAULT_STATUS;
          return false;
        }
        handles := handles + [newPlan.listeners[i]];
        assert newPlan.listeners[..i + 1] == newPlan.listeners[..i] + [newPlan.listeners[i]];
      }
      assert newPlan.listeners[..|newPlan.listeners|] == newPlan.listeners;
      listenerTasks := handles;
      plan := Some(newPlan);
      status := status.(generation := generation, digest := digest, enabled := false);
      status := status.(expectedFlows := |newPlan.flows|, activeFlows := 0);
      status := status.(expectedListeners := |newPlan.listeners|, activeListeners := |listenerTasks|);
      status := status.(ready := status.activeListeners == status.expectedListeners);
      ok := true;
    }

    method Reset()
      modifies this
      ensures View() == FRESH_AGENT
    {
      DisableAll();
      listenerTasks := [];
      plan := None;
      status := DEFAULT_STATUS;
    }

    method Enable(generation: nat, digest: string) returns (ok: bool)
      modifies this
      ensures View() == Enabled(old(View()), generation, digest)
      ensures ok <==> Matches(old(View()), generation, digest) && (old(sender).Some? || old(plan).Some?)
      ensures plan == old(plan) && listenerTasks == old(listenerTasks)
      ensures ok && old(sender).None? ==>
                && status.enabled && status.activeFlows == 0
                && status == old(status).(enabled := true, ready := status.ready, activeFlows := 0)
                && (plan.value.flows == [] ==>
                      sender == None && (status.ready <==> status.activeListeners == status.expectedListeners))
                && (plan.value.flows != [] ==>
                      && !status.ready && sender.Some? && sender.value.update == None
                      && |sender.value.active| == |plan.value.flows|
                      && forall i :: 0 <= i < |sender.value.active| ==> !sender.value.active[i])
      ensures !ok || old(sender).Some? ==> status == old(status) && sender == old(sender)
    {
      if status.generation != generation || status.digest != digest {
        return false;
      }
      if sender.Some? {
        return true;
      }
      if plan.None? {
        return false;
      }
      status := status.(enabled := true, ready := false, activeFlows := 0);
      if plan.value.flows == [] {
        status := status.(ready := status.activeListeners == status.expectedListeners);
      } else {
        sender := Some(Sender(seq(|plan.value.flows|, _ => false), None));
      }
      ok := true;
    }

    method HandleDisable(generation: nat, digest: string) returns (ok: bool)
      modifies this
      ensures View() == DisableRequest(old(View()), generation, digest)
      ensures ok <==> Matches(old(View()), generation, digest)
      ensures ok ==> !status.enabled && status.activeFlows == 0 && sender == None
      ensures !ok ==> status == old(status) && sender == old(sender)
      ensures plan == old(plan) && listenerTasks == old(listenerTasks)
    {
      ok := status.generation == generation && status.digest == digest;
      if ok {
        DisableAll();
      }
    }

    /** `set_flow_active` up to the point where it waits for the status lock. */
    method RaiseFlag(i: nat, value: bool)
      modifies this`sender
      ensures View() == Flag(old(View()), i, value)
    {
      if sender.Some? && sender.value.update.None? && i < |sender.value.active| && sender.value.active[i] != value {
        sender := Some(Sender(sender.value.active[i := value], Some(value)));
      }
    }

    method CommitFlag()
      modifies this`sender, this`status
      ensures View() == Commit(old(View()))
    {
      if sender.Some? && sender.value.update.Some? {
        if sender.value.update.value {
          status := status.(activeFlows := status.activeFlows + 1);
        } else {
          status := status.(activeFlows := if status.activeFlows > 0 then status.activeFlows - 1 else 0);
        }
        status := status.(ready := status.activeListeners == status.expectedListeners
                          && (!status.enabled || status.activeFlows == status.expectedFlows));
        sender := Some(Sender(sender.value.active, None));
      }
    }
  }
}
