/** One probe cycle (native/client-agent/src/pingmesh.rs, `run_probe_cycle`,
    `unanswered_df_targets`, `build_result`): what it sends and receives, in order, and what its
    results report. */
module ProbeCycle {
  import opened Counting
  import opened ProbePlan

  import opened ProbeEvents

  const CONFIRMATIONS := 15

  // ---------------------------------------------------------------- the cycle

  datatype Drain = Drained(packets: seq<Packet>) | DrainFailed

  /** What the sockets and the clock do: the outcome of the i-th send, the packets waiting at
      the i-th drain, and how many polls fit before the deadline. */
  datatype Environment = Environment(outcome: nat -> SendOutcome, drain: nat -> Drain, polls: nat)

  datatype Result = Result(packetsSent: nat, packetsLost: nat, packetLoss: real, dfSent: nat, dfLost: nat, dfMtuDrops: nat,
                           localErrors: nat, portsActive: nat, rtts: seq<nat>)

  /** `build_result`, with saturating subtraction. */
  function BuildResult(rtt: Stats, df: Stats, sockets: nat): Result {
    Result(ValidSent(rtt), Lost(rtt), PercentageLost(rtt), ValidSent(df), Lost(df), df.mtuDrops,
           rtt.localErrors + df.localErrors, sockets, rtt.rtts)
  }

  /** The probes sent, in order, each with its outcome. */
  ghost function SentProbes(events: seq<Event>): seq<(Probe, SendOutcome)> {
    if events == [] then [] else
      var front, last := SentProbes(events[..|events| - 1]), events[|events| - 1];
      if last.Sending? then front + [(Probe(last.kind, last.target, last.socket), last.outcome)] else front
  }

  /** `probes` sent one after the other, from the k-th send of the environment on. */
  ghost function Attempted(probes: seq<Probe>, env: Environment, k: nat): seq<(Probe, SendOutcome)> {
    seq(|probes|, i requires 0 <= i < |probes| => (probes[i], env.outcome(k + i)))
  }

  // The events of a cycle, in order: what is sent, and what each drain finds.

  ghost function SendEvent(probe: Probe, outcome: SendOutcome): Event {
    Sending(probe.kind, probe.target, probe.socket, outcome)
  }

  ghost function Receivings(packets: seq<Packet>): seq<Event> {
    seq(|packets|, i requires 0 <= i < |packets| => Receiving(packets[i]))
  }

  ghost function Arrivals(d: Drain): seq<Event> {
    if d.Drained? then Receivings(d.packets) else []
  }

  /** The first `i` queue entries, a drain after each. */
  ghost function QueueEvents(queue: seq<Probe>, env: Environment, i: nat): seq<Event>
    requires i <= |queue|
  {
    if i == 0 then [] else
      QueueEvents(queue, env, i - 1) + ([SendEvent(queue[i - 1], env.outcome(i - 1))] + Arrivals(env.drain(i - 1)))
  }

  /** `m` drains in a row. */
  ghost function DrainEvents(env: Environment, from: nat, m: nat): seq<Event> {
    if m == 0 then [] else DrainEvents(env, from, m - 1) + Arrivals(env.drain(from + m - 1))
  }

  /** One confirmation round, from the k-th send on. */
  ghost function RoundEvents(list: seq<(nat, nat)>, env: Environment, k: nat): seq<Event> {
    seq(|list|, i requires 0 <= i < |list| => SendEvent(Probe(Df, list[i].0, list[i].1), env.outcome(k + i)))
  }

  ghost function RoundAndReplies(list: seq<(nat, nat)>, env: Environment, k: nat, d: Drain): seq<Event> {
    RoundEvents(list, env, k) + Arrivals(d)
  }

  /** `r` confirmation rounds, a drain after each. */
  ghost function ConfirmEvents(list: seq<(nat, nat)>, env: Environment, k: nat, drains: nat, r: nat): seq<Event> {
    if r == 0 then [] else
      ConfirmEvents(list, env, k, drains, r - 1)
      + RoundAndReplies(list, env, k + Area(r - 1, |list|), env.drain(drains + r - 1))
  }

  /** No drain of `[from, from + m)` fails. */
  ghost predicate Quiet(env: Environment, from: nat, m: nat) {
    forall i {:trigger env.drain(i)} :: from <= i < from + m ==> env.drain(i).Drained?
  }

  /** Up to the cutoff: the queue, and two drains. */
  ghost function EarlyEvents(queue: seq<Probe>, env: Environment): seq<Event> {
    QueueEvents(queue, env, |queue|) + DrainEvents(env, |queue|, 2)
  }

  /** The `m` polls until the deadline, and the last drain. */
  ghost function WaitEvents(env: Environment, from: nat, m: nat): seq<Event> {
    DrainEvents(env, from, m) + DrainEvents(env, from + env.polls, 1)
  }

  /** After the cutoff: the confirmation rounds, `m` polls, and the last drain. */
  ghost function LateEvents(queue: seq<Probe>, list: seq<(nat, nat)>, env: Environment, rounds: nat, m: nat): seq<Event> {
    ConfirmEvents(list, env, |queue|, |queue| + 2, rounds)
    + WaitEvents(env, |queue| + 17, m)
  }

  ghost function CycleEvents(queue: seq<Probe>, list: seq<(nat, nat)>, env: Environment, rounds: nat, m: nat): seq<Event> {
    EarlyEvents(queue, env) + LateEvents(queue, list, env, rounds, m)
  }

  /** No drain after the cutoff fails, and the polls end with the deadline or earlier. */
  ghost predicate LateQuiet(queue: seq<Probe>, env: Environment, rounds: nat, m: nat) {
    && Quiet(env, |queue| + 2, rounds) && Quiet(env, |queue| + 17, m) && Quiet(env, |queue| + 17 + env.polls, 1)
    && m <= env.polls
  }

  /** A socket fails in some send or some drain. */
  ghost predicate Breaks(env: Environment) {
    || (exists k: nat {:trigger env.outcome(k)} :: env.outcome(k).Broken?)
    || (exists k: nat {:trigger env.drain(k)} :: env.drain(k).DrainFailed?)
  }

  lemma AttemptedMore(a: seq<Probe>, b: seq<Probe>, env: Environment, k: nat)
    ensures Attempted(a + b, env, k) == Attempted(a, env, k) + Attempted(b, env, k + |a|)
  {
  }

  lemma {:induction false} SentMore(a: seq<Event>, b: seq<Event>)
    ensures SentProbes(a + b) == SentProbes(a) + SentProbes(b)
  {
    if b == [] {
      assert a + b == a;
    } else {
      SentMore(a, b[..|b| - 1]);
      assert (a + b)[..|a + b| - 1] == a + b[..|b| - 1];
    }
  }

  lemma {:induction false} SendsAreProbes(events: seq<Event>)
    ensures Sends(events) == |SentProbes(events)|
  {
    if events != [] {
      SendsAreProbes(events[..|events| - 1]);
    }
  }

  lemma {:induction false} NothingSent(packets: seq<Packet>)
    ensures SentProbes(Receivings(packets)) == []
  {
    if packets != [] {
      NothingSent(packets[..|packets| - 1]);
      assert Receivings(packets)[..|packets| - 1] == Receivings(packets[..|packets| - 1]);
    }
  }

  /** `drain_replies` over the packets that are waiting. */
  method DrainReplies(st0: State, packets: seq<Packet>) returns (st: State)
    requires InBounds(st0)
    ensures Leads(st0, Receivings(packets), st) && st.pending.Keys <= st0.pending.Keys
  {
    st := st0;
    for i := 0 to |packets|
      invariant Leads(st0, Receivings(packets[..i]), st) && st.pending.Keys <= st0.pending.Keys
    {
      LeadsOne(st, Receiving(packets[i]));
      LeadsOn(st0, Receivings(packets[..i]), st, [Receiving(packets[i])], Receive(st, packets[i]));
      st := Receive(st, packets[i]);
      assert Receivings(packets[..i + 1]) == Receivings(packets[..i]) + [Receiving(packets[i])];
    }
    assert packets[..|packets|] == packets;
  }

  /** The pending DF probes to one target over one socket. */
  ghost function PendingOver(pending: map<nat, Pending>, x: (nat, nat)): set<nat> {
    set q | q in pending && pending[q].kind == Df && pending[q].target == x.0 && pending[q].socket == x.1
  }

  lemma PendingOverStep(pending: map<nat, Pending>, q: nat, p: Pending, x: (nat, nat))
    requires q !in pending
    ensures |PendingOver(pending[q := p], x)| ==
            |PendingOver(pending, x)| + if p.kind.Df? && (p.target, p.socket) == x then 1 else 0
  {
    var after, before := PendingOver(pending[q := p], x), PendingOver(pending, x);
    if p.kind.Df? && (p.target, p.socket) == x {
      assert after == before + {q};
    } else {
      assert after == before;
    }
  }

  /** `list` holds one (target, socket) entry per pending DF probe of `seen`. */
  ghost predicate Listed(seen: map<nat, Pending>, list: seq<(nat, nat)>, n: nat) {
    && (forall x :: multiset(list)[x] == |PendingOver(seen, x)|)
    && (forall t :: Occurrences(list, t) == |PendingOf(seen, Df, t)|)
    && |list| <= |seen|
    && forall i :: 0 <= i < |list| ==> list[i].0 < n
  }

  lemma ListOne(seen: map<nat, Pending>, list: seq<(nat, nat)>, n: nat, q: nat, item: Pending)
    requires Listed(seen, list, n) && q !in seen && item.target < n
    ensures item.kind.Df? ==> Listed(seen[q := item], list + [(item.target, item.socket)], n)
    ensures !item.kind.Df? ==> Listed(seen[q := item], list, n)
  {
    var x := (item.target, item.socket);
    var longer := if item.kind.Df? then list + [x] else list;
    MapGrows(seen, q, item);
    forall t
      ensures Occurrences(longer, t) == |PendingOf(seen[q := item], Df, t)|
    {
      assert Occurrences(list, t) == |PendingOf(seen, Df, t)|;
      OccurrenceAppend(list, x, t);
      SendPending(seen, q, item, Df, t);
    }
    forall y
      ensures multiset(longer)[y] == |PendingOver(seen[q := item], y)|
    {
      assert multiset(list)[y] == |PendingOver(seen, y)|;
      PendingOverStep(seen, q, item, y);
    }
  }

  lemma MapGrows(m: map<nat, Pending>, q: nat, item: Pending)
    requires q !in m
    ensures |m[q := item]| == |m| + 1
  {
    assert m[q := item].Keys == m.Keys + {q};
  }

  lemma OccurrenceAppend(list: seq<(nat, nat)>, x: (nat, nat), t: nat)
    ensures Occurrences(list + [x], t) == Occurrences(list, t) + if x.0 == t then 1 else 0
  {
    assert (list + [x])[..|list|] == list;
  }

  /** `unanswered_df_targets`: the pending DF probes, in any order. */
  method UnansweredDf(pending: map<nat, Pending>, ghost n: nat) returns (list: seq<(nat, nat)>)
    requires forall q :: q in pending ==> pending[q].target < n
    ensures Listed(pending, list, n)
  {
    list := [];
    var rest := pending.Keys;
    ghost var seen: map<nat, Pending> := map[];
    while rest != {}
      invariant rest <= pending.Keys && seen == (map q | q in pending && q !in rest :: pending[q])
      invariant Listed(seen, list, n)
    {
      var q :| q in rest;
      ListOne(seen, list, n, q, pending[q]);
      if pending[q].kind.Df? {
        list := list + [(pending[q].target, pending[q].socket)];
      }
      rest := rest - {q};
      seen := seen[q := pending[q]];
    }
    assert seen == pending;
  }

  ghost function Occurrences(list: seq<(nat, nat)>, t: nat): nat {
    if list == [] then 0 else
      Occurrences(list[..|list| - 1], t) + if list[|list| - 1].0 == t then 1 else 0
  }

  // ---------------------------------------------------------------- attempts per target

  /** Probes of one kind to one target. */
  ghost function Queued(queue: seq<Probe>, kind: ProbeKind, t: nat): nat {
    if queue == [] then 0 else
      var last := queue[|queue| - 1];
      Queued(queue[..|queue| - 1], kind, t) + if last.kind == kind && last.target == t then 1 else 0
  }

  ghost function ProbesOf(sent: seq<(Probe, SendOutcome)>): seq<Probe> {
    seq(|sent|, i requires 0 <= i < |sent| => sent[i].0)
  }

  /** The attempts of a run are the probes it sent. */
  lemma {:induction false} AttemptsAreSent(events: seq<Event>, kind: ProbeKind, t: nat)
    ensures Attempts(events, kind, t) == Queued(ProbesOf(SentProbes(events)), kind, t)
  {
    if events != [] {
      var front, last := events[..|events| - 1], events[|events| - 1];
      AttemptsAreSent(front, kind, t);
      if last.Sending? {
        var sent := SentProbes(events);
        assert ProbesOf(sent)[..|sent| - 1] == ProbesOf(SentProbes(front));
      }
    }
  }

  lemma {:induction false} QueuedAppend(a: seq<Probe>, b: seq<Probe>, kind: ProbeKind, t: nat)
    ensures Queued(a + b, kind, t) == Queued(a, kind, t) + Queued(b, kind, t)
  {
    if b == [] {
      assert a + b == a;
    } else {
      QueuedAppend(a, b[..|b| - 1], kind, t);
      assert (a + b)[..|a + b| - 1] == a + b[..|b| - 1];
    }
  }

  lemma {:induction false} QueuedRounds(r: nat, list: seq<(nat, nat)>, t: nat)
    ensures Queued(Rounds(r, DfProbes(list)), Df, t) == Area(r, Occurrences(list, t))
    ensures Queued(Rounds(r, DfProbes(list)), Rtt, t) == 0
  {
    if r > 0 {
      QueuedRounds(r - 1, list, t);
      QueuedAppend(Rounds(r - 1, DfProbes(list)), DfProbes(list), Df, t);
      QueuedAppend(Rounds(r - 1, DfProbes(list)), DfProbes(list), Rtt, t);
      QueuedList(list, t);
    }
  }

  lemma {:induction false} QueuedList(list: seq<(nat, nat)>, t: nat)
    ensures Queued(DfProbes(list), Df, t) == Occurrences(list, t) && Queued(DfProbes(list), Rtt, t) == 0
  {
    if list != [] {
      QueuedList(list[..|list| - 1], t);
      assert DfProbes(list)[..|list| - 1] == DfProbes(list[..|list| - 1]);
    }
  }

  lemma AttemptsOf(events: seq<Event>, probes: seq<Probe>, env: Environment, kind: ProbeKind, t: nat)
    requires SentProbes(events) == Attempted(probes, env, 0)
    ensures Attempts(events, kind, t) == Queued(probes, kind, t)
  {
    AttemptsAreSent(events, kind, t);
    assert ProbesOf(Attempted(probes, env, 0)) == probes;
  }

  /** What a cycle attempts: the queue, and fifteen more DF probes for each one unanswered at the cutoff. */
  lemma CycleAttempts(queue: seq<Probe>, env: Environment, n: nat, first: nat, cutoff: State, early: seq<Event>,
                      list: seq<(nat, nat)>, events: seq<Event>, t: nat)
    requires Running(cutoff, n, first, early) && SentProbes(early) == Attempted(queue, env, 0) && t < n
    requires Listed(cutoff.pending, list, n)
    requires SentProbes(events) == Attempted(queue + Rounds(CONFIRMATIONS, DfProbes(list)), env, 0)
    ensures Attempts(events, Rtt, t) == Queued(queue, Rtt, t)
    ensures Attempts(events, Df, t) == Queued(queue, Df, t) + 15 * Unanswered(cutoff, Df, t)
    ensures Unanswered(cutoff, Df, t) <= Queued(queue, Df, t)
  {
    var rounds := Rounds(CONFIRMATIONS, DfProbes(list));
    forall kind ensures Attempts(events, kind, t) == Queued(queue, kind, t) + Queued(rounds, kind, t) {
      AttemptsOf(events, queue + rounds, env, kind, t);
      QueuedAppend(queue, rounds, kind, t);
    }
    QueuedRounds(CONFIRMATIONS, list, t);
    FifteenTimes(Occurrences(list, t));
    AttemptsOf(early, queue, env, Df, t);
    assert Conserves(StatsOf(cutoff, Df)[t], Unanswered(cutoff, Df, t), PathErrors(early, Df, t),
                     Transients(early, Df, t), Attempts(early, Df, t));
  }

  // ---------------------------------------------------------------- the loops

  /** One probe; a broken socket aborts the cycle. */
  method SendOne(st0: State, probe: Probe, outcome: SendOutcome) returns (ok: bool, st: State)
    requires InBounds(st0) && probe.target < |st0.rtt|
    ensures ok <==> !outcome.Broken?
    ensures ok ==> Leads(st0, [SendEvent(probe, outcome)], st)
  {
    st, ok := st0, !outcome.Broken?;
    if ok {
      LeadsOne(st, SendEvent(probe, outcome));
      st := Send(st, probe.kind, probe.target, probe.socket, outcome);
    }
  }

  /** The packets of one drain; a failed one aborts the cycle. */
  method DrainOnce(st0: State, drain: Drain) returns (ok: bool, st: State)
    requires InBounds(st0)
    ensures ok <==> drain.Drained?
    ensures ok ==> Leads(st0, Arrivals(drain), st) && st.pending.Keys <= st0.pending.Keys
  {
    st, ok := st0, drain.Drained?;
    if ok {
      st := DrainReplies(st, drain.packets);
    }
  }

  lemma ArrivalsSend(d: Drain)
    ensures Silent(Arrivals(d))
  {
    if d.Drained? {
      NothingSent(d.packets);
    }
  }

  lemma OneSent(probe: Probe, outcome: SendOutcome)
    ensures SentProbes([SendEvent(probe, outcome)]) == [(probe, outcome)]
  {
    assert [SendEvent(probe, outcome)][..0] == [];
  }

  lemma SentWithDrain(probe: Probe, outcome: SendOutcome, d: Drain)
    ensures SentProbes([SendEvent(probe, outcome)] + Arrivals(d)) == [(probe, outcome)]
  {
    OneSent(probe, outcome);
    ArrivalsSend(d);
    SilentTail([SendEvent(probe, outcome)], Arrivals(d));
  }

  lemma NextQueued(queue: seq<Probe>, env: Environment, i: nat)
    requires 0 < i <= |queue|
    ensures Attempted(queue[..i], env, 0) == Attempted(queue[..i - 1], env, 0) + [(queue[i - 1], env.outcome(i - 1))]
  {
  }

  lemma OneProbeMore(a: seq<Event>, queue: seq<Probe>, env: Environment, i: nat, d: Drain)
    requires 0 < i <= |queue| && AreSent(a, queue[..i - 1], env, 0)
    ensures AreSent(a + ([SendEvent(queue[i - 1], env.outcome(i - 1))] + Arrivals(d)), queue[..i], env, 0)
  {
    SentWithDrain(queue[i - 1], env.outcome(i - 1), d);
    SentMore(a, [SendEvent(queue[i - 1], env.outcome(i - 1))] + Arrivals(d));
    NextQueued(queue, env, i);
  }

  lemma {:induction false} QueueSends(queue: seq<Probe>, env: Environment, i: nat)
    requires i <= |queue|
    ensures AreSent(QueueEvents(queue, env, i), queue[..i], env, 0)
    decreases i
  {
    if i > 0 {
      QueueSends(queue, env, i - 1);
      OneProbeMore(QueueEvents(queue, env, i - 1), queue, env, i, env.drain(i - 1));
    }
  }

  /** One queue entry: the probe, then whatever replies are waiting. */
  method SendAndDrain(st0: State, probe: Probe, outcome: SendOutcome, drain: Drain) returns (ok: bool, st: State)
    requires InBounds(st0) && probe.target < |st0.rtt|
    ensures ok <==> !outcome.Broken? && drain.Drained?
    ensures ok ==> Leads(st0, [SendEvent(probe, outcome)] + Arrivals(drain), st)
  {
    ok, st := SendOne(st0, probe, outcome);
    if ok {
      ghost var sent := st;
      ok, st := DrainOnce(st, drain);
      if ok {
        LeadsOn(st0, [SendEvent(probe, outcome)], sent, Arrivals(drain), st);
      }
    }
  }

  lemma QueueLeads(queue: seq<Probe>, env: Environment, i: nat, a: State, b: State, c: State)
    requires i < |queue| && Leads(a, QueueEvents(queue, env, i), b)
    requires Leads(b, [SendEvent(queue[i], env.outcome(i))] + Arrivals(env.drain(i)), c)
    ensures Leads(a, QueueEvents(queue, env, i + 1), c)
  {
    LeadsOn(a, QueueEvents(queue, env, i), b, [SendEvent(queue[i], env.outcome(i))] + Arrivals(env.drain(i)), c);
  }

  /** The send loop. */
  method SendQueue(queue: seq<Probe>, start: State, env: Environment) returns (ok: bool, st: State)
    requires InBounds(start) && forall i :: 0 <= i < |queue| ==> queue[i].target < |start.rtt|
    ensures ok ==> Leads(start, QueueEvents(queue, env, |queue|), st) && Quiet(env, 0, |queue|)
    ensures !ok ==> Breaks(env)
  {
    st, ok := start, true;
    for i := 0 to |queue|
      invariant Leads(start, QueueEvents(queue, env, i), st) && Quiet(env, 0, i) && ok
    {
      ghost var before := st;
      ok, st := SendAndDrain(st, queue[i], env.outcome(i), env.drain(i));
      if !ok {
        return;
      }
      QueueLeads(queue, env, i, start, before, st);
    }
  }

  /** DF probes to the listed (target, socket) pairs. */
  ghost function DfProbes(list: seq<(nat, nat)>): seq<Probe> {
    seq(|list|, i requires 0 <= i < |list| => Probe(Df, list[i].0, list[i].1))
  }

  /** The same probes, round after round. */
  ghost function Rounds(r: nat, probes: seq<Probe>): (all: seq<Probe>)
    ensures |all| == Area(r, |probes|)
  {
    if r == 0 then [] else Rounds(r - 1, probes) + probes
  }

  lemma {:induction false} RoundSends(list: seq<(nat, nat)>, env: Environment, k: nat)
    ensures SentProbes(RoundEvents(list, env, k)) == Attempted(DfProbes(list), env, k)
  {
    var events := RoundEvents(list, env, k);
    if list != [] {
      var m := |list| - 1;
      RoundSends(list[..m], env, k);
      assert events[..m] == RoundEvents(list[..m], env, k);
      assert events[m] == SendEvent(Probe(Df, list[m].0, list[m].1), env.outcome(k + m));
    }
  }

  /** One confirmation round: a DF probe to every listed target. */
  method SendRound(list: seq<(nat, nat)>, st0: State, k: nat, env: Environment) returns (ok: bool, st: State)
    requires InBounds(st0) && forall i :: 0 <= i < |list| ==> list[i].0 < |st0.rtt|
    ensures ok ==> Leads(st0, RoundEvents(list, env, k), st)
    ensures !ok ==> Breaks(env)
  {
    st, ok := st0, true;
    for i := 0 to |list|
      invariant Leads(st0, RoundEvents(list[..i], env, k), st) && ok
    {
      ghost var before := st;
      var probe := Probe(Df, list[i].0, list[i].1);
      ok, st := SendOne(st, probe, env.outcome(k + i));
      if !ok {
        return;
      }
      LeadsOn(st0, RoundEvents(list[..i], env, k), before, [SendEvent(probe, env.outcome(k + i))], st);
      assert RoundEvents(list[..i + 1], env, k) == RoundEvents(list[..i], env, k) + [SendEvent(probe, env.outcome(k + i))];
    }
    assert list[..|list|] == list;
  }

  /** What one round and its drain send. */
  lemma RoundAndDrain(list: seq<(nat, nat)>, env: Environment, k: nat, d: Drain)
    ensures SentProbes(RoundAndReplies(list, env, k, d)) == Attempted(DfProbes(list), env, k)
  {
    RoundSends(list, env, k);
    ArrivalsSend(d);
    SentMore(RoundEvents(list, env, k), Arrivals(d));
  }

  /** The events send exactly the probes, with the outcomes of the environment from the k-th on. */
  ghost predicate AreSent(events: seq<Event>, probes: seq<Probe>, env: Environment, k: nat) {
    SentProbes(events) == Attempted(probes, env, k)
  }

  lemma OneRoundMore(a: seq<Event>, sent: seq<Probe>, list: seq<(nat, nat)>, env: Environment, k: nat, d: Drain, next: nat)
    requires AreSent(a, sent, env, k) && next == k + |sent|
    ensures AreSent(a + RoundAndReplies(list, env, next, d), sent + DfProbes(list), env, k)
  {
    RoundAndDrain(list, env, next, d);
    JoinSent(a, RoundAndReplies(list, env, next, d), sent, DfProbes(list), env, k);
  }

  lemma NoConfirmation(list: seq<(nat, nat)>, env: Environment, k: nat, drains: nat)
    ensures AreSent(ConfirmEvents(list, env, k, drains, 0), Rounds(0, DfProbes(list)), env, k)
  {
    assert Attempted([], env, k) == [];
  }

  lemma OneMoreConfirmation(list: seq<(nat, nat)>, env: Environment, k: nat, drains: nat, r: nat)
    requires r > 0 && AreSent(ConfirmEvents(list, env, k, drains, r - 1), Rounds(r - 1, DfProbes(list)), env, k)
    ensures AreSent(ConfirmEvents(list, env, k, drains, r), Rounds(r, DfProbes(list)), env, k)
  {
    OneRoundMore(ConfirmEvents(list, env, k, drains, r - 1), Rounds(r - 1, DfProbes(list)), list, env, k,
                 env.drain(drains + r - 1), k + Area(r - 1, |list|));
  }

  lemma {:induction false} ConfirmSends(list: seq<(nat, nat)>, env: Environment, k: nat, drains: nat, r: nat)
    ensures AreSent(ConfirmEvents(list, env, k, drains, r), Rounds(r, DfProbes(list)), env, k)
    decreases r
  {
    if r == 0 {
      NoConfirmation(list, env, k, drains);
    } else {
      ConfirmSends(list, env, k, drains, r - 1);
      OneMoreConfirmation(list, env, k, drains, r);
    }
  }

  /** One confirmation round and the drain after it. */
  method ConfirmRound(list: seq<(nat, nat)>, st0: State, k: nat, drain: Drain, env: Environment) returns (ok: bool, st: State)
    requires InBounds(st0) && forall i :: 0 <= i < |list| ==> list[i].0 < |st0.rtt|
    ensures ok ==> Leads(st0, RoundAndReplies(list, env, k, drain), st) && drain.Drained?
    ensures !ok ==> Breaks(env) || drain.DrainFailed?
  {
    ok, st := SendRound(list, st0, k, env);
    if ok {
      ghost var sent := st;
      ok, st := DrainOnce(st, drain);
      if ok {
        LeadsOn(st0, RoundEvents(list, env, k), sent, Arrivals(drain), st);
      }
    }
  }

  lemma ConfirmLeads(list: seq<(nat, nat)>, env: Environment, k: nat, drains: nat, r: nat, a: State, b: State, c: State)
    requires Leads(a, ConfirmEvents(list, env, k, drains, r), b)
    requires Leads(b, RoundAndReplies(list, env, k + Area(r, |list|), env.drain(drains + r)), c)
    ensures Leads(a, ConfirmEvents(list, env, k, drains, r + 1), c)
  {
    LeadsOn(a, ConfirmEvents(list, env, k, drains, r), b,
            RoundAndReplies(list, env, k + Area(r, |list|), env.drain(drains + r)), c);
  }

  /** The confirmation rounds. */
  method Confirm(list: seq<(nat, nat)>, st0: State, k: nat, drains: nat, rounds: nat, env: Environment)
    returns (ok: bool, st: State)
    requires InBounds(st0) && forall i :: 0 <= i < |list| ==> list[i].0 < |st0.rtt|
    ensures ok ==> Leads(st0, ConfirmEvents(list, env, k, drains, rounds), st)
    ensures ok ==> Quiet(env, drains, rounds)
    ensures !ok ==> Breaks(env)
  {
    st, ok := st0, true;
    for round := 0 to rounds
      invariant Leads(st0, ConfirmEvents(list, env, k, drains, round), st) && Quiet(env, drains, round) && ok
    {
      ghost var before := st;
      ok, st := ConfirmRound(list, st, k + Area(round, |list|), env.drain(drains + round), env);
      if !ok {
        return;
      }
      ConfirmLeads(list, env, k, drains, round, st0, before, st);
    }
  }

  lemma {:induction false} NoRounds(r: nat)
    ensures Rounds(r, DfProbes([])) == [] && Area(r, 0) == 0
  {
    if r > 0 {
      NoRounds(r - 1);
    }
  }

  datatype Outcome = Aborted | Done(results: seq<Result>, sequence: nat)

  ghost predicate Silent(events: seq<Event>) { SentProbes(events) == [] }

  lemma SilentTwice(a: seq<Event>, b: seq<Event>)
    requires Silent(a) && Silent(b)
    ensures Silent(a + b)
  {
    SentMore(a, b);
  }

  lemma {:induction false} DrainsSend(env: Environment, from: nat, m: nat)
    ensures Silent(DrainEvents(env, from, m))
    decreases m
  {
    if m > 0 {
      DrainsSend(env, from, m - 1);
      ArrivalsSend(env.drain(from + m - 1));
      SilentTwice(DrainEvents(env, from, m - 1), Arrivals(env.drain(from + m - 1)));
    }
  }

  /** `i` drains in a row lead from one state to another, and nothing becomes pending. */
  ghost predicate DrainsDone(env: Environment, from: nat, i: nat, a: State, b: State) {
    Leads(a, DrainEvents(env, from, i), b) && Quiet(env, from, i) && b.pending.Keys <= a.pending.Keys
  }

  lemma DrainLeads(env: Environment, from: nat, i: nat, a: State, b: State, c: State)
    requires DrainsDone(env, from, i, a, b) && env.drain(from + i).Drained?
    requires Leads(b, Arrivals(env.drain(from + i)), c) && c.pending.Keys <= b.pending.Keys
    ensures DrainsDone(env, from, i + 1, a, c)
  {
    LeadsOn(a, DrainEvents(env, from, i), b, Arrivals(env.drain(from + i)), c);
  }

  /** Drains in a row: `count` of them, or only while something is pending. */
  method DrainRepeatedly(st0: State, env: Environment, from: nat, count: nat, whilePending: bool)
    returns (ok: bool, st: State, ghost done: nat)
    requires InBounds(st0)
    ensures ok ==> DrainsDone(env, from, done, st0, st)
    ensures ok ==> done <= count && (done < count ==> whilePending && st.pending.Keys == {})
    ensures !ok ==> Breaks(env)
  {
    st, ok, done := st0, true, 0;
    for i := 0 to count
      invariant done == i && ok && DrainsDone(env, from, i, st0, st)
    {
      if whilePending && st.pending.Keys == {} {
        return;
      }
      ghost var before := st;
      ok, st := DrainOnce(st, env.drain(from + i));
      if !ok {
        return;
      }
      DrainLeads(env, from, i, st0, before, st);
      done := i + 1;
    }
  }

  lemma EarlySends(queue: seq<Probe>, env: Environment)
    ensures AreSent(EarlyEvents(queue, env), queue, env, 0)
  {
    QueueSends(queue, env, |queue|);
    DrainsSend(env, |queue|, 2);
    assert queue[..|queue|] == queue;
    SilentEnd(QueueEvents(queue, env, |queue|), DrainEvents(env, |queue|, 2), queue, env, 0);
  }

  lemma SentCount(events: seq<Event>, probes: seq<Probe>, env: Environment, k: nat)
    requires AreSent(events, probes, env, k)
    ensures Sends(events) == |probes|
  {
    SendsAreProbes(events);
  }

  /** The sends of the queue, and the two drains before the cutoff. */
  method SendPhase(queue: seq<Probe>, start: State, env: Environment) returns (ok: bool, st: State)
    requires InBounds(start) && forall i :: 0 <= i < |queue| ==> queue[i].target < |start.rtt|
    ensures ok ==> Leads(start, EarlyEvents(queue, env), st) && Quiet(env, 0, |queue| + 2)
    ensures !ok ==> Breaks(env)
  {
    ok, st := SendQueue(queue, start, env);
    if ok {
      ghost var before, done := st, 0;
      ok, st, done := DrainRepeatedly(st, env, |queue|, 2, false);
      if ok {
        LeadsOn(start, QueueEvents(queue, env, |queue|), before, DrainEvents(env, |queue|, done), st);
      }
    }
  }

  lemma WaitLeads(env: Environment, from: nat, m: nat, a: State, b: State, c: State)
    requires Leads(a, DrainEvents(env, from, m), b) && Leads(b, DrainEvents(env, from + env.polls, 1), c)
    ensures Leads(a, WaitEvents(env, from, m), c)
  {
    LeadsOn(a, DrainEvents(env, from, m), b, DrainEvents(env, from + env.polls, 1), c);
  }

  /** The polls until the deadline, and the last drain. */
  method WaitPhase(st0: State, env: Environment, from: nat) returns (ok: bool, st: State, ghost polls: nat)
    requires InBounds(st0)
    ensures ok ==> Leads(st0, WaitEvents(env, from, polls), st)
    ensures ok ==> Quiet(env, from, polls) && Quiet(env, from + env.polls, 1)
    ensures ok ==> polls <= env.polls && (polls < env.polls ==> st.pending.Keys == {})
    ensures !ok ==> Breaks(env)
  {
    ok, st, polls := DrainRepeatedly(st0, env, from, env.polls, true);
    if ok {
      ghost var before, done := st, 0;
      ok, st, done := DrainRepeatedly(st, env, from + env.polls, 1, false);
      if ok {
        WaitLeads(env, from, polls, st0, before, st);
      }
    }
  }

  lemma LateLeads(queue: seq<Probe>, list: seq<(nat, nat)>, env: Environment, rounds: nat, m: nat, a: State, b: State, c: State)
    requires Leads(a, ConfirmEvents(list, env, |queue|, |queue| + 2, rounds), b)
    requires Leads(b, WaitEvents(env, |queue| + 17, m), c)
    ensures Leads(a, LateEvents(queue, list, env, rounds, m), c)
  {
    LeadsOn(a, ConfirmEvents(list, env, |queue|, |queue| + 2, rounds), b, WaitEvents(env, |queue| + 17, m), c);
  }

  /** The confirmations of the DF probes listed at the cutoff, and the wait after them. */
  method ConfirmPhase(list: seq<(nat, nat)>, st0: State, queue: seq<Probe>, rounds: nat, env: Environment)
    returns (ok: bool, st: State, ghost polls: nat)
    requires InBounds(st0) && forall i :: 0 <= i < |list| ==> list[i].0 < |st0.rtt|
    ensures ok ==> Leads(st0, LateEvents(queue, list, env, rounds, polls), st)
    ensures ok ==> LateQuiet(queue, env, rounds, polls) && (polls < env.polls ==> st.pending.Keys == {})
    ensures !ok ==> Breaks(env)
  {
    polls := 0;
    ok, st := Confirm(list, st0, |queue|, |queue| + 2, rounds, env);
    if ok {
      ghost var before := st;
      ok, st, polls := WaitPhase(st, env, |queue| + 17);
      if ok {
        LateLeads(queue, list, env, rounds, polls, st0, before, st);
      }
    }
  }

  /** Every queued probe is attempted, and fifteen more DF probes for each one unanswered at the cutoff. */
  ghost predicate AttemptsExact(queue: seq<Probe>, n: nat, cutoff: State, events: seq<Event>) {
    forall t: nat {:trigger Attempts(events, Df, t)} :: t < n ==>
      && Attempts(events, Rtt, t) == Queued(queue, Rtt, t)
      && Attempts(events, Df, t) == Queued(queue, Df, t) + 15 * Unanswered(cutoff, Df, t)
      && Unanswered(cutoff, Df, t) <= Queued(queue, Df, t)
  }

  lemma AllAttempts(queue: seq<Probe>, env: Environment, n: nat, first: nat, cutoff: State, early: seq<Event>,
                    list: seq<(nat, nat)>, events: seq<Event>)
    requires Running(cutoff, n, first, early) && SentProbes(early) == Attempted(queue, env, 0) && Listed(cutoff.pending, list, n)
    requires SentProbes(events) == Attempted(queue + Rounds(CONFIRMATIONS, DfProbes(list)), env, 0)
    ensures AttemptsExact(queue, n, cutoff, events)
  {
    forall t: nat | t < n
      ensures Attempts(events, Rtt, t) == Queued(queue, Rtt, t)
      ensures Attempts(events, Df, t) == Queued(queue, Df, t) + 15 * Unanswered(cutoff, Df, t)
      ensures Unanswered(cutoff, Df, t) <= Queued(queue, Df, t)
    {
      CycleAttempts(queue, env, n, first, cutoff, early, list, events, t);
    }
  }

  /** What a result says about one target, in terms of the events of its cycle. */
  ghost predicate Reported(r: Result, sockets: nat, first: nat, events: seq<Event>, t: nat) {
    && r.packetsLost == |Open(first, events, Rtt, t)| + PathErrors(events, Rtt, t)
    && r.packetsSent == |RoundTrips(first, events, Rtt, t)| + r.packetsLost
    && r.packetsSent + LocalFailures(first, events, Rtt, t) == Attempts(events, Rtt, t)
    && r.packetLoss == (if r.packetsSent == 0 then 100.0 else r.packetsLost as real / r.packetsSent as real * 100.0)
    && r.dfLost == |Open(first, events, Df, t)| + PathErrors(events, Df, t)
    && r.dfSent == |RoundTrips(first, events, Df, t)| + r.dfLost
    && r.dfSent + LocalFailures(first, events, Df, t) == Attempts(events, Df, t)
    && r.dfMtuDrops == TooLarge(events, Df, t)
    && r.localErrors == LocalFailures(first, events, Rtt, t) + LocalFailures(first, events, Df, t)
    && r.rtts == RoundTrips(first, events, Rtt, t)
    && r.portsActive == sockets
  }

  /** The result built from the final counters reports the events. */
  lemma ResultReports(st: State, n: nat, first: nat, events: seq<Event>, t: nat, sockets: nat)
    requires Running(st, n, first, events) && first < WORD && Sends(events) < WORD && t < n
    ensures Reported(BuildResult(st.rtt[t], st.df[t], sockets), sockets, first, events, t)
  {
    CountersAre(st, n, first, events, Rtt, t);
    CountersAre(st, n, first, events, Df, t);
  }

  lemma WaitSends(env: Environment, from: nat, m: nat)
    ensures Silent(WaitEvents(env, from, m))
  {
    DrainsSend(env, from, m);
    DrainsSend(env, from + env.polls, 1);
    SilentTwice(DrainEvents(env, from, m), DrainEvents(env, from + env.polls, 1));
  }

  lemma JoinSent(a: seq<Event>, b: seq<Event>, p: seq<Probe>, q: seq<Probe>, env: Environment, k: nat)
    requires SentProbes(a) == Attempted(p, env, k) && SentProbes(b) == Attempted(q, env, k + |p|)
    ensures SentProbes(a + b) == Attempted(p + q, env, k)
  {
    SentMore(a, b);
    AttemptedMore(p, q, env, k);
  }

  lemma SilentTail(a: seq<Event>, b: seq<Event>)
    requires SentProbes(b) == []
    ensures SentProbes(a + b) == SentProbes(a)
  {
    SentMore(a, b);
  }

  lemma SilentEnd(a: seq<Event>, b: seq<Event>, probes: seq<Probe>, env: Environment, k: nat)
    requires AreSent(a, probes, env, k) && Silent(b)
    ensures AreSent(a + b, probes, env, k)
  {
    SilentTail(a, b);
  }

  lemma LateSends(queue: seq<Probe>, list: seq<(nat, nat)>, env: Environment, rounds: nat, m: nat)
    ensures AreSent(LateEvents(queue, list, env, rounds, m), Rounds(rounds, DfProbes(list)), env, |queue|)
  {
    WaitSends(env, |queue| + 17, m);
    ConfirmSends(list, env, |queue|, |queue| + 2, rounds);
    SilentEnd(ConfirmEvents(list, env, |queue|, |queue| + 2, rounds), WaitEvents(env, |queue| + 17, m),
              Rounds(rounds, DfProbes(list)), env, |queue|);
  }

  /** How many rounds a cycle needs: fifteen, or none if no DF probe is unanswered. */
  ghost predicate RoundsNeeded(list: seq<(nat, nat)>, rounds: nat) {
    rounds == if list == [] then 0 else CONFIRMATIONS
  }

  lemma RoundsAre(list: seq<(nat, nat)>, rounds: nat)
    requires RoundsNeeded(list, rounds)
    ensures Rounds(rounds, DfProbes(list)) == Rounds(CONFIRMATIONS, DfProbes(list))
    ensures |Rounds(CONFIRMATIONS, DfProbes(list))| == 15 * |list|
  {
    if list == [] {
      NoRounds(CONFIRMATIONS);
    }
    FifteenTimes(|list|);
  }

  lemma JoinFirst(a: seq<Event>, b: seq<Event>, p: seq<Probe>, q: seq<Probe>, env: Environment)
    requires AreSent(a, p, env, 0) && AreSent(b, q, env, |p|)
    ensures AreSent(a + b, p + q, env, 0)
  {
    JoinSent(a, b, p, q, env, 0);
  }

  lemma CycleSends(queue: seq<Probe>, list: seq<(nat, nat)>, env: Environment, rounds: nat, m: nat)
    ensures AreSent(CycleEvents(queue, list, env, rounds, m), queue + Rounds(rounds, DfProbes(list)), env, 0)
  {
    EarlySends(queue, env);
    LateSends(queue, list, env, rounds, m);
    JoinFirst(EarlyEvents(queue, env), LateEvents(queue, list, env, rounds, m), queue, Rounds(rounds, DfProbes(list)), env);
  }

  lemma CycleSendCount(queue: seq<Probe>, list: seq<(nat, nat)>, env: Environment, rounds: nat, events: seq<Event>)
    requires AreSent(events, queue + Rounds(rounds, DfProbes(list)), env, 0) && RoundsNeeded(list, rounds)
    ensures AreSent(events, queue + Rounds(CONFIRMATIONS, DfProbes(list)), env, 0)
    ensures Sends(events) == |queue| + 15 * |list|
  {
    RoundsAre(list, rounds);
    SentCount(events, queue + Rounds(rounds, DfProbes(list)), env, 0);
  }

  lemma PhaseRunning(st: State, n: nat, first: nat, events: seq<Event>)
    requires Ran(st, n, first, events) && first < WORD && Sends(events) < WORD
    ensures Running(st, n, first, events)
  {
    EveryRunConserves(n, first, events);
  }

  /** `run_probe_cycle`. The queue bound is what the address space allows: a queue entry takes
      more than sixteen bytes. */
  method RunCycle(n: nat, sockets: nat, queue: seq<Probe>, sequence: nat, env: Environment)
    returns (o: Outcome, ghost final: State, ghost cutoff: State, ghost list: seq<(nat, nat)>, ghost rounds: nat, ghost polls: nat)
    requires forall i :: 0 <= i < |queue| ==> queue[i].target < n
    requires sequence < WORD && 16 * |queue| < WORD
    ensures o.Aborted? ==> Breaks(env)
    ensures o.Done? ==> Running(cutoff, n, sequence, EarlyEvents(queue, env)) && Listed(cutoff.pending, list, n)
    ensures o.Done? ==> Running(final, n, sequence, CycleEvents(queue, list, env, rounds, polls)) && o.sequence == final.sequence
    ensures o.Done? ==> RoundsNeeded(list, rounds)
    ensures o.Done? ==> Quiet(env, 0, |queue| + 2) && LateQuiet(queue, env, rounds, polls)
    ensures o.Done? ==> polls < env.polls ==> final.pending.Keys == {}
    ensures o.Done? ==> AttemptsExact(queue, n, cutoff, CycleEvents(queue, list, env, rounds, polls))
    ensures o.Done? ==> |o.results| == n
    ensures o.Done? ==>
              forall t :: 0 <= t < n ==> Reported(o.results[t], sockets, sequence, CycleEvents(queue, list, env, rounds, polls), t)
  {
    o, final, cutoff, list, rounds, polls := Aborted, Fresh(n), Fresh(n), [], 0, 0;
    var start := Fresh(n).(sequence := sequence);
    var ok, st := SendPhase(queue, start, env);
    if !ok {
      return;
    }
    EarlySends(queue, env);
    SentCount(EarlyEvents(queue, env), queue, env, 0);
    PhaseRunning(st, n, sequence, EarlyEvents(queue, env));
    cutoff := st;
    var unanswered := UnansweredDf(st.pending, n);
    var count := if unanswered == [] then 0 else CONFIRMATIONS;
    list, rounds := unanswered, count;
    ok, st, polls := ConfirmPhase(unanswered, st, queue, count, env);
    if !ok {
      return;
    }
    final := st;
    LeadsOn(start, EarlyEvents(queue, env), cutoff, LateEvents(queue, list, env, rounds, polls), final);
    var results := seq(n, t requires 0 <= t < n => BuildResult(st.rtt[t], st.df[t], sockets));
    CycleReports(n, sockets, queue, sequence, env, final, cutoff, list, rounds, polls, results);
    o := Done(results, st.sequence);
  }

  lemma CycleReports(n: nat, sockets: nat, queue: seq<Probe>, sequence: nat, env: Environment, final: State, cutoff: State,
                     list: seq<(nat, nat)>, rounds: nat, polls: nat, results: seq<Result>)
    requires sequence < WORD && 16 * |queue| < WORD && |list| <= |queue| && RoundsNeeded(list, rounds)
    requires Running(cutoff, n, sequence, EarlyEvents(queue, env)) && Listed(cutoff.pending, list, n)
    requires Ran(final, n, sequence, CycleEvents(queue, list, env, rounds, polls)) && |final.rtt| == |final.df| == n == |results|
    requires forall t :: 0 <= t < n ==> results[t] == BuildResult(final.rtt[t], final.df[t], sockets)
    ensures Running(final, n, sequence, CycleEvents(queue, list, env, rounds, polls))
    ensures AttemptsExact(queue, n, cutoff, CycleEvents(queue, list, env, rounds, polls))
    ensures forall t :: 0 <= t < n ==> Reported(results[t], sockets, sequence, CycleEvents(queue, list, env, rounds, polls), t)
  {
    var events := CycleEvents(queue, list, env, rounds, polls);
    CycleSends(queue, list, env, rounds, polls);
    CycleSendCount(queue, list, env, rounds, events);
    PhaseRunning(final, n, sequence, events);
    EarlySends(queue, env);
    AllAttempts(queue, env, n, sequence, cutoff, EarlyEvents(queue, env), list, events);
    forall t | 0 <= t < n
      ensures Reported(results[t], sockets, sequence, events, t)
    {
      ResultReports(final, n, sequence, events, t, sockets);
    }
  }

  lemma FifteenTimes(m: nat)
    ensures Area(CONFIRMATIONS, m) == 15 * m
  {
    AreaIsProduct(CONFIRMATIONS, m);
  }

  // ---------------------------------------------------------------- what the results mean

  /** A validated queue holds one DF probe per target. */
  lemma {:induction false} QueuedOnce(queue: seq<Probe>, t: nat)
    ensures Queued(queue, Df, t) == multiset(DfTasks(queue))[t]
  {
    if queue != [] {
      QueuedOnce(queue[..|queue| - 1], t);
    }
  }

  /** Every target of a validated frame gets one DF attempt, or exactly sixteen; sixteen if
      and only if its first DF probe was still unanswered at the cutoff. */
  lemma OneOrSixteen(queue: seq<Probe>, n: nat, cutoff: State, events: seq<Event>, t: nat)
    requires t < n && NoDup(DfTasks(queue)) && Elems(DfTasks(queue)) == Elems(Range(n))
    requires AttemptsExact(queue, n, cutoff, events)
    ensures Attempts(events, Df, t) == 1 || Attempts(events, Df, t) == 16
    ensures Attempts(events, Df, t) == 16 <==> Unanswered(cutoff, Df, t) == 1
  {
    QueuedOnce(queue, t);
    NoDupCount(DfTasks(queue), t);
    assert Range(n)[t] == t;
    assert t in Elems(DfTasks(queue));
  }
}
