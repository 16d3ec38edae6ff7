/** The counters of one probe cycle (native/client-agent/src/pingmesh.rs, `send_probe`,
    `drain_replies`): what each send and each reply does to them, and what a whole run of sends
    and replies says about them. Sockets and clocks appear as outcomes chosen by the
    environment. */
module ProbeEvents {
  import opened Counting
  import opened ProbePlan

  /** Sequence numbers are 64-bit and wrap. */
  const WORD := 0x1_0000_0000_0000_0000

  datatype Stats = Stats(sent: nat, received: nat, rtts: seq<nat>, mtuDrops: nat, invalidSent: nat, localErrors: nat)

  datatype Pending = Pending(kind: ProbeKind, target: nat, socket: nat, sentNs: nat)

  datatype State = State(sequence: nat, pending: map<nat, Pending>, rtt: seq<Stats>, df: seq<Stats>)

  /** Result of `send_to`: accepted, EMSGSIZE, would-block or no buffers, a path error, anything else. */
  datatype SendOutcome = Accepted(sentNs: nat) | TooBig | Transient | PathFailure | Broken

  /** A received datagram: unreadable header, or a reply with or without a kernel timestamp. */
  datatype Packet = Noise | Reply(sequence: nat, processingNs: nat, receivedNs: Stamped)

  datatype Stamped = Unstamped | At(ns: nat)

  function Fresh(n: nat): State {
    State(0, map[], seq(n, _ => ZERO), seq(n, _ => ZERO))
  }

  const ZERO := Stats(0, 0, [], 0, 0, 0)

  function StatsOf(st: State, kind: ProbeKind): seq<Stats> {
    if kind.Rtt? then st.rtt else st.df
  }

  function WithStats(st: State, kind: ProbeKind, t: nat, s: Stats): State
    requires t < |StatsOf(st, kind)|
  {
    if kind.Rtt? then st.(rtt := st.rtt[t := s]) else st.(df := st.df[t := s])
  }

  /** `adjusted_rtt_ns`: saturating subtraction. */
  function AdjustedRtt(sent: nat, received: nat, processing: nat): nat {
    if received <= sent then 0 else if received - sent <= processing then 0 else received - sent - processing
  }

  /** `wrapping_add(1)`. */
  function Successor(sequence: nat): nat { if sequence + 1 == WORD then 0 else sequence + 1 }

  /** `send_probe`; a broken socket leaves the state as it is. */
  function Send(st: State, kind: ProbeKind, t: nat, socket: nat, outcome: SendOutcome): State
    requires t < |StatsOf(st, kind)|
  {
    var s := StatsOf(st, kind)[t];
    var next := Successor(st.sequence);
    match outcome
    case Accepted(ns) =>
      WithStats(st, kind, t, s.(sent := s.sent + 1))
      .(sequence := next, pending := st.pending[st.sequence := Pending(kind, t, socket, ns)])
    case TooBig =>
      WithStats(st, kind, t, s.(sent := s.sent + 1, mtuDrops := s.mtuDrops + 1, invalidSent := s.invalidSent + 1,
                                localErrors := s.localErrors + 1)).(sequence := next)
    case Transient =>
      WithStats(st, kind, t, s.(localErrors := s.localErrors + 1)).(sequence := next)
    case PathFailure =>
      WithStats(st, kind, t, s.(sent := s.sent + 1)).(sequence := next)
    case Broken => st
  }

  /** One iteration of the receive loop of `drain_replies`. */
  function Receive(st: State, packet: Packet): State
    requires InBounds(st)
  {
    if packet.Noise? || packet.sequence !in st.pending then st else
      var item := st.pending[packet.sequence];
      var s := StatsOf(st, item.kind)[item.target];
      var s' := if packet.receivedNs.Unstamped?
                then s.(invalidSent := s.invalidSent + 1, localErrors := s.localErrors + 1)
                else s.(received := s.received + 1,
                        rtts := s.rtts + [AdjustedRtt(item.sentNs, packet.receivedNs.ns, packet.processingNs)]);
      WithStats(st, item.kind, item.target, s').(pending := st.pending - {packet.sequence})
  }

  ghost predicate InBounds(st: State) {
    |st.rtt| == |st.df| && forall q :: q in st.pending ==> st.pending[q].target < |st.rtt|
  }

  // ---------------------------------------------------------------- events and counters

  datatype Event = Sending(kind: ProbeKind, target: nat, socket: nat, outcome: SendOutcome) | Receiving(packet: Packet)

  datatype Class = AnyOutcome | PathFailures | TransientErrors | Oversized

  ghost predicate InClass(o: SendOutcome, group: Class) {
    match group
    case AnyOutcome => true
    case PathFailures => o.PathFailure?
    case TransientErrors => o.Transient?
    case Oversized => o.TooBig?
  }

  /** Send attempts of one kind to one target with an outcome of the class. */
  ghost function Count(events: seq<Event>, kind: ProbeKind, t: nat, group: Class): nat {
    if events == [] then 0 else
      var last := events[|events| - 1];
      Count(events[..|events| - 1], kind, t, group)
      + if last.Sending? && last.kind == kind && last.target == t && InClass(last.outcome, group) then 1 else 0
  }

  ghost function Attempts(events: seq<Event>, kind: ProbeKind, t: nat): nat { Count(events, kind, t, AnyOutcome) }

  ghost function PathErrors(events: seq<Event>, kind: ProbeKind, t: nat): nat { Count(events, kind, t, PathFailures) }

  ghost function Transients(events: seq<Event>, kind: ProbeKind, t: nat): nat { Count(events, kind, t, TransientErrors) }

  ghost function TooLarge(events: seq<Event>, kind: ProbeKind, t: nat): nat { Count(events, kind, t, Oversized) }

  ghost function PendingOf(pending: map<nat, Pending>, kind: ProbeKind, t: nat): set<nat> {
    set q | q in pending && pending[q].kind == kind && pending[q].target == t
  }

  /** Probes of one kind to one target that are still unanswered. */
  ghost function Unanswered(st: State, kind: ProbeKind, t: nat): nat {
    |PendingOf(st.pending, kind, t)|
  }

  ghost function Sends(events: seq<Event>): nat {
    if events == [] then 0 else
      Sends(events[..|events| - 1]) + if events[|events| - 1].Sending? then 1 else 0
  }

  // ---------------------------------------------------------------- conservation over every run

  ghost predicate Legal(e: Event, n: nat) {
    e.Sending? ==> e.target < n && !e.outcome.Broken?
  }

  function Apply(st: State, e: Event): State
    requires InBounds(st) && Legal(e, |st.rtt|)
  {
    match e
    case Sending(kind, t, socket, outcome) => Send(st, kind, t, socket, outcome)
    case Receiving(packet) => Receive(st, packet)
  }

  /** Per kind and target: what was sent is received, invalid, unanswered or lost on a path error. */
  ghost predicate Conserves(s: Stats, unanswered: nat, pathErrors: nat, transients: nat, attempts: nat) {
    && s.sent == s.received + s.invalidSent + unanswered + pathErrors
    && s.sent + transients == attempts
    && s.localErrors == s.invalidSent + transients
    && s.mtuDrops <= s.invalidSent && |s.rtts| == s.received
  }

  ghost predicate Balanced(st: State, events: seq<Event>) {
    && InBounds(st)
    && forall kind, t: nat {:trigger Attempts(events, kind, t)} :: t < |st.rtt| ==>
         Conserves(StatsOf(st, kind)[t], Unanswered(st, kind, t), PathErrors(events, kind, t),
                   Transients(events, kind, t), Attempts(events, kind, t))
  }

  /** Pending keys are recent sequence numbers, so the next one is free. */
  ghost predicate Numbered(st: State, first: nat, sends: nat) {
    && st.sequence == (first + sends) % WORD
    && forall q :: q in st.pending ==> exists j: nat :: j < sends && q == Number(first, j)
  }

  ghost function Number(first: nat, j: nat): nat { (first + j) % WORD }

  lemma NumberFree(st: State, first: nat, sends: nat)
    requires Numbered(st, first, sends) && sends < WORD
    ensures st.sequence !in st.pending
  {
    forall j: nat | j < sends
      ensures st.sequence != Number(first, j)
    {
      NumbersDiffer(first + j, first + sends);
    }
  }

  lemma NumbersDiffer(a: nat, b: nat)
    requires a < b < a + WORD
    ensures a % WORD != b % WORD
  {
    if a % WORD == b % WORD {
      var m := b / WORD - a / WORD;
      assert WORD * m == b - a;
      SmallMultiple(WORD, m);
      assert false;
    }
  }

  lemma SendPending(pending: map<nat, Pending>, q: nat, p: Pending, kind: ProbeKind, t: nat)
    requires q !in pending
    ensures |PendingOf(pending[q := p], kind, t)| ==
            |PendingOf(pending, kind, t)| + if p.kind == kind && p.target == t then 1 else 0
  {
    var after := PendingOf(pending[q := p], kind, t);
    var before := PendingOf(pending, kind, t);
    if p.kind == kind && p.target == t {
      assert after == before + {q};
    } else {
      assert after == before;
    }
  }

  lemma AnswerPending(pending: map<nat, Pending>, q: nat, kind: ProbeKind, t: nat)
    requires q in pending
    ensures |PendingOf(pending, kind, t)| ==
            |PendingOf(pending - {q}, kind, t)| + if pending[q].kind == kind && pending[q].target == t then 1 else 0
  {
    SendPending(pending - {q}, q, pending[q], kind, t);
    assert (pending - {q})[q := pending[q]] == pending;
  }

  lemma CountStep(events: seq<Event>, e: Event, kind: ProbeKind, t: nat, group: Class)
    ensures Count(events + [e], kind, t, group) ==
            Count(events, kind, t, group)
            + if e.Sending? && e.kind == kind && e.target == t && InClass(e.outcome, group) then 1 else 0
  {
    assert (events + [e])[..|events|] == events;
  }

  /** The counters of one kind and target after one more event. */
  lemma ApplyCounts(st: State, e: Event, kind: ProbeKind, t: nat, pathErrors: nat, transients: nat, attempts: nat)
    requires InBounds(st) && Legal(e, |st.rtt|) && t < |st.rtt|
    requires e.Sending? ==> st.sequence !in st.pending
    requires Conserves(StatsOf(st, kind)[t], Unanswered(st, kind, t), pathErrors, transients, attempts)
    ensures InBounds(Apply(st, e)) && |Apply(st, e).rtt| == |st.rtt|
    ensures var hit := e.Sending? && e.kind == kind && e.target == t;
            Conserves(StatsOf(Apply(st, e), kind)[t], Unanswered(Apply(st, e), kind, t),
                      pathErrors + (if hit && e.outcome.PathFailure? then 1 else 0),
                      transients + (if hit && e.outcome.Transient? then 1 else 0),
                      attempts + (if hit then 1 else 0))
  {
    match e {
      case Sending(k, target, socket, outcome) =>
        SendCounts(st, k, target, socket, outcome, kind, t);
      case Receiving(packet) =>
        ReceiveCounts(st, packet, kind, t, pathErrors, transients, attempts);
    }
  }

  lemma ReceiveCounts(st: State, packet: Packet, kind: ProbeKind, t: nat, pathErrors: nat, transients: nat, attempts: nat)
    requires InBounds(st) && t < |st.rtt|
    requires Conserves(StatsOf(st, kind)[t], Unanswered(st, kind, t), pathErrors, transients, attempts)
    ensures InBounds(Receive(st, packet)) && |Receive(st, packet).rtt| == |st.rtt|
    ensures Conserves(StatsOf(Receive(st, packet), kind)[t], Unanswered(Receive(st, packet), kind, t),
                      pathErrors, transients, attempts)
  {
    if packet.Reply? && packet.sequence in st.pending {
      AnswerPending(st.pending, packet.sequence, kind, t);
    }
  }

  lemma SendCounts(st: State, k: ProbeKind, target: nat, socket: nat, outcome: SendOutcome, kind: ProbeKind, t: nat)
    requires InBounds(st) && target < |st.rtt| && st.sequence !in st.pending
    ensures Unanswered(Send(st, k, target, socket, outcome), kind, t) ==
            Unanswered(st, kind, t) + if outcome.Accepted? && k == kind && target == t then 1 else 0
  {
    if outcome.Accepted? {
      SendPending(st.pending, st.sequence, Pending(k, target, socket, outcome.sentNs), kind, t);
    }
  }

  /** Every step keeps the balance. */
  lemma ApplyBalanced(st: State, events: seq<Event>, e: Event)
    requires Balanced(st, events) && Legal(e, |st.rtt|)
    requires e.Sending? ==> st.sequence !in st.pending
    ensures Balanced(Apply(st, e), events + [e])
  {
    var st' := Apply(st, e);
    ApplyInBounds(st, e);
    forall kind, t: nat | t < |st.rtt|
      ensures Conserves(StatsOf(st', kind)[t], Unanswered(st', kind, t), PathErrors(events + [e], kind, t),
                        Transients(events + [e], kind, t), Attempts(events + [e], kind, t))
    {
      CountStep(events, e, kind, t, AnyOutcome);
      CountStep(events, e, kind, t, PathFailures);
      CountStep(events, e, kind, t, TransientErrors);
      assert Conserves(StatsOf(st, kind)[t], Unanswered(st, kind, t), PathErrors(events, kind, t),
                       Transients(events, kind, t), Attempts(events, kind, t));
      ApplyCounts(st, e, kind, t, PathErrors(events, kind, t), Transients(events, kind, t), Attempts(events, kind, t));
    }
  }

  lemma ApplyInBounds(st: State, e: Event)
    requires InBounds(st) && Legal(e, |st.rtt|)
    ensures InBounds(Apply(st, e)) && |Apply(st, e).rtt| == |st.rtt|
  {
  }

  lemma SuccessorNumber(first: nat, sends: nat)
    ensures Successor(Number(first, sends)) == Number(first, sends + 1)
  {
    var a := first + sends;
    if a % WORD + 1 < WORD {
      assert (a + 1) % WORD == a % WORD + 1;
    } else {
      assert (a + 1) % WORD == 0;
    }
  }

  lemma ApplyNumbered(st: State, e: Event, first: nat, sends: nat)
    requires InBounds(st) && Legal(e, |st.rtt|) && Numbered(st, first, sends)
    ensures Numbered(Apply(st, e), first, if e.Sending? then sends + 1 else sends)
  {
    if e.Sending? {
      var st' := Apply(st, e);
      assert st.sequence == Number(first, sends);
      SuccessorNumber(first, sends);
      forall q | q in st'.pending
        ensures exists j: nat :: j < sends + 1 && q == Number(first, j)
      {
        if q != st.sequence {
          var j: nat :| j < sends && q == Number(first, j);
        }
      }
    }
  }

  // ---------------------------------------------------------------- runs

  ghost predicate AllLegal(events: seq<Event>, n: nat) {
    forall i :: 0 <= i < |events| ==> Legal(events[i], n)
  }

  /** The state after a run of events. */
  ghost function RunEvents(st: State, events: seq<Event>): State
    requires InBounds(st) && AllLegal(events, |st.rtt|)
    ensures InBounds(RunEvents(st, events)) && |RunEvents(st, events).rtt| == |st.rtt|
  {
    if events == [] then st else
      var before := RunEvents(st, events[..|events| - 1]);
      ApplyInBounds(before, events[|events| - 1]);
      Apply(before, events[|events| - 1])
  }

  /** The state is what the events make of a fresh one. */
  ghost predicate Ran(st: State, n: nat, first: nat, events: seq<Event>) {
    AllLegal(events, n) && st == RunEvents(Fresh(n).(sequence := first), events)
  }

  lemma RanOn(st: State, n: nat, first: nat, events: seq<Event>, e: Event)
    requires Ran(st, n, first, events) && Legal(e, n)
    ensures InBounds(st) && |st.rtt| == n && Ran(Apply(st, e), n, first, events + [e])
  {
    var more := events + [e];
    assert more[..|events|] == events;
    assert forall i :: 0 <= i < |events| ==> more[i] == events[i];
  }

  /** The counters balance, and the pending numbers are recent. */
  ghost predicate Kept(st: State, first: nat, events: seq<Event>) {
    Balanced(st, events) && Numbered(st, first, Sends(events)) && |st.pending| <= Sends(events)
  }

  /** The state of a cycle in progress together with everything that happened in it. */
  ghost predicate Running(st: State, n: nat, first: nat, events: seq<Event>) {
    Ran(st, n, first, events) && |st.rtt| == n && Kept(st, first, events)
  }

  lemma StepNumbered(st: State, first: nat, events: seq<Event>, e: Event)
    requires InBounds(st) && Legal(e, |st.rtt|) && Sends(events) < WORD
    requires Numbered(st, first, Sends(events)) && |st.pending| <= Sends(events)
    ensures st.sequence !in st.pending
    ensures Numbered(Apply(st, e), first, Sends(events + [e])) && |Apply(st, e).pending| <= Sends(events + [e])
  {
    NumberFree(st, first, Sends(events));
    SendsStep(events, e);
    ApplyNumbered(st, e, first, Sends(events));
    PendingSize(st, e);
  }

  lemma StepKept(st: State, first: nat, events: seq<Event>, e: Event)
    requires Kept(st, first, events) && Legal(e, |st.rtt|) && Sends(events) < WORD
    ensures Kept(Apply(st, e), first, events + [e]) && |Apply(st, e).rtt| == |st.rtt|
  {
    StepNumbered(st, first, events, e);
    ApplyInBounds(st, e);
    ApplyBalanced(st, events, e);
  }

  lemma StepRuns(st: State, n: nat, first: nat, events: seq<Event>, e: Event)
    requires Running(st, n, first, events) && Legal(e, n) && Sends(events) < WORD
    ensures Running(Apply(st, e), n, first, events + [e])
  {
    RanOn(st, n, first, events, e);
    StepKept(st, first, events, e);
  }

  lemma SendsStep(events: seq<Event>, e: Event)
    ensures Sends(events + [e]) == Sends(events) + if e.Sending? then 1 else 0
  {
    assert (events + [e])[..|events|] == events;
  }

  lemma PendingSize(st: State, e: Event)
    requires InBounds(st) && Legal(e, |st.rtt|) && st.sequence !in st.pending
    ensures |Apply(st, e).pending| <= |st.pending| + if e.Sending? then 1 else 0
    ensures Apply(st, e).pending.Keys <= st.pending.Keys + {st.sequence}
  {
    var after := Apply(st, e).pending;
    if e.Receiving? {
      assert after.Keys <= st.pending.Keys;
      SubsetCard(after.Keys, st.pending.Keys);
    }
  }

  lemma StartRuns(n: nat, st: State)
    requires st == Fresh(n).(sequence := st.sequence) && st.sequence < WORD
    ensures Running(st, n, st.sequence, [])
  {
    forall kind, t: nat | t < n
      ensures Conserves(StatsOf(st, kind)[t], Unanswered(st, kind, t), PathErrors([], kind, t),
                        Transients([], kind, t), Attempts([], kind, t))
    {
      assert StatsOf(st, kind)[t] == ZERO;
      assert PendingOf(st.pending, kind, t) == {};
    }
  }

  /** Over any interleaving of sends and replies, from any starting sequence number. */
  lemma {:induction false} EveryRunConserves(n: nat, sequence: nat, events: seq<Event>)
    requires sequence < WORD && Sends(events) < WORD
    requires AllLegal(events, n)
    ensures Running(RunEvents(Fresh(n).(sequence := sequence), events), n, sequence, events)
  {
    var start := Fresh(n).(sequence := sequence);
    if events == [] {
      StartRuns(n, start);
    } else {
      var front, last := events[..|events| - 1], events[|events| - 1];
      EveryRunConserves(n, sequence, front);
      assert events == front + [last];
      StepRuns(RunEvents(start, front), n, sequence, front, last);
    }
  }

  /** The events lead from one state to another. */
  ghost predicate Leads(a: State, events: seq<Event>, b: State) {
    InBounds(a) && AllLegal(events, |a.rtt|) && b == RunEvents(a, events)
  }

  lemma LeadsOne(a: State, e: Event)
    requires InBounds(a) && Legal(e, |a.rtt|)
    ensures Leads(a, [e], Apply(a, e))
  {
    assert [e][..0] == [];
    assert RunEvents(a, []) == a;
  }

  lemma {:induction false} LeadsOn(a: State, x: seq<Event>, b: State, y: seq<Event>, c: State)
    requires Leads(a, x, b) && Leads(b, y, c)
    ensures Leads(a, x + y, c)
  {
    if y == [] {
      assert x + y == x;
    } else {
      var front := y[..|y| - 1];
      LeadsOn(a, x, b, front, RunEvents(b, front));
      assert (x + y)[..|x + y| - 1] == x + front;
      LegalMore(x, y, |a.rtt|);
    }
  }

  lemma LegalMore(x: seq<Event>, y: seq<Event>, n: nat)
    requires AllLegal(x, n) && AllLegal(y, n)
    ensures AllLegal(x + y, n)
  {
  }

  // ---------------------------------------------------------------- what the events say about the counters

  /** The sequence number of the send at position `i`. */
  ghost function NumberAt(first: nat, events: seq<Event>, i: nat): nat
    requires i < |events|
  {
    Number(first, Sends(events[..i]))
  }

  ghost predicate ReplyTo(e: Event, q: nat) {
    e.Receiving? && e.packet.Reply? && e.packet.sequence == q
  }

  /** No reply to number `q` after position `i`. */
  ghost predicate Unreplied(events: seq<Event>, i: nat, q: nat) {
    forall j :: i < j < |events| ==> !ReplyTo(events[j], q)
  }

  /** The probe sent at position `i` was accepted and no reply to it has been received. */
  ghost predicate OpenAt(first: nat, events: seq<Event>, i: nat)
    requires i < |events|
  {
    events[i].Sending? && events[i].outcome.Accepted? && Unreplied(events, i, NumberAt(first, events, i))
  }

  /** Positions of the unanswered probes of one kind to one target. */
  ghost function Open(first: nat, events: seq<Event>, kind: ProbeKind, t: nat): set<nat> {
    set i: nat | i < |events| && OpenAt(first, events, i) && events[i].kind == kind && events[i].target == t
  }

  /** `e` is the first reply to the probe sent at position `i`. */
  ghost predicate Answers(first: nat, events: seq<Event>, kind: ProbeKind, t: nat, e: Event, i: nat) {
    i < |events| && i in Open(first, events, kind, t) && ReplyTo(e, NumberAt(first, events, i))
  }

  ghost predicate AnswersSome(first: nat, events: seq<Event>, kind: ProbeKind, t: nat, e: Event) {
    exists i: nat :: Answers(first, events, kind, t, e, i)
  }

  /** Replies without a kernel timestamp. */
  ghost function Untimed(first: nat, events: seq<Event>, kind: ProbeKind, t: nat): nat {
    if events == [] then 0 else
      var front, e := events[..|events| - 1], events[|events| - 1];
      Untimed(first, front, kind, t)
      + if AnswersSome(first, front, kind, t, e) && e.packet.receivedNs.Unstamped? then 1 else 0
  }

  /** From the send to the reply, without the time the peer took; never negative. */
  ghost function RoundTrip(sent: nat, received: nat, processing: nat): nat {
    if received > sent + processing then received - sent - processing else 0
  }

  /** The round trips of the replies with a timestamp, in the order they were received. */
  ghost function RoundTrips(first: nat, events: seq<Event>, kind: ProbeKind, t: nat): seq<nat> {
    if events == [] then [] else
      var front, e := events[..|events| - 1], events[|events| - 1];
      var before := RoundTrips(first, front, kind, t);
      if AnswersSome(first, front, kind, t, e) && e.packet.receivedNs.At? then
        var i: nat :| Answers(first, front, kind, t, e, i);
        before + [RoundTrip(front[i].outcome.sentNs, e.packet.receivedNs.ns, e.packet.processingNs)]
      else before
  }

  ghost predicate Tells(s: Stats, trips: seq<nat>, tooLarge: nat, untimed: nat) {
    s.rtts == trips && s.mtuDrops == tooLarge && s.invalidSent == tooLarge + untimed
  }

  /** The counters of one kind and target, read off the events. */
  ghost predicate Explained(s: Stats, first: nat, events: seq<Event>, kind: ProbeKind, t: nat) {
    Tells(s, RoundTrips(first, events, kind, t), TooLarge(events, kind, t), Untimed(first, events, kind, t))
  }

  /** Every counter of `st` is what the events say. */
  ghost predicate AllExplained(st: State, first: nat, events: seq<Event>) {
    && InBounds(st) && PendingIs(st, first, events)
    && forall kind, t: nat {:trigger Explained(StatsOf(st, kind)[t], first, events, kind, t)} ::
         t < |st.rtt| ==> Explained(StatsOf(st, kind)[t], first, events, kind, t)
  }

  /** The pending map holds exactly the unanswered probes, as they were sent. */
  ghost predicate PendingIs(st: State, first: nat, events: seq<Event>) {
    && (forall q :: q in st.pending ==> exists i: nat :: i < |events| && OpenAt(first, events, i) && NumberAt(first, events, i) == q)
    && (forall i: nat {:trigger OpenAt(first, events, i)} :: i < |events| && OpenAt(first, events, i) ==>
          && NumberAt(first, events, i) in st.pending
          && st.pending[NumberAt(first, events, i)] ==
             Pending(events[i].kind, events[i].target, events[i].socket, events[i].outcome.sentNs))
  }

  lemma SendsBetween(events: seq<Event>, i: nat, j: nat)
    requires i < j < |events| && events[i].Sending?
    ensures Sends(events[..i]) < Sends(events[..j]) <= Sends(events)
  {
    SendsGrow(events, i + 1, j);
    SendsGrow(events, j, |events|);
    assert events[..i + 1][..i] == events[..i];
    assert events[..|events|] == events;
  }

  /** Different sends carry different numbers. */
  lemma NumbersUnique(first: nat, events: seq<Event>, i: nat, j: nat)
    requires i < j < |events| && events[i].Sending? && Sends(events) < WORD
    ensures NumberAt(first, events, i) != NumberAt(first, events, j)
  {
    SendsBetween(events, i, j);
    NumbersDiffer(first + Sends(events[..i]), first + Sends(events[..j]));
  }

  lemma {:induction false} SendsGrow(events: seq<Event>, i: nat, j: nat)
    requires i <= j <= |events|
    ensures Sends(events[..i]) <= Sends(events[..j])
  {
    if i < j {
      SendsGrow(events, i, j - 1);
      assert events[..j][..j - 1] == events[..j - 1];
    }
  }

  lemma NumberKept(first: nat, events: seq<Event>, e: Event, i: nat)
    requires i < |events|
    ensures NumberAt(first, events + [e], i) == NumberAt(first, events, i)
  {
    assert (events + [e])[..i] == events[..i];
  }

  lemma NumberNew(first: nat, events: seq<Event>, e: Event)
    ensures NumberAt(first, events + [e], |events|) == Number(first, Sends(events))
  {
    assert (events + [e])[..|events|] == events;
  }

  lemma UnrepliedStep(events: seq<Event>, e: Event, i: nat, q: nat)
    requires i < |events|
    ensures Unreplied(events + [e], i, q) <==> Unreplied(events, i, q) && !ReplyTo(e, q)
  {
    var more := events + [e];
    assert more[|events|] == e;
    assert forall j :: 0 <= j < |events| ==> more[j] == events[j];
  }

  /** One more event, position by position. */
  lemma OpenStep(first: nat, events: seq<Event>, e: Event, i: nat)
    requires i <= |events|
    ensures i < |events| ==>
              && NumberAt(first, events + [e], i) == NumberAt(first, events, i)
              && (OpenAt(first, events + [e], i) <==> OpenAt(first, events, i) && !ReplyTo(e, NumberAt(first, events, i)))
    ensures i == |events| ==>
              && NumberAt(first, events + [e], i) == Number(first, Sends(events))
              && (OpenAt(first, events + [e], i) <==> e.Sending? && e.outcome.Accepted?)
  {
    if i < |events| {
      NumberKept(first, events, e, i);
      UnrepliedStep(events, e, i, NumberAt(first, events, i));
    } else {
      NumberNew(first, events, e);
    }
  }

  lemma PendingStep(st: State, first: nat, events: seq<Event>, e: Event)
    requires InBounds(st) && Legal(e, |st.rtt|) && Numbered(st, first, Sends(events)) && Sends(events) < WORD
    requires PendingIs(st, first, events)
    requires e.Sending? ==> Sends(events) + 1 < WORD
    ensures PendingIs(Apply(st, e), first, events + [e])
  {
    var st', more := Apply(st, e), events + [e];
    NumberFree(st, first, Sends(events));
    forall i: nat | i < |more| && OpenAt(first, more, i)
      ensures NumberAt(first, more, i) in st'.pending
      ensures st'.pending[NumberAt(first, more, i)] == Pending(more[i].kind, more[i].target, more[i].socket, more[i].outcome.sentNs)
    {
      OpenStep(first, events, e, i);
    }
    forall q | q in st'.pending
      ensures exists i: nat :: i < |more| && OpenAt(first, more, i) && NumberAt(first, more, i) == q
    {
      if e.Sending? && e.outcome.Accepted? && q == st.sequence {
        OpenStep(first, events, e, |events|);
        assert OpenAt(first, more, |events|);
      } else {
        assert q in st.pending;
        var i: nat :| i < |events| && OpenAt(first, events, i) && NumberAt(first, events, i) == q;
        OpenStep(first, events, e, i);
        assert OpenAt(first, more, i);
      }
    }
  }

  /** A reply answers a probe of this kind and target exactly when its number is pending for it. */
  lemma AnswersIff(st: State, first: nat, events: seq<Event>, kind: ProbeKind, t: nat, e: Event)
    requires PendingIs(st, first, events) && e.Receiving? && e.packet.Reply?
    ensures var q := e.packet.sequence;
            AnswersSome(first, events, kind, t, e) <==> q in st.pending && st.pending[q].kind == kind && st.pending[q].target == t
  {
    var q := e.packet.sequence;
    if i: nat :| Answers(first, events, kind, t, e, i) {
      assert OpenAt(first, events, i);
    }
    if q in st.pending && st.pending[q].kind == kind && st.pending[q].target == t {
      var i: nat :| i < |events| && OpenAt(first, events, i) && NumberAt(first, events, i) == q;
      assert Answers(first, events, kind, t, e, i);
    }
  }

  /** The pending probes of one kind and target are as many as the unanswered sends. */
  lemma OpenCount(st: State, first: nat, events: seq<Event>, kind: ProbeKind, t: nat)
    requires PendingIs(st, first, events) && Sends(events) < WORD
    ensures Unanswered(st, kind, t) == |Open(first, events, kind, t)|
  {
    var open := Open(first, events, kind, t);
    forall i: nat, j: nat | i in open && j in open && i < j
      ensures NumberAt(first, events, i) != NumberAt(first, events, j)
    {
      NumbersUnique(first, events, i, j);
    }
    assert PendingOf(st.pending, kind, t) == (set i | i in open :: NumberAt(first, events, i)) by {
      forall q
        ensures q in PendingOf(st.pending, kind, t) <==> q in (set i | i in open :: NumberAt(first, events, i))
      {
        if q in PendingOf(st.pending, kind, t) {
          var i: nat :| i < |events| && OpenAt(first, events, i) && NumberAt(first, events, i) == q;
          assert i in open;
        }
        if i :| i in open && NumberAt(first, events, i) == q {
          assert OpenAt(first, events, i);
        }
      }
    }
    NumberedCount(first, events, open);
  }

  lemma {:induction false} NumberedCount(first: nat, events: seq<Event>, open: set<nat>)
    requires forall i :: i in open ==> i < |events|
    requires forall i, j :: i in open && j in open && i < j ==> NumberAt(first, events, i) != NumberAt(first, events, j)
    ensures |set i | i in open :: NumberAt(first, events, i)| == |open|
  {
    if open != {} {
      var x :| x in open;
      var rest := open - {x};
      NumberedCount(first, events, rest);
      var all, less := (set i | i in open :: NumberAt(first, events, i)), (set i | i in rest :: NumberAt(first, events, i));
      assert all == less + {NumberAt(first, events, x)};
      assert NumberAt(first, events, x) !in less;
    }
  }

  /** `e` is a reply to a pending probe of this kind and target. */
  ghost predicate Hits(st: State, e: Event, kind: ProbeKind, t: nat) {
    && e.Receiving? && e.packet.Reply? && e.packet.sequence in st.pending
    && st.pending[e.packet.sequence].kind == kind && st.pending[e.packet.sequence].target == t
  }

  /** The round trip a reply to a pending probe adds. */
  ghost function Trip(st: State, e: Event, kind: ProbeKind, t: nat): seq<nat> {
    if Hits(st, e, kind, t) && e.packet.receivedNs.At?
    then [RoundTrip(st.pending[e.packet.sequence].sentNs, e.packet.receivedNs.ns, e.packet.processingNs)] else []
  }

  /** The replies of one kind and target after one more event. */
  lemma ReplyStep(st: State, first: nat, events: seq<Event>, e: Event, kind: ProbeKind, t: nat)
    requires PendingIs(st, first, events)
    ensures Untimed(first, events + [e], kind, t) ==
            Untimed(first, events, kind, t) + (if Hits(st, e, kind, t) && e.packet.receivedNs.Unstamped? then 1 else 0)
    ensures RoundTrips(first, events + [e], kind, t) == RoundTrips(first, events, kind, t) + Trip(st, e, kind, t)
  {
    var more := events + [e];
    assert more[..|more| - 1] == events && more[|more| - 1] == e;
    if e.Receiving? && e.packet.Reply? {
      AnswersIff(st, first, events, kind, t, e);
      forall i: nat | Answers(first, events, kind, t, e, i)
        ensures events[i].outcome.sentNs == st.pending[e.packet.sequence].sentNs
      {
        assert OpenAt(first, events, i);
      }
    } else {
      assert !AnswersSome(first, events, kind, t, e);
    }
  }

  lemma SendTells(st: State, kind: ProbeKind, t: nat, k: ProbeKind, target: nat, socket: nat, outcome: SendOutcome,
                  trips: seq<nat>, tooLarge: nat, untimed: nat)
    requires InBounds(st) && target < |st.rtt| && t < |st.rtt| && Tells(StatsOf(st, kind)[t], trips, tooLarge, untimed)
    ensures |Send(st, k, target, socket, outcome).rtt| == |Send(st, k, target, socket, outcome).df| == |st.rtt|
    ensures Tells(StatsOf(Send(st, k, target, socket, outcome), kind)[t], trips,
                  tooLarge + (if k == kind && target == t && outcome.TooBig? then 1 else 0), untimed)
  {
  }

  lemma ReceiveTells(st: State, kind: ProbeKind, t: nat, packet: Packet, trips: seq<nat>, tooLarge: nat, untimed: nat)
    requires InBounds(st) && t < |st.rtt| && Tells(StatsOf(st, kind)[t], trips, tooLarge, untimed)
    ensures |Receive(st, packet).rtt| == |Receive(st, packet).df| == |st.rtt|
    ensures Tells(StatsOf(Receive(st, packet), kind)[t], trips + Trip(st, Receiving(packet), kind, t), tooLarge,
                  untimed + (if Hits(st, Receiving(packet), kind, t) && packet.receivedNs.Unstamped? then 1 else 0))
  {
    assert trips + [] == trips;
  }

  lemma ApplyTells(st: State, e: Event, kind: ProbeKind, t: nat, trips: seq<nat>, tooLarge: nat, untimed: nat)
    requires InBounds(st) && Legal(e, |st.rtt|) && t < |st.rtt| && Tells(StatsOf(st, kind)[t], trips, tooLarge, untimed)
    ensures InBounds(Apply(st, e)) && |Apply(st, e).rtt| == |st.rtt|
    ensures Tells(StatsOf(Apply(st, e), kind)[t], trips + Trip(st, e, kind, t),
                  tooLarge + (if e.Sending? && e.kind == kind && e.target == t && e.outcome.TooBig? then 1 else 0),
                  untimed + (if Hits(st, e, kind, t) && e.packet.receivedNs.Unstamped? then 1 else 0))
  {
    ApplyInBounds(st, e);
    match e {
      case Sending(k, target, socket, outcome) =>
        SendTells(st, kind, t, k, target, socket, outcome, trips, tooLarge, untimed);
        assert trips + [] == trips;
      case Receiving(packet) => ReceiveTells(st, kind, t, packet, trips, tooLarge, untimed);
    }
  }

  lemma ExplainStep(st: State, first: nat, events: seq<Event>, e: Event, kind: ProbeKind, t: nat)
    requires InBounds(st) && Legal(e, |st.rtt|) && t < |st.rtt| && PendingIs(st, first, events)
    requires Explained(StatsOf(st, kind)[t], first, events, kind, t)
    ensures InBounds(Apply(st, e)) && |Apply(st, e).rtt| == |st.rtt|
    ensures Explained(StatsOf(Apply(st, e), kind)[t], first, events + [e], kind, t)
  {
    CountStep(events, e, kind, t, Oversized);
    ReplyStep(st, first, events, e, kind, t);
    ApplyTells(st, e, kind, t, RoundTrips(first, events, kind, t), TooLarge(events, kind, t), Untimed(first, events, kind, t));
  }

  lemma AllExplainedStep(st: State, first: nat, events: seq<Event>, e: Event)
    requires Legal(e, |st.rtt|) && Numbered(st, first, Sends(events)) && Sends(events) < WORD
    requires e.Sending? ==> Sends(events) + 1 < WORD
    requires AllExplained(st, first, events)
    ensures AllExplained(Apply(st, e), first, events + [e])
  {
    PendingStep(st, first, events, e);
    ApplyInBounds(st, e);
    forall kind, t: nat | t < |st.rtt|
      ensures Explained(StatsOf(Apply(st, e), kind)[t], first, events + [e], kind, t)
    {
      assert Explained(StatsOf(st, kind)[t], first, events, kind, t);
      ExplainStep(st, first, events, e, kind, t);
    }
  }

  lemma StartExplained(n: nat, st: State)
    requires st == Fresh(n).(sequence := st.sequence)
    ensures AllExplained(st, st.sequence, [])
  {
    forall kind, t: nat | t < n
      ensures Explained(StatsOf(st, kind)[t], st.sequence, [], kind, t)
    {
      assert StatsOf(st, kind)[t] == ZERO;
    }
  }

  /** The counters and the pending map of every run are what its events say. */
  lemma {:induction false} RunExplained(n: nat, start: State, events: seq<Event>)
    requires start == Fresh(n).(sequence := start.sequence) && start.sequence < WORD && Sends(events) < WORD
    requires AllLegal(events, n)
    ensures AllExplained(RunEvents(start, events), start.sequence, events)
  {
    if events == [] {
      StartExplained(n, start);
    } else {
      var front, e := events[..|events| - 1], events[|events| - 1];
      RunExplained(n, start, front);
      EveryRunConserves(n, start.sequence, front);
      assert events == front + [e];
      AllExplainedStep(RunEvents(start, front), start.sequence, front, e);
    }
  }

  /** Attempts that say nothing about the path: buffers full, message too long, or a reply without a timestamp. */
  ghost function LocalFailures(first: nat, events: seq<Event>, kind: ProbeKind, t: nat): nat {
    Transients(events, kind, t) + TooLarge(events, kind, t) + Untimed(first, events, kind, t)
  }

  /** The counters of a finished run, as event counts. */
  lemma CountersAre(st: State, n: nat, first: nat, events: seq<Event>, kind: ProbeKind, t: nat)
    requires Running(st, n, first, events) && first < WORD && Sends(events) < WORD && t < n
    ensures Explained(StatsOf(st, kind)[t], first, events, kind, t)
    ensures Conserves(StatsOf(st, kind)[t], |Open(first, events, kind, t)|, PathErrors(events, kind, t),
                      Transients(events, kind, t), Attempts(events, kind, t))
  {
    RunExplained(n, Fresh(n).(sequence := first), events);
    ExplainedAt(st, first, events, kind, t);
    OpenCount(st, first, events, kind, t);
    BalancedAt(st, events, kind, t);
  }

  lemma ExplainedAt(st: State, first: nat, events: seq<Event>, kind: ProbeKind, t: nat)
    requires AllExplained(st, first, events) && t < |st.rtt|
    ensures Explained(StatsOf(st, kind)[t], first, events, kind, t)
  {
  }

  lemma BalancedAt(st: State, events: seq<Event>, kind: ProbeKind, t: nat)
    requires Balanced(st, events) && t < |st.rtt|
    ensures Conserves(StatsOf(st, kind)[t], Unanswered(st, kind, t), PathErrors(events, kind, t),
                      Transients(events, kind, t), Attempts(events, kind, t))
  {
    assert Attempts(events, kind, t) >= 0;
  }

  // ---------------------------------------------------------------- loss

  function Minus(a: nat, b: nat): nat { if a >= b then a - b else 0 }

  function ValidSent(s: Stats): nat { Minus(s.sent, s.invalidSent) }

  function Lost(s: Stats): nat { Minus(ValidSent(s), s.received) }

  function PercentageLost(s: Stats): real {
    if ValidSent(s) == 0 then 100.0 else Lost(s) as real / ValidSent(s) as real * 100.0
  }

  /** A balanced counter never saturates, its loss is exactly the unanswered probes plus the
      path errors, and local errors are no part of it. */
  lemma LossIsExact(s: Stats, unanswered: nat, pathErrors: nat, transients: nat, attempts: nat)
    requires Conserves(s, unanswered, pathErrors, transients, attempts)
    ensures s.sent >= s.invalidSent && ValidSent(s) == s.sent - s.invalidSent
    ensures ValidSent(s) >= s.received && Lost(s) == ValidSent(s) - s.received == unanswered + pathErrors
    ensures 0.0 <= PercentageLost(s) <= 100.0
    ensures PercentageLost(s) == 100.0 <==> s.received == 0
  {
    var v, l := ValidSent(s), Lost(s);
    if v > 0 {
      Ratio(l as real, v as real);
    }
  }

  lemma Ratio(l: real, v: real)
    requires 0.0 <= l <= v && v > 0.0
    ensures 0.0 <= l / v <= 1.0 && (l / v == 1.0 <==> l == v)
  {
    assert l / v * v == l;
  }
}
