/** The per-flow token bucket of the traffic scheduler
    (native/client-agent/src/traffic.rs:422-605), over reals. */
module TokenBucket {

  const MAX_TCP_WRITE := 65536

  datatype Flow = Flow(rate: real, payload: nat, tokens: real, previous: real)

  function MaxReal(a: real, b: real): real { if a >= b then a else b }

  function MinReal(a: real, b: real): real { if a <= b then a else b }

  /** 125 ms worth of bytes, or one payload if that is more. */
  function Burst(rate: real, payload: nat): real {
    MaxReal(rate * 0.1 * 1.25, payload as real)
  }

  /** `replenish_tokens`. */
  function Replenish(tokens: real, rate: real, elapsed: real, payload: nat): real {
    MinReal(tokens + rate * elapsed, Burst(rate, payload))
  }

  /** `ScheduledFlow::new`: bandwidth in bits per second, at least one payload byte. */
  function NewFlow(bandwidthBps: nat, payloadBytes: nat, now: real): Flow {
    Flow(bandwidthBps as real / 8.0, if payloadBytes >= 1 then payloadBytes else 1, 0.0, now)
  }

  ghost predicate Valid(f: Flow) {
    f.rate >= 0.0 && f.payload >= 1 && 0.0 <= f.tokens <= Burst(f.rate, f.payload)
  }

  /** The result of a non-blocking write: the bytes taken by the kernel, `WouldBlock`, or an error. */
  datatype Write = Wrote(bytes: nat) | Busy | Failed

  /** `packets` whole datagrams leave: as many as the tokens cover and the socket takes in a row. */
  ghost predicate Datagrams(tokens0: real, payload: nat, socket: nat -> Write, packets: nat) {
    && (forall k :: 0 <= k < packets ==> socket(k).Wrote?)
    && (packets * payload) as real <= tokens0
    && (tokens0 < (packets * payload) as real + payload as real || !socket(packets).Wrote?)
  }

  /** The UDP loop: whole payloads while tokens last; the socket takes a datagram entirely. */
  method SendUdp(tokens0: real, payload: nat, socket: nat -> Write)
    returns (tokens: real, bytes: nat, packets: nat, failed: bool)
    requires payload >= 1 && tokens0 >= 0.0
    ensures tokens == tokens0 - bytes as real && tokens >= 0.0
    ensures bytes == packets * payload
    ensures Datagrams(tokens0, payload, socket, packets)
    ensures failed <==> tokens >= payload as real && socket(packets).Failed?
  {
    tokens, bytes, packets, failed := tokens0, 0, 0, false;
    while tokens >= payload as real
      invariant tokens == tokens0 - bytes as real && tokens >= 0.0
      invariant bytes == packets * payload && !failed
      invariant forall k :: 0 <= k < packets ==> socket(k).Wrote?
      decreases tokens.Floor
    {
      match socket(packets) {
        case Busy => return;
        case Failed =>
          failed := true;
          return;
        case Wrote(_) =>
      }
      tokens := tokens - payload as real;
      bytes := bytes + payload;
      packets := packets + 1;
    }
  }

  /** The datagrams of a tick are determined by the tokens and the socket's answers. */
  lemma DatagramsUnique(tokens0: real, payload: nat, socket: nat -> Write, m: nat, n: nat)
    requires Datagrams(tokens0, payload, socket, m) && Datagrams(tokens0, payload, socket, n)
    ensures m == n
  {
    if m < n {
      Multiples(m + 1, n, payload);
    } else if n < m {
      Multiples(n + 1, m, payload);
    }
  }

  lemma Multiples(m: nat, n: nat, payload: nat)
    requires m <= n
    ensures m * payload <= n * payload && (m > 0 ==> m * payload == (m - 1) * payload + payload)
  {
    assert n * payload - m * payload == (n - m) * payload;
  }

  /** The largest write the TCP loop offers: whole payloads the tokens cover, capped. */
  function Offered(tokens: real, payload: nat): nat
    requires payload >= 1 && tokens >= 0.0
  {
    var whole := (tokens / payload as real).Floor * payload;
    if whole <= MAX_TCP_WRITE then if whole >= 0 then whole else 0 else MAX_TCP_WRITE
  }

  /** An offer is covered by the tokens and is capped. It is a number of whole payloads to which
      no further one fits, unless whole payloads beyond the cap would fit. */
  lemma OfferedFits(tokens: real, payload: nat)
    requires payload >= 1 && tokens >= payload as real
    ensures 1 <= Offered(tokens, payload) <= MAX_TCP_WRITE && Offered(tokens, payload) as real <= tokens
    ensures if exists n: nat :: n * payload > MAX_TCP_WRITE && (n * payload) as real <= tokens
            then Offered(tokens, payload) == MAX_TCP_WRITE
            else Offered(tokens, payload) % payload == 0 && tokens < Offered(tokens, payload) as real + payload as real
  {
    var q := tokens / payload as real;
    assert q * payload as real == tokens;
    var k := q.Floor;
    assert k as real <= q < k as real + 1.0;
    assert q >= 1.0;
    FloorProduct(k, payload, q);
    forall n: nat | (n * payload) as real <= tokens
      ensures n * payload <= k * payload
    {
      Covered(n, k, payload, q);
      Multiples(n, k, payload);
    }
    if k * payload <= MAX_TCP_WRITE {
      Remainder(k, payload);
    }
  }

  lemma Remainder(k: nat, payload: nat)
    requires payload >= 1
    ensures (k * payload) % payload == 0
  {
    var r, d := (k * payload) % payload, (k * payload) / payload;
    assert k * payload == d * payload + r;
    assert (k - d) * payload == r;
    if k > d {
      Multiples(1, k - d, payload);
    } else if k < d {
      assert (d - k) * payload == -r;
      Multiples(1, d - k, payload);
    }
  }

  lemma Covered(n: nat, k: int, payload: nat, q: real)
    requires payload >= 1 && q < k as real + 1.0 && (n * payload) as real <= q * payload as real
    ensures n <= k
  {
    assert (n * payload) as real == n as real * payload as real;
    if n as real > q {
      Scaled(q, n as real, payload as real);
    }
  }

  lemma Scaled(a: real, b: real, c: real)
    requires a < b && c > 0.0
    ensures a * c < b * c
  {
  }

  lemma FloorProduct(k: int, payload: nat, q: real)
    requires 1 <= k && k as real <= q < k as real + 1.0 && payload >= 1
    ensures 1 <= k * payload && (k * payload) as real <= q * payload as real < (k * payload) as real + payload as real
  {
    assert (k * payload) as real == k as real * payload as real;
    Scaled(q, k as real + 1.0, payload as real);
    assert (k as real + 1.0) * payload as real == k as real * payload as real + payload as real;
  }

  function Total(s: seq<nat>): nat {
    if s == [] then 0 else Total(s[..|s| - 1]) + s[|s| - 1]
  }

  /** The payloads that writes of these sizes count for: a part of one counts in full. */
  function Payloads(s: seq<nat>, payload: nat): nat
    requires payload >= 1
  {
    if s == [] then 0 else Payloads(s[..|s| - 1], payload) + (s[|s| - 1] + payload - 1) / payload
  }

  /** Write `k` of a tick: tokens for a payload are left, and the stream takes what it will of
      the offer, something at least. */
  ghost predicate WriteIs(tokens0: real, payload: nat, socket: nat -> Write, writes: seq<nat>, k: nat)
    requires payload >= 1 && k < |writes|
  {
    var left := tokens0 - Total(writes[..k]) as real;
    && left >= payload as real && socket(k).Wrote?
    && writes[k] > 0 && writes[k] == if socket(k).bytes <= Offered(left, payload) then socket(k).bytes else Offered(left, payload)
  }

  /** The writes of a tick go on until no whole payload is covered or the stream takes nothing. */
  ghost predicate Writes(tokens0: real, payload: nat, socket: nat -> Write, writes: seq<nat>)
    requires payload >= 1
  {
    && (forall k {:trigger WriteIs(tokens0, payload, socket, writes, k)} ::
          0 <= k < |writes| ==> WriteIs(tokens0, payload, socket, writes, k))
    && (tokens0 - Total(writes) as real < payload as real || !socket(|writes|).Wrote? || socket(|writes|).bytes == 0)
  }

  /** The TCP loop: a zero-byte write or an error ends it and the connection, a write that would
      block ends it, any other write uses up its bytes. */
  method SendTcp(tokens0: real, payload: nat, socket: nat -> Write)
    returns (tokens: real, bytes: nat, packets: nat, disconnected: bool, ghost writes: seq<nat>)
    requires payload >= 1 && tokens0 >= 0.0
    ensures tokens == tokens0 - bytes as real && tokens >= 0.0
    ensures bytes == Total(writes) && packets == Payloads(writes, payload)
    ensures Writes(tokens0, payload, socket, writes)
    ensures disconnected <==> tokens >= payload as real && (socket(|writes|) == Wrote(0) || socket(|writes|).Failed?)
  {
    tokens, bytes, packets, disconnected, writes := tokens0, 0, 0, false, [];
    var attempt: nat := 0;
    while tokens >= payload as real
      invariant tokens == tokens0 - bytes as real && tokens >= 0.0 && !disconnected
      invariant bytes == Total(writes) && packets == Payloads(writes, payload) && attempt == |writes|
      invariant forall k {:trigger WriteIs(tokens0, payload, socket, writes, k)} ::
                  0 <= k < |writes| ==> WriteIs(tokens0, payload, socket, writes, k)
      decreases tokens.Floor
    {
      OfferedFits(tokens, payload);
      var offered := Offered(tokens, payload);
      match socket(attempt) {
        case Busy => return;
        case Failed =>
          disconnected := true;
          return;
        case Wrote(n) =>
          var taken := if n <= offered then n else offered;
          if taken == 0 {
            disconnected := true;
            return;
          }
          WritesStep(tokens0, payload, socket, writes, taken);
          tokens := tokens - taken as real;
          bytes := bytes + taken;
          packets := packets + (taken + payload - 1) / payload;
          writes := writes + [taken];
      }
      attempt := attempt + 1;
    }
  }

  lemma WritesStep(tokens0: real, payload: nat, socket: nat -> Write, writes: seq<nat>, taken: nat)
    requires payload >= 1
    requires forall k {:trigger WriteIs(tokens0, payload, socket, writes, k)} ::
               0 <= k < |writes| ==> WriteIs(tokens0, payload, socket, writes, k)
    requires tokens0 - Total(writes) as real >= payload as real && socket(|writes|).Wrote? && taken > 0
    requires var offered := Offered(tokens0 - Total(writes) as real, payload);
             taken == if socket(|writes|).bytes <= offered then socket(|writes|).bytes else offered
    ensures var after := writes + [taken];
            && Total(after) == Total(writes) + taken
            && Payloads(after, payload) == Payloads(writes, payload) + (taken + payload - 1) / payload
            && forall k {:trigger WriteIs(tokens0, payload, socket, after, k)} ::
                 0 <= k < |after| ==> WriteIs(tokens0, payload, socket, after, k)
  {
    var after := writes + [taken];
    assert after[..|writes|] == writes;
    forall k | 0 <= k < |after|
      ensures WriteIs(tokens0, payload, socket, after, k)
    {
      if k < |writes| {
        assert after[..k] == writes[..k];
        assert WriteIs(tokens0, payload, socket, writes, k);
      }
    }
  }

  lemma CeilCovers(x: nat, payload: nat)
    requires payload >= 1
    ensures x <= (x + payload - 1) / payload * payload <= x + payload - 1
  {
    assert x + payload - 1 == (x + payload - 1) / payload * payload + (x + payload - 1) % payload;
  }

  lemma Distribute(a: nat, b: nat, c: nat)
    ensures (a + b) * c == a * c + b * c
  {
  }

  /** The counted payloads cover the bytes, with less than one payload to spare per write. */
  lemma {:induction false} PayloadsCover(s: seq<nat>, payload: nat)
    requires payload >= 1
    ensures Total(s) <= Payloads(s, payload) * payload <= Total(s) + |s| * (payload - 1)
  {
    if s != [] {
      var front, last := s[..|s| - 1], s[|s| - 1];
      PayloadsCover(front, payload);
      CeilCovers(last, payload);
      Distribute(Payloads(front, payload), (last + payload - 1) / payload, payload);
      Distribute(|front|, 1, payload - 1);
    }
  }

  // ---------------------------------------------------------------- every run of ticks

  /** One scheduler tick of a flow: the time it runs and the bytes it manages to send. */
  datatype Tick = Tick(now: real, bytes: nat)

  /** A tick is possible if time does not run backwards and no more than the tokens is sent. */
  ghost predicate Possible(f: Flow, t: Tick) {
    f.previous <= t.now && t.bytes as real <= Replenish(f.tokens, f.rate, t.now - f.previous, f.payload)
  }

  function Service(f: Flow, t: Tick): Flow {
    f.(tokens := Replenish(f.tokens, f.rate, t.now - f.previous, f.payload) - t.bytes as real, previous := t.now)
  }

  ghost predicate Schedule(f: Flow, ticks: seq<Tick>)
    decreases |ticks|
  {
    ticks == [] || (Possible(f, ticks[0]) && Schedule(Service(f, ticks[0]), ticks[1..]))
  }

  function After(f: Flow, ticks: seq<Tick>): Flow
    decreases |ticks|
  {
    if ticks == [] then f else After(Service(f, ticks[0]), ticks[1..])
  }

  function Bytes(ticks: seq<Tick>): nat {
    if ticks == [] then 0 else ticks[0].bytes + Bytes(ticks[1..])
  }

  /** `service_flow` for a flow whose transport is up or not. */
  method ServiceFlow(f: Flow, now: real, connected: bool, udp: bool, socket: nat -> Write)
    returns (g: Flow, bytes: nat, packets: nat, ghost writes: seq<nat>)
    requires Valid(f) && f.previous <= now
    ensures Possible(f, Tick(now, bytes)) && g == Service(f, Tick(now, bytes))
    ensures !connected ==> bytes == packets == 0
    ensures connected && udp ==> bytes == packets * f.payload && Datagrams(bytes as real + g.tokens, f.payload, socket, packets)
    ensures connected && !udp ==> && bytes == Total(writes) && packets == Payloads(writes, f.payload)
                                  && Writes(bytes as real + g.tokens, f.payload, socket, writes)
  {
    var tokens := Replenish(f.tokens, f.rate, now - f.previous, f.payload);
    ReplenishCovers(f, now);
    bytes, packets, writes := 0, 0, [];
    if connected && udp {
      var failed;
      tokens, bytes, packets, failed := SendUdp(tokens, f.payload, socket);
    } else if connected {
      var disconnected;
      tokens, bytes, packets, disconnected, writes := SendTcp(tokens, f.payload, socket);
    }
    g := f.(tokens := tokens, previous := now);
  }

  lemma ReplenishCovers(f: Flow, now: real)
    requires Valid(f) && f.previous <= now
    ensures Replenish(f.tokens, f.rate, now - f.previous, f.payload) >= f.tokens
  {
    Product(f.rate, now - f.previous);
  }

  /** Tokens the rate produces between two instants. */
  function Accrued(rate: real, from: real, to: real): real { rate * (to - from) }

  lemma AccruedLaws(rate: real, a: real, b: real, c: real)
    requires rate >= 0.0 && a <= b
    ensures Accrued(rate, a, b) >= 0.0
    ensures Accrued(rate, a, c) == Accrued(rate, a, b) + Accrued(rate, b, c)
  {
    Product(rate, b - a);
  }

  lemma Product(x: real, y: real)
    requires x >= 0.0 && y >= 0.0
    ensures x * y >= 0.0
  {
  }

  lemma ServiceValid(f: Flow, t: Tick)
    requires Valid(f) && Possible(f, t)
    ensures Valid(Service(f, t))
    ensures Service(f, t).tokens + t.bytes as real <= f.tokens + Accrued(f.rate, f.previous, t.now)
    ensures Service(f, t).tokens + t.bytes as real <= Burst(f.rate, f.payload)
  {
    AccruedLaws(f.rate, f.previous, t.now, t.now);
  }

  /** Over any run, bytes sent plus tokens left never exceed the tokens at hand plus the rate. */
  lemma {:induction false} BytesBounded(f: Flow, ticks: seq<Tick>)
    requires Valid(f) && Schedule(f, ticks)
    ensures Valid(After(f, ticks)) && After(f, ticks).rate == f.rate && After(f, ticks).previous >= f.previous
    ensures Bytes(ticks) as real + After(f, ticks).tokens <= f.tokens + Accrued(f.rate, f.previous, After(f, ticks).previous)
    decreases |ticks|
  {
    if ticks != [] {
      var g := Service(f, ticks[0]);
      ServiceValid(f, ticks[0]);
      BytesBounded(g, ticks[1..]);
      AccruedLaws(f.rate, f.previous, g.previous, After(g, ticks[1..]).previous);
    }
  }

  lemma NewFlowValid(bandwidthBps: nat, payloadBytes: nat, created: real)
    ensures Valid(NewFlow(bandwidthBps, payloadBytes, created))
  {
  }

  lemma NewFlowBytes(bandwidthBps: nat, payloadBytes: nat, created: real, ticks: seq<Tick>)
    requires Schedule(NewFlow(bandwidthBps, payloadBytes, created), ticks)
    ensures var f := NewFlow(bandwidthBps, payloadBytes, created);
            Valid(After(f, ticks)) && Bytes(ticks) as real <= Accrued(f.rate, created, After(f, ticks).previous)
  {
    NewFlowValid(bandwidthBps, payloadBytes, created);
    BytesBounded(NewFlow(bandwidthBps, payloadBytes, created), ticks);
  }

  /** Since its creation a flow never sends more than its bandwidth times the elapsed time. */
  lemma NeverAboveRate(bandwidthBps: nat, payloadBytes: nat, created: real, ticks: seq<Tick>)
    requires Schedule(NewFlow(bandwidthBps, payloadBytes, created), ticks)
    ensures var f := NewFlow(bandwidthBps, payloadBytes, created);
            8.0 * Bytes(ticks) as real <= Accrued(bandwidthBps as real, created, After(f, ticks).previous)
  {
    NewFlowBytes(bandwidthBps, payloadBytes, created, ticks);
    var f := NewFlow(bandwidthBps, payloadBytes, created);
    Eighths(bandwidthBps as real, f.rate, created, After(f, ticks).previous);
  }

  lemma Eighths(b: real, rate: real, from: real, to: real)
    requires rate == b / 8.0
    ensures 8.0 * Accrued(rate, from, to) == Accrued(b, from, to)
  {
    assert b / 8.0 * (to - from) == b * (to - from) / 8.0;
  }

  /** The ticks from the first to the last of any stretch send at most one burst plus the rate
      over the time between them. */
  lemma BurstBound(f: Flow, ticks: seq<Tick>)
    requires Valid(f) && ticks != [] && Schedule(f, ticks)
    ensures Bytes(ticks) as real <= Burst(f.rate, f.payload) + Accrued(f.rate, ticks[0].now, After(f, ticks).previous)
  {
    ServiceValid(f, ticks[0]);
    BytesBounded(Service(f, ticks[0]), ticks[1..]);
  }

  /** A burst is an eighth of a second at the rate, or one payload if that is more. */
  lemma Spelled(rate: real, payload: nat, from: real, to: real)
    ensures Burst(rate, payload) == if rate >= 8.0 * payload as real then rate / 8.0 else payload as real
    ensures Accrued(rate, from, to) == rate * (to - from)
  {
  }

  /** A tick that does not have to cut the tokens back to the burst size. */
  ghost predicate UncutTick(f: Flow, t: Tick) {
    || f.tokens + Accrued(f.rate, f.previous, t.now) <= f.rate / 8.0
    || f.tokens + Accrued(f.rate, f.previous, t.now) <= f.payload as real
  }

  ghost predicate Uncut(f: Flow, ticks: seq<Tick>)
    decreases |ticks|
  {
    ticks != [] ==> UncutTick(f, ticks[0]) && Uncut(Service(f, ticks[0]), ticks[1..])
  }

  lemma UncutService(f: Flow, t: Tick)
    requires UncutTick(f, t)
    ensures Service(f, t).tokens + t.bytes as real == f.tokens + Accrued(f.rate, f.previous, t.now)
  {
    Spelled(f.rate, f.payload, f.previous, t.now);
  }

  /** As long as no tokens are cut, none is lost: what was sent and what is left is what was at
      hand and what the rate produced. */
  lemma {:induction false} BytesExact(f: Flow, ticks: seq<Tick>)
    requires Valid(f) && Schedule(f, ticks) && Uncut(f, ticks)
    ensures Bytes(ticks) as real + After(f, ticks).tokens ==
            f.tokens + Accrued(f.rate, f.previous, After(f, ticks).previous)
    decreases |ticks|
  {
    if ticks != [] {
      var g := Service(f, ticks[0]);
      ServiceValid(f, ticks[0]);
      UncutService(f, ticks[0]);
      BytesExact(g, ticks[1..]);
      AccruedLaws(f.rate, f.previous, g.previous, After(g, ticks[1..]).previous);
    } else {
      AccruedLaws(f.rate, f.previous, f.previous, f.previous);
    }
  }

  lemma NewFlowExact(bandwidthBps: nat, payloadBytes: nat, created: real, ticks: seq<Tick>)
    requires var f := NewFlow(bandwidthBps, payloadBytes, created);
             Schedule(f, ticks) && Uncut(f, ticks) && After(f, ticks).tokens < f.payload as real
    ensures var f := NewFlow(bandwidthBps, payloadBytes, created);
            Bytes(ticks) as real + f.payload as real > Accrued(f.rate, created, After(f, ticks).previous)
  {
    NewFlowValid(bandwidthBps, payloadBytes, created);
    BytesExact(NewFlow(bandwidthBps, payloadBytes, created), ticks);
  }

  /** A flow whose transport takes everything offered, so that less than one payload is left,
      has sent its bandwidth over the elapsed time, but for that payload. */
  lemma BandwidthReached(bandwidthBps: nat, payloadBytes: nat, created: real, ticks: seq<Tick>)
    requires var f := NewFlow(bandwidthBps, payloadBytes, created);
             Schedule(f, ticks) && Uncut(f, ticks) && After(f, ticks).tokens < f.payload as real
    ensures var f := NewFlow(bandwidthBps, payloadBytes, created);
            8.0 * (Bytes(ticks) as real + f.payload as real) > Accrued(bandwidthBps as real, created, After(f, ticks).previous)
  {
    NewFlowExact(bandwidthBps, payloadBytes, created, ticks);
    var f := NewFlow(bandwidthBps, payloadBytes, created);
    Eighths(bandwidthBps as real, f.rate, created, After(f, ticks).previous);
  }
}
