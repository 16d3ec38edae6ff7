/** Allocation of worker management subnets (netopsbench/platform/runtime/deployment.py:39-51,
    90-113). Networks are address ranges; prefixes follow section 3.1 of RFC 4632. */
module ManagementSubnets {

  /** An IPv4 block `[lo, lo + size)`, or a network of the other version. */
  datatype Network = V4(lo: nat, size: nat) | V6

  datatype Allocation = Allocated(octets: seq<nat>) | RangeExceeded | Exhausted

  function Pow2(n: nat): nat {
    if n == 0 then 1 else 2 * Pow2(n - 1)
  }

  /** 172.31.0.0 */
  const BASE := 0xAC1F_0000

  /** The network of an address and a prefix: host bits are cleared. */
  function Masked(address: nat, prefix: nat): Network
    requires prefix <= 32
  {
    PowPositive(32 - prefix);
    RemainderAtMost(address, Pow2(32 - prefix));
    V4(address - address % Pow2(32 - prefix), Pow2(32 - prefix))
  }

  lemma RemainderAtMost(x: nat, s: nat)
    requires s > 0
    ensures x % s <= x
  {
    Multiples(s, 0, x / s);
  }

  lemma PowPositive(n: nat)
    ensures Pow2(n) > 0
  {
  }

  predicate Overlaps(a: Network, b: Network) {
    a.V4? && b.V4? && a.lo < b.lo + b.size && b.lo < a.lo + a.size
  }

  /** `management_subnet_stride`. */
  function Stride(prefix: nat): nat {
    if prefix >= 24 then 1 else Pow2(24 - prefix)
  }

  /** The third octet of the first worker. */
  function FirstOctet(prefix: nat, base: nat): nat {
    base + if prefix == 24 then 1 else 0
  }

  function Candidate(prefix: nat, octet: nat): Network
    requires prefix <= 32
  {
    Masked(BASE + octet * 256, prefix)
  }

  // ---------------------------------------------------------------- candidates never overlap

  lemma {:induction false} PowMonotone(a: nat, b: nat)
    requires a <= b
    ensures Pow2(a) <= Pow2(b)
  {
    if a < b {
      PowMonotone(a, b - 1);
    }
  }

  lemma {:induction false} PowPlusEight(n: nat)
    ensures Pow2(n + 8) == 256 * Pow2(n)
  {
    if n == 0 {
      assert Pow2(8) == 256 by {
        assert Pow2(4) == 16;
      }
    } else {
      PowPlusEight(n - 1);
    }
  }

  /** A block is no larger than the distance between consecutive candidates. */
  lemma BlockWithinStride(prefix: nat)
    requires prefix <= 32
    ensures Pow2(32 - prefix) <= 256 * Stride(prefix)
  {
    if prefix >= 24 {
      PowMonotone(32 - prefix, 8);
      PowPlusEight(0);
    } else {
      PowPlusEight(24 - prefix);
    }
  }

  /** Addresses at least a block apart fall into different blocks, aligned or not. */
  lemma MaskedApart(a: nat, b: nat, prefix: nat)
    requires prefix <= 32 && a + Pow2(32 - prefix) <= b
    ensures !Overlaps(Masked(a, prefix), Masked(b, prefix))
  {
    var s := Pow2(32 - prefix);
    PowPositive(32 - prefix);
    BlocksApart(a, b, s);
  }

  lemma BlocksApart(a: nat, b: nat, s: nat)
    requires s > 0 && a + s <= b
    ensures a - a % s + s <= b - b % s
  {
    Aligned(a, s);
    Aligned(b, s);
    NextMultiple(s, a / s, b / s);
  }

  lemma Aligned(a: nat, s: nat)
    requires s > 0
    ensures a - a % s == s * (a / s) && 0 <= a % s < s
  {
  }

  lemma NextMultiple(s: nat, p: nat, q: nat)
    requires s * p < s * q
    ensures s * p + s <= s * q
  {
    if q <= p {
      Multiples(s, q, p);
      assert false;
    }
    Multiples(s, p + 1, q);
  }

  lemma Multiples(s: nat, a: nat, b: nat)
    requires a <= b
    ensures s * a <= s * b
  {
  }

  ghost predicate Holds(n: Network, address: nat) { n.V4? && n.lo <= address < n.lo + n.size }

  /** Two networks that are not empty overlap exactly when they share an address. */
  lemma OverlapsIff(a: Network, b: Network)
    requires a.V4? && b.V4? && a.size > 0 && b.size > 0
    ensures Overlaps(a, b) <==> exists x: nat :: Holds(a, x) && Holds(b, x)
  {
    var x := if a.lo <= b.lo then b.lo else a.lo;
    if Overlaps(a, b) {
      assert Holds(a, x) && Holds(b, x);
    }
  }

  /** The candidate of an octet is the aligned block of the prefix length that holds
      172.31.octet.0. */
  lemma CandidateHolds(prefix: nat, octet: nat)
    requires prefix <= 32
    ensures var n, first := Candidate(prefix, octet), ((172 * 256 + 31) * 256 + octet) * 256;
            && n.V4? && n.size == Pow2(32 - prefix) && Holds(n, first)
            && exists k: nat :: n.lo == n.size * k
  {
    PowPositive(32 - prefix);
    var first, size := ((172 * 256 + 31) * 256 + octet) * 256, Pow2(32 - prefix);
    assert BASE + octet * 256 == first;
    Aligned(first, size);
    assert Candidate(prefix, octet).lo == size * (first / size);
  }

  /** Octets advance by one block, or by one for blocks within an octet. */
  lemma StrideIs(prefix: nat)
    requires prefix <= 32
    ensures prefix <= 24 ==> 256 * Stride(prefix) == Pow2(32 - prefix)
    ensures prefix > 24 ==> Stride(prefix) == 1 && Pow2(32 - prefix) < 256
  {
    if prefix <= 24 {
      PowPlusEight(24 - prefix);
    } else {
      PowMonotone(32 - prefix, 7);
      PowPlusEight(0);
      assert Pow2(8) == 2 * Pow2(7);
    }
  }

  lemma CandidatesDisjoint(prefix: nat, x: nat, y: nat)
    requires prefix <= 32 && x + Stride(prefix) <= y
    ensures !Overlaps(Candidate(prefix, x), Candidate(prefix, y))
    ensures !Overlaps(Candidate(prefix, y), Candidate(prefix, x))
  {
    BlockWithinStride(prefix);
    MaskedApart(BASE + x * 256, BASE + y * 256, prefix);
  }

  // ---------------------------------------------------------------- allocation

  predicate Clear(network: Network, used: seq<Network>) {
    forall i :: 0 <= i < |used| ==> !Overlaps(network, used[i])
  }

  /** The unused candidates from `octet` on, in order. */
  function Free(prefix: nat, octet: nat, used: seq<Network>): seq<nat>
    requires prefix <= 32
    decreases 255 - octet
  {
    if octet >= 255 then [] else
      StridePositive(prefix);
      var rest := Free(prefix, octet + Stride(prefix), used);
      if Clear(Candidate(prefix, octet), used) then [octet] + rest else rest
  }

  lemma StridePositive(prefix: nat)
    ensures Stride(prefix) >= 1
  {
    if prefix < 24 {
      PowPositive(24 - prefix);
    }
  }

  function Networks(prefix: nat, octets: seq<nat>): (r: seq<Network>)
    requires prefix <= 32
    ensures |r| == |octets| && forall i :: 0 <= i < |r| ==> r[i] == Candidate(prefix, octets[i])
  {
    seq(|octets|, i requires 0 <= i < |octets| => Candidate(prefix, octets[i]))
  }

  lemma NoClash(prefix: nat, selected: seq<nat>, octet: nat)
    requires prefix <= 32 && forall i :: 0 <= i < |selected| ==> selected[i] + Stride(prefix) <= octet
    ensures Clear(Candidate(prefix, octet), Networks(prefix, selected))
  {
    forall i | 0 <= i < |selected|
      ensures !Overlaps(Candidate(prefix, octet), Networks(prefix, selected)[i])
    {
      CandidatesDisjoint(prefix, selected[i], octet);
    }
  }

  /** The loop has taken every free candidate before `octet`. */
  ghost predicate Selecting(prefix: nat, used: seq<Network>, all: seq<nat>, selected: seq<nat>, octet: nat)
    requires prefix <= 32
  {
    && all == selected + Free(prefix, octet, used)
    && forall i :: 0 <= i < |selected| ==> selected[i] + Stride(prefix) <= octet
  }

  lemma SelectStep(prefix: nat, used: seq<Network>, all: seq<nat>, selected: seq<nat>, octet: nat)
    requires prefix <= 32 && octet < 255 && Selecting(prefix, used, all, selected, octet)
    ensures Clear(Candidate(prefix, octet), Networks(prefix, selected))
    ensures var taken := if Clear(Candidate(prefix, octet), used) then selected + [octet] else selected;
            Selecting(prefix, used, all, taken, octet + Stride(prefix)) && taken <= all
  {
    NoClash(prefix, selected, octet);
    StridePositive(prefix);
    var next := octet + Stride(prefix);
    if Clear(Candidate(prefix, octet), used) {
      assert Free(prefix, octet, used) == [octet] + Free(prefix, next, used);
      assert all == selected + [octet] + Free(prefix, next, used);
    } else {
      assert Free(prefix, octet, used) == Free(prefix, next, used);
    }
  }

  /** One candidate: taken when clear of the used and the selected networks. */
  method TryCandidate(prefix: nat, used: seq<Network>, ghost all: seq<nat>, selected: seq<nat>, octet: nat)
    returns (free: bool, taken: seq<nat>)
    requires prefix <= 32 && octet < 255 && Selecting(prefix, used, all, selected, octet)
    ensures Selecting(prefix, used, all, taken, octet + Stride(prefix)) && taken <= all
    ensures taken == if free then selected + [octet] else selected
  {
    var network := Candidate(prefix, octet);
    SelectStep(prefix, used, all, selected, octet);
    free := Clear(network, used) && Clear(network, Networks(prefix, selected));
    taken := if free then selected + [octet] else selected;
  }

  /** `allocate_management_subnets`: the first free candidates, or failure. */
  method Allocate(prefix: nat, base: nat, workers: int, used: seq<Network>) returns (r: Allocation)
    requires prefix <= 32
    ensures r.RangeExceeded? <==> base + (if prefix == 24 then 1 else 0) + Stride(prefix) > 255
    ensures r.Allocated? ==> |r.octets| == workers && r.octets <= Free(prefix, FirstOctet(prefix, base), used)
    ensures workers >= 1 && !r.RangeExceeded? ==>
              (r.Exhausted? <==> |Free(prefix, FirstOctet(prefix, base), used)| < workers)
    ensures workers < 1 ==> !r.Allocated?
  {
    var stride: int := Stride(prefix);
    var start := FirstOctet(prefix, base);
    StridePositive(prefix);
    if start + stride - 1 > 254 {
      return RangeExceeded;
    }
    var found, selected := SelectFree(prefix, start, workers, used);
    r := if found then Allocated(selected) else Exhausted;
  }

  /** The loop over the candidates. */
  method SelectFree(prefix: nat, start: nat, workers: int, used: seq<Network>) returns (found: bool, selected: seq<nat>)
    requires prefix <= 32
    ensures selected <= Free(prefix, start, used)
    ensures found ==> |selected| == workers && workers >= 1
    ensures !found ==> selected == Free(prefix, start, used) && (workers >= 1 ==> |selected| < workers)
  {
    selected := [];
    var octet := start;
    ghost var all := Free(prefix, start, used);
    StridePositive(prefix);
    while octet < 255
      invariant Selecting(prefix, used, all, selected, octet)
      invariant workers >= 1 ==> |selected| < workers
      decreases if octet < 255 then 255 - octet else 0
    {
      var free;
      free, selected := TryCandidate(prefix, used, all, selected, octet);
      if free && |selected| == workers {
        return true, selected;
      }
      octet := octet + Stride(prefix);
    }
    found := false;
  }

  /** Octets from `lo` to 254, at least a stride apart. */
  ghost predicate Spaced(f: seq<nat>, lo: nat, stride: nat) {
    && (forall i :: 0 <= i < |f| ==> lo <= f[i] < 255)
    && (forall i, j :: 0 <= i < j < |f| ==> f[i] + stride <= f[j])
  }

  lemma SpacedCons(x: nat, rest: seq<nat>, stride: nat)
    requires x < 255 && Spaced(rest, x + stride, stride)
    ensures Spaced([x] + rest, x, stride) && Spaced(rest, x, stride)
  {
  }

  lemma {:induction false} FreeSpaced(prefix: nat, octet: nat, used: seq<Network>)
    requires prefix <= 32
    ensures Spaced(Free(prefix, octet, used), octet, Stride(prefix))
    decreases 255 - octet
  {
    if octet < 255 {
      StridePositive(prefix);
      FreeSpaced(prefix, octet + Stride(prefix), used);
      SpacedCons(octet, Free(prefix, octet + Stride(prefix), used), Stride(prefix));
    }
  }

  lemma {:induction false} FreeClear(prefix: nat, octet: nat, used: seq<Network>)
    requires prefix <= 32
    ensures forall x :: x in Free(prefix, octet, used) ==> Clear(Candidate(prefix, x), used)
    decreases 255 - octet
  {
    if octet < 255 {
      StridePositive(prefix);
      FreeClear(prefix, octet + Stride(prefix), used);
    }
  }

  lemma OneLess(k: nat, s: nat)
    requires k > 0
    ensures k * s == s + (k - 1) * s
  {
  }

  /** No free candidate of the range is left out. */
  lemma {:induction false} FreeComplete(prefix: nat, octet: nat, used: seq<Network>, k: nat)
    requires prefix <= 32 && octet + k * Stride(prefix) < 255
    requires Clear(Candidate(prefix, octet + k * Stride(prefix)), used)
    ensures octet + k * Stride(prefix) in Free(prefix, octet, used)
    decreases k
  {
    StridePositive(prefix);
    if k > 0 {
      OneLess(k, Stride(prefix));
      FreeComplete(prefix, octet + Stride(prefix), used, k - 1);
    }
  }

  /** The allocated subnets are pairwise disjoint and disjoint from every used network, even
      from a base that is not aligned to the stride. */
  lemma AllocationDisjoint(prefix: nat, base: nat, used: seq<Network>, octets: seq<nat>)
    requires prefix <= 32 && octets <= Free(prefix, FirstOctet(prefix, base), used)
    ensures forall i, k :: 0 <= i < |octets| && 0 <= k < |used| ==> !Overlaps(Candidate(prefix, octets[i]), used[k])
    ensures forall i, j :: 0 <= i < |octets| && 0 <= j < |octets| && i != j ==>
                             !Overlaps(Candidate(prefix, octets[i]), Candidate(prefix, octets[j]))
  {
    FreeSpaced(prefix, FirstOctet(prefix, base), used);
    FreeClear(prefix, FirstOctet(prefix, base), used);
    assert forall i :: 0 <= i < |octets| ==> octets[i] in Free(prefix, FirstOctet(prefix, base), used);
    forall i, j | 0 <= i < |octets| && 0 <= j < |octets| && i != j
      ensures !Overlaps(Candidate(prefix, octets[i]), Candidate(prefix, octets[j]))
    {
      if i < j {
        CandidatesDisjoint(prefix, octets[i], octets[j]);
      } else {
        CandidatesDisjoint(prefix, octets[j], octets[i]);
      }
    }
  }
}
