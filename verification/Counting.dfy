/** Counting arguments shared by the plan modules: duplicate-free sequences, full grids. */
module Counting {

  ghost predicate NoDup<T>(s: seq<T>) {
    forall i, j :: 0 <= i < j < |s| ==> s[i] != s[j]
  }

  function Elems<T>(s: seq<T>): set<T> {
    set x | x in s
  }

  function Row(i: nat, m: nat): set<(nat, nat)> {
    if m == 0 then {} else Row(i, m - 1) + {(i, m - 1)}
  }

  /** All pairs `(i, j)` with `i < n` and `j < m`. */
  function Grid(n: nat, m: nat): set<(nat, nat)> {
    if n == 0 then {} else Grid(n - 1, m) + Row(n - 1, m)
  }

  function Range(n: nat): seq<nat> {
    seq(n, i requires 0 <= i => i)
  }

  lemma {:induction false} NoDupCard<T>(s: seq<T>)
    ensures |Elems(s)| <= |s|
    ensures |Elems(s)| == |s| <==> NoDup(s)
  {
    if s != [] {
      var front, last := s[..|s| - 1], s[|s| - 1];
      NoDupCard(front);
      assert s == front + [last];
      assert Elems(s) == Elems(front) + {last};
      if last in front {
        var i :| 0 <= i < |front| && front[i] == last;
        assert s[i] == s[|s| - 1];
      }
    }
  }

  lemma {:induction false} NoDupCount<T>(s: seq<T>, x: T)
    requires NoDup(s)
    ensures multiset(s)[x] == if x in s then 1 else 0
  {
    if s != [] {
      var front, last := s[..|s| - 1], s[|s| - 1];
      NoDupCount(front, x);
      assert s == front + [last];
    }
  }

  lemma {:induction false} SubsetCard<T>(a: set<T>, b: set<T>)
    requires a <= b
    ensures |a| <= |b|
    ensures |a| == |b| ==> a == b
  {
    if a != {} {
      var x :| x in a;
      SubsetCard(a - {x}, b - {x});
    }
  }

  lemma {:induction false} RowMember(i: nat, m: nat, x: (nat, nat))
    ensures x in Row(i, m) <==> x.0 == i && x.1 < m
  {
    if m > 0 {
      RowMember(i, m - 1, x);
    }
  }

  lemma {:induction false} GridMember(n: nat, m: nat, x: (nat, nat))
    ensures x in Grid(n, m) <==> x.0 < n && x.1 < m
  {
    if n > 0 {
      GridMember(n - 1, m, x);
      RowMember(n - 1, m, x);
    }
  }

  lemma {:induction false} RowCard(i: nat, m: nat)
    ensures |Row(i, m)| == m
  {
    if m > 0 {
      RowCard(i, m - 1);
      RowMember(i, m - 1, (i, m - 1));
    }
  }

  function Min(a: nat, b: nat): nat { if a <= b then a else b }

  function Area(n: nat, m: nat): nat {
    if n == 0 then 0 else Area(n - 1, m) + m
  }

  lemma {:induction false} AreaIsProduct(n: nat, m: nat)
    ensures Area(n, m) == n * m
  {
    if n > 0 {
      AreaIsProduct(n - 1, m);
      OneRowMore(n, m);
    }
  }

  lemma {:induction false} GridArea(n: nat, m: nat)
    ensures |Grid(n, m)| == Area(n, m)
  {
    if n > 0 {
      GridArea(n - 1, m);
      RowCard(n - 1, m);
      GridRow(n, m);
    }
  }

  lemma GridCard(n: nat, m: nat)
    ensures |Grid(n, m)| == n * m
  {
    GridArea(n, m);
    AreaIsProduct(n, m);
  }

  lemma GridRow(n: nat, m: nat)
    requires n > 0
    ensures |Grid(n, m)| == |Grid(n - 1, m)| + |Row(n - 1, m)|
  {
    var lower, row := Grid(n - 1, m), Row(n - 1, m);
    forall x | x in lower
      ensures x !in row
    {
      GridMember(n - 1, m, x);
      RowMember(n - 1, m, x);
    }
    assert lower * row == {};
  }

  lemma OneRowMore(n: nat, m: nat)
    requires n > 0
    ensures n * m == (n - 1) * m + m
  {
  }

  /** Pigeonhole: inside an `n` by `m` grid, `n * m` entries are all of it. */
  lemma FullGrid(a: set<(nat, nat)>, n: nat, m: nat)
    requires a <= Grid(n, m)
    ensures |a| == n * m <==> a == Grid(n, m)
  {
    GridCard(n, m);
    SubsetCard(a, Grid(n, m));
  }

  lemma {:induction false} RangeCard(n: nat)
    ensures |Elems(Range(n))| == n && NoDup(Range(n))
  {
    NoDupCard(Range(n));
  }

  lemma FullRange(a: set<nat>, n: nat)
    requires forall x :: x in a ==> x < n
    ensures |a| == n <==> a == Elems(Range(n))
  {
    RangeCard(n);
    assert forall x :: x in a ==> x in Range(n) by {
      forall x | x in a ensures x in Range(n) { assert Range(n)[x] == x; }
    }
    SubsetCard(a, Elems(Range(n)));
  }

  // ---------------------------------------------------------------- remainders

  /** `n % k`, by repeated subtraction (`WrapIsModulo`). */
  function Wrap(n: nat, k: nat): (r: nat)
    requires k > 0
    ensures r < k
  {
    if n < k then n else Wrap(n - k, k)
  }

  lemma {:induction false} WrapIsModulo(n: nat, k: nat)
    requires k > 0
    ensures Wrap(n, k) == n % k
  {
    if n >= k {
      WrapIsModulo(n - k, k);
      ModuloStep(n, k);
    }
  }

  lemma SmallMultiple(k: int, m: int)
    requires -k < k * m && k * m < k
    ensures m == 0
  {
  }

  lemma ModuloStep(n: nat, k: nat)
    requires 0 < k <= n
    ensures n % k == (n - k) % k
  {
    var q, q' := n / k, (n - k) / k;
    assert k * (q - q' - 1) == k * q - k * q' - k;
    SmallMultiple(k, q - q' - 1);
  }

  lemma {:induction false} WrapInjective(x: nat, y: nat, n: nat)
    requires n > 0 && x < y < x + n
    ensures Wrap(x, n) != Wrap(y, n)
  {
    if x >= n {
      WrapInjective(x - n, y - n, n);
    } else if y >= n {
      assert Wrap(y, n) == y - n;
    }
  }

  lemma {:induction false} WrapShift(from: nat, j: nat, n: nat)
    requires n > 0
    ensures Wrap(from + j, n) == Wrap(Wrap(from, n) + j, n)
  {
    if from >= n {
      WrapShift(from - n, j, n);
    }
  }

  /** Every list position is reached within one turn. */
  lemma {:induction false} WrapReaches(from: nat, i: nat, n: nat) returns (c: nat)
    requires i < n
    ensures from <= c < from + n && Wrap(c, n) == i
  {
    if from >= n {
      c := WrapReaches(from - n, i, n);
      c := c + n;
    } else {
      c := if i >= from then i else i + n;
    }
  }

  lemma WrapTwice(c: nat, n: nat)
    requires n > 0
    ensures Wrap(Wrap(c, n), n) == Wrap(c, n)
  {
  }

  // ---------------------------------------------------------------- ticks of a regular cadence

  /** The first cycle that starts at or after `t`. */
  lemma FirstTick(origin: int, interval: nat, t: int) returns (c: nat)
    requires interval > 0 && origin <= t
    ensures t <= origin + c * interval < t + interval
  {
    c := (t - origin + interval - 1) / interval;
    var x := t - origin + interval - 1;
    assert x == c * interval + x % interval;
  }

  lemma CycleSpan(c: nat, from: nat, n: nat, interval: nat)
    requires from <= c <= from + n
    ensures from * interval <= c * interval
    ensures c * interval + interval <= from * interval + (n + 1) * interval
  {
    assert c * interval == from * interval + (c - from) * interval;
    assert (c - from) * interval <= n * interval;
    assert (n + 1) * interval == n * interval + interval;
  }

  lemma CycleOrder(b: nat, c: nat, interval: nat)
    requires b <= c
    ensures b * interval <= c * interval
  {
  }
}
