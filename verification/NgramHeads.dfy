/** The per-head id intervals of the n-gram tables: prime sizes, all different over every head
    of every PLE layer, laid out one after the other. */
module NgramHeads {
  import opened Arith

  // ---------------------------------------------------------------- primes

  predicate Prime(p: nat) {
    p >= 2 && forall d :: 2 <= d < p ==> p % d != 0
  }

  function Factorial(n: nat): (f: nat)
    ensures f >= 1
  {
    if n == 0 then 1 else Factorial(n - 1) * n
  }

  lemma MultipleMod(k: nat, d: nat)
    requires d > 0
    ensures k * d % d == 0
  {
    var x := k * d;
    assert x == x / d * d + x % d;
    if x / d < k { MulMonotone(x / d + 1, k, d); }
    if x / d > k { MulMonotone(k + 1, x / d, d); }
  }

  lemma ModZeroIsMultiple(x: nat, d: nat) returns (k: nat)
    requires d > 0 && x % d == 0
    ensures x == k * d
  {
    k := x / d;
  }

  lemma ModTransitive(m: nat, p: nat, d: nat)
    requires d > 0 && p > 0 && m % p == 0 && p % d == 0
    ensures m % d == 0
  {
    var k := ModZeroIsMultiple(m, p);
    var j := ModZeroIsMultiple(p, d);
    assert m == k * j * d by { MulAssoc(k, j, d); }
    MultipleMod(k * j, d);
  }

  lemma MulAssoc(a: nat, b: nat, c: nat)
    ensures a * (b * c) == a * b * c
  {
  }

  lemma {:induction false} DividesFactorial(n: nat, d: nat)
    requires 1 <= d <= n
    ensures Factorial(n) % d == 0
    decreases n
  {
    if d == n {
      MultipleMod(Factorial(n - 1), d);
    } else {
      DividesFactorial(n - 1, d);
      var k := ModZeroIsMultiple(Factorial(n - 1), d);
      assert Factorial(n) == k * n * d by { MulSwap(k, d, n); }
      MultipleMod(k * n, d);
    }
  }

  lemma MulSwap(a: nat, b: nat, c: nat)
    ensures a * b * c == a * c * b
  {
  }

  /** Every number from 2 up has a prime divisor: its least divisor. */
  lemma LeastDivisor(m: nat) returns (p: nat)
    requires m >= 2
    ensures Prime(p) && m % p == 0
  {
    p := 2;
    while m % p != 0
      invariant 2 <= p <= m && forall d :: 2 <= d < p ==> m % d != 0
      decreases m - p
    {
      assert m % m == 0 by { MultipleMod(1, m); }
      p := p + 1;
    }
    forall d | 2 <= d < p ensures p % d != 0 {
      if p % d == 0 { ModTransitive(m, p, d); }
    }
  }

  /** Euclid: some prime lies above n, and not above n! + 1. */
  lemma PrimeAbove(n: nat) returns (p: nat)
    ensures Prime(p) && n < p <= Factorial(n) + 1
  {
    var m := Factorial(n) + 1;
    p := LeastDivisor(m);
    if p <= n {
      DividesFactorial(n, p);
      var k := ModZeroIsMultiple(Factorial(n), p);
      var j := ModZeroIsMultiple(m, p);
      if j <= k { MulMonotone(j, k, p); } else { MulMonotone(k + 1, j, p); }
    }
    var j := ModZeroIsMultiple(m, p);
    if p > m { MulMonotone(1, j, p); }
  }

  function FirstPrimeFrom(n: nat, bound: nat): (p: nat)
    requires exists q :: n <= q <= bound && Prime(q)
    ensures Prime(p) && n <= p && forall q :: n <= q < p ==> !Prime(q)
    decreases bound - n
  {
    if Prime(n) then n else FirstPrimeFrom(n + 1, bound)
  }

  /** sympy.nextprime: the least prime above n. */
  function NextPrime(n: nat): (p: nat)
    ensures Prime(p) && n < p && forall q :: n < q < p ==> !Prime(q)
  {
    PrimeAboveExists(n);
    FirstPrimeFrom(n + 1, Factorial(n) + 1)
  }

  lemma PrimeAboveExists(n: nat)
    ensures exists q :: n + 1 <= q <= Factorial(n) + 1 && Prime(q)
  {
    var p := PrimeAbove(n);
  }

  function NthPrimeAfter(start: nat, n: nat): (p: nat)
    ensures n > 0 ==> Prime(p)
    ensures p >= start + n
  {
    if n == 0 then start else NextPrime(NthPrimeAfter(start, n - 1))
  }

  lemma {:induction false} NthPrimeIncreases(start: nat, a: nat, b: nat)
    requires a < b
    ensures NthPrimeAfter(start, a) < NthPrimeAfter(start, b)
    decreases b
  {
    if a < b - 1 { NthPrimeIncreases(start, a, b - 1); }
  }

  method FindNthPrimeAfter(start: nat, n: nat) returns (prime: nat)
    ensures prime == NthPrimeAfter(start, n)
  {
    prime := start;
    for i := 0 to n
      invariant prime == NthPrimeAfter(start, i)
    {
      prime := NextPrime(prime);
    }
  }

  // ---------------------------------------------------------------- heads

  /** How many primes past the base the sizes of the earlier heads and this one use up. */
  function Rank(heads: nat, layer: nat, head: nat): (k: nat)
    ensures k > 0
  {
    layer * heads + head + 1
  }

  /** The size of one head of one PLE layer. */
  function HeadSize(base: nat, heads: nat, layer: nat, head: nat): nat
    requires base > 0
  {
    NthPrimeAfter(base - 1, Rank(heads, layer, head))
  }

  lemma GlobalIndexDiffers(heads: nat, l1: nat, h1: nat, l2: nat, h2: nat)
    requires h1 < heads && h2 < heads && (l1 != l2 || h1 != h2)
    ensures Rank(heads, l1, h1) != Rank(heads, l2, h2)
  {
    if l1 < l2 { MulMonotone(l1 + 1, l2, heads); }
    if l2 < l1 { MulMonotone(l2 + 1, l1, heads); }
  }

  /** Head sizes are primes not below the base, and no two heads of any layers share one. */
  lemma HeadSizesAreDistinctPrimes(base: nat, heads: nat, l1: nat, h1: nat, l2: nat, h2: nat)
    requires base > 0 && h1 < heads && h2 < heads && (l1 != l2 || h1 != h2)
    ensures Prime(HeadSize(base, heads, l1, h1)) && HeadSize(base, heads, l1, h1) >= base
    ensures HeadSize(base, heads, l1, h1) != HeadSize(base, heads, l2, h2)
  {
    hide Rank, NthPrimeAfter, Prime;
    var a, b := Rank(heads, l1, h1), Rank(heads, l2, h2);
    GlobalIndexDiffers(heads, l1, h1, l2, h2);
    if a < b { NthPrimeIncreases(base - 1, a, b); } else { NthPrimeIncreases(base - 1, b, a); }
  }

  /** p is the least prime above n. */
  ghost predicate IsNextPrime(n: int, p: nat) {
    n < p && Prime(p) && forall q: nat :: n < q < p ==> !Prime(q)
  }

  /** The sizes run through the primes in order without leaving one out: from the least prime not
      below the base, head after head, and on from each layer's last head to the next layer's first. */
  lemma HeadSizesAreConsecutivePrimes(base: nat, heads: nat, layer: nat, head: nat)
    requires base > 0 && head < heads
    ensures IsNextPrime(base - 1, HeadSize(base, heads, 0, 0))
    ensures head + 1 < heads ==> IsNextPrime(HeadSize(base, heads, layer, head), HeadSize(base, heads, layer, head + 1))
    ensures IsNextPrime(HeadSize(base, heads, layer, heads - 1), HeadSize(base, heads, layer + 1, 0))
  {
    hide Rank, Prime, NthPrimeAfter, IsNextPrime;
    FirstRank(base, heads);
    NextRank(heads, layer, head);
    NextRank(heads, layer, heads - 1);
    OneStep(base - 1, 0);
    OneStep(base - 1, Rank(heads, layer, head));
    OneStep(base - 1, Rank(heads, layer, heads - 1));
  }

  lemma FirstRank(base: nat, heads: nat)
    requires base > 0
    ensures Rank(heads, 0, 0) == 1 && NthPrimeAfter(base - 1, 0) == base - 1
  {
    MulMonotone(0, 0, heads);
  }

  lemma NextRank(heads: nat, layer: nat, head: nat)
    requires head < heads
    ensures head + 1 < heads ==> Rank(heads, layer, head + 1) == Rank(heads, layer, head) + 1
    ensures Rank(heads, layer + 1, 0) == Rank(heads, layer, heads - 1) + 1
  {
    assert (layer + 1) * heads == layer * heads + heads;
  }

  lemma OneStep(start: nat, n: nat)
    ensures IsNextPrime(NthPrimeAfter(start, n), NthPrimeAfter(start, n + 1))
  {
    hide Prime;
  }

  function Sum(sizes: seq<nat>): nat {
    if sizes == [] then 0 else Sum(sizes[..|sizes| - 1]) + sizes[|sizes| - 1]
  }

  lemma {:induction false} SumPrefix(sizes: seq<nat>, k: nat)
    requires k <= |sizes|
    ensures Sum(sizes[..k]) <= Sum(sizes)
    decreases |sizes|
  {
    if k < |sizes| {
      SumPrefix(sizes[..|sizes| - 1], k);
      assert sizes[..|sizes| - 1][..k] == sizes[..k];
    } else {
      assert sizes[..k] == sizes;
    }
  }

  /** Intervals one after the other from 0. */
  ghost predicate LaidOut(sizes: seq<nat>, offsets: seq<nat>) {
    && |sizes| == |offsets|
    && (forall h :: 0 <= h < |sizes| ==> sizes[h] > 0)
    && forall h :: 0 <= h < |sizes| ==> offsets[h] == Sum(sizes[..h])
  }

  method FindHeadSize(base: nat, heads: nat, layer: nat, head: nat) returns (size: nat)
    requires base > 0
    ensures size == HeadSize(base, heads, layer, head) > 0
  {
    size := FindNthPrimeAfter(base - 1, Rank(heads, layer, head));
  }

  lemma LayoutSteps(base: nat, layer: nat, sizes: seq<nat>, offsets: seq<nat>)
    requires base > 0 && LaidOut(sizes, offsets)
    requires forall h :: 0 <= h < |sizes| ==> sizes[h] == HeadSize(base, |sizes|, layer, h)
    ensures forall h :: 0 <= h < |sizes| - 1 ==> IsNextPrime(sizes[h], sizes[h + 1]) && offsets[h + 1] == offsets[h] + sizes[h]
    ensures if sizes == [] then Sum(sizes) == 0
            else offsets[0] == 0 && Sum(sizes) == offsets[|sizes| - 1] + sizes[|sizes| - 1]
  {
    hide HeadSize, IsNextPrime;
    forall h | 0 <= h < |sizes| - 1 ensures IsNextPrime(sizes[h], sizes[h + 1]) && offsets[h + 1] == offsets[h] + sizes[h] {
      HeadSizesAreConsecutivePrimes(base, |sizes|, layer, h);
      assert sizes[..h + 1][..h] == sizes[..h];
    }
  }

  method BuildHeads(base: nat, heads: nat, layer: nat) returns (sizes: seq<nat>, offsets: seq<nat>, total: nat)
    requires base > 0
    ensures |sizes| == heads && total == Sum(sizes) && LaidOut(sizes, offsets)
    ensures forall h :: 0 <= h < heads ==> sizes[h] == HeadSize(base, heads, layer, h)
    ensures forall h :: 0 <= h < heads - 1 ==> IsNextPrime(sizes[h], sizes[h + 1]) && offsets[h + 1] == offsets[h] + sizes[h]
    ensures if heads == 0 then total == 0 else offsets[0] == 0 && total == offsets[heads - 1] + sizes[heads - 1]
  {
    hide IsNextPrime, HeadSize, Sum;
    sizes, offsets, total := LayHeads(base, heads, layer);
    LayoutSteps(base, layer, sizes, offsets);
  }

  method LayHeads(base: nat, heads: nat, layer: nat) returns (sizes: seq<nat>, offsets: seq<nat>, total: nat)
    requires base > 0
    ensures |sizes| == heads && total == Sum(sizes) && LaidOut(sizes, offsets)
    ensures forall h :: 0 <= h < heads ==> sizes[h] == HeadSize(base, heads, layer, h)
  {
    hide Rank, NthPrimeAfter, Prime, HeadSize;
    sizes, offsets, total := [], [], 0;
    for head := 0 to heads
      invariant |sizes| == |offsets| == head && total == Sum(sizes) && LaidOut(sizes, offsets)
      invariant forall h :: 0 <= h < head ==> sizes[h] == HeadSize(base, heads, layer, h)
    {
      var size := FindHeadSize(base, heads, layer, head);
      LaidOutNext(sizes, offsets, size);
      sizes, offsets, total := sizes + [size], offsets + [total], total + size;
    }
  }

  lemma LaidOutNext(sizes: seq<nat>, offsets: seq<nat>, size: nat)
    requires LaidOut(sizes, offsets) && size > 0
    ensures LaidOut(sizes + [size], offsets + [Sum(sizes)]) && Sum(sizes + [size]) == Sum(sizes) + size
  {
    var n := |sizes|;
    assert (sizes + [size])[..n] == sizes;
    assert forall h :: 0 <= h < n ==> (sizes + [size])[..h] == sizes[..h];
  }

  function PaddedVocab(total: nat, divisor: nat): int
    requires divisor > 0
  {
    CeilDiv(total, divisor) * divisor
  }

  lemma PaddedVocabHolds(total: nat, divisor: nat)
    requires divisor > 0
    ensures PaddedVocab(total, divisor) >= total
    ensures PaddedVocab(total, divisor) < total + divisor && PaddedVocab(total, divisor) % divisor == 0
  {
    var x := total + divisor - 1;
    assert x == x / divisor * divisor + x % divisor;
    MultipleMod(x / divisor, divisor);
  }

  /** Every interval ends before the next begins, and inside the padded table. */
  lemma IntervalsAreDisjoint(sizes: seq<nat>, offsets: seq<nat>, divisor: nat, h: nat)
    requires LaidOut(sizes, offsets) && h < |sizes| && divisor > 0
    ensures offsets[h] + sizes[h] <= PaddedVocab(Sum(sizes), divisor)
    ensures forall k :: h < k < |sizes| ==> offsets[h] + sizes[h] <= offsets[k]
  {
    assert sizes[..h + 1][..h] == sizes[..h];
    SumPrefix(sizes, h + 1);
    forall k | h < k < |sizes| ensures offsets[h] + sizes[h] <= offsets[k] {
      SumPrefix(sizes[..k], h + 1);
      assert sizes[..k][..h + 1] == sizes[..h + 1];
    }
    PaddedVocabHolds(Sum(sizes), divisor);
  }
}
