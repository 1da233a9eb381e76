/** Sums of real terms, as a relation. */
module RealSums {

  /** total is the sum of the terms: it is where the running totals from zero end. */
  ghost predicate AddsUp(terms: seq<real>, total: real) {
    exists sums: seq<real> :: RunningTotals(terms, sums) && sums[|terms|] == total
  }

  ghost predicate RunningTotals(terms: seq<real>, sums: seq<real>) {
    && |sums| == |terms| + 1
    && sums[0] == 0.0
    && forall i :: 0 <= i < |terms| ==> sums[i + 1] == sums[i] + terms[i]
  }

  lemma {:induction false} RunningTotalsAgree(terms: seq<real>, s: seq<real>, t: seq<real>, n: nat)
    requires RunningTotals(terms, s) && RunningTotals(terms, t) && n <= |terms|
    ensures s[n] == t[n]
    decreases n
  {
    if n > 0 { RunningTotalsAgree(terms, s, t, n - 1); }
  }

  lemma AddsUpOnce(terms: seq<real>, x: real, y: real)
    requires AddsUp(terms, x) && AddsUp(terms, y)
    ensures x == y
  {
    var s :| RunningTotals(terms, s) && s[|terms|] == x;
    var t :| RunningTotals(terms, t) && t[|terms|] == y;
    RunningTotalsAgree(terms, s, t, |terms|);
  }

  lemma AddsUpFirst(x: real, rest: seq<real>, total: real)
    requires AddsUp(rest, total)
    ensures AddsUp([x] + rest, x + total)
  {
    var sums :| RunningTotals(rest, sums) && sums[|rest|] == total;
    var more := [0.0] + seq(|sums|, i requires 0 <= i < |sums| => x + sums[i]);
    assert RunningTotals([x] + rest, more);
  }

  lemma AddsUpLast(front: seq<real>, x: real, total: real)
    requires AddsUp(front, total)
    ensures AddsUp(front + [x], total + x)
  {
    var sums :| RunningTotals(front, sums) && sums[|front|] == total;
    assert RunningTotals(front + [x], sums + [total + x]);
  }

  lemma NothingAddsUp()
    ensures AddsUp([], 0.0)
  {
    assert RunningTotals([], [0.0]);
  }
}
