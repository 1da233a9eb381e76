/** torch.topk, as what it promises and as one way to meet it. */
module TopSelection {
  import opened Wrappers
  import opened Finite

  /** Distinct positions, and no unpicked score above a picked one.  Ties and the order of the
      picks are left open. */
  ghost predicate IsTopK(scores: seq<real>, picks: seq<nat>) {
    && Distinct(picks)
    && (forall i :: 0 <= i < |picks| ==> picks[i] < |scores|)
    && (forall i, j :: 0 <= i < |picks| && 0 <= j < |scores| && j !in picks ==> scores[j] <= scores[picks[i]])
  }

  /** The best-scoring unpicked position among the first n. */
  function BestLeft(scores: seq<real>, picks: seq<nat>, n: nat): (best: Option<nat>)
    requires n <= |scores|
    ensures best.None? ==> forall j: nat :: j < n ==> j in picks
    ensures best.Some? ==> best.value < n && best.value !in picks
    ensures best.Some? ==> forall j: nat :: j < n && j !in picks ==> scores[j] <= scores[best.value]
  {
    if n == 0 then None
    else
      var rest := BestLeft(scores, picks, n - 1);
      if n - 1 in picks || (rest.Some? && scores[rest.value] >= scores[n - 1]) then rest else Some(n - 1)
  }

  /** k positions, best first. */
  function TopK(scores: seq<real>, k: nat): (picks: seq<nat>)
    requires k <= |scores|
    ensures |picks| == k && IsTopK(scores, picks)
  {
    if k == 0 then []
    else
      var rest := TopK(scores, k - 1);
      SomeLeft(|scores|, rest);
      rest + [BestLeft(scores, rest, |scores|).value]
  }
}
