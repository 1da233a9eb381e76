/** Top-k block selection followed by expansion: short contexts get full causal attention, and
    no context ever lists a token twice or looks ahead. */
module CausalWindow {
  import opened Finite
  import opened TopSelection
  import opened BlockArith
  import opened CompactSort
  import opened BlockExpand

  // ---------------------------------------------------------------- qsa_fast_topk, CPU path

  /** One row of the output: the picks relative to the row's start, then -1. */
  ghost predicate IsTopKRow(scores: seq<real>, topk: nat, row: seq<int>) {
    exists picks: seq<nat> ::
      |picks| == (if |scores| < topk then |scores| else topk) && IsTopK(scores, picks) && RowOf(picks, topk, row)
  }

  function Width(scores: seq<real>, topk: nat): nat {
    if |scores| < topk then |scores| else topk
  }

  ghost predicate RowOf(picks: seq<nat>, topk: nat, row: seq<int>) {
    |row| == topk && |picks| <= topk && forall i :: 0 <= i < topk ==> row[i] == if i < |picks| then picks[i] else -1
  }

  /** The row loop over a packed logits matrix; each row's window is [starts[r], ends[r]). */
  method FastTopK(logits: seq<seq<real>>, starts: seq<nat>, ends: seq<nat>, topk: nat)
    returns (output: seq<seq<int>>)
    requires |logits| == |starts| == |ends|
    requires forall r :: 0 <= r < |logits| ==> starts[r] <= ends[r] <= |logits[r]|
    ensures |output| == |logits|
    ensures forall r :: 0 <= r < |logits| ==> IsTopKRow(logits[r][starts[r]..ends[r]], topk, output[r])
  {
    output := seq(|logits|, _ => Fill(topk));
    for row := 0 to |logits|
      invariant |output| == |logits|
      invariant forall r :: row <= r < |logits| ==> output[r] == Fill(topk)
      invariant forall r :: 0 <= r < row ==> IsTopKRow(logits[r][starts[r]..ends[r]], topk, output[r])
    {
      var window := logits[row][starts[row]..ends[row]];
      var width := Width(window, topk);
      var picks := TopK(window, width);
      var head: seq<int> := seq(width, i requires 0 <= i < width => picks[i] as int);
      output := output[row := head + output[row][width..]];
      assert RowOf(picks, topk, output[row]);
    }
  }

  // ---------------------------------------------------------------- what gets listed

  /** Distinct blocks from the window of complete blocks before the query, valid ones first. */
  ghost predicate FromWindow(q: Query, blocks: seq<int>)
    requires q.Valid()
  {
    && |blocks| == q.BlockTopk()
    && ValidFirst(blocks)
    && (forall i :: 0 <= i < |blocks| ==> -1 <= blocks[i] < q.Complete())
    && (forall i, j :: 0 <= i < j < |blocks| && blocks[j] >= 0 ==> blocks[i] != blocks[j])
  }

  lemma RowsAreFromWindow(q: Query, scores: seq<real>, blocks: seq<int>)
    requires q.Valid() && |scores| == q.Complete() && IsTopKRow(scores, q.BlockTopk(), blocks)
    ensures FromWindow(q, blocks)
  {
    var picks: seq<nat> :|
      |picks| == (if |scores| < q.BlockTopk() then |scores| else q.BlockTopk()) && IsTopK(scores, picks) && RowOf(picks, q.BlockTopk(), blocks);
    hide Query.BlockTopk;
  }

  ghost predicate DistinctTokens(s: seq<int>) {
    forall i, j :: 0 <= i < j < |s| && s[j] >= 0 ==> s[i] != s[j]
  }

  lemma {:induction false} KeptDistinct(s: seq<int>)
    requires DistinctTokens(s)
    ensures DistinctTokens(Kept(s))
    decreases |s|
  {
    if s != [] {
      var front := s[..|s| - 1];
      KeptDistinct(front);
      assert forall i :: 0 <= i < |Kept(front)| ==> Kept(front)[i] in Kept(front);
    }
  }

  lemma ExpandedToken(q: Query, blocks: seq<int>, c: nat)
    requires q.Valid() && FromWindow(q, blocks) && c < q.tokenTopk && Expanded(q, blocks)[c] >= 0
    ensures BlockOf(c, q.ratio) < |blocks| && blocks[BlockOf(c, q.ratio)] >= 0
    ensures Expanded(q, blocks)[c] == TokenAt(blocks[BlockOf(c, q.ratio)], OffsetOf(c, q.ratio), q.ratio)
    ensures Expanded(q, blocks)[c] < q.TailStart() && Expanded(q, blocks)[c] < q.length
  {
    hide BlockOf, OffsetOf, TokenAt, Query.BlockTopk;
    ColumnInBlocks(q, c);
    Parts(c, q.ratio);
    TokenBelow(blocks[BlockOf(c, q.ratio)], q.Complete(), OffsetOf(c, q.ratio), q.ratio);
  }

  lemma ExpandedPairDistinct(q: Query, blocks: seq<int>, c: nat, d: nat)
    requires q.Valid() && FromWindow(q, blocks) && c < d < q.tokenTopk && Expanded(q, blocks)[d] >= 0
    ensures Expanded(q, blocks)[c] != Expanded(q, blocks)[d]
  {
    hide BlockOf, OffsetOf, TokenAt, Query.BlockTopk, Expanded, ValidFirst;
    if Expanded(q, blocks)[c] >= 0 {
      ExpandedToken(q, blocks, c);
      ExpandedToken(q, blocks, d);
      Parts(c, q.ratio);
      Parts(d, q.ratio);
      ColumnsDiffer(c, d, q.ratio);
      var i, j := BlockOf(c, q.ratio), BlockOf(d, q.ratio);
      TokensDiffer(blocks[i], OffsetOf(c, q.ratio), blocks[j], OffsetOf(d, q.ratio), q.ratio);
    }
  }

  lemma ExpandedDistinct(q: Query, blocks: seq<int>)
    requires q.Valid() && FromWindow(q, blocks)
    ensures DistinctTokens(Expanded(q, blocks))
  {
    var e := Expanded(q, blocks);
    forall c, d | 0 <= c < d < |e| && e[d] >= 0 ensures e[c] != e[d] {
      ExpandedPairDistinct(q, blocks, c, d);
    }
  }

  lemma TailTokens(q: Query)
    requires q.Valid()
    ensures forall o :: 0 <= o < q.ratio - 1 && Tail(q)[o] >= 0 ==>
              Tail(q)[o] == q.TailStart() + o <= q.position && Tail(q)[o] < q.length
    ensures forall t :: q.TailStart() <= t <= q.position && t < q.length ==> t in Tail(q)
  {
    TailStartBounds(q);
    forall t | q.TailStart() <= t <= q.position && t < q.length ensures t in Tail(q) {
      assert Tail(q)[t - q.TailStart()] == t;
    }
  }

  /** For distinct blocks inside the query's window, the listed tokens are distinct, never after
      the query, and inside the sequence. */
  lemma ListedTokensAreCausalAndDistinct(q: Query, blocks: seq<int>, perm: seq<nat>)
    requires q.Valid() && FromWindow(q, blocks) && IsArgsort(SortKey(Concatenated(q, blocks)), perm)
    ensures var row := TorchRow(q, blocks, perm);
            && DistinctTokens(row)
            && forall t :: t in row ==> t == -1 || (0 <= t <= q.position && t < q.length)
  {
    var e, tail := Expanded(q, blocks), Tail(q);
    TorchRowIsFilter(q, blocks, perm);
    ExpandedDistinct(q, blocks);
    TailTokens(q);
    TailStartBounds(q);
    forall c | 0 <= c < |e| && e[c] >= 0 ensures e[c] < q.TailStart() && e[c] < q.length {
      ExpandedToken(q, blocks, c);
    }
    assert DistinctTokens(e + tail);
    KeptDistinct(e + tail);
    forall t | t in Kept(e + tail) ensures 0 <= t <= q.position && t < q.length {
      assert t in e || t in tail;
    }
  }

  /** Token t is among the tokens of the listed blocks, in a column the budget reaches. */
  ghost predicate InListedBlock(q: Query, blocks: seq<int>, t: nat)
    requires q.ratio > 0
  {
    exists i: nat :: i < |blocks| && blocks[i] == t / q.ratio && i * q.ratio + t % q.ratio < q.tokenTopk
  }

  lemma ExpandedIff(q: Query, blocks: seq<int>, t: nat)
    requires q.Valid() && |blocks| == q.BlockTopk()
    ensures t in Expanded(q, blocks) <==> t < q.length && InListedBlock(q, blocks, t)
  {
    var e, r := Expanded(q, blocks), q.ratio;
    Parts(t, r);
    hide TokenAt, BlockOf, OffsetOf, Query.BlockTopk;
    if t in e {
      var c :| 0 <= c < |e| && e[c] == t;
      ColumnInBlocks(q, c);
      Parts(c, r);
      var i := BlockOf(c, r);
      PartsOfToken(blocks[i], OffsetOf(c, r), r);
      assert InListedBlock(q, blocks, t) by { ColumnOf(i, OffsetOf(c, r), c, t, r); }
    }
    if t < q.length && InListedBlock(q, blocks, t) {
      var i: nat :| i < |blocks| && blocks[i] == t / r && i * r + t % r < q.tokenTopk;
      PartsOfToken(i, OffsetOf(t, r), r);
      var c := TokenAt(i, OffsetOf(t, r), r);
      ColumnOf(i, OffsetOf(t, r), c, t, r);
      assert e[c] == t;
    }
  }

  /** The same numbers, written out. */
  lemma ColumnOf(i: nat, o: nat, c: int, t: nat, r: nat)
    requires r > 0
    ensures BlockOf(t, r) == t / r && OffsetOf(t, r) == t % r && TokenAt(i, o, r) == i * r + o
  {
  }

  /** For any blocks at all, the tokens the row lists are exactly those of the listed blocks and those
      after the last complete block up to the query, as far as the sequence goes. */
  lemma RowListsExactly(q: Query, blocks: seq<int>, perm: seq<nat>, t: nat)
    requires q.Valid() && |blocks| == q.BlockTopk() && IsArgsort(SortKey(Concatenated(q, blocks)), perm)
    ensures t in TorchRow(q, blocks, perm)
            <==> t < q.length && (InListedBlock(q, blocks, t) || (q.position + 1) / q.ratio * q.ratio <= t <= q.position)
  {
    TorchRowIsFilter(q, blocks, perm);
    ExpandedIff(q, blocks, t);
    TailTokens(q);
    TailStartBounds(q);
    assert t in Kept(Expanded(q, blocks) + Tail(q)) <==> t in Expanded(q, blocks) || t in Tail(q);
    if t in Tail(q) {
      var o :| 0 <= o < |Tail(q)| && Tail(q)[o] == t;
    }
  }

  lemma TokenIsExpanded(q: Query, blocks: seq<int>, t: nat, i: nat)
    requires q.Valid() && FromWindow(q, blocks) && t < q.length && q.TailStart() <= q.tokenTopk
    requires i < |blocks| && i < q.Complete() && blocks[i] == BlockOf(t, q.ratio)
    ensures t in Expanded(q, blocks)
  {
    hide BlockOf, OffsetOf, TokenAt, Query.BlockTopk, ValidFirst;
    var r := q.ratio;
    Parts(t, r);
    var c := TokenAt(i, OffsetOf(t, r), r);
    TokenBelow(i, q.Complete(), OffsetOf(t, r), r);
    PartsOfToken(i, OffsetOf(t, r), r);
    assert Expanded(q, blocks)[c] == t;
  }

  /** With a window no wider than the budget, top-k takes every block. */
  lemma EveryBlockPicked(scores: seq<real>, topk: nat, blocks: seq<int>, b: nat) returns (i: nat)
    requires IsTopKRow(scores, topk, blocks) && b < |scores| <= topk
    ensures i < |scores| && i < |blocks| && blocks[i] == b
  {
    var picks: seq<nat> :|
      |picks| == (if |scores| < topk then |scores| else topk) && IsTopK(scores, picks) && RowOf(picks, topk, blocks);
    AllPicked(|scores|, picks, b);
    i :| 0 <= i < |picks| && picks[i] == b;
  }

  lemma EveryTokenListed(q: Query, scores: seq<real>, blocks: seq<int>, t: nat)
    requires q.Valid() && q.position < q.length && q.TailStart() <= q.tokenTopk
    requires |scores| == q.Complete() && IsTopKRow(scores, q.BlockTopk(), blocks)
    requires |blocks| == q.BlockTopk() && t <= q.position
    ensures t in Expanded(q, blocks) + Tail(q)
  {
    if t < q.TailStart() {
      RowsAreFromWindow(q, scores, blocks);
      var n, topk := |scores|, q.BlockTopk();
      CeilHolds(q.tokenTopk, q.ratio);
      WindowsOrdered(n, topk, q.ratio);
      BlockBelow(t, n, q.ratio);
      var i := EveryBlockPicked(scores, topk, blocks, BlockOf(t, q.ratio));
      TokenIsExpanded(q, blocks, t, i);
    } else {
      TailTokens(q);
    }
  }

  /** When every complete block before the query fits the token budget, top-k followed by
      expansion lists each of the tokens 0..position exactly once, and nothing else. */
  lemma ShortContextIsFullyCausal(q: Query, scores: seq<real>, blocks: seq<int>, perm: seq<nat>)
    requires q.Valid() && q.position < q.length && q.TailStart() <= q.tokenTopk
    requires |scores| == q.Complete() && IsTopKRow(scores, q.BlockTopk(), blocks)
    requires |blocks| == q.BlockTopk() && IsArgsort(SortKey(Concatenated(q, blocks)), perm)
    ensures var row := TorchRow(q, blocks, perm);
            && DistinctTokens(row)
            && forall t :: t >= 0 ==> (t in row <==> t <= q.position)
  {
    RowsAreFromWindow(q, scores, blocks);
    ListedTokensAreCausalAndDistinct(q, blocks, perm);
    TorchRowIsFilter(q, blocks, perm);
    forall t | 0 <= t <= q.position ensures t in TorchRow(q, blocks, perm) {
      EveryTokenListed(q, scores, blocks, t);
      assert t in Kept(Expanded(q, blocks) + Tail(q));
    }
  }

  /** On the indexer's own rows the CUDA path stores what the Torch form gives. */
  lemma CudaRowIsTorchRow(q: Query, blocks: seq<int>, perm: seq<nat>)
    requires q.Valid() && q.position < q.length && FromWindow(q, blocks)
    requires IsArgsort(SortKey(Concatenated(q, blocks)), perm)
    ensures TritonRow(q, blocks) == TorchRow(q, blocks, perm)
  {
    hide TritonRow, TorchRow, Concatenated, SortKey, NoGap;
    WindowHasNoGap(q, blocks);
    TritonEqualsTorchIff(q, blocks, perm);
  }

  /** The same promise for the row the CUDA path stores. */
  lemma ShortContextIsFullyCausalOnCuda(q: Query, scores: seq<real>, blocks: seq<int>)
    requires q.Valid() && q.position < q.length && q.TailStart() <= q.tokenTopk
    requires |scores| == q.Complete() && |blocks| == q.BlockTopk() && IsTopKRow(scores, q.BlockTopk(), blocks)
    ensures var row := TritonRow(q, blocks);
            && DistinctTokens(row)
            && forall t :: t >= 0 ==> (t in row <==> t <= q.position)
  {
    hide TritonRow, TorchRow, Concatenated, SortKey, IsTopKRow, DistinctTokens;
    CanonicalArgsort(Concatenated(q, blocks));
    var perm :| IsArgsort(SortKey(Concatenated(q, blocks)), perm);
    RowsAreFromWindow(q, scores, blocks);
    CudaRowIsTorchRow(q, blocks, perm);
    ShortContextIsFullyCausal(q, scores, blocks, perm);
  }
}
