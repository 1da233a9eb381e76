/** Expanding the indexer's chosen blocks into token indices, row by row: the Torch form
    (expand, filter, append the tail, stable compaction) and the fused GPU kernel. */
module BlockExpand {
  import opened Arith
  import opened BlockArith
  import opened CompactSort

  // ---------------------------------------------------------------- the Torch form

  /** The constants and scalars of one row. */
  datatype Query = Query(ratio: nat, tokenTopk: nat, position: int, length: int) {
    ghost predicate Valid() { ratio > 0 && position >= -1 }

    function BlockTopk(): nat requires ratio > 0 { CeilDiv(tokenTopk, ratio) }

    function FinalTopk(): nat requires ratio > 0 { tokenTopk + ratio - 1 }

    function Visible(): int { position + 1 }

    /** Complete blocks up to the query. */
    function Complete(): int requires ratio > 0 { Visible() / ratio }

    function TailStart(): int requires ratio > 0 { TokenAt(Complete(), 0, ratio) }
  }

  lemma ColumnInBlocks(q: Query, c: nat)
    requires q.Valid() && c < q.tokenTopk
    ensures BlockOf(c, q.ratio) < q.BlockTopk()
  {
    CeilHolds(q.tokenTopk, q.ratio);
    BlockBelow(c, q.BlockTopk(), q.ratio);
  }

  lemma TailStartBounds(q: Query)
    requires q.Valid()
    ensures 0 <= q.TailStart() <= q.Visible() < q.TailStart() + q.ratio
    ensures q.Complete() >= 0
  {
    FloorBounds(q.Visible(), q.ratio);
  }

  function InSequence(x: int, length: int): int {
    if 0 <= x < length then x else -1
  }

  /** Token c of the expanded list, before the length filter. */
  function Token(q: Query, blocks: seq<int>, c: nat): int
    requires q.Valid() && BlockOf(c, q.ratio) < |blocks|
  {
    var block := blocks[BlockOf(c, q.ratio)];
    if block >= 0 then TokenAt(block, OffsetOf(c, q.ratio), q.ratio) else -1
  }

  function Expanded(q: Query, blocks: seq<int>): (r: seq<int>)
    requires q.Valid() && |blocks| == q.BlockTopk()
    ensures |r| == q.tokenTopk
  {
    seq(q.tokenTopk, c requires 0 <= c < q.tokenTopk =>
      (ColumnInBlocks(q, c); InSequence(Token(q, blocks, c), q.length)))
  }

  /** The tokens after the last complete block. */
  function Tail(q: Query): (r: seq<int>)
    requires q.Valid()
    ensures |r| == q.ratio - 1
  {
    seq(q.ratio - 1, o requires 0 <= o < q.ratio - 1 =>
      if o < q.Visible() - q.TailStart() && q.TailStart() + o < q.length then q.TailStart() + o else -1)
  }

  function Concatenated(q: Query, blocks: seq<int>): (r: seq<int>)
    requires q.Valid() && |blocks| == q.BlockTopk()
    ensures |r| == q.FinalTopk()
  {
    Expanded(q, blocks) + Tail(q)
  }

  function TorchRow(q: Query, blocks: seq<int>, perm: seq<nat>): seq<int>
    requires q.Valid() && |blocks| == q.BlockTopk() && IsArgsort(SortKey(Concatenated(q, blocks)), perm)
  {
    Gather(Concatenated(q, blocks), perm)
  }

  /** For any input at all, the Torch form is the order-preserving filter of the expanded
      tokens and the tail, padded with -1. */
  lemma TorchRowIsFilter(q: Query, blocks: seq<int>, perm: seq<nat>)
    requires q.Valid() && |blocks| == q.BlockTopk() && IsArgsort(SortKey(Concatenated(q, blocks)), perm)
    ensures TorchRow(q, blocks, perm) == Compact(Expanded(q, blocks) + Tail(q))
  {
    TailStartBounds(q);
    hide BlockOf, OffsetOf, TokenAt, Query.BlockTopk, Query.TailStart, SortKey, IsArgsort;
    SortingCompacts(Concatenated(q, blocks), perm);
  }

  // ---------------------------------------------------------------- the fused kernel

  function ValidBlockCount(blocks: seq<int>): (n: nat)
    ensures n <= |blocks|
  {
    if blocks == [] then 0
    else ValidBlockCount(blocks[..|blocks| - 1]) + if blocks[|blocks| - 1] >= 0 then 1 else 0
  }

  function ValidTokenCount(q: Query, blocks: seq<int>): (n: nat)
    requires q.Valid()
    ensures n <= q.tokenTopk
  {
    WindowsOrdered(0, ValidBlockCount(blocks), q.ratio);
    var n := TokenAt(ValidBlockCount(blocks), 0, q.ratio);
    if n < q.tokenTopk then n else q.tokenTopk
  }

  /** What the kernel stores in one column. */
  function Cell(q: Query, blocks: seq<int>, col: nat): int
    requires q.Valid() && |blocks| == q.BlockTopk() && col < q.FinalTopk()
  {
    var source := BlockOf(col, q.ratio);
    var block := if col < q.tokenTopk && source < |blocks| then blocks[source] else -1;
    var expanded := TokenAt(block, OffsetOf(col, q.ratio), q.ratio);
    var expandedValid := col < q.tokenTopk && block >= 0 && expanded >= 0 && expanded < q.length;
    var count := ValidTokenCount(q, blocks);
    var tailOffset := col - count;
    var tailCount := q.Visible() - q.TailStart();
    var tail := q.TailStart() + tailOffset;
    var tailValid := tailOffset >= 0 && tailOffset < q.ratio - 1 && tailOffset < tailCount && tail < q.length;
    if expandedValid && col < count then expanded else if tailValid then tail else -1
  }

  function TritonRow(q: Query, blocks: seq<int>): (r: seq<int>)
    requires q.Valid() && |blocks| == q.BlockTopk()
    ensures |r| == q.FinalTopk()
  {
    seq(q.FinalTopk(), c requires 0 <= c < q.FinalTopk() => Cell(q, blocks, c))
  }

  /** The launch: one program per row, in any order, storing the row's columns in parallel. */
  method TritonExpand(queries: seq<Query>, blocks: seq<seq<int>>, order: seq<nat>, width: nat, output: array2<int>)
    requires |queries| == |blocks| == output.Length0 && output.Length1 == width
    requires forall r :: 0 <= r < |queries| ==>
               queries[r].Valid() && |blocks[r]| == queries[r].BlockTopk() && queries[r].FinalTopk() == width
    requires forall i :: 0 <= i < |order| ==> order[i] < |queries|
    requires forall r: nat :: r < |queries| ==> r in order
    modifies output
    ensures forall r, c :: 0 <= r < |queries| && 0 <= c < width ==> output[r, c] == TritonRow(queries[r], blocks[r])[c]
  {
    for i := 0 to |order|
      invariant forall r, c :: 0 <= r < |queries| && r in order[..i] && 0 <= c < width ==>
                  output[r, c] == TritonRow(queries[r], blocks[r])[c]
    {
      hide BlockOf, OffsetOf, TokenAt, ValidTokenCount;
      var row := order[i];
      forall c | 0 <= c < width { output[row, c] := Cell(queries[row], blocks[row], c); }
      assert order[..i + 1] == order[..i] + [row];
    }
    assert order[..|order|] == order;
  }

  // ---------------------------------------------------------------- when they agree

  /** fast_topk's output: valid blocks precede the -1 padding. */
  ghost predicate ValidFirst(blocks: seq<int>) {
    forall i, j :: 0 <= i < j < |blocks| && blocks[j] >= 0 ==> blocks[i] >= 0
  }

  lemma {:induction false} AllCounted(blocks: seq<int>)
    requires forall i :: 0 <= i < |blocks| ==> blocks[i] >= 0
    ensures ValidBlockCount(blocks) == |blocks|
    decreases |blocks|
  {
    if blocks != [] { AllCounted(blocks[..|blocks| - 1]); }
  }

  lemma {:induction false} CountOfPrefix(blocks: seq<int>)
    requires ValidFirst(blocks)
    ensures forall i :: 0 <= i < |blocks| ==> (blocks[i] >= 0 <==> i < ValidBlockCount(blocks))
    decreases |blocks|
  {
    if blocks != [] {
      var front := blocks[..|blocks| - 1];
      CountOfPrefix(front);
      if blocks[|blocks| - 1] >= 0 { AllCounted(front); }
    }
  }

  predicate Inside(q: Query, blocks: seq<int>, c: nat)
    requires q.Valid() && |blocks| == q.BlockTopk()
  {
    BlockOf(c, q.ratio) < |blocks| && 0 <= Token(q, blocks, c) < q.length
  }

  predicate TailListed(q: Query)
    requires q.Valid()
  {
    q.ratio > 1 && q.Visible() > q.TailStart() && q.TailStart() < q.length
  }

  /** No token outside the sequence comes before a token that is listed. */
  ghost predicate NoGap(q: Query, blocks: seq<int>)
    requires q.Valid() && |blocks| == q.BlockTopk()
  {
    var n := ValidTokenCount(q, blocks);
    && (forall c, d :: 0 <= c < d < n && Inside(q, blocks, d) ==> Inside(q, blocks, c))
    && (TailListed(q) ==> forall c :: 0 <= c < n ==> Inside(q, blocks, c))
  }

  lemma ColumnOfValidBlock(q: Query, blocks: seq<int>, c: nat)
    requires q.Valid() && |blocks| == q.BlockTopk() && ValidFirst(blocks) && c < q.tokenTopk
    ensures BlockOf(c, q.ratio) < |blocks|
    ensures c < ValidTokenCount(q, blocks) <==> blocks[BlockOf(c, q.ratio)] >= 0
    ensures blocks[BlockOf(c, q.ratio)] >= 0 ==> Token(q, blocks, c) >= 0
  {
    ColumnInBlocks(q, c);
    CountOfPrefix(blocks);
    BlockBelow(c, ValidBlockCount(blocks), q.ratio);
    Parts(c, q.ratio);
    hide BlockOf, OffsetOf, TokenAt, Query.BlockTopk, ValidFirst, ValidBlockCount;
    var block := blocks[BlockOf(c, q.ratio)];
    if block >= 0 { TokenBelow(block, block + 1, OffsetOf(c, q.ratio), q.ratio); }
  }

  /** The first ValidTokenCount columns, which both forms compute alike. */
  function Listed(q: Query, blocks: seq<int>): (r: seq<int>)
    requires q.Valid() && |blocks| == q.BlockTopk()
    ensures |r| == ValidTokenCount(q, blocks)
  {
    Expanded(q, blocks)[..ValidTokenCount(q, blocks)]
  }

  lemma PaddedCell(q: Query, blocks: seq<int>, c: nat)
    requires q.Valid() && |blocks| == q.BlockTopk() && ValidFirst(blocks)
    requires ValidTokenCount(q, blocks) <= c < q.tokenTopk
    ensures Expanded(q, blocks)[c] == -1
  {
    ColumnOfValidBlock(q, blocks, c);
    hide BlockOf, OffsetOf, TokenAt, Query.BlockTopk, ValidFirst, ValidTokenCount;
  }

  lemma HeadCell(q: Query, blocks: seq<int>, c: nat)
    requires q.Valid() && |blocks| == q.BlockTopk() && ValidFirst(blocks) && c < ValidTokenCount(q, blocks)
    ensures Cell(q, blocks, c) == Expanded(q, blocks)[c]
    ensures Cell(q, blocks, c) >= 0 <==> Inside(q, blocks, c)
  {
    ColumnOfValidBlock(q, blocks, c);
    hide BlockOf, OffsetOf, TokenAt, Query.BlockTopk, ValidFirst, ValidTokenCount;
  }

  lemma AfterHeadCell(q: Query, blocks: seq<int>, c: nat)
    requires q.Valid() && |blocks| == q.BlockTopk()
    requires ValidTokenCount(q, blocks) <= c < q.FinalTopk()
    ensures var o := c - ValidTokenCount(q, blocks);
            Cell(q, blocks, c) == if o < q.ratio - 1 then Tail(q)[o] else -1
  {
    hide BlockOf, OffsetOf, TokenAt, Query.BlockTopk, ValidTokenCount;
  }

  lemma BothFormsSplit(q: Query, blocks: seq<int>)
    requires q.Valid() && |blocks| == q.BlockTopk() && ValidFirst(blocks)
    ensures var pad := Fill(q.tokenTopk - ValidTokenCount(q, blocks));
            && Expanded(q, blocks) == Listed(q, blocks) + pad
            && TritonRow(q, blocks) == Listed(q, blocks) + Tail(q) + pad
  {
    hide BlockOf, OffsetOf, TokenAt, Query.BlockTopk, ValidFirst, ValidTokenCount, Expanded, Tail, Cell;
    var n := ValidTokenCount(q, blocks);
    forall c | n <= c < q.tokenTopk ensures Expanded(q, blocks)[c] == -1 {
      PaddedCell(q, blocks, c);
    }
    var want := Listed(q, blocks) + Tail(q) + Fill(q.tokenTopk - n);
    forall c | 0 <= c < q.FinalTopk() ensures TritonRow(q, blocks)[c] == want[c] {
      if c < n { HeadCell(q, blocks, c); } else { AfterHeadCell(q, blocks, c); }
    }
  }

  ghost predicate Gapless(row: seq<int>) {
    forall i, j :: 0 <= i < j < |row| && row[j] >= 0 ==> row[i] >= 0
  }

  lemma TailCells(q: Query)
    requires q.Valid()
    ensures forall o :: 0 <= o < q.ratio - 1 ==>
              (Tail(q)[o] >= 0 <==> o < q.Visible() - q.TailStart() && q.TailStart() + o < q.length)
  {
    TailStartBounds(q);
    hide TokenAt, Query.TailStart;
  }

  lemma GapsOfTritonRow(q: Query, blocks: seq<int>)
    requires q.Valid() && |blocks| == q.BlockTopk() && ValidFirst(blocks)
    ensures NoGap(q, blocks) <==> Gapless(TritonRow(q, blocks))
  {
    var n, row := ValidTokenCount(q, blocks), TritonRow(q, blocks);
    TailStartBounds(q);
    TailCells(q);
    hide Inside, ValidTokenCount, ValidFirst, Query.TailStart, Query.BlockTopk, Cell, Tail;
    forall c | 0 <= c < n ensures row[c] >= 0 <==> Inside(q, blocks, c) {
      HeadCell(q, blocks, c);
    }
    forall c | n <= c < |row|
      ensures row[c] >= 0 <==> c - n < q.ratio - 1 && c - n < q.Visible() - q.TailStart() && q.TailStart() + (c - n) < q.length
    {
      AfterHeadCell(q, blocks, c);
    }
    if TailListed(q) { assert row[n] >= 0; }
  }

  /** On valid-first blocks the kernel's row equals the Torch row exactly when no token outside
      the sequence precedes a listed one. */
  lemma TritonEqualsTorchIff(q: Query, blocks: seq<int>, perm: seq<nat>)
    requires q.Valid() && |blocks| == q.BlockTopk() && ValidFirst(blocks)
    requires IsArgsort(SortKey(Concatenated(q, blocks)), perm)
    ensures TritonRow(q, blocks) == TorchRow(q, blocks, perm) <==> NoGap(q, blocks)
  {
    hide BlockOf, OffsetOf, TokenAt, Query.BlockTopk, ValidFirst, ValidTokenCount, Expanded, Tail;
    TorchRowIsFilter(q, blocks, perm);
    BothFormsSplit(q, blocks);
    GapsOfTritonRow(q, blocks);
    TritonEntries(q, blocks);
    SameKept(Listed(q, blocks), Fill(q.tokenTopk - ValidTokenCount(q, blocks)), Tail(q));
    CompactIff(TritonRow(q, blocks));
  }

  /** Moving the padding behind the tail does not change what is kept. */
  lemma SameKept(listed: seq<int>, pad: seq<int>, tail: seq<int>)
    requires pad == Fill(|pad|)
    ensures Compact(listed + tail + pad) == Compact(listed + pad + tail)
  {
    KeptFill(|pad|);
    KeptAppend(listed, pad);
    KeptAppend(listed + pad, tail);
    KeptAppend(listed, tail);
    KeptAppend(listed + tail, pad);
  }

  lemma TritonEntries(q: Query, blocks: seq<int>)
    requires q.Valid() && |blocks| == q.BlockTopk()
    ensures forall i :: 0 <= i < q.FinalTopk() ==> TritonRow(q, blocks)[i] >= -1
  {
    TailStartBounds(q);
    hide BlockOf, OffsetOf, TokenAt, Query.BlockTopk, Query.TailStart, ValidTokenCount;
  }

  /** The indexer only offers complete blocks before the query, so its rows never have a gap. */
  lemma WindowHasNoGap(q: Query, blocks: seq<int>)
    requires q.Valid() && |blocks| == q.BlockTopk() && ValidFirst(blocks) && q.position < q.length
    requires forall i :: 0 <= i < |blocks| ==> blocks[i] < q.Complete()
    ensures NoGap(q, blocks)
  {
    forall c | 0 <= c < ValidTokenCount(q, blocks) ensures Inside(q, blocks, c) {
      WindowTokenInside(q, blocks, c);
    }
  }

  lemma WindowTokenInside(q: Query, blocks: seq<int>, c: nat)
    requires q.Valid() && |blocks| == q.BlockTopk() && ValidFirst(blocks) && q.position < q.length
    requires forall i :: 0 <= i < |blocks| ==> blocks[i] < q.Complete()
    requires c < ValidTokenCount(q, blocks)
    ensures Inside(q, blocks, c)
  {
    hide BlockOf, OffsetOf, TokenAt, Query.BlockTopk, ValidFirst, ValidBlockCount;
    TailStartBounds(q);
    ColumnOfValidBlock(q, blocks, c);
    Parts(c, q.ratio);
    TokenBelow(blocks[BlockOf(c, q.ratio)], q.Complete(), OffsetOf(c, q.ratio), q.ratio);
  }

  /** Without the condition they differ: ratio 2, block 3 lies past a sequence of 5 tokens and
      the tail token 4 is listed after it. */
  lemma FormsDifferOnAGap(perm: seq<nat>)
    requires IsArgsort(SortKey(Concatenated(Query(2, 2, 4, 5), [3])), perm)
    ensures ValidFirst([3]) && TritonRow(Query(2, 2, 4, 5), [3]) != TorchRow(Query(2, 2, 4, 5), [3], perm)
  {
    var q := Query(2, 2, 4, 5);
    assert ValidBlockCount([3][..0]) == 0 && ValidBlockCount([3]) == 1;
    assert TailListed(q) && !Inside(q, [3], 0);
    TritonEqualsTorchIff(q, [3], perm);
  }
}
