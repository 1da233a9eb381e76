/** Split-K prefill scoring: the tile kernel launched over (row block, split) CTAs in any
    order, the padding, scaling and mask steps around it, and the reference they equal. */
module QsaPrefill {
  import opened Arith
  import opened BlockArith
  import opened QsaScores

  const INT32_MAX := 2147483647
  const INT32_MIN := -2147483648
  const MASK_BLOCK := 4096
  const MASK_THREADS := 512

  /** The reference: score every cell, then mask everything outside the row's window. */
  function Reference(q: seq<seq<seq<real>>>, k: seq<seq<real>>, starts: seq<int>, ends: seq<int>,
                     scale: real, m: nat, n: nat): Logit
    requires m < |q| == |starts| == |ends| && n < |k| && scale != 0.0
  {
    if starts[m] <= n < ends[m] then Fin(Score(q[m], k[n]) / scale) else NegInf
  }

  // ---------------------------------------------------------------- the grid

  /** The kernel's tensors, rows already padded to a whole number of row blocks. */
  datatype Launch = Launch(q: seq<seq<seq<real>>>, k: seq<seq<real>>, starts: seq<int>, ends: seq<int>,
                           blockQ: nat, blockN: nat, split: nat)
  {
    ghost predicate Valid() {
      && blockQ > 0 && blockN > 0 && split > 0
      && |q| == |starts| == |ends|
      && TokenAt(BlockOf(|q|, blockQ), 0, blockQ) == |q|
      && |k| <= INT32_MAX
    }

    /** The grid's first axis: ceildiv(rows, block_q), exact here. */
    function RowBlocks(): nat requires blockQ > 0 { BlockOf(|q|, blockQ) }

    function Base(block: nat): int { TokenAt(block, 0, blockQ) }

    ghost predicate InGrid(cta: Cta) {
      blockQ > 0 && cta.block < RowBlocks() && cta.part < split
    }
  }

  datatype Cta = Cta(block: nat, part: nat)

  function Min(a: int, b: int): int { if a < b then a else b }

  function Max(a: int, b: int): int { if a < b then b else a }

  /** The block's least window start, clamped to the keys, over its first n rows. */
  function StartMin(starts: seq<int>, keys: nat, base: nat, n: nat): int
    requires base + n <= |starts|
  {
    if n == 0 then INT32_MAX else Min(StartMin(starts, keys, base, n - 1), Min(starts[base + n - 1], keys))
  }

  function EndMax(ends: seq<int>, keys: nat, base: nat, n: nat): int
    requires base + n <= |ends|
  {
    if n == 0 then INT32_MIN else Max(EndMax(ends, keys, base, n - 1), Min(ends[base + n - 1], keys))
  }

  lemma {:induction false} WindowBounds(starts: seq<int>, ends: seq<int>, keys: nat, base: nat, n: nat)
    requires base + n <= |starts| == |ends| && keys <= INT32_MAX
    ensures n > 0 ==> StartMin(starts, keys, base, n) <= keys
    ensures EndMax(ends, keys, base, n) <= keys
    ensures forall r :: base <= r < base + n ==>
              StartMin(starts, keys, base, n) <= starts[r] && Min(ends[r], keys) <= EndMax(ends, keys, base, n)
    decreases n
  {
    if n > 0 { WindowBounds(starts, ends, keys, base, n - 1); }
  }

  /** Tile ranges handed to the splits: tiles * part / split. */
  function SplitPoint(tiles: int, split: nat, part: nat): int
    requires split > 0
  {
    tiles * part / split
  }

  lemma SplitEnds(tiles: int, split: nat)
    requires split > 0
    ensures SplitPoint(tiles, split, 0) == 0 && SplitPoint(tiles, split, split) == tiles
  {
    assert tiles * split / split == tiles by { DivExact(tiles, split); }
  }

  lemma DivExact(a: int, d: nat)
    requires d > 0
    ensures a * d / d == a
  {
    var x := a * d;
    assert x == x / d * d + x % d;
    if x / d < a { MulMonotone(x / d + 1, a, d); }
    if x / d > a { MulMonotone(a + 1, x / d, d); }
  }

  lemma DivMonotone(a: int, b: int, d: nat)
    requires d > 0 && a <= b
    ensures a / d <= b / d
  {
    assert a == a / d * d + a % d && b == b / d * d + b % d;
    if b / d < a / d { MulMonotone(b / d + 1, a / d, d); }
  }

  lemma SplitStep(tiles: int, split: nat, part: nat)
    requires split > 0
    ensures tiles >= 0 ==> SplitPoint(tiles, split, part) <= SplitPoint(tiles, split, part + 1)
    ensures tiles <= 0 ==> SplitPoint(tiles, split, part) >= SplitPoint(tiles, split, part + 1)
  {
    assert tiles * (part + 1) == tiles * part + tiles;
    if tiles >= 0 { DivMonotone(tiles * part, tiles * (part + 1), split); }
    if tiles <= 0 { DivMonotone(tiles * (part + 1), tiles * part, split); }
  }

  lemma {:induction false} SplitMonotone(tiles: int, split: nat, a: nat, b: nat)
    requires split > 0 && a <= b && tiles >= 0
    ensures SplitPoint(tiles, split, a) <= SplitPoint(tiles, split, b)
    decreases b - a
  {
    if a < b {
      SplitMonotone(tiles, split, a, b - 1);
      SplitStep(tiles, split, b - 1);
    }
  }

  ghost predicate HasTile(tiles: int, split: nat, part: nat, t: int)
    requires split > 0
  {
    part < split && SplitPoint(tiles, split, part) <= t < SplitPoint(tiles, split, part + 1)
  }

  /** Every tile of the window goes to a split. */
  lemma SplitsCoverTiles(tiles: int, split: nat, t: int) returns (part: nat)
    requires split > 0 && 0 <= t < tiles
    ensures HasTile(tiles, split, part, t)
  {
    SplitEnds(tiles, split);
    part := 0;
    while SplitPoint(tiles, split, part + 1) <= t
      invariant part < split && SplitPoint(tiles, split, part) <= t
      decreases split - part
    {
      assert part + 1 != split;
      part := part + 1;
    }
  }

  /** ... and to one only; an empty window's tiles go to none. */
  lemma SplitsDisjoint(tiles: int, split: nat, a: nat, b: nat, t: int)
    requires split > 0 && HasTile(tiles, split, a, t) && HasTile(tiles, split, b, t)
    ensures a == b && 0 <= t < tiles
  {
    SplitStep(tiles, split, a);
    assert tiles >= 0;
    SplitEnds(tiles, split);
    if a < b { SplitMonotone(tiles, split, a + 1, b); }
    if b < a { SplitMonotone(tiles, split, b + 1, a); }
    SplitMonotone(tiles, split, 0, a);
    SplitMonotone(tiles, split, a + 1, split);
  }

  // ---------------------------------------------------------------- one CTA

  lemma BlockRows(l: Launch, block: nat)
    requires l.Valid() && block < l.RowBlocks()
    ensures 0 <= l.Base(block) && l.Base(block) + l.blockQ <= |l.q|
    ensures forall row: nat :: BlockOf(row, l.blockQ) == block <==> l.Base(block) <= row < l.Base(block) + l.blockQ
  {
    WindowsOrdered(block, block, l.blockQ);
    WindowsOrdered(block + 1, l.RowBlocks(), l.blockQ);
    assert TokenAt(block + 1, 0, l.blockQ) == l.Base(block) + l.blockQ;
    forall row: nat
      ensures BlockOf(row, l.blockQ) == block <==> l.Base(block) <= row < l.Base(block) + l.blockQ
    {
      BlockBelow(row, block, l.blockQ);
      BlockBelow(row, block + 1, l.blockQ);
    }
  }

  function Lo(l: Launch, block: nat): int
    requires 0 <= l.Base(block) && l.Base(block) + l.blockQ <= |l.starts|
  {
    StartMin(l.starts, |l.k|, l.Base(block), l.blockQ)
  }

  function Tiles(l: Launch, block: nat): int
    requires 0 <= l.Base(block) && l.Base(block) + l.blockQ <= |l.starts| == |l.ends| && l.blockN > 0
  {
    CeilDiv(EndMax(l.ends, |l.k|, l.Base(block), l.blockQ) - Lo(l, block), l.blockN)
  }

  /** The cells a CTA writes: its block's rows, the columns of its tiles. */
  ghost predicate Covers(l: Launch, cta: Cta, row: nat, col: nat)
    requires l.Valid() && l.InGrid(cta)
  {
    BlockRows(l, cta.block);
    && BlockOf(row, l.blockQ) == cta.block
    && Lo(l, cta.block) <= col < |l.k|
    && HasTile(Tiles(l, cta.block), l.split, cta.part, BlockOf(col - Lo(l, cta.block), l.blockN))
  }

  /** Each logits cell is written by at most one CTA of the grid. */
  lemma CtasWriteDisjointCells(l: Launch, a: Cta, b: Cta, row: nat, col: nat)
    requires l.Valid() && l.InGrid(a) && l.InGrid(b)
    requires Covers(l, a, row, col) && Covers(l, b, row, col)
    ensures a == b
  {
    BlockRows(l, a.block);
    SplitsDisjoint(Tiles(l, a.block), l.split, a.part, b.part, BlockOf(col - Lo(l, a.block), l.blockN));
  }

  /** Every column of every row's window is written by some CTA of the grid, also when the
      window's end exceeds the keys and in the tail tile. */
  lemma WindowIsCovered(l: Launch, row: nat, col: nat) returns (cta: Cta)
    requires l.Valid() && row < |l.q| && col < |l.k| && l.starts[row] <= col < l.ends[row]
    ensures l.InGrid(cta) && Covers(l, cta, row, col)
  {
    var block := BlockOf(row, l.blockQ);
    BlockBelow(row, l.RowBlocks(), l.blockQ);
    BlockRows(l, block);
    WindowBounds(l.starts, l.ends, |l.k|, l.Base(block), l.blockQ);
    var lo := Lo(l, block);
    var hi := EndMax(l.ends, |l.k|, l.Base(block), l.blockQ);
    assert lo <= l.starts[row] && Min(l.ends[row], |l.k|) <= hi;
    CeilDivCovers(hi - lo, l.blockN, col - lo);
    var part := SplitsCoverTiles(Tiles(l, block), l.split, BlockOf(col - lo, l.blockN));
    cta := Cta(block, part);
  }

  method BlockWindow(l: Launch, base: nat) returns (lo: int, hi: int)
    requires base + l.blockQ <= |l.starts| == |l.ends|
    ensures lo == StartMin(l.starts, |l.k|, base, l.blockQ) && hi == EndMax(l.ends, |l.k|, base, l.blockQ)
  {
    lo, hi := INT32_MAX, INT32_MIN;
    for qi := 0 to l.blockQ
      invariant lo == StartMin(l.starts, |l.k|, base, qi) && hi == EndMax(l.ends, |l.k|, base, qi)
    {
      lo := Min(lo, Min(l.starts[base + qi], |l.k|));
      hi := Max(hi, Min(l.ends[base + qi], |l.k|));
    }
  }

  lemma ColumnInTile(lo: int, t: nat, d: nat, col: int)
    requires d > 0
    ensures lo + TokenAt(t, 0, d) <= col < lo + TokenAt(t, 0, d) + d <==> col >= lo && BlockOf(col - lo, d) == t
  {
    WindowsOrdered(0, t, d);
    if col >= lo {
      BlockBelow(col - lo, t, d);
      BlockBelow(col - lo, t + 1, d);
      assert TokenAt(t + 1, 0, d) == TokenAt(t, 0, d) + d;
    }
  }

  /** One tile: a block of columns for all rows of the row block; columns past the keys, or before
      the first one when a window starts below zero, are out-of-range stores and dropped. */
  method StoreTile(l: Launch, base: nat, first: int, logits: array2<Logit>)
    requires base + l.blockQ <= |l.q| == logits.Length0 && |l.k| == logits.Length1
    modifies logits
    ensures forall row, col :: 0 <= row < |l.q| && 0 <= col < |l.k| ==>
              logits[row, col] == if base <= row < base + l.blockQ && first <= col < first + l.blockN
                                  then Fin(Score(l.q[row], l.k[col])) else old(logits[row, col])
  {
    forall row, col | base <= row < base + l.blockQ && first <= col < first + l.blockN && 0 <= col < |l.k| {
      logits[row, col] := Fin(Score(l.q[row], l.k[col]));
    }
  }

  ghost predicate InTiles(l: Launch, block: nat, loT: int, hiT: int, row: nat, col: nat)
    requires l.Valid() && block < l.RowBlocks()
  {
    BlockRows(l, block);
    && BlockOf(row, l.blockQ) == block
    && Lo(l, block) <= col < |l.k|
    && loT <= BlockOf(col - Lo(l, block), l.blockN) < hiT
  }

  lemma TileStepAt(l: Launch, block: nat, loT: nat, t: nat, row: nat, col: nat)
    requires l.Valid() && block < l.RowBlocks() && loT <= t && col < |l.k|
    ensures 0 <= l.Base(block) && l.Base(block) + l.blockQ <= |l.starts|
    ensures var first := Lo(l, block) + TokenAt(t, 0, l.blockN);
            InTiles(l, block, loT, t + 1, row, col) <==>
              InTiles(l, block, loT, t, row, col)
              || (l.Base(block) <= row < l.Base(block) + l.blockQ && first <= col < first + l.blockN)
  {
    BlockRows(l, block);
    assert BlockOf(row, l.blockQ) == block <==> l.Base(block) <= row < l.Base(block) + l.blockQ;
    var lo := Lo(l, block);
    hide BlockOf, TokenAt, Launch.Base, Launch.RowBlocks, Lo;
    ColumnInTile(lo, t, l.blockN, col);
  }

  /** The cells of tiles loT to t and the tile that starts at `first` are those of tiles loT to next. */
  ghost predicate GrowsBy(l: Launch, block: nat, loT: nat, t: nat, next: nat, first: int)
    requires l.Valid() && block < l.RowBlocks()
  {
    forall row: nat, col: nat :: row < |l.q| && col < |l.k| ==>
      (InTiles(l, block, loT, next, row, col) <==>
         InTiles(l, block, loT, t, row, col)
         || (l.Base(block) <= row < l.Base(block) + l.blockQ && first <= col < first + l.blockN))
  }

  lemma TileStep(l: Launch, block: nat, loT: nat, t: nat)
    requires l.Valid() && block < l.RowBlocks() && loT <= t
    ensures 0 <= l.Base(block) && l.Base(block) + l.blockQ <= |l.starts|
    ensures GrowsBy(l, block, loT, t, t + 1, Lo(l, block) + TokenAt(t, 0, l.blockN))
  {
    BlockRows(l, block);
    hide BlockOf, TokenAt, Launch.Base, Launch.RowBlocks, Lo, InTiles;
    var first, next := Lo(l, block) + TokenAt(t, 0, l.blockN), t + 1;
    forall row: nat, col: nat | row < |l.q| && col < |l.k|
      ensures InTiles(l, block, loT, next, row, col) <==>
                InTiles(l, block, loT, t, row, col)
                || (l.Base(block) <= row < l.Base(block) + l.blockQ && first <= col < first + l.blockN)
    {
      TileStepAt(l, block, loT, t, row, col);
    }
    assert GrowsBy(l, block, loT, t, next, first);
  }

  lemma CoversAreTiles(l: Launch, cta: Cta, row: nat, col: nat)
    requires l.Valid() && l.InGrid(cta)
    ensures 0 <= l.Base(cta.block) && l.Base(cta.block) + l.blockQ <= |l.starts|
    ensures var tiles := Tiles(l, cta.block);
            Covers(l, cta, row, col) <==>
              InTiles(l, cta.block, SplitPoint(tiles, l.split, cta.part), SplitPoint(tiles, l.split, cta.part + 1), row, col)
  {
    BlockRows(l, cta.block);
    hide BlockOf, TokenAt, Launch.Base, Launch.RowBlocks, Lo, SplitPoint, Tiles;
  }

  /** The tile loop of one CTA. */
  method RunTiles(l: Launch, block: nat, base: nat, lo: int, loT: nat, hiT: nat, logits: array2<Logit>)
    requires l.Valid() && block < l.RowBlocks() && loT <= hiT
    requires base == l.Base(block) && base + l.blockQ <= |l.starts| && lo == Lo(l, block)
    requires |l.q| == logits.Length0 && |l.k| == logits.Length1
    modifies logits
    ensures forall row, col :: 0 <= row < |l.q| && 0 <= col < |l.k| ==>
              logits[row, col] == if InTiles(l, block, loT, hiT, row, col) then Fin(Score(l.q[row], l.k[col]))
                                  else old(logits[row, col])
  {
    forall row: nat, col: nat ensures !InTiles(l, block, loT, loT, row, col) {}
    hide BlockOf, TokenAt, Launch.Base, InTiles, Score, Lo, Launch.RowBlocks;
    for t := loT to hiT
      invariant forall row, col :: 0 <= row < |l.q| && 0 <= col < |l.k| ==>
                  logits[row, col] == if InTiles(l, block, loT, t, row, col) then Fin(Score(l.q[row], l.k[col]))
                                      else old(logits[row, col])
    {
      TileStep(l, block, loT, t);
      ghost var next := t + 1;
      assert GrowsBy(l, block, loT, t, next, lo + TokenAt(t, 0, l.blockN));
      StoreTile(l, base, lo + TokenAt(t, 0, l.blockN), logits);
    }
  }

  method RunCta(l: Launch, cta: Cta, logits: array2<Logit>)
    requires l.Valid() && l.InGrid(cta)
    requires |l.q| == logits.Length0 && |l.k| == logits.Length1
    modifies logits
    ensures forall row, col :: 0 <= row < |l.q| && 0 <= col < |l.k| ==>
              logits[row, col] == if Covers(l, cta, row, col) then Fin(Score(l.q[row], l.k[col]))
                                  else old(logits[row, col])
  {
    BlockRows(l, cta.block);
    var base: nat := l.Base(cta.block);
    var lo, hi := BlockWindow(l, base);
    var tiles := CeilDiv(hi - lo, l.blockN);
    var loT, hiT := SplitPoint(tiles, l.split, cta.part), SplitPoint(tiles, l.split, cta.part + 1);
    assert lo == Lo(l, cta.block) && tiles == Tiles(l, cta.block);
    SplitRange(tiles, l.split, cta.part);
    hide BlockOf, TokenAt, CeilDiv, SplitPoint, Launch.Base, Covers, InTiles, Score, Lo, Tiles;
    if loT < hiT {
      RunTiles(l, cta.block, base, lo, loT, hiT, logits);
    }
    forall row: nat, col: nat | row < |l.q| && col < |l.k|
      ensures logits[row, col] == if Covers(l, cta, row, col) then Fin(Score(l.q[row], l.k[col])) else old(logits[row, col])
    {
      CoversAreTiles(l, cta, row, col);
      NoTilesNoCells(l, cta.block, loT, hiT, row, col);
    }
  }

  lemma NoTilesNoCells(l: Launch, block: nat, loT: int, hiT: int, row: nat, col: nat)
    requires l.Valid() && block < l.RowBlocks()
    ensures loT >= hiT ==> !InTiles(l, block, loT, hiT, row, col)
  {
  }

  lemma SplitRange(tiles: int, split: nat, part: nat)
    requires split > 0 && part < split
    ensures SplitPoint(tiles, split, part) < SplitPoint(tiles, split, part + 1) ==> 0 <= SplitPoint(tiles, split, part)
  {
    SplitStep(tiles, split, part);
    SplitEnds(tiles, split);
    if tiles >= 0 { SplitMonotone(tiles, split, 0, part); }
  }

  // ---------------------------------------------------------------- the launch

  /** The CTAs of a launch in the order they happen to run. */
  ghost predicate RunsGrid(l: Launch, order: seq<Cta>) {
    && (forall i :: 0 <= i < |order| ==> l.InGrid(order[i]))
    && (forall c: Cta :: l.InGrid(c) ==> c in order)
  }

  ghost predicate Written(l: Launch, done: seq<Cta>, row: nat, col: nat)
    requires l.Valid()
  {
    exists c :: c in done && l.InGrid(c) && Covers(l, c, row, col)
  }

  /** Whatever the order, exactly the covered cells end with their score. */
  method RunKernel(l: Launch, order: seq<Cta>, logits: array2<Logit>)
    requires l.Valid() && RunsGrid(l, order)
    requires |l.q| == logits.Length0 && |l.k| == logits.Length1
    modifies logits
    ensures forall row, col :: 0 <= row < |l.q| && 0 <= col < |l.k| ==>
              logits[row, col] == if Written(l, order, row, col) then Fin(Score(l.q[row], l.k[col]))
                                  else old(logits[row, col])
  {
    hide Covers, Score, Launch.Valid;
    for i := 0 to |order|
      invariant forall row, col :: 0 <= row < |l.q| && 0 <= col < |l.k| ==>
                  logits[row, col] == if Written(l, order[..i], row, col) then Fin(Score(l.q[row], l.k[col]))
                                      else old(logits[row, col])
    {
      RunCta(l, order[i], logits);
      assert order[..i + 1] == order[..i] + [order[i]];
      forall row: nat, col: nat | row < |l.q| && col < |l.k|
        ensures Written(l, order[..i + 1], row, col) <==>
                  Written(l, order[..i], row, col) || Covers(l, order[i], row, col)
      {
        assert order[i] in order[..i + 1];
      }
    }
    assert order[..|order|] == order;
  }

  /** logits.div_(scale) over the rows that are not padding. */
  method DivideRows(logits: array2<Logit>, rows: nat, scale: real)
    requires rows <= logits.Length0 && scale != 0.0
    modifies logits
    ensures forall r, c :: 0 <= r < rows && 0 <= c < logits.Length1 ==>
              logits[r, c] == match old(logits[r, c]) case NegInf => NegInf case Fin(v) => Fin(v / scale)
  {
    forall r, c | 0 <= r < rows && 0 <= c < logits.Length1 {
      logits[r, c] := match logits[r, c] case NegInf => NegInf case Fin(v) => Fin(v / scale);
    }
  }

  predicate Masked(column: int, start: int, end: int) {
    column < start || column >= end
  }

  /** The mask kernel on one row: blocks of 4096 columns, 512 threads each taking every 512th;
      columns past the keys are out-of-range stores and dropped. */
  method MaskRow(logits: array2<Logit>, row: nat, start: int, end: int)
    requires row < logits.Length0
    modifies logits
    ensures forall r, c :: 0 <= r < logits.Length0 && 0 <= c < logits.Length1 ==>
              logits[r, c] == if r == row && Masked(c, start, end) then NegInf else old(logits[r, c])
  {
    var keys := logits.Length1;
    for block := 0 to CeilDiv(keys, MASK_BLOCK)
      invariant forall r, c :: 0 <= r < logits.Length0 && 0 <= c < keys ==>
                  logits[r, c] == if r == row && c < block * MASK_BLOCK && Masked(c, start, end) then NegInf
                                  else old(logits[r, c])
    {
      for item := 0 to MASK_BLOCK / MASK_THREADS
        invariant forall r, c :: 0 <= r < logits.Length0 && 0 <= c < keys ==>
                    logits[r, c] == if r == row && c < block * MASK_BLOCK + item * MASK_THREADS && Masked(c, start, end)
                                    then NegInf else old(logits[r, c])
      {
        var first := block * MASK_BLOCK + item * MASK_THREADS;
        forall column | first <= column < first + MASK_THREADS && column < keys && Masked(column, start, end) {
          logits[row, column] := NegInf;
        }
      }
    }
  }

  method MaskRows(logits: array2<Logit>, rows: nat, starts: seq<int>, ends: seq<int>)
    requires rows <= logits.Length0 && |starts| == |ends| >= rows
    modifies logits
    ensures forall r, c :: 0 <= r < rows && 0 <= c < logits.Length1 ==>
              logits[r, c] == if Masked(c, starts[r], ends[r]) then NegInf else old(logits[r, c])
  {
    for row := 0 to rows
      invariant forall r, c :: 0 <= r < logits.Length0 && 0 <= c < logits.Length1 ==>
                  logits[r, c] == if r < row && Masked(c, starts[r], ends[r]) then NegInf else old(logits[r, c])
    {
      MaskRow(logits, row, starts[row], ends[row]);
    }
  }

  /** (-rows) % block_q */
  function Padding(rows: nat, blockQ: nat): nat
    requires blockQ > 0
  {
    (0 - rows) % blockQ
  }

  lemma PaddedRowsAreWhole(rows: nat, blockQ: nat)
    requires blockQ > 0
    ensures TokenAt(BlockOf(rows + Padding(rows, blockQ), blockQ), 0, blockQ) == rows + Padding(rows, blockQ)
  {
    var m: int := 0 - rows;
    var p := Padding(rows, blockQ);
    assert m == m / blockQ * blockQ + p;
    var n := -(m / blockQ);
    assert rows + p == n * blockQ by { NegProduct(m / blockQ, blockQ); }
    if n < 0 { MulMonotone(n, -1, blockQ); }
    PartsOfToken(n, 0, blockQ);
  }

  lemma NegProduct(a: int, b: int)
    ensures -a * b == -(a * b)
  {
  }

  function Repeat<T>(x: T, n: nat): (r: seq<T>)
    ensures |r| == n && forall i :: 0 <= i < n ==> r[i] == x
  {
    seq(n, _ => x)
  }

  function PaddedLaunch(q: seq<seq<seq<real>>>, k: seq<seq<real>>, starts: seq<int>, ends: seq<int>,
                        heads: nat, blockN: nat, split: nat): Launch
    requires 0 < |q| == |starts| == |ends| && 0 < heads
  {
    var blockQ := Max(1, 128 / heads);
    var p := Padding(|q|, blockQ);
    var zeroHeads: seq<seq<real>> := []; // all-zero queries score 0, as no heads do; the rows are dropped
    Launch(q + Repeat(zeroHeads, p), k, starts + Repeat(starts[|starts| - 1], p), ends + Repeat(ends[|ends| - 1], p),
           blockQ, blockN, split)
  }

  lemma PaddedLaunchValid(q: seq<seq<seq<real>>>, k: seq<seq<real>>, starts: seq<int>, ends: seq<int>,
                          heads: nat, blockN: nat, split: nat)
    requires 0 < |q| == |starts| == |ends| && 0 < heads && 0 < blockN && 0 < split && |k| <= INT32_MAX
    ensures PaddedLaunch(q, k, starts, ends, heads, blockN, split).Valid()
  {
    PaddedRowsAreWhole(|q|, Max(1, 128 / heads));
  }

  /** tilelang_qsa_mqa_prefill: pad, launch in any order, drop the padding rows, scale, mask.
      The result is the reference matrix, for every number of splits. */
  method Prefill(q: seq<seq<seq<real>>>, k: seq<seq<real>>, starts: seq<int>, ends: seq<int>, heads: nat,
                 scale: real, blockN: nat, split: nat, order: seq<Cta>) returns (logits: array2<Logit>)
    requires |q| == |starts| == |ends| && 0 < heads && 0 < blockN && 0 < split && |k| <= INT32_MAX
    requires scale != 0.0
    requires q != [] ==> RunsGrid(PaddedLaunch(q, k, starts, ends, heads, blockN, split), order)
    ensures fresh(logits) && logits.Length0 >= |q| && logits.Length1 == |k|
    ensures forall m, n :: 0 <= m < |q| && 0 <= n < |k| ==>
              logits[m, n] == Reference(q, k, starts, ends, scale, m, n)
    ensures forall m, n :: 0 <= m < |q| && 0 <= n < |k| ==>
              if starts[m] <= n < ends[m] then HoldsHeadSum(logits[m, n], q[m], k[n], scale) else logits[m, n] == NegInf
  {
    if q == [] || k == [] {
      logits := new Logit[|q|, |k|]((_, _) => NegInf);
      return;
    }
    var l := PaddedLaunch(q, k, starts, ends, heads, blockN, split);
    PaddedLaunchValid(q, k, starts, ends, heads, blockN, split);
    logits := new Logit[|l.q|, |k|]((_, _) => Fin(0.0));
    RunKernel(l, order, logits);
    forall m: nat, n: nat | m < |q| && n < |k| && starts[m] <= n < ends[m] ensures Written(l, order, m, n) {
      var cta := WindowIsCovered(l, m, n);
    }
    hide Written, Score, Launch.Valid, Padding, HoldsHeadSum;
    DivideRows(logits, |q|, scale);
    MaskRows(logits, |q|, starts, ends);
    forall m, n | 0 <= m < |q| && 0 <= n < |k| && starts[m] <= n < ends[m]
      ensures HoldsHeadSum(logits[m, n], q[m], k[n], scale)
    {
      ScaledScoreHolds(q[m], k[n], scale);
    }
  }
}
