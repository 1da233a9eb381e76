/** Token = block * ratio + offset, and back.  Proofs elsewhere use these lemmas and keep the
    products and quotients themselves out of the solver's sight. */
module BlockArith {
  import opened Arith

  function BlockOf(c: nat, r: nat): nat requires r > 0 { c / r }

  function OffsetOf(c: nat, r: nat): nat requires r > 0 { c % r }

  function TokenAt(block: int, offset: int, r: nat): int { block * r + offset }

  lemma Parts(c: nat, r: nat)
    requires r > 0
    ensures c == TokenAt(BlockOf(c, r), OffsetOf(c, r), r) && OffsetOf(c, r) < r
  {
  }

  lemma TokenBelow(block: nat, window: nat, offset: nat, r: nat)
    requires block < window && offset < r
    ensures 0 <= TokenAt(block, offset, r) < TokenAt(window, 0, r)
  {
    MulMonotone(block + 1, window, r);
  }

  lemma WindowsOrdered(a: nat, b: nat, r: nat)
    requires r > 0
    ensures a <= b <==> TokenAt(a, 0, r) <= TokenAt(b, 0, r)
    ensures TokenAt(a, 0, r) >= 0
  {
    if a <= b { MulMonotone(a, b, r); } else { MulMonotone(b + 1, a, r); }
  }

  lemma BlockBelow(c: nat, n: nat, r: nat)
    requires r > 0
    ensures BlockOf(c, r) < n <==> c < TokenAt(n, 0, r)
  {
    Parts(c, r);
    if BlockOf(c, r) < n { MulMonotone(c / r + 1, n, r); } else { MulMonotone(n, c / r, r); }
  }

  /** A token determines its block and its offset. */
  lemma TokensDiffer(b1: nat, o1: nat, b2: nat, o2: nat, r: nat)
    requires o1 < r && o2 < r && (b1 != b2 || o1 != o2)
    ensures TokenAt(b1, o1, r) != TokenAt(b2, o2, r)
  {
    if b1 < b2 { MulMonotone(b1 + 1, b2, r); }
    if b2 < b1 { MulMonotone(b2 + 1, b1, r); }
  }

  lemma PartsOfToken(block: nat, offset: nat, r: nat)
    requires offset < r
    ensures var c := TokenAt(block, offset, r);
            c >= 0 && BlockOf(c, r) == block && OffsetOf(c, r) == offset
  {
    MulMonotone(0, block, r);
    var c := TokenAt(block, offset, r);
    Parts(c, r);
    if BlockOf(c, r) != block || OffsetOf(c, r) != offset {
      TokensDiffer(BlockOf(c, r), OffsetOf(c, r), block, offset, r);
    }
  }

  lemma ColumnsDiffer(c: nat, d: nat, r: nat)
    requires r > 0 && c != d
    ensures BlockOf(c, r) != BlockOf(d, r) || OffsetOf(c, r) != OffsetOf(d, r)
  {
    Parts(c, r);
    Parts(d, r);
  }

  /** ceil(tokens / r) blocks hold the tokens, with less than a block to spare. */
  lemma CeilHolds(tokens: nat, r: nat)
    requires r > 0
    ensures CeilDiv(tokens, r) >= 0 && tokens <= TokenAt(CeilDiv(tokens, r), 0, r) < tokens + r
  {
    var x := tokens + r - 1;
    assert x == x / r * r + x % r;
  }

  lemma FloorBounds(x: nat, r: nat)
    requires r > 0
    ensures 0 <= TokenAt(x / r, 0, r) <= x < TokenAt(x / r, 0, r) + r
  {
    MulMonotone(0, x / r, r);
    assert x == x / r * r + x % r;
  }

  lemma CeilDivCovers(x: int, d: nat, c: nat)
    requires d > 0 && c < x
    ensures BlockOf(c, d) < CeilDiv(x, d)
  {
    CeilHolds(x, d);
    BlockBelow(c, CeilDiv(x, d), d);
  }
}
