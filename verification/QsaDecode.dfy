/** Paged decode scoring: pages narrower than the 64-row GEMM tile are packed side by side in
    one shared tile, CTAs run in any order, and the result is the gather-everything reference. */
module QsaDecode {
  import opened Arith
  import opened BlockArith
  import opened QsaScores

  const GROUP := 64

  /** Key cache as pages of rows, one page-table row and one context length per query. */
  datatype Paged = Paged(q: seq<seq<seq<real>>>, cache: seq<seq<seq<real>>>, pageTable: seq<seq<int>>,
                         contextLens: seq<int>, pageSize: nat, maxPages: nat)
  {
    ghost predicate Valid() {
      && pageSize > 0 && GROUP % pageSize == 0
      && |q| == |pageTable| == |contextLens|
      && (forall p :: 0 <= p < |cache| ==> |cache[p]| == pageSize)
      && (forall b :: 0 <= b < |pageTable| ==> |pageTable[b]| == maxPages)
      && (forall b :: 0 <= b < |contextLens| ==> contextLens[b] <= TokenAt(maxPages, 0, pageSize))
      && (forall b, j: nat :: 0 <= b < |pageTable| && j < maxPages && TokenAt(j, 0, pageSize) < contextLens[b] ==>
            0 <= pageTable[b][j] < |cache|)
    }

    function SubPages(): nat requires pageSize > 0 { GROUP / pageSize }

    /** The key at a logical position, through the page table. */
    function KeyAt(b: nat, position: nat): seq<real>
      requires Valid() && b < |q| && position < contextLens[b]
    {
      PageInRange(this, b, position);
      cache[pageTable[b][BlockOf(position, pageSize)]][OffsetOf(position, pageSize)]
    }
  }

  lemma PageInRange(d: Paged, b: nat, position: nat)
    requires d.Valid() && b < |d.q| && position < d.contextLens[b]
    ensures var j := BlockOf(position, d.pageSize);
            && j < d.maxPages && 0 <= d.pageTable[b][j] < |d.cache| && OffsetOf(position, d.pageSize) < d.pageSize
  {
    Parts(position, d.pageSize);
    BlockBelow(position, d.maxPages, d.pageSize);
    BlockBelow(position, BlockOf(position, d.pageSize), d.pageSize);
  }

  /** The reference: every page gathered (negative ids clamped to 0), scored, masked from the
      context length on, and copied as far as max_model_len. */
  function Reference(d: Paged, scale: real, b: nat, position: nat): Logit
    requires d.Valid() && b < |d.q| && scale != 0.0
    requires |d.cache| > 0 && forall j :: 0 <= j < d.maxPages ==> d.pageTable[b][j] < |d.cache|
  {
    if position >= TokenAt(d.maxPages, 0, d.pageSize) || position >= d.contextLens[b] then NegInf
    else
      BlockBelow(position, d.maxPages, d.pageSize);
      Parts(position, d.pageSize);
      var page := d.pageTable[b][BlockOf(position, d.pageSize)];
      Fin(Score(d.q[b], d.cache[if page < 0 then 0 else page][OffsetOf(position, d.pageSize)]) / scale)
  }

  // ---------------------------------------------------------------- one group

  lemma GroupIsWholePages(d: Paged, group: nat, sub: nat)
    requires d.pageSize > 0 && GROUP % d.pageSize == 0
    ensures TokenAt(d.SubPages(), 0, d.pageSize) == GROUP
    ensures TokenAt(group * d.SubPages() + sub, 0, d.pageSize) == TokenAt(group, 0, GROUP) + TokenAt(sub, 0, d.pageSize)
  {
    var s, p := d.SubPages(), d.pageSize;
    assert GROUP == s * p + GROUP % p;
    assert (group * s + sub) * p == group * (s * p) + sub * p by { Distribute(group, s, sub, p); }
  }

  lemma Distribute(a: nat, s: nat, b: nat, p: nat)
    ensures (a * s + b) * p == a * (s * p) + b * p
  {
  }

  /** Row r of sub-page sp of a group is the key at the group's position sp * page_size + r. */
  lemma SubPageRow(d: Paged, b: nat, group: nat, sp: nat, r: nat)
    requires d.Valid() && b < |d.q| && sp < d.SubPages() && r < d.pageSize
    ensures var position := TokenAt(group, 0, GROUP) + TokenAt(sp, r, d.pageSize);
            && position >= 0
            && BlockOf(position, d.pageSize) == group * d.SubPages() + sp
            && OffsetOf(position, d.pageSize) == r
  {
    GroupIsWholePages(d, group, sp);
    PartsOfToken(group * d.SubPages() + sp, r, d.pageSize);
    assert TokenAt(group * d.SubPages() + sp, r, d.pageSize) == TokenAt(group * d.SubPages() + sp, 0, d.pageSize) + r;
  }

  /** The first n rows of the shared tile that lie inside the context hold the group's keys. */
  ghost predicate Loaded(d: Paged, b: nat, group: nat, tile: seq<seq<real>>, n: int)
    requires d.Valid() && b < |d.q| && |tile| == GROUP
  {
    forall token :: 0 <= token < n && token < GROUP && TokenAt(group, 0, GROUP) + token < d.contextLens[b] ==>
      (WindowsOrdered(0, group, GROUP);
       tile[token] == d.KeyAt(b, TokenAt(group, 0, GROUP) + token))
  }

  method CopyPage(page: seq<seq<real>>, tile: array<seq<real>>, first: nat)
    requires first + |page| <= tile.Length
    modifies tile
    ensures forall t :: 0 <= t < tile.Length ==>
              tile[t] == if first <= t < first + |page| then page[t - first] else old(tile[t])
  {
    forall r | 0 <= r < |page| { tile[first + r] := page[r]; }
  }

  lemma PageRowIsKey(d: Paged, b: nat, group: nat, sp: nat, r: nat)
    requires d.Valid() && b < |d.q| && sp < d.SubPages() && r < d.pageSize
    requires TokenAt(group, 0, GROUP) + TokenAt(sp, 0, d.pageSize) + r < d.contextLens[b]
    ensures var position := TokenAt(group, 0, GROUP) + TokenAt(sp, 0, d.pageSize) + r;
            var j := group * d.SubPages() + sp;
            && position >= 0 && j < d.maxPages && 0 <= d.pageTable[b][j] < |d.cache|
            && d.KeyAt(b, position) == d.cache[d.pageTable[b][j]][r]
  {
    SubPageRow(d, b, group, sp, r);
    assert TokenAt(sp, r, d.pageSize) == TokenAt(sp, 0, d.pageSize) + r;
    hide BlockOf, OffsetOf, TokenAt;
    PageInRange(d, b, TokenAt(group, 0, GROUP) + TokenAt(sp, 0, d.pageSize) + r);
  }

  lemma PageLoaded(d: Paged, b: nat, group: nat, sp: nat, before: seq<seq<real>>, after: seq<seq<real>>)
    requires d.Valid() && b < |d.q| && sp < d.SubPages() && |before| == |after| == GROUP
    requires Loaded(d, b, group, before, TokenAt(sp, 0, d.pageSize))
    requires var j := group * d.SubPages() + sp;
             j < d.maxPages && 0 <= d.pageTable[b][j] < |d.cache|
             && forall t :: 0 <= t < GROUP ==>
                  after[t] == if TokenAt(sp, 0, d.pageSize) <= t < TokenAt(sp, 0, d.pageSize) + d.pageSize
                              then d.cache[d.pageTable[b][j]][t - TokenAt(sp, 0, d.pageSize)] else before[t]
    ensures Loaded(d, b, group, after, TokenAt(sp + 1, 0, d.pageSize))
  {
    var first, ctx := TokenAt(sp, 0, d.pageSize), d.contextLens[b];
    var start := TokenAt(group, 0, GROUP);
    assert TokenAt(sp + 1, 0, d.pageSize) == first + d.pageSize;
    WindowsOrdered(0, sp, d.pageSize);
    WindowsOrdered(0, group, GROUP);
    hide BlockOf, OffsetOf, TokenAt, Paged.SubPages, Paged.KeyAt, Paged.Valid;
    forall token | 0 <= token < first + d.pageSize && token < GROUP && start + token < ctx
      ensures after[token] == d.KeyAt(b, start + token)
    {
      if token < first {
        assert before[token] == d.KeyAt(b, start + token);
      } else {
        PageRowIsKey(d, b, group, sp, token - first);
      }
    }
  }

  lemma PageNeeded(d: Paged, b: nat, group: nat, sp: nat)
    requires d.Valid() && b < |d.q| && sp < d.SubPages()
    requires TokenAt(group * d.SubPages() + sp, 0, d.pageSize) < d.contextLens[b]
    ensures var j := group * d.SubPages() + sp; j < d.maxPages && 0 <= d.pageTable[b][j] < |d.cache|
  {
    WindowsOrdered(d.maxPages, group * d.SubPages() + sp, d.pageSize);
  }

  lemma SkippedPage(d: Paged, b: nat, group: nat, sp: nat, tile: seq<seq<real>>)
    requires d.Valid() && b < |d.q| && sp < d.SubPages() && |tile| == GROUP
    requires Loaded(d, b, group, tile, TokenAt(sp, 0, d.pageSize))
    requires TokenAt(group * d.SubPages() + sp, 0, d.pageSize) >= d.contextLens[b]
    ensures Loaded(d, b, group, tile, TokenAt(sp + 1, 0, d.pageSize))
  {
    GroupIsWholePages(d, group, sp);
  }

  /** Packs the group's sub-pages into the shared tile; rows past the context keep whatever an
      earlier group or an earlier kernel left there. */
  method LoadGroup(d: Paged, b: nat, group: nat, tile: array<seq<real>>)
    requires d.Valid() && b < |d.q| && tile.Length == GROUP
    modifies tile
    ensures Loaded(d, b, group, tile[..], GROUP)
  {
    for sp := 0 to d.SubPages()
      invariant Loaded(d, b, group, tile[..], TokenAt(sp, 0, d.pageSize))
    {
      GroupIsWholePages(d, group, sp);
      WindowsOrdered(0, sp, d.pageSize);
      WindowsOrdered(sp + 1, d.SubPages(), d.pageSize);
      assert TokenAt(sp + 1, 0, d.pageSize) == TokenAt(sp, 0, d.pageSize) + d.pageSize;
      hide BlockOf, OffsetOf, TokenAt, Loaded;
      ghost var before := tile[..];
      if TokenAt(group * d.SubPages() + sp, 0, d.pageSize) < d.contextLens[b] {
        PageNeeded(d, b, group, sp);
        CopyPage(d.cache[d.pageTable[b][group * d.SubPages() + sp]], tile, TokenAt(sp, 0, d.pageSize));
        PageLoaded(d, b, group, sp, before, tile[..]);
      } else {
        SkippedPage(d, b, group, sp, before);
      }
    }
    GroupIsWholePages(d, group, d.SubPages());
  }

  // ---------------------------------------------------------------- the grid

  datatype Cta = Cta(batch: nat, groupBlock: nat)

  /** ceildiv(ceildiv(max_pages, sub_pages), groups_per_cta) group blocks per query. */
  ghost predicate InGrid(d: Paged, groupsPerCta: nat, c: Cta)
    requires d.Valid() && groupsPerCta > 0
  {
    SubPagesPositive(d);
    c.batch < |d.q| && c.groupBlock < CeilDiv(CeilDiv(d.maxPages, d.SubPages()), groupsPerCta)
  }

  lemma SubPagesPositive(d: Paged)
    requires d.Valid()
    ensures d.SubPages() > 0
  {
    GroupIsWholePages(d, 0, 0);
  }

  /** The group of 64 positions a position falls in, and the CTA that handles that group. */
  ghost predicate Handles(d: Paged, groupsPerCta: nat, c: Cta, b: nat, position: nat)
    requires groupsPerCta > 0 && b < |d.contextLens|
  {
    c.batch == b && position < d.contextLens[b] && BlockOf(BlockOf(position, GROUP), groupsPerCta) == c.groupBlock
  }

  /** The grid reaches every group that holds a position of some context. */
  lemma GridReaches(d: Paged, groupsPerCta: nat, b: nat, position: nat)
    requires d.Valid() && groupsPerCta > 0 && b < |d.q| && position < d.contextLens[b]
    ensures var c := Cta(b, BlockOf(BlockOf(position, GROUP), groupsPerCta));
            InGrid(d, groupsPerCta, c) && Handles(d, groupsPerCta, c, b, position)
  {
    SubPagesPositive(d);
    var group, s, groups := BlockOf(position, GROUP), d.SubPages(), CeilDiv(d.maxPages, d.SubPages());
    CeilHolds(d.maxPages, s);
    GroupIsWholePages(d, groups, 0);
    WindowsOrdered(d.maxPages, groups * s, d.pageSize);
    BlockBelow(position, groups, GROUP);
    CeilDivCovers(groups, groupsPerCta, group);
  }

  lemma GroupPositions(group: nat, position: nat)
    ensures BlockOf(position, GROUP) == group <==>
            TokenAt(group, 0, GROUP) <= position < TokenAt(group, 0, GROUP) + GROUP
  {
    BlockBelow(position, group, GROUP);
    BlockBelow(position, group + 1, GROUP);
  }

  /** The scores of one loaded tile, stored for positions inside the context; positions past
      max_model_len are out-of-range stores and dropped. */
  method StoreGroup(d: Paged, b: nat, group: nat, tile: array<seq<real>>, scale: real, logits: array2<Logit>)
    requires d.Valid() && b < |d.q| == logits.Length0 && tile.Length == GROUP && scale != 0.0
    requires Loaded(d, b, group, tile[..], GROUP)
    modifies logits
    ensures forall r, p :: 0 <= r < logits.Length0 && 0 <= p < logits.Length1 ==>
              logits[r, p] == if r == b && BlockOf(p, GROUP) == group && p < d.contextLens[b]
                              then Fin(Score(d.q[b], d.KeyAt(b, p)) / scale) else old(logits[r, p])
  {
    var first := TokenAt(group, 0, GROUP);
    WindowsOrdered(0, group, GROUP);
    forall p: nat ensures BlockOf(p, GROUP) == group <==> first <= p < first + GROUP {
      GroupPositions(group, p);
    }
    forall p: nat | first <= p < first + GROUP && p < d.contextLens[b]
      ensures tile[p - first] == d.KeyAt(b, p)
    {
      assert tile[..][p - first] == d.KeyAt(b, first + (p - first));
    }
    hide BlockOf, OffsetOf, TokenAt, Paged.KeyAt, Score, Loaded, Paged.Valid;
    forall p | first <= p < first + GROUP && p < d.contextLens[b] && p < logits.Length1 {
      logits[b, p] := Fin(Score(d.q[b], tile[p - first]) / scale);
    }
  }

  ghost predicate Done(d: Paged, b: nat, lo: nat, hi: nat, p: nat)
    requires b < |d.contextLens|
  {
    p < d.contextLens[b] && lo <= BlockOf(p, GROUP) < hi
  }

  method RunCta(d: Paged, groupsPerCta: nat, c: Cta, tile: array<seq<real>>, scale: real, logits: array2<Logit>)
    requires d.Valid() && groupsPerCta > 0 && InGrid(d, groupsPerCta, c) && scale != 0.0
    requires |d.q| == logits.Length0 && tile.Length == GROUP
    modifies logits, tile
    ensures forall r, p :: 0 <= r < logits.Length0 && 0 <= p < logits.Length1 ==>
              logits[r, p] == if Handles(d, groupsPerCta, c, r, p)
                              then Fin(Score(d.q[r], d.KeyAt(r, p)) / scale) else old(logits[r, p])
  {
    var b, first := c.batch, c.groupBlock * groupsPerCta;
    for gi := 0 to groupsPerCta
      invariant forall r, p :: 0 <= r < logits.Length0 && 0 <= p < logits.Length1 ==>
                  logits[r, p] == if r == b && Done(d, b, first, first + gi, p)
                                  then Fin(Score(d.q[b], d.KeyAt(b, p)) / scale) else old(logits[r, p])
    {
      hide TokenAt, OffsetOf, Paged.KeyAt, Score, Loaded, Paged.Valid, Paged.SubPages;
      var group := first + gi;
      if TokenAt(group, 0, GROUP) < d.contextLens[b] {
        LoadGroup(d, b, group, tile);
        StoreGroup(d, b, group, tile, scale, logits);
      } else {
        forall p: nat | BlockOf(p, GROUP) == group ensures p >= d.contextLens[b] {
          GroupPositions(group, p);
        }
      }
    }
    forall p: nat
      ensures first <= BlockOf(p, GROUP) < first + groupsPerCta <==> BlockOf(BlockOf(p, GROUP), groupsPerCta) == c.groupBlock
    {
      BlockBelow(BlockOf(p, GROUP), c.groupBlock, groupsPerCta);
      BlockBelow(BlockOf(p, GROUP), c.groupBlock + 1, groupsPerCta);
    }
  }

  ghost predicate RunsGrid(d: Paged, groupsPerCta: nat, order: seq<Cta>)
    requires d.Valid() && groupsPerCta > 0
  {
    && (forall i :: 0 <= i < |order| ==> InGrid(d, groupsPerCta, order[i]))
    && (forall c: Cta :: InGrid(d, groupsPerCta, c) ==> c in order)
  }

  ghost predicate HandledBy(d: Paged, groupsPerCta: nat, done: seq<Cta>, b: nat, p: nat)
    requires groupsPerCta > 0 && b < |d.contextLens|
  {
    exists c :: c in done && Handles(d, groupsPerCta, c, b, p)
  }

  method RunKernel(d: Paged, groupsPerCta: nat, order: seq<Cta>, scale: real, logits: array2<Logit>)
    requires d.Valid() && groupsPerCta > 0 && RunsGrid(d, groupsPerCta, order) && scale != 0.0
    requires |d.q| == logits.Length0
    modifies logits
    ensures forall r, p :: 0 <= r < logits.Length0 && 0 <= p < logits.Length1 ==>
              logits[r, p] == if p < d.contextLens[r] then Fin(Score(d.q[r], d.KeyAt(r, p)) / scale)
                              else old(logits[r, p])
  {
    var tile := new seq<real>[GROUP];
    hide Paged.Valid, Paged.KeyAt, Score, BlockOf, InGrid;
    for i := 0 to |order|
      invariant forall r, p :: 0 <= r < logits.Length0 && 0 <= p < logits.Length1 ==>
                  logits[r, p] == if HandledBy(d, groupsPerCta, order[..i], r, p)
                                  then Fin(Score(d.q[r], d.KeyAt(r, p)) / scale) else old(logits[r, p])
    {
      RunCta(d, groupsPerCta, order[i], tile, scale, logits);
      assert order[..i + 1] == order[..i] + [order[i]];
      forall r: nat, p: nat | r < |d.contextLens|
        ensures HandledBy(d, groupsPerCta, order[..i + 1], r, p) <==>
                  HandledBy(d, groupsPerCta, order[..i], r, p) || Handles(d, groupsPerCta, order[i], r, p)
      {
        assert order[i] in order[..i + 1];
      }
    }
    assert order[..|order|] == order;
    forall r: nat, p: nat | r < |d.q| && p < d.contextLens[r] ensures HandledBy(d, groupsPerCta, order, r, p) {
      GridReaches(d, groupsPerCta, r, p);
    }
  }

  // ---------------------------------------------------------------- the launcher

  /** Head counts are padded with zeros to a multiple of eight, at least eight. */
  function KernelHeads(heads: nat): (n: nat)
    ensures n >= heads && n % 8 == 0 && n >= 8
  {
    var up := (heads + 7) / 8 * 8;
    if up < 8 then 8 else up
  }

  function PadHeads(q: seq<seq<seq<real>>>, heads: nat, dim: nat): (r: seq<seq<seq<real>>>)
    ensures |r| == |q|
  {
    seq(|q|, b requires 0 <= b < |q| => q[b] + seq(KernelHeads(heads) - heads, _ => Zeros(dim)))
  }

  function PadQueries(d: Paged, heads: nat, dim: nat): (padded: Paged)
    requires d.Valid()
    ensures padded.Valid() && padded == d.(q := padded.q)
  {
    d.(q := PadHeads(d.q, heads, dim))
  }

  /** The cell holds the head sum against row p % pageSize of the page the table names for p. */
  ghost predicate HoldsKeyScore(d: Paged, scale: real, b: nat, p: nat, cell: Logit)
    requires d.pageSize > 0 && b < |d.q| && b < |d.pageTable| && scale != 0.0
  {
    && p / d.pageSize < |d.pageTable[b]| && 0 <= d.pageTable[b][p / d.pageSize] < |d.cache|
    && p % d.pageSize < |d.cache[d.pageTable[b][p / d.pageSize]]|
    && HoldsHeadSum(cell, d.q[b], d.cache[d.pageTable[b][p / d.pageSize]][p % d.pageSize], scale)
  }

  lemma ReferenceHolds(d: Paged, scale: real, b: nat, p: nat)
    requires d.Valid() && scale != 0.0 && b < |d.q| && |d.cache| > 0
    requires forall j :: 0 <= j < d.maxPages ==> d.pageTable[b][j] < |d.cache|
    ensures if p < d.contextLens[b] then HoldsKeyScore(d, scale, b, p, Reference(d, scale, b, p))
            else Reference(d, scale, b, p) == NegInf
  {
    if p < d.contextLens[b] {
      PageInRange(d, b, p);
      BlockBelow(p, d.maxPages, d.pageSize);
      ScaledScoreHolds(d.q[b], d.cache[d.pageTable[b][BlockOf(p, d.pageSize)]][OffsetOf(p, d.pageSize)], scale);
    }
  }

  /** tilelang_qsa_mqa_decode equals the reference for every context length inside the page
      table, every max_model_len, every CTA order and every number of groups per CTA. */
  method Decode(d: Paged, heads: nat, dim: nat, maxModelLen: nat, scale: real, groupsPerCta: nat, order: seq<Cta>)
    returns (logits: array2<Logit>)
    requires d.Valid() && scale != 0.0 && groupsPerCta > 0 && |d.cache| > 0
    requires forall b, j :: 0 <= b < |d.q| && 0 <= j < d.maxPages ==> d.pageTable[b][j] < |d.cache|
    requires RunsGrid(PadQueries(d, heads, dim), groupsPerCta, order)
    ensures fresh(logits) && logits.Length0 == |d.q| && logits.Length1 == maxModelLen
    ensures forall b, p :: 0 <= b < |d.q| && 0 <= p < maxModelLen ==> logits[b, p] == Reference(d, scale, b, p)
    ensures forall b, p :: 0 <= b < |d.q| && 0 <= p < maxModelLen ==>
              if p < d.contextLens[b] then HoldsKeyScore(d, scale, b, p, logits[b, p]) else logits[b, p] == NegInf
  {
    logits := new Logit[|d.q|, maxModelLen]((_, _) => NegInf);
    if d.q == [] || maxModelLen == 0 {
      return;
    }
    var padded := PadQueries(d, heads, dim);
    RunKernel(padded, groupsPerCta, order, scale, logits);
    forall b: nat, p: nat | b < |d.q| && p < maxModelLen ensures logits[b, p] == Reference(d, scale, b, p) {
      CellIsReference(d, heads, dim, scale, b, p);
    }
    forall b, p | 0 <= b < |d.q| && 0 <= p < maxModelLen
      ensures if p < d.contextLens[b] then HoldsKeyScore(d, scale, b, p, logits[b, p]) else logits[b, p] == NegInf
    {
      ReferenceHolds(d, scale, b, p);
    }
  }

  lemma CellIsReference(d: Paged, heads: nat, dim: nat, scale: real, b: nat, p: nat)
    requires d.Valid() && scale != 0.0 && b < |d.q| && |d.cache| > 0
    requires forall j :: 0 <= j < d.maxPages ==> d.pageTable[b][j] < |d.cache|
    ensures var padded := PadQueries(d, heads, dim);
            Reference(d, scale, b, p) ==
               if p < d.contextLens[b] then Fin(Score(padded.q[b], padded.KeyAt(b, p)) / scale) else NegInf
  {
    if p < d.contextLens[b] {
      PageInRange(d, b, p);
      ZeroHeadsKeepScore(d.q[b], KernelHeads(heads) - heads, dim, d.KeyAt(b, p));
    }
  }
}
