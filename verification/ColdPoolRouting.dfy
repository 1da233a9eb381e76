/** The router's side of the cold pool: the biased top-k, and the two lanes that turn global
    expert ids into physical rows. */
module ColdPoolRouting {
  import opened Finite
  import opened TopSelection
  import opened ColdPoolModel
  import opened ColdPoolSafety

  // ---------------------------------------------------------------- masked top-k

  /** apply_keep_mask: a layer with an empty keep list gets no bias column at all. */
  function ApplyKeepMask(p: Pool, d: Dtype, logits: seq<real>): (r: seq<real>)
    requires d in p.tables.bias && |p.tables.bias[d]| == |logits|
    ensures |r| == |logits|
  {
    if p.cfg.keep == [] then logits
    else seq(|logits|, i requires 0 <= i < |logits| => logits[i] + p.tables.bias[d][i])
  }

  /** x doubled k times. */
  ghost function Doubled(x: real, k: nat): real { if k == 0 then x else 2.0 * Doubled(x, k - 1) }

  lemma DoubledByte(x: real, k: nat)
    ensures Doubled(x, k + 8) == 256.0 * Doubled(x, k)
  {
    assert Doubled(x, k + 2) == 4.0 * Doubled(x, k);
    assert Doubled(x, k + 4) == 4.0 * Doubled(x, k + 2);
    assert Doubled(x, k + 6) == 4.0 * Doubled(x, k + 4);
    assert Doubled(x, k + 8) == 4.0 * Doubled(x, k + 6);
  }

  lemma {:induction false} DoubledBytes(x: real, n: nat)
    ensures Doubled(x, 8 * n) == BytesUp(x, n)
    decreases n
  {
    if n > 0 {
      DoubledBytes(x, n - 1);
      DoubledByte(x, 8 * (n - 1));
    }
  }

  ghost function BytesUp(x: real, n: nat): real { if n == 0 then x else 256.0 * BytesUp(x, n - 1) }

  /** A masked expert's bias is the lowest finite number of its dtype: minus the largest significand
      at the largest exponent. */
  lemma MaskIsLowestFinite()
    ensures FinfoMin(BF16) == -Doubled(255.0, 120)
    ensures FinfoMin(F32) == -Doubled(16777215.0, 104)
    ensures FinfoMin(F16) == -Doubled(2047.0, 5)
  {
    DoubledBytes(255.0, 15);
    DoubledBytes(16777215.0, 13);
    FifteenBytes(255.0);
    FifteenBytes(16777215.0);
    assert Doubled(2047.0, 2) == 4.0 * 2047.0;
    assert Doubled(2047.0, 4) == 4.0 * Doubled(2047.0, 2);
  }

  lemma FifteenBytes(x: real)
    ensures BytesUp(x, 13) == 20282409603651670423947251286016.0 * x
    ensures BytesUp(x, 15) == 1329227995784915872903807060280344576.0 * x
  {
    assert BytesUp(x, 2) == 65536.0 * BytesUp(x, 0);
    assert BytesUp(x, 4) == 65536.0 * BytesUp(x, 2);
    assert BytesUp(x, 6) == 65536.0 * BytesUp(x, 4);
    assert BytesUp(x, 8) == 65536.0 * BytesUp(x, 6);
    assert BytesUp(x, 10) == 65536.0 * BytesUp(x, 8);
    assert BytesUp(x, 12) == 65536.0 * BytesUp(x, 10);
    assert BytesUp(x, 13) == 256.0 * BytesUp(x, 12);
    assert BytesUp(x, 15) == 65536.0 * BytesUp(x, 13);
  }

  /** No two logits are further apart than the bias of a masked expert. */
  ghost predicate Moderate(logits: seq<real>, d: Dtype) {
    forall i, j :: 0 <= i < |logits| && 0 <= j < |logits| ==> logits[i] - logits[j] < -FinfoMin(d)
  }

  function LiveSet(p: Pool): set<nat> {
    set g | 0 <= g < p.cfg.numExperts && p.Live(g)
  }

  lemma MaskedScore(p: Pool, full: Tensors, d: Dtype, logits: seq<real>, g: nat)
    requires Safe(p, full, {}) && p.cfg.keep != [] && |logits| == p.cfg.numExperts && g < |logits|
    ensures ApplyKeepMask(p, d, logits)[g] == logits[g] + if p.Live(g) then 0.0 else FinfoMin(d)
  {
  }

  /** The picks of a masked top-k are all kept or staged experts exactly when no more experts
      are asked for than are live. */
  lemma PicksAreLiveIffEnough(p: Pool, full: Tensors, d: Dtype, logits: seq<real>, picks: seq<nat>)
    requires Safe(p, full, {}) && p.cfg.keep != []
    requires |logits| == p.cfg.numExperts && Moderate(logits, d)
    requires IsTopK(ApplyKeepMask(p, d, logits), picks)
    ensures (forall i :: 0 <= i < |picks| ==> p.Live(picks[i])) <==> |picks| <= |LiveSet(p)|
  {
    var live, picked := LiveSet(p), Elements(picks);
    DistinctSize(picks);
    if forall i :: 0 <= i < |picks| ==> p.Live(picks[i]) {
      assert picked <= live;
      SubsetSize(picked, live);
    }
    if |picks| <= |live| {
      forall i | 0 <= i < |picks| ensures p.Live(picks[i]) {
        if !p.Live(picks[i]) {
          assert picks[i] in picked && picks[i] !in live;
          if live <= picked { SubsetSize(live, picked); }
          var j :| j in live && j !in picked;
          assert j !in picks;
          MaskedScore(p, full, d, logits, j);
          MaskedScore(p, full, d, logits, picks[i]);
          assert false;
        }
      }
    }
  }

  /** Whatever the logits, a router of this layer that asks for k experts gets live ones. */
  ghost predicate AlwaysLive(p: Pool, d: Dtype, k: nat)
    requires d in p.tables.bias && |p.tables.bias[d]| == p.cfg.numExperts
  {
    forall logits: seq<real>, picks: seq<nat> ::
      |logits| == p.cfg.numExperts && Moderate(logits, d) && |picks| == k && IsTopK(ApplyKeepMask(p, d, logits), picks)
      ==> forall i :: 0 <= i < |picks| ==> p.Live(picks[i])
  }

  /** The exact condition, over every safe pool: routers get live experts only if and only if the
      layer has a mask and enough live experts, or every expert is live. */
  lemma AlwaysLiveIff(p: Pool, full: Tensors, d: Dtype, k: nat)
    requires Safe(p, full, {}) && 0 < k <= p.cfg.numExperts
    ensures AlwaysLive(p, d, k)
            <==> (p.cfg.keep != [] && k <= |LiveSet(p)|) || (forall g :: 0 <= g < p.cfg.numExperts ==> p.Live(g))
  {
    hide Safe;
    TablesFit(p, full, d);
    if forall g :: 0 <= g < p.cfg.numExperts ==> p.Live(g) {
    } else if p.cfg.keep == [] {
      var g: nat :| g < p.cfg.numExperts && !p.Live(g);
      var logits, picks := UnmaskedPick(p, full, d, g, k);
    } else if k <= |LiveSet(p)| {
      forall logits: seq<real>, picks: seq<nat> |
        |logits| == p.cfg.numExperts && Moderate(logits, d) && |picks| == k && IsTopK(ApplyKeepMask(p, d, logits), picks)
        ensures forall i :: 0 <= i < |picks| ==> p.Live(picks[i])
      {
        PicksAreLiveIffEnough(p, full, d, logits, picks);
      }
    } else {
      var logits, picks := OverflowingPick(p, full, d, k);
    }
  }

  lemma TablesFit(p: Pool, full: Tensors, d: Dtype)
    requires Safe(p, full, {})
    ensures d in p.tables.bias && |p.tables.bias[d]| == p.cfg.numExperts
  {
  }

  /** The first n ids, without g. */
  function Without(g: nat, n: nat): (s: seq<nat>)
    ensures Distinct(s) && |s| == n && forall i :: 0 <= i < |s| ==> s[i] != g && s[i] <= n
    ensures g <= n ==> forall i :: 0 <= i < |s| ==> s[i] < n + 1
  {
    seq(n, i requires 0 <= i < n => if i < g then i else i + 1)
  }

  /** A layer without a mask: the router may pick any expert at all, live or not. */
  lemma UnmaskedPick(p: Pool, full: Tensors, d: Dtype, g: nat, k: nat) returns (logits: seq<real>, picks: seq<nat>)
    requires Safe(p, full, {}) && p.cfg.keep == [] && g < p.cfg.numExperts && 0 < k <= p.cfg.numExperts
    ensures |logits| == p.cfg.numExperts && Moderate(logits, d)
    ensures |picks| == k && picks[0] == g && IsTopK(ApplyKeepMask(p, d, logits), picks)
  {
    hide Safe;
    TablesFit(p, full, d);
    logits := seq(p.cfg.numExperts, i => if i == g then 1.0 else 0.0);
    picks := [g] + Without(g, p.cfg.numExperts - 1)[..k - 1];
  }

  /** More experts asked for than are live: with equal logits some pick is masked. */
  lemma OverflowingPick(p: Pool, full: Tensors, d: Dtype, k: nat) returns (logits: seq<real>, picks: seq<nat>)
    requires Safe(p, full, {}) && p.cfg.keep != [] && |LiveSet(p)| < k <= p.cfg.numExperts
    ensures |logits| == p.cfg.numExperts && Moderate(logits, d)
    ensures |picks| == k && IsTopK(ApplyKeepMask(p, d, logits), picks)
    ensures exists i :: 0 <= i < |picks| && !p.Live(picks[i])
  {
    hide Safe;
    TablesFit(p, full, d);
    logits := seq(p.cfg.numExperts, _ => 0.0);
    picks := TopK(ApplyKeepMask(p, d, logits), k);
    PicksAreLiveIffEnough(p, full, d, logits, picks);
  }

  /** What the shrink leaves of a layer of two experts with one tensor, an empty keep list and
      one staging slot. */
  function EmptyKeepPool(spare: Row): Pool {
    Pool(Config([], 2, 1, map["w13_weight" := 0], map[0 := [("w13_weight", [1])], 1 := [("w13_weight", [2])]]),
         Owners(map[], map[], map[], [], {}, [0], 0),
         Tables([0, 0], map[BF16 := [FinfoMin(BF16), FinfoMin(BF16)],
                            F32 := [FinfoMin(F32), FinfoMin(F32)],
                            F16 := [FinfoMin(F16), FinfoMin(F16)]]),
         map[0 := [spare]])
  }

  /** A concrete case: both experts are cold, nothing is masked, and the router's pick is read
      from the uninitialised staging row. */
  lemma EmptyKeepIsNotMasked(spare: Row)
    requires spare != [1]
    ensures var p := EmptyKeepPool(spare);
            var full: Tensors := map[0 := [[1], [2]]];
            && Safe(p, full, {}) && p.cfg.keep == [] && !p.Live(0)
            && IsTopK(ApplyKeepMask(p, BF16, [1.0, 0.0]), [0])
            && !ReadsOriginal(p, full, 0)
  {
    EmptyKeepPoolIsSafe(spare);
    hide Safe;
    var p := EmptyKeepPool(spare);
    assert p.tables.remap[0] == 0 && p.gpu[0][0] == spare;
  }

  lemma EmptyKeepPoolIsSafe(spare: Row)
    ensures Safe(EmptyKeepPool(spare), map[0 := [[1], [2]]], {})
  {
    EmptyKeepTables(spare);
    EmptyKeepConfig(spare);
    hide ConfigOk, TablesOk;
    var p := EmptyKeepPool(spare);
    assert Partition(p.cfg, p.own, {}) by {
      assert p.own.free[0] == 0;
    }
  }

  lemma EmptyKeepConfig(spare: Row)
    ensures ConfigOk(EmptyKeepPool(spare).cfg, map[0 := [[1], [2]]])
  {
    var p := EmptyKeepPool(spare);
    var full: Tensors := map[0 := [[1], [2]]];
    forall g | g in p.cfg.host ensures EntriesOk(p.cfg.host[g], g, p.cfg, full) && Covers(p.cfg.host[g], p.cfg.attrs, full) {
      assert p.cfg.host[g][0].0 == "w13_weight";
    }
  }

  lemma EmptyKeepTables(spare: Row)
    ensures var p := EmptyKeepPool(spare); TablesOk(p.cfg, p.own.gidRow, p.tables)
  {
    var p := EmptyKeepPool(spare);
    forall d: Dtype ensures d in p.tables.bias && p.tables.bias[d] == [FinfoMin(d), FinfoMin(d)] {
      match d { case BF16 => case F32 => case F16 => }
    }
  }

  // ---------------------------------------------------------------- remap lanes

  /** remap_topk_ids on one id: -1 padding and ids past the table pass through. */
  function RemapTopkId(table: seq<nat>, id: int): int {
    if 0 <= id < |table| then table[id] else id
  }

  /** Two's-complement wrap of a shifted 32-bit word. */
  function Int32(x: int): int {
    var w := x % 0x1_0000_0000;
    if w < 0x8000_0000 then w else w - 0x1_0000_0000
  }

  /** remap_packed_ids on one word: the id is the high half, clamped to the table. */
  function RemapPacked(table: seq<nat>, packed: int): int
    requires |table| > 0
  {
    if packed < 0 then packed
    else
      var id := packed / 0x1_0000 % 0x1_0000;
      var row := table[if id < |table| then id else |table| - 1];
      Int32(row * 0x1_0000 + packed % 0x1_0000)
  }

  function Pack(id: int, low: int): int { id * 0x1_0000 + low }

  lemma HalvesOfWord(id: int, low: int)
    requires 0 <= id < 0x8000 && 0 <= low < 0x1_0000
    ensures Pack(id, low) / 0x1_0000 % 0x1_0000 == id && Pack(id, low) % 0x1_0000 == low
  {
  }

  /** The packed lane gives the plain lane's row, with the low half kept, exactly for ids
      inside the table (or when the clamp happens to land on the id itself): past the table the
      plain lane passes the id through and the packed lane rewrites it to the last expert's row. */
  lemma LanesAgreeIff(table: seq<nat>, id: int, low: int)
    requires |table| > 0 && 0 <= id < 0x8000 && 0 <= low < 0x1_0000
    requires forall i :: 0 <= i < |table| ==> table[i] < 0x8000
    ensures RemapPacked(table, Pack(id, low)) == Pack(RemapTopkId(table, id), low)
            <==> id < |table| || table[|table| - 1] == id
    ensures RemapPacked(table, Pack(id, low)) % 0x1_0000 == low
  {
    HalvesOfWord(id, low);
    var row := table[if id < |table| then id else |table| - 1];
    HalvesOfWord(row, low);
  }

  lemma LanesDifferPastTheTable()
    ensures RemapTopkId([1, 0], 2) == 2 && RemapPacked([1, 0], Pack(2, 7)) == Pack(0, 7)
  {
    LanesAgreeIff([1, 0], 2, 7);
    HalvesOfWord(2, 7);
    HalvesOfWord(0, 7);
  }

  /** Padding stays padding in both lanes. */
  lemma PaddingPassesThrough(table: seq<nat>, id: int, low: int)
    requires |table| > 0 && id < 0 && 0 <= low < 0x1_0000
    ensures RemapTopkId(table, id) == id && RemapPacked(table, Pack(id, low)) == Pack(id, low)
  {
  }

  // ---------------------------------------------------------------- what the kernel reads

  /** Remapped picks lead to the picked experts' original rows in every tensor, and distinct
      picks to distinct rows. */
  ghost predicate ReadsOriginals(p: Pool, full: Tensors, picks: seq<nat>) {
    && (forall i :: 0 <= i < |picks| ==> ReadsOriginal(p, full, picks[i]))
    && (forall i, j :: 0 <= i < j < |picks| ==>
          RemapTopkId(p.tables.remap, picks[i]) != RemapTopkId(p.tables.remap, picks[j]))
  }

  ghost predicate ReadsOriginal(p: Pool, full: Tensors, id: nat) {
    var row := RemapTopkId(p.tables.remap, id);
    0 <= row < p.cfg.Phys() && forall t :: t in full ==>
      t in p.gpu && id < |full[t]| && row < |p.gpu[t]| && p.gpu[t][row] == full[t][id]
  }

  lemma LiveReadsOriginal(p: Pool, full: Tensors, id: nat)
    requires Safe(p, full, {}) && id < p.cfg.numExperts && p.Live(id)
    ensures ReadsOriginal(p, full, id)
  {
  }

  lemma LiveRowsDiffer(p: Pool, full: Tensors, g: nat, h: nat)
    requires Safe(p, full, {}) && g < p.cfg.numExperts && h < p.cfg.numExperts && g != h
    requires p.Live(g) && p.Live(h)
    ensures RemapTopkId(p.tables.remap, g) != RemapTopkId(p.tables.remap, h)
  {
    hide ContentOk, ConfigOk;
  }

  lemma LivePicksReadOriginals(p: Pool, full: Tensors, picks: seq<nat>)
    requires Safe(p, full, {}) && Distinct(picks)
    requires forall i :: 0 <= i < |picks| ==> picks[i] < p.cfg.numExperts && p.Live(picks[i])
    ensures ReadsOriginals(p, full, picks)
  {
    hide Safe, ReadsOriginal;
    forall i | 0 <= i < |picks| ensures ReadsOriginal(p, full, picks[i]) {
      LiveReadsOriginal(p, full, picks[i]);
    }
    forall i, j | 0 <= i < j < |picks|
      ensures RemapTopkId(p.tables.remap, picks[i]) != RemapTopkId(p.tables.remap, picks[j])
    {
      LiveRowsDiffer(p, full, picks[i], picks[j]);
    }
  }
}
