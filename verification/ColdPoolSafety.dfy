/** What every reachable state of a cold pool satisfies, and that each step keeps it, down to
    the single parameter copy inside a staging. */
module ColdPoolSafety {
  import opened ColdPoolModel

  /** The host copies are the cold experts' original rows, and cover every tensor. */
  ghost predicate ConfigOk(c: Config, full: Tensors) {
    && (forall g :: g in c.keep ==> g < c.numExperts)
    && (forall t :: t in full ==> |full[t]| == c.numExperts)
    && (forall g :: g in c.host ==> g < c.numExperts && g !in c.keep)
    && (forall g :: g in c.host ==> EntriesOk(c.host[g], g, c, full) && Covers(c.host[g], c.attrs, full))
  }

  /** Every cold expert has its host copy, as soon as there is a tensor to copy from, and no other
      expert has one. */
  ghost predicate HoldsAllCold(c: Config, full: Tensors) {
    forall g: nat :: g in c.host <==> full != map[] && g < c.numExperts && g !in c.keep
  }

  ghost predicate EntriesOk(entries: seq<(Name, Row)>, gid: nat, c: Config, full: Tensors) {
    forall i :: 0 <= i < |entries| ==> EntryOk(entries[i], gid, c, full)
  }

  ghost predicate EntryOk(e: (Name, Row), gid: nat, c: Config, full: Tensors) {
    e.0 in c.attrs && c.attrs[e.0] in full && gid < |full[c.attrs[e.0]]| && e.1 == full[c.attrs[e.0]][gid]
  }

  ghost predicate Covers(entries: seq<(Name, Row)>, attrs: map<Name, TensorId>, full: Tensors) {
    forall t :: t in full ==> exists i :: 0 <= i < |entries| && entries[i].0 in attrs && attrs[entries[i].0] == t
  }

  /** Rows [|keep|, |keep| + slots) split without overlap into free, owned and the hole (the
      row a staging in progress has taken); the two owner maps are inverse. */
  ghost predicate OwnersOk(c: Config, o: Owners, hole: set<nat>) {
    && Inverse(o)
    && (forall g :: g in o.gidRow ==> g in c.host)
    && Partition(c, o, hole)
    && TicksOk(c, o)
  }

  ghost predicate Inverse(o: Owners) {
    && (forall g :: g in o.gidRow ==> o.gidRow[g] in o.rowGid && o.rowGid[o.gidRow[g]] == g)
    && (forall r :: r in o.rowGid ==> o.rowGid[r] in o.gidRow && o.gidRow[o.rowGid[r]] == r)
  }

  ghost predicate Partition(c: Config, o: Owners, hole: set<nat>) {
    && (forall i, j :: 0 <= i < j < |o.free| ==> o.free[i] != o.free[j])
    && (forall r :: r in o.free ==> r !in o.rowGid && r !in hole)
    && (forall r :: r in hole ==> r !in o.rowGid)
    && (forall r: nat :: |c.keep| <= r < c.Phys() <==> r in o.free || r in o.rowGid || r in hole)
  }

  ghost predicate TicksOk(c: Config, o: Owners) {
    && o.TicksKnown()
    && (forall r :: r in o.rowGid ==> r in o.rowTick)
    && (forall r :: r in o.rowTick ==> |c.keep| <= r < c.Phys() && o.rowTick[r] <= o.tick)
  }

  /** The router can pick exactly the kept and staged experts, and the remap table knows each
      one's row. */
  ghost predicate TablesOk(c: Config, gidRow: map<nat, nat>, t: Tables) {
    && |t.remap| == c.numExperts
    && (forall d :: d in t.bias && |t.bias[d]| == c.numExperts)
    && (forall g :: 0 <= g < c.numExperts && g in c.keep ==> t.remap[g] < |c.keep| && c.keep[t.remap[g]] == g)
    && (forall g :: 0 <= g < c.numExperts && g in gidRow ==> t.remap[g] == gidRow[g])
    && (forall g :: 0 <= g < c.numExperts && g !in c.keep && g !in gidRow ==> t.remap[g] == 0)
    && (forall d, g :: 0 <= g < c.numExperts ==>
          t.bias[d][g] == if g in c.keep || g in gidRow then 0.0 else FinfoMin(d))
  }

  /** Every live expert's physical row is its original row, in every tensor. */
  ghost predicate ContentOk(c: Config, gidRow: map<nat, nat>, gpu: Tensors, full: Tensors) {
    && gpu.Keys == full.Keys
    && (forall t :: t in full ==> |gpu[t]| == c.Phys())
    && (forall t, i :: t in full && 0 <= i < |c.keep| ==>
          c.keep[i] < |full[t]| && gpu[t][i] == full[t][c.keep[i]])
    && (forall t, g :: t in full && g in gidRow ==>
          g < |full[t]| && gidRow[g] < |gpu[t]| && gpu[t][gidRow[g]] == full[t][g])
  }

  ghost predicate Safe(p: Pool, full: Tensors, hole: set<nat>) {
    && ConfigOk(p.cfg, full)
    && OwnersOk(p.cfg, p.own, hole)
    && TablesOk(p.cfg, p.own.gidRow, p.tables)
    && ContentOk(p.cfg, p.own.gidRow, p.gpu, full)
  }

  lemma KnowsTicks(p: Pool, full: Tensors)
    requires Safe(p, full, {})
    ensures p.own.TicksKnown()
  {
  }

  // ---------------------------------------------------------------- picking a row

  function Release(o: Owners, row: nat): Owners
    requires row in o.rowGid
  {
    o.(rowGid := o.rowGid - {row}, gidRow := o.gidRow - {o.rowGid[row]})
  }

  lemma ReleaseKeepsOwnersOk(c: Config, o: Owners, row: nat)
    requires OwnersOk(c, o, {}) && row in o.rowGid
    ensures OwnersOk(c, Release(o, row), {row})
  {
    var o' := Release(o, row);
    assert o.gidRow[o.rowGid[row]] == row;
    assert Inverse(o');
    assert Partition(c, o', {row});
    assert TicksOk(c, o');
  }

  lemma MaskKeepsTablesOk(c: Config, o: Owners, t: Tables, row: nat)
    requires TablesOk(c, o.gidRow, t) && row in o.rowGid && o.rowGid[row] in o.gidRow
    requires o.rowGid[row] !in c.keep && o.rowGid[row] < c.numExperts
    ensures TablesOk(c, Release(o, row).gidRow, Mask(t, o.rowGid[row]))
  {
  }

  lemma ReleaseKeepsContentOk(c: Config, o: Owners, gpu: Tensors, full: Tensors, row: nat)
    requires ContentOk(c, o.gidRow, gpu, full) && row in o.rowGid
    ensures ContentOk(c, Release(o, row).gidRow, gpu, full)
  {
  }

  /** Masking before the row is reused: after the eviction the tables no longer lead to it. */
  lemma EvictKeepsSafe(p: Pool, full: Tensors, row: nat)
    requires Safe(p, full, {}) && row in p.own.rowGid
    ensures Safe(EvictRow(p, row), full, {row})
  {
    var gid := p.own.rowGid[row];
    assert gid in p.own.gidRow && gid in p.cfg.host && gid !in p.cfg.keep && gid < p.cfg.numExperts;
    hide Inverse, Partition, TicksOk, TablesOk, ContentOk, ConfigOk, Mask;
    ReleaseKeepsOwnersOk(p.cfg, p.own, row);
    MaskKeepsTablesOk(p.cfg, p.own, p.tables, row);
    ReleaseKeepsContentOk(p.cfg, p.own, p.gpu, full, row);
  }

  lemma TakeFreeKeepsOwnersOk(c: Config, o: Owners)
    requires OwnersOk(c, o, {}) && o.free != []
    ensures OwnersOk(c, o.(free := o.free[1..]), {o.free[0]})
    ensures |c.keep| <= o.free[0] < c.Phys()
  {
    var o' := o.(free := o.free[1..]);
    assert o.free[0] in o.free;
    assert o.free == [o.free[0]] + o'.free;
    forall r: nat
      ensures |c.keep| <= r < c.Phys() <==> r in o'.free || r in o'.rowGid || r in {o.free[0]}
    {
      assert r in o.free <==> r == o.free[0] || r in o'.free;
    }
  }

  lemma NoneEvictable(c: Config, o: Owners)
    requires OwnersOk(c, o, {}) && o.free == [] && Evictable(o.rowOrder, o.guarded) == []
    ensures forall r: nat :: |c.keep| <= r < c.Phys() ==> r in o.guarded
  {
    forall r: nat | |c.keep| <= r < c.Phys() ensures r in o.guarded {
      assert r in o.rowGid && r in o.rowOrder;
    }
  }

  lemma VictimOwned(c: Config, o: Owners, row: nat)
    requires OwnersOk(c, o, {}) && o.free == [] && row in o.rowTick
    ensures row in o.rowGid && |c.keep| <= row < c.Phys()
  {
  }

  lemma PickKeepsSafe(p: Pool, full: Tensors)
    requires Safe(p, full, {})
    ensures var (q, picked) := PickRow(p);
            match picked
            case None => q == p && forall r: nat :: |p.cfg.keep| <= r < p.cfg.Phys() ==> r in p.own.guarded
            case Some(row) => Safe(q, full, {row}) && |p.cfg.keep| <= row < p.cfg.Phys()
  {
    hide Inverse, Partition, TablesOk, ContentOk, ConfigOk, EvictRow;
    if p.own.free != [] {
      TakeFreeKeepsOwnersOk(p.cfg, p.own);
    } else {
      var rows := Evictable(p.own.rowOrder, p.own.guarded);
      if rows == [] {
        NoneEvictable(p.cfg, p.own);
      } else {
        var victim := Oldest(rows, p.own.rowTick);
        VictimOwned(p.cfg, p.own, victim);
        EvictKeepsSafe(p, full, victim);
      }
    }
  }

  /** Least-recently-staged: a row is evicted only when none is free, and then no evictable
      row was staged earlier. */
  lemma VictimIsOldest(p: Pool, full: Tensors)
    requires Safe(p, full, {})
    ensures var (q, picked) := PickRow(p);
            match picked
            case None => q == p
            case Some(row) =>
              if p.own.free != [] then
                p.own.free == [row] + q.own.free && q.own.gidRow == p.own.gidRow && q.tables == p.tables
              else
                && row in p.own.rowGid && row !in p.own.guarded
                && (forall g :: g in p.own.gidRow && g != p.own.rowGid[row] ==>
                      g in q.own.gidRow && q.own.gidRow[g] == p.own.gidRow[g])
                && forall r :: r in p.own.rowGid && r !in p.own.guarded ==>
                     p.own.rowTick[row] <= p.own.rowTick[r]
  {
  }

  // ---------------------------------------------------------------- writing a row

  lemma CopyOneKeepsContentOk(c: Config, gidRow: map<nat, nat>, gpu: Tensors, full: Tensors,
                              t: TensorId, row: nat, data: Row)
    requires ContentOk(c, gidRow, gpu, full) && t in full && |c.keep| <= row < c.Phys()
    requires forall g :: g in gidRow ==> gidRow[g] != row
    ensures ContentOk(c, gidRow, gpu[t := gpu[t][row := data]], full)
  {
  }

  lemma CopyOneKeepsSafe(p: Pool, full: Tensors, t: TensorId, row: nat, data: Row)
    requires Safe(p, full, {row}) && t in full && row < p.cfg.Phys()
    ensures Safe(p.(gpu := p.gpu[t := p.gpu[t][row := data]]), full, {row})
  {
    assert Inverse(p.own) && Partition(p.cfg, p.own, {row});
    CopyOneKeepsContentOk(p.cfg, p.own.gidRow, p.gpu, full, t, row, data);
  }

  /** However far the copy of a row gets, every expert the router can reach still reads its
      own original row: no forward can see a half-written expert. */
  lemma {:induction false} CopyParamsKeepsSafe(p: Pool, full: Tensors, missing: set<Name>,
                                               entries: seq<(Name, Row)>, row: nat)
    requires Safe(p, full, {row})
    ensures Safe(p.(gpu := CopyParams(p.gpu, p.cfg.attrs, missing, entries, row).0), full, {row})
    decreases |entries|
  {
    if entries == [] {
      assert p.(gpu := p.gpu) == p;
    } else {
      var (name, data) := entries[0];
      if Writable(p.gpu, p.cfg.attrs, missing, name, row) {
        var t := p.cfg.attrs[name];
        var p1 := p.(gpu := p.gpu[t := p.gpu[t][row := data]]);
        CopyOneKeepsSafe(p, full, t, row, data);
        CopyParamsKeepsSafe(p1, full, missing, entries[1..], row);
      } else {
        assert p.(gpu := p.gpu) == p;
      }
    }
  }

  /** A completed copy leaves the expert's original row in every tensor an entry names, and
      what an earlier entry wrote stays. */
  lemma {:induction false} CopyParamsWrites(gpu: Tensors, c: Config, full: Tensors, missing: set<Name>,
                                            entries: seq<(Name, Row)>, gid: nat, row: nat)
    requires EntriesOk(entries, gid, c, full)
    requires forall t :: t in gpu ==> row < |gpu[t]|
    ensures var (gpu', ok) := CopyParams(gpu, c.attrs, missing, entries, row);
            && gpu'.Keys == gpu.Keys
            && (forall t :: t in gpu ==> |gpu'[t]| == |gpu[t]|)
            && (forall t :: t in gpu && t in full && gid < |full[t]| && gpu[t][row] == full[t][gid] ==>
                  gpu'[t][row] == full[t][gid])
            && (ok ==> forall i :: 0 <= i < |entries| ==>
                  c.attrs[entries[i].0] in gpu
                  && gpu'[c.attrs[entries[i].0]][row] == full[c.attrs[entries[i].0]][gid])
    decreases |entries|
  {
    if entries != [] {
      var (name, data) := entries[0];
      assert EntryOk(entries[0], gid, c, full);
      if Writable(gpu, c.attrs, missing, name, row) {
        var t := c.attrs[name];
        var gpu1 := gpu[t := gpu[t][row := data]];
        CopyParamsWrites(gpu1, c, full, missing, entries[1..], gid, row);
        var (gpu', ok) := CopyParams(gpu1, c.attrs, missing, entries[1..], row);
        assert gpu'[t][row] == full[t][gid];
        forall i | ok && 0 <= i < |entries|
          ensures c.attrs[entries[i].0] in gpu
                  && gpu'[c.attrs[entries[i].0]][row] == full[c.attrs[entries[i].0]][gid]
        {
          if i > 0 {
            assert entries[i] == entries[1..][i - 1];
          }
        }
      }
    }
  }

  /** The module has a tensor under this name with such a row. */
  ghost predicate HasRow(gpu: Tensors, attrs: map<Name, TensorId>, missing: set<Name>, name: Name, row: nat) {
    name in attrs && name !in missing && attrs[name] in gpu && row < |gpu[attrs[name]]|
  }

  /** The copy completes exactly when the module can take every entry; either way it writes no other
      row, and nothing at all past the first entry it cannot take. */
  lemma {:induction false} CopyCompletesIff(gpu: Tensors, attrs: map<Name, TensorId>, missing: set<Name>,
                                            entries: seq<(Name, Row)>, row: nat)
    ensures var (gpu', ok) := CopyParams(gpu, attrs, missing, entries, row);
            && (ok <==> forall i :: 0 <= i < |entries| ==> HasRow(gpu, attrs, missing, entries[i].0, row))
            && gpu'.Keys == gpu.Keys
            && (forall t :: t in gpu ==> |gpu'[t]| == |gpu[t]| && forall r :: 0 <= r < |gpu[t]| && r != row ==> gpu'[t][r] == gpu[t][r])
            && (entries != [] && !HasRow(gpu, attrs, missing, entries[0].0, row) ==> gpu' == gpu)
    decreases |entries|
  {
    if entries != [] && Writable(gpu, attrs, missing, entries[0].0, row) {
      var t := attrs[entries[0].0];
      var gpu1 := gpu[t := gpu[t][row := entries[0].1]];
      CopyCompletesIff(gpu1, attrs, missing, entries[1..], row);
      assert forall i :: 1 <= i < |entries| ==> entries[i] == entries[1..][i - 1];
      assert forall name :: HasRow(gpu1, attrs, missing, name, row) <==> HasRow(gpu, attrs, missing, name, row);
    }
  }

  lemma OwnKeepsOwnersOk(c: Config, o: Owners, gid: nat, row: nat)
    requires OwnersOk(c, o, {row}) && gid !in o.gidRow && gid in c.host
    ensures OwnersOk(c, Own(o, gid, row), {})
  {
    var o' := Own(o, gid, row);
    assert Inverse(o');
    assert Partition(c, o', {});
    assert TicksOk(c, o');
  }

  lemma UnmaskKeepsTablesOk(c: Config, gidRow: map<nat, nat>, t: Tables, gid: nat, row: nat)
    requires TablesOk(c, gidRow, t) && gid !in gidRow && gid !in c.keep && gid < c.numExperts
    ensures TablesOk(c, gidRow[gid := row], Unmask(t, gid, row))
  {
  }

  lemma CopiedRowIsOriginal(gpu: Tensors, c: Config, full: Tensors, missing: set<Name>, gid: nat, row: nat)
    requires gid in c.host && EntriesOk(c.host[gid], gid, c, full) && Covers(c.host[gid], c.attrs, full)
    requires gpu.Keys == full.Keys && forall t :: t in gpu ==> row < |gpu[t]|
    requires CopyParams(gpu, c.attrs, missing, c.host[gid], row).1
    ensures var gpu' := CopyParams(gpu, c.attrs, missing, c.host[gid], row).0;
            gpu'.Keys == full.Keys && forall t :: t in full ==>
              row < |gpu'[t]| && gid < |full[t]| && gpu'[t][row] == full[t][gid]
  {
    var entries := c.host[gid];
    CopyParamsWrites(gpu, c, full, missing, entries, gid, row);
    forall t | t in full
      ensures gid < |full[t]|
      ensures CopyParams(gpu, c.attrs, missing, entries, row).0[t][row] == full[t][gid]
    {
      var i :| 0 <= i < |entries| && entries[i].0 in c.attrs && c.attrs[entries[i].0] == t;
      assert EntryOk(entries[i], gid, c, full);
    }
  }

  lemma OwnKeepsContentOk(c: Config, gidRow: map<nat, nat>, gpu: Tensors, full: Tensors, gid: nat, row: nat)
    requires ContentOk(c, gidRow, gpu, full)
    requires forall t :: t in full ==> row < |gpu[t]| && gid < |full[t]| && gpu[t][row] == full[t][gid]
    ensures ContentOk(c, gidRow[gid := row], gpu, full)
  {
  }

  lemma RowFromHostKeepsSafe(p: Pool, full: Tensors, gid: nat, row: nat, missing: set<Name>)
    requires Safe(p, full, {row}) && gid !in p.own.gidRow
    ensures var (q, ok) := RowFromHost(p, gid, row, missing);
            Safe(q, full, if ok then {} else {row})
  {
    hide Inverse, TablesOk, TicksOk, Mask, Unmask;
    if gid in p.cfg.host && p.cfg.host[gid] != [] {
      var entries := p.cfg.host[gid];
      var (gpu, ok) := CopyParams(p.gpu, p.cfg.attrs, missing, entries, row);
      CopyParamsKeepsSafe(p, full, missing, entries, row);
      if ok {
        assert RowInRange(p, row) by { assert Partition(p.cfg, p.own, {row}); }
        CopiedRowIsOriginal(p.gpu, p.cfg, full, missing, gid, row);
        OwnKeepsOwnersOk(p.cfg, p.own, gid, row);
        UnmaskKeepsTablesOk(p.cfg, p.own.gidRow, p.tables, gid, row);
        OwnKeepsContentOk(p.cfg, p.own.gidRow, gpu, full, gid, row);
      }
    }
  }

  ghost predicate RowInRange(p: Pool, row: nat) { |p.cfg.keep| <= row < p.cfg.Phys() }

  lemma ReturnKeepsSafe(p: Pool, full: Tensors, row: nat)
    requires Safe(p, full, {row})
    ensures Safe(p.(own := ReturnRow(p.own, row)), full, {}) && ReturnRow(p.own, row).free == p.own.free + [row]
  {
    hide TablesOk, ContentOk, ConfigOk;
    ReturnKeepsOwnersOk(p.cfg, p.own, row);
  }

  lemma ReturnKeepsOwnersOk(c: Config, o: Owners, row: nat)
    requires OwnersOk(c, o, {row})
    ensures OwnersOk(c, ReturnRow(o, row), {}) && ReturnRow(o, row).gidRow == o.gidRow
    ensures ReturnRow(o, row).free == o.free + [row]
  {
    assert ReturnRow(o, row).free == o.free + [row];
  }

  // ---------------------------------------------------------------- whole steps

  lemma StageOneKeepsSafe(p: Pool, full: Tensors, gid: nat, missing: set<Name>)
    requires Safe(p, full, {})
    ensures Safe(StageOne(p, gid, missing).0, full, {})
  {
    hide TablesOk, ContentOk, ConfigOk, CopyParams, Mask, Unmask;
    if gid !in p.own.gidRow {
      PickKeepsSafe(p, full);
      var (p1, picked) := PickRow(p);
      if picked.Some? {
        assert gid !in p1.own.gidRow;
        RowFromHostKeepsSafe(p1, full, gid, picked.value, missing);
        var (p2, ok) := RowFromHost(p1, gid, picked.value, missing);
        if !ok { ReturnKeepsSafe(p2, full, picked.value); }
      }
    }
  }

  lemma {:induction false} StageAllKeepsSafe(p: Pool, full: Tensors, demand: seq<Demand>)
    requires Safe(p, full, {})
    ensures Safe(StageAll(p, demand), full, {})
    decreases |demand|
  {
    if demand != [] {
      StageOneKeepsSafe(p, full, demand[0].gid, demand[0].missing);
      var (p1, go) := StageOne(p, demand[0].gid, demand[0].missing);
      if go { StageAllKeepsSafe(p1, full, demand[1..]); }
    }
  }

  lemma AdvanceKeepsOwnersOk(c: Config, o: Owners)
    requires OwnersOk(c, o, {})
    ensures OwnersOk(c, o.(tick := o.tick + 1), {})
  {
  }

  lemma HookTickKeepsSafe(p: Pool, full: Tensors, demand: seq<Demand>)
    requires Safe(p, full, {})
    ensures Safe(HookTick(p, demand), full, {})
  {
    hide OwnersOk, TablesOk, ContentOk, ConfigOk, StageAll;
    var p1 := p.(own := p.own.(tick := p.own.tick + 1));
    AdvanceKeepsOwnersOk(p.cfg, p.own);
    StageAllKeepsSafe(p1, full, demand);
  }
}
