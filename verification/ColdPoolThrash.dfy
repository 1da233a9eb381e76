/** Within one hook tick, staging does not evict what it has just staged, exactly as long as
    the demand fits the staging slots. */
module ColdPoolThrash {
  import opened Finite
  import opened ColdPoolModel
  import opened ColdPoolSafety

  /** Rows that received an expert in the current tick. */
  function FreshRows(o: Owners): set<nat> {
    set r | r in o.rowGid && r in o.rowTick && o.rowTick[r] == o.tick
  }

  ghost predicate Fresh(o: Owners, gid: nat) {
    gid in o.gidRow && o.gidRow[gid] in FreshRows(o)
  }

  function StagingRows(c: Config): set<nat> {
    Interval(|c.keep|, c.slots)
  }

  /** With none free and fewer fresh rows than slots, the victim is not fresh. */
  lemma VictimNotFresh(c: Config, o: Owners)
    requires OwnersOk(c, o, {}) && o.free == [] && o.guarded == {} && |FreshRows(o)| < c.slots
    ensures Evictable(o.rowOrder, o.guarded) != []
    ensures Oldest(Evictable(o.rowOrder, o.guarded), o.rowTick) !in FreshRows(o)
  {
    var all := StagingRows(c);
    assert FreshRows(o) <= all;
    if all <= FreshRows(o) { SubsetSize(all, FreshRows(o)); }
    var stale :| stale in all && stale !in FreshRows(o);
    assert stale in o.rowGid && o.rowTick[stale] < o.tick;
    assert stale in Evictable(o.rowOrder, o.guarded);
  }

  lemma TakeFreeKeepsFresh(c: Config, o: Owners)
    requires OwnersOk(c, o, {}) && o.free != []
    ensures var o' := o.(free := o.free[1..]);
            && (forall g :: Fresh(o, g) ==> Fresh(o', g))
            && FreshRows(o') == FreshRows(o) && o.free[0] !in FreshRows(o)
  {
    assert o.free[0] in o.free;
  }

  lemma ReleaseKeepsFresh(o: Owners, row: nat)
    requires Inverse(o) && row in o.rowGid && row !in FreshRows(o)
    ensures var o' := Release(o, row);
            && (forall g :: Fresh(o, g) ==> Fresh(o', g))
            && FreshRows(o') == FreshRows(o)
  {
  }

  lemma PickKeepsFresh(p: Pool, full: Tensors)
    requires Safe(p, full, {}) && p.own.guarded == {} && |FreshRows(p.own)| < p.cfg.slots
    ensures PickRow(p).1.Some?
    ensures forall g :: Fresh(p.own, g) ==> Fresh(PickRow(p).0.own, g)
    ensures FreshRows(PickRow(p).0.own) == FreshRows(p.own)
    ensures PickRow(p).1.value !in FreshRows(p.own)
    ensures PickRow(p).0.own.tick == p.own.tick && PickRow(p).0.own.guarded == {}
  {
    hide TablesOk, ContentOk, ConfigOk, Mask, Partition;
    hide FreshRows, Fresh;
    if p.own.free != [] {
      TakeFreeKeepsFresh(p.cfg, p.own);
    } else {
      VictimNotFresh(p.cfg, p.own);
      var victim := Oldest(Evictable(p.own.rowOrder, p.own.guarded), p.own.rowTick);
      VictimOwned(p.cfg, p.own, victim);
      ReleaseKeepsFresh(p.own, victim);
      assert PickRow(p).0.own == Release(p.own, victim);
    }
  }

  lemma OwnKeepsFresh(o: Owners, gid: nat, row: nat)
    requires row !in FreshRows(o) && gid !in o.gidRow && row !in o.rowGid
    ensures forall g :: Fresh(o, g) ==> Fresh(Own(o, gid, row), g)
    ensures Fresh(Own(o, gid, row), gid)
    ensures FreshRows(Own(o, gid, row)) == FreshRows(o) + {row}
  {
  }

  lemma ReturnKeepsFresh(o: Owners, row: nat)
    ensures forall g :: Fresh(o, g) ==> Fresh(ReturnRow(o, row), g)
    ensures FreshRows(ReturnRow(o, row)) == FreshRows(o)
  {
  }

  lemma PickKeepsResidents(p: Pool)
    requires p.own.TicksKnown()
    ensures PickRow(p).0.own.gidRow.Keys <= p.own.gidRow.Keys
  {
  }

  lemma StageOneOwners(p: Pool, gid: nat, missing: set<Name>)
    requires p.own.TicksKnown() && gid !in p.own.gidRow && PickRow(p).1.Some?
    ensures StageOne(p, gid, missing).1
    ensures var (p1, row) := (PickRow(p).0, PickRow(p).1.value);
            var o := StageOne(p, gid, missing).0.own;
            o == Own(p1.own, gid, row) || o == ReturnRow(p1.own, row)
  {
    hide PickRow, CopyParams, Own, ReturnRow, Mask, Unmask;
  }

  /** What a staging step may do to the rows already filled in this tick. */
  ghost predicate Keeps(o: Owners, o': Owners, gid: nat) {
    && (forall g :: Fresh(o, g) ==> Fresh(o', g))
    && |FreshRows(o')| <= |FreshRows(o)| + 1
    && o'.guarded == o.guarded
    && o'.gidRow.Keys <= o.gidRow.Keys + {gid}
  }

  lemma FillKeeps(o: Owners, o1: Owners, gid: nat, row: nat)
    requires forall g :: Fresh(o, g) ==> Fresh(o1, g)
    requires FreshRows(o1) == FreshRows(o) && o1.guarded == o.guarded && o1.gidRow.Keys <= o.gidRow.Keys
    requires row !in FreshRows(o) && row !in o1.rowGid && gid !in o1.gidRow
    ensures Keeps(o, Own(o1, gid, row), gid) && Keeps(o, ReturnRow(o1, row), gid)
  {
    OwnKeepsFresh(o1, gid, row);
    ReturnKeepsFresh(o1, row);
  }

  lemma StageOneKeepsFresh(p: Pool, full: Tensors, gid: nat, missing: set<Name>)
    requires Safe(p, full, {}) && p.own.guarded == {} && |FreshRows(p.own)| < p.cfg.slots
    ensures StageOne(p, gid, missing).1 && Keeps(p.own, StageOne(p, gid, missing).0.own, gid)
  {
    hide TablesOk, ContentOk, ConfigOk, Inverse, StageOne, PickRow;
    if gid in p.own.gidRow {
      assert StageOne(p, gid, missing) == (p, true) by { StageResident(p, gid, missing); }
    } else {
      PickKeepsFresh(p, full);
      PickKeepsSafe(p, full);
      PickKeepsResidents(p);
      StageOneOwners(p, gid, missing);
      FillKeeps(p.own, PickRow(p).0.own, gid, PickRow(p).1.value);
    }
  }

  lemma StageResident(p: Pool, gid: nat, missing: set<Name>)
    requires p.own.TicksKnown() && gid in p.own.gidRow
    ensures StageOne(p, gid, missing) == (p, true)
  {
  }

  lemma {:induction false} StageAllKeepsFresh(p: Pool, full: Tensors, demand: seq<Demand>)
    requires Safe(p, full, {}) && p.own.guarded == {}
    requires |FreshRows(p.own)| + |demand| <= p.cfg.slots
    ensures forall g :: Fresh(p.own, g) ==> Fresh(StageAll(p, demand).own, g)
    ensures StageAll(p, demand).own.guarded == {}
    decreases |demand|
  {
    if demand != [] {
      StageOneKeepsFresh(p, full, demand[0].gid, demand[0].missing);
      StageOneKeepsSafe(p, full, demand[0].gid, demand[0].missing);
      StageAllKeepsFresh(StageOne(p, demand[0].gid, demand[0].missing).0, full, demand[1..]);
    }
  }

  lemma {:induction false} StageAllSplits(p: Pool, full: Tensors, demand: seq<Demand>, i: nat)
    requires Safe(p, full, {}) && p.own.guarded == {} && i <= |demand|
    requires |FreshRows(p.own)| + |demand| <= p.cfg.slots
    ensures var mid := StageAll(p, demand[..i]);
            && StageAll(p, demand) == StageAll(mid, demand[i..])
            && Safe(mid, full, {}) && mid.own.guarded == {}
            && |FreshRows(mid.own)| + |demand[i..]| <= p.cfg.slots
    decreases |demand|
  {
    hide TablesOk, ContentOk, ConfigOk, Inverse, Partition, StageOne, FreshRows, Fresh;
    if i == 0 {
      assert demand[..0] == [];
      assert demand[i..] == demand;
    } else {
      StageOneKeepsFresh(p, full, demand[0].gid, demand[0].missing);
      StageOneKeepsSafe(p, full, demand[0].gid, demand[0].missing);
      var p1 := StageOne(p, demand[0].gid, demand[0].missing).0;
      StageAllSplits(p1, full, demand[1..], i - 1);
      assert demand[..i][1..] == demand[1..][..i - 1];
      assert demand[1..][i - 1..] == demand[i..];
    }
  }

  function Advance(p: Pool): Pool {
    p.(own := p.own.(tick := p.own.tick + 1))
  }

  lemma AdvanceClearsFresh(p: Pool, full: Tensors)
    requires Safe(p, full, {})
    ensures Safe(Advance(p), full, {}) && FreshRows(Advance(p).own) == {}
  {
  }

  lemma TickSplits(p: Pool, full: Tensors, demand: seq<Demand>, i: nat)
    requires Safe(p, full, {}) && p.own.TicksKnown() && p.own.guarded == {} && i <= |demand| <= p.cfg.slots
    ensures var mid := HookTick(p, demand[..i]);
            && HookTick(p, demand) == StageAll(mid, demand[i..])
            && Safe(mid, full, {}) && |FreshRows(mid.own)| + |demand[i..]| <= p.cfg.slots
  {
    hide FreshRows, StageAll, Safe;
    AdvanceClearsFresh(p, full);
    StageAllSplits(Advance(p), full, demand, i);
  }

  /** Whatever the tick has staged after its first i demands is still resident, in the same
      tick, after any later j demands. */
  lemma NoExpertStagedInATickIsEvictedInIt(p: Pool, full: Tensors, demand: seq<Demand>, i: nat, j: nat, gid: nat)
    requires Safe(p, full, {}) && p.own.guarded == {}
    requires |demand| <= p.cfg.slots && i <= j <= |demand|
    requires Fresh(HookTick(p, demand[..i]).own, gid)
    ensures Fresh(HookTick(p, demand[..j]).own, gid)
  {
    KnowsTicks(p, full);
    hide Safe, FreshRows, Fresh, StageAll, HookTick;
    var upto := demand[..j];
    TickSplits(p, full, upto, i);
    assert upto[..i] == demand[..i];
    StageAllKeepsFresh(HookTick(p, demand[..i]), full, upto[i..]);
  }

  // ---------------------------------------------------------------- the exact bound

  lemma {:induction false} CopySucceeds(gpu: Tensors, c: Config, full: Tensors, entries: seq<(Name, Row)>, gid: nat, row: nat)
    requires EntriesOk(entries, gid, c, full) && gpu.Keys == full.Keys
    requires forall t :: t in gpu ==> row < |gpu[t]|
    ensures CopyParams(gpu, c.attrs, {}, entries, row).1
    decreases |entries|
  {
    if entries != [] {
      var (name, data) := entries[0];
      assert EntryOk(entries[0], gid, c, full);
      var t := c.attrs[name];
      assert forall k :: 0 <= k < |entries[1..]| ==> entries[1..][k] == entries[k + 1];
      CopySucceeds(gpu[t := gpu[t][row := data]], c, full, entries[1..], gid, row);
    }
  }

  lemma StagingSucceeds(p: Pool, full: Tensors, gid: nat)
    requires Safe(p, full, {}) && p.own.guarded == {} && |FreshRows(p.own)| < p.cfg.slots
    requires gid in p.cfg.host && full != map[] && gid !in p.own.gidRow
    ensures Fresh(StageOne(p, gid, {}).0.own, gid)
  {
    hide TablesOk, Inverse, ConfigOk, ContentOk, PickRow, Own, FreshRows, Fresh, CopyParams;
    PickKeepsFresh(p, full);
    PickKeepsSafe(p, full);
    PickKeepsResidents(p);
    var (p1, picked) := PickRow(p);
    HostEntriesFit(p1, full, gid);
    CopySucceeds(p1.gpu, p.cfg, full, p.cfg.host[gid], gid, picked.value);
    OwnKeepsFresh(p1.own, gid, picked.value);
  }

  lemma HostEntriesFit(p: Pool, full: Tensors, gid: nat)
    requires ConfigOk(p.cfg, full) && ContentOk(p.cfg, p.own.gidRow, p.gpu, full) && gid in p.cfg.host && full != map[]
    ensures EntriesOk(p.cfg.host[gid], gid, p.cfg, full) && p.cfg.host[gid] != []
    ensures p.gpu.Keys == full.Keys && forall t :: t in p.gpu ==> |p.gpu[t]| == p.cfg.Phys()
  {
    assert Covers(p.cfg.host[gid], p.cfg.attrs, full);
    var t :| t in full;
  }

  lemma {:induction false} ResidentsFit(gidRow: map<nat, nat>, rows: set<nat>)
    requires forall g :: g in gidRow ==> gidRow[g] in rows
    requires forall g, h :: g in gidRow && h in gidRow && gidRow[g] == gidRow[h] ==> g == h
    ensures |gidRow.Keys| <= |rows|
    decreases |gidRow.Keys|
  {
    if gidRow.Keys != {} {
      var g :| g in gidRow;
      var rest := gidRow - {g};
      assert rest.Keys == gidRow.Keys - {g};
      ResidentsFit(rest, rows - {gidRow[g]});
    }
  }

  function Gids(demand: seq<Demand>): set<nat> {
    set i | 0 <= i < |demand| :: demand[i].gid
  }

  ghost predicate DistinctGids(demand: seq<Demand>) {
    forall i, j :: 0 <= i < j < |demand| ==> demand[i].gid != demand[j].gid
  }

  lemma {:induction false} GidsSize(demand: seq<Demand>)
    requires DistinctGids(demand)
    ensures |Gids(demand)| == |demand|
    decreases |demand|
  {
    if demand != [] {
      GidsSize(demand[1..]);
      assert Gids(demand) == {demand[0].gid} + Gids(demand[1..]) by {
        assert forall i :: 0 < i < |demand| ==> demand[i] == demand[1..][i - 1];
      }
      assert demand[0].gid !in Gids(demand[1..]);
    }
  }

  lemma {:induction false} AllStaged(p: Pool, full: Tensors, demand: seq<Demand>)
    requires Safe(p, full, {}) && p.own.guarded == {} && full != map[]
    requires |FreshRows(p.own)| + |demand| <= p.cfg.slots && DistinctGids(demand)
    requires forall i :: 0 <= i < |demand| ==> demand[i].missing == {} && demand[i].gid in p.cfg.host
    requires forall i :: 0 <= i < |demand| ==> demand[i].gid !in p.own.gidRow
    ensures forall i :: 0 <= i < |demand| ==> Fresh(StageAll(p, demand).own, demand[i].gid)
    decreases |demand|
  {
    hide TablesOk, ContentOk, ConfigOk, Inverse, Partition, StageOne, FreshRows, Fresh;
    if demand != [] {
      var gid := demand[0].gid;
      StageOneKeepsSafe(p, full, gid, {});
      StageOneKeepsFresh(p, full, gid, {});
      StagingSucceeds(p, full, gid);
      var p1 := StageOne(p, gid, {}).0;
      StageAllKeepsFresh(p1, full, demand[1..]);
      AllStaged(p1, full, demand[1..]);
      forall i | 0 <= i < |demand| ensures Fresh(StageAll(p, demand).own, demand[i].gid) {
        if i > 0 { assert demand[1..][i - 1] == demand[i]; }
      }
    }
  }

  /** No more experts are resident than there are staging rows. */
  lemma ResidentsFitSlots(p: Pool, full: Tensors)
    requires Safe(p, full, {})
    ensures |p.own.gidRow.Keys| <= p.cfg.slots
  {
    ResidentsFit(p.own.gidRow, StagingRows(p.cfg));
  }

  lemma FittingDemandStays(p: Pool, full: Tensors, demand: seq<Demand>)
    requires Safe(p, full, {}) && p.own.TicksKnown() && p.own.guarded == {} && full != map[] && DistinctGids(demand)
    requires forall i :: 0 <= i < |demand| ==> demand[i].missing == {} && demand[i].gid in p.cfg.host
    requires forall i :: 0 <= i < |demand| ==> demand[i].gid !in p.own.gidRow
    requires |demand| <= p.cfg.slots
    ensures Gids(demand) <= HookTick(p, demand).own.gidRow.Keys
  {
    hide FreshRows, StageAll, Safe, DistinctGids;
    AdvanceClearsFresh(p, full);
    AllStaged(Advance(p), full, demand);
  }

  lemma ResidentDemandFits(p: Pool, full: Tensors, demand: seq<Demand>)
    requires Safe(p, full, {}) && p.own.TicksKnown() && DistinctGids(demand)
    requires Gids(demand) <= HookTick(p, demand).own.gidRow.Keys
    ensures |demand| <= p.cfg.slots
  {
    hide HookTick, Safe, Gids, DistinctGids;
    HookTickKeepsSafe(p, full, demand);
    ResidentsFitSlots(HookTick(p, demand), full);
    GidsSize(demand);
    SubsetSize(Gids(demand), HookTick(p, demand).own.gidRow.Keys);
  }

  /** A tick that finds every parameter present leaves all of a distinct, unstaged demand
      resident exactly when the demand fits the slots. */
  lemma DemandResidentIffItFits(p: Pool, full: Tensors, demand: seq<Demand>)
    requires Safe(p, full, {}) && p.own.guarded == {} && full != map[] && DistinctGids(demand)
    requires forall i :: 0 <= i < |demand| ==> demand[i].missing == {} && demand[i].gid in p.cfg.host
    requires forall i :: 0 <= i < |demand| ==> demand[i].gid !in p.own.gidRow
    ensures Gids(demand) <= HookTick(p, demand).own.gidRow.Keys <==> |demand| <= p.cfg.slots
  {
    KnowsTicks(p, full);
    hide HookTick, Safe, Gids, DistinctGids;
    if |demand| <= p.cfg.slots { FittingDemandStays(p, full, demand); }
    if Gids(demand) <= HookTick(p, demand).own.gidRow.Keys { ResidentDemandFits(p, full, demand); }
  }
}
