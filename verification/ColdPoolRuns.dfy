/** Whole runs of a shrunk layer: any sequence of hook ticks, with any demand and any failed
    stagings, leaves a pool that serves every router the full table's rows. */
module ColdPoolRuns {
  import opened Finite
  import opened TopSelection
  import opened ColdPoolModel
  import opened ColdPoolSafety
  import opened ColdPoolRouting
  import opened ColdPoolThrash
  import ColdPoolLayer
  import ColdPoolShrink

  /** The pool after a run of hook ticks; forwards only read it. */
  function Run(p: Pool, ticks: seq<seq<Demand>>): (q: Pool)
    requires p.own.TicksKnown()
    ensures q.own.TicksKnown() && q.cfg == p.cfg && q.own.guarded == p.own.guarded
    decreases |ticks|
  {
    if ticks == [] then p else Run(HookTick(p, ticks[0]), ticks[1..])
  }

  lemma {:induction false} RunKeepsSafe(p: Pool, full: Tensors, ticks: seq<seq<Demand>>)
    requires Safe(p, full, {})
    ensures Safe(Run(p, ticks), full, {})
    decreases |ticks|
  {
    if ticks != [] {
      HookTickKeepsSafe(p, full, ticks[0]);
      RunKeepsSafe(HookTick(p, ticks[0]), full, ticks[1..]);
    }
  }

  lemma KeptAreLive(p: Pool)
    requires forall g :: g in p.cfg.keep ==> g < p.cfg.numExperts
    ensures |Elements(p.cfg.keep)| <= |LiveSet(p)|
  {
    forall g | g in Elements(p.cfg.keep) ensures g in LiveSet(p) {
      assert g in p.cfg.keep;
    }
    SubsetSize(Elements(p.cfg.keep), LiveSet(p));
  }

  /** In every reachable state, whatever a registered router picks from its masked logits is
      read from that expert's own original rows, through either remap lane. */
  lemma EveryForwardReadsOriginals(p: Pool, full: Tensors, ticks: seq<seq<Demand>>, d: Dtype,
                                   logits: seq<real>, picks: seq<nat>)
    requires Safe(p, full, {}) && |logits| == p.cfg.numExperts && Moderate(logits, d)
    requires 0 < |picks| <= |Elements(p.cfg.keep)|
    requires Safe(Run(p, ticks), full, {}) ==> IsTopK(ApplyKeepMask(Run(p, ticks), d, logits), picks)
    ensures ReadsOriginals(Run(p, ticks), full, picks)
  {
    var q := Run(p, ticks);
    RunKeepsSafe(p, full, ticks);
    KeptAreLive(q);
    PicksAreLiveIffEnough(q, full, d, logits, picks);
    LivePicksReadOriginals(q, full, picks);
  }

  /** The packed lane of the same forward carries the same rows. */
  lemma EveryForwardPacksTheSameRows(p: Pool, full: Tensors, ticks: seq<seq<Demand>>, id: nat, low: nat)
    requires Safe(p, full, {}) && p.cfg.Phys() <= 0x8000
    requires id < p.cfg.numExperts <= 0x8000 && low < 0x1_0000
    ensures var table := Run(p, ticks).tables.remap;
            |table| > 0 && RemapPacked(table, Pack(id, low)) == Pack(RemapTopkId(table, id), low)
  {
    var q := Run(p, ticks);
    RunKeepsSafe(p, full, ticks);
    RemapInRange(q, full);
    LanesAgreeIff(q.tables.remap, id, low);
  }

  /** Any cold expert can be served: at any time after a shrink, a tick that finds every parameter
      present leaves distinct unstaged cold experts all resident exactly when they fit the slots. */
  lemma ShrunkLayerServesDemandIffItFits(p: Pool, attrs: ColdPoolShrink.Attrs, heap: ColdPoolShrink.Heap,
                                         keep: seq<nat>, n: nat, slots: nat, ticks: seq<seq<Demand>>, demand: seq<Demand>)
    requires ColdPoolShrink.Shrunk(p, attrs, heap, keep, n, slots) && DistinctGids(demand)
    requires forall i :: 0 <= i < |demand| ==>
               demand[i].missing == {} && demand[i].gid < n && demand[i].gid !in keep
               && demand[i].gid !in Run(p, ticks).own.gidRow
    ensures Gids(demand) <= HookTick(Run(p, ticks), demand).own.gidRow.Keys <==> |demand| <= slots
  {
    var full := ColdPoolShrink.FullTensors(attrs, heap, n);
    hide Safe, ColdPoolShrink.FullTensors;
    RunKeepsSafe(p, full, ticks);
    DemandResidentIffItFits(Run(p, ticks), full, demand);
  }

  lemma RemapInRange(p: Pool, full: Tensors)
    requires Safe(p, full, {})
    ensures forall i :: 0 <= i < |p.tables.remap| ==> p.tables.remap[i] < p.cfg.Phys() || p.tables.remap[i] == 0
  {
    hide ContentOk;
  }

  /** The mutable pool goes through the same run. */
  method RunLayer(pool: ColdPoolLayer.LayerPool, ticks: seq<seq<Demand>>)
    requires pool.layer in pool.tables.remap && pool.State().own.TicksKnown()
    modifies pool, pool.tables
    ensures pool.layer in pool.tables.remap && pool.State() == Run(old(pool.State()), ticks)
  {
    hide HookTick;
    for i := 0 to |ticks|
      invariant pool.layer in pool.tables.remap && pool.State().own.TicksKnown()
      invariant Run(old(pool.State()), ticks) == Run(pool.State(), ticks[i..])
    {
      assert ticks[i..][1..] == ticks[i + 1..];
      pool.HookTick(ticks[i]);
    }
  }
}
