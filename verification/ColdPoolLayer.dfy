/** The mutable pool: the router tables shared by every layer, and one layer's staging state.
    Each method is proved to do what ColdPoolModel's function of the same name says, and to
    leave the other layers' tables alone. */
module ColdPoolLayer {
  import opened Wrappers
  import Model = ColdPoolModel

  type Name = Model.Name
  type Row = Model.Row
  type Dtype = Model.Dtype

  type Remaps = map<nat, seq<nat>>
  type Columns = map<(nat, Dtype), seq<real>>

  /** No layer but this one is touched. */
  ghost predicate OnlyLayer(layer: nat, remap: Remaps, bias: Columns, remap': Remaps, bias': Columns) {
    && (forall l :: l != layer ==> (l in remap' <==> l in remap))
    && (forall l :: l != layer && l in remap ==> remap'[l] == remap[l])
    && (forall k: (nat, Dtype) :: k.0 != layer ==> (k in bias' <==> k in bias))
    && (forall k: (nat, Dtype) :: k.0 != layer && k in bias ==> bias'[k] == bias[k])
  }

  lemma OnlyLayerTwice(layer: nat, r0: Remaps, b0: Columns, r1: Remaps, b1: Columns, r2: Remaps, b2: Columns)
    requires OnlyLayer(layer, r0, b0, r1, b1) && OnlyLayer(layer, r1, b1, r2, b2)
    ensures OnlyLayer(layer, r0, b0, r2, b2)
  {
  }

  lemma OnlyLayerNothing(layer: nat, remap: Remaps, bias: Columns)
    ensures OnlyLayer(layer, remap, bias, remap, bias)
  {
  }

  function ColumnsOf(bias: Columns, layer: nat): map<Dtype, seq<real>> {
    map d: Dtype | (layer, d) in bias :: bias[(layer, d)]
  }

  lemma OtherLayerKept(layer: nat, other: nat, r0: Remaps, b0: Columns, r1: Remaps, b1: Columns)
    requires OnlyLayer(layer, r0, b0, r1, b1) && other != layer && other in r0
    ensures other in r1 && r1[other] == r0[other] && ColumnsOf(b1, other) == ColumnsOf(b0, other)
  {
    assert forall d: Dtype :: (other, d).0 != layer;
  }

  /** The remap table of each layer, and the bias column of each (layer, dtype). */
  class RouterTables {
    var remap: Remaps
    var bias: Columns

    constructor ()
      ensures remap == map[] && bias == map[]
    {
      remap, bias := map[], map[];
    }

    ghost function Of(layer: nat): Model.Tables
      reads this
      requires layer in remap
    {
      Model.Tables(remap[layer], ColumnsOf(bias, layer))
    }

    /** The loop of _mask and _unmask over every cached column of the layer. */
    method SetBias(layer: nat, gid: nat, value: Dtype -> real)
      modifies this`bias
      ensures bias == map k | k in old(bias) ::
                        if k.0 == layer then Model.SetAt(old(bias)[k], gid, value(k.1)) else old(bias)[k]
    {
      var todo := bias.Keys;
      while todo != {}
        invariant bias.Keys == old(bias).Keys && todo <= bias.Keys
        invariant forall k :: k in bias ==>
                    bias[k] == if k.0 == layer && k !in todo then Model.SetAt(old(bias)[k], gid, value(k.1))
                               else old(bias)[k]
      {
        var k :| k in todo;
        todo := todo - {k};
        if k.0 == layer {
          bias := bias[k := Model.SetAt(bias[k], gid, value(k.1))];
        }
      }
    }

    /** build_tables: one column per dtype, and the remap table filled row by row. */
    method BuildTables(layer: nat, keep: seq<nat>, width: nat)
      requires forall i :: 0 <= i < |keep| ==> keep[i] < width
      modifies this
      ensures layer in remap && Of(layer) == Model.FreshTables(keep, width)
      ensures OnlyLayer(layer, old(remap), old(bias), remap, bias)
    {
      var dtypes := [Model.BF16, Model.F32, Model.F16];
      for i := 0 to 3
        invariant OnlyLayer(layer, old(remap), old(bias), remap, bias)
        invariant forall j :: 0 <= j < i ==>
                    (layer, dtypes[j]) in bias && bias[(layer, dtypes[j])] == Model.KeepColumn(keep, width, dtypes[j])
      {
        bias := bias[(layer, dtypes[i]) := Model.KeepColumn(keep, width, dtypes[i])];
      }
      var table := seq(width, _ => 0);
      for row := 0 to |keep|
        invariant table == Model.KeepTable(keep[..row], width)
      {
        assert keep[..row + 1][..row] == keep[..row];
        table := table[keep[row] := row];
      }
      assert keep[..|keep|] == keep;
      remap := remap[layer := table];
      forall d: Dtype ensures (layer, d) in bias && bias[(layer, d)] == Model.KeepColumn(keep, width, d) {
        assert d == dtypes[0] || d == dtypes[1] || d == dtypes[2];
      }
    }

    method Mask(layer: nat, gid: nat)
      requires layer in remap
      modifies this
      ensures layer in remap && Of(layer) == Model.Mask(old(Of(layer)), gid)
      ensures OnlyLayer(layer, old(remap), old(bias), remap, bias)
    {
      remap := remap[layer := Model.SetAt(remap[layer], gid, 0)];
      SetBias(layer, gid, Model.FinfoMin);
    }

    method Unmask(layer: nat, gid: nat, row: nat)
      requires layer in remap
      modifies this
      ensures layer in remap && Of(layer) == Model.Unmask(old(Of(layer)), gid, row)
      ensures OnlyLayer(layer, old(remap), old(bias), remap, bias)
    {
      remap := remap[layer := Model.SetAt(remap[layer], gid, row)];
      SetBias(layer, gid, _ => 0.0);
    }
  }

  class LayerPool {
    const layer: nat
    const cfg: Model.Config
    const tables: RouterTables
    var gidRow: map<nat, nat>
    var rowGid: map<nat, nat>
    var rowTick: map<nat, int>
    var rowOrder: seq<nat>
    var guarded: set<nat>
    var free: seq<nat>
    var tick: int
    var gpu: Model.Tensors

    /** A layer as the shrink leaves it: nothing staged, every staging row free. */
    constructor (layer: nat, cfg: Model.Config, tables: RouterTables, gpu: Model.Tensors)
      requires layer in tables.remap
      ensures this.layer == layer && this.cfg == cfg && this.tables == tables
      ensures State() == Model.Pool(cfg, Model.NothingStaged(cfg), tables.Of(layer), gpu)
    {
      this.layer, this.cfg, this.tables, this.gpu := layer, cfg, tables, gpu;
      gidRow, rowGid, rowTick, rowOrder := map[], map[], map[], [];
      guarded, tick := {}, 0;
      free := seq(cfg.slots, i => |cfg.keep| + i);
    }

    ghost function State(): Model.Pool
      reads this, tables
      requires layer in tables.remap
    {
      Model.Pool(cfg, Owners(), tables.Of(layer), gpu)
    }

    ghost function Owners(): Model.Owners
      reads this
    {
      Model.Owners(gidRow, rowGid, rowTick, rowOrder, guarded, free, tick)
    }

    method EvictRow(row: nat)
      requires layer in tables.remap
      modifies this, tables
      ensures layer in tables.remap && State() == Model.EvictRow(old(State()), row)
      ensures OnlyLayer(layer, old(tables.remap), old(tables.bias), tables.remap, tables.bias)
    {
      if row in rowGid {
        var gid := rowGid[row];
        rowGid := rowGid - {row};
        gidRow := gidRow - {gid};
        tables.Mask(layer, gid);
      }
    }

    method PickRow() returns (picked: Option<nat>)
      requires layer in tables.remap && State().own.TicksKnown()
      modifies this, tables
      ensures layer in tables.remap
      ensures (State(), picked) == Model.PickRow(old(State()))
      ensures OnlyLayer(layer, old(tables.remap), old(tables.bias), tables.remap, tables.bias)
    {
      if free != [] {
        picked := Some(free[0]);
        free := free[1..];
        return;
      }
      var rows := Model.Evictable(rowOrder, guarded);
      if rows == [] {
        return None;
      }
      var victim := Model.Oldest(rows, rowTick);
      EvictRow(victim);
      picked := Some(victim);
    }

    method RowFromHost(gid: nat, row: nat, missing: set<Name>) returns (ok: bool)
      requires layer in tables.remap
      modifies this, tables
      ensures layer in tables.remap
      ensures (State(), ok) == Model.RowFromHost(old(State()), gid, row, missing)
      ensures OnlyLayer(layer, old(tables.remap), old(tables.bias), tables.remap, tables.bias)
    {
      hide Model.CopyParams, Model.Unmask, Model.Own, OnlyLayer, ColumnsOf;
      OnlyLayerNothing(layer, tables.remap, tables.bias);
      if gid !in cfg.host || cfg.host[gid] == [] {
        return false;
      }
      var entries := cfg.host[gid];
      ok := CopyRow(entries, row, missing);
      if ok {
        TakeRow(gid, row);
        tables.Unmask(layer, gid, row);
      }
    }

    /** The row now belongs to the expert, as of this tick. */
    method TakeRow(gid: nat, row: nat)
      modifies this`gidRow, this`rowGid, this`rowTick, this`rowOrder
      ensures Owners() == Model.Own(old(Owners()), gid, row)
    {
      gidRow := gidRow[gid := row];
      rowGid := rowGid[row := gid];
      if row !in rowTick { rowOrder := rowOrder + [row]; }
      rowTick := rowTick[row := tick];
    }

    method CopyRow(entries: seq<(Name, Row)>, row: nat, missing: set<Name>) returns (ok: bool)
      modifies this`gpu
      ensures (gpu, ok) == Model.CopyParams(old(gpu), cfg.attrs, missing, entries, row)
    {
      ok := true;
      for i := 0 to |entries|
        invariant Model.CopyParams(old(gpu), cfg.attrs, missing, entries, row)
               == Model.CopyParams(gpu, cfg.attrs, missing, entries[i..], row)
      {
        var (name, data) := entries[i];
        if !Model.Writable(gpu, cfg.attrs, missing, name, row) {
          return false;
        }
        var t := cfg.attrs[name];
        gpu := gpu[t := gpu[t][row := data]];
        assert entries[i..][1..] == entries[i + 1..];
      }
    }

    method ReturnRow(row: nat)
      requires layer in tables.remap
      modifies this`free
      ensures State() == old(State()).(own := Model.ReturnRow(old(State()).own, row))
    {
      if row !in rowGid && row !in free {
        free := free + [row];
      }
    }

    method StageOne(gid: nat, missing: set<Name>) returns (go: bool)
      requires layer in tables.remap && State().own.TicksKnown()
      modifies this, tables
      ensures layer in tables.remap
      ensures (State(), go) == Model.StageOne(old(State()), gid, missing)
      ensures OnlyLayer(layer, old(tables.remap), old(tables.bias), tables.remap, tables.bias)
    {
      hide OnlyLayer, Model.PickRow, Model.RowFromHost;
      ghost var r0, b0 := tables.remap, tables.bias;
      assert OnlyLayer(layer, r0, b0, r0, b0) by { OnlyLayerNothing(layer, r0, b0); }
      if gid in gidRow {
        return true;
      }
      var picked := PickRow();
      ghost var r1, b1 := tables.remap, tables.bias;
      if picked.None? {
        return false;
      }
      var ok := RowFromHost(gid, picked.value, missing);
      OnlyLayerTwice(layer, r0, b0, r1, b1, tables.remap, tables.bias);
      if !ok {
        ReturnRow(picked.value);
      }
      return true;
    }

    /** The layer's part of after_forward_hook, once the demanded experts are known. */
    method HookTick(demand: seq<Model.Demand>)
      requires layer in tables.remap && State().own.TicksKnown()
      modifies this, tables
      ensures layer in tables.remap && State() == Model.HookTick(old(State()), demand)
      ensures OnlyLayer(layer, old(tables.remap), old(tables.bias), tables.remap, tables.bias)
    {
      hide OnlyLayer, Model.StageOne;
      tick := tick + 1;
      ghost var start := State();
      assert OnlyLayer(layer, tables.remap, tables.bias, tables.remap, tables.bias) by { OnlyLayerNothing(layer, tables.remap, tables.bias); }
      for i := 0 to |demand|
        invariant layer in tables.remap && State().own.TicksKnown()
        invariant Model.StageAll(start, demand) == Model.StageAll(State(), demand[i..])
        invariant OnlyLayer(layer, old(tables.remap), old(tables.bias), tables.remap, tables.bias)
      {
        ghost var remap, bias := tables.remap, tables.bias;
        var go := StageOne(demand[i].gid, demand[i].missing);
        OnlyLayerTwice(layer, old(tables.remap), old(tables.bias), remap, bias, tables.remap, tables.bias);
        assert demand[i..][1..] == demand[i + 1..];
        if !go {
          return;
        }
      }
    }
  }

  /** Distinct layers over the same tables. */
  ghost predicate SharedLayers(pools: seq<LayerPool>, tables: RouterTables)
    reads tables
  {
    && (forall i :: 0 <= i < |pools| ==> pools[i].tables == tables && pools[i].layer in tables.remap)
    && (forall i, j :: 0 <= i < j < |pools| ==> pools[i] != pools[j] && pools[i].layer != pools[j].layer)
  }

  /** One layer's turn in after_forward_hook. */
  method TickLayer(pools: seq<LayerPool>, tables: RouterTables, k: nat, demand: seq<Model.Demand>)
    requires k < |pools| && SharedLayers(pools, tables) && pools[k].State().own.TicksKnown()
    modifies pools[k], tables
    ensures SharedLayers(pools, tables)
    ensures pools[k].State() == Model.HookTick(old(pools[k].State()), demand)
    ensures forall i :: 0 <= i < |pools| && i != k ==> pools[i].State() == old(pools[i].State())
  {
    hide Model.HookTick, OnlyLayer, ColumnsOf;
    ghost var remap, bias := tables.remap, tables.bias;
    pools[k].HookTick(demand);
    forall i | 0 <= i < |pools| && i != k
      ensures pools[i].layer in tables.remap && tables.Of(pools[i].layer) == old(tables.Of(pools[i].layer))
    {
      OtherLayerKept(pools[k].layer, pools[i].layer, remap, bias, tables.remap, tables.bias);
    }
  }

  /** after_forward_hook over all shrunk layers: each layer that has a stash takes its own tick,
      and only that; a layer without one is passed over, clock included. */
  method AfterForwardHook(pools: seq<LayerPool>, tables: RouterTables, demand: seq<Option<seq<Model.Demand>>>)
    requires SharedLayers(pools, tables) && |demand| == |pools|
    requires forall i :: 0 <= i < |pools| ==> pools[i].State().own.TicksKnown()
    modifies pools, tables
    ensures SharedLayers(pools, tables)
    ensures forall i :: 0 <= i < |pools| ==>
      pools[i].State() == if demand[i].Some? then Model.HookTick(old(pools[i].State()), demand[i].value)
                          else old(pools[i].State())
  {
    hide Model.HookTick;
    for k := 0 to |pools|
      invariant SharedLayers(pools, tables)
      invariant forall i :: 0 <= i < k ==>
        pools[i].State() == if demand[i].Some? then Model.HookTick(old(pools[i].State()), demand[i].value)
                            else old(pools[i].State())
      invariant forall i :: k <= i < |pools| ==> pools[i].State() == old(pools[i].State())
    {
      if demand[k].Some? { TickLayer(pools, tables, k, demand[k].value); }
    }
  }
}
