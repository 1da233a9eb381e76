/** The value level of the expert cold pool: one layer's pool, its router tables and its
    physical rows, with each operation as a function.  ColdPoolLayer holds the mutable class
    whose methods are proved equal to these functions. */
module ColdPoolModel {
  import opened Wrappers

  type Row = seq<bv8>
  type Name = string
  type TensorId = nat
  /** Storage of every expert-sharded tensor, by tensor identity: two names bound to one
      Parameter object share one entry. */
  type Tensors = map<TensorId, seq<Row>>

  datatype Dtype = BF16 | F32 | F16

  /** torch.finfo(dtype).min */
  function FinfoMin(d: Dtype): real {
    match d
    case BF16 => -338953138925153547590470800371487866880.0
    case F32 => -340282346638528859811704183484516925440.0
    case F16 => -65504.0
  }

  /** What the shrink fixes for good: the kept experts in physical order, the number of
      experts and staging slots, the name bindings and the host copies of cold rows. */
  datatype Config = Config(
    keep: seq<nat>,
    numExperts: nat,
    slots: nat,
    attrs: map<Name, TensorId>,
    host: map<nat, seq<(Name, Row)>>)
  {
    function Phys(): nat { |keep| + slots }
  }

  /** Ownership of the staging rows. */
  datatype Owners = Owners(
    gidRow: map<nat, nat>,
    rowGid: map<nat, nat>,
    rowTick: map<nat, int>,
    rowOrder: seq<nat>,
    guarded: set<nat>,
    free: seq<nat>,
    tick: int)
  {
    /** The dict row_tick iterates in insertion order. */
    ghost predicate TicksKnown() {
      forall r :: r in rowOrder <==> r in rowTick
    }
  }

  /** A layer as the shrink leaves it: every staging row free. */
  function NothingStaged(c: Config): Owners {
    Owners(map[], map[], map[], [], {}, seq(c.slots, i => |c.keep| + i), 0)
  }

  /** What the router reads: global id to physical row, and one bias column per dtype. */
  datatype Tables = Tables(remap: seq<nat>, bias: map<Dtype, seq<real>>)

  /** Assignment to one cell; a no-op outside the sequence. */
  function SetAt<T>(s: seq<T>, i: nat, v: T): seq<T> {
    if i < |s| then s[i := v] else s
  }

  /** The remap table build_tables writes: row r for keep[r], row 0 for everything else. */
  function KeepTable(keep: seq<nat>, width: nat): (table: seq<nat>)
    ensures |table| == width
  {
    if keep == [] then seq(width, _ => 0)
    else SetAt(KeepTable(keep[..|keep| - 1], width), keep[|keep| - 1], |keep| - 1)
  }

  function KeepColumn(keep: seq<nat>, width: nat, d: Dtype): seq<real> {
    seq(width, g => if g in keep then 0.0 else FinfoMin(d))
  }

  function FreshTables(keep: seq<nat>, width: nat): Tables {
    Tables(KeepTable(keep, width), map d: Dtype | d in {BF16, F32, F16} :: KeepColumn(keep, width, d))
  }

  datatype Pool = Pool(cfg: Config, own: Owners, tables: Tables, gpu: Tensors) {
    predicate Live(gid: nat) { gid in cfg.keep || gid in own.gidRow }
  }

  function Mask(t: Tables, gid: nat): Tables {
    Tables(SetAt(t.remap, gid, 0),
           map d | d in t.bias :: SetAt(t.bias[d], gid, FinfoMin(d)))
  }

  function Unmask(t: Tables, gid: nat, row: nat): Tables {
    Tables(SetAt(t.remap, gid, row),
           map d | d in t.bias :: SetAt(t.bias[d], gid, 0.0))
  }

  function EvictRow(p: Pool, row: nat): Pool {
    if row !in p.own.rowGid then p
    else
      var gid := p.own.rowGid[row];
      p.(own := p.own.(rowGid := p.own.rowGid - {row}, gidRow := p.own.gidRow - {gid}),
         tables := Mask(p.tables, gid))
  }

  /** min(rows, key=ticks): the first row with the least tick. */
  function Oldest(rows: seq<nat>, ticks: map<nat, int>): (r: nat)
    requires |rows| > 0
    requires forall i :: 0 <= i < |rows| ==> rows[i] in ticks
    ensures r in rows
    ensures forall q :: q in rows ==> ticks[r] <= ticks[q]
  {
    if |rows| == 1 then rows[0]
    else
      var rest := Oldest(rows[1..], ticks);
      if ticks[rows[0]] <= ticks[rest] then rows[0] else rest
  }

  function Evictable(order: seq<nat>, guarded: set<nat>): (rows: seq<nat>)
    ensures forall r :: r in rows <==> r in order && r !in guarded
  {
    if order == [] then []
    else if order[0] in guarded then Evictable(order[1..], guarded)
    else [order[0]] + Evictable(order[1..], guarded)
  }

  function PickRow(p: Pool): (r: (Pool, Option<nat>))
    requires p.own.TicksKnown()
    ensures r.0.own.TicksKnown() && r.0.cfg == p.cfg && r.0.own.guarded == p.own.guarded
  {
    if p.own.free != [] then (p.(own := p.own.(free := p.own.free[1..])), Some(p.own.free[0]))
    else
      var rows := Evictable(p.own.rowOrder, p.own.guarded);
      if rows == [] then (p, None)
      else
        var victim := Oldest(rows, p.own.rowTick);
        (EvictRow(p, victim), Some(victim))
  }

  /** Whether getattr(module, name) is a tensor that has this row. */
  predicate Writable(gpu: Tensors, attrs: map<Name, TensorId>, missing: set<Name>, name: Name, row: nat) {
    name in attrs && name !in missing && attrs[name] in gpu && row < |gpu[attrs[name]]|
  }

  /** The parameter-by-parameter copy of a host row; it stops at the first parameter the
      module cannot take, leaving the earlier ones already written. */
  function CopyParams(gpu: Tensors, attrs: map<Name, TensorId>, missing: set<Name>,
                      entries: seq<(Name, Row)>, row: nat): (Tensors, bool)
  {
    if entries == [] then (gpu, true)
    else
      var (name, data) := entries[0];
      if !Writable(gpu, attrs, missing, name, row) then (gpu, false)
      else
        var t := attrs[name];
        CopyParams(gpu[t := gpu[t][row := data]], attrs, missing, entries[1..], row)
  }

  function Own(o: Owners, gid: nat, row: nat): (r: Owners)
    ensures o.TicksKnown() ==> r.TicksKnown()
  {
    o.(gidRow := o.gidRow[gid := row],
       rowGid := o.rowGid[row := gid],
       rowTick := o.rowTick[row := o.tick],
       rowOrder := if row in o.rowTick then o.rowOrder else o.rowOrder + [row])
  }

  function RowFromHost(p: Pool, gid: nat, row: nat, missing: set<Name>): (r: (Pool, bool))
    ensures p.own.TicksKnown() ==> r.0.own.TicksKnown()
    ensures r.0.cfg == p.cfg && r.0.own.guarded == p.own.guarded
  {
    if gid !in p.cfg.host || p.cfg.host[gid] == [] then (p, false)
    else
      var (gpu, ok) := CopyParams(p.gpu, p.cfg.attrs, missing, p.cfg.host[gid], row);
      if !ok then (p.(gpu := gpu), false)
      else (Pool(p.cfg, Own(p.own, gid, row), Unmask(p.tables, gid, row), gpu), true)
  }

  function ReturnRow(o: Owners, row: nat): Owners {
    if row !in o.rowGid && row !in o.free then o.(free := o.free + [row]) else o
  }

  /** One expert of the staging loop; false means the loop breaks. */
  function StageOne(p: Pool, gid: nat, missing: set<Name>): (r: (Pool, bool))
    requires p.own.TicksKnown()
    ensures r.0.own.TicksKnown()
    ensures r.0.cfg == p.cfg && r.0.own.guarded == p.own.guarded
  {
    if gid in p.own.gidRow then (p, true)
    else
      var (p1, picked) := PickRow(p);
      if picked.None? then (p1, false)
      else
        var (p2, ok) := RowFromHost(p1, gid, picked.value, missing);
        if ok then (p2, true)
        else (p2.(own := ReturnRow(p2.own, picked.value)), true)
  }

  /** A demanded expert, with the module parameters that are absent while it is staged. */
  datatype Demand = Demand(gid: nat, missing: set<Name>)

  function StageAll(p: Pool, demand: seq<Demand>): (r: Pool)
    requires p.own.TicksKnown()
    ensures r.own.TicksKnown() && r.cfg == p.cfg && r.own.guarded == p.own.guarded
    decreases |demand|
  {
    if demand == [] then p
    else
      var (p1, go) := StageOne(p, demand[0].gid, demand[0].missing);
      if go then StageAll(p1, demand[1..]) else p1
  }

  /** One hook tick of the layer: the clock advances, then the demanded experts are staged. */
  function HookTick(p: Pool, demand: seq<Demand>): (r: Pool)
    requires p.own.TicksKnown()
    ensures r.own.TicksKnown() && r.cfg == p.cfg && r.own.guarded == p.own.guarded
  {
    StageAll(p.(own := p.own.(tick := p.own.tick + 1)), demand)
  }
}
