/** The active recurrent-state pool, the int8 checkpoint pool beside it, and the clear and copy
    that an extend forward runs before its layers read the pool. R is a conv or n-gram row. */
module CheckpointPool {
  import opened Wrappers
  import opened Finite
  import opened IndexTensors
  import Q = Int8Checkpoint
  import B = RestoreCast

  /** One slot's temporal state over all layers: its (layer, head, k-channel) columns. */
  type Columns = seq<seq<real>>

  type Packed = seq<Q.Quantized>

  // ---------------------------------------------------------------- what a slot holds

  datatype SlotState<R> = SlotState(temporal: Columns, conv: seq<R>, ple: seq<R>)

  datatype Checkpoint<R> = Checkpoint(temporal: Packed, conv: seq<R>, ple: seq<R>)

  function Pack(x: Columns, dt: Q.ScaleType): Packed {
    seq(|x|, i requires 0 <= i < |x| => Q.Quantize(x[i], dt))
  }

  /** Dequantized into the state's own type, which is the scales' type. */
  function Unpack(p: Packed, dt: Q.ScaleType): Columns {
    seq(|p|, i requires 0 <= i < |p| => Q.Restore(p[i], dt))
  }

  function Stored<R>(s: SlotState<R>, dt: Q.ScaleType): Checkpoint<R> {
    Checkpoint(Pack(s.temporal, dt), s.conv, s.ple)
  }

  function Restored<R>(c: Checkpoint<R>, dt: Q.ScaleType): SlotState<R> {
    SlotState(Unpack(c.temporal, dt), c.conv, c.ple)
  }

  /** Storing a restored state again gives the same checkpoint exactly when every column's scale is
      found again. */
  lemma StoreOfRestoreIsStoredIff<R>(s: SlotState<R>, dt: Q.ScaleType)
    requires dt.Valid() && forall i :: 0 <= i < |s.temporal| ==> Q.Restorable(Q.AbsMax(s.temporal[i]), dt)
    ensures Stored(Restored(Stored(s, dt), dt), dt) == Stored(s, dt)
            <==> forall i :: 0 <= i < |s.temporal| ==> Q.CastRecurs(Q.AbsMax(s.temporal[i]), dt)
  {
    hide Q.ScaleType.Valid, Q.Restorable, Q.Quantize, Q.Restore, Q.CastRecurs, Q.AbsMax;
    var p := Pack(s.temporal, dt);
    var again := Pack(Unpack(p, dt), dt);
    forall i | 0 <= i < |p| ensures again[i] == p[i] <==> Q.CastRecurs(Q.AbsMax(s.temporal[i]), dt) {
      Q.StoreOfRestoreIff(s.temporal[i], dt);
    }
    assert again == p <==> forall i :: 0 <= i < |p| ==> again[i] == p[i];
  }

  /** For bf16 states it always does. */
  lemma Bf16StoreOfRestoreIsStored<R>(s: SlotState<R>)
    requires forall i :: 0 <= i < |s.temporal| ==> B.IsBf16State(s.temporal[i])
    ensures Stored(Restored(Stored(s, B.Bf16()), B.Bf16()), B.Bf16()) == Stored(s, B.Bf16())
  {
    hide B.Bf16, Q.Quantize, Q.Restore, B.IsBf16State;
    var p := Pack(s.temporal, B.Bf16());
    forall i | 0 <= i < |p| ensures Q.Quantize(Unpack(p, B.Bf16())[i], B.Bf16()) == p[i] {
      B.Bf16StatesDoNotDrift(s.temporal[i]);
    }
    assert Pack(Unpack(p, B.Bf16()), B.Bf16()) == p;
  }

  // ---------------------------------------------------------------- the tensors

  ghost predicate SlotCount<T>(tensors: seq<seq<T>>, size: nat) {
    forall i :: 0 <= i < |tensors| ==> |tensors[i]| == size
  }

  function RowsAt<T>(tensors: seq<seq<T>>, slot: nat): seq<T>
    requires forall i :: 0 <= i < |tensors| ==> slot < |tensors[i]|
  {
    seq(|tensors|, i requires 0 <= i < |tensors| => tensors[i][slot])
  }

  /** Writes rows into every tensor of dst from the same tensor of src, one tensor at a time. */
  method CopyTensors<T>(dst: seq<seq<T>>, at: seq<nat>, src: seq<seq<T>>, from: seq<nat>, size: nat, srcSize: nat)
      returns (res: seq<seq<T>>)
    requires SlotCount(dst, size) && SlotCount(src, srcSize) && |src| == |dst|
    requires |at| == |from| && InRange(from, srcSize) && InRange(at, size)
    ensures SlotCount(res, size) && |res| == |dst|
    ensures forall s :: 0 <= s < size ==>
      RowsAt(res, s) == if s in at then RowsAt(src, from[IndexOf(at, s)]) else RowsAt(dst, s)
  {
    res := dst;
    for i := 0 to |dst|
      invariant |res| == |dst| && SlotCount(res, size)
      invariant forall j :: 0 <= j < i ==> res[j] == Scatter(dst[j], at, Gather(src[j], from))
      invariant forall j :: i <= j < |dst| ==> res[j] == dst[j]
    {
      res := res[i := Scatter(res[i], at, Gather(src[i], from))];
    }
  }

  /** Writes one value per tensor into the given slots of every tensor. */
  method FillTensors<T>(dst: seq<seq<T>>, at: seq<nat>, values: seq<T>, size: nat) returns (res: seq<seq<T>>)
    requires SlotCount(dst, size) && InRange(at, size) && |values| == |dst|
    ensures SlotCount(res, size) && |res| == |dst|
    ensures forall s :: 0 <= s < size ==>
      RowsAt(res, s) == if s in at then values else RowsAt(dst, s)
  {
    res := dst;
    for i := 0 to |dst|
      invariant |res| == |dst| && SlotCount(res, size)
      invariant forall j :: 0 <= j < i ==> res[j] == Scatter(dst[j], at, seq(|at|, _ => values[j]))
      invariant forall j :: i <= j < |dst| ==> res[j] == dst[j]
    {
      res := res[i := Scatter(res[i], at, seq(|at|, _ => values[i]))];
    }
  }

  // ---------------------------------------------------------------- whole runs, on values

  /** Both pools, slot by slot. */
  datatype Pools<R> = Pools(active: seq<SlotState<R>>, saved: seq<Checkpoint<R>>)

  datatype Step<R> =
    | Store(actives: seq<nat>, saves: seq<nat>)
    | Load(saves: seq<nat>, actives: seq<nat>)
    | Clear(actives: seq<nat>)
    | Copy(src: seq<nat>, dst: seq<nat>)
    | Overwrite(slot: nat, state: SlotState<R>)

  ghost predicate StepOk<R>(step: Step<R>, actives: nat, saves: nat) {
    match step
    case Store(a, c) => |a| == |c| && InRange(a, actives) && InRange(c, saves) && Distinct(c)
    case Load(c, a) => |a| == |c| && InRange(a, actives) && InRange(c, saves) && Distinct(a)
    case Clear(a) => InRange(a, actives)
    case Copy(s, d) => |s| == |d| && InRange(s, actives) && InRange(d, actives) && Distinct(d)
    case Overwrite(a, _) => a < actives
  }

  function Do<R>(p: Pools<R>, step: Step<R>, zero: SlotState<R>, dt: Q.ScaleType): (q: Pools<R>)
    requires StepOk(step, |p.active|, |p.saved|)
    ensures |q.active| == |p.active| && |q.saved| == |p.saved|
  {
    match step
    case Store(a, c) =>
      p.(saved := Scatter(p.saved, c, seq(|a|, i requires 0 <= i < |a| => Stored(p.active[a[i]], dt))))
    case Load(c, a) =>
      p.(active := Scatter(p.active, a, seq(|c|, i requires 0 <= i < |c| => Restored(p.saved[c[i]], dt))))
    case Clear(a) => p.(active := Scatter(p.active, a, seq(|a|, _ => zero)))
    case Copy(s, d) => p.(active := Scatter(p.active, d, Gather(p.active, s)))
    case Overwrite(a, state) => p.(active := p.active[a := state])
  }

  ghost predicate RunOk<R>(run: seq<Step<R>>, actives: nat, saves: nat) {
    forall i :: 0 <= i < |run| ==> StepOk(run[i], actives, saves)
  }

  function After<R>(p: Pools<R>, run: seq<Step<R>>, zero: SlotState<R>, dt: Q.ScaleType): (q: Pools<R>)
    requires RunOk(run, |p.active|, |p.saved|)
    ensures |q.active| == |p.active| && |q.saved| == |p.saved|
  {
    if run == [] then p
    else Do(After(p, run[..|run| - 1], zero, dt), run[|run| - 1], zero, dt)
  }

  /** The latest store into a checkpoint slot: the step it happened in and where in its list. */
  ghost predicate LastStore<R>(run: seq<Step<R>>, slot: nat, at: nat, j: nat) {
    && at < |run|
    && run[at].Store? && j < |run[at].saves| && run[at].saves[j] == slot
    && forall i :: at < i < |run| && run[i].Store? ==> slot !in run[i].saves
  }

  /** Whatever happened since to the active slots, a checkpoint slot holds what its last store
      put there. */
  lemma {:induction false} SavedIsLastStore<R>(p: Pools<R>, run: seq<Step<R>>, slot: nat, at: nat, j: nat,
                                               zero: SlotState<R>, dt: Q.ScaleType)
    requires RunOk(run, |p.active|, |p.saved|) && LastStore(run, slot, at, j)
    requires slot < |p.saved| && j < |run[at].actives| && run[at].actives[j] < |p.active|
    ensures After(p, run, zero, dt).saved[slot]
            == Stored(After(p, run[..at], zero, dt).active[run[at].actives[j]], dt)
    decreases |run|
  {
    var last := |run| - 1;
    var front := run[..last];
    if at < last {
      assert front[..at] == run[..at];
      SavedIsLastStore(p, front, slot, at, j, zero, dt);
    } else {
      IndexOfDistinct(run[at].saves, j);
    }
  }

  /** Restoring a checkpoint slot into an active one gives the state of its last store, exact in
      the conv and n-gram rows and reconstructed in the temporal state, and leaves every other
      active slot alone. */
  lemma RestoreGivesLastStore<R>(p: Pools<R>, run: seq<Step<R>>, load: Step<R>, k: nat,
                                 at: nat, j: nat, zero: SlotState<R>, dt: Q.ScaleType)
    requires RunOk(run, |p.active|, |p.saved|)
    requires load.Load? && StepOk(load, |p.active|, |p.saved|) && k < |load.saves|
    requires LastStore(run, load.saves[k], at, j)
    ensures j < |run[at].actives| && run[at].actives[j] < |p.active|
    ensures RunOk(run + [load], |p.active|, |p.saved|)
    ensures var source := After(p, run[..at], zero, dt).active[run[at].actives[j]];
            var before := After(p, run, zero, dt).active;
            var after := After(p, run + [load], zero, dt).active;
            && after[load.actives[k]].conv == source.conv
            && after[load.actives[k]].ple == source.ple
            && after[load.actives[k]].temporal == Unpack(Pack(source.temporal, dt), dt)
            && forall a :: 0 <= a < |after| && a !in load.actives ==> after[a] == before[a]
  {
    var whole := run + [load];
    assert whole[..|run|] == run && whole[|run|] == load;
    assert StepOk(run[at], |p.active|, |p.saved|);
    IndexOfDistinct(load.actives, k);
    SavedIsLastStore(p, run, load.saves[k], at, j, zero, dt);
  }

  // ---------------------------------------------------------------- the pools in place

  class ActivePool<R(0)> {
    const size: nat
    const zero: SlotState<R>
    var temporal: seq<Columns>
    var conv: seq<seq<R>>
    var siblings: seq<seq<R>>

    ghost predicate Valid()
      reads this
    {
      && |temporal| == size && SlotCount(conv, size) && SlotCount(siblings, size)
      && |zero.conv| == |conv| && |zero.ple| == |siblings|
    }

    function At(slot: nat): SlotState<R>
      requires Valid() && slot < size
      reads this
    {
      SlotState(temporal[slot], RowsAt(conv, slot), RowsAt(siblings, slot))
    }

    function States(): (s: seq<SlotState<R>>)
      requires Valid()
      reads this
      ensures |s| == size
    {
      seq(size, slot requires 0 <= slot < size && Valid() reads this => At(slot))
    }

    /** clear_slots: the siblings first, then conv and temporal. */
    method ClearSlots(indices: seq<nat>)
      requires Valid() && InRange(indices, size)
      modifies this
      ensures Valid() && States() == Scatter(old(States()), indices, seq(|indices|, _ => zero))
    {
      siblings := FillTensors(siblings, indices, zero.ple, size);
      conv := FillTensors(conv, indices, zero.conv, size);
      temporal := Scatter(temporal, indices, seq(|indices|, _ => zero.temporal));
    }

    /** copy_from: conv and temporal, then the siblings. */
    method CopyFrom(src: seq<nat>, dst: seq<nat>)
      requires Valid() && |src| == |dst| && InRange(src, size) && InRange(dst, size) && Distinct(dst)
      modifies this
      ensures Valid() && States() == Scatter(old(States()), dst, Gather(old(States()), src))
    {
      conv := CopyTensors(conv, dst, conv, src, size, size);
      temporal := Scatter(temporal, dst, Gather(temporal, src));
      siblings := CopyTensors(siblings, dst, siblings, src, size, size);
    }
  }

  class SavedPool<R(0)> {
    const size: nat
    const dt: Q.ScaleType
    var temporal: seq<Packed>
    var conv: seq<seq<R>>
    var mirrors: seq<seq<R>>

    ghost predicate Valid()
      reads this
    {
      |temporal| == size && SlotCount(conv, size) && SlotCount(mirrors, size)
    }

    ghost predicate Fits(pool: ActivePool<R>)
      reads this, pool
    {
      Valid() && pool.Valid() && |conv| == |pool.conv| && |mirrors| == |pool.siblings|
    }

    function At(slot: nat): Checkpoint<R>
      requires Valid() && slot < size
      reads this
    {
      Checkpoint(temporal[slot], RowsAt(conv, slot), RowsAt(mirrors, slot))
    }

    function Slots(): (s: seq<Checkpoint<R>>)
      requires Valid()
      reads this
      ensures |s| == size
    {
      seq(size, slot requires 0 <= slot < size && Valid() reads this => At(slot))
    }

    function Both(pool: ActivePool<R>): Pools<R>
      requires Fits(pool)
      reads this, pool
    {
      Pools(pool.States(), Slots())
    }

    method StoreFromActive(pool: ActivePool<R>, actives: seq<nat>, saves: seq<nat>)
      requires Fits(pool) && StepOk(Step<R>.Store(actives, saves), pool.size, size)
      modifies this
      ensures Fits(pool)
      ensures Both(pool) == Do(old(Both(pool)), Store(actives, saves), pool.zero, dt)
    {
      temporal := Scatter(temporal, saves,
        seq(|actives|, i requires 0 <= i < |actives| && InRange(actives, pool.size) && pool.Valid() reads pool =>
          Pack(pool.temporal[actives[i]], dt)));
      conv := CopyTensors(conv, saves, pool.conv, actives, size, pool.size);
      mirrors := CopyTensors(mirrors, saves, pool.siblings, actives, size, pool.size);
    }

    method LoadToActive(pool: ActivePool<R>, saves: seq<nat>, actives: seq<nat>)
      requires Fits(pool) && StepOk(Step<R>.Load(saves, actives), pool.size, size)
      modifies pool
      ensures Fits(pool)
      ensures Both(pool) == Do(old(Both(pool)), Load(saves, actives), pool.zero, dt)
    {
      pool.temporal := Scatter(pool.temporal, actives,
        seq(|saves|, i requires 0 <= i < |saves| && InRange(saves, size) && Valid() reads this => Unpack(temporal[saves[i]], dt)));
      pool.conv := CopyTensors(pool.conv, actives, conv, saves, pool.size, size);
      pool.siblings := CopyTensors(pool.siblings, actives, mirrors, saves, pool.size, size);
    }
  }

  // ---------------------------------------------------------------- the deferred clear and copy

  class ForwardBatch {
    const extend: bool
    const targetVerify: bool
    const draftExtend: bool
    var clearIndices: Option<seq<nat>>
    var copySrc: Option<seq<nat>>
    var copyDst: Option<seq<nat>>

    constructor (extend: bool, targetVerify: bool, draftExtend: bool,
                 clearIndices: Option<seq<nat>>, copySrc: Option<seq<nat>>, copyDst: Option<seq<nat>>)
      ensures this.extend == extend && this.targetVerify == targetVerify && this.draftExtend == draftExtend
      ensures this.clearIndices == clearIndices && this.copySrc == copySrc && this.copyDst == copyDst
    {
      this.extend, this.targetVerify, this.draftExtend := extend, targetVerify, draftExtend;
      this.clearIndices, this.copySrc, this.copyDst := clearIndices, copySrc, copyDst;
    }
  }

  function Listed(indices: Option<seq<nat>>): seq<nat> {
    if indices.Some? then indices.value else []
  }

  /** The pools after the step: cleared, then copied from checkpoints or from active slots. */
  function Deferred<R>(p: Pools<R>, clear: seq<nat>, src: seq<nat>, dst: seq<nat>, int8: bool,
                       zero: SlotState<R>, dt: Q.ScaleType): Pools<R>
    requires DeferredOk(clear, src, dst, |p.active|, if int8 then |p.saved| else |p.active|)
  {
    var cleared := Do(p, Clear(clear), zero, dt);
    Do(cleared, if int8 then Load(src, dst) else Copy(src, dst), zero, dt)
  }

  ghost predicate DeferredOk(clear: seq<nat>, src: seq<nat>, dst: seq<nat>, actives: nat, sources: nat) {
    InRange(clear, actives) && |src| == |dst| && InRange(src, sources) && InRange(dst, actives) && Distinct(dst)
  }

  /** With int8 checkpoints, a slot both cleared and copied into ends with the copy, a slot only
      cleared ends zero, and no other slot changes. */
  lemma CopyWinsOverClear<R>(p: Pools<R>, clear: seq<nat>, src: seq<nat>, dst: seq<nat>,
                             zero: SlotState<R>, dt: Q.ScaleType, slot: nat)
    requires DeferredOk(clear, src, dst, |p.active|, |p.saved|) && slot < |p.active|
    ensures var q := Deferred(p, clear, src, dst, true, zero, dt);
            && q.saved == p.saved
            && (forall j :: 0 <= j < |dst| && dst[j] == slot ==> q.active[slot] == Restored(p.saved[src[j]], dt))
            && (slot !in dst ==> q.active[slot] == if slot in clear then zero else p.active[slot])
  {
    forall j | 0 <= j < |dst| && dst[j] == slot ensures IndexOf(dst, slot) == j { IndexOfDistinct(dst, j); }
  }

  /** Without them, a copy gives its source as it was before the step exactly when the source is
      not among the cleared slots, or was zero already. */
  lemma CopyKeepsSourceIff<R>(p: Pools<R>, clear: seq<nat>, src: seq<nat>, dst: seq<nat>,
                              zero: SlotState<R>, dt: Q.ScaleType, j: nat)
    requires DeferredOk(clear, src, dst, |p.active|, |p.active|) && j < |dst|
    ensures Deferred(p, clear, src, dst, false, zero, dt).active[dst[j]] == p.active[src[j]]
            <==> (src[j] !in clear || p.active[src[j]] == zero)
  {
    IndexOfDistinct(dst, j);
  }

  lemma NothingListed<R>(p: Pools<R>, zero: SlotState<R>, dt: Q.ScaleType)
    ensures Do(p, Clear([]), zero, dt) == Do(p, Load([], []), zero, dt) == Do(p, Copy([], []), zero, dt) == p
  {
  }

  /** _maybe_execute_deferred_mamba_cow_and_clear */
  method DeferredStep<R(0)>(pool: ActivePool<R>, saved: SavedPool<R>, int8: bool, hybrid: bool, draftWorker: bool,
                            batch: ForwardBatch)
    requires saved.Fits(pool)
    requires batch.copySrc.Some? ==> batch.copyDst.Some?
    requires DeferredOk(Listed(batch.clearIndices), Listed(batch.copySrc),
                        if batch.copySrc.Some? then Listed(batch.copyDst) else [],
                        pool.size, if int8 then saved.size else pool.size)
    modifies pool, batch
    ensures saved.Fits(pool)
    ensures var runs := hybrid && !draftWorker && batch.extend && !batch.targetVerify && !batch.draftExtend;
      if runs then
        && saved.Both(pool) == Deferred(old(saved.Both(pool)), Listed(old(batch.clearIndices)), Listed(old(batch.copySrc)),
                                        if old(batch.copySrc).Some? then Listed(old(batch.copyDst)) else [], int8, pool.zero, saved.dt)
        && batch.clearIndices == None && batch.copySrc == None && batch.copyDst == None
      else
        && saved.Both(pool) == old(saved.Both(pool))
        && batch.clearIndices == old(batch.clearIndices) && batch.copySrc == old(batch.copySrc) && batch.copyDst == old(batch.copyDst)
  {
    if !hybrid || draftWorker || !batch.extend || batch.targetVerify || batch.draftExtend { return; }
    hide Scatter, Gather, ActivePool.States, SavedPool.Slots, InRange, Distinct;
    ghost var start := saved.Both(pool);
    ghost var zero, dt := pool.zero, saved.dt;
    ghost var clear := Listed(batch.clearIndices);
    if batch.clearIndices.Some? && |batch.clearIndices.value| > 0 {
      pool.ClearSlots(batch.clearIndices.value);
    } else {
      NothingListed(start, zero, dt);
    }
    ghost var cleared := Do(start, Clear(clear), zero, dt);
    assert saved.Both(pool) == cleared;
    if batch.copySrc.Some? && |batch.copySrc.value| > 0 {
      if int8 {
        saved.LoadToActive(pool, batch.copySrc.value, batch.copyDst.value);
      } else {
        pool.CopyFrom(batch.copySrc.value, batch.copyDst.value);
      }
    } else {
      NothingListed(cleared, zero, dt);
    }
    batch.clearIndices := None;
    batch.copySrc := None;
    batch.copyDst := None;
  }
}
