/** Whole runs of the hybrid pool: requests come and go, buffers are filled and donated, the
    prefix cache holds slots and returns them, and the pool is cleared between. */
module MambaRuns {
  import opened Wrappers
  import opened Finite
  import opened SlotLedger
  import opened MambaSlots

  datatype Op =
    | Arrive(r: Rid, inflight: nat, committed: nat)
    | Prefill(rids: seq<Rid>)
    | PrefixHit(r: Rid)
    | Fill(r: Rid, idx: nat)
    | Vacate(r: Rid, idx: nat)
    | Retrack(r: Rid, next: nat, last: nat)
    | Donate(r: Rid)
    | FreeState(r: Rid, keep: Option<int>)
    | FreeRequest(r: Rid)
    | Evict(slot: int)
    | Clear

  // ---------------------------------------------------------------- what each step does, on values

  /** The pool and the prefix cache beside it. */
  datatype Snap = Snap(reqs: Reqs, freeSlots: seq<nat>, freeMamba: seq<int>, log: Log, cached: set<int>)

  ghost function Now(pool: HybridPool, cached: set<int>): Snap
    reads pool
  {
    Snap(pool.reqs, pool.freeSlots, pool.freeMamba, pool.LogNow(), cached)
  }

  predicate HasEntry(a: Snap, r: Rid, idx: nat) {
    r in a.reqs && a.reqs[r].slot.Some? && a.reqs[r].buf.Some? && idx < |a.reqs[r].buf.value|
  }

  function WithEntry(a: Snap, r: Rid, idx: nat, slot: int): Snap
    requires HasEntry(a, r, idx)
  {
    var was := a.reqs[r].buf.value[idx];
    a.(reqs := a.reqs[r := a.reqs[r].(buf := Some(a.reqs[r].buf.value[idx := slot]))],
       cached := if was == -1 then a.cached else a.cached + {was})
  }

  /** A fresh slot in a buffer entry; the entry's old slot goes to the cache. */
  function Swapped(a: Snap, r: Rid, idx: nat): Snap {
    if HasEntry(a, r, idx) && a.freeMamba != [] then WithEntry(a, r, idx, a.freeMamba[0]).(freeMamba := a.freeMamba[1..])
    else a
  }

  function Kept(buf: seq<int>, toFree: seq<int>): set<int> {
    set s | s in buf && s != -1 && s !in toFree
  }

  function StateFreed(pool: HybridPool, a: Snap, r: Rid, keep: Option<int>): Snap {
    if r !in a.reqs || a.reqs[r].mamba.None? then a
    else
      var req := a.reqs[r];
      var working := a.(reqs := a.reqs[r := req.(mamba := None)], freeMamba := a.freeMamba + [req.mamba.value]);
      if !pool.extra then working
      else if req.slot.None? || req.buf.None? || |req.buf.value| != pool.bufSize || !(1 <= pool.bufSize <= 2) then a
      else
        match pool.ToFree(req.buf.value, keep)
        case Err(_) => working
        case Ok(toFree) =>
          a.(reqs := a.reqs[r := req.(mamba := None, buf := None, nextTrack := None, lastTrack := None)],
             freeMamba := a.freeMamba + [req.mamba.value] + toFree,
             cached := a.cached + Kept(req.buf.value, toFree))
  }

  /** Every step but a prefill, which is not a function of the state alone. */
  function Next(pool: HybridPool, a: Snap, op: Op): Snap
    requires !op.Prefill?
  {
    match op
    case Arrive(r, inflight, committed) =>
      if r in a.reqs then a else a.(reqs := a.reqs[r := NewReq(inflight, committed)])
    case PrefixHit(r) =>
      if r in a.reqs && a.reqs[r].slot.None? && a.reqs[r].mamba.None? && a.freeMamba != []
      then a.(reqs := a.reqs[r := a.reqs[r].(mamba := Some(a.freeMamba[0]))], freeMamba := a.freeMamba[1..])
      else a
    case Fill(r, idx) => Swapped(a, r, idx)
    case Vacate(r, idx) => if pool.lazy && HasEntry(a, r, idx) then WithEntry(a, r, idx, -1) else a
    case Retrack(r, next, last) =>
      if HasEntry(a, r, next) && HasEntry(a, r, last)
      then a.(reqs := a.reqs[r := a.reqs[r].(nextTrack := Some(next), lastTrack := Some(last))])
      else a
    case Donate(r) => if r in a.reqs && a.reqs[r].lastTrack.Some? then Swapped(a, r, a.reqs[r].lastTrack.value) else a
    case FreeState(r, keep) => StateFreed(pool, a, r, keep)
    case FreeRequest(r) =>
      if r in a.reqs && a.reqs[r].slot.Some?
      then a.(reqs := a.reqs[r := a.reqs[r].(slot := None)], freeSlots := a.freeSlots + [a.reqs[r].slot.value])
      else a
    case Evict(s) => if s in a.cached then a.(freeMamba := a.freeMamba + [s], cached := a.cached - {s}) else a
    case Clear =>
      if Idle(a.reqs)
      then Snap(a.reqs, Range(pool.reqSize), Range(pool.size), Log(Zeros(pool.reqSize + 1), []), {})
      else a
  }

  predicate Known(a: Snap, rids: seq<Rid>) {
    Distinct(rids) && forall r :: r in rids ==> r in a.reqs
  }

  /** A prefill of an unknown or repeated request is not attempted; one that finds too few request
      slots changes nothing; one that succeeds gives each request its slot, then its state; one
      that fails an assertion was badly reused, empty, or short of state slots. */
  ghost predicate Prefilled(pool: HybridPool, a: Snap, rids: seq<Rid>, b: Snap, alive: bool) {
    if !Known(a, rids) then alive && b == a
    else if !alive then
      && b.cached == a.cached && b.reqs.Keys == a.reqs.Keys
      && ((exists r :: r in rids && BadlyReused(a.reqs[r])) || rids == [] || pool.TotalNeed(rids, a.reqs) > |a.freeMamba|)
    else if NewSlotsNeeded(rids, a.reqs) > |a.freeSlots| then b == a
    else
      exists mid: Reqs, ids: seq<nat> :: Served(pool, a, rids, mid, ids, b)
  }

  ghost predicate Served(pool: HybridPool, a: Snap, rids: seq<Rid>, mid: Reqs, ids: seq<nat>, b: Snap)
    requires Known(a, rids)
  {
    && NewSlotsNeeded(rids, a.reqs) <= |a.freeSlots| && pool.TotalNeed(rids, a.reqs) <= |a.freeMamba|
    && b.freeSlots == a.freeSlots[..|a.freeSlots| - NewSlotsNeeded(rids, a.reqs)]
    && b.freeMamba == a.freeMamba[pool.TotalNeed(rids, a.reqs)..]
    && b.cached == a.cached
    && TookSlots(a.reqs, mid, rids, ids, a.log, b.log)
    && pool.GotStates(mid, b.reqs, rids, |rids|, a.freeMamba)
  }

  ghost predicate Effect(pool: HybridPool, a: Snap, op: Op, b: Snap, alive: bool) {
    if op.Prefill? then Prefilled(pool, a, op.rids, b, alive)
    else alive && b == Next(pool, a, op) && (op.FreeState? ==> HandedOver(pool, a, op.r, op.keep, b))
  }

  /** Freeing the state of a request with a buffer: the slot of the entry to keep goes to the prefix
      cache, the slots of the others to the free list, and to no other place. */
  ghost predicate HandedOver(pool: HybridPool, a: Snap, r: Rid, keep: Option<int>, b: Snap) {
    pool.extra && r in a.reqs && a.reqs[r].mamba.Some? && a.reqs[r].slot.Some? && a.reqs[r].buf.Some?
    && (keep.Some? ==> 0 <= keep.value < |a.reqs[r].buf.value|) ==>
      var buf := a.reqs[r].buf.value;
      && r in b.reqs && b.reqs[r].mamba.None? && b.reqs[r].buf.None? && a.reqs[r].mamba.value in b.freeMamba
      && forall i :: 0 <= i < |buf| && buf[i] != -1 ==>
           if keep == Some(i) then buf[i] in b.cached && buf[i] !in b.freeMamba
           else buf[i] !in b.cached && buf[i] in b.freeMamba
  }

  // ---------------------------------------------------------------- the pool and the cache together

  /** The slots the prefix cache holds are those owned outside the pool. */
  ghost predicate CacheIs(owner: Owners, cached: set<int>) {
    forall s :: s in cached <==> s in owner && owner[s].Outside?
  }

  ghost predicate InOrder(pool: HybridPool, cached: set<int>)
    reads pool
  {
    pool.Valid() && pool.Mapped() && CacheIs(pool.owner, cached)
  }

  lemma SameCache(owner: Owners, owner': Owners, cached: set<int>)
    requires CacheIs(owner, cached) && OutsideKept(owner, owner')
    ensures CacheIs(owner', cached)
  {
  }

  predicate Idle(reqs: Reqs) {
    forall r :: r in reqs ==> HoldsNothing(reqs[r])
  }

  // ---------------------------------------------------------------- what each step does to the cache's slots

  /** A fresh slot replaces a buffer entry; what was there, if anything, goes to the cache. */
  lemma SwapCache(owner: Owners, cached: set<int>, r: Rid, idx: nat, was: int, s: int)
    requires CacheIs(owner, cached) && -1 !in owner && s in owner && owner[s].Free?
    requires was == -1 || (was in owner && Mine(owner[was], r))
    ensures CacheIs(Swap(Give(owner, [s], Outside), r, idx, was, s), if was == -1 then cached else cached + {was})
  {
  }

  lemma AdoptCache(owner: Owners, cached: set<int>, r: Rid, s: int)
    requires CacheIs(owner, cached) && s in owner && owner[s].Free?
    ensures CacheIs(Give(owner, [s], Outside)[s := Working(r)], cached)
  {
  }

  lemma FreeWorkingCache(owner: Owners, cached: set<int>, m: int)
    requires CacheIs(owner, cached) && m in owner && owner[m].Working?
    ensures CacheIs(owner[m := Free], cached)
  {
  }

  lemma FreeBufferCache(owner: Owners, cached: set<int>, r: Rid, buf: seq<int>, toFree: seq<int>)
    requires CacheIs(owner, cached) && -1 !in owner
    requires forall s :: s in buf && s != -1 ==> s in owner && Mine(owner[s], r)
    requires forall s :: s in toFree ==> s in buf && s != -1
    ensures CacheIs(Give(Give(owner, buf, Outside), toFree, Free), cached + Kept(buf, toFree))
  {
  }

  lemma EvictCache(owner: Owners, cached: set<int>, s: int)
    requires CacheIs(owner, cached)
    ensures CacheIs(Give(owner, [s], Free), cached - {s})
  {
  }

  lemma ClearCache(size: nat)
    ensures CacheIs(AllFree(size), {})
  {
  }

  lemma VacateCache(owner: Owners, cached: set<int>, r: Rid, idx: nat, was: int)
    requires CacheIs(owner, cached) && -1 !in owner
    requires was == -1 || (was in owner && Mine(owner[was], r))
    ensures CacheIs(Swap(owner, r, idx, was, -1), if was == -1 then cached else cached + {was})
  {
  }

  // ---------------------------------------------------------------- the steps

  method DoPrefill(pool: HybridPool, cached: set<int>, rids: seq<Rid>) returns (alive: bool)
    requires InOrder(pool, cached)
    modifies pool
    ensures pool.Valid() && CacheIs(pool.owner, cached) && (alive ==> pool.Mapped())
    ensures Prefilled(pool, old(Now(pool, cached)), rids, Now(pool, cached), alive)
  {
    hide HybridPool.Valid, HybridPool.Mapped, CacheIs, OutsideKept, Distinct, TookSlots, HybridPool.GotStates,
      NewSlotsNeeded, HybridPool.TotalNeed, BadlyReused;
    alive := true;
    if Distinct(rids) && forall r :: r in rids ==> r in pool.reqs {
      ghost var a, owner0 := Now(pool, cached), pool.owner;
      var res, mid := pool.Alloc(rids);
      SameCache(owner0, pool.owner, cached);
      alive := res.Ok?;
      if res.Ok? && res.value.Some? {
        assert Served(pool, a, rids, mid, res.value.value, Now(pool, cached));
      } else if res.Err? && res.error == BadReuse {
        assert res == Err(BadReuse);
      }
    }
  }

  lemma GivenIsOutside(owner: Owners, s: int)
    requires s in owner
    ensures s in Give(owner, [s], Outside) && Give(owner, [s], Outside)[s].Outside?
  {
  }

  /** What Valid says about one request's buffer. */
  lemma BookFacts(pool: HybridPool, r: Rid)
    requires pool.Valid() && r in pool.reqs
    ensures -1 !in pool.owner && -1 !in pool.freeMamba && 1 <= pool.bufSize <= 2
    ensures pool.reqs[r].buf.Some? ==>
      && |pool.reqs[r].buf.value| == pool.bufSize
      && BufOk(r, pool.reqs[r].buf.value, pool.owner, pool.bufSize, pool.lazy)
      && forall s :: s in pool.reqs[r].buf.value && s != -1 ==> s in pool.owner && Mine(pool.owner[s], r)
  {
    hide SlotsOk, GenOk, RowsOk, OwnersOk;
    if pool.reqs[r].buf.Some? {
      BufferLength(pool.reqs, pool.owner, r, pool.bufSize, pool.lazy);
      EntriesAreOwned(pool.reqs, pool.owner, r, pool.bufSize, pool.lazy);
    }
  }

  /** The caller takes a fresh slot and sets it into a buffer entry of a request. */
  method DoFill(pool: HybridPool, cached: set<int>, r: Rid, idx: nat) returns (cached': set<int>)
    requires InOrder(pool, cached) && HasEntry(Now(pool, cached), r, idx)
    modifies pool
    ensures InOrder(pool, cached') && Now(pool, cached') == Swapped(old(Now(pool, cached)), r, idx)
  {
    hide HybridPool.Valid, HybridPool.Mapped, CacheIs, Distinct, Give, Swap;
    BookFacts(pool, r);
    cached' := cached;
    ghost var owner0 := pool.owner;
    var was := pool.reqs[r].buf.value[idx];
    var got := pool.AllocMamba(1);
    if got.Some? {
      var s := got.value[0];
      assert s in got.value && got.value == [s];
      SwapCache(owner0, cached, r, idx, was, s);
      GivenIsOutside(owner0, s);
      pool.SetPingPongSlot(r, idx, s);
      cached' := if was == -1 then cached else cached + {was};
    }
  }

  /** The caller takes an entry's slot and leaves -1. */
  method DoVacate(pool: HybridPool, cached: set<int>, r: Rid, idx: nat) returns (cached': set<int>)
    requires InOrder(pool, cached) && HasEntry(Now(pool, cached), r, idx) && pool.lazy
    modifies pool
    ensures InOrder(pool, cached') && Now(pool, cached') == WithEntry(old(Now(pool, cached)), r, idx, -1)
  {
    hide HybridPool.Valid, HybridPool.Mapped, CacheIs, Distinct, Swap;
    BookFacts(pool, r);
    var was := pool.reqs[r].buf.value[idx];
    VacateCache(pool.owner, cached, r, idx, was);
    pool.SetPingPongSlot(r, idx, -1);
    cached' := if was == -1 then cached else cached + {was};
  }

  method DoDonate(pool: HybridPool, cached: set<int>, r: Rid) returns (cached': set<int>)
    requires InOrder(pool, cached) && r in pool.reqs && pool.reqs[r].lastTrack.Some?
    requires HasEntry(Now(pool, cached), r, pool.reqs[r].lastTrack.value)
    modifies pool
    ensures InOrder(pool, cached')
    ensures Now(pool, cached') == Swapped(old(Now(pool, cached)), r, old(pool.reqs[r].lastTrack.value))
  {
    hide HybridPool.Valid, HybridPool.Mapped, CacheIs, Distinct, Give, Swap;
    BookFacts(pool, r);
    cached' := cached;
    ghost var owner0 := pool.owner;
    ghost var idx := pool.reqs[r].lastTrack.value;
    ghost var was := pool.reqs[r].buf.value[idx];
    var got := pool.AllocMamba(1);
    if got.Some? {
      var s := got.value[0];
      assert s in got.value && got.value == [s];
      SwapCache(owner0, cached, r, idx, was, s);
      GivenIsOutside(owner0, s);
      var donated := pool.Donate(r, s);
      cached' := if donated == -1 then cached else cached + {donated};
    }
  }

  method DoPrefixHit(pool: HybridPool, cached: set<int>, r: Rid)
    requires InOrder(pool, cached) && r in pool.reqs && pool.reqs[r].slot.None? && pool.reqs[r].mamba.None?
    modifies pool
    ensures InOrder(pool, cached) && Now(pool, cached) == Next(pool, old(Now(pool, cached)), PrefixHit(r))
  {
    hide HybridPool.Valid, HybridPool.Mapped, CacheIs, Distinct, Give;
    ghost var owner0 := pool.owner;
    var got := pool.AllocMamba(1);
    if got.Some? {
      var s := got.value[0];
      assert s in got.value && got.value == [s];
      AdoptCache(owner0, cached, r, s);
      GivenIsOutside(owner0, s);
      pool.Adopt(r, s);
    }
  }

  method DoFreeState(pool: HybridPool, cached: set<int>, r: Rid, keep: Option<int>) returns (cached': set<int>)
    requires InOrder(pool, cached) && r in pool.reqs
    requires pool.extra ==> pool.reqs[r].slot.Some? && pool.reqs[r].buf.Some?
    modifies pool
    ensures InOrder(pool, cached') && Now(pool, cached') == StateFreed(pool, old(Now(pool, cached)), r, keep)
    ensures HandedOver(pool, old(Now(pool, cached)), r, keep, Now(pool, cached'))
  {
    hide HybridPool.Valid, HybridPool.Mapped, CacheIs, Distinct, Give, Kept, HybridPool.ToFree, TheirsToFree, BufferSettled, HandedOver;
    ghost var a := Now(pool, cached);
    BookFacts(pool, r);
    cached' := cached;
    ghost var owner0 := pool.owner;
    var req := pool.reqs[r];
    if req.mamba.Some? { WorkingIsOwned(pool, r); }
    if pool.extra && req.mamba.Some? {
      FreeWorkingCache(owner0, cached, req.mamba.value);
      var toFree := pool.ToFree(req.buf.value, keep);
      if toFree.Ok? {
        pool.ToFreeIsPart(pool.reqs, pool.owner, r, keep);
        FreeBufferCache(owner0[req.mamba.value := Free], cached, r, req.buf.value, toFree.value);
        cached' := cached + Kept(req.buf.value, toFree.value);
      }
    } else if req.mamba.Some? {
      FreeWorkingCache(owner0, cached, req.mamba.value);
    }
    var res := pool.FreeMambaCache(r, keep);
    HandOver(pool, a, r, keep, Now(pool, cached'), pool.owner);
  }

  lemma HandOver(pool: HybridPool, a: Snap, r: Rid, keep: Option<int>, b: Snap, owner: Owners)
    requires CacheIs(owner, b.cached) && r in a.reqs
    requires pool.extra && a.reqs[r].mamba.Some? && a.reqs[r].slot.Some? && a.reqs[r].buf.Some?
             && (keep.Some? ==> 0 <= keep.value < |a.reqs[r].buf.value|) ==>
               && r in b.reqs && b.reqs[r].mamba.None? && b.reqs[r].buf.None? && a.reqs[r].mamba.value in b.freeMamba
               && BufferSettled(a.reqs[r].buf.value, keep, owner, b.freeMamba)
    ensures HandedOver(pool, a, r, keep, b)
  {
  }

  lemma WorkingIsOwned(pool: HybridPool, r: Rid)
    requires pool.Valid() && r in pool.reqs && pool.reqs[r].mamba.Some?
    ensures pool.reqs[r].mamba.value in pool.owner && pool.owner[pool.reqs[r].mamba.value] == Working(r)
    ensures pool.reqs[r].buf.Some? ==> pool.reqs[r].mamba.value !in pool.reqs[r].buf.value
  {
    hide SlotsOk, GenOk, RowsOk, OwnersOk;
    assert ReqOk(r, pool.reqs[r], pool.owner, pool.bufSize, pool.lazy);
    BookFacts(pool, r);
  }

  method DoClear(pool: HybridPool, cached: set<int>)
    requires pool.Valid() && Idle(pool.reqs)
    modifies pool
    ensures InOrder(pool, {}) && Now(pool, {}) == Next(pool, old(Now(pool, cached)), Clear)
  {
    hide HybridPool.Valid, HybridPool.Mapped, CacheIs, HoldsNothing, AllFree, Range, Zeros;
    ClearCache(pool.size);
    pool.Clear();
  }

  method DoEvict(pool: HybridPool, cached: set<int>, s: int)
    requires InOrder(pool, cached) && s in cached
    modifies pool
    ensures InOrder(pool, cached - {s}) && Now(pool, cached - {s}) == Next(pool, old(Now(pool, cached)), Evict(s))
  {
    ghost var owner0 := pool.owner;
    EvictCache(owner0, cached, s);
    hide HybridPool.Valid, HybridPool.Mapped, Give;
    pool.FreeMamba([s]);
  }

  /** One step, skipped when the caller's side of it does not hold; false once alloc has failed
      an assertion, after which the scheduler is gone. */
  method Do(pool: HybridPool, cached: set<int>, op: Op) returns (cached': set<int>, alive: bool)
    requires InOrder(pool, cached)
    modifies pool
    ensures pool.Valid() && CacheIs(pool.owner, cached') && (alive ==> pool.Mapped())
    ensures Effect(pool, old(Now(pool, cached)), op, Now(pool, cached'), alive)
  {
    hide HybridPool.Valid, HybridPool.Mapped, CacheIs, HoldsNothing, AllFree, Prefilled, StateFreed, Swapped, WithEntry;
    cached', alive := cached, true;
    NotThere(pool, Now(pool, cached), op);
    match op
    case Arrive(r, inflight, committed) =>
      if r !in pool.reqs { pool.AddReq(r, inflight, committed); }
    case Prefill(rids) =>
      alive := DoPrefill(pool, cached, rids);
    case PrefixHit(r) =>
      if r in pool.reqs && pool.reqs[r].slot.None? && pool.reqs[r].mamba.None? { DoPrefixHit(pool, cached, r); }
    case Fill(r, idx) =>
      if r in pool.reqs && pool.reqs[r].slot.Some? && pool.reqs[r].buf.Some? && idx < |pool.reqs[r].buf.value| {
        cached' := DoFill(pool, cached, r, idx);
      }
    case Vacate(r, idx) =>
      if pool.lazy && r in pool.reqs && pool.reqs[r].slot.Some? && pool.reqs[r].buf.Some? && idx < |pool.reqs[r].buf.value| {
        cached' := DoVacate(pool, cached, r, idx);
      }
    case Retrack(r, next, last) =>
      if r in pool.reqs && pool.reqs[r].slot.Some? && pool.reqs[r].buf.Some?
        && next < |pool.reqs[r].buf.value| && last < |pool.reqs[r].buf.value|
      {
        pool.MoveTrack(r, next, last);
      }
    case Donate(r) =>
      if r in pool.reqs && pool.reqs[r].slot.Some? && pool.reqs[r].buf.Some? && pool.reqs[r].lastTrack.Some?
        && pool.reqs[r].lastTrack.value < |pool.reqs[r].buf.value|
      {
        cached' := DoDonate(pool, cached, r);
      }
    case FreeState(r, keep) =>
      if r in pool.reqs && (pool.extra ==> pool.reqs[r].slot.Some? && pool.reqs[r].buf.Some?) {
        cached' := DoFreeState(pool, cached, r, keep);
      }
    case FreeRequest(r) =>
      if r in pool.reqs { var res := pool.FreeSlot(r); }
    case Evict(s) =>
      if s in cached {
        DoEvict(pool, cached, s);
        cached' := cached - {s};
      }
    case Clear =>
      if Idle(pool.reqs) {
        DoClear(pool, cached);
        cached' := {};
      }
  }

  /** Steps that do not apply change nothing. */
  lemma NotThere(pool: HybridPool, a: Snap, op: Op)
    ensures (op.Fill? || op.Vacate?) && !HasEntry(a, op.r, op.idx) ==> Next(pool, a, op) == a
    ensures op.Donate? && (op.r !in a.reqs || a.reqs[op.r].lastTrack.None? || !HasEntry(a, op.r, a.reqs[op.r].lastTrack.value))
            ==> Next(pool, a, op) == a
    ensures op.FreeState? && (op.r !in a.reqs || (pool.extra && (a.reqs[op.r].slot.None? || a.reqs[op.r].buf.None?)))
            ==> Next(pool, a, op) == a
  {
  }

  // ---------------------------------------------------------------- whole runs

  /** The states a run goes through: one per step carried out, each the effect of its step. */
  ghost predicate IsTrace(pool: HybridPool, trace: seq<Snap>, ops: seq<Op>, alive: bool) {
    && 0 < |trace| <= |ops| + 1
    && (if alive then |trace| == |ops| + 1 else |trace| > 1)
    && (forall i :: 0 <= i < |trace| ==> -1 !in trace[i].freeMamba)
    && forall i :: 0 <= i < |trace| - 1 ==> Effect(pool, trace[i], ops[i], trace[i + 1], alive || i + 2 < |trace|)
  }

  /** Conservation over whole runs: the steps have their effects one after the other, and after
      any of them slots 1 to size are split between the free list, the requests' working slots,
      their buffers and the cache, with none in two places. */
  method Run(pool: HybridPool, ops: seq<Op>) returns (cached: set<int>, alive: bool, ghost trace: seq<Snap>)
    requires InOrder(pool, {})
    modifies pool
    ensures pool.Valid() && CacheIs(pool.owner, cached) && (alive ==> pool.Mapped())
    ensures IsTrace(pool, trace, ops, alive) && trace[0] == old(Now(pool, {})) && trace[|trace| - 1] == Now(pool, cached)
    ensures Distinct(pool.history)
    ensures |pool.freeMamba| + |WorkingSlots(pool.owner)|
            + |TrackingSlots(pool.owner)| + |cached| == pool.size
  {
    hide HybridPool.Valid, HybridPool.Mapped, CacheIs, WorkingSlots, TrackingSlots, Effect;
    cached, alive := {}, true;
    NoMinusOne(pool);
    trace := [Now(pool, {})];
    var i := 0;
    while i < |ops| && alive
      invariant 0 <= i <= |ops| && |trace| == i + 1
      invariant pool.Valid() && CacheIs(pool.owner, cached) && (alive ==> pool.Mapped())
      invariant trace[0] == old(Now(pool, {})) && trace[i] == Now(pool, cached)
      invariant IsTrace(pool, trace, ops[..i], alive)
    {
      assert ops[..i + 1] == ops[..i] + [ops[i]];
      ghost var before := trace;
      cached, alive := Do(pool, cached, ops[i]);
      NoMinusOne(pool);
      trace := trace + [Now(pool, cached)];
      i := i + 1;
    }
    assert ops[..|ops|] == ops;
    Counted(pool, cached);
  }

  lemma NoMinusOne(pool: HybridPool)
    requires pool.Valid()
    ensures -1 !in pool.freeMamba
  {
    hide SlotsOk, GenOk, RowsOk, OwnersOk, ReqsOk;
  }

  lemma Counted(pool: HybridPool, cached: set<int>)
    requires pool.Valid() && CacheIs(pool.owner, cached)
    ensures Distinct(pool.history)
    ensures |pool.freeMamba| + |WorkingSlots(pool.owner)|
            + |TrackingSlots(pool.owner)| + |cached| == pool.size
  {
    hide SlotsOk, RowsOk, ReqsOk, OwnersOk, FreeOk, Distinct;
    SlotsAreConserved(pool.freeMamba, pool.owner, pool.size);
    var outside := OutsideSlots(pool.owner);
    assert forall s :: s in cached <==> s in outside;
    assert cached == outside;
  }

  // ---------------------------------------------------------------- a free out of turn

  /** The shortest way to break the books, in any pool with buffers: a request arrives, a prefix hit
      gives it a working slot, and its state is freed before it was ever scheduled.  Slot 0 of the
      padding row ends on the free list. */
  method FreeAfterPrefixHit(size: nat, reqSize: nat, lazy: bool, bufSize: nat) returns (pool: HybridPool, res: Result<(), PoolError>)
    requires size > 0 && (bufSize == 1 || bufSize == 2)
    ensures fresh(pool) && res.Ok? && 0 in pool.freeMamba && !pool.Valid()
  {
    hide HybridPool.Valid, HybridPool.Mapped, HybridPool.Freed, Give, AllFree, TheirsToFree, AfterFree, CacheKept;
    pool := new HybridPool(size, reqSize, true, lazy, bufSize);
    pool.AddReq(0, 0, 0);
    SlotsFree(pool);
    var got := pool.AllocMamba(1);
    var m := got.value[0];
    assert m in got.value && got.value == [m];
    GivenIsOutside(AllFree(size), m);
    pool.Adopt(0, m);
    PaddingRowIsFreed(pool);
    ghost var freed := pool.Freed(None, pool.bufRow, None).value;
    NotTheirs(pool.owner[m := Free], 0, freed, 0);
    res := pool.FreeMambaCache(0, None);
  }

  lemma NotTheirs(owner: Owners, r: Rid, freed: seq<int>, s: int)
    requires s in freed && s !in owner
    ensures !TheirsToFree(owner, r, freed)
  {
  }

  lemma SlotsFree(pool: HybridPool)
    requires pool.Valid() && pool.owner == AllFree(pool.size) && pool.size > 0
    ensures |pool.freeMamba| >= 1
  {
    hide SlotsOk, GenOk, RowsOk, OwnersOk, ReqsOk;
    RangeHolds(pool.size);
    assert 1 in pool.owner && pool.owner[1].Free?;
    assert 1 in pool.freeMamba;
  }

  lemma PaddingRowIsFreed(pool: HybridPool)
    requires pool.Valid()
    ensures 1 <= pool.bufSize <= 2 && pool.Freed(None, pool.bufRow, None).Ok? && 0 in pool.Freed(None, pool.bufRow, None).value
    ensures forall s :: s in pool.owner ==> s >= 1
  {
    hide SlotsOk, GenOk, OwnersOk, ReqsOk;
    pool.ZeroIsFreed(None);
    ZeroIsNoSlot(pool.freeMamba, pool.owner, pool.size);
  }

  // ---------------------------------------------------------------- donations

  /** The tracked entry of every buffer holds a slot. */
  predicate TrackedHeld(reqs: Reqs) {
    forall r :: r in reqs ==> TrackedIsHeld(reqs[r])
  }

  predicate TrackedIsHeld(req: Req) {
    req.buf.Some? && req.lastTrack.Some? ==>
      req.lastTrack.value < |req.buf.value| && req.buf.value[req.lastTrack.value] != -1
  }

  /** The scheduler's side: it tracks only entries that hold a slot, and never vacates the tracked one. */
  predicate Careful(a: Snap, op: Op) {
    match op
    case Retrack(r, _, last) => HasEntry(a, r, last) ==> a.reqs[r].buf.value[last] != -1
    case Vacate(r, idx) => r in a.reqs ==> a.reqs[r].lastTrack != Some(idx)
    case _ => true
  }

  lemma FillKeepsTracked(a: Snap, r: Rid, idx: nat)
    requires TrackedHeld(a.reqs) && -1 !in a.freeMamba
    ensures TrackedHeld(Swapped(a, r, idx).reqs)
  {
    if a.freeMamba != [] { assert a.freeMamba[0] in a.freeMamba; }
  }

  lemma NextKeepsTracked(pool: HybridPool, a: Snap, op: Op)
    requires !op.Prefill? && TrackedHeld(a.reqs) && -1 !in a.freeMamba && Careful(a, op)
    ensures TrackedHeld(Next(pool, a, op).reqs)
  {
    hide Swapped, HybridPool.ToFree, Kept, Idle;
    match op
    case Fill(r, idx) => FillKeepsTracked(a, r, idx);
    case Donate(r) => if r in a.reqs && a.reqs[r].lastTrack.Some? { FillKeepsTracked(a, r, a.reqs[r].lastTrack.value); }
    case _ =>
  }

  lemma PrefillKeepsTracked(pool: HybridPool, a: Snap, rids: seq<Rid>, mid: Reqs, ids: seq<nat>, b: Snap)
    requires TrackedHeld(a.reqs) && -1 !in a.freeMamba && Known(a, rids) && Served(pool, a, rids, mid, ids, b)
    ensures TrackedHeld(b.reqs)
  {
    forall r | r in b.reqs ensures TrackedIsHeld(b.reqs[r]) {
      if r in rids {
        var i :| 0 <= i < |rids| && rids[i] == r;
        assert TookSlot(a.reqs[r], mid[r], ids[i], a.log, b.log);
        assert rids[..|rids|] == rids;
        assert pool.GotState(mid[r], b.reqs[r], a.freeMamba, pool.TotalNeed(rids[..i], mid));
        StateIsTracked(pool, mid[r], a.freeMamba[pool.TotalNeed(rids[..i], mid)..]);
      } else {
        assert rids[..|rids|] == rids && mid[r] == a.reqs[r];
      }
    }
  }

  lemma StateIsTracked(pool: HybridPool, req: Req, free: seq<int>)
    requires pool.bufSize >= 1 && |free| >= pool.StateNeed(req) && -1 !in free && TrackedIsHeld(req)
    ensures TrackedIsHeld(pool.WithState(req, free))
  {
    var rest := if req.mamba.None? then free[1..] else free;
    if pool.extra && req.buf.None? {
      var slots := rest[..pool.BufferNeed()];
      assert forall i :: 0 <= i < |slots| ==> slots[i] in free;
    }
  }

  /** Over a whole run with a careful scheduler, every tracked entry holds a slot at every point up
      to the last successful step ... */
  lemma {:induction false} TrackedStaysHeld(pool: HybridPool, trace: seq<Snap>, ops: seq<Op>, alive: bool, n: nat)
    requires IsTrace(pool, trace, ops, alive) && TrackedHeld(trace[0].reqs)
    requires forall i :: 0 <= i < |trace| - 1 ==> Careful(trace[i], ops[i])
    requires n < |trace| && (alive || n + 1 < |trace|)
    ensures TrackedHeld(trace[n].reqs)
    decreases n
  {
    if n > 0 {
      TrackedStaysHeld(pool, trace, ops, alive, n - 1);
      var a, op, b := trace[n - 1], ops[n - 1], trace[n];
      assert Effect(pool, a, op, b, true);
      hide IsTrace, TrackedHeld, Careful, Next, Served;
      assert -1 !in a.freeMamba && Careful(a, op) by { CarefulAt(pool, trace, ops, alive, n - 1); }
      if op.Prefill? {
        if Known(a, op.rids) && NewSlotsNeeded(op.rids, a.reqs) <= |a.freeSlots| {
          var mid: Reqs, ids: seq<nat> :| Served(pool, a, op.rids, mid, ids, b);
          PrefillKeepsTracked(pool, a, op.rids, mid, ids, b);
        }
      } else {
        NextKeepsTracked(pool, a, op);
      }
    }
  }

  lemma CarefulAt(pool: HybridPool, trace: seq<Snap>, ops: seq<Op>, alive: bool, i: nat)
    requires IsTrace(pool, trace, ops, alive) && i < |trace| - 1
    requires forall i :: 0 <= i < |trace| - 1 ==> Careful(trace[i], ops[i])
    ensures -1 !in trace[i].freeMamba && Careful(trace[i], ops[i])
  {
  }

  /** ... so that what a donation hands to the prefix cache is always a slot, and the tracked one. */
  lemma DonationsAreSlots(pool: HybridPool, trace: seq<Snap>, ops: seq<Op>, alive: bool, n: nat)
    requires IsTrace(pool, trace, ops, alive) && TrackedHeld(trace[0].reqs)
    requires forall i :: 0 <= i < |trace| - 1 ==> Careful(trace[i], ops[i])
    requires n + 1 < |trace| && ops[n].Donate? && ops[n].r in trace[n].reqs && trace[n].freeMamba != []
    requires trace[n].reqs[ops[n].r].lastTrack.Some?
    requires HasEntry(trace[n], ops[n].r, trace[n].reqs[ops[n].r].lastTrack.value)
    ensures var req := trace[n].reqs[ops[n].r];
            var donated := req.buf.value[req.lastTrack.value];
            donated != -1 && trace[n + 1].cached == trace[n].cached + {donated}
            && trace[n + 1].reqs[ops[n].r].buf.value == req.buf.value[req.lastTrack.value := trace[n].freeMamba[0]]
  {
    TrackedStaysHeld(pool, trace, ops, alive, n);
    assert Effect(pool, trace[n], ops[n], trace[n + 1], alive || n + 2 < |trace|);
    assert TrackedIsHeld(trace[n].reqs[ops[n].r]);
  }
}
