/** The hybrid request pool: request slots with generations, recurrent-state slots, and the
    ping-pong buffers of slots that track a request's state for the prefix cache. */
module MambaSlots {
  import opened Wrappers
  import opened Finite
  import opened IndexTensors
  import opened SlotLedger

  datatype PoolError = BadReuse | NoStateSlot | NoBufferSlots | NothingToStack | DoubleFree | BadKeep

  function NewSlotsNeeded(rids: seq<Rid>, reqs: Reqs): nat
    requires forall r :: r in rids ==> r in reqs
  {
    if rids == [] then 0
    else NewSlotsNeeded(rids[..|rids| - 1], reqs) + if reqs[rids[|rids| - 1]].slot.None? then 1 else 0
  }

  lemma {:induction false} NewSlotsGrow(rids: seq<Rid>, reqs: Reqs, i: nat)
    requires (forall r :: r in rids ==> r in reqs) && i <= |rids|
    ensures NewSlotsNeeded(rids[..i], reqs) <= NewSlotsNeeded(rids, reqs)
    decreases |rids|
  {
    if i < |rids| {
      assert rids[..|rids| - 1][..i] == rids[..i];
      NewSlotsGrow(rids[..|rids| - 1], reqs, i);
    } else {
      assert rids[..i] == rids;
    }
  }

  lemma NewSlotsStep(rids: seq<Rid>, reqs: Reqs, i: nat)
    requires (forall r :: r in rids ==> r in reqs) && i < |rids|
    ensures NewSlotsNeeded(rids[..i + 1], reqs)
            == NewSlotsNeeded(rids[..i], reqs) + if reqs[rids[i]].slot.None? then 1 else 0
    ensures NewSlotsNeeded(rids[..i + 1], reqs) <= NewSlotsNeeded(rids, reqs)
  {
    assert rids[..i + 1][..i] == rids[..i];
    NewSlotsGrow(rids, reqs, i + 1);
  }

  predicate BadlyReused(req: Req) {
    req.slot.Some? && req.inflight == 0 && req.committed == 0
  }

  /** The generations, and every (slot, generation) pair handed out since the last clear. */
  datatype Log = Log(gen: seq<nat>, history: seq<(nat, nat)>)

  /** A request keeps its slot and generation, or gets a slot under its next generation, a pair
      never handed out before. */
  ghost predicate TookSlot(before: Req, after: Req, id: nat, log: Log, log': Log) {
    && after == before.(slot := Some(id))
    && id < |log.gen| && id < |log'.gen|
    && if before.slot.Some? then before.slot == Some(id) && log'.gen[id] == log.gen[id]
       else && log'.gen[id] == log.gen[id] + 1
            && (id, log'.gen[id]) in log'.history && (id, log'.gen[id]) !in log.history
  }

  /** What handing request slots to a batch does to the requests and the generations. */
  ghost predicate TookSlots(start: Reqs, reqs: Reqs, rids: seq<Rid>, ids: seq<nat>, log: Log, log': Log) {
    && reqs.Keys == start.Keys && |ids| == |rids|
    && log.history <= log'.history && |log'.gen| == |log.gen|
    && (forall r :: r in start && r !in rids ==> reqs[r] == start[r])
    && (forall k :: 0 <= k < |log.gen| && k !in ids ==> log'.gen[k] == log.gen[k])
    && forall i :: 0 <= i < |rids| ==> rids[i] in start && TookSlot(start[rids[i]], reqs[rids[i]], ids[i], log, log')
  }

  /** The requests without a slot take the listed ones in order. */
  ghost predicate InTurn(start: Reqs, rids: seq<Rid>, ids: seq<nat>, select: seq<nat>)
    requires forall r :: r in rids ==> r in start
  {
    |ids| <= |rids| && forall j :: 0 <= j < |ids| && start[rids[j]].slot.None? ==>
      NewSlotsNeeded(rids[..j], start) < |select| && ids[j] == select[NewSlotsNeeded(rids[..j], start)]
  }

  lemma NobodyInTurn(start: Reqs, rids: seq<Rid>, select: seq<nat>)
    requires forall r :: r in rids ==> r in start
    ensures InTurn(start, rids, [], select)
  {
  }

  lemma NextInTurn(start: Reqs, rids: seq<Rid>, ids: seq<nat>, select: seq<nat>, id: nat)
    requires (forall r :: r in rids ==> r in start) && |ids| < |rids| && InTurn(start, rids, ids, select)
    requires start[rids[|ids|]].slot.None? ==>
      NewSlotsNeeded(rids[..|ids|], start) < |select| && id == select[NewSlotsNeeded(rids[..|ids|], start)]
    ensures InTurn(start, rids, ids + [id], select)
  {
    hide NewSlotsNeeded;
  }

  lemma NothingTakenYet(start: Reqs, log: Log)
    ensures NewSlotsNeeded([], start) == 0 && TookSlots(start, start, [], [], log, log)
  {
  }

  lemma NotYet(start: Reqs, reqs: Reqs, rids: seq<Rid>, i: nat, ids: seq<nat>, log: Log, log': Log)
    requires i < |rids| && Distinct(rids) && rids[i] in start && TookSlots(start, reqs, rids[..i], ids, log, log')
    ensures reqs[rids[i]] == start[rids[i]]
  {
    assert rids[i] !in rids[..i];
  }

  /** One request of the batch: it takes slot k, which nobody holds, or stays as it is. */
  ghost predicate OneTook(before: Reqs, after: Reqs, r: Rid, log: Log, log': Log) {
    && r in before && after.Keys == before.Keys && after[r].slot.Some?
    && after == before[r := before[r].(slot := after[r].slot)]
    && var k := after[r].slot.value;
       && k < |log.gen|
       && if before[r].slot.Some? then before[r].slot == Some(k) && log' == log
          else && (forall q :: q in before ==> before[q].slot != Some(k))
               && log' == Log(log.gen[k := log.gen[k] + 1], log.history + [(k, log.gen[k] + 1)])
               && (k, log.gen[k] + 1) !in log.history
  }

  lemma TookSlotsStep(start: Reqs, before: Reqs, after: Reqs, rids: seq<Rid>, i: nat, ids: seq<nat>,
                      log0: Log, log: Log, log': Log)
    requires i < |rids| && Distinct(rids) && rids[i] in start
    requires TookSlots(start, before, rids[..i], ids, log0, log) && OneTook(before, after, rids[i], log, log')
    requires forall q, p :: q in before && p in before && q != p && before[q].slot.Some? ==> before[q].slot != before[p].slot
    ensures TookSlots(start, after, rids[..i + 1], ids + [after[rids[i]].slot.value], log0, log')
  {
    var r := rids[i];
    var k := after[r].slot.value;
    var ids' := ids + [k];
    NotYet(start, before, rids, i, ids, log0, log);
    assert rids[..i + 1] == rids[..i] + [r];
    forall j | 0 <= j < i ensures TookSlot(start[rids[j]], after[rids[j]], ids[j], log0, log') && ids[j] != k {
      assert rids[..i][j] == rids[j] && rids[j] != r;
      EarlierTook(start, before, after, rids[j], r, ids[j], log0, log, log');
    }
    assert k !in ids;
    LatestTook(start[r], before, after, r, log0, log, log');
    hide TookSlot;
    forall x | 0 <= x < |log0.gen| && x !in ids' ensures log'.gen[x] == log0.gen[x] {
      assert ids'[i] == k && x != k;
      assert forall j :: 0 <= j < i ==> ids'[j] == ids[j];
      assert x !in ids;
    }
  }

  lemma NoneTook(reqs: Reqs, r: Rid, log: Log)
    requires r in reqs && reqs[r].slot.Some? && reqs[r].slot.value < |log.gen|
    ensures OneTook(reqs, reqs, r, log, log)
  {
  }

  lemma EarlierTook(start: Reqs, before: Reqs, after: Reqs, p: Rid, r: Rid, id: nat, log0: Log, log: Log, log': Log)
    requires p in start && p in before && p != r && OneTook(before, after, r, log, log')
    requires TookSlot(start[p], before[p], id, log0, log)
    requires forall q :: q in before && q != p && before[p].slot.Some? ==> before[q].slot != before[p].slot
    ensures TookSlot(start[p], after[p], id, log0, log') && id != after[r].slot.value
  {
  }

  lemma LatestTook(start: Req, before: Reqs, after: Reqs, r: Rid, log0: Log, log: Log, log': Log)
    requires OneTook(before, after, r, log, log') && start == before[r]
    requires log0.history <= log.history && |log.gen| == |log0.gen|
    requires log.gen[after[r].slot.value] == log0.gen[after[r].slot.value]
    ensures TookSlot(start, after[r], after[r].slot.value, log0, log')
  {
  }

  /** A request's old buffer once its state is freed: the slot of the entry to keep is held outside
      and not free, every other slot is free and on the list; -1 is no slot. */
  ghost predicate BufferSettled(buf: seq<int>, keep: Option<int>, owner: Owners, free: seq<int>) {
    forall i :: 0 <= i < |buf| && buf[i] != -1 ==>
      && buf[i] in owner
      && if keep == Some(i) then owner[buf[i]].Outside? && buf[i] !in free
         else owner[buf[i]].Free? && buf[i] in free
  }

  /** What the whole device table holds. */
  ghost predicate InTable(table: seq<seq<int>>, s: int) {
    exists k :: 0 <= k < |table| && s in table[k]
  }

  lemma {:induction false} FlatHoldsTable(table: seq<seq<int>>, s: int)
    ensures s in Flat(table) <==> InTable(table, s)
    decreases |table|
  {
    if table != [] {
      FlatHoldsTable(table[1..], s);
      if InTable(table, s) {
        var k :| 0 <= k < |table| && s in table[k];
        if k > 0 { assert s in table[1..][k - 1]; }
      }
    }
  }

  class HybridPool {
    const size: nat
    const reqSize: nat
    const extra: bool
    const lazy: bool
    const bufSize: nat
    var freeSlots: seq<nat>
    var generation: seq<nat>
    var reqs: Reqs
    var freeMamba: seq<int>
    var mambaRow: seq<int>
    var bufRow: seq<seq<int>>
    ghost var holder: Holders
    ghost var history: seq<(nat, nat)>
    ghost var owner: Owners

    /** Everything but the recurrent-state free list and the device tables, with these request
        slots free. */
    ghost predicate Books(free: seq<nat>)
      reads this
    {
      && SlotsOk(free, holder, reqs, reqSize)
      && GenOk(generation, history, reqSize)
      && ReqsOk(reqs, owner, bufSize, lazy)
      && OwnersOk(owner, reqs)
    }

    /** Nothing is owned twice or by nobody known, and no (slot, generation) pair repeats. */
    ghost predicate Valid()
      reads this
    {
      && (bufSize == 1 || bufSize == 2)
      && Books(freeSlots)
      && FreeOk(freeMamba, owner, size)
      && |mambaRow| == reqSize + 1
      && RowsOk(bufRow, reqSize, bufSize)
    }

    ghost function LogNow(): Log
      reads this`generation, this`history
    {
      Log(generation, history)
    }

    /** One request gets slot k under its next generation; a and b are the slots still free. */
    method TakeSlot(r: Rid, k: nat, ghost a: seq<nat>, ghost b: seq<nat>)
      requires r in reqs && reqs[r].slot.None?
      requires Books(a + [k] + b)
      modifies this`generation, this`reqs, this`holder, this`history
      ensures reqs == old(reqs)[r := old(reqs)[r].(slot := Some(k))]
      ensures Books(a + b)
      ensures OneTook(old(reqs), reqs, r, old(LogNow()), LogNow())
    {
      hide SlotsOk, GenOk, ReqsOk, OwnersOk;
      SlotTaken(a, k, b, holder, reqs, reqSize, r);
      GenerationTaken(generation, history, reqSize, k);
      OtherFieldsKeepBooks(owner, reqs, r, reqs[r].(slot := Some(k)), bufSize, lazy);
      holder := holder[k := Some(r)];
      history := history + [(k, generation[k] + 1)];
      reqs := reqs[r := reqs[r].(slot := Some(k))];
      generation := generation[k := generation[k] + 1];
    }

    /** The assigning loop of alloc, over the slots already cut off the free list. */
    method AssignSlots(rids: seq<Rid>, select: seq<nat>, ghost kept: seq<nat>) returns (ids: seq<nat>)
      requires Distinct(rids) && (forall r :: r in rids ==> r in reqs) && |select| == NewSlotsNeeded(rids, reqs)
      requires Books(kept + select)
      modifies this`generation, this`reqs, this`holder, this`history
      ensures Books(kept)
      ensures TookSlots(old(reqs), reqs, rids, ids, old(LogNow()), LogNow())
      ensures InTurn(old(reqs), rids, ids, select)
    {
      hide SlotsOk, GenOk, ReqsOk, OwnersOk, NewSlotsNeeded, TookSlots, Distinct, OneTook, InTurn;
      ghost var start, log0 := reqs, LogNow();
      assert select[0..] == select && rids[..0] == [] && rids[..|rids|] == rids;
      NothingTakenYet(start, log0);
      var offset := 0;
      ids := [];
      NobodyInTurn(start, rids, select);
      for i := 0 to |rids|
        invariant |ids| == i && InTurn(start, rids, ids, select)
        invariant 0 <= offset <= |select| && offset == NewSlotsNeeded(rids[..i], start)
        invariant reqs.Keys == start.Keys
        invariant Books(kept + select[offset..])
        invariant TookSlots(start, reqs, rids[..i], ids, log0, LogNow())
      {
        var r := rids[i];
        NewSlotsStep(rids, start, i);
        NotYet(start, reqs, rids, i, ids, log0, LogNow());
        ghost var before, log := reqs, LogNow();
        SlotsApart(kept + select[offset..], holder, reqs, reqSize, r, generation, history);
        if reqs[r].slot.None? {
          var k := select[offset];
          assert kept + select[offset..] == kept + [k] + select[offset + 1..];
          TakeSlot(r, k, kept, select[offset + 1..]);
          offset := offset + 1;
        } else {
          NoneTook(reqs, r, log);
        }
        TookSlotsStep(start, before, reqs, rids, i, ids, log0, log, LogNow());
        NextInTurn(start, rids, ids, select, reqs[r].slot.value);
        ids := ids + [reqs[r].slot.value];
      }
      assert kept + select[offset..] == kept;
    }

    /** ReqToTokenPool.alloc */
    method AllocSlots(rids: seq<Rid>) returns (res: Result<Option<seq<nat>>, PoolError>)
      requires Valid() && Distinct(rids) && forall r :: r in rids ==> r in reqs
      modifies this`freeSlots, this`generation, this`reqs, this`holder, this`history
      ensures Valid()
      ensures res.Err? <==> exists r :: r in rids && BadlyReused(old(reqs)[r])
      ensures res.Err? ==> res.error == BadReuse
      ensures res == Ok(None) ==> NewSlotsNeeded(rids, old(reqs)) > |old(freeSlots)|
      ensures !res.Ok? || res.value.None? ==>
        freeSlots == old(freeSlots) && generation == old(generation) && reqs == old(reqs) && history == old(history)
      ensures res.Ok? && res.value.Some? ==>
        && NewSlotsNeeded(rids, old(reqs)) <= |old(freeSlots)|
        && freeSlots == old(freeSlots)[..|old(freeSlots)| - NewSlotsNeeded(rids, old(reqs))]
        && TookSlots(old(reqs), reqs, rids, res.value.value, old(LogNow()), LogNow())
        && InTurn(old(reqs), rids, res.value.value, old(freeSlots)[|old(freeSlots)| - NewSlotsNeeded(rids, old(reqs))..])
    {
      hide InTurn, SlotsOk, GenOk, NewSlotsNeeded, ReqsOk, OwnersOk, FreeOk, RowsOk, TookSlots, Distinct;
      if exists r :: r in rids && reqs[r].slot.Some? && reqs[r].inflight == 0 && reqs[r].committed == 0 { return Err(BadReuse); }
      var need := NewSlotsNeeded(rids, reqs);
      if need > |freeSlots| { return Ok(None); }
      var cut := |freeSlots| - need;
      var select := freeSlots[cut..];
      ghost var kept := freeSlots[..cut];
      assert freeSlots == kept + select;
      freeSlots := freeSlots[..cut];
      var ids := AssignSlots(rids, select, kept);
      res := Ok(Some(ids));
    }

    // -------------------------------------------------------------- recurrent-state slots

    /** The slot allocator: n distinct non-zero free slots for whoever asks, or none at all. */
    method AllocMamba(n: nat) returns (res: Option<seq<int>>)
      requires Valid()
      modifies this`freeMamba, this`owner
      ensures Valid()
      ensures res.None? <==> n > |old(freeMamba)|
      ensures res.None? ==> freeMamba == old(freeMamba) && owner == old(owner)
      ensures res.Some? ==>
        && res.value == old(freeMamba)[..n] && freeMamba == old(freeMamba)[n..]
        && Distinct(res.value) && owner == Give(old(owner), res.value, Outside)
        && forall s :: s in res.value ==> s in old(owner) && old(owner)[s].Free?
    {
      hide SlotsOk, GenOk, ReqsOk, OwnersOk, FreeOk, RowsOk, Distinct;
      if n > |freeMamba| { return None; }
      TakeFromFree(freeMamba, owner, size, n);
      var slots := freeMamba[..n];
      MovesBetweenNobodies(owner, slots, Outside);
      NeutralKeepsBooks(owner, Give(owner, slots, Outside), reqs, bufSize, lazy);
      owner := Give(owner, slots, Outside);
      freeMamba := freeMamba[n..];
      return Some(slots);
    }

    /** The allocator takes slots back from outside the request pool. */
    method FreeMamba(slots: seq<int>)
      requires Valid() && Distinct(slots) && forall s :: s in slots ==> s in owner && owner[s].Outside?
      modifies this`freeMamba, this`owner
      ensures Valid()
      ensures freeMamba == old(freeMamba) + slots && owner == Give(old(owner), slots, Free)
    {
      hide SlotsOk, GenOk, ReqsOk, OwnersOk, FreeOk, RowsOk, Distinct;
      ReturnToFree(freeMamba, owner, size, slots);
      MovesBetweenNobodies(owner, slots, Free);
      NeutralKeepsBooks(owner, Give(owner, slots, Free), reqs, bufSize, lazy);
      owner := Give(owner, slots, Free);
      freeMamba := freeMamba + slots;
    }

    /** The working slot of one request in alloc. */
    method AllocWorking(r: Rid) returns (ok: bool)
      requires Valid() && r in reqs && reqs[r].mamba.None?
      modifies this`freeMamba, this`owner, this`reqs
      ensures Valid() && OutsideKept(old(owner), owner)
      ensures ok <==> |old(freeMamba)| >= 1
      ensures !ok ==> freeMamba == old(freeMamba) && reqs == old(reqs)
      ensures ok ==>
        && freeMamba == old(freeMamba)[1..]
        && reqs == old(reqs)[r := old(reqs)[r].(mamba := Some(old(freeMamba)[0]), needsClear := true)]
    {
      hide SlotsOk, GenOk, ReqsOk, OwnersOk, FreeOk, RowsOk, Distinct;
      var mid := AllocMamba(1);
      if mid == None { return false; }
      var s := mid.value[0];
      assert s in mid.value;
      var req := reqs[r].(mamba := Some(s), needsClear := true);
      WorkingTaken(owner, reqs, r, s, bufSize, lazy, req);
      FreeUnmoved(freeMamba, owner, owner[s := Working(r)], size);
      OtherFieldsKeepSlots(freeSlots, holder, reqs, reqSize, r, req);
      owner := owner[s := Working(r)];
      reqs := reqs[r := req];
      ok := true;
    }

    function OtherIdx(next: nat): nat
      requires next < 2
    {
      if bufSize == 2 then 1 - next else next
    }

    function BufferNeed(): nat { if lazy then 1 else bufSize }

    /** A new buffer: in lazy mode the first free slot and -1 after it, tracked at 0; otherwise as many
        free slots as it has entries, the last state tracked at the other entry than the next. */
    ghost predicate BufferGiven(before: Req, after: Req, free: seq<int>) {
      && after.buf.Some? && |after.buf.value| == bufSize && bufSize >= 1 && after.nextTrack == Some(0)
      && after == before.(buf := after.buf, nextTrack := after.nextTrack, lastTrack := after.lastTrack)
      && if lazy then
           && free != [] && after.buf.value[0] == free[0] && after.lastTrack == Some(0)
           && forall i :: 1 <= i < bufSize ==> after.buf.value[i] == -1
         else
           && bufSize <= |free| && after.buf.value == free[..bufSize]
           && after.lastTrack == Some(if bufSize == 2 then 1 else 0)
    }

    /** A request after alloc: what it lacked of a working slot and a buffer comes from the free slots,
        in that order; what it had it keeps. */
    ghost predicate StateGiven(before: Req, after: Req, free: seq<int>) {
      var none := before.mamba.None?;
      && (none ==> free != [])
      && var working := if none then before.(mamba := Some(free[0]), needsClear := true) else before;
         if extra && before.buf.None? then BufferGiven(working, after, if none then free[1..] else free) else after == working
    }

    ghost predicate GivenFrom(before: Req, after: Req, free: seq<int>) {
      exists at: nat :: at <= |free| && StateGiven(before, after, free[at..])
    }

    lemma GotStateMeans(before: Req, after: Req, free: seq<int>, at: nat)
      requires GotState(before, after, free, at)
      ensures GivenFrom(before, after, free)
    {
      assert at <= |free| && StateGiven(before, after, free[at..]);
    }

    /** Each request of a batch has been given what it lacked. */
    ghost predicate StatesGiven(start: Reqs, reqs: Reqs, rids: seq<Rid>, free: seq<int>) {
      forall i :: 0 <= i < |rids| ==>
        rids[i] in start && rids[i] in reqs && GivenFrom(start[rids[i]], reqs[rids[i]], free)
    }

    /** What alloc leaves its requests with, field by field. */
    lemma GotStatesMean(start: Reqs, reqs: Reqs, rids: seq<Rid>, free: seq<int>)
      requires GotStates(start, reqs, rids, |rids|, free)
      ensures StatesGiven(start, reqs, rids, free)
    {
      hide GivenFrom, GotState, TotalNeed;
      forall i | 0 <= i < |rids|
        ensures rids[i] in start && rids[i] in reqs && GivenFrom(start[rids[i]], reqs[rids[i]], free)
      {
        GotStateMeans(start[rids[i]], reqs[rids[i]], free, TotalNeed(rids[..i], start));
      }
    }

    /** _alloc_ping_pong_buffer: one slot and -1 in lazy mode, all slots otherwise. */
    method AllocBuffer(r: Rid) returns (ok: bool)
      requires Valid() && r in reqs && reqs[r].buf.None?
      modifies this`freeMamba, this`owner, this`reqs
      ensures Valid() && OutsideKept(old(owner), owner)
      ensures ok <==> |old(freeMamba)| >= BufferNeed()
      ensures !ok ==> freeMamba == old(freeMamba) && reqs == old(reqs)
      ensures ok ==>
        && freeMamba == old(freeMamba)[BufferNeed()..]
        && reqs == old(reqs)[r := WithBuffer(old(reqs)[r], old(freeMamba)[..BufferNeed()])]
        && BufferGiven(old(reqs)[r], reqs[r], old(freeMamba))
    {
      hide SlotsOk, GenOk, ReqsOk, OwnersOk, FreeOk, RowsOk, Distinct;
      NoSlotIsMinusOne(freeMamba, owner, size);
      var slots := AllocMamba(BufferNeed());
      if slots == None { return false; }
      var req := WithBuffer(reqs[r], slots.value);
      BufferTaken(owner, reqs, r, slots.value, bufSize, lazy, req);
      FreeUnmoved(freeMamba, owner, Track(owner, slots.value, r), size);
      OtherFieldsKeepSlots(freeSlots, holder, reqs, reqSize, r, req);
      owner := Track(owner, slots.value, r);
      reqs := reqs[r := req];
      ok := true;
    }

    function WithBuffer(req: Req, slots: seq<int>): Req
      requires |slots| <= bufSize
    {
      req.(buf := Some(Padded(slots, bufSize)), nextTrack := Some(0),
           lastTrack := Some(if lazy then 0 else OtherIdx(0)))
    }

    function StateNeed(req: Req): nat {
      (if req.mamba.None? then 1 else 0) + if extra && req.buf.None? then BufferNeed() else 0
    }

    /** A request after the alloc loop, taking from the front of these free slots. */
    function WithState(req: Req, free: seq<int>): Req
      requires |free| >= StateNeed(req) && 1 <= bufSize
    {
      var req1 := if req.mamba.None? then req.(mamba := Some(free[0]), needsClear := true) else req;
      var rest := if req.mamba.None? then free[1..] else free;
      if extra && req1.buf.None? then WithBuffer(req1, rest[..BufferNeed()]) else req1
    }

    /** The body of the hybrid alloc loop. */
    method AllocState(r: Rid) returns (res: Result<(), PoolError>)
      requires Valid() && r in reqs
      modifies this`freeMamba, this`owner, this`reqs
      ensures Valid() && OutsideKept(old(owner), owner) && reqs.Keys == old(reqs.Keys)
      ensures forall q :: q in reqs && q != r ==> reqs[q] == old(reqs)[q]
      ensures res.Ok? <==> StateNeed(old(reqs)[r]) <= |old(freeMamba)|
      ensures res.Ok? ==> reqs[r] == WithState(old(reqs)[r], old(freeMamba)) && freeMamba == old(freeMamba)[StateNeed(old(reqs)[r])..]
      ensures res.Err? ==> res.error == NoStateSlot || res.error == NoBufferSlots
    {
      hide SlotsOk, GenOk, ReqsOk, OwnersOk, FreeOk, RowsOk, Distinct, WithBuffer;
      if reqs[r].mamba.None? {
        var ok := AllocWorking(r);
        if !ok { return Err(NoStateSlot); }
      }
      if extra && reqs[r].buf.None? {
        var ok := AllocBuffer(r);
        if !ok { return Err(NoBufferSlots); }
      }
      res := Ok(());
    }

    function TotalNeed(rids: seq<Rid>, reqs: Reqs): nat
      requires forall r :: r in rids ==> r in reqs
    {
      if rids == [] then 0
      else TotalNeed(rids[..|rids| - 1], reqs) + StateNeed(reqs[rids[|rids| - 1]])
    }

    lemma {:induction false} TotalNeedGrows(rids: seq<Rid>, reqs: Reqs, i: nat)
      requires (forall r :: r in rids ==> r in reqs) && i <= |rids|
      ensures TotalNeed(rids[..i], reqs) <= TotalNeed(rids, reqs)
      ensures i < |rids| ==> TotalNeed(rids[..i + 1], reqs) == TotalNeed(rids[..i], reqs) + StateNeed(reqs[rids[i]])
      decreases |rids|
    {
      if i < |rids| {
        assert rids[..|rids| - 1][..i] == rids[..i];
        TotalNeedGrows(rids[..|rids| - 1], reqs, i);
        assert rids[..i + 1][..i] == rids[..i];
        if i + 1 == |rids| {
          assert rids[..i + 1] == rids;
        } else {
          assert rids[..|rids| - 1][..i + 1] == rids[..i + 1];
        }
      } else {
        assert rids[..i] == rids;
      }
    }

    ghost predicate GotState(before: Req, after: Req, free: seq<int>, at: nat)
    {
      1 <= bufSize && at + StateNeed(before) <= |free| && after == WithState(before, free[at..])
    }

    /** The first n requests of a batch have in turn taken their slots from the front of the
        free list. */
    ghost predicate GotStates(start: Reqs, reqs: Reqs, rids: seq<Rid>, n: nat, free: seq<int>)
    {
      && n <= |rids| && reqs.Keys == start.Keys
      && (forall r :: r in rids ==> r in start)
      && (forall r :: r in start && r !in rids[..n] ==> reqs[r] == start[r])
      && forall i :: 0 <= i < n ==>
        GotState(start[rids[i]], reqs[rids[i]], free, TotalNeed(rids[..i], start))
    }

    lemma GotStatesStep(start: Reqs, before: Reqs, after: Reqs, rids: seq<Rid>, i: nat, free: seq<int>)
      requires i < |rids| && Distinct(rids) && GotStates(start, before, rids, i, free)
      requires after.Keys == before.Keys && forall q :: q in before && q != rids[i] ==> after[q] == before[q]
      requires GotState(before[rids[i]], after[rids[i]], free, TotalNeed(rids[..i], start))
      ensures GotStates(start, after, rids, i + 1, free)
    {
      hide GotState, TotalNeed, WithState, StateNeed;
      NotYetGiven(start, before, rids, i, free);
      assert rids[..i + 1] == rids[..i] + [rids[i]];
    }

    lemma NotYetGiven(start: Reqs, reqs: Reqs, rids: seq<Rid>, i: nat, free: seq<int>)
      requires i < |rids| && Distinct(rids) && GotStates(start, reqs, rids, i, free)
      ensures rids[i] in reqs && reqs[rids[i]] == start[rids[i]]
    {
      assert rids[i] !in rids[..i];
    }

    lemma BufferSize()
      requires Valid()
      ensures 1 <= bufSize <= 2
    {
    }

    lemma NobodyYet(start: Reqs, rids: seq<Rid>, free: seq<int>)
      requires forall r :: r in rids ==> r in start
      ensures GotStates(start, start, rids, 0, free) && TotalNeed([], start) == 0
    {
    }

    /** The state loop of the hybrid alloc. */
    method AssignStates(rids: seq<Rid>) returns (res: Result<(), PoolError>)
      requires Valid() && Distinct(rids) && forall r :: r in rids ==> r in reqs
      modifies this`freeMamba, this`owner, this`reqs
      ensures Valid() && OutsideKept(old(owner), owner) && reqs.Keys == old(reqs.Keys)
      ensures res.Ok? <==> TotalNeed(rids, old(reqs)) <= |old(freeMamba)|
      ensures res.Ok? ==>
        GotStates(old(reqs), reqs, rids, |rids|, old(freeMamba)) && freeMamba == old(freeMamba)[TotalNeed(rids, old(reqs))..]
      ensures res.Err? ==> res.error == NoStateSlot || res.error == NoBufferSlots
    {
      hide Valid, GotStates, GotState, TotalNeed, StateNeed, WithState, Distinct, OutsideKept;
      ghost var start, free, owner0 := reqs, freeMamba, owner;
      NobodyYet(start, rids, free);
      BufferSize();
      OutsideStays(owner0, owner, owner);
      assert rids[..0] == [] && rids[..|rids|] == rids && free[0..] == free;
      for i := 0 to |rids|
        invariant Valid() && OutsideKept(owner0, owner) && reqs.Keys == start.Keys
        invariant TotalNeed(rids[..i], start) <= |free| && freeMamba == free[TotalNeed(rids[..i], start)..]
        invariant GotStates(start, reqs, rids, i, free)
      {
        NotYetGiven(start, reqs, rids, i, free);
        TotalNeedGrows(rids, start, i);
        TotalNeedGrows(rids, start, i + 1);
        ghost var before, owner1 := reqs, owner;
        ghost var at := TotalNeed(rids[..i], start);
        var one := AllocState(rids[i]);
        OutsideStays(owner0, owner1, owner);
        if one.Err? { return one; }
        GotOne(before[rids[i]], reqs[rids[i]], free, at);
        GotStatesStep(start, before, reqs, rids, i, free);
        assert freeMamba == free[TotalNeed(rids[..i + 1], start)..];
      }
      res := Ok(());
    }

    lemma GotOne(before: Req, after: Req, free: seq<int>, at: nat)
      requires bufSize >= 1 && at <= |free| && StateNeed(before) <= |free[at..]| && after == WithState(before, free[at..])
      ensures GotState(before, after, free, at)
    {
    }

    ghost predicate Mapped()
      reads this`reqs, this`mambaRow, this`bufRow
    {
      MappedOk(reqs, mambaRow, bufRow, extra)
    }

    ghost predicate Equipped(req: Req, id: nat) {
      req.slot == Some(id) && req.mamba.Some? && (extra ==> req.buf.Some?)
    }

    /** After both loops every request of the batch has all it needs, and no other changed. */
    lemma BatchIsEquipped(start: Reqs, mid: Reqs, reqs: Reqs, rids: seq<Rid>, ids: seq<nat>,
                          log: Log, log': Log, free: seq<int>)
      requires TookSlots(start, mid, rids, ids, log, log') && GotStates(mid, reqs, rids, |rids|, free)
      ensures reqs.Keys == start.Keys && |ids| == |rids|
      ensures forall r :: r in start && r !in rids ==> reqs[r] == start[r]
      ensures forall i :: 0 <= i < |rids| ==> rids[i] in reqs && Equipped(reqs[rids[i]], ids[i])
    {
      assert rids[..|rids|] == rids;
      forall i | 0 <= i < |rids| ensures rids[i] in reqs && Equipped(reqs[rids[i]], ids[i]) {
        assert TookSlot(start[rids[i]], mid[rids[i]], ids[i], log, log');
        assert GotState(mid[rids[i]], reqs[rids[i]], free, TotalNeed(rids[..i], mid));
      }
    }

    lemma {:induction false} SlotsDoNotChangeNeed(start: Reqs, mid: Reqs, rids: seq<Rid>)
      requires start.Keys == mid.Keys && forall r :: r in rids ==> r in start
      requires forall r :: r in rids ==> mid[r].mamba == start[r].mamba && mid[r].buf == start[r].buf
      ensures TotalNeed(rids, mid) == TotalNeed(rids, start)
      decreases |rids|
    {
      if rids != [] { SlotsDoNotChangeNeed(start, mid, rids[..|rids| - 1]); }
    }

    lemma TakingSlotsKeepsNeed(start: Reqs, mid: Reqs, rids: seq<Rid>, ids: seq<nat>, log: Log, log': Log)
      requires TookSlots(start, mid, rids, ids, log, log')
      ensures mid.Keys == start.Keys && forall r :: r in rids ==> r in start && r in mid
      ensures TotalNeed(rids, mid) == TotalNeed(rids, start)
    {
      forall r | r in rids ensures r in start && mid[r].mamba == start[r].mamba && mid[r].buf == start[r].buf {
        var i :| 0 <= i < |rids| && rids[i] == r;
        assert TookSlot(start[rids[i]], mid[rids[i]], ids[i], log, log');
      }
      SlotsDoNotChangeNeed(start, mid, rids);
    }

    /** The two stacked writes that end alloc. */
    method WriteRows(rids: seq<Rid>, ids: seq<nat>, ghost start: Reqs)
      requires Valid() && MappedOk(start, mambaRow, bufRow, extra) && |ids| == |rids|
      requires forall r :: r in reqs && r !in rids ==> r in start && reqs[r] == start[r]
      requires forall i :: 0 <= i < |rids| ==> rids[i] in reqs && Equipped(reqs[rids[i]], ids[i])
      modifies this`mambaRow, this`bufRow
      ensures Valid() && Mapped()
    {
      hide SlotsOk, GenOk, OwnersOk, FreeOk, Distinct, MappedOk, RowsOk, ReqsOk, Stacked, StackedBufs;
      Stacks(reqs, rids, ids, owner);
      forall i | 0 <= i < |rids| ensures ids[i] != 0 { SlotInTable(freeSlots, holder, reqs, reqSize, rids[i]); }
      RowsStayOk(bufRow, ids, StackedBufs(reqs, rids, bufSize), reqSize, bufSize);
      RowsWritten(start, reqs, rids, ids, freeSlots, holder, reqSize, mambaRow, bufRow, Stacked(reqs, rids),
                  StackedBufs(reqs, rids, bufSize), extra);
      mambaRow := Scatter(mambaRow, ids, Stacked(reqs, rids));
      if extra { bufRow := Scatter(bufRow, ids, StackedBufs(reqs, rids, bufSize)); }
    }

    lemma Stacks(reqs: Reqs, rids: seq<Rid>, ids: seq<nat>, owner: Owners)
      requires |ids| == |rids| && forall i :: 0 <= i < |rids| ==> rids[i] in reqs && Equipped(reqs[rids[i]], ids[i])
      requires ReqsOk(reqs, owner, bufSize, lazy)
      ensures |Stacked(reqs, rids)| == |StackedBufs(reqs, rids, bufSize)| == |rids|
      ensures forall i :: 0 <= i < |rids| ==>
        && rids[i] in reqs && reqs[rids[i]].slot == Some(ids[i])
        && reqs[rids[i]].mamba == Some(Stacked(reqs, rids)[i])
        && (extra ==> reqs[rids[i]].buf == Some(StackedBufs(reqs, rids, bufSize)[i]))
        && |StackedBufs(reqs, rids, bufSize)[i]| == bufSize
    {
      forall i | 0 <= i < |rids| ensures |StackedBufs(reqs, rids, bufSize)[i]| == bufSize {
        assert ReqOk(rids[i], reqs[rids[i]], owner, bufSize, lazy);
      }
    }

    /** HybridReqToTokenPool.alloc: request slots for those that have none, then whatever each
        request lacks of working slot and buffer, then their rows. */
    method Alloc(rids: seq<Rid>) returns (res: Result<Option<seq<nat>>, PoolError>, ghost mid: Reqs)
      requires Valid() && Mapped() && Distinct(rids) && forall r :: r in rids ==> r in reqs
      modifies this
      ensures Valid() && OutsideKept(old(owner), owner) && reqs.Keys == old(reqs.Keys)
      ensures res == Err(BadReuse) <==> exists r :: r in rids && BadlyReused(old(reqs)[r])
      ensures res == Ok(None) ==> NewSlotsNeeded(rids, old(reqs)) > |old(freeSlots)|
      ensures res.Err? ==>
        match res.error
        case BadReuse => true
        case NothingToStack => rids == []
        case NoStateSlot => TotalNeed(rids, old(reqs)) > |old(freeMamba)|
        case NoBufferSlots => TotalNeed(rids, old(reqs)) > |old(freeMamba)|
        case _ => false
      ensures res == Err(BadReuse) || res == Ok(None) ==>
        reqs == old(reqs) && freeMamba == old(freeMamba) && freeSlots == old(freeSlots) && LogNow() == old(LogNow())
      ensures res.Ok? || res == Err(BadReuse) ==> Mapped()
      ensures res.Ok? && res.value.Some? ==>
        && rids != []
        && NewSlotsNeeded(rids, old(reqs)) <= |old(freeSlots)| && TotalNeed(rids, old(reqs)) <= |old(freeMamba)|
        && freeSlots == old(freeSlots)[..|old(freeSlots)| - NewSlotsNeeded(rids, old(reqs))]
        && freeMamba == old(freeMamba)[TotalNeed(rids, old(reqs))..]
        && TookSlots(old(reqs), mid, rids, res.value.value, old(LogNow()), LogNow())
        && GotStates(mid, reqs, rids, |rids|, old(freeMamba))
        && InTurn(old(reqs), rids, res.value.value, old(freeSlots)[|old(freeSlots)| - NewSlotsNeeded(rids, old(reqs))..])
    {
      hide Valid, InTurn, TookSlots, GotStates, TotalNeed, NewSlotsNeeded, BadlyReused, Distinct, OutsideKept, MappedOk, Equipped, Books;
      mid := reqs;
      ghost var start, log0 := reqs, LogNow();
      OutsideStays(owner, owner, owner);
      res := AllocSlots(rids);
      if res.Err? || res.value == None { return; }
      mid := reqs;
      TakingSlotsKeepsNeed(start, mid, rids, res.value.value, log0, LogNow());
      var states := AssignStates(rids);
      if states.Err? { return Err(states.error), mid; }
      if rids == [] { return Err(NothingToStack), mid; }
      BatchIsEquipped(start, mid, reqs, rids, res.value.value, log0, LogNow(), old(freeMamba));
      WriteRows(rids, res.value.value, start);
    }

    // -------------------------------------------------------------- changes to a live request

    /** set_mamba_ping_pong_slot: the request's buffer and its row change together; what the
        entry held before is now the caller's. */
    method SetPingPongSlot(r: Rid, idx: nat, value: int)
      requires Valid() && Mapped() && r in reqs && reqs[r].slot.Some? && reqs[r].buf.Some? && idx < |reqs[r].buf.value|
      requires if value == -1 then lazy else value in owner && owner[value].Outside?
      modifies this`reqs, this`bufRow, this`owner
      ensures Valid() && Mapped()
      ensures reqs == old(reqs)[r := old(reqs)[r].(buf := Some(old(reqs)[r].buf.value[idx := value]))]
      ensures owner == Swap(old(owner), r, idx, old(reqs)[r].buf.value[idx], value)
    {
      hide SlotsOk, GenOk, OwnersOk, FreeOk, Distinct, MappedOk, RowsOk, ReqsOk;
      var req := reqs[r].(buf := Some(reqs[r].buf.value[idx := value]));
      NoSlotIsMinusOne(freeMamba, owner, size);
      BufferLength(reqs, owner, r, bufSize, lazy);
      SlotInTable(freeSlots, holder, reqs, reqSize, r);
      OneRowStaysOk(bufRow, reqSize, bufSize, req.slot.value, req.buf.value);
      RowRewritten(reqs, r, req, freeSlots, holder, reqSize, mambaRow, bufRow, extra);
      EntrySwapped(owner, reqs, r, idx, value, bufSize, lazy, req);
      FreeUnmoved(freeMamba, owner, Swap(owner, r, idx, reqs[r].buf.value[idx], value), size);
      OtherFieldsKeepSlots(freeSlots, holder, reqs, reqSize, r, req);
      owner := Swap(owner, r, idx, reqs[r].buf.value[idx], value);
      reqs := reqs[r := req];
      bufRow := bufRow[reqs[r].slot.value := reqs[r].buf.value];
    }

    /** donate_mamba_ping_pong_slot: the tracked slot goes to the prefix cache, the new one
        takes its place. */
    method Donate(r: Rid, newSlot: int) returns (donated: int)
      requires Valid() && Mapped() && r in reqs && reqs[r].slot.Some? && reqs[r].buf.Some?
      requires reqs[r].lastTrack.Some? && reqs[r].lastTrack.value < |reqs[r].buf.value|
      requires newSlot in owner && owner[newSlot].Outside?
      modifies this`reqs, this`bufRow, this`owner
      ensures Valid() && Mapped()
      ensures var idx := old(reqs)[r].lastTrack.value;
              && donated == old(reqs)[r].buf.value[idx]
              && reqs == old(reqs)[r := old(reqs)[r].(buf := Some(old(reqs)[r].buf.value[idx := newSlot]))]
              && owner == Swap(old(owner), r, idx, donated, newSlot)
              && (donated == -1 ==> lazy)
              && (donated != -1 ==> donated in owner && old(owner)[donated] == Tracking(r, idx) && owner[donated].Outside?)
    {
      EntryOwned(reqs, owner, r, reqs[r].lastTrack.value, bufSize, lazy);
      var idx := reqs[r].lastTrack.value;
      donated := reqs[r].buf.value[idx];
      NoSlotIsMinusOne(freeMamba, owner, size);
      hide Valid, MappedOk;
      SetPingPongSlot(r, idx, newSlot);
    }

    /** Which entries of a row free_mamba_cache hands to the allocator. */
    function ToFree(row: seq<int>, keep: Option<int>): (res: Result<seq<int>, PoolError>)
      requires |row| == bufSize && 1 <= bufSize <= 2
    {
      if keep == None then Ok(if lazy then Filled(row) else row)
      else if keep.value != 0 && keep.value != 1 then Err(BadKeep)
      else if bufSize == 2 then
        var part := [row[1 - keep.value]];
        Ok(if lazy then Filled(part) else part)
      else if keep.value != 0 then Err(BadKeep)
      else Ok([])
    }

    /** The working slot goes back to the allocator. */
    method FreeWorking(r: Rid)
      requires Valid() && Mapped() && r in reqs && reqs[r].mamba.Some?
      modifies this`reqs, this`freeMamba, this`owner
      ensures Valid() && Mapped()
      ensures old(owner)[old(reqs)[r].mamba.value] == Working(r)
      ensures reqs == old(reqs)[r := old(reqs)[r].(mamba := None)]
      ensures freeMamba == old(freeMamba) + [old(reqs)[r].mamba.value]
      ensures owner == old(owner)[old(reqs)[r].mamba.value := Free]
    {
      hide SlotsOk, GenOk, OwnersOk, FreeOk, MappedOk, RowsOk, ReqsOk;
      var s := reqs[r].mamba.value;
      var req := reqs[r].(mamba := None);
      WorkingLeft(owner, reqs, r, bufSize, lazy, req);
      FreeUnmoved(freeMamba, owner, owner[s := Outside], size);
      OtherFieldsKeepSlots(freeSlots, holder, reqs, reqSize, r, req);
      ForgettingKeepsRows(reqs, r, req, mambaRow, bufRow, extra);
      ghost var owner0 := owner;
      owner := owner[s := Outside];
      reqs := reqs[r := req];
      FreeMamba([s]);
      assert Give(owner0[s := Outside], [s], Free) == owner0[s := Free];
    }

    /** The kept entry is not freed and every other one that is a slot is. */
    lemma FreesTheOther(r: Rid, buf: seq<int>, keep: Option<int>, owner: Owners)
      requires 1 <= bufSize <= 2 && BufOk(r, buf, owner, bufSize, lazy)
      ensures ToFree(buf, keep).Err? <==> keep.Some? && !(0 <= keep.value < bufSize)
      ensures ToFree(buf, keep).Ok? ==> forall i :: 0 <= i < |buf| && buf[i] != -1 ==>
                (buf[i] in ToFree(buf, keep).value <==> keep != Some(i))
    {
      if bufSize == 2 && keep.Some? && 0 <= keep.value < 2 {
        assert [buf[1 - keep.value]][1..] == [];
      }
    }

    lemma FreedIsSettled(r: Rid, buf: seq<int>, keep: Option<int>, owner: Owners, free: seq<int>, m: int)
      requires 1 <= bufSize <= 2 && BufOk(r, buf, owner, bufSize, lazy) && ToFree(buf, keep).Ok?
      requires m in owner && owner[m] == Working(r) && forall s :: s in free ==> s in owner && owner[s].Free?
      ensures BufferSettled(buf, keep, AfterFree(owner[m := Free], buf, ToFree(buf, keep).value), free + [m] + ToFree(buf, keep).value)
    {
      FreesTheOther(r, buf, keep, owner);
      hide ToFree;
    }

    /** What the table gives for a request and how much of it is freed.  A request without a
        request slot indexes the table with None, which is the whole table as a batch of one. */
    function Freed(slot: Option<nat>, table: seq<seq<int>>, keep: Option<int>): (res: Result<seq<int>, PoolError>)
      requires 1 <= bufSize <= 2 && (slot.Some? ==> slot.value < |table| && |table[slot.value]| == bufSize)
    {
      if slot.Some? then ToFree(table[slot.value], keep)
      else
        var whole := if lazy then Filled(Flat(table)) else Flat(table);
        if keep == None then Ok(whole)
        else if keep.value != 0 && keep.value != 1 then Err(BadKeep)
        else if bufSize == 2 then Ok(if keep.value == 1 then whole else [])
        else if keep.value != 0 then Err(BadKeep)
        else Ok([])
    }

    /** Freed, without saying how: what is wrong, and what goes on the list. */
    lemma FreedByKeep(r: Rid, keep: Option<int>)
      requires Valid() && Mapped() && extra && r in reqs && reqs[r].mamba.Some?
      ensures 1 <= bufSize <= 2 && |bufRow| == reqSize + 1
      ensures reqs[r].slot.Some? ==> reqs[r].slot.value <= reqSize && |bufRow[reqs[r].slot.value]| == bufSize
      ensures var freed := Freed(reqs[r].slot, bufRow, keep); var m := reqs[r].mamba.value;
              && (freed.Err? <==> keep.Some? && !(0 <= keep.value < bufSize))
              && (freed.Ok? && reqs[r].slot.Some? && reqs[r].buf.Some? ==>
                    BufferSettled(reqs[r].buf.value, keep, AfterFree(owner[m := Free], reqs[r].buf.value, freed.value),
                                  freeMamba + [m] + freed.value))
              && (freed.Ok? && reqs[r].slot.None? ==> forall s ::
                    s in freed.value <==> (keep.None? || (bufSize == 2 && keep.value == 1)) && InTable(bufRow, s) && (lazy ==> s != -1))
    {
      hide SlotsOk, GenOk, OwnersOk, FreeOk, RowsOk, ReqsOk, Distinct, AfterFree, MappedOk, InTable, BufferSettled, Filled, Flat;
      RowLength(bufRow, reqSize, bufSize);
      BufferSize();
      var m := reqs[r].mamba.value;
      if reqs[r].slot.Some? { SlotInTable(freeSlots, holder, reqs, reqSize, r); }
      if reqs[r].slot.Some? && reqs[r].buf.Some? {
        MappedRow(r, keep);
        EntriesAreOwned(reqs, owner, r, bufSize, lazy);
        FreesTheOther(r, reqs[r].buf.value, keep, owner);
        WorkingAndFree(r);
        if ToFree(reqs[r].buf.value, keep).Ok? { FreedIsSettled(r, reqs[r].buf.value, keep, owner, freeMamba, m); }
      } else if reqs[r].slot.None? {
        forall s ensures s in Flat(bufRow) <==> InTable(bufRow, s) { FlatHoldsTable(bufRow, s); }
      }
    }

    lemma WorkingAndFree(r: Rid)
      requires Valid() && r in reqs && reqs[r].mamba.Some?
      ensures reqs[r].mamba.value in owner && owner[reqs[r].mamba.value] == Working(r)
      ensures forall s :: s in freeMamba ==> s in owner && owner[s].Free?
    {
      hide SlotsOk, GenOk, RowsOk, OwnersOk, Distinct;
      assert ReqOk(r, reqs[r], owner, bufSize, lazy);
    }

    /** free_mamba_cache, for any request at all.  The entries freed are the table's, not the
        request's own; the books balance afterwards exactly when those are slots of its buffer or
        held outside, each once, and they are for every request that has its row and buffer. */
    method FreeMambaCache(r: Rid, keep: Option<int>) returns (res: Result<(), PoolError>)
      requires Valid() && Mapped() && r in reqs
      modifies this`reqs, this`freeMamba, this`owner
      ensures 1 <= bufSize <= 2 && |bufRow| == reqSize + 1
      ensures old(reqs)[r].slot.Some? ==> old(reqs)[r].slot.value <= reqSize && |bufRow[old(reqs)[r].slot.value]| == bufSize
      ensures Mapped()
      ensures res == Err(DoubleFree) <==> old(reqs)[r].mamba.None?
      ensures old(reqs)[r].mamba.None? ==> Valid() && reqs == old(reqs) && freeMamba == old(freeMamba) && owner == old(owner)
      ensures old(reqs)[r].mamba.Some? && (!extra || res.Err?) ==>
        && Valid()
        && reqs == old(reqs)[r := old(reqs)[r].(mamba := None)]
        && freeMamba == old(freeMamba) + [old(reqs)[r].mamba.value]
        && owner == old(owner)[old(reqs)[r].mamba.value := Free]
      ensures old(reqs)[r].mamba.Some? && extra ==>
        var req, m := old(reqs)[r], old(reqs)[r].mamba.value;
        var freed := Freed(req.slot, bufRow, keep);
        && (res.Err? <==> freed.Err?)
        && (req.slot.Some? && req.buf.Some? ==> |req.buf.value| == bufSize && freed == ToFree(req.buf.value, keep))
        && (res.Ok? ==>
            && reqs == old(reqs)[r := req.(mamba := None, buf := None, nextTrack := None, lastTrack := None)]
            && freeMamba == old(freeMamba) + [m] + freed.value
            && owner == AfterFree(old(owner)[m := Free], Entries(req), freed.value)
            && (Valid() <==> TheirsToFree(old(owner)[m := Free], r, freed.value))
            && (Valid() && CacheKept(old(owner), owner) <==> (req.slot.Some? && req.buf.Some?) || freed.value == []))
      ensures old(reqs)[r].mamba.Some? && extra ==>
        && (res.Err? <==> keep.Some? && !(0 <= keep.value < bufSize))
        && (res.Ok? && old(reqs)[r].slot.Some? && old(reqs)[r].buf.Some? ==>
              BufferSettled(old(reqs)[r].buf.value, keep, owner, freeMamba))
        && (res.Ok? && old(reqs)[r].slot.None? ==>
              var wholeTable := keep.None? || (bufSize == 2 && keep.value == 1);
              forall s :: s in freeMamba <==>
                s in old(freeMamba) || s == old(reqs)[r].mamba.value || (wholeTable && InTable(bufRow, s) && (lazy ==> s != -1)))
    {
      hide SlotsOk, GenOk, OwnersOk, FreeOk, RowsOk, ReqsOk, Distinct, ToFree, Freed, AfterFree, TheirsToFree, Flat, Filled, BufferSettled, InTable;
      if reqs[r].mamba.Some? && extra { FreedByKeep(r, keep); }
      RowLength(bufRow, reqSize, bufSize);
      if reqs[r].slot.Some? { SlotInTable(freeSlots, holder, reqs, reqSize, r); }
      if extra && reqs[r].slot.Some? && reqs[r].buf.Some? { MappedRow(r, keep); }
      if reqs[r].mamba.None? { return Err(DoubleFree); }
      FreeWorking(r);
      if extra {
        var toFree := Freed(reqs[r].slot, bufRow, keep);
        if toFree.Err? { return Err(BadKeep); }
        FreeRow(r, keep, toFree.value);
      }
      res := Ok(());
    }

    /** The table row's entries go to the allocator and the request forgets its buffer. */
    method FreeRow(r: Rid, keep: Option<int>, toFree: seq<int>)
      requires Valid() && Mapped() && extra && r in reqs && reqs[r].mamba.None?
      requires |bufRow| == reqSize + 1 && 1 <= bufSize <= 2
      requires reqs[r].slot.Some? ==> reqs[r].slot.value <= reqSize && |bufRow[reqs[r].slot.value]| == bufSize
      requires Freed(reqs[r].slot, bufRow, keep) == Ok(toFree)
      modifies this`reqs, this`freeMamba, this`owner
      ensures Mapped()
      ensures reqs == old(reqs)[r := old(reqs)[r].(buf := None, nextTrack := None, lastTrack := None)]
      ensures freeMamba == old(freeMamba) + toFree && owner == AfterFree(old(owner), Entries(old(reqs)[r]), toFree)
      ensures Valid() <==> TheirsToFree(old(owner), r, toFree)
      ensures Valid() && CacheKept(old(owner), owner) <==> (old(reqs)[r].slot.Some? && old(reqs)[r].buf.Some?) || toFree == []
    {
      hide SlotsOk, GenOk, OwnersOk, FreeOk, RowsOk, ReqsOk, Distinct, ToFree, AfterFree, TheirsToFree, Flat, Filled;
      var req := reqs[r].(buf := None, nextTrack := None, lastTrack := None);
      TheirsAloneIff(r, keep, toFree);
      CacheKeptIff(owner, Entries(reqs[r]), toFree);
      if TheirsToFree(owner, r, toFree) {
        FreeingTheirs(freeMamba, owner, size, reqs, r, toFree, bufSize, lazy, req);
      }
      OtherFieldsKeepSlots(freeSlots, holder, reqs, reqSize, r, req);
      ForgettingKeepsRows(reqs, r, req, mambaRow, bufRow, extra);
      ghost var free0, owner0, reqs0 := freeMamba, owner, reqs;
      freeMamba := freeMamba + toFree;
      owner := AfterFree(owner, Entries(reqs[r]), toFree);
      reqs := reqs[r := req];
      if Valid() {
        FreeingOthers(free0, owner0, size, reqs0, r, toFree, bufSize, lazy, req, owner);
      }
    }

    lemma MappedRow(r: Rid, keep: Option<int>)
      requires Valid() && Mapped() && extra && r in reqs && reqs[r].slot.Some? && reqs[r].buf.Some?
      requires |bufRow| == reqSize + 1 && 1 <= bufSize <= 2
      requires reqs[r].slot.value <= reqSize && |bufRow[reqs[r].slot.value]| == bufSize
      ensures |reqs[r].buf.value| == bufSize && Freed(reqs[r].slot, bufRow, keep) == ToFree(reqs[r].buf.value, keep)
    {
      hide SlotsOk, GenOk, OwnersOk, FreeOk, RowsOk, ReqsOk, Distinct, ToFree, Flat;
      assert |mambaRow| == reqSize + 1 && bufRow[reqs[r].slot.value] == reqs[r].buf.value;
    }

    /** The freed entries are the request's own and nobody else's exactly when it has its row and its
        buffer, or nothing is freed. */
    lemma TheirsAloneIff(r: Rid, keep: Option<int>, toFree: seq<int>)
      requires Valid() && Mapped() && extra && r in reqs
      requires |bufRow| == reqSize + 1 && 1 <= bufSize <= 2
      requires reqs[r].slot.Some? ==> reqs[r].slot.value <= reqSize && |bufRow[reqs[r].slot.value]| == bufSize
      requires Freed(reqs[r].slot, bufRow, keep) == Ok(toFree)
      ensures TheirsToFree(owner, r, toFree) && (forall s :: s in toFree && s in owner ==> !owner[s].Outside?)
              <==> (reqs[r].slot.Some? && reqs[r].buf.Some?) || toFree == []
    {
      hide SlotsOk, GenOk, FreeOk, ReqsOk, Distinct, ToFree, Flat, Filled, MappedOk, OwnersOk, RowsOk;
      if reqs[r].slot.Some? && reqs[r].buf.Some? {
        MappedRowIsTheirs(r, keep, toFree);
      } else if toFree == [] {
        assert Distinct(toFree) by { NoneIsDistinct(); }
      } else if reqs[r].buf.None? {
        assert toFree[0] in toFree;
        NoEntries(owner, reqs, r, toFree[0]);
      } else {
        ZeroIsFreed(keep);
        ZeroIsNoSlot(freeMamba, owner, size);
      }
    }

    /** Without a request slot the whole table is freed, or nothing: row 0 with it. */
    lemma ZeroIsFreed(keep: Option<int>)
      requires RowsOk(bufRow, reqSize, bufSize) && 1 <= bufSize <= 2 && Freed(None, bufRow, keep).Ok?
      ensures Freed(None, bufRow, keep).value == [] || 0 in Freed(None, bufRow, keep).value
      ensures keep == None ==> 0 in Freed(None, bufRow, keep).value
    {
      assert bufRow[0][0] == 0 && bufRow[0][0] in bufRow[0];
      assert Flat(bufRow) == bufRow[0] + Flat(bufRow[1..]);
      assert 0 in Flat(bufRow);
    }

    lemma MappedRowIsTheirs(r: Rid, keep: Option<int>, toFree: seq<int>)
      requires Valid() && Mapped() && extra && r in reqs && reqs[r].slot.Some? && reqs[r].buf.Some?
      requires |bufRow| == reqSize + 1 && 1 <= bufSize <= 2
      requires reqs[r].slot.value <= reqSize && |bufRow[reqs[r].slot.value]| == bufSize
      requires Freed(reqs[r].slot, bufRow, keep) == Ok(toFree)
      ensures Ok(toFree) == ToFree(reqs[r].buf.value, keep) && TheirsToFree(owner, r, toFree)
      ensures forall s :: s in toFree && s in owner ==> !owner[s].Outside?
    {
      hide SlotsOk, GenOk, OwnersOk, FreeOk, RowsOk, ReqsOk, Distinct, ToFree, Flat;
      MappedRow(r, keep);
      EntriesAreOwned(reqs, owner, r, bufSize, lazy);
      ToFreeIsPart(reqs, owner, r, keep);
    }

    lemma ToFreeIsPart(reqs: Reqs, owner: Owners, r: Rid, keep: Option<int>)
      requires 1 <= bufSize <= 2 && r in reqs && reqs[r].buf.Some? && |reqs[r].buf.value| == bufSize
      requires BufOk(r, reqs[r].buf.value, owner, bufSize, lazy) && ToFree(reqs[r].buf.value, keep).Ok?
      ensures Distinct(ToFree(reqs[r].buf.value, keep).value)
      ensures forall s :: s in ToFree(reqs[r].buf.value, keep).value ==> s in reqs[r].buf.value && s != -1
    {
      var buf := reqs[r].buf.value;
      FilledIsDistinct(buf);
      if lazy && bufSize == 2 && keep.Some? { FilledIsDistinct([buf[1 - keep.value]]); }
    }

    /** ReqToTokenPool.free */
    method FreeSlot(r: Rid) returns (res: Result<(), PoolError>)
      requires Valid() && Mapped() && r in reqs
      modifies this`reqs, this`freeSlots, this`holder
      ensures Valid() && Mapped()
      ensures res.Err? <==> old(reqs)[r].slot.None?
      ensures res.Err? ==> reqs == old(reqs) && freeSlots == old(freeSlots)
      ensures res.Ok? ==>
        reqs == old(reqs)[r := old(reqs)[r].(slot := None)] && freeSlots == old(freeSlots) + [old(reqs)[r].slot.value]
    {
      hide SlotsOk, GenOk, OwnersOk, FreeOk, RowsOk, ReqsOk, Distinct, MappedOk;
      if reqs[r].slot.None? { return Err(DoubleFree); }
      var req := reqs[r].(slot := None);
      SlotFreed(freeSlots, holder, reqs, reqSize, r);
      OtherFieldsKeepBooks(owner, reqs, r, req, bufSize, lazy);
      ForgettingKeepsRows(reqs, r, req, mambaRow, bufRow, extra);
      freeSlots := freeSlots + [reqs[r].slot.value];
      holder := holder[reqs[r].slot.value := None];
      reqs := reqs[r := req];
      res := Ok(());
    }

    /** A prefix hit gives a waiting request the working slot its state is copied into. */
    method Adopt(r: Rid, s: int)
      requires Valid() && Mapped() && r in reqs && reqs[r].slot.None? && reqs[r].mamba.None?
      requires s in owner && owner[s].Outside?
      modifies this`reqs, this`owner
      ensures Valid() && Mapped()
      ensures reqs == old(reqs)[r := old(reqs)[r].(mamba := Some(s))] && owner == old(owner)[s := Working(r)]
    {
      hide SlotsOk, GenOk, OwnersOk, FreeOk, RowsOk, ReqsOk, Distinct, MappedOk;
      var req := reqs[r].(mamba := Some(s));
      WorkingTaken(owner, reqs, r, s, bufSize, lazy, req);
      FreeUnmoved(freeMamba, owner, owner[s := Working(r)], size);
      OtherFieldsKeepSlots(freeSlots, holder, reqs, reqSize, r, req);
      ForgettingKeepsRows(reqs, r, req, mambaRow, bufRow, extra);
      owner := owner[s := Working(r)];
      reqs := reqs[r := req];
    }

    /** The scheduler moves a request's tracking positions. */
    method MoveTrack(r: Rid, next: nat, last: nat)
      requires Valid() && Mapped() && r in reqs
      modifies this`reqs
      ensures Valid() && Mapped()
      ensures reqs == old(reqs)[r := old(reqs)[r].(nextTrack := Some(next), lastTrack := Some(last))]
    {
      hide SlotsOk, GenOk, OwnersOk, FreeOk, RowsOk, ReqsOk, Distinct, MappedOk;
      var req := reqs[r].(nextTrack := Some(next), lastTrack := Some(last));
      OtherFieldsKeepBooks(owner, reqs, r, req, bufSize, lazy);
      OtherFieldsKeepSlots(freeSlots, holder, reqs, reqSize, r, req);
      ForgettingKeepsRows(reqs, r, req, mambaRow, bufRow, extra);
      reqs := reqs[r := req];
    }

    /** A request that holds nothing yet. */
    method AddReq(r: Rid, inflight: nat, committed: nat)
      requires Valid() && Mapped() && r !in reqs
      modifies this`reqs
      ensures Valid() && Mapped() && reqs == old(reqs)[r := NewReq(inflight, committed)]
    {
      hide SlotsOk, GenOk, OwnersOk, FreeOk, RowsOk, ReqsOk, Distinct;
      NewcomerKeepsBooks(reqs, r, NewReq(inflight, committed), owner, bufSize, lazy, freeSlots, holder, reqSize);
      reqs := reqs[r := NewReq(inflight, committed)];
    }

    constructor (size: nat, reqSize: nat, extra: bool, lazy: bool, bufSize: nat)
      requires bufSize == 1 || bufSize == 2
      ensures Valid() && Mapped() && reqs == map[] && history == [] && owner == AllFree(size)
      ensures this.size == size && this.reqSize == reqSize && this.extra == extra && this.lazy == lazy && this.bufSize == bufSize
    {
      this.size, this.reqSize, this.extra, this.lazy, this.bufSize := size, reqSize, extra, lazy, bufSize;
      freeSlots, generation, reqs := Range(reqSize), Zeros(reqSize + 1), map[];
      freeMamba := Range(size);
      mambaRow, bufRow := Zeros(reqSize + 1), ZeroRows(reqSize + 1, bufSize);
      holder, history, owner := NoHolders(reqSize), [], AllFree(size);
      FreshStateSlots(size, map[]);
      FreshRequestSlots(reqSize, map[]);
    }

    /** clear: every slot is free again, generations start over, the tables are zeroed; request
        objects are not visited, so the books balance exactly when no request held anything. */
    method Clear()
      requires Valid()
      modifies this
      ensures freeSlots == Range(reqSize) && freeMamba == Range(size) && reqs == old(reqs)
      ensures generation == Zeros(reqSize + 1) && history == [] && owner == AllFree(size)
      ensures Valid() <==> forall r :: r in reqs ==> HoldsNothing(reqs[r])
      ensures Valid() ==> Mapped()
    {
      hide SlotsOk, OwnersOk, FreeOk, ReqsOk, GenOk, RowsOk, Range, AllFree, NoHolders, HoldsNothing, MappedOk, Zeros, ZeroRows;
      FreshTables(reqSize, bufSize);
      if forall r :: r in reqs ==> reqs[r].slot.None? {
        NobodyMapped(reqs, Zeros(reqSize + 1), if extra then ZeroRows(reqSize + 1, bufSize) else bufRow, extra);
      }
      FreshStateSlots(size, reqs);
      FreshRequestSlots(reqSize, reqs);
      FreshRequests(size, reqs, owner, bufSize, lazy);
      freeSlots, generation := Range(reqSize), Zeros(reqSize + 1);
      freeMamba := Range(size);
      mambaRow := Zeros(reqSize + 1);
      if extra { bufRow := ZeroRows(reqSize + 1, bufSize); }
      holder, history, owner := NoHolders(reqSize), [], AllFree(size);
    }
  }

  function NewReq(inflight: nat, committed: nat): Req {
    Req(None, None, None, None, None, false, inflight, committed)
  }

  function Flat(table: seq<seq<int>>): seq<int> {
    if table == [] then [] else table[0] + Flat(table[1..])
  }

  /** The entries other than -1, in order. */
  function Filled(row: seq<int>): (res: seq<int>)
    ensures forall s :: s in res <==> s in row && s != -1
  {
    if row == [] then [] else (if row[0] == -1 then [] else [row[0]]) + Filled(row[1..])
  }

  lemma {:induction false} FilledIsDistinct(row: seq<int>)
    requires forall i, j :: 0 <= i < j < |row| && row[i] == row[j] ==> row[i] == -1
    ensures Distinct(Filled(row))
  {
    if row != [] {
      FilledIsDistinct(row[1..]);
      assert forall i :: 0 <= i < |row| - 1 ==> row[1..][i] == row[i + 1];
      assert row[0] == -1 || row[0] !in row[1..];
      assert row[0] == -1 || row[0] !in Filled(row[1..]);
    }
  }

  lemma NoneIsDistinct()
    ensures Distinct<int>([])
  {
  }

  lemma NoEntries(owner: Owners, reqs: Reqs, r: Rid, s: int)
    requires OwnersOk(owner, reqs) && r in reqs && reqs[r].buf.None?
    ensures s in owner ==> !(owner[s].Tracking? && owner[s].r == r)
  {
  }

  lemma ZeroIsNoSlot(free: seq<int>, owner: Owners, size: nat)
    requires FreeOk(free, owner, size)
    ensures 0 !in owner
  {
  }

  lemma BufferLength(reqs: Reqs, owner: Owners, r: Rid, bufSize: nat, lazy: bool)
    requires ReqsOk(reqs, owner, bufSize, lazy) && r in reqs && reqs[r].buf.Some?
    ensures |reqs[r].buf.value| == bufSize
  {
    assert ReqOk(r, reqs[r], owner, bufSize, lazy);
  }

  lemma EntriesAreOwned(reqs: Reqs, owner: Owners, r: Rid, bufSize: nat, lazy: bool)
    requires ReqsOk(reqs, owner, bufSize, lazy) && r in reqs && reqs[r].buf.Some?
    ensures BufOk(r, reqs[r].buf.value, owner, bufSize, lazy)
    ensures forall s :: s in reqs[r].buf.value && s != -1 ==> s in owner && Mine(owner[s], r)
  {
    assert ReqOk(r, reqs[r], owner, bufSize, lazy);
  }

  lemma EntryOwned(reqs: Reqs, owner: Owners, r: Rid, i: nat, bufSize: nat, lazy: bool)
    requires ReqsOk(reqs, owner, bufSize, lazy) && r in reqs && reqs[r].buf.Some? && i < |reqs[r].buf.value|
    ensures var s := reqs[r].buf.value[i];
            if s == -1 then lazy else s in owner && owner[s] == Tracking(r, i)
  {
    assert ReqOk(r, reqs[r], owner, bufSize, lazy);
  }

  lemma OneRowStaysOk(rows: seq<seq<int>>, size: nat, bufSize: nat, k: nat, row: seq<int>)
    requires RowsOk(rows, size, bufSize) && |row| == bufSize && 1 <= k <= size
    ensures |rows| == size + 1 && RowsOk(rows[k := row], size, bufSize)
  {
  }

  lemma RowLength(rows: seq<seq<int>>, size: nat, bufSize: nat)
    requires RowsOk(rows, size, bufSize)
    ensures |rows| == size + 1 && forall k :: 0 <= k < |rows| ==> |rows[k]| == bufSize
  {
  }

  lemma SlotInTable(free: seq<nat>, holder: Holders, reqs: Reqs, size: nat, r: Rid)
    requires SlotsOk(free, holder, reqs, size) && r in reqs && reqs[r].slot.Some?
    ensures 1 <= reqs[r].slot.value <= size
  {
  }

  /** torch.stack over the batch's working slots, and over its buffers. */
  function Stacked(reqs: Reqs, rids: seq<Rid>): seq<int> {
    seq(|rids|, i requires 0 <= i < |rids| =>
      if rids[i] in reqs && reqs[rids[i]].mamba.Some? then reqs[rids[i]].mamba.value else 0)
  }

  function StackedBufs(reqs: Reqs, rids: seq<Rid>, bufSize: nat): seq<seq<int>> {
    seq(|rids|, i requires 0 <= i < |rids| =>
      if rids[i] in reqs && reqs[rids[i]].buf.Some? then reqs[rids[i]].buf.value else seq(bufSize, _ => 0))
  }

  lemma RowsStayOk(rows: seq<seq<int>>, ids: seq<nat>, bufs: seq<seq<int>>, size: nat, bufSize: nat)
    requires RowsOk(rows, size, bufSize) && |bufs| == |ids| && 0 !in ids
    requires forall i :: 0 <= i < |bufs| ==> |bufs[i]| == bufSize
    ensures RowsOk(Scatter(rows, ids, bufs), size, bufSize)
    ensures |rows| == size + 1
  {
  }

  lemma OutsideStays(a: Owners, b: Owners, c: Owners)
    ensures OutsideKept(a, a)
    ensures OutsideKept(a, b) && OutsideKept(b, c) ==> OutsideKept(a, c)
  {
  }

  lemma NoSlotIsMinusOne(free: seq<int>, owner: Owners, size: nat)
    requires FreeOk(free, owner, size)
    ensures -1 !in owner
  {
  }

  lemma MovesBetweenNobodies(owner: Owners, slots: seq<int>, to: Owner)
    requires Nobodys(to) && forall s :: s in slots ==> s in owner && Nobodys(owner[s])
    ensures Give(owner, slots, to).Keys == owner.Keys
    ensures forall s :: s in owner && Give(owner, slots, to)[s] != owner[s] ==> Nobodys(owner[s]) && Nobodys(Give(owner, slots, to)[s])
  {
  }
}
