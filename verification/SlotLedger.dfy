/** Who owns each recurrent-state slot and each request slot, as values: the invariants of the
    hybrid pool and what one transfer of ownership keeps. */
module SlotLedger {
  import opened Wrappers
  import opened Finite
  import opened IndexTensors

  type Rid = nat

  datatype Owner = Free | Working(r: Rid) | Tracking(r: Rid, idx: nat) | Outside

  datatype Req = Req(
    slot: Option<nat>,
    mamba: Option<int>,
    buf: Option<seq<int>>,
    nextTrack: Option<nat>,
    lastTrack: Option<nat>,
    needsClear: bool,
    inflight: nat,
    committed: nat)

  type Owners = map<int, Owner>
  type Reqs = map<Rid, Req>
  type Holders = map<nat, Option<Rid>>

  // ---------------------------------------------------------------- recurrent-state slots

  /** Slots 1 to size each have one owner, and the free list names the free ones once each. */
  ghost predicate FreeOk(free: seq<int>, owner: Owners, size: nat) {
    && (forall s :: s in owner <==> 1 <= s <= size)
    && Distinct(free)
    && (forall s :: s in free <==> s in owner && owner[s].Free?)
  }

  ghost predicate Mine(o: Owner, r: Rid) {
    (o.Working? || o.Tracking?) && o.r == r
  }

  ghost predicate Nobodys(o: Owner) { o.Free? || o.Outside? }

  /** A request that owns slot s by this title refers to it. */
  ghost predicate Refers(o: Owner, s: int, req: Req) {
    match o
    case Working(_) => req.mamba == Some(s)
    case Tracking(_, i) => req.buf.Some? && i < |req.buf.value| && req.buf.value[i] == s
    case _ => true
  }

  /** Every slot a buffer names is owned through it; -1 stands for none, in lazy mode only. */
  ghost predicate BufOk(r: Rid, buf: seq<int>, owner: Owners, bufSize: nat, lazy: bool) {
    && |buf| == bufSize
    && forall i :: 0 <= i < |buf| ==>
      if buf[i] == -1 then lazy else buf[i] in owner && owner[buf[i]] == Tracking(r, i)
  }

  ghost predicate WorkingOk(r: Rid, s: int, owner: Owners) {
    s in owner && owner[s] == Working(r)
  }

  ghost predicate ReqOk(r: Rid, req: Req, owner: Owners, bufSize: nat, lazy: bool) {
    && (req.mamba.Some? ==> WorkingOk(r, req.mamba.value, owner))
    && (req.buf.Some? ==> BufOk(r, req.buf.value, owner, bufSize, lazy))
  }

  ghost predicate ReqsOk(reqs: Reqs, owner: Owners, bufSize: nat, lazy: bool) {
    forall r :: r in reqs ==> ReqOk(r, reqs[r], owner, bufSize, lazy)
  }

  ghost predicate OwnersOk(owner: Owners, reqs: Reqs) {
    forall s :: s in owner && !Nobodys(owner[s]) ==> owner[s].r in reqs && Refers(owner[s], s, reqs[owner[s].r])
  }

  /** Nothing changes hands except between one request and nobody. */
  ghost predicate OnlyTouches(owner: Owners, owner': Owners, r: Rid) {
    && owner'.Keys == owner.Keys
    && forall s :: s in owner && owner'[s] != owner[s] ==>
      (Nobodys(owner[s]) || Mine(owner[s], r)) && (Nobodys(owner'[s]) || Mine(owner'[s], r))
  }

  /** One request gains or gives up slots: the books still balance when its own entries do. */
  lemma TransferKeepsBooks(owner: Owners, owner': Owners, reqs: Reqs, r: Rid, req': Req, bufSize: nat, lazy: bool)
    requires r in reqs && ReqsOk(reqs, owner, bufSize, lazy) && OwnersOk(owner, reqs)
    requires OnlyTouches(owner, owner', r)
    requires ReqOk(r, req', owner', bufSize, lazy)
    requires forall s :: s in owner' && Mine(owner'[s], r) ==> Refers(owner'[s], s, req')
    ensures ReqsOk(reqs[r := req'], owner', bufSize, lazy)
    ensures OwnersOk(owner', reqs[r := req'])
  {
    var reqs' := reqs[r := req'];
    forall q | q in reqs' ensures ReqOk(q, reqs'[q], owner', bufSize, lazy) {
      if q != r { assert ReqOk(q, reqs[q], owner, bufSize, lazy); }
    }
  }

  /** Slots move between nobody and nobody: no request notices. */
  lemma NeutralKeepsBooks(owner: Owners, owner': Owners, reqs: Reqs, bufSize: nat, lazy: bool)
    requires ReqsOk(reqs, owner, bufSize, lazy) && OwnersOk(owner, reqs)
    requires owner'.Keys == owner.Keys
    requires forall s :: s in owner && owner'[s] != owner[s] ==> Nobodys(owner[s]) && Nobodys(owner'[s])
    ensures ReqsOk(reqs, owner', bufSize, lazy) && OwnersOk(owner', reqs)
  {
    forall q | q in reqs ensures ReqOk(q, reqs[q], owner', bufSize, lazy) {
      assert ReqOk(q, reqs[q], owner, bufSize, lazy);
    }
  }

  /** Only what a request holds of the recurrent-state pool matters here. */
  lemma OtherFieldsKeepBooks(owner: Owners, reqs: Reqs, r: Rid, req': Req, bufSize: nat, lazy: bool)
    requires r in reqs && ReqsOk(reqs, owner, bufSize, lazy) && OwnersOk(owner, reqs)
    requires req'.mamba == reqs[r].mamba && req'.buf == reqs[r].buf
    ensures ReqsOk(reqs[r := req'], owner, bufSize, lazy) && OwnersOk(owner, reqs[r := req'])
  {
    assert ReqOk(r, reqs[r], owner, bufSize, lazy);
    TransferKeepsBooks(owner, owner, reqs, r, req', bufSize, lazy);
  }

  /** The listed slots change hands. */
  function Give(owner: Owners, slots: seq<int>, to: Owner): Owners {
    map s | s in owner :: if s in slots then to else owner[s]
  }

  lemma TakeFromFree(free: seq<int>, owner: Owners, size: nat, n: nat)
    requires FreeOk(free, owner, size) && n <= |free|
    ensures FreeOk(free[n..], Give(owner, free[..n], Outside), size)
    ensures forall s :: s in free[..n] ==> s in owner && owner[s].Free?
    ensures Distinct(free[..n])
  {
    assert free == free[..n] + free[n..];
    forall s | s in free[..n] ensures s !in free[n..] {
      var i :| 0 <= i < n && free[..n][i] == s;
      assert forall j :: 0 <= j < |free| - n ==> free[n..][j] == free[n + j];
    }
  }

  lemma ReturnToFree(free: seq<int>, owner: Owners, size: nat, slots: seq<int>)
    requires FreeOk(free, owner, size) && Distinct(slots)
    requires forall s :: s in slots ==> s in owner && owner[s].Outside?
    ensures FreeOk(free + slots, Give(owner, slots, Free), size)
  {
    forall i, j | 0 <= i < j < |free + slots| ensures (free + slots)[i] != (free + slots)[j] {
      if i < |free| <= j { assert free[i] in free && slots[j - |free|] in slots; }
    }
  }

  // ---------------------------------------------------------------- what one request gains or gives up

  /** Slots that a buffer's entries come to own, each under its own index. */
  function Track(owner: Owners, slots: seq<int>, r: Rid): Owners {
    map s | s in owner :: if s in slots then Tracking(r, IndexOf(slots, s)) else owner[s]
  }

  /** slots, then -1 up to the buffer size. */
  function Padded(slots: seq<int>, bufSize: nat): seq<int>
    requires |slots| <= bufSize
  {
    slots + seq(bufSize - |slots|, _ => -1)
  }

  /** What is held outside the request pool stays there, and nothing joins it. */
  ghost predicate OutsideKept(owner: Owners, owner': Owners) {
    owner'.Keys == owner.Keys && forall s :: s in owner ==> (owner[s].Outside? <==> owner'[s].Outside?)
  }

  ghost predicate SameFreedom(owner: Owners, owner': Owners) {
    owner'.Keys == owner.Keys && forall s :: s in owner ==> (owner[s].Free? <==> owner'[s].Free?)
  }

  lemma WorkingTaken(owner: Owners, reqs: Reqs, r: Rid, s: int, bufSize: nat, lazy: bool, req': Req)
    requires r in reqs && reqs[r].mamba.None? && s in owner && owner[s].Outside?
    requires ReqsOk(reqs, owner, bufSize, lazy) && OwnersOk(owner, reqs)
    requires req'.mamba == Some(s) && req'.buf == reqs[r].buf
    ensures ReqsOk(reqs[r := req'], owner[s := Working(r)], bufSize, lazy)
    ensures OwnersOk(owner[s := Working(r)], reqs[r := req']) && SameFreedom(owner, owner[s := Working(r)])
  {
    assert ReqOk(r, reqs[r], owner, bufSize, lazy);
    TransferKeepsBooks(owner, owner[s := Working(r)], reqs, r, req', bufSize, lazy);
  }

  lemma WorkingLeft(owner: Owners, reqs: Reqs, r: Rid, bufSize: nat, lazy: bool, req': Req)
    requires r in reqs && reqs[r].mamba.Some?
    requires ReqsOk(reqs, owner, bufSize, lazy) && OwnersOk(owner, reqs)
    requires req'.mamba.None? && req'.buf == reqs[r].buf
    ensures var s := reqs[r].mamba.value;
            && s in owner && owner[s] == Working(r)
            && ReqsOk(reqs[r := req'], owner[s := Outside], bufSize, lazy)
            && OwnersOk(owner[s := Outside], reqs[r := req']) && SameFreedom(owner, owner[s := Outside])
  {
    assert ReqOk(r, reqs[r], owner, bufSize, lazy);
    TransferKeepsBooks(owner, owner[reqs[r].mamba.value := Outside], reqs, r, req', bufSize, lazy);
  }

  lemma BufferTaken(owner: Owners, reqs: Reqs, r: Rid, slots: seq<int>, bufSize: nat, lazy: bool, req': Req)
    requires r in reqs && reqs[r].buf.None? && |slots| <= bufSize && (|slots| < bufSize ==> lazy)
    requires Distinct(slots) && forall s :: s in slots ==> s in owner && s != -1 && owner[s].Outside?
    requires ReqsOk(reqs, owner, bufSize, lazy) && OwnersOk(owner, reqs)
    requires req'.buf == Some(Padded(slots, bufSize)) && req'.mamba == reqs[r].mamba
    ensures ReqsOk(reqs[r := req'], Track(owner, slots, r), bufSize, lazy)
    ensures OwnersOk(Track(owner, slots, r), reqs[r := req']) && SameFreedom(owner, Track(owner, slots, r))
  {
    var owner' := Track(owner, slots, r);
    var buf := Padded(slots, bufSize);
    assert ReqOk(r, reqs[r], owner, bufSize, lazy);
    forall i | 0 <= i < |buf|
      ensures if buf[i] == -1 then lazy else buf[i] in owner' && owner'[buf[i]] == Tracking(r, i)
    {
      if i < |slots| {
        assert buf[i] == slots[i] && slots[i] in slots;
        IndexOfDistinct(slots, i);
      }
    }
    forall s | s in owner' && Mine(owner'[s], r) ensures Refers(owner'[s], s, req') {
      if s in slots {
        assert buf[IndexOf(slots, s)] == s;
      } else {
        assert Refers(owner[s], s, reqs[r]);
      }
    }
    TransferKeepsBooks(owner, owner', reqs, r, req', bufSize, lazy);
  }

  lemma BufferLeft(owner: Owners, reqs: Reqs, r: Rid, bufSize: nat, lazy: bool, req': Req)
    requires r in reqs && reqs[r].buf.Some? && -1 !in owner
    requires ReqsOk(reqs, owner, bufSize, lazy) && OwnersOk(owner, reqs)
    requires req'.buf.None? && req'.mamba == reqs[r].mamba
    ensures var owner' := Give(owner, reqs[r].buf.value, Outside);
            && ReqsOk(reqs[r := req'], owner', bufSize, lazy)
            && OwnersOk(owner', reqs[r := req']) && SameFreedom(owner, owner')
  {
    var owner' := Give(owner, reqs[r].buf.value, Outside);
    assert ReqOk(r, reqs[r], owner, bufSize, lazy);
    forall s | s in owner && owner'[s] != owner[s] ensures Mine(owner[s], r) && owner[s].Tracking? {
      var i :| 0 <= i < |reqs[r].buf.value| && reqs[r].buf.value[i] == s;
    }
    TransferKeepsBooks(owner, owner', reqs, r, req', bufSize, lazy);
  }

  /** The owners once entry idx of the buffer, holding `was`, holds `now`. */
  function Swap(owner: Owners, r: Rid, idx: nat, was: int, now: int): Owners {
    map s | s in owner :: if s == now then Tracking(r, idx) else if s == was then Outside else owner[s]
  }

  lemma EntrySwapped(owner: Owners, reqs: Reqs, r: Rid, idx: nat, now: int, bufSize: nat, lazy: bool, req': Req)
    requires r in reqs && reqs[r].buf.Some? && idx < |reqs[r].buf.value| && -1 !in owner
    requires if now == -1 then lazy else now in owner && owner[now].Outside?
    requires ReqsOk(reqs, owner, bufSize, lazy) && OwnersOk(owner, reqs)
    requires req'.buf == Some(reqs[r].buf.value[idx := now]) && req'.mamba == reqs[r].mamba
    ensures var owner' := Swap(owner, r, idx, reqs[r].buf.value[idx], now);
            && ReqsOk(reqs[r := req'], owner', bufSize, lazy)
            && OwnersOk(owner', reqs[r := req']) && SameFreedom(owner, owner')
  {
    var was := reqs[r].buf.value[idx];
    var owner' := Swap(owner, r, idx, was, now);
    assert ReqOk(r, reqs[r], owner, bufSize, lazy);
    TransferKeepsBooks(owner, owner', reqs, r, req', bufSize, lazy);
  }

  lemma FreeUnmoved(free: seq<int>, owner: Owners, owner': Owners, size: nat)
    requires FreeOk(free, owner, size) && SameFreedom(owner, owner')
    ensures FreeOk(free, owner', size)
  {
  }

  // ---------------------------------------------------------------- freeing through a table row

  /** The listed slots are different ones, each owned by this request's buffer or held outside. */
  ghost predicate TheirsToFree(owner: Owners, r: Rid, slots: seq<int>) {
    && Distinct(slots)
    && forall s :: s in slots ==> s in owner && (owner[s].Outside? || (owner[s].Tracking? && owner[s].r == r))
  }

  /** Nothing held outside, by the prefix cache for one, is taken away. */
  ghost predicate CacheKept(owner: Owners, owner': Owners) {
    forall s :: s in owner && owner[s].Outside? ==> s in owner' && owner'[s].Outside?
  }

  function Entries(req: Req): seq<int> { if req.buf.Some? then req.buf.value else [] }

  /** The owners after a request gave up its buffer and these slots went to the free list. */
  function AfterFree(owner: Owners, buf: seq<int>, slots: seq<int>): Owners {
    Give(Give(owner, buf, Outside), slots, Free)
  }

  /** Freeing slots in a request's name balances the books when they are its own or nobody's. */
  lemma FreeingTheirs(free: seq<int>, owner: Owners, size: nat, reqs: Reqs, r: Rid, slots: seq<int>,
                      bufSize: nat, lazy: bool, req': Req)
    requires FreeOk(free, owner, size) && r in reqs && ReqsOk(reqs, owner, bufSize, lazy) && OwnersOk(owner, reqs)
    requires TheirsToFree(owner, r, slots) && req'.buf.None? && req'.mamba == reqs[r].mamba
    ensures var owner' := AfterFree(owner, Entries(reqs[r]), slots);
            && FreeOk(free + slots, owner', size)
            && ReqsOk(reqs[r := req'], owner', bufSize, lazy) && OwnersOk(owner', reqs[r := req'])
  {
    var buf := Entries(reqs[r]);
    var mid := Give(owner, buf, Outside);
    assert -1 !in owner;
    forall s | s in slots ensures s in mid && mid[s].Outside? {
      if owner[s].Tracking? { assert Refers(owner[s], s, reqs[r]); }
    }
    hide Refers, ReqsOk, OwnersOk;
    if reqs[r].buf.Some? {
      BufferLeft(owner, reqs, r, bufSize, lazy, req');
    } else {
      assert mid == owner;
      OtherFieldsKeepBooks(owner, reqs, r, req', bufSize, lazy);
    }
    FreeUnmoved(free, owner, mid, size);
    ReturnToFree(free, mid, size, slots);
    NeutralKeepsBooks(mid, Give(mid, slots, Free), reqs[r := req'], bufSize, lazy);
  }

  /** ... and only then: any other slot ends free twice, or free and in use, or is no slot. */
  lemma FreeingOthers(free: seq<int>, owner: Owners, size: nat, reqs: Reqs, r: Rid, slots: seq<int>,
                      bufSize: nat, lazy: bool, req': Req, owner': Owners)
    requires FreeOk(free, owner, size) && r in reqs && ReqsOk(reqs, owner, bufSize, lazy) && OwnersOk(owner, reqs)
    requires reqs[r].mamba.None?
    requires FreeOk(free + slots, owner', size) && ReqsOk(reqs[r := req'], owner', bufSize, lazy)
    ensures TheirsToFree(owner, r, slots)
  {
    ApartInConcat(free, slots);
    var reqs' := reqs[r := req'];
    forall q | q in reqs && q != r ensures ReqOk(q, reqs[q], owner', bufSize, lazy) {
      assert reqs'[q] == reqs[q] && q in reqs';
    }
    forall s | s in slots
      ensures s in owner && (owner[s].Outside? || (owner[s].Tracking? && owner[s].r == r))
    {
      assert s in free + slots && s in owner' && s !in free;
      assert Nobodys(owner[s]) || Refers(owner[s], s, reqs[owner[s].r]);
    }
  }

  /** The cache keeps what it holds exactly when none of it is freed. */
  lemma CacheKeptIff(owner: Owners, buf: seq<int>, slots: seq<int>)
    ensures CacheKept(owner, AfterFree(owner, buf, slots)) <==> forall s :: s in slots && s in owner ==> !owner[s].Outside?
  {
    var owner' := AfterFree(owner, buf, slots);
    forall s | s in owner && owner[s].Outside? ensures s in owner' && (owner'[s].Outside? <==> s !in slots) {
    }
  }

  lemma ApartInConcat(a: seq<int>, b: seq<int>)
    requires Distinct(a + b)
    ensures Distinct(b) && forall s :: s in b ==> s !in a
  {
    var all := a + b;
    assert forall i :: 0 <= i < |b| ==> b[i] == all[|a| + i];
    forall j | 0 <= j < |b| ensures b[j] !in a {
      assert all[|a| + j] == b[j];
      forall i | 0 <= i < |a| ensures a[i] != b[j] { assert all[i] == a[i]; }
    }
  }

  // ---------------------------------------------------------------- request slots

  ghost predicate SlotsOk(free: seq<nat>, holder: Holders, reqs: Reqs, size: nat) {
    && (forall k :: k in holder <==> 1 <= k <= size)
    && Distinct(free)
    && (forall k :: k in free <==> k in holder && holder[k].None?)
    && (forall k :: k in holder && holder[k].Some? ==>
        holder[k].value in reqs && reqs[holder[k].value].slot == Some(k))
    && (forall r :: r in reqs && reqs[r].slot.Some? ==>
        reqs[r].slot.value in holder && holder[reqs[r].slot.value] == Some(r))
  }

  lemma SlotTaken(a: seq<nat>, k: nat, b: seq<nat>, holder: Holders, reqs: Reqs, size: nat, r: Rid)
    requires SlotsOk(a + [k] + b, holder, reqs, size) && r in reqs && reqs[r].slot == None
    ensures 1 <= k <= size && forall q :: q in reqs ==> reqs[q].slot != Some(k)
    ensures SlotsOk(a + b, holder[k := Some(r)], reqs[r := reqs[r].(slot := Some(k))], size)
  {
    var free := a + [k] + b;
    assert free[|a|] == k && k in free;
    forall i, j | 0 <= i < j < |a + b| ensures (a + b)[i] != (a + b)[j] {
      assert free[if i < |a| then i else i + 1] != free[if j < |a| then j else j + 1];
    }
    forall i | 0 <= i < |a + b| ensures (a + b)[i] != k {
      assert free[if i < |a| then i else i + 1] == (a + b)[i];
    }
    assert forall x :: x in a + b <==> x in free && x != k;
  }

  /** No two requests hold one slot, and a request that holds one holds a real one. */
  lemma SlotsApart(free: seq<nat>, holder: Holders, reqs: Reqs, size: nat, r: Rid, generation: seq<nat>, history: seq<(nat, nat)>)
    requires SlotsOk(free, holder, reqs, size) && GenOk(generation, history, size) && r in reqs
    ensures forall q, p :: q in reqs && p in reqs && q != p && reqs[q].slot.Some? ==> reqs[q].slot != reqs[p].slot
    ensures reqs[r].slot.Some? ==> reqs[r].slot.value < |generation|
  {
  }

  lemma SlotFreed(free: seq<nat>, holder: Holders, reqs: Reqs, size: nat, r: Rid)
    requires SlotsOk(free, holder, reqs, size) && r in reqs && reqs[r].slot.Some?
    ensures reqs[r].slot.value in holder && reqs[r].slot.value !in free
    ensures SlotsOk(free + [reqs[r].slot.value], holder[reqs[r].slot.value := None], reqs[r := reqs[r].(slot := None)], size)
  {
  }

  lemma OtherFieldsKeepSlots(free: seq<nat>, holder: Holders, reqs: Reqs, size: nat, r: Rid, req': Req)
    requires SlotsOk(free, holder, reqs, size) && r in reqs && req'.slot == reqs[r].slot
    ensures SlotsOk(free, holder, reqs[r := req'], size)
  {
  }

  /** Every request slot and generation handed out so far is handed out once. */
  ghost predicate GenOk(generation: seq<nat>, history: seq<(nat, nat)>, size: nat) {
    && |generation| == size + 1
    && Distinct(history)
    && forall i :: 0 <= i < |history| ==>
      1 <= history[i].0 <= size && history[i].1 <= generation[history[i].0]
  }

  lemma GenerationTaken(generation: seq<nat>, history: seq<(nat, nat)>, size: nat, k: nat)
    requires GenOk(generation, history, size) && 1 <= k <= size
    ensures |generation| == size + 1 && (k, generation[k] + 1) !in history
    ensures GenOk(generation[k := generation[k] + 1], history + [(k, generation[k] + 1)], size)
  {
  }

  /** One row per request slot; row 0, which padded batches point at, is never written. */
  ghost predicate RowsOk(rows: seq<seq<int>>, size: nat, bufSize: nat) {
    && |rows| == size + 1 && (forall k :: 0 <= k < |rows| ==> |rows[k]| == bufSize)
    && rows[0] == Zeros(bufSize)
  }

  /** A request's rows in the device tables repeat what the request itself says. */
  ghost predicate MappedOk(reqs: Reqs, mambaRow: seq<int>, bufRow: seq<seq<int>>, extra: bool) {
    forall r :: r in reqs && reqs[r].slot.Some? && reqs[r].slot.value < |mambaRow| && reqs[r].slot.value < |bufRow| ==>
      && (reqs[r].mamba.Some? ==> mambaRow[reqs[r].slot.value] == reqs[r].mamba.value)
      && (extra && reqs[r].buf.Some? ==> bufRow[reqs[r].slot.value] == reqs[r].buf.value)
  }

  /** Rewriting one request's row along with its buffer keeps the tables up to date. */
  lemma RowRewritten(reqs: Reqs, r: Rid, req': Req, free: seq<nat>, holder: Holders, size: nat,
                     mambaRow: seq<int>, bufRow: seq<seq<int>>, extra: bool)
    requires SlotsOk(free, holder, reqs, size) && MappedOk(reqs, mambaRow, bufRow, extra)
    requires r in reqs && req'.buf.Some? && req'.slot == reqs[r].slot && req'.mamba == reqs[r].mamba
    requires req'.slot.Some? && |mambaRow| == |bufRow| == size + 1
    ensures 1 <= req'.slot.value <= size
    ensures MappedOk(reqs[r := req'], mambaRow, bufRow[req'.slot.value := req'.buf.value], extra)
  {
    var k := req'.slot.value;
    assert holder[k] == Some(r);
    forall q | q in reqs && q != r && reqs[q].slot.Some? ensures reqs[q].slot.value != k {
      assert holder[reqs[q].slot.value] == Some(q);
    }
  }

  /** Forgetting a slot, a working slot or a buffer leaves nothing in the tables to keep. */
  lemma ForgettingKeepsRows(reqs: Reqs, r: Rid, req': Req, mambaRow: seq<int>, bufRow: seq<seq<int>>, extra: bool)
    requires MappedOk(reqs, mambaRow, bufRow, extra) && r in reqs
    requires req'.slot == None || req'.slot == reqs[r].slot
    requires req'.mamba == None || req'.mamba == reqs[r].mamba || req'.slot == None
    requires req'.buf == None || req'.buf == reqs[r].buf
    ensures MappedOk(reqs[r := req'], mambaRow, bufRow, extra)
  {
  }

  /** A batch's rows written into the tables bring them up to date again. */
  lemma RowsWritten(start: Reqs, reqs: Reqs, rids: seq<Rid>, ids: seq<nat>, free: seq<nat>, holder: Holders, size: nat,
                    mambaRow: seq<int>, bufRow: seq<seq<int>>, mambas: seq<int>, bufs: seq<seq<int>>, extra: bool)
    requires SlotsOk(free, holder, reqs, size) && |mambaRow| == |bufRow| == size + 1
    requires MappedOk(start, mambaRow, bufRow, extra)
    requires |rids| == |ids| == |mambas| == |bufs|
    requires forall r :: r in reqs && r !in rids ==> r in start && reqs[r] == start[r]
    requires forall i :: 0 <= i < |rids| ==>
      rids[i] in reqs && reqs[rids[i]].slot == Some(ids[i]) && reqs[rids[i]].mamba == Some(mambas[i])
      && (extra ==> reqs[rids[i]].buf == Some(bufs[i]))
    ensures MappedOk(reqs, Scatter(mambaRow, ids, mambas), if extra then Scatter(bufRow, ids, bufs) else bufRow, extra)
  {
    var mambaRow' := Scatter(mambaRow, ids, mambas);
    var bufRow' := if extra then Scatter(bufRow, ids, bufs) else bufRow;
    forall r | r in reqs && reqs[r].slot.Some? && reqs[r].slot.value <= size
      ensures reqs[r].mamba.Some? ==> mambaRow'[reqs[r].slot.value] == reqs[r].mamba.value
      ensures extra && reqs[r].buf.Some? ==> bufRow'[reqs[r].slot.value] == reqs[r].buf.value
    {
      var k := reqs[r].slot.value;
      if k in ids {
        var i := IndexOf(ids, k);
        assert reqs[rids[i]].slot == Some(k) && holder[k] == Some(r) && holder[k] == Some(rids[i]);
      } else {
        assert r !in rids;
      }
    }
  }

  // ---------------------------------------------------------------- a pool nobody has used

  /** 1 to n. */
  function Range(n: nat): seq<nat> {
    seq(n, i requires 0 <= i < n => i + 1)
  }

  function AllFree(size: nat): Owners {
    map s: int | s in Range(size) :: Free
  }

  function NoHolders(size: nat): Holders {
    map k | k in Range(size) :: None
  }

  lemma RangeHolds(n: nat)
    ensures Distinct(Range(n)) && forall s: int :: s in Range(n) <==> 1 <= s <= n
  {
    forall s: int | 1 <= s <= n ensures s in Range(n) { assert Range(n)[s - 1] == s; }
  }

  lemma FreshStateSlots(size: nat, reqs: Reqs)
    ensures FreeOk(Range(size), AllFree(size), size) && OwnersOk(AllFree(size), reqs)
  {
    RangeHolds(size);
  }

  lemma FreshRequestSlots(size: nat, reqs: Reqs)
    ensures SlotsOk(Range(size), NoHolders(size), reqs, size) <==> forall r :: r in reqs ==> reqs[r].slot.None?
  {
    RangeHolds(size);
  }

  function Zeros(n: nat): seq<nat> { seq(n, _ => 0) }

  function ZeroRows(n: nat, width: nat): seq<seq<int>> { seq(n, _ => Zeros(width)) }

  lemma FreshTables(size: nat, bufSize: nat)
    ensures GenOk(Zeros(size + 1), [], size) && RowsOk(ZeroRows(size + 1, bufSize), size, bufSize)
    ensures |Zeros(size + 1)| == size + 1
  {
  }

  lemma NobodyMapped(reqs: Reqs, mambaRow: seq<int>, bufRow: seq<seq<int>>, extra: bool)
    requires forall r :: r in reqs ==> reqs[r].slot.None?
    ensures MappedOk(reqs, mambaRow, bufRow, extra)
  {
  }

  predicate HoldsNothing(req: Req) {
    req.slot.None? && req.mamba.None? && (req.buf.Some? ==> forall i :: 0 <= i < |req.buf.value| ==> req.buf.value[i] == -1)
  }

  /** Once every slot is free again, the requests are in order exactly when none refers to any. */
  lemma FreshRequests(size: nat, reqs: Reqs, owner: Owners, bufSize: nat, lazy: bool)
    requires ReqsOk(reqs, owner, bufSize, lazy) && 1 <= bufSize
    ensures (forall r :: r in reqs ==> reqs[r].slot.None?) && ReqsOk(reqs, AllFree(size), bufSize, lazy)
            <==> forall r :: r in reqs ==> HoldsNothing(reqs[r])
  {
    forall r | r in reqs
      ensures reqs[r].slot.None? && ReqOk(r, reqs[r], AllFree(size), bufSize, lazy) <==> HoldsNothing(reqs[r])
    {
      assert ReqOk(r, reqs[r], owner, bufSize, lazy);
      if reqs[r].buf.Some? && HoldsNothing(reqs[r]) { assert reqs[r].buf.value[0] == -1; }
    }
  }

  lemma NewcomerKeepsBooks(reqs: Reqs, r: Rid, req: Req, owner: Owners, bufSize: nat, lazy: bool,
                           free: seq<nat>, holder: Holders, size: nat)
    requires r !in reqs && req.mamba.None? && req.buf.None? && req.slot.None?
    requires ReqsOk(reqs, owner, bufSize, lazy) && OwnersOk(owner, reqs) && SlotsOk(free, holder, reqs, size)
    ensures ReqsOk(reqs[r := req], owner, bufSize, lazy) && OwnersOk(owner, reqs[r := req])
    ensures SlotsOk(free, holder, reqs[r := req], size)
  {
    var reqs' := reqs[r := req];
    forall q | q in reqs' ensures ReqOk(q, reqs'[q], owner, bufSize, lazy) {
      if q != r { assert ReqOk(q, reqs[q], owner, bufSize, lazy); }
    }
  }

  // ---------------------------------------------------------------- conservation

  ghost function WorkingSlots(owner: Owners): set<int> { set s | s in owner && owner[s].Working? }
  ghost function TrackingSlots(owner: Owners): set<int> { set s | s in owner && owner[s].Tracking? }
  ghost function OutsideSlots(owner: Owners): set<int> { set s | s in owner && owner[s].Outside? }

  /** The four kinds of owner split the slots 1 to size: nothing is lost or counted twice. */
  lemma SlotsAreConserved(free: seq<int>, owner: Owners, size: nat)
    requires FreeOk(free, owner, size)
    ensures |free| + |WorkingSlots(owner)| + |TrackingSlots(owner)|
            + |OutsideSlots(owner)| == size
  {
    KeysAreRange(free, owner, size);
    KeysSplit(free, owner, size);
    hide *;
    DistinctSize<int>(free);
  }

  lemma KeysAreRange(free: seq<int>, owner: Owners, size: nat)
    requires FreeOk(free, owner, size)
    ensures |owner.Keys| == size && Distinct(free)
  {
    RangeHolds(size);
    forall s ensures s in owner.Keys <==> s in Elements<int>(Range(size)) {
      assert s in owner <==> s in Range(size);
    }
    assert owner.Keys == Elements<int>(Range(size));
    hide *;
    DistinctSize<int>(Range(size));
  }

  lemma KeysSplit(free: seq<int>, owner: Owners, size: nat)
    requires FreeOk(free, owner, size)
    ensures |owner.Keys| == |Elements<int>(free)| + |WorkingSlots(owner)|
                            + |TrackingSlots(owner)| + |OutsideSlots(owner)|
  {
    var parts := Elements<int>(free) + WorkingSlots(owner) + TrackingSlots(owner) + OutsideSlots(owner);
    forall s ensures s in owner.Keys <==> s in parts {
      if s in owner { assert owner[s].Free? || owner[s].Working? || owner[s].Tracking? || owner[s].Outside?; }
    }
    assert owner.Keys == parts;
    forall s | s in Elements<int>(free) ensures s in owner && owner[s].Free? { assert s in free; }
    assert WorkingSlots(owner) !! TrackingSlots(owner) && WorkingSlots(owner) !! OutsideSlots(owner)
           && TrackingSlots(owner) !! OutsideSlots(owner);
    assert Elements<int>(free) !! WorkingSlots(owner) + TrackingSlots(owner) + OutsideSlots(owner);
    hide *;
    UnionSize(Elements<int>(free), WorkingSlots(owner), TrackingSlots(owner), OutsideSlots(owner));
  }

  lemma UnionSize(a: set<int>, b: set<int>, c: set<int>, d: set<int>)
    requires a !! b + c + d && b !! c && b !! d && c !! d
    ensures |a + b + c + d| == |a| + |b| + |c| + |d|
  {
    assert |a + b| == |a| + |b|;
    assert |a + b + c| == |a + b| + |c|;
  }

  /** No slot is reachable from two places: two working slots, two buffer entries, or one of
      each are always different slots. */
  lemma NoSlotIsShared(reqs: Reqs, owner: Owners, bufSize: nat, lazy: bool, r: Rid, q: Rid)
    requires ReqsOk(reqs, owner, bufSize, lazy) && r in reqs && q in reqs && -1 !in owner
    ensures r != q && reqs[r].mamba.Some? ==> reqs[r].mamba != reqs[q].mamba
    ensures reqs[r].buf.Some? && reqs[q].mamba.Some? ==> reqs[q].mamba.value !in reqs[r].buf.value
    ensures reqs[r].buf.Some? && reqs[q].buf.Some? ==>
      forall i, j :: 0 <= i < |reqs[r].buf.value| && 0 <= j < |reqs[q].buf.value| && reqs[r].buf.value[i] == reqs[q].buf.value[j] != -1
        ==> r == q && i == j
  {
    assert ReqOk(r, reqs[r], owner, bufSize, lazy) && ReqOk(q, reqs[q], owner, bufSize, lazy);
  }
}
