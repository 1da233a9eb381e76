/** The streaming side state of PLE (n-gram history and short-conv window): one fixed-length
    row per slot, a gather of windows for each token, and the commit after each batch. */
module PleStream {
  import opened Wrappers
  import opened PleLayout

  function LastN<T>(s: seq<T>, n: nat): (r: seq<T>)
    requires n <= |s|
    ensures |r| == n
  {
    s[|s| - n..]
  }

  lemma LastOfLast<T>(a: seq<T>, b: seq<T>, n: nat, m: nat)
    requires n <= |a| && m <= n + |b|
    ensures LastN(LastN(a, n) + b, m) == LastN(a + b, m)
  {
  }

  /** The window a token sees: the state_len entries before it, and itself. */
  function WindowOf<T>(stream: seq<T>, n: nat): seq<T>
    requires n + 1 <= |stream|
  {
    LastN(stream, n + 1)
  }

  /** The window of token o of a chunk that continues a history. */
  function TokenWindow<T>(history: seq<T>, chunk: seq<T>, o: nat): seq<T>
    requires o < |chunk|
  {
    WindowOf(history + chunk[..o + 1], |history|)
  }

  /** One element of unfold(dim, n, 1), or a gather of n consecutive columns. */
  function Unfold<T>(s: seq<T>, o: nat, n: nat): (r: seq<T>)
    requires o + n <= |s|
    ensures |r| == n
  {
    s[o..o + n]
  }

  /** Reading a row [history | padded chunk] at a token's offset gives the token's window, and
      gathering at any offset inside the chunk gives the state after that many tokens. */
  lemma RowReads<T>(history: seq<T>, row: seq<T>, chunk: seq<T>, width: nat)
    requires HoldsChunk(row, chunk, width)
    ensures forall o :: 0 <= o < |chunk| ==>
              Unfold(history + row, o, |history| + 1) == TokenWindow(history, chunk, o)
    ensures forall o :: 0 <= o <= |chunk| ==>
              Unfold(history + row, o, |history|) == LastN(history + chunk[..o], |history|)
  {
    assert forall i :: 0 <= i < |chunk| ==> row[i] == row[..|chunk|][i] == chunk[i];
  }

  // ---------------------------------------------------------------- one batch, as a function

  /** One request's part of a committed batch: its state slot (0 for a padded sequence), its new
      tokens, and where the snapshot of its first `offset` tokens goes (0 when masked off). */
  datatype Plan<T> = Plan(slot: nat, chunk: seq<T>, dst: nat, offset: nat)

  ghost predicate Fits<T>(pool: seq<seq<T>>, n: nat, plans: seq<Plan<T>>) {
    && (forall s :: 0 <= s < |pool| ==> |pool[s]| == n)
    && (forall r :: 0 <= r < |plans| ==>
          plans[r].slot < |pool| && plans[r].dst < |pool| && plans[r].offset <= |plans[r].chunk|)
  }

  /** State after a plan's first `offset` tokens. */
  function After<T>(pool: seq<seq<T>>, n: nat, p: Plan<T>, offset: nat): (s: seq<T>)
    requires p.slot < |pool| && |pool[p.slot]| == n && offset <= |p.chunk|
    ensures |s| == n
  {
    LastN(pool[p.slot] + p.chunk[..offset], n)
  }

  /** pool[idx] = values, in row order. */
  function PutAll<T>(pool: seq<seq<T>>, n: nat, idx: seq<nat>, values: seq<seq<T>>): (r: seq<seq<T>>)
    requires |idx| == |values| && forall i :: 0 <= i < |idx| ==> idx[i] < |pool| && |values[i]| == n
    requires forall s :: 0 <= s < |pool| ==> |pool[s]| == n
    ensures |r| == |pool| && forall s :: 0 <= s < |r| ==> |r[s]| == n
    decreases |idx|
  {
    if idx == [] then pool
    else
      var k := |idx| - 1;
      PutAll(pool, n, idx[..k], values[..k])[idx[k] := values[k]]
  }

  function SlotsOf<T>(plans: seq<Plan<T>>): (r: seq<nat>)
    ensures |r| == |plans| && forall i :: 0 <= i < |r| ==> r[i] == plans[i].slot
  {
    seq(|plans|, i requires 0 <= i < |plans| => plans[i].slot)
  }

  function DstsOf<T>(plans: seq<Plan<T>>): (r: seq<nat>)
    ensures |r| == |plans| && forall i :: 0 <= i < |r| ==> r[i] == plans[i].dst
  {
    seq(|plans|, i requires 0 <= i < |plans| => plans[i].dst)
  }

  function NextStates<T>(pool: seq<seq<T>>, n: nat, plans: seq<Plan<T>>): (r: seq<seq<T>>)
    requires Fits(pool, n, plans)
    ensures |r| == |plans|
    ensures forall i :: 0 <= i < |r| ==> |r[i]| == n && r[i] == After(pool, n, plans[i], |plans[i].chunk|)
  {
    seq(|plans|, i requires 0 <= i < |plans| => After(pool, n, plans[i], |plans[i].chunk|))
  }

  function Snapshots<T>(pool: seq<seq<T>>, n: nat, plans: seq<Plan<T>>): (r: seq<seq<T>>)
    requires Fits(pool, n, plans)
    ensures |r| == |plans|
    ensures forall i :: 0 <= i < |r| ==> |r[i]| == n && r[i] == After(pool, n, plans[i], plans[i].offset)
  {
    seq(|plans|, i requires 0 <= i < |plans| => After(pool, n, plans[i], plans[i].offset))
  }

  /** The commit: every row's next state, then (when tracking) every row's snapshot. */
  function Step<T>(pool: seq<seq<T>>, n: nat, plans: seq<Plan<T>>, tracking: bool): (r: seq<seq<T>>)
    requires Fits(pool, n, plans)
    ensures |r| == |pool| && forall s :: 0 <= s < |r| ==> |r[s]| == n
  {
    var main := PutAll(pool, n, SlotsOf(plans), NextStates(pool, n, plans));
    if tracking then PutAll(main, n, DstsOf(plans), Snapshots(pool, n, plans)) else main
  }

  lemma {:induction false} PutMiss<T>(pool: seq<seq<T>>, n: nat, idx: seq<nat>, values: seq<seq<T>>, s: nat)
    requires |idx| == |values| && forall i :: 0 <= i < |idx| ==> idx[i] < |pool| && |values[i]| == n
    requires forall q :: 0 <= q < |pool| ==> |pool[q]| == n
    requires s < |pool| && s !in idx
    ensures PutAll(pool, n, idx, values)[s] == pool[s]
    decreases |idx|
  {
    if idx != [] { PutMiss(pool, n, idx[..|idx| - 1], values[..|idx| - 1], s); }
  }

  lemma {:induction false} PutHit<T>(pool: seq<seq<T>>, n: nat, idx: seq<nat>, values: seq<seq<T>>, r: nat)
    requires |idx| == |values| && forall i :: 0 <= i < |idx| ==> idx[i] < |pool| && |values[i]| == n
    requires forall q :: 0 <= q < |pool| ==> |pool[q]| == n
    requires r < |idx| && forall i :: 0 <= i < |idx| && i != r ==> idx[i] != idx[r]
    ensures PutAll(pool, n, idx, values)[idx[r]] == values[r]
    decreases |idx|
  {
    var k := |idx| - 1;
    if r < k { PutHit(pool, n, idx[..k], values[..k], r); }
  }

  /** A slot one row works in and no snapshot goes to takes the row's next state. */
  lemma StepHits<T>(pool: seq<seq<T>>, n: nat, plans: seq<Plan<T>>, tracking: bool, r: nat)
    requires Fits(pool, n, plans) && r < |plans|
    requires forall i :: 0 <= i < |plans| && i != r ==> plans[i].slot != plans[r].slot
    requires tracking ==> forall i :: 0 <= i < |plans| ==> plans[i].dst != plans[r].slot
    ensures Step(pool, n, plans, tracking)[plans[r].slot] == After(pool, n, plans[r], |plans[r].chunk|)
  {
    var main := PutAll(pool, n, SlotsOf(plans), NextStates(pool, n, plans));
    PutHit(pool, n, SlotsOf(plans), NextStates(pool, n, plans), r);
    if tracking { PutMiss(main, n, DstsOf(plans), Snapshots(pool, n, plans), plans[r].slot); }
  }

  /** A slot one snapshot goes to takes that snapshot. */
  lemma StepSnapshots<T>(pool: seq<seq<T>>, n: nat, plans: seq<Plan<T>>, r: nat)
    requires Fits(pool, n, plans) && r < |plans|
    requires forall i :: 0 <= i < |plans| && i != r ==> plans[i].dst != plans[r].dst
    ensures Step(pool, n, plans, true)[plans[r].dst] == After(pool, n, plans[r], plans[r].offset)
  {
    var main := PutAll(pool, n, SlotsOf(plans), NextStates(pool, n, plans));
    PutHit(main, n, DstsOf(plans), Snapshots(pool, n, plans), r);
  }

  lemma StepMisses<T>(pool: seq<seq<T>>, n: nat, plans: seq<Plan<T>>, tracking: bool, s: nat)
    requires Fits(pool, n, plans) && s < |pool|
    requires forall i :: 0 <= i < |plans| ==> plans[i].slot != s && (tracking ==> plans[i].dst != s)
    ensures Step(pool, n, plans, tracking)[s] == pool[s]
  {
    var main := PutAll(pool, n, SlotsOf(plans), NextStates(pool, n, plans));
    PutMiss(pool, n, SlotsOf(plans), NextStates(pool, n, plans), s);
    if tracking { PutMiss(main, n, DstsOf(plans), Snapshots(pool, n, plans), s); }
  }

  // ---------------------------------------------------------------- the outcome, on a batch's own fields

  /** The state after `fed` more tokens: as many of the last entries as the history has. */
  ghost function Slid<T>(history: seq<T>, fed: seq<T>): (r: seq<T>)
    ensures |r| == |history|
  {
    (history + fed)[|fed|..]
  }

  /** What the last fed token sees: as many entries before it as the history has, and itself. */
  ghost function Seen<T>(history: seq<T>, fed: seq<T>): (r: seq<T>)
    requires fed != []
    ensures |r| == |history| + 1
  {
    (history + fed)[|fed| - 1..]
  }

  /** After an extend batch: a slot that one non-empty row names and no snapshot goes to has slid by
      the row's tokens; each token's window continues the state of its own request's slot; a slot that
      one snapshot goes to has the state after the tracked prefix; the other slots but the dummy are
      unchanged. */
  ghost predicate ExtendDone<T>(b: Extend<T>, before: seq<seq<T>>, after: seq<seq<T>>, windows: seq<seq<T>>)
    requires b.Valid(|before|)
  {
    && |after| == |before| && |windows| == |b.tokens| >= Total(b.lengths)
    && (forall r: nat, slot: nat :: b.AloneFeeds(r, slot) ==> after[slot] == Slid(before[slot], b.Fed(r)))
    && (forall r: nat, o: nat :: r < |b.lengths| && o < b.lengths[r] ==>
          windows[PositionOf(b.lengths, r, o)] == Seen(before[b.stateIdx[r]], b.Fed(r)[..o + 1]))
    && (forall r: nat, slot: nat :: b.AloneTracksTo(r, slot) ==>
          after[slot] == if b.lengths[r] == 0 then before[0] else Slid(before[b.stateIdx[r]], b.Tracked(r)))
    && (forall slot: nat :: 0 < slot < |before| && b.LeavesAlone(slot) ==> after[slot] == before[slot])
  }

  /** After a decode batch: the same, one token a row, with a live row's snapshot the row's new state. */
  ghost predicate DecodeDone<T>(b: Decode<T>, before: seq<seq<T>>, after: seq<seq<T>>, windows: seq<seq<T>>)
    requires b.Valid(|before|)
  {
    && |after| == |before| && |windows| == |b.tokens|
    && (forall r: nat, slot: nat :: b.AloneFeeds(r, slot) ==> after[slot] == Slid(before[slot], [b.tokens[r]]))
    && (forall r: nat, slot: nat :: b.Feeds(r, slot) ==> windows[r] == Seen(before[slot], [b.tokens[r]]))
    && (forall r: nat, slot: nat :: b.AloneTracksTo(r, slot) ==>
          after[slot] == Slid(before[if b.live[r] then b.stateIdx[r] else 0], [b.tokens[r]]))
    && (forall slot: nat :: 0 < slot < |before| && b.LeavesAlone(slot) ==> after[slot] == before[slot])
  }

  /** After a verify batch: every valid draft token's window and intermediate state continue the state
      of the row's slot by the row's tokens up to and including it; past the valid length only fill. */
  ghost predicate VerifyDone<T>(b: Verify<T>, slots: seq<seq<T>>, n: nat, windows: seq<seq<seq<T>>>, im: seq<seq<seq<T>>>, fill: T)
    requires b.Valid(|slots|)
  {
    && |windows| == |im| == |b.lengths|
    && forall r: nat :: r < |b.lengths| ==> VerifiedRow(b, slots, n, r, windows[r], im[r], fill)
  }

  ghost predicate VerifiedRow<T>(b: Verify<T>, slots: seq<seq<T>>, n: nat, r: nat, windows: seq<seq<T>>, im: seq<seq<T>>, fill: T)
    requires b.Valid(|slots|) && r < |b.lengths|
  {
    && |windows| == |im| == b.width
    && (forall o: nat, slot: nat :: b.Feeds(r, slot) && o < b.lengths[r] ==>
          windows[o] == Seen(slots[slot], b.Drafted(r, o + 1)) && im[o] == Slid(slots[slot], b.Drafted(r, o + 1)))
    && forall t: nat :: b.lengths[r] <= t < b.width ==> im[t] == seq(n, _ => fill)
  }

  lemma SlidIsAfter<T>(pool: seq<seq<T>>, n: nat, p: Plan<T>, o: nat)
    requires p.slot < |pool| && |pool[p.slot]| == n && o <= |p.chunk|
    ensures After(pool, n, p, o) == Slid(pool[p.slot], p.chunk[..o])
  {
  }

  lemma SeenIsTokenWindow<T>(history: seq<T>, chunk: seq<T>, o: nat)
    requires o < |chunk|
    ensures TokenWindow(history, chunk, o) == Seen(history, chunk[..o + 1])
  {
  }

  // ---------------------------------------------------------------- the mutable state

  /** Destination slot after masking, and the tracked prefix's aligned length. */
  datatype Track = Track(dst: nat, aligned: int)

  function ClampOffset(aligned: int, length: nat): (o: nat)
    ensures o <= length
  {
    var a := if aligned < 0 then 0 else aligned;
    if a < length then a else length
  }

  class SideState<T(0)> {
    const stateLen: nat
    const fill: T
    var slots: seq<seq<T>>
    var intermediate: seq<seq<seq<T>>>

    constructor (stateLen: nat, fill: T, slots: seq<seq<T>>)
      ensures this.stateLen == stateLen && this.fill == fill && this.slots == slots
    {
      this.stateLen, this.fill, this.slots, this.intermediate := stateLen, fill, slots, [];
    }

    ghost predicate Valid()
      reads this
    {
      |slots| > 0 && forall s :: 0 <= s < |slots| ==> |slots[s]| == stateLen
    }

    /** The rows [incoming state | this chunk's tokens]. */
    method Contexts(plans: seq<Plan<T>>, padded: seq<seq<T>>, width: nat) returns (contexts: seq<seq<T>>)
      requires Valid() && Fits(slots, stateLen, plans) && |plans| == |padded|
      requires forall r :: 0 <= r < |plans| ==> HoldsChunk(padded[r], plans[r].chunk, width)
      ensures |contexts| == |plans|
      ensures forall r :: 0 <= r < |plans| ==> ReadsPlan(slots, stateLen, contexts[r], plans[r], width)
    {
      contexts := [];
      assert forall r :: 0 <= r < |plans| ==> plans[r].slot < |slots| && |slots[plans[r].slot]| == stateLen;
      hide Fits, ReadsPlan, HoldsChunk;
      for r := 0 to |plans|
        invariant |contexts| == r
        invariant forall i :: 0 <= i < r ==> ReadsPlan(slots, stateLen, contexts[i], plans[i], width)
      {
        RowReadsPlan(slots, stateLen, plans[r], padded[r], width);
        contexts := contexts + [slots[plans[r].slot] + padded[r]];
      }
    }

    method SetSlots(idx: seq<nat>, values: seq<seq<T>>)
      requires Valid() && |idx| == |values|
      requires forall i :: 0 <= i < |idx| ==> idx[i] < |slots| && |values[i]| == stateLen
      modifies this`slots
      ensures Valid() && slots == PutAll(old(slots), stateLen, idx, values)
    {
      for k := 0 to |idx|
        invariant |slots| == |old(slots)|
        invariant slots == PutAll(old(slots), stateLen, idx[..k], values[..k])
      {
        assert idx[..k + 1][..k] == idx[..k] && values[..k + 1][..k] == values[..k];
        slots := slots[idx[k] := values[k]];
      }
      assert idx[..|idx|] == idx && values[..|idx|] == values;
    }

    /** Gathers each row's state after its whole chunk, then its snapshot. */
    method Commit(plans: seq<Plan<T>>, contexts: seq<seq<T>>, width: nat, tracking: bool)
      requires Valid() && Fits(slots, stateLen, plans) && |contexts| == |plans|
      requires forall r :: 0 <= r < |plans| ==> ReadsPlan(slots, stateLen, contexts[r], plans[r], width)
      modifies this`slots
      ensures Valid() && slots == Step(old(slots), stateLen, plans, tracking)
    {
      ghost var before := slots;
      var next := seq(|plans|, r requires 0 <= r < |plans| && |plans[r].chunk| + stateLen <= |contexts[r]| =>
        Unfold(contexts[r], |plans[r].chunk|, stateLen));
      var snapshots := seq(|plans|, r requires 0 <= r < |plans| && plans[r].offset + stateLen <= |contexts[r]| =>
        Unfold(contexts[r], plans[r].offset, stateLen));
      assert next == NextStates(before, stateLen, plans) && snapshots == Snapshots(before, stateLen, plans);
      hide PutAll, ReadsPlan, NextStates, Snapshots;
      SetSlots(SlotsOf(plans), next);
      if tracking {
        SetSlots(DstsOf(plans), snapshots);
      }
    }

    /** An extend batch: ragged rows, a window per token, then the commit. */
    method ForwardExtend(b: Extend<T>) returns (windows: seq<seq<T>>)
      requires Valid() && b.Valid(|slots|)
      modifies this`slots
      ensures Valid() && Fits(old(slots), stateLen, b.Plans())
      ensures slots == Step(old(slots), stateLen, b.Plans(), b.track.Some?)
      ensures WindowsOfPlans(windows, old(slots), b.lengths, b.Plans(), |b.tokens|)
      ensures ExtendDone(b, old(slots), slots, windows)
    {
      var plans := b.Plans();
      assert Fits(slots, stateLen, plans);
      hide Step, ReadsPlan, Fits, HoldsChunk, TokenWindow, Extend.Plans, ExtendDone, WindowsOfPlans;
      ghost var before := slots;
      var padded := ScatterExtend(b.tokens, b.lengths, b.width, fill);
      var contexts := Contexts(plans, padded, b.width);
      windows := GatherWindows(slots, stateLen, b.tokens, b.lengths, b.width, plans, contexts);
      Commit(plans, contexts, b.width, b.track.Some?);
      ExtendIsDone(b, before, stateLen, windows);
    }

    /** A decode batch on the common path: padded rows of width one. */
    method ForwardDecode(b: Decode<T>) returns (windows: seq<seq<T>>)
      requires Valid() && b.Valid(|slots|)
      modifies this`slots
      ensures Valid() && Fits(old(slots), stateLen, b.Plans())
      ensures slots == Step(old(slots), stateLen, b.Plans(), b.trackDst.Some?)
      ensures DecodeWindows(windows, old(slots), b.Plans())
      ensures DecodeDone(b, old(slots), slots, windows)
    {
      var plans := b.Plans();
      assert Fits(slots, stateLen, plans);
      var padded := seq(|b.tokens|, r requires 0 <= r < |b.tokens| => [b.tokens[r]]);
      assert forall r :: 0 <= r < |plans| ==> HoldsChunk(padded[r], plans[r].chunk, 1);
      hide Step, Fits, HoldsChunk, Decode.Plans;
      var contexts := Contexts(plans, padded, 1);
      windows := FirstWindows(plans, contexts);
      hide ReadsPlan, DecodeWindows, DecodeDone;
      ghost var before := slots;
      Commit(plans, contexts, 1, b.trackDst.Some?);
      DecodeIsDone(b, before, stateLen, windows);
    }

    method FirstWindows(ghost plans: seq<Plan<T>>, contexts: seq<seq<T>>) returns (windows: seq<seq<T>>)
      requires Valid() && Fits(slots, stateLen, plans) && |contexts| == |plans|
      requires forall r :: 0 <= r < |plans| ==>
                 |plans[r].chunk| == 1 && ReadsPlan(slots, stateLen, contexts[r], plans[r], 1)
      ensures DecodeWindows(windows, slots, plans)
    {
      windows := seq(|contexts|, r requires 0 <= r < |contexts| && |contexts[r]| == stateLen + 1 =>
        Unfold(contexts[r], 0, stateLen + 1));
    }

    /** A decode batch on the fast path: the row is the window, and the next state is the row
        less its first column, for the slot and for its snapshot alike. */
    method ForwardDecodeFast(b: Decode<T>) returns (windows: seq<seq<T>>)
      requires Valid() && b.Valid(|slots|)
      modifies this`slots
      ensures Valid() && Fits(old(slots), stateLen, b.Plans())
      ensures slots == Step(old(slots), stateLen, b.Plans(), b.trackDst.Some?)
      ensures DecodeWindows(windows, old(slots), b.Plans())
      ensures DecodeDone(b, old(slots), slots, windows)
    {
      ghost var before, plans := slots, b.Plans();
      assert Fits(before, stateLen, plans);
      hide PutAll, NextStates, Snapshots, TokenWindow, Fits, Decode.Plans, After, DecodeDone, DecodeWindows;
      var idx := DecodeSlots(b);
      var next;
      windows, next := ShiftRows(b, idx, plans);
      SetSlots(idx, next);
      if b.trackDst.Some? {
        DstsOfDecode(b);
        SetSlots(b.trackDst.value, next);
      }
      DecodeIsDone(b, before, stateLen, windows);
    }

    /** The rows as windows, and less their first column as next states and snapshots alike. */
    method ShiftRows(b: Decode<T>, idx: seq<nat>, ghost plans: seq<Plan<T>>) returns (windows: seq<seq<T>>, next: seq<seq<T>>)
      requires Valid() && b.Valid(|slots|) && plans == b.Plans() && Fits(slots, stateLen, plans) && idx == SlotsOf(plans)
      ensures DecodeWindows(windows, slots, plans)
      ensures next == NextStates(slots, stateLen, plans) && next == Snapshots(slots, stateLen, plans)
    {
      windows := DecodeRows(idx, b.tokens, plans);
      next := seq(|windows|, r requires 0 <= r < |windows| && |windows[r]| > 0 => windows[r][1..]);
      NextIsSnapshot(slots, stateLen, plans, next);
      hide TokenWindow, Fits, After, NextStates, Snapshots;
      SlotsFit(slots, stateLen, plans);
    }

    /** torch.where(out_cache_loc != 0, state_indices, 0) */
    method DecodeSlots(b: Decode<T>) returns (idx: seq<nat>)
      requires b.Valid(|slots|)
      ensures idx == SlotsOf(b.Plans())
    {
      idx := seq(|b.tokens|, r requires 0 <= r < |b.tokens| == |b.live| == |b.stateIdx| =>
        if b.live[r] then b.stateIdx[r] else 0);
    }

    /** torch.cat([state, token]) per row. */
    method DecodeRows(idx: seq<nat>, tokens: seq<T>, ghost plans: seq<Plan<T>>) returns (rows: seq<seq<T>>)
      requires Valid() && Fits(slots, stateLen, plans) && |idx| == |tokens| == |plans| && idx == SlotsOf(plans)
      requires forall r :: 0 <= r < |plans| ==> plans[r].chunk == [tokens[r]]
      ensures |rows| == |plans|
      ensures forall r :: 0 <= r < |plans| ==>
                && |rows[r]| == stateLen + 1
                && rows[r] == TokenWindow(slots[plans[r].slot], plans[r].chunk, 0)
                && rows[r][1..] == After(slots, stateLen, plans[r], 1)
    {
      rows := [];
      for r := 0 to |tokens|
        invariant |rows| == r
        invariant forall i :: 0 <= i < r ==>
                    && |rows[i]| == stateLen + 1
                    && rows[i] == TokenWindow(slots[plans[i].slot], plans[i].chunk, 0)
                    && rows[i][1..] == After(slots, stateLen, plans[i], 1)
      {
        assert plans[r].chunk[..1] == [tokens[r]];
        rows := rows + [slots[idx[r]] + [tokens[r]]];
      }
    }

    /** A verify batch: windows for every draft token and one intermediate state per step; the
        slots themselves are not committed. */
    method ForwardVerify(b: Verify<T>) returns (windows: seq<seq<seq<T>>>)
      requires Valid() && b.Valid(|slots|)
      modifies this`intermediate
      ensures Fits(slots, stateLen, b.Plans())
      ensures IntermediateStates(intermediate, slots, stateLen, b.Plans(), b.width, fill)
      ensures |windows| == |b.lengths|
      ensures forall r :: 0 <= r < |b.lengths| ==> RowWindows(windows[r], slots, b.Plans()[r], b.width)
      ensures VerifyDone(b, slots, stateLen, windows, intermediate, fill)
    {
      var plans := b.Plans();
      assert Fits(slots, stateLen, plans);
      hide Fits, Verify.Plans, ReadsPlan, RowWindows, RowStates, Draft, HoldsChunk, VerifyDone;
      var contexts := VerifyContexts(b, plans);
      windows := VerifyRows(plans, contexts, b.width);
      VerifyIsDone(b, slots, stateLen, windows, intermediate, fill);
    }

    method VerifyContexts(b: Verify<T>, plans: seq<Plan<T>>) returns (contexts: seq<seq<T>>)
      requires Valid() && b.Valid(|slots|) && plans == b.Plans() && Fits(slots, stateLen, plans)
      ensures |contexts| == |plans|
      ensures forall r :: 0 <= r < |plans| ==> ReadsPlan(slots, stateLen, contexts[r], plans[r], b.width)
    {
      hide ReadsPlan, Draft, HoldsChunk, Fits;
      var padded := ScatterVerify(b.tokens, b.lengths, b.width, fill);
      contexts := Contexts(plans, padded, b.width);
    }

    method VerifyRows(plans: seq<Plan<T>>, contexts: seq<seq<T>>, width: nat) returns (windows: seq<seq<seq<T>>>)
      requires Valid() && Fits(slots, stateLen, plans) && |contexts| == |plans|
      requires forall r :: 0 <= r < |plans| ==> ReadsPlan(slots, stateLen, contexts[r], plans[r], width)
      modifies this`intermediate
      ensures IntermediateStates(intermediate, slots, stateLen, plans, width, fill)
      ensures |windows| == |plans|
      ensures forall r :: 0 <= r < |plans| ==> RowWindows(windows[r], slots, plans[r], width)
    {
      hide Fits, ReadsPlan, RowWindows, RowStates;
      SlotsFit(slots, stateLen, plans);
      windows := [];
      var states := [];
      ghost var pool := slots;
      for r := 0 to |plans|
        invariant |windows| == |states| == r
        invariant forall i :: 0 <= i < r ==> RowStates(states[i], pool, stateLen, plans[i], width, fill)
        invariant forall i :: 0 <= i < r ==> RowWindows(windows[i], pool, plans[i], width)
      {
        var rowWindows, rowStates := VerifyRow(pool, stateLen, plans[r], contexts[r], width, fill);
        windows, states := windows + [rowWindows], states + [rowStates];
      }
      intermediate := states;
    }

    /** After sampling: the slot of each listed row takes the intermediate state of the row's last
        accepted draft token. */
    method Accept(idx: seq<nat>, rows: seq<nat>, accepted: seq<nat>)
      requires Valid() && |idx| == |rows| == |accepted|
      requires forall i :: 0 <= i < |rows| ==>
        && idx[i] < |slots| && rows[i] < |intermediate| && 0 < accepted[i] <= |intermediate[rows[i]]|
        && |intermediate[rows[i]][accepted[i] - 1]| == stateLen
      modifies this`slots
      ensures Valid() && |slots| == |old(slots)|
      ensures slots == PutAll(old(slots), stateLen, idx, AcceptedStates(intermediate, rows, accepted))
    {
      ghost var states := AcceptedStates(intermediate, rows, accepted);
      for i := 0 to |rows|
        invariant Valid() && |slots| == |old(slots)|
        invariant slots == PutAll(old(slots), stateLen, idx[..i], states[..i])
      {
        assert idx[..i + 1][..i] == idx[..i] && states[..i + 1][..i] == states[..i];
        slots := slots[idx[i] := intermediate[rows[i]][accepted[i] - 1]];
      }
      assert idx[..|idx|] == idx && states[..|states|] == states;
    }
  }

  function AcceptedStates<T>(im: seq<seq<seq<T>>>, rows: seq<nat>, accepted: seq<nat>): (r: seq<seq<T>>)
    requires |rows| == |accepted|
    requires forall i :: 0 <= i < |rows| ==> rows[i] < |im| && 0 < accepted[i] <= |im[rows[i]]|
    ensures |r| == |rows| && forall i :: 0 <= i < |r| ==> r[i] == im[rows[i]][accepted[i] - 1]
  {
    seq(|rows|, i requires 0 <= i < |rows| => im[rows[i]][accepted[i] - 1])
  }

  lemma SlotsFit<T>(pool: seq<seq<T>>, n: nat, plans: seq<Plan<T>>)
    requires Fits(pool, n, plans)
    ensures forall r :: 0 <= r < |plans| ==> plans[r].slot < |pool| && |pool[plans[r].slot]| == n
  {
  }

  lemma RowReadsPlan<T>(pool: seq<seq<T>>, n: nat, p: Plan<T>, row: seq<T>, width: nat)
    requires p.slot < |pool| && |pool[p.slot]| == n && HoldsChunk(row, p.chunk, width)
    ensures ReadsPlan(pool, n, pool[p.slot] + row, p, width)
  {
    RowReads(pool[p.slot], row, p.chunk, width);
  }

  lemma SlidByNothing<T>(history: seq<T>)
    ensures Slid(history, []) == history
  {
  }

  /** A row's plan, field by field. */
  lemma PlanOfExtend<T>(b: Extend<T>, poolSize: nat, r: nat)
    requires b.Valid(poolSize) && r < |b.lengths|
    ensures var p := b.PlanOf(r);
            && p.chunk == p.chunk[..|p.chunk|] == b.Fed(r) && p.slot < poolSize && p.offset <= |p.chunk|
            && (p.slot != 0 ==> b.Feeds(r, p.slot)) && (b.Feeds(r, b.stateIdx[r]) ==> p.slot == b.stateIdx[r])
            && (b.lengths[r] == 0 ==> p.slot == 0 && p.chunk == [])
            && (b.track.Some? ==> b.TracksTo(r, p.dst) && b.track.value[r].dst == p.dst && p.chunk[..p.offset] == b.Tracked(r))
  {
    if b.lengths[r] == 0 { assert b.Fed(r) == []; }
  }

  /** Which rows' plans name a slot, read off the fields. */
  lemma ExtendRowsAt<T>(b: Extend<T>, poolSize: nat, slot: nat)
    requires b.Valid(poolSize)
    ensures forall i: nat :: i < |b.lengths| && slot != 0 && b.PlanOf(i).slot == slot ==> b.Feeds(i, slot)
    ensures forall i: nat :: i < |b.lengths| && b.track.Some? && b.PlanOf(i).dst == slot ==> b.TracksTo(i, slot)
    ensures forall q: nat :: b.Feeds(q, slot) ==> q < |b.lengths| && b.PlanOf(q).slot == b.stateIdx[q] == slot
    ensures forall q: nat :: b.TracksTo(q, slot) ==> q < |b.lengths| && b.track.Some? && b.PlanOf(q).dst == slot
  {
    hide Chunk, ClampOffset;
  }

  lemma ExtendFed<T>(b: Extend<T>, pool: seq<seq<T>>, n: nat, r: nat, slot: nat)
    requires b.Valid(|pool|) && Fits(pool, n, b.Plans()) && b.AloneFeeds(r, slot)
    ensures Step(pool, n, b.Plans(), b.track.Some?)[slot] == Slid(pool[slot], b.Fed(r))
  {
    var plans := b.Plans();
    SlotsFit(pool, n, plans);
    ExtendRowsAt(b, |pool|, slot);
    assert forall i: nat :: i < |plans| ==> plans[i] == b.PlanOf(i);
    hide Step, After, Slid, Fits, Extend.Plans, Extend.PlanOf, Extend.Feeds, Extend.TracksTo, Extend.Fed, Extend.Tracked;
    PlanOfExtend(b, |pool|, r);
    StepHits(pool, n, plans, b.track.Some?, r);
    SlidIsAfter(pool, n, plans[r], |plans[r].chunk|);
  }

  lemma ExtendTracked<T>(b: Extend<T>, pool: seq<seq<T>>, n: nat, r: nat, slot: nat)
    requires b.Valid(|pool|) && Fits(pool, n, b.Plans()) && b.AloneTracksTo(r, slot)
    ensures Step(pool, n, b.Plans(), b.track.Some?)[slot]
            == if b.lengths[r] == 0 then pool[0] else Slid(pool[b.stateIdx[r]], b.Tracked(r))
  {
    var plans := b.Plans();
    SlotsFit(pool, n, plans);
    ExtendRowsAt(b, |pool|, slot);
    assert forall i: nat :: i < |plans| ==> plans[i] == b.PlanOf(i);
    hide Step, After, Slid, Fits, Extend.Plans, Extend.PlanOf, Extend.Feeds, Extend.TracksTo, Extend.Fed, Extend.Tracked;
    PlanOfExtend(b, |pool|, r);
    StepSnapshots(pool, n, plans, r);
    SlidIsAfter(pool, n, plans[r], plans[r].offset);
    if b.lengths[r] == 0 {
      SlidByNothing(pool[0]);
      assert plans[r].chunk[..plans[r].offset] == [];
    } else {
      NonEmptyFeeds(b, r);
    }
  }

  lemma ExtendKept<T>(b: Extend<T>, pool: seq<seq<T>>, n: nat, slot: nat)
    requires b.Valid(|pool|) && Fits(pool, n, b.Plans()) && 0 < slot < |pool| && b.LeavesAlone(slot)
    ensures Step(pool, n, b.Plans(), b.track.Some?)[slot] == pool[slot]
  {
    ExtendRowsAt(b, |pool|, slot);
    assert forall i: nat :: i < |b.Plans()| ==> b.Plans()[i] == b.PlanOf(i);
    hide Step, Fits, Extend.Plans, Extend.PlanOf, Extend.Feeds, Extend.TracksTo;
    StepMisses(pool, n, b.Plans(), b.track.Some?, slot);
  }

  lemma NonEmptyFeeds<T>(b: Extend<T>, r: nat)
    requires r < |b.lengths| == |b.stateIdx| && b.lengths[r] != 0
    ensures b.Feeds(r, b.stateIdx[r])
  {
  }

  lemma ExtendIsDone<T>(b: Extend<T>, pool: seq<seq<T>>, n: nat, windows: seq<seq<T>>)
    requires b.Valid(|pool|) && Fits(pool, n, b.Plans()) && WindowsOfPlans(windows, pool, b.lengths, b.Plans(), |b.tokens|)
    ensures ExtendDone(b, pool, Step(pool, n, b.Plans(), b.track.Some?), windows)
  {
    hide Step, TokenWindow, Seen, Slid, Extend.Fed, Extend.Tracked, Extend.PlanOf, Extend.Plans, Extend.LeavesAlone;
    var after := Step(pool, n, b.Plans(), b.track.Some?);
    forall r: nat, slot: nat | b.AloneFeeds(r, slot) ensures after[slot] == Slid(pool[slot], b.Fed(r)) {
      ExtendFed(b, pool, n, r, slot);
    }
    forall r: nat, slot: nat | b.AloneTracksTo(r, slot)
      ensures after[slot] == if b.lengths[r] == 0 then pool[0] else Slid(pool[b.stateIdx[r]], b.Tracked(r))
    {
      ExtendTracked(b, pool, n, r, slot);
    }
    forall slot: nat | 0 < slot < |pool| && b.LeavesAlone(slot) ensures after[slot] == pool[slot] {
      ExtendKept(b, pool, n, slot);
    }
    forall r: nat, o: nat | r < |b.lengths| && o < b.lengths[r]
      ensures windows[PositionOf(b.lengths, r, o)] == Seen(pool[b.stateIdx[r]], b.Fed(r)[..o + 1])
    {
      PlanOfExtend(b, |pool|, r);
      SeenIsTokenWindow(pool[b.stateIdx[r]], b.Plans()[r].chunk, o);
    }
  }

  lemma PlanOfDecode<T>(b: Decode<T>, poolSize: nat, r: nat)
    requires b.Valid(poolSize) && r < |b.tokens|
    ensures var p := b.Plans()[r];
            && p.chunk == p.chunk[..1] == [b.tokens[r]] && p.slot < poolSize && p.offset == 1
            && p.slot == (if b.live[r] then b.stateIdx[r] else 0)
            && (p.slot != 0 ==> b.Feeds(r, p.slot)) && (b.live[r] ==> b.Feeds(r, b.stateIdx[r]))
            && (b.trackDst.Some? ==> b.TracksTo(r, p.dst) && b.trackDst.value[r] == p.dst)
  {
  }

  lemma DecodeSlotsDone<T>(b: Decode<T>, pool: seq<seq<T>>, n: nat, r: nat, slot: nat)
    requires b.Valid(|pool|) && Fits(pool, n, b.Plans())
    ensures b.AloneFeeds(r, slot) ==> Step(pool, n, b.Plans(), b.trackDst.Some?)[slot] == Slid(pool[slot], [b.tokens[r]])
    ensures b.AloneTracksTo(r, slot) ==>
      Step(pool, n, b.Plans(), b.trackDst.Some?)[slot] == Slid(pool[if b.live[r] then b.stateIdx[r] else 0], [b.tokens[r]])
    ensures 0 < slot < |pool| && b.LeavesAlone(slot) ==> Step(pool, n, b.Plans(), b.trackDst.Some?)[slot] == pool[slot]
  {
    var plans := b.Plans();
    assert forall i: nat :: i < |plans| ==> plans[i].slot < |pool| && |pool[plans[i].slot]| == n;
    assert forall q: nat :: b.Feeds(q, slot) ==> q < |plans| && b.live[q] && b.stateIdx[q] == slot;
    assert forall q: nat :: b.TracksTo(q, slot) ==> q < |plans| && b.trackDst.Some? && b.trackDst.value[q] == slot;
    hide Step, After, Slid, Fits, Decode.Plans, Decode.Feeds, Decode.TracksTo;
    forall i: nat | i < |plans|
      ensures slot != 0 && plans[i].slot == slot ==> b.Feeds(i, slot)
      ensures b.trackDst.Some? && plans[i].dst == slot ==> b.TracksTo(i, slot)
    {
      PlanOfDecode(b, |pool|, i);
    }
    if b.AloneFeeds(r, slot) {
      PlanOfDecode(b, |pool|, r);
      StepHits(pool, n, plans, b.trackDst.Some?, r);
      SlidIsAfter(pool, n, plans[r], 1);
    }
    if b.AloneTracksTo(r, slot) {
      PlanOfDecode(b, |pool|, r);
      StepSnapshots(pool, n, plans, r);
      SlidIsAfter(pool, n, plans[r], 1);
    }
    if 0 < slot < |pool| && b.LeavesAlone(slot) {
      StepMisses(pool, n, plans, b.trackDst.Some?, slot);
    }
  }

  lemma DecodeIsDone<T>(b: Decode<T>, pool: seq<seq<T>>, n: nat, windows: seq<seq<T>>)
    requires b.Valid(|pool|) && Fits(pool, n, b.Plans()) && DecodeWindows(windows, pool, b.Plans())
    ensures DecodeDone(b, pool, Step(pool, n, b.Plans(), b.trackDst.Some?), windows)
  {
    hide Step, TokenWindow, Seen, Slid, Decode.Plans, Decode.LeavesAlone;
    var after := Step(pool, n, b.Plans(), b.trackDst.Some?);
    forall r: nat, slot: nat | b.AloneFeeds(r, slot) ensures after[slot] == Slid(pool[slot], [b.tokens[r]]) {
      DecodeSlotsDone(b, pool, n, r, slot);
    }
    forall r: nat, slot: nat | b.AloneTracksTo(r, slot)
      ensures after[slot] == Slid(pool[if b.live[r] then b.stateIdx[r] else 0], [b.tokens[r]])
    {
      DecodeSlotsDone(b, pool, n, r, slot);
    }
    forall slot: nat | 0 < slot < |pool| && b.LeavesAlone(slot) ensures after[slot] == pool[slot] {
      DecodeSlotsDone(b, pool, n, 0, slot);
    }
    forall r: nat, slot: nat | b.Feeds(r, slot) ensures windows[r] == Seen(pool[slot], [b.tokens[r]]) {
      PlanOfDecode(b, |pool|, r);
      SeenIsTokenWindow(pool[slot], [b.tokens[r]], 0);
      assert [b.tokens[r]][..1] == [b.tokens[r]];
    }
  }

  lemma DraftedPrefix<T>(b: Verify<T>, r: nat, k: nat)
    requires r < |b.lengths| && |b.tokens| == |b.lengths| * b.width && k <= b.lengths[r] <= b.width
    ensures Draft(b.tokens, b.width, |b.lengths|, r)[..b.lengths[r]][..k] == b.Drafted(r, k)
  {
    RowStart(r, |b.lengths|, b.width);
    var start := r * b.width;
    assert b.tokens[start..start + b.width][..b.lengths[r]][..k] == b.tokens[start..start + k];
  }

  lemma PlanOfVerify<T>(b: Verify<T>, poolSize: nat, r: nat, k: nat)
    requires b.Valid(poolSize) && r < |b.lengths| && k <= b.lengths[r]
    ensures var p := b.Plans()[r];
            && |p.chunk| == b.lengths[r] && p.chunk[..k] == b.Drafted(r, k) && p.slot < poolSize
            && (p.slot != 0 ==> b.Feeds(r, p.slot)) && (b.Feeds(r, b.stateIdx[r]) ==> p.slot == b.stateIdx[r])
  {
    hide Draft, Verify.Drafted;
    DraftedPrefix(b, r, k);
  }

  lemma VerifyRowDone<T>(b: Verify<T>, slots: seq<seq<T>>, n: nat, r: nat, windows: seq<seq<T>>, im: seq<seq<T>>, fill: T)
    requires b.Valid(|slots|) && Fits(slots, n, b.Plans()) && r < |b.lengths|
    requires RowStates(im, slots, n, b.Plans()[r], b.width, fill) && RowWindows(windows, slots, b.Plans()[r], b.width)
    ensures VerifiedRow(b, slots, n, r, windows, im, fill)
  {
    var p := b.Plans()[r];
    assert |p.chunk| == b.lengths[r];
    hide TokenWindow, After, Slid, Seen, Verify.Drafted, Verify.Plans, Fits;
    forall o: nat, slot: nat | b.Feeds(r, slot) && o < b.lengths[r]
      ensures windows[o] == Seen(slots[slot], b.Drafted(r, o + 1)) && im[o] == Slid(slots[slot], b.Drafted(r, o + 1))
    {
      PlanOfVerify(b, |slots|, r, o + 1);
      SeenIsTokenWindow(slots[slot], p.chunk, o);
      SlidIsAfter(slots, n, p, o + 1);
    }
  }

  lemma VerifyIsDone<T>(b: Verify<T>, slots: seq<seq<T>>, n: nat, windows: seq<seq<seq<T>>>, im: seq<seq<seq<T>>>, fill: T)
    requires b.Valid(|slots|) && Fits(slots, n, b.Plans()) && IntermediateStates(im, slots, n, b.Plans(), b.width, fill)
    requires |windows| == |b.lengths| && forall r :: 0 <= r < |b.lengths| ==> RowWindows(windows[r], slots, b.Plans()[r], b.width)
    ensures VerifyDone(b, slots, n, windows, im, fill)
  {
    hide Fits, RowStates, RowWindows, Verify.Plans, VerifiedRow;
    forall r: nat | r < |b.lengths| ensures VerifiedRow(b, slots, n, r, windows[r], im[r], fill) {
      VerifyRowDone(b, slots, n, r, windows[r], im[r], fill);
    }
  }

  // ---------------------------------------------------------------- decode and verify

  /** The inputs of a decode forward: one token per row; rows that are not live are graph
      padding and work on the reserved slot 0. */
  datatype Decode<T> = Decode(tokens: seq<T>, stateIdx: seq<nat>, live: seq<bool>, trackDst: Option<seq<nat>>) {
    /** Row r is a request's own and works on its slot. */
    ghost predicate Feeds(r: nat, slot: nat) {
      r < |tokens| && r < |live| && r < |stateIdx| && live[r] && stateIdx[r] == slot
    }

    ghost predicate TracksTo(r: nat, slot: nat) {
      trackDst.Some? && r < |trackDst.value| && trackDst.value[r] == slot
    }

    /** No other row works on the slot and no snapshot goes to it. */
    ghost predicate AloneFeeds(r: nat, slot: nat) {
      && slot != 0 && Feeds(r, slot)
      && (forall q: nat :: q != r ==> !Feeds(q, slot)) && (forall q: nat :: !TracksTo(q, slot))
    }

    ghost predicate AloneTracksTo(r: nat, slot: nat) {
      slot != 0 && TracksTo(r, slot) && forall q: nat :: q != r ==> !TracksTo(q, slot)
    }

    ghost predicate LeavesAlone(slot: nat) {
      forall q: nat :: !Feeds(q, slot) && !TracksTo(q, slot)
    }

    ghost predicate Valid(poolSize: nat) {
      && poolSize > 0 && |stateIdx| == |live| == |tokens|
      && (forall r :: 0 <= r < |tokens| ==> stateIdx[r] < poolSize)
      && (trackDst.Some? ==> |trackDst.value| == |tokens| && forall r :: 0 <= r < |tokens| ==> trackDst.value[r] < poolSize)
    }

    /** One token per step, so the snapshot boundary is the current one. */
    function Plans(): (plans: seq<Plan<T>>)
      requires |stateIdx| == |live| == |tokens| && (trackDst.Some? ==> |trackDst.value| == |tokens|)
      ensures |plans| == |tokens|
      ensures forall r :: 0 <= r < |plans| ==>
                plans[r] == Plan(if live[r] then stateIdx[r] else 0, [tokens[r]],
                                 if trackDst.Some? then trackDst.value[r] else 0, 1)
    {
      seq(|tokens|, r requires 0 <= r < |tokens| =>
        Plan(if live[r] then stateIdx[r] else 0, [tokens[r]], if trackDst.Some? then trackDst.value[r] else 0, 1))
    }
  }

  /** One window per decode row. */
  ghost predicate DecodeWindows<T>(windows: seq<seq<T>>, pool: seq<seq<T>>, plans: seq<Plan<T>>) {
    && |windows| == |plans|
    && forall r :: 0 <= r < |plans| ==>
         plans[r].slot < |pool| && |plans[r].chunk| == 1
         && windows[r] == TokenWindow(pool[plans[r].slot], plans[r].chunk, 0)
  }

  lemma DstsOfDecode<T>(b: Decode<T>)
    requires |b.stateIdx| == |b.live| == |b.tokens| && b.trackDst.Some? && |b.trackDst.value| == |b.tokens|
    ensures b.trackDst.value == DstsOf(b.Plans())
  {
  }

  lemma NextIsSnapshot<T>(pool: seq<seq<T>>, n: nat, plans: seq<Plan<T>>, next: seq<seq<T>>)
    requires Fits(pool, n, plans) && |next| == |plans|
    requires forall r :: 0 <= r < |plans| ==> |plans[r].chunk| == 1 && plans[r].offset == 1
    requires forall r :: 0 <= r < |plans| ==> next[r] == After(pool, n, plans[r], 1)
    ensures next == NextStates(pool, n, plans) && next == Snapshots(pool, n, plans)
  {
  }

  /** The inputs of a target-verify forward: fixed-stride draft rows with valid lengths. */
  datatype Verify<T> = Verify(tokens: seq<T>, lengths: seq<nat>, width: nat, stateIdx: seq<nat>, live: seq<bool>) {
    ghost predicate Feeds(r: nat, slot: nat) {
      r < |lengths| && r < |live| && r < |stateIdx| && lengths[r] != 0 && live[r] && stateIdx[r] == slot
    }

    /** The first k draft tokens of row r. */
    ghost function Drafted(r: nat, k: nat): (d: seq<T>)
      requires r < |lengths| && k <= width && |tokens| == |lengths| * width
      ensures |d| == k
    {
      RowStart(r, |lengths|, width);
      tokens[r * width..r * width + k]
    }

    ghost predicate Valid(poolSize: nat) {
      && poolSize > 0 && |stateIdx| == |live| == |lengths| && |tokens| == |lengths| * width
      && (forall r :: 0 <= r < |lengths| ==> lengths[r] <= width && stateIdx[r] < poolSize)
    }

    function Plans(): (plans: seq<Plan<T>>)
      requires |stateIdx| == |live| == |lengths| && |tokens| == |lengths| * width
      requires forall r :: 0 <= r < |lengths| ==> lengths[r] <= width
      ensures |plans| == |lengths|
      ensures forall r :: 0 <= r < |plans| ==>
                plans[r] == Plan(if lengths[r] != 0 && live[r] then stateIdx[r] else 0,
                                 Draft(tokens, width, |lengths|, r)[..lengths[r]], 0, 0)
    {
      seq(|lengths|, r requires 0 <= r < |lengths| =>
        Plan(if lengths[r] != 0 && live[r] then stateIdx[r] else 0,
             Draft(tokens, width, |lengths|, r)[..lengths[r]], 0, 0))
    }
  }

  /** Draft step t of a row: the state after t + 1 of the row's tokens; past the valid length,
      only fill. */
  ghost predicate RowStates<T>(im: seq<seq<T>>, pool: seq<seq<T>>, n: nat, p: Plan<T>, width: nat, fill: T)
    requires p.slot < |pool| && |pool[p.slot]| == n
  {
    && |im| == width && |p.chunk| <= width
    && forall t :: 0 <= t < width ==>
         im[t] == if t < |p.chunk| then After(pool, n, p, t + 1) else seq(n, _ => fill)
  }

  ghost predicate IntermediateStates<T>(im: seq<seq<seq<T>>>, pool: seq<seq<T>>, n: nat, plans: seq<Plan<T>>,
                                        width: nat, fill: T)
    requires Fits(pool, n, plans)
  {
    |im| == |plans| && forall r :: 0 <= r < |plans| ==> RowStates(im[r], pool, n, plans[r], width, fill)
  }

  ghost predicate RowWindows<T>(windows: seq<seq<T>>, pool: seq<seq<T>>, p: Plan<T>, width: nat) {
    && |windows| == width && p.slot < |pool| && |p.chunk| <= width
    && forall o :: 0 <= o < |p.chunk| ==> windows[o] == TokenWindow(pool[p.slot], p.chunk, o)
  }

  /** The unfolds of one verify row: a window and the next state per step. */
  method VerifyRow<T>(ghost pool: seq<seq<T>>, n: nat, p: Plan<T>, context: seq<T>, width: nat, fill: T)
    returns (windows: seq<seq<T>>, states: seq<seq<T>>)
    requires p.slot < |pool| && |pool[p.slot]| == n && ReadsPlan(pool, n, context, p, width)
    ensures RowWindows(windows, pool, p, width) && RowStates(states, pool, n, p, width, fill)
  {
    windows := seq(width, o requires 0 <= o && o + n + 1 <= |context| => Unfold(context, o, n + 1));
    states := seq(width, t requires 0 <= t < width && t + 1 + n <= |context| =>
      if t < |p.chunk| then Unfold(context, t + 1, n) else seq(n, _ => fill));
  }

  /** Every request's every token has its own window. */
  ghost predicate WindowsOfPlans<T>(windows: seq<seq<T>>, pool: seq<seq<T>>, lengths: seq<nat>, plans: seq<Plan<T>>, n: nat)
  {
    && |windows| == n >= Total(lengths) && |plans| == |lengths|
    && forall r, o: nat :: 0 <= r < |lengths| && o < lengths[r] ==>
         plans[r].slot < |pool| && o < |plans[r].chunk|
         && windows[PositionOf(lengths, r, o)] == TokenWindow(pool[plans[r].slot], plans[r].chunk, o)
  }

  /** The inputs of an extend forward; state indices are the requests' own slots. */
  datatype Extend<T> = Extend(tokens: seq<T>, lengths: seq<nat>, width: nat, stateIdx: seq<nat>,
                              track: Option<seq<Track>>)
  {
    ghost predicate Valid(poolSize: nat) {
      && poolSize > 0 && |stateIdx| == |lengths|
      && Total(lengths) <= |tokens| && (lengths == [] ==> tokens == [])
      && (|tokens| == Total(lengths) || |tokens| <= width)
      && (forall r :: 0 <= r < |lengths| ==> lengths[r] <= width && stateIdx[r] < poolSize)
      && (track.Some? ==> |track.value| == |lengths|
                          && forall r :: 0 <= r < |lengths| ==> track.value[r].dst < poolSize)
    }

    /** Row r has tokens and works on its request's slot. */
    ghost predicate Feeds(r: nat, slot: nat) {
      r < |lengths| && r < |stateIdx| && lengths[r] != 0 && stateIdx[r] == slot
    }

    /** The tokens of row r, cut out of the packed batch. */
    ghost function Fed(r: nat): (fed: seq<T>)
      requires r < |lengths| && Total(lengths) <= |tokens|
      ensures |fed| == lengths[r]
    {
      QueryStartMonotone(lengths, r + 1, |lengths|);
      tokens[QueryStart(lengths, r)..QueryStart(lengths, r) + lengths[r]]
    }

    ghost predicate TracksTo(r: nat, slot: nat) {
      track.Some? && r < |track.value| && track.value[r].dst == slot
    }

    /** No other row works on the slot and no snapshot goes to it. */
    ghost predicate AloneFeeds(r: nat, slot: nat) {
      && slot != 0 && Feeds(r, slot)
      && (forall q: nat :: q != r ==> !Feeds(q, slot)) && (forall q: nat :: !TracksTo(q, slot))
    }

    ghost predicate AloneTracksTo(r: nat, slot: nat) {
      slot != 0 && TracksTo(r, slot) && forall q: nat :: q != r ==> !TracksTo(q, slot)
    }

    ghost predicate LeavesAlone(slot: nat) {
      forall q: nat :: !Feeds(q, slot) && !TracksTo(q, slot)
    }

    /** The tracked prefix of row r: as long as the aligned length says, within the row. */
    ghost function Tracked(r: nat): seq<T>
      requires r < |lengths| && Total(lengths) <= |tokens| && track.Some? && r < |track.value|
    {
      var k := track.value[r].aligned;
      if k < 0 then [] else if k > lengths[r] then Fed(r) else Fed(r)[..k]
    }

    /** Empty rows work on the reserved slot 0; without tracking the snapshot goes nowhere. */
    function PlanOf(r: nat): Plan<T>
      requires r < |lengths| == |stateIdx| && Total(lengths) <= |tokens|
      requires track.Some? ==> |track.value| == |lengths|
    {
      Plan(if lengths[r] != 0 then stateIdx[r] else 0,
           Chunk(tokens, lengths, r),
           if track.Some? then track.value[r].dst else 0,
           if track.Some? then ClampOffset(track.value[r].aligned, lengths[r]) else 0)
    }

    function Plans(): (plans: seq<Plan<T>>)
      requires |lengths| == |stateIdx| && Total(lengths) <= |tokens|
      requires track.Some? ==> |track.value| == |lengths|
      ensures |plans| == |lengths|
      ensures forall r :: 0 <= r < |plans| ==> plans[r] == PlanOf(r) && |plans[r].chunk| == lengths[r]
    {
      seq(|lengths|, r requires 0 <= r < |lengths| => PlanOf(r))
    }
  }

  /** contexts.unfold(1, state_len + 1, 1)[req_indices, token_offsets] */
  method GatherWindows<T>(ghost pool: seq<seq<T>>, n: nat, tokens: seq<T>, lengths: seq<nat>, width: nat,
                          ghost plans: seq<Plan<T>>, contexts: seq<seq<T>>) returns (windows: seq<seq<T>>)
    requires Total(lengths) <= |tokens| && (lengths == [] ==> tokens == [])
    requires |tokens| == Total(lengths) || |tokens| <= width
    requires |plans| == |contexts| == |lengths| && Fits(pool, n, plans)
    requires forall r :: 0 <= r < |lengths| ==>
               |plans[r].chunk| == lengths[r] && ReadsPlan(pool, n, contexts[r], plans[r], width)
    ensures WindowsOfPlans(windows, pool, lengths, plans, |tokens|)
  {
    windows := [];
    for p := 0 to |tokens|
      invariant |windows| == p
      invariant forall r, o: nat :: 0 <= r < |lengths| && o < lengths[r] && PositionOf(lengths, r, o) < p ==>
                  windows[PositionOf(lengths, r, o)] == TokenWindow(pool[plans[r].slot], plans[r].chunk, o)
    {
      var r, o := RequestAndOffset(tokens, lengths, width, p);
      forall r', o': nat | 0 <= r' < |lengths| && o' < lengths[r'] && PositionOf(lengths, r', o') == p
        ensures r' == r && o' == o
      {
        RequestFound(lengths, r', o');
      }
      windows := windows + [Unfold(contexts[r], o, n + 1)];
    }
  }

  /** The row of a plan, read at any token or offset, gives that token's window or that state. */
  ghost predicate ReadsPlan<T>(pool: seq<seq<T>>, n: nat, context: seq<T>, p: Plan<T>, width: nat)
    requires p.slot < |pool| && |pool[p.slot]| == n
  {
    && |context| == n + width && |p.chunk| <= width
    && (forall o :: 0 <= o < |p.chunk| ==> Unfold(context, o, n + 1) == TokenWindow(pool[p.slot], p.chunk, o))
    && (forall o :: 0 <= o <= |p.chunk| ==> Unfold(context, o, n) == After(pool, n, p, o))
  }

  method RequestAndOffset<T>(tokens: seq<T>, lengths: seq<nat>, width: nat, p: nat) returns (r: nat, o: nat)
    requires p < |tokens| && Total(lengths) <= |tokens| && lengths != []
    requires forall i :: 0 <= i < |lengths| ==> lengths[i] <= width
    requires |tokens| == Total(lengths) || |tokens| <= width
    ensures r < |lengths| && o < width && r == RequestOf(lengths, p) && p == QueryStart(lengths, r) + o
  {
    r := RequestOf(lengths, p);
    if p < Total(lengths) {
      ghost var r0, o0 := RequestExists(lengths, p, |lengths|);
      RequestFound(lengths, r0, o0);
    } else {
      PastTheEnd(lengths, p);
      QueryStartMonotone(lengths, r, |lengths|);
    }
    o := p - QueryStart(lengths, r);
  }
}
