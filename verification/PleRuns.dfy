/** Streaming equivalence: however a request's tokens are cut into extend chunks, decode steps
    and accepted drafts, and whatever else is batched with them, every window and every state is
    that of one pass over the initial history followed by the whole stream. */
module PleRuns {
  import opened PleStream

  /** One committed forward: its rows, and whether snapshots are taken. */
  datatype Forward<T> = Forward(plans: seq<Plan<T>>, tracking: bool)

  /** Live rows have their own slots, and snapshots go to slots no row of the batch works in.
      Slot 0 is the reserved dummy and may repeat. */
  ghost predicate WellFormed<T>(pool: seq<seq<T>>, n: nat, f: Forward<T>) {
    && Fits(pool, n, f.plans)
    && (forall i, j :: 0 <= i < j < |f.plans| && f.plans[j].slot != 0 ==> f.plans[i].slot != f.plans[j].slot)
    && (f.tracking ==>
          && (forall i, j :: 0 <= i < j < |f.plans| && f.plans[j].dst != 0 ==> f.plans[i].dst != f.plans[j].dst)
          && (forall i, j :: 0 <= i < |f.plans| && 0 <= j < |f.plans| && f.plans[j].dst != 0 ==>
                f.plans[i].slot != f.plans[j].dst))
  }

  ghost predicate Involves<T>(plans: seq<Plan<T>>, slot: nat) {
    exists r :: 0 <= r < |plans| && plans[r].slot == slot
  }

  ghost predicate SnapshotsTo<T>(f: Forward<T>, slot: nat) {
    f.tracking && exists r :: 0 <= r < |f.plans| && f.plans[r].dst == slot
  }

  /** A live row's slot ends with its history followed by its chunk. */
  lemma StepAtSlot<T>(pool: seq<seq<T>>, n: nat, f: Forward<T>, r: nat)
    requires WellFormed(pool, n, f) && r < |f.plans| && f.plans[r].slot != 0
    requires !SnapshotsTo(f, f.plans[r].slot)
    ensures Step(pool, n, f.plans, f.tracking)[f.plans[r].slot] == After(pool, n, f.plans[r], |f.plans[r].chunk|)
  {
    hide Step, After;
    StepHits(pool, n, f.plans, f.tracking, r);
  }

  /** A snapshot slot ends with the state after the tracked prefix. */
  lemma StepAtSnapshot<T>(pool: seq<seq<T>>, n: nat, f: Forward<T>, r: nat)
    requires WellFormed(pool, n, f) && r < |f.plans| && f.tracking && f.plans[r].dst != 0
    ensures Step(pool, n, f.plans, f.tracking)[f.plans[r].dst] == After(pool, n, f.plans[r], f.plans[r].offset)
  {
    hide Step, After;
    StepSnapshots(pool, n, f.plans, r);
  }

  /** Every other slot keeps its state. */
  lemma StepElsewhere<T>(pool: seq<seq<T>>, n: nat, f: Forward<T>, s: nat)
    requires WellFormed(pool, n, f) && s < |pool| && !Involves(f.plans, s) && !SnapshotsTo(f, s)
    ensures Step(pool, n, f.plans, f.tracking)[s] == pool[s]
  {
    hide Step;
    StepMisses(pool, n, f.plans, f.tracking, s);
  }

  // ---------------------------------------------------------------- runs

  function Run<T>(pool: seq<seq<T>>, n: nat, run: seq<Forward<T>>): (r: seq<seq<T>>)
    requires Runnable(pool, n, run)
    ensures |r| == |pool| && forall s :: 0 <= s < |r| ==> |r[s]| == n
    decreases |run|
  {
    if run == [] then pool
    else
      var k := |run| - 1;
      var before := Run(pool, n, run[..k]);
      FitsTransfers(pool, before, n, run[k]);
      Step(before, n, run[k].plans, run[k].tracking)
  }

  ghost predicate Runnable<T>(pool: seq<seq<T>>, n: nat, run: seq<Forward<T>>) {
    && (forall s :: 0 <= s < |pool| ==> |pool[s]| == n)
    && forall i :: 0 <= i < |run| ==> WellFormed(pool, n, run[i])
  }

  lemma FitsTransfers<T>(pool: seq<seq<T>>, later: seq<seq<T>>, n: nat, f: Forward<T>)
    requires WellFormed(pool, n, f) && |later| == |pool| && forall s :: 0 <= s < |later| ==> |later[s]| == n
    ensures WellFormed(later, n, f)
  {
  }

  lemma PrefixRunnable<T>(pool: seq<seq<T>>, n: nat, run: seq<Forward<T>>, i: nat)
    requires Runnable(pool, n, run) && i <= |run|
    ensures Runnable(pool, n, run[..i])
  {
  }

  /** The tokens a batch feeds to a slot. */
  ghost function ChunkFor<T>(plans: seq<Plan<T>>, slot: nat): seq<T> {
    if r :| 0 <= r < |plans| && plans[r].slot == slot then plans[r].chunk else []
  }

  /** Everything a run feeds to a slot, in order. */
  ghost function Stream<T>(run: seq<Forward<T>>, slot: nat): seq<T>
    decreases |run|
  {
    if run == [] then [] else Stream(run[..|run| - 1], slot) + ChunkFor(run[|run| - 1].plans, slot)
  }

  lemma ChunkOfRow<T>(pool: seq<seq<T>>, n: nat, f: Forward<T>, r: nat)
    requires WellFormed(pool, n, f) && r < |f.plans| && f.plans[r].slot != 0
    ensures ChunkFor(f.plans, f.plans[r].slot) == f.plans[r].chunk
  {
    assert Involves(f.plans, f.plans[r].slot);
    var q :| 0 <= q < |f.plans| && f.plans[q].slot == f.plans[r].slot && ChunkFor(f.plans, f.plans[r].slot) == f.plans[q].chunk;
  }

  ghost predicate NeverSnapshot<T>(run: seq<Forward<T>>, slot: nat) {
    forall i :: 0 <= i < |run| ==> !SnapshotsTo(run[i], slot)
  }

  lemma StepExtendsStream<T>(before: seq<seq<T>>, n: nat, f: Forward<T>, slot: nat, stream: seq<T>)
    requires WellFormed(before, n, f) && 0 < slot < |before| && !SnapshotsTo(f, slot)
    requires |stream| >= n && before[slot] == LastN(stream, n)
    ensures Step(before, n, f.plans, f.tracking)[slot] == LastN(stream + ChunkFor(f.plans, slot), n)
  {
    if r :| 0 <= r < |f.plans| && f.plans[r].slot == slot {
      StepAtSlot(before, n, f, r);
      ChunkOfRow(before, n, f, r);
      var chunk := f.plans[r].chunk;
      assert chunk[..|chunk|] == chunk;
      LastOfLast(stream, chunk, n, n);
    } else {
      StepElsewhere(before, n, f, slot);
      assert stream + [] == stream;
    }
  }

  /** A slot ends with the last state_len entries of its initial history followed by its whole
      stream; a slot that no batch feeds keeps its state. */
  lemma {:induction false} RunKeepsStream<T>(pool: seq<seq<T>>, n: nat, run: seq<Forward<T>>, slot: nat)
    requires Runnable(pool, n, run) && 0 < slot < |pool| && NeverSnapshot(run, slot)
    ensures Run(pool, n, run)[slot] == LastN(pool[slot] + Stream(run, slot), n)
    decreases |run|
  {
    hide Step, WellFormed, SnapshotsTo, ChunkFor;
    if run == [] {
      assert pool[slot] + Stream(run, slot) == pool[slot];
    } else {
      var k := |run| - 1;
      RunKeepsStream(pool, n, run[..k], slot);
      var before := Run(pool, n, run[..k]);
      FitsTransfers(pool, before, n, run[k]);
      StepExtendsStream(before, n, run[k], slot, pool[slot] + Stream(run[..k], slot));
      assert pool[slot] + Stream(run, slot) == pool[slot] + Stream(run[..k], slot) + ChunkFor(run[k].plans, slot);
    }
  }

  /** The window a batch computes for token o of a row is the token's window in one pass over
      the initial history and everything fed to that slot so far. */
  lemma EveryWindowIsOnePass<T>(pool: seq<seq<T>>, n: nat, run: seq<Forward<T>>, i: nat, r: nat, o: nat)
    requires Runnable(pool, n, run) && i < |run| && r < |run[i].plans|
    requires run[i].plans[r].slot != 0 && NeverSnapshot(run[..i], run[i].plans[r].slot)
    requires o < |run[i].plans[r].chunk|
    ensures var p := run[i].plans[r];
            && p.slot < |pool|
            && TokenWindow(Run(pool, n, run[..i])[p.slot], p.chunk, o)
               == WindowOf(pool[p.slot] + Stream(run[..i], p.slot) + p.chunk[..o + 1], n)
  {
    var p := run[i].plans[r];
    assert WellFormed(pool, n, run[i]);
    RunKeepsStream(pool, n, run[..i], p.slot);
    LastOfLast(pool[p.slot] + Stream(run[..i], p.slot), p.chunk[..o + 1], n, n + 1);
  }

  lemma {:induction false} StreamPrefix<T>(run: seq<Forward<T>>, i: nat, slot: nat)
    requires i <= |run|
    ensures |Stream(run[..i], slot)| <= |Stream(run, slot)|
    ensures Stream(run, slot)[..|Stream(run[..i], slot)|] == Stream(run[..i], slot)
    decreases |run|
  {
    if i < |run| {
      StreamPrefix(run[..|run| - 1], i, slot);
      assert run[..|run| - 1][..i] == run[..i];
    } else {
      assert run[..i] == run;
    }
  }

  lemma StreamStep<T>(run: seq<Forward<T>>, i: nat, slot: nat)
    requires i < |run|
    ensures Stream(run[..i + 1], slot) == Stream(run[..i], slot) + ChunkFor(run[i].plans, slot)
  {
    assert run[..i + 1][..i] == run[..i];
  }

  /** ... which is where a single unfold over the initial history and the request's whole final
      stream has it. */
  lemma EveryWindowIsOnePassOverTheWholeStream<T>(pool: seq<seq<T>>, n: nat, run: seq<Forward<T>>, i: nat, r: nat, o: nat)
    requires Runnable(pool, n, run) && i < |run| && r < |run[i].plans|
    requires run[i].plans[r].slot != 0 && NeverSnapshot(run[..i], run[i].plans[r].slot)
    requires o < |run[i].plans[r].chunk|
    ensures var p := run[i].plans[r];
            var at := |Stream(run[..i], p.slot)| + o;
            && p.slot < |pool| && at < |Stream(run, p.slot)|
            && TokenWindow(Run(pool, n, run[..i])[p.slot], p.chunk, o)
               == Unfold(pool[p.slot] + Stream(run, p.slot), at, n + 1)
  {
    hide Stream, ChunkFor, Run, TokenWindow, NeverSnapshot, WellFormed;
    var p := run[i].plans[r];
    EveryWindowIsOnePass(pool, n, run, i, r, o);
    ChunkOfRow(pool, n, run[i], r);
    StreamPrefix(run, i + 1, p.slot);
    StreamStep(run, i, p.slot);
    UnfoldOfPrefix(pool[p.slot], Stream(run, p.slot), Stream(run[..i], p.slot), p.chunk, o, n);
  }

  lemma UnfoldOfPrefix<T>(history: seq<T>, whole: seq<T>, fed: seq<T>, chunk: seq<T>, o: nat, n: nat)
    requires |history| == n && o < |chunk| && |fed + chunk| <= |whole| && whole[..|fed + chunk|] == fed + chunk
    ensures WindowOf(history + fed + chunk[..o + 1], n) == Unfold(history + whole, |fed| + o, n + 1)
  {
    assert whole[..|fed| + o + 1] == fed + chunk[..o + 1] by {
      assert whole[..|fed + chunk|][..|fed| + o + 1] == (fed + chunk)[..|fed| + o + 1];
    }
    assert history + fed + chunk[..o + 1] == (history + whole)[..n + |fed| + o + 1];
  }

  /** A snapshot holds the state after exactly the tracked prefix of the request's stream. */
  lemma SnapshotIsPrefixState<T>(pool: seq<seq<T>>, n: nat, run: seq<Forward<T>>, i: nat, r: nat)
    requires Runnable(pool, n, run) && i < |run| && r < |run[i].plans| && run[i].tracking
    requires run[i].plans[r].dst != 0 && run[i].plans[r].slot != 0
    requires NeverSnapshot(run[..i], run[i].plans[r].slot)
    ensures var p := run[i].plans[r];
            && p.slot < |pool| && p.dst < |pool|
            && Run(pool, n, run[..i + 1])[p.dst]
               == LastN(pool[p.slot] + Stream(run[..i], p.slot) + p.chunk[..p.offset], n)
  {
    var p := run[i].plans[r];
    assert WellFormed(pool, n, run[i]);
    var before := Run(pool, n, run[..i]);
    assert run[..i + 1][..i] == run[..i];
    RunKeepsStream(pool, n, run[..i], p.slot);
    FitsTransfers(pool, before, n, run[i]);
    StepAtSnapshot(before, n, run[i], r);
    LastOfLast(pool[p.slot] + Stream(run[..i], p.slot), p.chunk[..p.offset], n, n);
  }

  /** Restoring a snapshot into a slot and feeding that slot the rest of the tokens, in any
      further batches, gives the state of the uninterrupted stream. */
  lemma ResumeIsUninterrupted<T>(pool: seq<seq<T>>, n: nat, run: seq<Forward<T>>, i: nat, r: nat,
                                 restored: seq<seq<T>>, more: seq<Forward<T>>, slot: nat)
    requires Runnable(pool, n, run) && i < |run| && r < |run[i].plans| && run[i].tracking
    requires run[i].plans[r].dst != 0 && run[i].plans[r].slot != 0
    requires NeverSnapshot(run[..i], run[i].plans[r].slot)
    requires Runnable(restored, n, more) && 0 < slot < |restored| && NeverSnapshot(more, slot)
    requires run[i].plans[r].dst < |pool| && restored[slot] == Run(pool, n, run[..i + 1])[run[i].plans[r].dst]
    ensures var p := run[i].plans[r];
            && p.slot < |pool|
            && Run(restored, n, more)[slot]
               == LastN(pool[p.slot] + Stream(run[..i], p.slot) + p.chunk[..p.offset] + Stream(more, slot), n)
  {
    var p := run[i].plans[r];
    assert WellFormed(pool, n, run[i]);
    SnapshotIsPrefixState(pool, n, run, i, r);
    RunKeepsStream(restored, n, more, slot);
    LastOfLast(pool[p.slot] + Stream(run[..i], p.slot) + p.chunk[..p.offset], Stream(more, slot), n, n);
  }

  /** What a snapshot of a row stands for: the initial history and everything fed to the row's slot
      up to the tracked token. */
  ghost function SnapshotStream<T>(pool: seq<seq<T>>, run: seq<Forward<T>>, i: nat, r: nat): seq<T>
    requires i < |run| && r < |run[i].plans| && run[i].plans[r].slot < |pool|
    requires run[i].plans[r].offset <= |run[i].plans[r].chunk|
  {
    pool[run[i].plans[r].slot] + Stream(run[..i], run[i].plans[r].slot) + run[i].plans[r].chunk[..run[i].plans[r].offset]
  }

  /** The slot starts from the snapshot that row r of batch i left. */
  ghost predicate Restores<T>(pool: seq<seq<T>>, n: nat, run: seq<Forward<T>>, i: nat, r: nat, restored: seq<seq<T>>, slot: nat) {
    && Runnable(pool, n, run) && i < |run| && r < |run[i].plans| && run[i].tracking
    && run[i].plans[r].dst != 0 && run[i].plans[r].slot != 0
    && NeverSnapshot(run[..i], run[i].plans[r].slot)
    && 0 < slot < |restored|
    && run[i].plans[r].dst < |pool| && restored[slot] == Run(pool, n, run[..i + 1])[run[i].plans[r].dst]
  }

  lemma RestoredSlot<T>(pool: seq<seq<T>>, n: nat, run: seq<Forward<T>>, i: nat, r: nat, restored: seq<seq<T>>, slot: nat)
    requires Restores(pool, n, run, i, r, restored, slot)
    ensures run[i].plans[r].slot < |pool| && run[i].plans[r].offset <= |run[i].plans[r].chunk|
    ensures n <= |SnapshotStream(pool, run, i, r)| && restored[slot] == LastN(SnapshotStream(pool, run, i, r), n)
  {
    assert WellFormed(pool, n, run[i]);
    SnapshotIsPrefixState(pool, n, run, i, r);
  }

  lemma UnfoldAfterLast<T>(prefix: seq<T>, rest: seq<T>, n: nat, at: nat)
    requires n <= |prefix| && at < |rest|
    ensures Unfold(LastN(prefix, n) + rest, at, n + 1) == Unfold(prefix + rest, |prefix| - n + at, n + 1)
  {
  }

  /** After a restore every window, too, is that of the uninterrupted stream. */
  lemma ResumedWindowIsUninterrupted<T>(pool: seq<seq<T>>, n: nat, run: seq<Forward<T>>, i: nat, r: nat,
                                        restored: seq<seq<T>>, more: seq<Forward<T>>, slot: nat, j: nat, q: nat, o: nat)
    requires Restores(pool, n, run, i, r, restored, slot) && Runnable(restored, n, more)
    requires j < |more| && q < |more[j].plans| && more[j].plans[q].slot == slot && NeverSnapshot(more[..j], slot)
    requires o < |more[j].plans[q].chunk|
    ensures run[i].plans[r].slot < |pool| && run[i].plans[r].offset <= |run[i].plans[r].chunk|
    ensures var before := SnapshotStream(pool, run, i, r);
            var at := |Stream(more[..j], slot)| + o;
            && n <= |before| && at < |Stream(more, slot)|
            && TokenWindow(Run(restored, n, more[..j])[slot], more[j].plans[q].chunk, o)
               == Unfold(before + Stream(more, slot), |before| - n + at, n + 1)
  {
    hide Runnable, Stream, Run, NeverSnapshot, SnapshotStream, TokenWindow, Unfold, LastN;
    RestoredSlot(pool, n, run, i, r, restored, slot);
    EveryWindowIsOnePassOverTheWholeStream(restored, n, more, j, q, o);
    UnfoldAfterLast(SnapshotStream(pool, run, i, r), Stream(more, slot), n, |Stream(more[..j], slot)| + o);
  }

  // ---------------------------------------------------------------- accepted drafts

  /** A verify row cut to its accepted tokens. */
  function Accepted<T>(p: Plan<T>, accepted: nat): Plan<T>
    requires accepted <= |p.chunk|
  {
    Plan(p.slot, p.chunk[..accepted], 0, 0)
  }

  function AcceptedPlans<T>(plans: seq<Plan<T>>, rows: seq<nat>, accepted: seq<nat>): (r: seq<Plan<T>>)
    requires Acceptable(plans, rows, accepted)
    ensures |r| == |rows| && forall i :: 0 <= i < |r| ==> r[i] == Accepted(plans[rows[i]], accepted[i])
  {
    seq(|rows|, i requires 0 <= i < |rows| => Accepted(plans[rows[i]], accepted[i]))
  }

  /** Rows of a verify batch, each with some of its draft tokens. */
  predicate Acceptable<T>(plans: seq<Plan<T>>, rows: seq<nat>, accepted: seq<nat>) {
    && |rows| == |accepted|
    && forall i :: 0 <= i < |rows| ==> rows[i] < |plans| && 0 < accepted[i] <= |plans[rows[i]].chunk|
  }

  /** Taking, for all rows of a verify batch at once, the intermediate states of the last accepted
      draft tokens is committing the accepted tokens: verify followed by acceptance is one more
      forward of the run. */
  lemma AcceptIsForward<T>(pool: seq<seq<T>>, n: nat, plans: seq<Plan<T>>, im: seq<seq<seq<T>>>, width: nat, fill: T,
                           rows: seq<nat>, accepted: seq<nat>)
    requires Fits(pool, n, plans) && IntermediateStates(im, pool, n, plans, width, fill) && Acceptable(plans, rows, accepted)
    ensures forall i :: 0 <= i < |rows| ==>
      rows[i] < |im| && accepted[i] <= |im[rows[i]]| && |im[rows[i]][accepted[i] - 1]| == n
    ensures Fits(pool, n, AcceptedPlans(plans, rows, accepted))
    ensures PutAll(pool, n, SlotsOf(AcceptedPlans(plans, rows, accepted)), AcceptedStates(im, rows, accepted))
            == Step(pool, n, AcceptedPlans(plans, rows, accepted), false)
  {
    var cut := AcceptedPlans(plans, rows, accepted);
    forall i | 0 <= i < |rows|
      ensures rows[i] < |im| && accepted[i] <= |im[rows[i]]| && |im[rows[i]][accepted[i] - 1]| == n
      ensures im[rows[i]][accepted[i] - 1] == After(pool, n, cut[i], |cut[i].chunk|)
    {
      assert RowStates(im[rows[i]], pool, n, plans[rows[i]], width, fill);
      assert cut[i].chunk[..|cut[i].chunk|] == plans[rows[i]].chunk[..accepted[i]];
    }
    hide PutAll, RowStates, After;
    assert AcceptedStates(im, rows, accepted) == NextStates(pool, n, cut);
  }

  lemma PrefixWindow<T>(history: seq<T>, chunk: seq<T>, a: nat, o: nat)
    requires o < a <= |chunk|
    ensures TokenWindow(history, chunk[..a], o) == TokenWindow(history, chunk, o)
  {
    assert chunk[..a][..o + 1] == chunk[..o + 1];
  }

  /** The window a verify batch computed for an accepted draft token is the token's window in one pass
      over the initial history and the stream that holds the accepted tokens and whatever follows. */
  lemma AcceptedWindowIsOnePass<T>(pool: seq<seq<T>>, n: nat, run: seq<Forward<T>>, v: nat, plans: seq<Plan<T>>,
                                   rows: seq<nat>, accepted: seq<nat>, i: nat, o: nat)
    requires Runnable(pool, n, run) && v < |run| && Acceptable(plans, rows, accepted)
    requires run[v] == Forward(AcceptedPlans(plans, rows, accepted), false)
    requires i < |rows| && o < accepted[i] && plans[rows[i]].slot != 0 && NeverSnapshot(run[..v], plans[rows[i]].slot)
    ensures var p := plans[rows[i]];
            var at := |Stream(run[..v], p.slot)| + o;
            && p.slot < |pool| && at < |Stream(run, p.slot)|
            && TokenWindow(Run(pool, n, run[..v])[p.slot], p.chunk, o) == Unfold(pool[p.slot] + Stream(run, p.slot), at, n + 1)
  {
    hide Runnable, Stream, Run, NeverSnapshot, TokenWindow, Unfold;
    var p := plans[rows[i]];
    assert run[v].plans[i] == Accepted(p, accepted[i]);
    EveryWindowIsOnePassOverTheWholeStream(pool, n, run, v, i, o);
    PrefixRunnable(pool, n, run, v);
    PrefixWindow(Run(pool, n, run[..v])[p.slot], p.chunk, accepted[i], o);
  }

  ghost predicate FitsOne<T>(pool: seq<seq<T>>, n: nat, slot: nat) {
    slot < |pool| && forall s :: 0 <= s < |pool| ==> |pool[s]| == n
  }

  /** One decode forward of a single request. */
  function DecodeOne<T>(pool: seq<seq<T>>, n: nat, slot: nat, token: T): (r: seq<seq<T>>)
    requires FitsOne(pool, n, slot)
    ensures FitsOne(r, n, slot) && |r| == |pool|
  {
    Step(pool, n, [Plan(slot, [token], 0, 0)], false)
  }

  function DecodeSteps<T>(pool: seq<seq<T>>, n: nat, slot: nat, tokens: seq<T>): (r: seq<seq<T>>)
    requires FitsOne(pool, n, slot)
    ensures FitsOne(r, n, slot) && |r| == |pool|
    decreases |tokens|
  {
    if tokens == [] then pool
    else DecodeOne(DecodeSteps(pool, n, slot, tokens[..|tokens| - 1]), n, slot, tokens[|tokens| - 1])
  }

  lemma DecodeOneState<T>(pool: seq<seq<T>>, n: nat, slot: nat, token: T)
    requires FitsOne(pool, n, slot)
    ensures DecodeOne(pool, n, slot, token)[slot] == LastN(pool[slot] + [token], n)
  {
    var one := Plan(slot, [token], 0, 0);
    assert one.chunk[..1] == [token];
    PutHit(pool, n, SlotsOf([one]), NextStates(pool, n, [one]), 0);
  }

  lemma {:induction false} DecodeStepsState<T>(pool: seq<seq<T>>, n: nat, slot: nat, tokens: seq<T>)
    requires FitsOne(pool, n, slot)
    ensures DecodeSteps(pool, n, slot, tokens)[slot] == LastN(pool[slot] + tokens, n)
    decreases |tokens|
  {
    if tokens == [] {
      assert pool[slot] + tokens == pool[slot];
    } else {
      var k := |tokens| - 1;
      DecodeStepsState(pool, n, slot, tokens[..k]);
      DecodeOneState(DecodeSteps(pool, n, slot, tokens[..k]), n, slot, tokens[k]);
      LastOfLast(pool[slot] + tokens[..k], [tokens[k]], n, n);
      assert pool[slot] + tokens[..k] + [tokens[k]] == pool[slot] + tokens;
    }
  }

  /** The verify intermediate at step t is the state after t + 1 single-token decode steps. */
  lemma IntermediateIsDecodeSteps<T>(pool: seq<seq<T>>, n: nat, plans: seq<Plan<T>>, im: seq<seq<seq<T>>>, width: nat,
                                     fill: T, r: nat, t: nat)
    requires Fits(pool, n, plans) && IntermediateStates(im, pool, n, plans, width, fill)
    requires r < |plans| && t < |plans[r].chunk|
    ensures t < |im[r]| && FitsOne(pool, n, plans[r].slot)
    ensures im[r][t] == DecodeSteps(pool, n, plans[r].slot, plans[r].chunk[..t + 1])[plans[r].slot]
  {
    DecodeStepsState(pool, n, plans[r].slot, plans[r].chunk[..t + 1]);
  }
}
