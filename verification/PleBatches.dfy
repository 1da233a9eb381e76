/** Lists of real batches: the side state is fed extend, decode and verify batches one after the
    other, and ends where one pass over each request's stream ends. */
module PleBatches {
  import opened PleLayout
  import opened PleStream
  import opened PleRuns

  datatype Batch<T> =
    | ExtendBatch(extend: Extend<T>)
    | DecodeBatch(decode: Decode<T>, fast: bool)
    | VerifyBatch(verify: Verify<T>, rows: seq<nat>, accepted: seq<nat>)
  {
    ghost predicate Valid(poolSize: nat) {
      match this
      case ExtendBatch(e) => e.Valid(poolSize)
      case DecodeBatch(d, _) => d.Valid(poolSize)
      case VerifyBatch(v, rows, accepted) =>
        && v.Valid(poolSize) && |rows| == |accepted|
        && forall i :: 0 <= i < |rows| ==> rows[i] < |v.lengths| && 0 < accepted[i] <= v.lengths[rows[i]]
    }

    /** The batch's r-th row feeds the slot: a non-empty extend row, a live decode row, or a verify
        row whose tokens were accepted. */
    ghost predicate Feeds(r: nat, slot: nat) {
      match this
      case ExtendBatch(e) => e.Feeds(r, slot)
      case DecodeBatch(d, _) => d.Feeds(r, slot)
      case VerifyBatch(v, rows, _) => r < |rows| && v.Feeds(rows[r], slot)
    }

    /** What it feeds: the row's own tokens, the row's token, the accepted prefix of its drafts. */
    ghost function Fed(r: nat, slot: nat, poolSize: nat): seq<T>
      requires Valid(poolSize) && Feeds(r, slot)
    {
      match this
      case ExtendBatch(e) => e.Fed(r)
      case DecodeBatch(d, _) => [d.tokens[r]]
      case VerifyBatch(v, rows, accepted) => v.Drafted(rows[r], accepted[r])
    }

    ghost predicate TracksTo(slot: nat) {
      match this
      case ExtendBatch(e) => exists r: nat :: e.TracksTo(r, slot)
      case DecodeBatch(d, _) => exists r: nat :: d.TracksTo(r, slot)
      case VerifyBatch(_, _, _) => false
    }

    /** Slots but the dummy are fed by one row, and take one snapshot or none, not both. */
    ghost predicate WellShaped() {
      && (forall i: nat, j: nat, slot: nat :: slot != 0 && Feeds(i, slot) && Feeds(j, slot) ==> i == j)
      && (forall i: nat, slot: nat :: slot != 0 && Feeds(i, slot) ==> !TracksTo(slot))
      && match this
         case ExtendBatch(e) => forall i: nat, j: nat, slot: nat :: slot != 0 && e.TracksTo(i, slot) && e.TracksTo(j, slot) ==> i == j
         case DecodeBatch(d, _) => forall i: nat, j: nat, slot: nat :: slot != 0 && d.TracksTo(i, slot) && d.TracksTo(j, slot) ==> i == j
         case VerifyBatch(_, _, _) => true
    }

    /** What the batch feeds the slot. */
    ghost function FedTo(slot: nat, poolSize: nat): seq<T>
      requires Valid(poolSize)
    {
      if r: nat :| Feeds(r, slot) then Fed(r, slot, poolSize) else []
    }

    /** What the batch commits: an extend or decode batch all of its tokens, a verify batch the
        accepted ones. */
    ghost function Commits(poolSize: nat): Forward<T>
      requires Valid(poolSize)
      ensures this.VerifyBatch? ==> Acceptable(verify.Plans(), rows, accepted)
    {
      match this
      case ExtendBatch(e) => Forward(e.Plans(), e.track.Some?)
      case DecodeBatch(d, _) => Forward(d.Plans(), d.trackDst.Some?)
      case VerifyBatch(v, rows, accepted) => Forward(AcceptedPlans(v.Plans(), rows, accepted), false)
    }
  }

  /** The windows a batch returned: one per packed token, or one per draft token of every row. */
  datatype Windows<T> = Packed(packed: seq<seq<T>>) | Drafts(drafts: seq<seq<seq<T>>>)

  /** The window returned for token o of the batch's r-th committed row. */
  ghost predicate IsWindow<T>(b: Batch<T>, w: Windows<T>, r: nat, o: nat, window: seq<T>) {
    match b
    case ExtendBatch(e) => w.Packed? && r < |e.lengths| && o < e.lengths[r] && PositionOf(e.lengths, r, o) < |w.packed|
                           && w.packed[PositionOf(e.lengths, r, o)] == window
    case DecodeBatch(_, _) => w.Packed? && o == 0 && r < |w.packed| && w.packed[r] == window
    case VerifyBatch(_, rows, _) => w.Drafts? && r < |rows| && rows[r] < |w.drafts| && o < |w.drafts[rows[r]]|
                                    && w.drafts[rows[r]][o] == window
  }

  /** Each committed token's window continues the state its batch started from. */
  ghost predicate WindowsOk<T>(b: Batch<T>, w: Windows<T>, pool: seq<seq<T>>, plans: seq<Plan<T>>) {
    forall r, o: nat :: 0 <= r < |plans| && o < |plans[r].chunk| ==>
      plans[r].slot < |pool| && IsWindow(b, w, r, o, TokenWindow(pool[plans[r].slot], plans[r].chunk, o))
  }

  /** One batch, committed. */
  method FeedBatch<T(0)>(st: SideState<T>, b: Batch<T>) returns (w: Windows<T>)
    requires st.Valid() && b.Valid(|st.slots|)
    modifies st
    ensures st.Valid() && |st.slots| == |old(st.slots)| && Fits(old(st.slots), st.stateLen, b.Commits(|st.slots|).plans)
    ensures st.slots == Step(old(st.slots), st.stateLen, b.Commits(|st.slots|).plans, b.Commits(|st.slots|).tracking)
    ensures WindowsOk(b, w, old(st.slots), b.Commits(|st.slots|).plans)
  {
    hide Step, Extend.Plans, Decode.Plans, Verify.Plans, TokenWindow, PutAll;
    match b
    case ExtendBatch(e) =>
      var windows := st.ForwardExtend(e);
      w := Packed(windows);
    case DecodeBatch(d, fast) =>
      var windows;
      if fast { windows := st.ForwardDecodeFast(d); } else { windows := st.ForwardDecode(d); }
      w := Packed(windows);
    case VerifyBatch(v, rows, accepted) =>
      w := FeedVerify(st, v, rows, accepted);
  }

  method FeedVerify<T(0)>(st: SideState<T>, v: Verify<T>, rows: seq<nat>, accepted: seq<nat>) returns (w: Windows<T>)
    requires st.Valid() && v.Valid(|st.slots|) && Acceptable(v.Plans(), rows, accepted)
    modifies st
    ensures st.Valid() && |st.slots| == |old(st.slots)| && Fits(old(st.slots), st.stateLen, AcceptedPlans(v.Plans(), rows, accepted))
    ensures st.slots == Step(old(st.slots), st.stateLen, AcceptedPlans(v.Plans(), rows, accepted), false)
    ensures WindowsOk(VerifyBatch(v, rows, accepted), w, old(st.slots), AcceptedPlans(v.Plans(), rows, accepted))
  {
    hide Step, Verify.Plans, TokenWindow, PutAll, IntermediateStates, Fits, RowWindows;
    var plans := v.Plans();
    var windows := st.ForwardVerify(v);
    w := Drafts(windows);
    AcceptIsForward(st.slots, st.stateLen, plans, st.intermediate, v.width, st.fill, rows, accepted);
    DraftWindows(st.slots, v, plans, rows, accepted, windows);
    var idx := seq(|rows|, i requires 0 <= i < |rows| && rows[i] < |plans| => plans[rows[i]].slot);
    assert idx == SlotsOf(AcceptedPlans(plans, rows, accepted));
    SlotsFit(st.slots, st.stateLen, plans);
    st.Accept(idx, rows, accepted);
  }

  lemma DraftWindows<T>(pool: seq<seq<T>>, v: Verify<T>, plans: seq<Plan<T>>, rows: seq<nat>, accepted: seq<nat>, windows: seq<seq<seq<T>>>)
    requires Acceptable(plans, rows, accepted) && |windows| == |plans|
    requires forall r :: 0 <= r < |plans| ==> RowWindows(windows[r], pool, plans[r], v.width)
    ensures WindowsOk(VerifyBatch(v, rows, accepted), Drafts(windows), pool, AcceptedPlans(plans, rows, accepted))
  {
    hide TokenWindow;
    var cut := AcceptedPlans(plans, rows, accepted);
    forall r, o: nat | 0 <= r < |cut| && o < |cut[r].chunk|
      ensures cut[r].slot < |pool|
      ensures IsWindow(VerifyBatch(v, rows, accepted), Drafts(windows), r, o, TokenWindow(pool[cut[r].slot], cut[r].chunk, o))
    {
      assert RowWindows(windows[rows[r]], pool, plans[rows[r]], v.width);
      PrefixWindow(pool[cut[r].slot], plans[rows[r]].chunk, accepted[r], o);
    }
  }

  ghost function Forwards<T>(batches: seq<Batch<T>>, poolSize: nat): (run: seq<Forward<T>>)
    requires forall i :: 0 <= i < |batches| ==> batches[i].Valid(poolSize)
    ensures |run| == |batches| && forall i :: 0 <= i < |run| ==> run[i] == batches[i].Commits(poolSize)
  {
    seq(|batches|, i requires 0 <= i < |batches| => batches[i].Commits(poolSize))
  }

  lemma RunSteps<T>(pool: seq<seq<T>>, n: nat, run: seq<Forward<T>>, i: nat)
    requires Runnable(pool, n, run) && i < |run|
    ensures Runnable(pool, n, run[..i]) && Runnable(pool, n, run[..i + 1]) && Fits(Run(pool, n, run[..i]), n, run[i].plans)
    ensures Run(pool, n, run[..i + 1]) == Step(Run(pool, n, run[..i]), n, run[i].plans, run[i].tracking)
  {
    hide Step;
    assert run[..i + 1][..i] == run[..i];
    FitsTransfers(pool, Run(pool, n, run[..i]), n, run[i]);
  }

  /** The windows of every batch of a run continue the states the run went through. */
  ghost predicate WindowsOfRun<T>(pool: seq<seq<T>>, n: nat, run: seq<Forward<T>>, batches: seq<Batch<T>>, windows: seq<Windows<T>>, k: nat)
    requires Runnable(pool, n, run) && k <= |run| && k <= |batches| && k <= |windows|
  {
    forall j: nat :: j < k ==>
      Runnable(pool, n, run[..j]) && WindowsOk(batches[j], windows[j], Run(pool, n, run[..j]), run[j].plans)
  }

  /** The loop over the batches. */
  method FeedAll<T(0)>(st: SideState<T>, batches: seq<Batch<T>>, ghost run: seq<Forward<T>>) returns (windows: seq<Windows<T>>)
    requires st.Valid() && |run| == |batches| && Runnable(st.slots, st.stateLen, run)
    requires forall i :: 0 <= i < |batches| ==> batches[i].Valid(|st.slots|) && run[i] == batches[i].Commits(|st.slots|)
    modifies st
    ensures st.Valid() && |st.slots| == |old(st.slots)| && |windows| == |batches|
    ensures st.slots == Run(old(st.slots), st.stateLen, run)
    ensures WindowsOfRun(old(st.slots), st.stateLen, run, batches, windows, |batches|)
  {
    hide Run, Runnable, WindowsOk, Step, Batch.Commits, Batch.Valid;
    windows := [];
    ghost var pool, n := st.slots, st.stateLen;
    PrefixRunnable(pool, n, run, 0);
    NothingRun(pool, n, run);
    for i := 0 to |batches|
      invariant st.Valid() && |st.slots| == |pool| && |windows| == i && Runnable(pool, n, run[..i])
      invariant st.slots == Run(pool, n, run[..i])
      invariant WindowsOfRun(pool, n, run, batches, windows, i)
    {
      RunSteps(pool, n, run, i);
      var w := FeedBatch(st, batches[i]);
      windows := windows + [w];
    }
    assert run[..|batches|] == run;
  }

  // ---------------------------------------------------------------- streams, from the batches' fields

  /** Everything the batches feed a slot, in order. */
  ghost function FedStream<T>(batches: seq<Batch<T>>, slot: nat, poolSize: nat): seq<T>
    requires forall i :: 0 <= i < |batches| ==> batches[i].Valid(poolSize)
    decreases |batches|
  {
    if batches == [] then []
    else FedStream(batches[..|batches| - 1], slot, poolSize) + batches[|batches| - 1].FedTo(slot, poolSize)
  }

  /** No batch writes a snapshot to the slot. */
  ghost predicate Untracked<T>(batches: seq<Batch<T>>, slot: nat) {
    forall i :: 0 <= i < |batches| ==> !batches[i].TracksTo(slot)
  }

  /** Row r's plan, when its slot is not the dummy, names the slot the row feeds and holds what it feeds. */
  lemma RowCommits<T>(b: Batch<T>, poolSize: nat, r: nat, slot: nat)
    requires b.Valid(poolSize) && slot != 0
    ensures var plans := b.Commits(poolSize).plans;
            && (b.Feeds(r, slot) <==> r < |plans| && plans[r].slot == slot)
            && (b.Feeds(r, slot) ==> plans[r].chunk == b.Fed(r, slot, poolSize))
            && (r < |plans| ==> plans[r].slot < poolSize && plans[r].dst < poolSize && plans[r].offset <= |plans[r].chunk|)
  {
    match b
    case ExtendBatch(e) => if r < |e.lengths| { PlanOfExtend(e, poolSize, r); }
    case DecodeBatch(d, _) => if r < |d.tokens| { PlanOfDecode(d, poolSize, r); }
    case VerifyBatch(v, rows, accepted) =>
      if r < |rows| {
        PlanOfVerify(v, poolSize, rows[r], accepted[r]);
        assert v.Feeds(rows[r], v.stateIdx[rows[r]]) || !v.live[rows[r]];
      }
  }

  lemma SnapshotsOfBatch<T>(b: Batch<T>, poolSize: nat, slot: nat)
    requires b.Valid(poolSize) && slot != 0
    ensures SnapshotsTo(b.Commits(poolSize), slot) <==> b.TracksTo(slot)
  {
    match b
    case ExtendBatch(e) => ExtendRowsAt(e, poolSize, slot);
    case DecodeBatch(d, _) =>
      forall r: nat | r < |d.tokens| ensures d.trackDst.Some? ==> d.TracksTo(r, d.Plans()[r].dst) { PlanOfDecode(d, poolSize, r); }
    case VerifyBatch(_, _, _) =>
  }

  lemma OneRowEach<T>(b: Batch<T>, poolSize: nat)
    requires b.Valid(poolSize) && b.WellShaped()
    ensures var f := b.Commits(poolSize);
            && (forall i, j :: 0 <= i < j < |f.plans| && f.plans[j].slot != 0 ==> f.plans[i].slot != f.plans[j].slot)
            && (forall i, j :: f.tracking && 0 <= i < |f.plans| && 0 <= j < |f.plans| && f.plans[j].dst != 0 ==>
                  f.plans[i].slot != f.plans[j].dst)
  {
    var f := b.Commits(poolSize);
    hide Batch.Commits, Batch.Valid, Batch.Feeds, Batch.TracksTo;
    forall r: nat | r < |f.plans| && f.plans[r].slot != 0 ensures b.Feeds(r, f.plans[r].slot) {
      RowCommits(b, poolSize, r, f.plans[r].slot);
    }
    forall j: nat | f.tracking && j < |f.plans| && f.plans[j].dst != 0 ensures b.TracksTo(f.plans[j].dst) {
      assert SnapshotsTo(f, f.plans[j].dst);
      SnapshotsOfBatch(b, poolSize, f.plans[j].dst);
    }
  }

  lemma CommitsFit<T>(b: Batch<T>, pool: seq<seq<T>>, n: nat)
    requires b.Valid(|pool|) && forall s :: 0 <= s < |pool| ==> |pool[s]| == n
    ensures Fits(pool, n, b.Commits(|pool|).plans)
  {
    hide Batch.Commits, Batch.Valid, Batch.Feeds, Batch.Fed;
    var plans := b.Commits(|pool|).plans;
    forall r: nat | r < |plans|
      ensures plans[r].slot < |pool| && plans[r].dst < |pool| && plans[r].offset <= |plans[r].chunk|
    {
      RowCommits(b, |pool|, r, 1);
    }
  }

  lemma CommitsWellFormed<T>(b: Batch<T>, pool: seq<seq<T>>, n: nat)
    requires b.Valid(|pool|) && b.WellShaped() && forall s :: 0 <= s < |pool| ==> |pool[s]| == n
    ensures WellFormed(pool, n, b.Commits(|pool|))
  {
    hide Batch.Commits, Batch.Valid, Batch.WellShaped, Fits;
    CommitsFit(b, pool, n);
    OneRowEach(b, |pool|);
    OneSnapshotEach(b, |pool|);
  }

  lemma OneSnapshotEach<T>(b: Batch<T>, poolSize: nat)
    requires b.Valid(poolSize) && b.WellShaped()
    ensures var f := b.Commits(poolSize);
            f.tracking ==> forall i, j :: 0 <= i < j < |f.plans| && f.plans[j].dst != 0 ==> f.plans[i].dst != f.plans[j].dst
  {
    match b
    case ExtendBatch(e) =>
      forall i: nat | i < |e.lengths| && e.track.Some? ensures e.TracksTo(i, e.Plans()[i].dst) { PlanOfExtend(e, poolSize, i); }
    case DecodeBatch(d, _) =>
      forall i: nat | i < |d.tokens| && d.trackDst.Some? ensures d.TracksTo(i, d.Plans()[i].dst) { PlanOfDecode(d, poolSize, i); }
    case VerifyBatch(_, _, _) =>
  }

  lemma BatchChunk<T>(b: Batch<T>, pool: seq<seq<T>>, n: nat, slot: nat)
    requires b.Valid(|pool|) && slot != 0 && WellFormed(pool, n, b.Commits(|pool|))
    ensures ChunkFor(b.Commits(|pool|).plans, slot) == b.FedTo(slot, |pool|)
  {
    hide Batch.Commits, Batch.Valid, Batch.Feeds, WellFormed, ChunkFor, Batch.Fed;
    if r: nat :| b.Feeds(r, slot) {
      var q: nat :| b.Feeds(q, slot) && b.FedTo(slot, |pool|) == b.Fed(q, slot, |pool|);
      RowCommits(b, |pool|, q, slot);
      ChunkOfRow(pool, n, b.Commits(|pool|), q);
    } else {
      forall r: nat | r < |b.Commits(|pool|).plans| ensures b.Commits(|pool|).plans[r].slot != slot {
        RowCommits(b, |pool|, r, slot);
      }
      NoRowNoChunk(b.Commits(|pool|).plans, slot);
    }
  }

  lemma NoRowNoChunk<T>(plans: seq<Plan<T>>, slot: nat)
    requires forall r: nat :: r < |plans| ==> plans[r].slot != slot
    ensures ChunkFor(plans, slot) == []
  {
  }

  lemma {:induction false} FedStreamIsStream<T>(batches: seq<Batch<T>>, pool: seq<seq<T>>, n: nat, slot: nat)
    requires forall i :: 0 <= i < |batches| ==> batches[i].Valid(|pool|) && WellFormed(pool, n, batches[i].Commits(|pool|))
    requires slot != 0
    ensures Stream(Forwards(batches, |pool|), slot) == FedStream(batches, slot, |pool|)
    decreases |batches|
  {
    hide Batch.Valid, Batch.Commits, WellFormed, ChunkFor, Batch.FedTo;
    var run := Forwards(batches, |pool|);
    if batches != [] {
      var k := |batches| - 1;
      FedStreamIsStream(batches[..k], pool, n, slot);
      assert run[..k] == Forwards(batches[..k], |pool|);
      BatchChunk(batches[k], pool, n, slot);
    }
  }

  lemma UntrackedIsNeverSnapshot<T>(batches: seq<Batch<T>>, poolSize: nat, slot: nat)
    requires slot != 0 && forall i :: 0 <= i < |batches| ==> batches[i].Valid(poolSize)
    ensures NeverSnapshot(Forwards(batches, poolSize), slot) <==> Untracked(batches, slot)
  {
    var run := Forwards(batches, poolSize);
    hide Batch.Valid, Batch.Commits, Batch.TracksTo, SnapshotsTo;
    forall i | 0 <= i < |batches| ensures SnapshotsTo(run[i], slot) <==> batches[i].TracksTo(slot) {
      SnapshotsOfBatch(batches[i], poolSize, slot);
    }
  }

  // ---------------------------------------------------------------- any list of batches

  /** Every slot no snapshot was written to ends with its history slid by its whole stream. */
  ghost predicate EndsOfStreams<T>(pool: seq<seq<T>>, batches: seq<Batch<T>>, slots: seq<seq<T>>)
    requires forall i :: 0 <= i < |batches| ==> batches[i].Valid(|pool|)
  {
    |slots| == |pool| && forall slot: nat :: 0 < slot < |pool| && Untracked(batches, slot) ==>
      slots[slot] == Slid(pool[slot], FedStream(batches, slot, |pool|))
  }

  /** Token o of what row r of batch i feeds a slot that no earlier batch restored. */
  ghost predicate FedAt<T>(batches: seq<Batch<T>>, poolSize: nat, i: nat, r: nat, o: nat, slot: nat)
    requires forall j :: 0 <= j < |batches| ==> batches[j].Valid(poolSize)
  {
    && i < |batches| && 0 < slot < poolSize && batches[i].Feeds(r, slot) && Untracked(batches[..i], slot)
    && o < |batches[i].Fed(r, slot, poolSize)|
  }

  /** The window returned for the token is the one its place in the slot's whole stream has. */
  ghost predicate WindowInStream<T>(pool: seq<seq<T>>, n: nat, batches: seq<Batch<T>>, w: Windows<T>, i: nat, r: nat, o: nat, slot: nat)
    requires (forall j :: 0 <= j < |batches| ==> batches[j].Valid(|pool|)) && FedAt(batches, |pool|, i, r, o, slot)
  {
    var whole := pool[slot] + FedStream(batches, slot, |pool|);
    var at := |FedStream(batches[..i], slot, |pool|)| + o;
    at + n + 1 <= |whole| && IsWindow(batches[i], w, r, o, whole[at..at + n + 1])
  }

  /** Every window returned for a committed token is that of one pass over its whole stream. */
  ghost predicate WindowsInStreams<T>(pool: seq<seq<T>>, n: nat, batches: seq<Batch<T>>, windows: seq<Windows<T>>)
    requires |batches| == |windows| && forall i :: 0 <= i < |batches| ==> batches[i].Valid(|pool|)
  {
    forall i: nat, r: nat, o: nat, slot: nat :: FedAt(batches, |pool|, i, r, o, slot) ==>
      WindowInStream(pool, n, batches, windows[i], i, r, o, slot)
  }

  lemma EndsOfRun<T>(pool: seq<seq<T>>, n: nat, batches: seq<Batch<T>>)
    requires forall i :: 0 <= i < |batches| ==> batches[i].Valid(|pool|) && WellFormed(pool, n, batches[i].Commits(|pool|))
    requires Runnable(pool, n, Forwards(batches, |pool|))
    ensures EndsOfStreams(pool, batches, Run(pool, n, Forwards(batches, |pool|)))
  {
    hide Batch.Valid, Batch.Commits, WellFormed, FedStream, Untracked, Run, Stream, NeverSnapshot;
    var run := Forwards(batches, |pool|);
    forall slot: nat | 0 < slot < |pool| && Untracked(batches, slot)
      ensures Run(pool, n, run)[slot] == Slid(pool[slot], FedStream(batches, slot, |pool|))
    {
      UntrackedIsNeverSnapshot(batches, |pool|, slot);
      FedStreamIsStream(batches, pool, n, slot);
      RunKeepsStream(pool, n, run, slot);
    }
  }

  /** The same, said of the run the batches commit. */
  lemma RunWindow<T>(pool: seq<seq<T>>, n: nat, run: seq<Forward<T>>, b: Batch<T>, w: Windows<T>, i: nat, r: nat, o: nat, slot: nat)
    requires Runnable(pool, n, run) && i < |run| && r < |run[i].plans| && o < |run[i].plans[r].chunk|
    requires run[i].plans[r].slot == slot && 0 < slot < |pool| && NeverSnapshot(run[..i], slot)
    requires Runnable(pool, n, run[..i]) && WindowsOk(b, w, Run(pool, n, run[..i]), run[i].plans)
    ensures var whole := pool[slot] + Stream(run, slot);
            var at := |Stream(run[..i], slot)| + o;
            at + n + 1 <= |whole| && IsWindow(b, w, r, o, whole[at..at + n + 1])
  {
    hide Stream, NeverSnapshot, Run, TokenWindow, WellFormed, IsWindow;
    EveryWindowIsOnePassOverTheWholeStream(pool, n, run, i, r, o);
  }

  lemma WindowOfRun<T>(pool: seq<seq<T>>, n: nat, batches: seq<Batch<T>>, run: seq<Forward<T>>, w: Windows<T>,
                       i: nat, r: nat, o: nat, slot: nat)
    requires forall i :: 0 <= i < |batches| ==> batches[i].Valid(|pool|) && WellFormed(pool, n, batches[i].Commits(|pool|))
    requires FedAt(batches, |pool|, i, r, o, slot)
    requires run == Forwards(batches, |pool|) && Runnable(pool, n, run) && Runnable(pool, n, run[..i])
    requires WindowsOk(batches[i], w, Run(pool, n, run[..i]), run[i].plans)
    ensures WindowInStream(pool, n, batches, w, i, r, o, slot)
  {
    hide Batch.Valid, Batch.Commits, Batch.Feeds, Batch.Fed, WellFormed, FedStream, Untracked, Run, Stream, NeverSnapshot, WindowsOk, IsWindow, Runnable;
    RowCommits(batches[i], |pool|, r, slot);
    assert run[..i] == Forwards(batches[..i], |pool|);
    UntrackedIsNeverSnapshot(batches[..i], |pool|, slot);
    FedStreamIsStream(batches, pool, n, slot);
    FedStreamIsStream(batches[..i], pool, n, slot);
    RunWindow(pool, n, run, batches[i], w, i, r, o, slot);
  }

  /** Streaming equivalence of the mutable state: after any list of batches the slots hold the ends
      of their streams, and every window returned on the way is that of one pass. */
  method FeedBatches<T(0)>(st: SideState<T>, batches: seq<Batch<T>>) returns (windows: seq<Windows<T>>)
    requires st.Valid() && forall i :: 0 <= i < |batches| ==> batches[i].Valid(|st.slots|) && batches[i].WellShaped()
    modifies st
    ensures st.Valid() && |st.slots| == |old(st.slots)| && |windows| == |batches|
    ensures EndsOfStreams(old(st.slots), batches, st.slots)
    ensures WindowsInStreams(old(st.slots), st.stateLen, batches, windows)
  {
    ghost var pool, n := st.slots, st.stateLen;
    hide Run, WindowsOk, EndsOfStreams, WindowInStream, Batch.Commits, Batch.Valid, Batch.WellShaped, WellFormed, FedAt;
    forall i | 0 <= i < |batches| ensures WellFormed(pool, n, batches[i].Commits(|pool|)) {
      CommitsWellFormed(batches[i], pool, n);
    }
    ghost var run := Forwards(batches, |pool|);
    windows := FeedAll(st, batches, run);
    EndsOfRun(pool, n, batches);
    forall i: nat, r: nat, o: nat, slot: nat | FedAt(batches, |pool|, i, r, o, slot)
      ensures WindowInStream(pool, n, batches, windows[i], i, r, o, slot)
    {
      assert i < |batches| by { FedInBatch(batches, |pool|, i, r, o, slot); }
      WindowOfRun(pool, n, batches, run, windows[i], i, r, o, slot);
    }
  }

  lemma FedInBatch<T>(batches: seq<Batch<T>>, poolSize: nat, i: nat, r: nat, o: nat, slot: nat)
    requires forall j :: 0 <= j < |batches| ==> batches[j].Valid(poolSize)
    requires FedAt(batches, poolSize, i, r, o, slot)
    ensures i < |batches|
  {
  }

  lemma NothingRun<T>(pool: seq<seq<T>>, n: nat, run: seq<Forward<T>>)
    requires Runnable(pool, n, run[..0])
    ensures Run(pool, n, run[..0]) == pool
  {
  }
}
