/** The dilated depthwise short convolution of one channel, over the windows PleStream gathers. */
module PleConv {
  import opened RealSums
  import opened PleStream
  import opened PleRuns

  /** conv1d(input, weight, dilation) at output column t: taps t, t + d, ..., t + (k - 1) * d. */
  function Conv1d(input: seq<real>, weight: seq<real>, dilation: nat, t: nat): real
    requires t + (|weight| - 1) * dilation < |input| || weight == []
  {
    if weight == [] then 0.0
    else
      var k := |weight| - 1;
      TapInside(k, dilation);
      Conv1d(input, weight[..k], dilation, t) + weight[k] * input[t + k * dilation]
  }

  lemma TapInside(k: nat, dilation: nat)
    ensures 0 <= k * dilation && (k > 0 ==> (k - 1) * dilation <= k * dilation)
  {
  }

  /** The taps' products: weight k with the input k dilations after column t. */
  ghost predicate AreTaps(input: seq<real>, weight: seq<real>, dilation: nat, t: nat, taps: seq<real>) {
    && |taps| == |weight|
    && forall k: nat :: k < |weight| ==> 0 <= t + k * dilation < |input| && taps[k] == weight[k] * input[t + k * dilation]
  }

  /** The last tap's product. */
  lemma LastTap(input: seq<real>, weight: seq<real>, dilation: nat, t: nat) returns (product: real)
    requires weight != [] && t + (|weight| - 1) * dilation < |input|
    ensures |weight| == 1 || t + (|weight| - 2) * dilation < |input|
    ensures Conv1d(input, weight, dilation, t) == Conv1d(input, weight[..|weight| - 1], dilation, t) + product
    ensures forall front :: AreTaps(input, weight[..|weight| - 1], dilation, t, front) ==>
              AreTaps(input, weight, dilation, t, front + [product])
  {
    var k := |weight| - 1;
    TapInside(k, dilation);
    product := weight[k] * input[t + k * dilation];
    hide AreTaps;
    forall front | AreTaps(input, weight[..k], dilation, t, front) ensures AreTaps(input, weight, dilation, t, front + [product]) {
      MoreTaps(input, weight, dilation, t, front);
    }
  }

  lemma {:induction false} ConvAddsUp(input: seq<real>, weight: seq<real>, dilation: nat, t: nat) returns (taps: seq<real>)
    requires weight != [] ==> t + (|weight| - 1) * dilation < |input|
    ensures AreTaps(input, weight, dilation, t, taps) && AddsUp(taps, Conv1d(input, weight, dilation, t))
    decreases |weight|
  {
    if weight == [] {
      taps := [];
      NothingAddsUp();
    } else {
      hide AddsUp, AreTaps, Conv1d;
      var product := LastTap(input, weight, dilation, t);
      var front := ConvAddsUp(input, weight[..|weight| - 1], dilation, t);
      taps := front + [product];
      AddsUpLast(front, product, Conv1d(input, weight[..|weight| - 1], dilation, t));
    }
  }

  /** An output column is the sum of its taps' products, and nothing else is. */
  lemma ConvIsTapSum(input: seq<real>, weight: seq<real>, dilation: nat, t: nat)
    requires weight != [] ==> t + (|weight| - 1) * dilation < |input|
    ensures exists taps :: AreTaps(input, weight, dilation, t, taps) && AddsUp(taps, Conv1d(input, weight, dilation, t))
    ensures forall taps, x :: AreTaps(input, weight, dilation, t, taps) && AddsUp(taps, x) ==> x == Conv1d(input, weight, dilation, t)
  {
    hide AddsUp, AreTaps, Conv1d;
    var taps := ConvAddsUp(input, weight, dilation, t);
    forall other, x | AreTaps(input, weight, dilation, t, other) && AddsUp(other, x) ensures x == Conv1d(input, weight, dilation, t) {
      SameTaps(input, weight, dilation, t, taps, other);
      AddsUpOnce(taps, x, Conv1d(input, weight, dilation, t));
    }
  }

  lemma MoreTaps(input: seq<real>, weight: seq<real>, dilation: nat, t: nat, front: seq<real>)
    requires weight != [] && 0 <= t + (|weight| - 1) * dilation < |input|
    requires AreTaps(input, weight[..|weight| - 1], dilation, t, front)
    ensures AreTaps(input, weight, dilation, t, front + [weight[|weight| - 1] * input[t + (|weight| - 1) * dilation]])
  {
    var last := |weight| - 1;
    var taps := front + [weight[last] * input[t + last * dilation]];
    forall k: nat | k < |weight| ensures 0 <= t + k * dilation < |input| && taps[k] == weight[k] * input[t + k * dilation] {
      if k < last { assert weight[..last][k] == weight[k]; }
    }
  }

  lemma SameTaps(input: seq<real>, weight: seq<real>, dilation: nat, t: nat, a: seq<real>, b: seq<real>)
    requires AreTaps(input, weight, dilation, t, a) && AreTaps(input, weight, dilation, t, b)
    ensures a == b
  {
    forall k: nat | k < |weight| ensures a[k] == b[k] {
      assert a[k] == weight[k] * input[t + k * dilation];
    }
  }

  /** (kernel_size - 1) * dilation */
  function StateLen(weight: seq<real>, dilation: nat): nat
    requires weight != []
  {
    TapInside(|weight| - 1, dilation);
    (|weight| - 1) * dilation
  }

  /** With a history of that length the last tap of a token's column is the token itself, and the first
      one its column of the row. */
  lemma LastTapIsTheToken(history: seq<real>, chunk: seq<real>, weight: seq<real>, dilation: nat, o: nat, taps: seq<real>)
    requires weight != [] && |history| == StateLen(weight, dilation) && o < |chunk|
    requires AreTaps(history + chunk, weight, dilation, o, taps)
    ensures taps[|weight| - 1] == weight[|weight| - 1] * chunk[o]
    ensures taps[0] == weight[0] * (history + chunk)[o]
  {
    assert taps[0] == weight[0] * (history + chunk)[o + 0 * dilation];
    assert taps[|weight| - 1] == weight[|weight| - 1] * (history + chunk)[o + (|weight| - 1) * dilation];
  }

  /** Column t only reads the window that ends at column t + state_len. */
  lemma {:induction false} ConvReadsWindow(input: seq<real>, weight: seq<real>, dilation: nat, t: nat, n: nat)
    requires weight != [] && StateLen(weight, dilation) <= n && t + n < |input|
    ensures Conv1d(input, weight, dilation, t) == Conv1d(Unfold(input, t, n + 1), weight, dilation, 0)
    decreases |weight|
  {
    var k := |weight| - 1;
    TapInside(k, dilation);
    if k > 0 { ConvReadsWindow(input, weight[..k], dilation, t, n); }
  }

  /** Equal windows give equal outputs. */
  lemma SameWindowSameConv(a: seq<real>, t: nat, b: seq<real>, u: nat, weight: seq<real>, dilation: nat, n: nat)
    requires weight != [] && n == StateLen(weight, dilation) && t + n < |a| && u + n < |b|
    requires Unfold(a, t, n + 1) == Unfold(b, u, n + 1)
    ensures Conv1d(a, weight, dilation, t) == Conv1d(b, weight, dilation, u)
  {
    ConvReadsWindow(a, weight, dilation, t, n);
    ConvReadsWindow(b, weight, dilation, u, n);
  }

  /** Output column t of a row, when the row reaches that far. */
  function ConvAt(input: seq<real>, weight: seq<real>, dilation: nat, t: nat): real
    requires weight != [] && t + StateLen(weight, dilation) < |input|
  {
    Conv1d(input, weight, dilation, t)
  }

  /** In any run, the convolution of every row of every batch at every token equals the
      convolution of one pass over the initial state and the request's whole stream. */
  lemma EveryConvIsOnePass(pool: seq<seq<real>>, weight: seq<real>, dilation: nat, n: nat, run: seq<Forward<real>>,
                           i: nat, r: nat, o: nat)
    requires weight != [] && n == StateLen(weight, dilation)
    requires Runnable(pool, n, run) && i < |run| && r < |run[i].plans|
    requires run[i].plans[r].slot != 0 && NeverSnapshot(run[..i], run[i].plans[r].slot)
    requires o < |run[i].plans[r].chunk|
    ensures var p := run[i].plans[r];
            var at := |Stream(run[..i], p.slot)| + o;
            && p.slot < |pool| && |pool[p.slot]| == n && at < |Stream(run, p.slot)|
            && ConvAt(Run(pool, n, run[..i])[p.slot] + p.chunk, weight, dilation, o)
               == ConvAt(pool[p.slot] + Stream(run, p.slot), weight, dilation, at)
  {
    var p := run[i].plans[r];
    assert WellFormed(pool, n, run[i]);
    EveryWindowIsOnePassOverTheWholeStream(pool, n, run, i, r, o);
    assert p.slot < |pool| && |pool[p.slot]| == n;
    hide WellFormed, Runnable, Stream, NeverSnapshot, Run, Conv1d, StateLen;
    var state := Run(pool, n, run[..i])[p.slot];
    var at := |Stream(run[..i], p.slot)| + o;
    WindowIsUnfold(state, p.chunk, o, n);
    SameWindowSameConv(state + p.chunk, o, pool[p.slot] + Stream(run, p.slot), at, weight, dilation, n);
  }

  /** ... and after a restore it equals that of the uninterrupted stream. */
  lemma ResumedConvIsUninterrupted(pool: seq<seq<real>>, weight: seq<real>, dilation: nat, n: nat, run: seq<Forward<real>>,
                                   i: nat, r: nat, restored: seq<seq<real>>, more: seq<Forward<real>>, slot: nat,
                                   j: nat, q: nat, o: nat)
    requires weight != [] && n == StateLen(weight, dilation)
    requires Restores(pool, n, run, i, r, restored, slot) && Runnable(restored, n, more)
    requires j < |more| && q < |more[j].plans| && more[j].plans[q].slot == slot && NeverSnapshot(more[..j], slot)
    requires o < |more[j].plans[q].chunk|
    ensures run[i].plans[r].slot < |pool| && run[i].plans[r].offset <= |run[i].plans[r].chunk|
    ensures var before := SnapshotStream(pool, run, i, r);
            var at := |Stream(more[..j], slot)| + o;
            && n <= |before| && at < |Stream(more, slot)| && |Run(restored, n, more[..j])[slot]| == n
            && ConvAt(Run(restored, n, more[..j])[slot] + more[j].plans[q].chunk, weight, dilation, o)
               == ConvAt(before + Stream(more, slot), weight, dilation, |before| - n + at)
  {
    hide Runnable, Stream, NeverSnapshot, Run, Conv1d, StateLen, SnapshotStream, Unfold, TokenWindow;
    PrefixRunnable(restored, n, more, j);
    ResumedWindowIsUninterrupted(pool, n, run, i, r, restored, more, slot, j, q, o);
    var before := SnapshotStream(pool, run, i, r);
    var at := |Stream(more[..j], slot)| + o;
    var state := Run(restored, n, more[..j])[slot];
    var chunk := more[j].plans[q].chunk;
    WindowIsUnfold(state, chunk, o, n);
    SameWindowSameConv(state + chunk, o, before + Stream(more, slot), |before| - n + at, weight, dilation, n);
  }

  /** ... and so do the outputs a verify batch computes for the draft tokens that are accepted. */
  lemma AcceptedConvIsOnePass(pool: seq<seq<real>>, weight: seq<real>, dilation: nat, n: nat, run: seq<Forward<real>>,
                              v: nat, plans: seq<Plan<real>>, rows: seq<nat>, accepted: seq<nat>, i: nat, o: nat)
    requires weight != [] && n == StateLen(weight, dilation)
    requires Runnable(pool, n, run) && v < |run| && Acceptable(plans, rows, accepted)
    requires run[v] == Forward(AcceptedPlans(plans, rows, accepted), false)
    requires i < |rows| && o < accepted[i] && plans[rows[i]].slot != 0 && NeverSnapshot(run[..v], plans[rows[i]].slot)
    ensures var p := plans[rows[i]];
            var at := |Stream(run[..v], p.slot)| + o;
            && p.slot < |pool| && |pool[p.slot]| == n && at < |Stream(run, p.slot)|
            && |Run(pool, n, run[..v])[p.slot]| == n
            && ConvAt(Run(pool, n, run[..v])[p.slot] + p.chunk, weight, dilation, o)
               == ConvAt(pool[p.slot] + Stream(run, p.slot), weight, dilation, at)
  {
    hide Stream, NeverSnapshot, Run, Conv1d, StateLen, Unfold, TokenWindow, WellFormed;
    AcceptedWindowIsOnePass(pool, n, run, v, plans, rows, accepted, i, o);
    PrefixRunnable(pool, n, run, v);
    var p := plans[rows[i]];
    var state := Run(pool, n, run[..v])[p.slot];
    WindowIsUnfold(state, p.chunk, o, n);
    SameWindowSameConv(state + p.chunk, o, pool[p.slot] + Stream(run, p.slot), |Stream(run[..v], p.slot)| + o, weight, dilation, n);
  }

  lemma WindowIsUnfold(state: seq<real>, chunk: seq<real>, o: nat, n: nat)
    requires |state| == n && o < |chunk|
    ensures TokenWindow(state, chunk, o) == Unfold(state + chunk, o, n + 1)
  {
  }
}
