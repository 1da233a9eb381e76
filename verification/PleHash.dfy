/** The n-gram ids of a batch: every head of every n-gram order hashes a token's window, and in
    any run that is the hash the token has in the request's whole stream. */
module PleHash {
  import opened Arith
  import opened NgramShift
  import opened NgramHash
  import opened NgramHeads
  import opened PleStream
  import opened PleRuns

  /** The heads: heads per n-gram order, one size and one offset each, orders 2 to ngramSize. */
  datatype Heads = Heads(eos: int, vocab: nat, ngramSize: nat, perNgram: nat,
                         multipliers: seq<nat>, sizes: seq<nat>, offsets: seq<nat>) {
    ghost predicate Valid() {
      && 2 <= ngramSize <= |multipliers| && 0 <= eos < vocab
      && |sizes| == |offsets| == First(ngramSize + 1)
      && forall h :: 0 <= h < |sizes| ==> sizes[h] > 0
    }

    /** The first head of an n-gram order. */
    function First(ngram: nat): nat
      requires ngram >= 2
    {
      (ngram - 2) * perNgram
    }
  }

  lemma HeadsOfOrder(hs: Heads, ngram: nat)
    requires hs.Valid() && 2 <= ngram <= hs.ngramSize
    ensures hs.First(ngram) + hs.perNgram == hs.First(ngram + 1) <= |hs.sizes|
  {
    var rest := hs.ngramSize - ngram;
    assert (ngram - 1 + rest) * hs.perNgram == (ngram - 1) * hs.perNgram + rest * hs.perNgram;
  }

  /** torch.remainder(mix, sizes) + offsets over the heads of one n-gram order. */
  function HeadIds(hs: Heads, mix: nat, ngram: nat): (ids: seq<nat>)
    requires hs.Valid() && 2 <= ngram <= hs.ngramSize
    ensures |ids| == hs.perNgram
  {
    HeadsOfOrder(hs, ngram);
    var first := hs.First(ngram);
    seq(hs.perNgram, h requires 0 <= h < hs.perNgram && first + hs.perNgram <= |hs.sizes| == |hs.offsets|
                               && forall k :: 0 <= k < |hs.sizes| ==> hs.sizes[k] > 0 =>
      mix % hs.sizes[first + h] + hs.offsets[first + h])
  }

  /** The ids of the heads of one n-gram order at a position. */
  function Block(hs: Heads, tokens: seq<int>, at: nat, ngram: nat): seq<nat>
    requires hs.Valid() && at < |tokens| && Tokens(tokens, hs.vocab) && 2 <= ngram <= hs.ngramSize
  {
    HeadIds(hs, MixAt(tokens, hs.eos, at, ngram, hs.vocab, hs.multipliers), ngram)
  }

  /** The ids at a position for orders 2 to `last`. */
  function Ids(hs: Heads, tokens: seq<int>, at: nat, last: nat): seq<nat>
    requires hs.Valid() && at < |tokens| && Tokens(tokens, hs.vocab) && 1 <= last <= hs.ngramSize
  {
    if last == 1 then [] else Ids(hs, tokens, at, last - 1) + Block(hs, tokens, at, last)
  }

  /** Each head's id lies in the head's own interval. */
  lemma {:induction false} IdsAreInTheirIntervals(hs: Heads, tokens: seq<int>, at: nat, last: nat)
    requires hs.Valid() && at < |tokens| && Tokens(tokens, hs.vocab) && 1 <= last <= hs.ngramSize
    ensures |Ids(hs, tokens, at, last)| == hs.First(last + 1) <= |hs.sizes|
    ensures forall h :: 0 <= h < |Ids(hs, tokens, at, last)| ==>
      hs.offsets[h] <= Ids(hs, tokens, at, last)[h] < hs.offsets[h] + hs.sizes[h]
    decreases last
  {
    hide Tokens, MixAt;
    if last > 1 {
      IdsAreInTheirIntervals(hs, tokens, at, last - 1);
      HeadsOfOrder(hs, last);
    } else {
      MulMonotone(0, hs.ngramSize - 1, hs.perNgram);
    }
  }

  /** With the layout the heads are built with, ids stay below the padded table size and two heads
      never share one, whichever tokens they are computed for. */
  lemma HeadsNeverShareIds(hs: Heads, divisor: nat, a: seq<int>, i: nat, b: seq<int>, j: nat, h: nat, k: nat)
    requires hs.Valid() && LaidOut(hs.sizes, hs.offsets) && divisor > 0 && h < |hs.sizes| && k < |hs.sizes|
    requires i < |a| && Tokens(a, hs.vocab) && j < |b| && Tokens(b, hs.vocab)
    ensures |Ids(hs, a, i, hs.ngramSize)| == |Ids(hs, b, j, hs.ngramSize)| == |hs.sizes|
    ensures hs.offsets[h] <= Ids(hs, a, i, hs.ngramSize)[h] < hs.offsets[h] + hs.sizes[h]
    ensures Ids(hs, a, i, hs.ngramSize)[h] < PaddedVocab(Sum(hs.sizes), divisor)
    ensures h != k ==> Ids(hs, a, i, hs.ngramSize)[h] != Ids(hs, b, j, hs.ngramSize)[k]
  {
    hide Ids, LaidOut, PaddedVocab, Sum, Tokens, Heads.Valid;
    HeadCount(hs);
    IdsAreInTheirIntervals(hs, a, i, hs.ngramSize);
    IdsAreInTheirIntervals(hs, b, j, hs.ngramSize);
    IntervalsAreDisjoint(hs.sizes, hs.offsets, divisor, h);
    IntervalsAreDisjoint(hs.sizes, hs.offsets, divisor, k);
  }

  lemma HeadCount(hs: Heads)
    requires hs.Valid()
    ensures 2 <= hs.ngramSize && |hs.sizes| == |hs.offsets| == hs.First(hs.ngramSize + 1)
  {
  }

  // ---------------------------------------------------------------- what the ids are

  /** Head h of an order holds the order's mix of the position's tokens, reduced to the head's size
      and moved to its interval; the orders follow one another, perNgram heads each. */
  ghost predicate IsHeadId(hs: Heads, tokens: seq<int>, at: nat, ngram: nat, h: nat, ids: seq<nat>)
    requires at < |tokens|
  {
    var head := (ngram - 2) * hs.perNgram + h;
    && 0 <= head < |ids| && |ids| == |hs.sizes| == |hs.offsets| && hs.sizes[head] > 0
    && exists mix: nat ::
         IsMixOf(tokens, hs.eos, at, ngram, hs.multipliers, mix) && ids[head] == mix % hs.sizes[head] + hs.offsets[head]
  }

  ghost predicate AreHeadIds(hs: Heads, tokens: seq<int>, at: nat, ids: seq<nat>)
    requires at < |tokens|
  {
    && |ids| == (hs.ngramSize - 1) * hs.perNgram
    && forall ngram: nat, h: nat :: 2 <= ngram <= hs.ngramSize && h < hs.perNgram ==> IsHeadId(hs, tokens, at, ngram, h, ids)
  }

  lemma {:induction false} IdOfHead(hs: Heads, tokens: seq<int>, at: nat, last: nat, ngram: nat, h: nat)
    requires hs.Valid() && at < |tokens| && Tokens(tokens, hs.vocab) && 2 <= ngram <= last <= hs.ngramSize && h < hs.perNgram
    ensures 0 <= hs.First(ngram) && hs.First(ngram) + h < |Ids(hs, tokens, at, last)|
    ensures Ids(hs, tokens, at, last)[hs.First(ngram) + h] == Block(hs, tokens, at, ngram)[h]
    decreases last
  {
    hide Tokens, MixAt, HeadIds;
    IdsAreInTheirIntervals(hs, tokens, at, last - 1);
    MulMonotone(0, ngram - 2, hs.perNgram);
    if ngram < last { IdOfHead(hs, tokens, at, last - 1, ngram, h); }
  }

  /** The computed ids, head by head, from the tokens, multipliers, sizes and offsets. */
  lemma IdsAreHeadIds(hs: Heads, tokens: seq<int>, at: nat)
    requires hs.Valid() && at < |tokens| && Tokens(tokens, hs.vocab)
    ensures AreHeadIds(hs, tokens, at, Ids(hs, tokens, at, hs.ngramSize))
  {
    hide Tokens, MixAt, IsMixOf, Ids;
    var ids := Ids(hs, tokens, at, hs.ngramSize);
    IdsAreInTheirIntervals(hs, tokens, at, hs.ngramSize);
    HeadCount(hs);
    forall ngram: nat, h: nat | 2 <= ngram <= hs.ngramSize && h < hs.perNgram ensures IsHeadId(hs, tokens, at, ngram, h, ids) {
      IdOfHead(hs, tokens, at, hs.ngramSize, ngram, h);
      HeadsOfOrder(hs, ngram);
      MixAtIsMixOf(tokens, hs.eos, at, ngram, hs.vocab, hs.multipliers);
    }
  }

  lemma MixOfTwo(tokens: seq<int>, eos: int, at: nat, m: seq<nat>, mix: nat)
    requires at < |tokens| && 2 <= |m| && IsMixOf(tokens, eos, at, 2, m, mix)
    ensures tokens[at] * m[0] >= 0 && TokenBack(tokens, eos, at, 1) * m[1] >= 0
    ensures mix == Xor(tokens[at] * m[0], TokenBack(tokens, eos, at, 1) * m[1])
  {
    var p: seq<nat> :| |p| == 2 && AreProducts(tokens, eos, at, m, p) && IsXorOf(p, mix);
    hide IsXorOf, Xor;
    assert p == [p[0]] + [p[1]];
    OneProduct(p[0]);
    OneMoreProduct([p[0]], p[1], p[0]);
    XorOfIsUnique(p, mix, Xor(p[0], p[1]));
  }

  lemma MixOfThree(tokens: seq<int>, eos: int, at: nat, m: seq<nat>, mix: nat)
    requires at < |tokens| && 3 <= |m| && IsMixOf(tokens, eos, at, 3, m, mix)
    ensures tokens[at] * m[0] >= 0 && TokenBack(tokens, eos, at, 1) * m[1] >= 0 && TokenBack(tokens, eos, at, 2) * m[2] >= 0
    ensures mix == Xor(Xor(tokens[at] * m[0], TokenBack(tokens, eos, at, 1) * m[1]), TokenBack(tokens, eos, at, 2) * m[2])
  {
    var p: seq<nat> :| |p| == 3 && AreProducts(tokens, eos, at, m, p) && IsXorOf(p, mix);
    hide IsXorOf, Xor;
    assert p == [p[0]] + [p[1]] + [p[2]];
    OneProduct(p[0]);
    OneMoreProduct([p[0]], p[1], p[0]);
    OneMoreProduct([p[0]] + [p[1]], p[2], Xor(p[0], p[1]));
    XorOfIsUnique(p, mix, Xor(Xor(p[0], p[1]), p[2]));
  }

  /** Written out for bigrams and trigrams: head h of order 2, then head h of order 3. */
  lemma BigramAndTrigramIds(hs: Heads, tokens: seq<int>, at: nat, ids: seq<nat>, h: nat)
    requires hs.Valid() && at < |tokens| && AreHeadIds(hs, tokens, at, ids) && h < hs.perNgram
    ensures h < |ids| <= |hs.sizes| && |hs.sizes| == |hs.offsets| && hs.sizes[h] > 0
    ensures tokens[at] * hs.multipliers[0] >= 0 && TokenBack(tokens, hs.eos, at, 1) * hs.multipliers[1] >= 0
    ensures ids[h] == Xor(tokens[at] * hs.multipliers[0], TokenBack(tokens, hs.eos, at, 1) * hs.multipliers[1]) % hs.sizes[h]
                      + hs.offsets[h]
    ensures hs.ngramSize >= 3 ==>
      && hs.perNgram + h < |ids| && hs.sizes[hs.perNgram + h] > 0 && TokenBack(tokens, hs.eos, at, 2) * hs.multipliers[2] >= 0
      && ids[hs.perNgram + h]
         == Xor(Xor(tokens[at] * hs.multipliers[0], TokenBack(tokens, hs.eos, at, 1) * hs.multipliers[1]),
                TokenBack(tokens, hs.eos, at, 2) * hs.multipliers[2]) % hs.sizes[hs.perNgram + h] + hs.offsets[hs.perNgram + h]
  {
    hide IsMixOf, TokenBack, Xor;
    assert IsHeadId(hs, tokens, at, 2, h, ids);
    var mix: nat :| IsMixOf(tokens, hs.eos, at, 2, hs.multipliers, mix) && ids[h] == mix % hs.sizes[h] + hs.offsets[h];
    MixOfTwo(tokens, hs.eos, at, hs.multipliers, mix);
    if hs.ngramSize >= 3 {
      assert IsHeadId(hs, tokens, at, 3, h, ids);
      var k := hs.perNgram + h;
      var mix3: nat :| IsMixOf(tokens, hs.eos, at, 3, hs.multipliers, mix3) && ids[k] == mix3 % hs.sizes[k] + hs.offsets[k];
      MixOfThree(tokens, hs.eos, at, hs.multipliers, mix3);
    }
  }

  // ---------------------------------------------------------------- the hashing loops

  lemma MixStep(shifted: seq<nat>, multipliers: seq<nat>, n: nat)
    requires 0 < n < |shifted| <= |multipliers|
    ensures Mix(shifted[..n + 1], multipliers) == Xor(Mix(shifted[..n], multipliers), shifted[n] * multipliers[n])
  {
    assert shifted[..n + 1][..n] == shifted[..n];
  }

  /** The shifted tokens of a lower order are the first ones of the highest. */
  lemma ShiftedPrefix(tokens: seq<int>, eos: int, at: nat, ngram: nat, size: nat, vocab: nat)
    requires at < |tokens| && Tokens(tokens, vocab) && 0 <= eos < vocab && ngram <= size
    ensures Tokens(ShiftedAt(tokens, eos, at, ngram), vocab) && Tokens(ShiftedAt(tokens, eos, at, size), vocab)
    ensures AsNats(ShiftedAt(tokens, eos, at, size))[..ngram] == AsNats(ShiftedAt(tokens, eos, at, ngram))
  {
    ShiftedInVocab(tokens, eos, at, ngram, vocab);
    ShiftedInVocab(tokens, eos, at, size, vocab);
    hide Shift;
  }

  /** The mixing loop of one n-gram order. */
  method MixOrder(hs: Heads, window: seq<int>, shifted: seq<nat>, ngram: nat) returns (mix: nat)
    requires hs.Valid() && window != [] && Tokens(window, hs.vocab) && 2 <= ngram <= hs.ngramSize
    requires Tokens(ShiftedAt(window, hs.eos, |window| - 1, hs.ngramSize), hs.vocab)
    requires shifted == AsNats(ShiftedAt(window, hs.eos, |window| - 1, hs.ngramSize))
    ensures mix == MixAt(window, hs.eos, |window| - 1, ngram, hs.vocab, hs.multipliers)
  {
    hide ShiftedAt, AsNats, Xor, Tokens;
    mix := shifted[0] * hs.multipliers[0];
    assert mix == Mix(shifted[..1], hs.multipliers);
    for pos := 1 to ngram
      invariant mix == Mix(shifted[..pos], hs.multipliers)
    {
      MixStep(shifted, hs.multipliers, pos);
      hide Mix;
      mix := Xor(mix, shifted[pos] * hs.multipliers[pos]);
    }
    ShiftedPrefix(window, hs.eos, |window| - 1, ngram, hs.ngramSize, hs.vocab);
  }

  /** _hash_contexts on one window: all orders, all heads, for its last token. */
  method HashContext(hs: Heads, window: seq<int>) returns (ids: seq<nat>)
    requires hs.Valid() && window != [] && Tokens(window, hs.vocab)
    ensures ids == Ids(hs, window, |window| - 1, hs.ngramSize)
    ensures AreHeadIds(hs, window, |window| - 1, ids)
  {
    hide MixAt, ShiftedAt, AsNats, Tokens, HeadIds;
    ShiftedInVocab(window, hs.eos, |window| - 1, hs.ngramSize, hs.vocab);
    TokensAreNats(ShiftedAt(window, hs.eos, |window| - 1, hs.ngramSize), hs.vocab);
    var shifted := AsNats(ShiftedAt(window, hs.eos, |window| - 1, hs.ngramSize));
    ids := [];
    for ngram := 2 to hs.ngramSize + 1
      invariant ids == Ids(hs, window, |window| - 1, ngram - 1)
    {
      var mix := MixOrder(hs, window, shifted, ngram);
      ids := ids + HeadIds(hs, mix, ngram);
    }
    IdsAreHeadIds(hs, window, |window| - 1);
  }

  lemma TokensAreNats(s: seq<int>, vocab: nat)
    requires Tokens(s, vocab)
    ensures forall i :: 0 <= i < |s| ==> s[i] >= 0
  {
  }

  ghost predicate SameMixes(hs: Heads, a: seq<int>, i: nat, b: seq<int>, j: nat)
    requires hs.Valid() && i < |a| && j < |b| && Tokens(a, hs.vocab) && Tokens(b, hs.vocab)
  {
    forall ngram :: 2 <= ngram <= hs.ngramSize ==>
      MixAt(a, hs.eos, i, ngram, hs.vocab, hs.multipliers) == MixAt(b, hs.eos, j, ngram, hs.vocab, hs.multipliers)
  }

  lemma {:induction false} SameMixesSameIds(hs: Heads, a: seq<int>, i: nat, b: seq<int>, j: nat, last: nat)
    requires hs.Valid() && i < |a| && j < |b| && Tokens(a, hs.vocab) && Tokens(b, hs.vocab) && 1 <= last <= hs.ngramSize
    requires SameMixes(hs, a, i, b, j)
    ensures Ids(hs, a, i, last) == Ids(hs, b, j, last)
    decreases last
  {
    hide MixAt, Tokens;
    if last > 1 {
      SameMixesSameIds(hs, a, i, b, j, last - 1);
      assert Block(hs, a, i, last) == Block(hs, b, j, last);
    }
  }

  lemma WindowMixesAreSequenceMixes(hs: Heads, tokens: seq<int>, at: nat)
    requires hs.Valid() && hs.ngramSize <= at + 1 <= |tokens| && Tokens(tokens, hs.vocab)
    ensures Tokens(tokens[at + 1 - hs.ngramSize..at + 1], hs.vocab)
    ensures SameMixes(hs, tokens[at + 1 - hs.ngramSize..at + 1], hs.ngramSize - 1, tokens, at)
  {
    hide MixAt;
    forall ngram: nat | 2 <= ngram <= hs.ngramSize
      ensures MixAt(tokens[at + 1 - hs.ngramSize..at + 1], hs.eos, hs.ngramSize - 1, ngram, hs.vocab, hs.multipliers)
           == MixAt(tokens, hs.eos, at, ngram, hs.vocab, hs.multipliers)
    {
      WindowHashIsSequenceHash(tokens, hs.eos, at, hs.ngramSize, ngram, hs.vocab, hs.multipliers);
    }
  }

  lemma SliceIsUnfold(s: seq<int>, o: nat, n: nat)
    requires n > 0 && o + n <= |s|
    ensures Unfold(s, o, n) == s[o + n - 1 + 1 - n..o + n - 1 + 1]
  {
  }

  /** A window's ids are its last token's ids in the full sequence. */
  lemma UnfoldIds(hs: Heads, whole: seq<int>, o: nat)
    requires hs.Valid() && o + hs.ngramSize <= |whole| && Tokens(whole, hs.vocab)
    ensures Tokens(Unfold(whole, o, hs.ngramSize), hs.vocab)
    ensures Ids(hs, Unfold(whole, o, hs.ngramSize), hs.ngramSize - 1, hs.ngramSize)
         == Ids(hs, whole, o + hs.ngramSize - 1, hs.ngramSize)
  {
    hide Ids, SameMixes, Tokens, Unfold, MixAt;
    SliceIsUnfold(whole, o, hs.ngramSize);
    WindowMixesAreSequenceMixes(hs, whole, o + hs.ngramSize - 1);
    SameMixesSameIds(hs, Unfold(whole, o, hs.ngramSize), hs.ngramSize - 1, whole, o + hs.ngramSize - 1, hs.ngramSize);
  }

  lemma HistoryLength(pool: seq<seq<int>>, n: nat, run: seq<Forward<int>>, i: nat, r: nat)
    requires Runnable(pool, n, run) && i < |run| && r < |run[i].plans|
    ensures run[i].plans[r].slot < |pool| && |pool[run[i].plans[r].slot]| == n
  {
    assert WellFormed(pool, n, run[i]);
  }

  /** In any run, however it is batched and cut, the ids a batch computes for a token are those of
      one pass over the initial history and the request's whole stream. */
  lemma EveryIdIsOnePass(hs: Heads, pool: seq<seq<int>>, run: seq<Forward<int>>, i: nat, r: nat, o: nat, p: Plan<int>)
    requires hs.Valid() && Runnable(pool, hs.ngramSize - 1, run) && i < |run| && r < |run[i].plans|
    requires p == run[i].plans[r] && p.slot != 0 && NeverSnapshot(run[..i], p.slot) && o < |p.chunk|
    requires p.slot < |pool| ==> Tokens(pool[p.slot] + Stream(run, p.slot), hs.vocab)
    ensures p.slot < |pool|
    ensures var whole := pool[p.slot] + Stream(run, p.slot);
            var at := |Stream(run[..i], p.slot)| + o + hs.ngramSize - 1;
            var window := TokenWindow(Run(pool, hs.ngramSize - 1, run[..i])[p.slot], p.chunk, o);
            && at < |whole| && |window| == hs.ngramSize && Tokens(window, hs.vocab)
            && Ids(hs, window, hs.ngramSize - 1, hs.ngramSize) == Ids(hs, whole, at, hs.ngramSize)
  {
    hide WellFormed, Runnable, Stream, NeverSnapshot, Run, Ids, Tokens, Unfold, TokenWindow;
    HistoryLength(pool, hs.ngramSize - 1, run, i, r);
    EveryWindowIsOnePassOverTheWholeStream(pool, hs.ngramSize - 1, run, i, r, o);
    UnfoldIds(hs, pool[p.slot] + Stream(run, p.slot), |Stream(run[..i], p.slot)| + o);
  }

  /** ... and so are those a verify batch computes for the draft tokens that are accepted. */
  lemma AcceptedIdsAreOnePass(hs: Heads, n: nat, pool: seq<seq<int>>, run: seq<Forward<int>>, v: nat, plans: seq<Plan<int>>,
                              rows: seq<nat>, accepted: seq<nat>, i: nat, o: nat, whole: seq<int>)
    requires hs.Valid() && n == hs.ngramSize - 1
    requires Runnable(pool, n, run) && v < |run| && Acceptable(plans, rows, accepted)
    requires run[v] == Forward(AcceptedPlans(plans, rows, accepted), false)
    requires i < |rows| && o < accepted[i] && plans[rows[i]].slot != 0 && NeverSnapshot(run[..v], plans[rows[i]].slot)
    requires plans[rows[i]].slot < |pool| && whole == pool[plans[rows[i]].slot] + Stream(run, plans[rows[i]].slot)
    requires Tokens(whole, hs.vocab)
    ensures var p := plans[rows[i]];
            var window := TokenWindow(Run(pool, n, run[..v])[p.slot], p.chunk, o);
            var at := |Stream(run[..v], p.slot)| + o + n;
            && at < |whole| && |window| == hs.ngramSize && Tokens(window, hs.vocab)
            && Ids(hs, window, n, hs.ngramSize) == Ids(hs, whole, at, hs.ngramSize)
  {
    hide Stream, NeverSnapshot, Run, Ids, Tokens, Unfold, TokenWindow, WellFormed;
    AcceptedWindowIsOnePass(pool, n, run, v, plans, rows, accepted, i, o);
    UnfoldIds(hs, whole, |Stream(run[..v], plans[rows[i]].slot)| + o);
  }

  /** ... and after a restore they are those of the uninterrupted stream. */
  lemma ResumedIdsAreUninterrupted(hs: Heads, n: nat, pool: seq<seq<int>>, run: seq<Forward<int>>, i: nat, r: nat,
                                   restored: seq<seq<int>>, more: seq<Forward<int>>, slot: nat, j: nat, q: nat, o: nat,
                                   before: seq<int>, window: seq<int>)
    requires IsResumedWindow(n, pool, run, i, r, restored, more, slot, j, q, o, before, window)
    requires hs.Valid() && n == hs.ngramSize - 1 && Tokens(before + Stream(more, slot), hs.vocab)
    ensures var at := |before| + |Stream(more[..j], slot)| + o;
            && at < |before + Stream(more, slot)| && |window| == hs.ngramSize && Tokens(window, hs.vocab)
            && Ids(hs, window, n, hs.ngramSize) == Ids(hs, before + Stream(more, slot), at, hs.ngramSize)
  {
    hide Runnable, Stream, NeverSnapshot, Run, Ids, Tokens, Unfold, TokenWindow, SnapshotStream;
    ResumedWindowIsUninterrupted(pool, n, run, i, r, restored, more, slot, j, q, o);
    UnfoldIds(hs, before + Stream(more, slot), |before| - n + |Stream(more[..j], slot)| + o);
  }

  /** The window of token o of row q of batch j after a restore, and the stream it continues. */
  ghost predicate IsResumedWindow(n: nat, pool: seq<seq<int>>, run: seq<Forward<int>>, i: nat, r: nat,
                                  restored: seq<seq<int>>, more: seq<Forward<int>>, slot: nat, j: nat, q: nat, o: nat,
                                  before: seq<int>, window: seq<int>)
  {
    && Restores(pool, n, run, i, r, restored, slot) && Runnable(restored, n, more)
    && run[i].plans[r].slot < |pool| && run[i].plans[r].offset <= |run[i].plans[r].chunk|
    && before == SnapshotStream(pool, run, i, r)
    && j < |more| && q < |more[j].plans| && more[j].plans[q].slot == slot && NeverSnapshot(more[..j], slot)
    && o < |more[j].plans[q].chunk|
    && window == TokenWindow(Run(restored, n, more[..j])[slot], more[j].plans[q].chunk, o)
  }
}
