/** The n-gram hash: odd multipliers sized to the vocabulary, an xor mix that never leaves 63
    bits, and one interval of ids per head. */
module NgramHash {
  import opened Arith
  import opened NgramShift

  const MASK64_PLUS_ONE: nat := 0x1_0000_0000_0000_0000
  const MAX_LONG: nat := 0x7FFF_FFFF_FFFF_FFFF
  const TWO63: nat := 0x8000_0000_0000_0000
  const SPLITMIX_GAMMA: nat := 0x9E37_79B9_7F4A_7C15
  const SPLITMIX_M1: nat := 0xBF58_476D_1CE4_E5B9
  const SPLITMIX_M2: nat := 0x94D0_49BB_1331_11EB
  const PRIME_1: nat := 10007

  // ---------------------------------------------------------------- bits

  /** Exclusive or of non-negative integers, bit by bit. */
  function Xor(a: nat, b: nat): nat
    decreases a + b
  {
    if a == 0 && b == 0 then 0
    else 2 * Xor(a / 2, b / 2) + if a % 2 == b % 2 then 0 else 1
  }

  function Pow2(k: nat): (p: nat)
    ensures p > 0
  {
    if k == 0 then 1 else 2 * Pow2(k - 1)
  }

  lemma {:induction false} XorBound(a: nat, b: nat, k: nat)
    requires a < Pow2(k) && b < Pow2(k)
    ensures Xor(a, b) < Pow2(k)
    decreases k
  {
    if k > 0 { XorBound(a / 2, b / 2, k - 1); }
  }

  lemma {:induction false} Pow2Add(a: nat, b: nat)
    ensures Pow2(a + b) == Pow2(a) * Pow2(b)
    decreases b
  {
    if b > 0 { Pow2Add(a, b - 1); }
  }

  /** Bit k of a number. */
  function Bit(x: nat, k: nat): (b: nat)
    ensures b < 2
  {
    hide Pow2;
    x / Pow2(k) % 2
  }

  lemma DivDiv(x: nat, p: nat)
    requires p > 0
    ensures x / (2 * p) == x / 2 / p
  {
    var q, r := x / 2 / p, x / 2 % p;
    assert x / 2 == q * p + r;
    assert x == q * (2 * p) + (2 * r + x % 2);
    QuotientIs(x, 2 * p, q, 2 * r + x % 2);
  }

  lemma QuotientIs(x: nat, d: nat, q: nat, r: nat)
    requires r < d && x == q * d + r
    ensures x / d == q
  {
    if x / d < q { MulMonotone(x / d + 1, q, d); }
    if x / d > q { MulMonotone(q + 1, x / d, d); }
  }

  lemma BitOfHalf(x: nat, k: nat)
    ensures Bit(x, k + 1) == Bit(x / 2, k)
    ensures Bit(x, 0) == x % 2
  {
    DivDiv(x, Pow2(k));
    assert Pow2(k + 1) == 2 * Pow2(k) && Pow2(0) == 1;
  }

  /** Every bit of the result is 1 exactly when the two input bits differ ... */
  lemma {:induction false} XorBits(a: nat, b: nat, k: nat)
    ensures Bit(Xor(a, b), k) == 1 <==> Bit(a, k) != Bit(b, k)
    decreases k
  {
    BitOfHalf(a, 0);
    BitOfHalf(b, 0);
    BitOfHalf(Xor(a, b), 0);
    if k > 0 {
      XorBits(a / 2, b / 2, k - 1);
      BitOfHalf(a, k - 1);
      BitOfHalf(b, k - 1);
      BitOfHalf(Xor(a, b), k - 1);
    }
  }

  /** ... a number is its bits, ... */
  lemma {:induction false} BitsDetermine(a: nat, b: nat)
    requires forall k: nat :: Bit(a, k) == Bit(b, k)
    ensures a == b
    decreases a + b
  {
    BitOfHalf(a, 0);
    BitOfHalf(b, 0);
    assert Bit(a, 0) == Bit(b, 0);
    if a + b > 0 {
      forall k: nat ensures Bit(a / 2, k) == Bit(b / 2, k) {
        BitOfHalf(a, k);
        BitOfHalf(b, k);
        assert Bit(a, k + 1) == Bit(b, k + 1);
      }
      BitsDetermine(a / 2, b / 2);
    }
  }

  /** ... and mixing the same number in twice takes it out again. */
  lemma XorUndoes(a: nat, b: nat)
    ensures Xor(Xor(a, b), b) == a
  {
    hide Xor, Bit;
    forall k: nat ensures Bit(Xor(Xor(a, b), b), k) == Bit(a, k) {
      XorBits(a, b, k);
      XorBits(Xor(a, b), b, k);
    }
    BitsDetermine(Xor(Xor(a, b), b), a);
  }

  lemma Pow2Of63()
    ensures Pow2(63) == TWO63
  {
    Pow2Step(1, 2);
    Pow2Step(2, 4);
    Pow2Step(4, 16);
    Pow2Step(8, 256);
    Pow2Step(16, 0x1_0000);
    hide Pow2;
    Pow2Add(32, 16);
    Pow2Add(48, 8);
    Pow2Add(56, 4);
    Pow2Add(60, 2);
    Pow2Add(62, 1);
  }

  lemma Pow2Step(k: nat, p: nat)
    requires Pow2(k) == p
    ensures Pow2(2 * k) == p * p
  {
    Pow2Add(k, k);
  }

  // ---------------------------------------------------------------- multipliers

  function Shr(x: nat, k: nat): nat {
    hide Pow2;
    x / Pow2(k)
  }

  function SplitMix64(x: nat): nat {
    var x1 := (x + SPLITMIX_GAMMA) % MASK64_PLUS_ONE;
    var x2 := Xor(x1, Shr(x1, 30)) * SPLITMIX_M1 % MASK64_PLUS_ONE;
    var x3 := Xor(x2, Shr(x2, 27)) * SPLITMIX_M2 % MASK64_PLUS_ONE;
    Xor(x3, Shr(x3, 31)) % MASK64_PLUS_ONE
  }

  function HalfBound(vocab: nat): (h: nat)
    ensures h > 0
  {
    var mMax := MAX_LONG / (if vocab > 1 then vocab else 1);
    if mMax / 2 > 1 then mMax / 2 else 1
  }

  function Multiplier(seed: int, layer: nat, vocab: nat, idx: nat): nat {
    var x0 := (seed + PRIME_1 * layer + SPLITMIX_GAMMA * (idx + 1)) % MASK64_PLUS_ONE;
    2 * (SplitMix64(x0) % HalfBound(vocab)) + 1
  }

  lemma MultiplierBounds(seed: int, layer: nat, vocab: nat, idx: nat)
    ensures 1 <= Multiplier(seed, layer, vocab, idx) <= 2 * HalfBound(vocab) - 1
    ensures Multiplier(seed, layer, vocab, idx) % 2 == 1
  {
    hide SplitMix64, HalfBound;
  }

  lemma ProductBelow(token: nat, vocab: nat, m: nat, mMax: nat)
    requires token < vocab && m <= mMax && mMax * vocab <= MAX_LONG
    ensures token * m <= MAX_LONG
  {
    assert token * m <= token * mMax by { MulMonotone(m, mMax, token); }
    assert token * mMax <= vocab * mMax by { MulMonotone(token, vocab, mMax); }
  }

  predicate Fits(token: nat, seed: int, layer: nat, vocab: nat, idx: nat) {
    token * Multiplier(seed, layer, vocab, idx) <= MAX_LONG
  }

  /** No token product overflows a signed 64-bit integer, whatever the seed, exactly for
      vocabularies of at most 2^63 tokens. */
  lemma ProductsFitIff(vocab: nat)
    ensures (forall seed: int, layer: nat, idx: nat, token: nat :: token < vocab ==> Fits(token, seed, layer, vocab, idx))
            <==> vocab <= TWO63
  {
    if vocab <= TWO63 {
      forall seed: int, layer: nat, idx: nat, token: nat | token < vocab
        ensures Fits(token, seed, layer, vocab, idx)
      {
        ProductFits(seed, layer, vocab, idx, token);
      }
    } else {
      var m := Multiplier(0, 0, vocab, 0);
      MultiplierBounds(0, 0, vocab, 0);
      MulMonotone(1, m, TWO63);
      var token: nat := TWO63;
      assert token < vocab && !Fits(token, 0, 0, vocab, 0);
    }
  }

  lemma ProductFits(seed: int, layer: nat, vocab: nat, idx: nat, token: nat)
    requires token < vocab <= TWO63
    ensures token * Multiplier(seed, layer, vocab, idx) <= MAX_LONG
  {
    var m := Multiplier(seed, layer, vocab, idx);
    MultiplierBounds(seed, layer, vocab, idx);
    hide Multiplier;
    var mMax := MAX_LONG / (if vocab > 1 then vocab else 1);
    if mMax >= 4 {
      assert m <= mMax;
      DivTimes(MAX_LONG, vocab);
      ProductBelow(token, vocab, m, mMax);
    } else {
      assert HalfBound(vocab) == 1 && m == 1;
    }
  }

  lemma DivTimes(x: nat, d: nat)
    ensures x / (if d > 1 then d else 1) * d <= x
  {
    if d > 1 {
      assert x == x / d * d + x % d;
    }
  }

  /** y is x with every bit flipped where the bit `shift` places above it is set. */
  ghost predicate Folds(x: nat, y: nat, shift: nat) {
    forall k: nat :: Bit(y, k) == 1 <==> Bit(x, k) != Bit(x, k + shift)
  }

  lemma {:induction false} ShiftedBit(x: nat, shift: nat, k: nat)
    ensures Bit(Shr(x, shift), k) == Bit(x, k + shift)
    decreases shift
  {
    hide Bit;
    if shift == 0 {
      assert Pow2(0) == 1;
    } else {
      DivDiv(x, Pow2(shift - 1));
      assert Pow2(shift) == 2 * Pow2(shift - 1);
      assert Shr(x, shift) == Shr(x / 2, shift - 1);
      ShiftedBit(x / 2, shift - 1, k);
      BitOfHalf(x, k + shift - 1);
    }
  }

  lemma XorShiftFolds(x: nat, shift: nat)
    ensures Folds(x, Xor(x, Shr(x, shift)), shift)
  {
    hide Xor, Bit, Shr;
    forall k: nat ensures Bit(Xor(x, Shr(x, shift)), k) == 1 <==> Bit(x, k) != Bit(x, k + shift) {
      XorBits(x, Shr(x, shift), k);
      ShiftedBit(x, shift, k);
    }
  }

  lemma XorShiftFits(x: nat, shift: nat)
    requires x < MASK64_PLUS_ONE
    ensures Xor(x, Shr(x, shift)) < MASK64_PLUS_ONE
  {
    Pow2Of63();
    assert Pow2(64) == 2 * Pow2(63);
    hide Pow2, Xor;
    ShrinksBy(x, shift);
    XorBound(x, Shr(x, shift), 64);
  }

  lemma ShrinksBy(x: nat, shift: nat)
    ensures Shr(x, shift) <= x
  {
    assert x == Shr(x, shift) * Pow2(shift) + x % Pow2(shift);
    MulMonotone(1, Pow2(shift), Shr(x, shift));
  }

  /** splitmix64 bit by bit: three folds, by 30, 27 and 31 places, with a multiplication modulo 2^64
      after each of the first two. */
  lemma SplitMixFolds(x: nat) returns (a: nat, b: nat)
    ensures Folds((x + 0x9E37_79B9_7F4A_7C15) % 0x1_0000_0000_0000_0000, a, 30)
    ensures Folds(a * 0xBF58_476D_1CE4_E5B9 % 0x1_0000_0000_0000_0000, b, 27)
    ensures Folds(b * 0x94D0_49BB_1331_11EB % 0x1_0000_0000_0000_0000, SplitMix64(x), 31)
  {
    hide Xor, Shr, Folds;
    var x1 := (x + SPLITMIX_GAMMA) % MASK64_PLUS_ONE;
    a := Xor(x1, Shr(x1, 30));
    var x2 := a * SPLITMIX_M1 % MASK64_PLUS_ONE;
    b := Xor(x2, Shr(x2, 27));
    var x3 := b * SPLITMIX_M2 % MASK64_PLUS_ONE;
    XorShiftFolds(x1, 30);
    XorShiftFolds(x2, 27);
    XorShiftFolds(x3, 31);
    XorShiftFits(x3, 31);
  }

  /** Half the bound is as large as the products allow: one more would overflow. */
  lemma HalfBoundIsLargest(vocab: nat)
    requires vocab > 0
    ensures HalfBound(vocab) == 1 || vocab * (2 * HalfBound(vocab)) <= MAX_LONG < vocab * (2 * HalfBound(vocab) + 2)
  {
    var h := HalfBound(vocab);
    var mMax := MAX_LONG / vocab;
    if h != 1 {
      assert MAX_LONG == mMax * vocab + MAX_LONG % vocab;
      assert 2 * h <= mMax < 2 * h + 2;
      MulMonotone(2 * h, mMax, vocab);
      MulMonotone(mMax + 1, 2 * h + 2, vocab);
    }
  }

  // ---------------------------------------------------------------- the mix

  /** The numbers with bit k set. */
  ghost function WithBit(products: seq<nat>, k: nat): set<nat> {
    set i: nat | i < |products| && Bit(products[i], k) == 1
  }

  /** mix is the exclusive or of the products: each of its bits is the parity of theirs. */
  ghost predicate IsXorOf(products: seq<nat>, mix: nat) {
    forall k: nat :: Bit(mix, k) == |WithBit(products, k)| % 2
  }

  lemma XorOfIsUnique(products: seq<nat>, a: nat, b: nat)
    requires IsXorOf(products, a) && IsXorOf(products, b)
    ensures a == b
  {
    forall k: nat ensures Bit(a, k) == Bit(b, k) {}
    BitsDetermine(a, b);
  }

  lemma OneProduct(x: nat)
    ensures IsXorOf([x], x)
  {
    forall k: nat ensures Bit(x, k) == |WithBit([x], k)| % 2 {
      assert WithBit([x], k) == if Bit(x, k) == 1 then {0} else {};
    }
  }

  lemma OneMoreProduct(products: seq<nat>, x: nat, mix: nat)
    requires IsXorOf(products, mix)
    ensures IsXorOf(products + [x], Xor(mix, x))
  {
    hide Bit, Xor;
    forall k: nat ensures Bit(Xor(mix, x), k) == |WithBit(products + [x], k)| % 2 {
      XorBits(mix, x, k);
      var before, n := WithBit(products, k), |products|;
      assert n !in before;
      assert WithBit(products + [x], k) == if Bit(x, k) == 1 then before + {n} else before;
      assert Bit(mix, k) == |before| % 2;
    }
  }

  /** shifted[0] * m[0] ^ ... ^ shifted[len-1] * m[len-1] */
  function Mix(shifted: seq<nat>, multipliers: seq<nat>): nat
    requires 0 < |shifted| <= |multipliers|
  {
    var k := |shifted| - 1;
    if k == 0 then shifted[0] * multipliers[0]
    else Xor(Mix(shifted[..k], multipliers), shifted[k] * multipliers[k])
  }

  /** With every product below 2^63 the mix is too: it stays a non-negative signed integer. */
  lemma {:induction false} MixStaysNonNegative(shifted: seq<nat>, multipliers: seq<nat>)
    requires 0 < |shifted| <= |multipliers|
    requires forall i :: 0 <= i < |shifted| ==> shifted[i] * multipliers[i] <= MAX_LONG
    ensures Mix(shifted, multipliers) <= MAX_LONG
    decreases |shifted|
  {
    var k := |shifted| - 1;
    if k > 0 {
      MixStaysNonNegative(shifted[..k], multipliers);
      Pow2Of63();
      XorBound(Mix(shifted[..k], multipliers), shifted[k] * multipliers[k], 63);
    }
  }

  /** The shifted tokens a position's hash reads: shift 0, 1, ..., ngram - 1. */
  function ShiftedAt(tokens: seq<int>, eos: int, at: nat, ngram: nat): (r: seq<int>)
    requires at < |tokens|
    ensures |r| == ngram
  {
    seq(ngram, s requires s >= 0 => Shift(tokens, eos, s)[at])
  }

  ghost predicate Tokens(tokens: seq<int>, vocab: nat) {
    forall i :: 0 <= i < |tokens| ==> 0 <= tokens[i] < vocab
  }

  lemma ShiftedInVocab(tokens: seq<int>, eos: int, at: nat, ngram: nat, vocab: nat)
    requires at < |tokens| && Tokens(tokens, vocab) && 0 <= eos < vocab
    ensures Tokens(ShiftedAt(tokens, eos, at, ngram), vocab)
  {
    forall s: nat | s < ngram ensures 0 <= Shift(tokens, eos, s)[at] < vocab {
      if s > 0 { ShiftMeaning(tokens, eos, s, at); }
    }
  }

  function AsNats(s: seq<int>): (r: seq<nat>)
    requires forall i :: 0 <= i < |s| ==> s[i] >= 0
    ensures |r| == |s| && forall i :: 0 <= i < |r| ==> r[i] == s[i]
  {
    seq(|s|, i requires 0 <= i < |s| && s[i] >= 0 => s[i])
  }

  /** The mix of a position, and the id of each head for it. */
  function MixAt(tokens: seq<int>, eos: int, at: nat, ngram: nat, vocab: nat, multipliers: seq<nat>): nat
    requires at < |tokens| && Tokens(tokens, vocab) && 0 <= eos < vocab && 0 < ngram <= |multipliers|
  {
    ShiftedInVocab(tokens, eos, at, ngram, vocab);
    Mix(AsNats(ShiftedAt(tokens, eos, at, ngram)), multipliers)
  }

  /** The token s places before a position, EOS where the text's start or an EOS lies between. */
  ghost function TokenBack(tokens: seq<int>, eos: int, at: nat, s: nat): int
    requires at < |tokens|
  {
    if s <= at && (forall k :: at - s <= k < at ==> tokens[k] != eos) then tokens[at - s] else eos
  }

  ghost predicate AreProducts(tokens: seq<int>, eos: int, at: nat, multipliers: seq<nat>, products: seq<nat>)
    requires at < |tokens|
  {
    && |products| <= |multipliers|
    && forall s :: 0 <= s < |products| ==> products[s] == TokenBack(tokens, eos, at, s) * multipliers[s]
  }

  /** mix is the exclusive or of the position's last ngram tokens, each times its multiplier. */
  ghost predicate IsMixOf(tokens: seq<int>, eos: int, at: nat, ngram: nat, multipliers: seq<nat>, mix: nat)
    requires at < |tokens|
  {
    exists products: seq<nat> ::
      |products| == ngram && AreProducts(tokens, eos, at, multipliers, products) && IsXorOf(products, mix)
  }

  function Products(shifted: seq<nat>, multipliers: seq<nat>): (p: seq<nat>)
    requires |shifted| <= |multipliers|
    ensures |p| == |shifted| && forall i :: 0 <= i < |p| ==> p[i] == shifted[i] * multipliers[i]
  {
    seq(|shifted|, i requires 0 <= i < |shifted| <= |multipliers| => shifted[i] * multipliers[i])
  }

  lemma {:induction false} MixIsXorOf(shifted: seq<nat>, multipliers: seq<nat>)
    requires 0 < |shifted| <= |multipliers|
    ensures IsXorOf(Products(shifted, multipliers), Mix(shifted, multipliers))
    decreases |shifted|
  {
    hide IsXorOf, Xor;
    var k := |shifted| - 1;
    var products := Products(shifted, multipliers);
    if k == 0 {
      OneProduct(products[0]);
      assert products == [products[0]];
    } else {
      MixIsXorOf(shifted[..k], multipliers);
      assert products[..k] == Products(shifted[..k], multipliers);
      OneMoreProduct(products[..k], products[k], Mix(shifted[..k], multipliers));
      assert products == products[..k] + [products[k]];
    }
  }

  lemma MixAtIsMixOf(tokens: seq<int>, eos: int, at: nat, ngram: nat, vocab: nat, multipliers: seq<nat>)
    requires at < |tokens| && Tokens(tokens, vocab) && 0 <= eos < vocab && 0 < ngram <= |multipliers|
    ensures IsMixOf(tokens, eos, at, ngram, multipliers, MixAt(tokens, eos, at, ngram, vocab, multipliers))
  {
    hide IsXorOf, Mix;
    ShiftedInVocab(tokens, eos, at, ngram, vocab);
    var shifted := AsNats(ShiftedAt(tokens, eos, at, ngram));
    MixIsXorOf(shifted, multipliers);
    forall s: nat | s < ngram ensures shifted[s] == TokenBack(tokens, eos, at, s) {
      if s > 0 { ShiftMeaning(tokens, eos, s, at); }
    }
    assert AreProducts(tokens, eos, at, multipliers, Products(shifted, multipliers));
  }

  /** The hash of a window's last token is the token's hash in the full sequence. */
  lemma WindowHashIsSequenceHash(tokens: seq<int>, eos: int, at: nat, size: nat, ngram: nat, vocab: nat, multipliers: seq<nat>)
    requires 0 < ngram <= size <= at + 1 <= |tokens| && ngram <= |multipliers|
    requires Tokens(tokens, vocab) && 0 <= eos < vocab
    ensures Tokens(tokens[at + 1 - size..at + 1], vocab)
    ensures MixAt(tokens[at + 1 - size..at + 1], eos, size - 1, ngram, vocab, multipliers)
         == MixAt(tokens, eos, at, ngram, vocab, multipliers)
  {
    var window := tokens[at + 1 - size..at + 1];
    forall s: nat | s < ngram ensures Shift(window, eos, s)[size - 1] == Shift(tokens, eos, s)[at] {
      WindowShiftIsSequenceShift(tokens, eos, at, size, s);
    }
    assert ShiftedAt(window, eos, size - 1, ngram) == ShiftedAt(tokens, eos, at, ngram);
  }

  /** The hash never mixes in tokens from before the last EOS. */
  lemma HashIgnoresEarlierSegments(a: seq<int>, b: seq<int>, eos: int, cut: nat, at: nat, ngram: nat, vocab: nat, multipliers: seq<nat>)
    requires cut < at < |a| == |b| && a[cut] == b[cut] == eos && forall k :: cut <= k <= at ==> a[k] == b[k]
    requires Tokens(a, vocab) && Tokens(b, vocab) && 0 <= eos < vocab && 0 < ngram <= |multipliers|
    ensures MixAt(a, eos, at, ngram, vocab, multipliers) == MixAt(b, eos, at, ngram, vocab, multipliers)
  {
    forall s: nat | s < ngram ensures Shift(a, eos, s)[at] == Shift(b, eos, s)[at] {
      ShiftIgnoresEarlierSegments(a, b, eos, cut, at, s);
    }
    assert ShiftedAt(a, eos, at, ngram) == ShiftedAt(b, eos, at, ngram);
  }

  /** With this layer's multipliers and a vocabulary that fits, no product overflows and the mix
      is a non-negative signed 64-bit integer. */
  lemma MixAtFits(tokens: seq<int>, eos: int, at: nat, ngram: nat, vocab: nat, multipliers: seq<nat>, seed: int, layer: nat)
    requires at < |tokens| && Tokens(tokens, vocab) && 0 <= eos < vocab <= TWO63 && 0 < ngram <= |multipliers|
    requires forall i :: 0 <= i < |multipliers| ==> multipliers[i] == Multiplier(seed, layer, vocab, i)
    ensures MixAt(tokens, eos, at, ngram, vocab, multipliers) <= MAX_LONG
  {
    ShiftedInVocab(tokens, eos, at, ngram, vocab);
    var shifted := AsNats(ShiftedAt(tokens, eos, at, ngram));
    forall i | 0 <= i < |shifted| ensures shifted[i] * multipliers[i] <= MAX_LONG {
      ProductFits(seed, layer, vocab, i, shifted[i]);
    }
    MixStaysNonNegative(shifted, multipliers);
  }
}
