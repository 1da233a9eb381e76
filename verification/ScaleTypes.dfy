/** Binary floating-point formats as rounding functions, for the types a checkpoint scale is
    stored in: bf16 and fp32 store every scale faithfully, fp16 stores small ones as zero. */
module ScaleTypes {
  import opened Int8Checkpoint

  /** Significands from `half` to 2 * half - 1, `tiny` as the least spacing, exponents 0 to maxExp
      above it.  Below half * tiny the spacing stays tiny, and the least values round to zero. */
  datatype Format = Format(half: nat, tiny: real, maxExp: nat) {
    ghost predicate Valid() { half > 0 && tiny > 0.0 }

    function Top(): real { Times((2 * half - 1) as real, Unit(tiny, maxExp)) }
  }

  /** tiny * 2^k */
  function Unit(tiny: real, k: nat): (u: real)
    ensures tiny > 0.0 ==> u > 0.0
  {
    if k == 0 then tiny else 2.0 * Unit(tiny, k - 1)
  }

  /** The exponent of x, from k up. */
  function Exponent(f: Format, x: real, k: nat): nat
    decreases f.maxExp - k
  {
    if k >= f.maxExp || x < Times(2.0 * f.half as real, Unit(f.tiny, k)) then k else Exponent(f, x, k + 1)
  }

  /** Round to nearest, ties to even, at x's spacing. */
  function RoundTo(f: Format, x: real): real
    requires f.Valid()
  {
    var u := Unit(f.tiny, Exponent(f, x, 0));
    Times(Round(Ratio(x, u)) as real, u)
  }

  // ---------------------------------------------------------------- binades

  /** x has exponent k: half * unit <= x < 2 * half * unit. */
  ghost predicate InBinade(f: Format, x: real, k: nat) {
    && k <= f.maxExp
    && Times(f.half as real, Unit(f.tiny, k)) <= x < Times(2.0 * f.half as real, Unit(f.tiny, k))
  }

  lemma NextBinade(f: Format, k: nat)
    ensures Times(2.0 * f.half as real, Unit(f.tiny, k)) == Times(f.half as real, Unit(f.tiny, k + 1))
  {
    DoubleTimes(f.half as real, Unit(f.tiny, k));
  }

  lemma DoubleTimes(h: real, u: real)
    ensures Times(2.0 * h, u) == Times(h, 2.0 * u)
  {
  }

  lemma {:induction false} BinadesRise(f: Format, j: nat, k: nat)
    requires f.Valid() && j < k
    ensures Times(2.0 * f.half as real, Unit(f.tiny, j)) <= Times(f.half as real, Unit(f.tiny, k))
    decreases k
  {
    NextBinade(f, j);
    if j + 1 < k {
      hide Times;
      BinadesRise(f, j, k - 1);
      NextBinade(f, k - 1);
      TimesMonotone(f.half as real, 2.0 * f.half as real, Unit(f.tiny, k - 1));
    }
  }

  lemma {:induction false} ExponentFound(f: Format, x: real, k: nat)
    requires f.Valid() && k <= f.maxExp && Times(f.half as real, Unit(f.tiny, k)) <= x <= f.Top()
    ensures InBinade(f, x, Exponent(f, x, k))
    decreases f.maxExp - k
  {
    hide Times, Unit;
    if x >= Times(2.0 * f.half as real, Unit(f.tiny, k)) {
      if k == f.maxExp {
        TimesStrict((2 * f.half - 1) as real, 2.0 * f.half as real, Unit(f.tiny, k));
      } else {
        NextBinade(f, k);
        ExponentFound(f, x, k + 1);
      }
    }
  }

  lemma TimesStrict(a: real, b: real, u: real)
    requires u > 0.0 && a < b
    ensures Times(a, u) < Times(b, u)
  {
  }

  lemma BinadeUnique(f: Format, x: real, j: nat, k: nat)
    requires f.Valid() && InBinade(f, x, j) && InBinade(f, x, k)
    ensures j == k
  {
    hide Times, Unit;
    if j < k { BinadesRise(f, j, k); }
    if k < j { BinadesRise(f, k, j); }
  }

  /** Values in the range of the format: rounding happens at the value's own spacing. */
  lemma SpacingOf(f: Format, x: real) returns (k: nat)
    requires f.Valid() && Times(f.half as real, f.tiny) <= x <= f.Top()
    ensures InBinade(f, x, k) && Exponent(f, x, 0) == k
    ensures RoundTo(f, x) == Times(Round(Ratio(x, Unit(f.tiny, k))) as real, Unit(f.tiny, k))
  {
    ExponentFound(f, x, 0);
    k := Exponent(f, x, 0);
  }

  // ---------------------------------------------------------------- rounding

  lemma RoundBetween(lo: int, hi: int, r: real)
    requires lo as real <= r <= hi as real
    ensures lo <= Round(r) <= hi
  {
    RoundMonotone(lo as real, r);
    RoundMonotone(r, hi as real);
    hide Round;
    RoundOfInteger(lo);
    RoundOfInteger(hi);
  }

  /** The rounded significand of a value in binade k. */
  lemma Significand(f: Format, x: real, k: nat) returns (n: int)
    requires f.Valid() && InBinade(f, x, k)
    ensures n == Round(Ratio(x, Unit(f.tiny, k))) && f.half <= n <= 2 * f.half
    ensures x <= f.Top() && k == f.maxExp ==> n < 2 * f.half
    ensures Abs(Times(n as real, Unit(f.tiny, k)) - x) <= 0.5 * Unit(f.tiny, k)
  {
    hide Times, Ratio, Unit, Round;
    var u := Unit(f.tiny, k);
    n := Round(Ratio(x, u));
    SignificandBounds(f.half, 2 * f.half, x, u);
    if x <= f.Top() && k == f.maxExp { SignificandBounds(f.half, 2 * f.half - 1, x, u); }
    NearestMultiple(x, u);
  }

  lemma SignificandBounds(lo: int, hi: int, x: real, u: real)
    requires u > 0.0 && Times(lo as real, u) <= x <= Times(hi as real, u)
    ensures lo <= Round(Ratio(x, u)) <= hi
  {
    hide Times, Ratio, Round;
    TimesRatio(lo as real, u);
    TimesRatio(hi as real, u);
    RatioMonotone(Times(lo as real, u), x, u);
    RatioMonotone(x, Times(hi as real, u), u);
    RoundBetween(lo, hi, Ratio(x, u));
  }

  lemma NearestMultiple(x: real, u: real)
    requires u > 0.0
    ensures Abs(Times(Round(Ratio(x, u)) as real, u) - x) <= 0.5 * u
  {
    hide Times, Ratio, Round, Abs;
    var r := Ratio(x, u);
    var n := Round(r);
    RatioTimes(x, u);
    TimesDiff(n as real, r, u);
    RoundIsNearest(r, 0);
    AbsScaled(n as real - r, 0.5, u);
  }

  /** A significand times its spacing is stored as it is. */
  lemma StoredExactly(f: Format, k: nat, n: int)
    requires f.Valid() && f.half <= n && k <= f.maxExp
    requires n < 2 * f.half || (n == 2 * f.half && k < f.maxExp)
    ensures RoundTo(f, Times(n as real, Unit(f.tiny, k))) == Times(n as real, Unit(f.tiny, k))
    ensures Times(f.half as real, f.tiny) <= Times(n as real, Unit(f.tiny, k)) <= f.Top()
  {
    if n == 2 * f.half {
      NextBinade(f, k);
      SignificandStored(f, k + 1, f.half);
    } else {
      SignificandStored(f, k, n);
    }
  }

  lemma {:induction false} UnitsRise(tiny: real, j: nat, k: nat)
    requires tiny > 0.0 && j <= k
    ensures Unit(tiny, j) <= Unit(tiny, k)
    decreases k
  {
    if j < k { UnitsRise(tiny, j, k - 1); }
  }

  lemma TimesUnit(a: real, u: real, v: real)
    requires a >= 0.0 && u <= v
    ensures Times(a, u) <= Times(a, v)
  {
  }

  lemma SignificandStored(f: Format, k: nat, n: int)
    requires f.Valid() && f.half <= n < 2 * f.half && k <= f.maxExp
    ensures RoundTo(f, Times(n as real, Unit(f.tiny, k))) == Times(n as real, Unit(f.tiny, k))
    ensures Times(f.half as real, f.tiny) <= Times(n as real, Unit(f.tiny, k)) <= f.Top()
  {
    var u := Unit(f.tiny, k);
    var x := Times(n as real, u);
    assert Unit(f.tiny, 0) == f.tiny;
    UnitsRise(f.tiny, 0, k);
    UnitsRise(f.tiny, k, f.maxExp);
    hide Times, Ratio, Unit, Round, Exponent, RoundTo;
    TimesUnit(f.half as real, f.tiny, u);
    TimesMonotone(f.half as real, n as real, u);
    TimesUnit(n as real, u, Unit(f.tiny, f.maxExp));
    TimesMonotone(n as real, (2 * f.half - 1) as real, Unit(f.tiny, f.maxExp));
    TimesStrict(n as real, 2.0 * f.half as real, u);
    var j := SpacingOf(f, x);
    BinadeUnique(f, x, j, k);
    TimesRatio(n as real, u);
    RoundOfInteger(n);
  }

  // ---------------------------------------------------------------- a faithful scale type

  lemma RoundToIsFaithful(f: Format, x: real)
    requires f.Valid() && f.half >= 128 && Times(f.half as real, f.tiny) <= x <= f.Top()
    ensures RoundTo(f, x) > 0.0 && RoundTo(f, RoundTo(f, x)) == RoundTo(f, x) && Abs(RoundTo(f, x) - x) <= x / 256.0
    ensures Times(f.half as real, f.tiny) <= RoundTo(f, x) <= f.Top()
  {
    hide Times, Ratio, Unit, Round, Exponent, RoundTo, Abs;
    var k := SpacingOf(f, x);
    var n := Significand(f, x, k);
    var u := Unit(f.tiny, k);
    StoredExactly(f, k, n);
    TimesConst(128.0, u);
    TimesMonotone(128.0, f.half as real, u);
    TimesMonotone(128.0, n as real, u);
  }

  lemma RoundToIsMonotone(f: Format, x: real, y: real)
    requires f.Valid() && Times(f.half as real, f.tiny) <= x <= y <= f.Top()
    ensures RoundTo(f, x) <= RoundTo(f, y)
  {
    hide Times, Ratio, Unit, Round, Exponent, RoundTo, Abs;
    var j := SpacingOf(f, x);
    var k := SpacingOf(f, y);
    var m := Significand(f, x, j);
    var n := Significand(f, y, k);
    if j == k {
      RatioMonotone(x, y, Unit(f.tiny, j));
      RoundMonotone(Ratio(x, Unit(f.tiny, j)), Ratio(y, Unit(f.tiny, j)));
      TimesMonotone(m as real, n as real, Unit(f.tiny, j));
    } else if j < k {
      BinadesRise(f, j, k);
      TimesMonotone(m as real, 2.0 * f.half as real, Unit(f.tiny, j));
      TimesMonotone(f.half as real, n as real, Unit(f.tiny, k));
    } else {
      BinadesRise(f, k, j);
    }
  }

  /** The format as a scale type, down to `low`; past the largest finite value the argument stands
      for infinity. */
  function Store(f: Format, low: real): ScaleType
    requires f.Valid()
  {
    ScaleType((x: real) requires f.Valid() => if x > f.Top() then x else RoundTo(f, x), low, f.Top())
  }

  /** Any format of at least eight significant bits is faithful over its normal numbers. */
  lemma FormatIsFaithful(f: Format, low: real)
    requires f.Valid() && f.half >= 128 && 0.0 < Times(f.half as real, f.tiny) <= low <= f.Top()
    requires low <= LOW || RoundTo(f, low) == low
    ensures Store(f, low).Valid()
  {
    hide Times, Ratio, Unit, Round, Exponent, RoundTo, Abs;
    StoredExactly(f, f.maxExp, 2 * f.half - 1);
    forall x: real | low <= x <= f.Top()
      ensures RoundTo(f, RoundTo(f, x)) == RoundTo(f, x) && Abs(RoundTo(f, x) - x) <= x / 256.0
      ensures RoundTo(f, x) <= f.Top()
    {
      RoundToIsFaithful(f, x);
    }
    forall x: real, y: real | low <= x <= y <= f.Top() ensures RoundTo(f, x) <= RoundTo(f, y) {
      RoundToIsMonotone(f, x, y);
    }
  }

  // ---------------------------------------------------------------- the formats in use

  const TWO133: real := 10889035741470030830827987437816582766592.0
  const TWO149: real := 713623846352979940529142984724747568191373312.0
  const TWO24: real := 16777216.0

  const BF16: Format := Format(128, 1.0 / TWO133, 253)
  const FP32: Format := Format(0x80_0000, 1.0 / TWO149, 253)
  const FP16: Format := Format(1024, 1.0 / TWO24, 29)

  lemma {:induction false} UnitSplit(tiny: real, j: nat, k: nat)
    ensures Unit(tiny, j + k) == Unit(Unit(tiny, j), k)
    decreases k
  {
    if k > 0 { UnitSplit(tiny, j, k - 1); }
  }

  lemma Unit16(tiny: real)
    ensures Unit(tiny, 16) == 65536.0 * tiny
  {
    Unit4(tiny);
    UnitSplit(tiny, 4, 4);
    Unit4(Unit(tiny, 4));
    UnitSplit(tiny, 8, 4);
    Unit4(Unit(tiny, 8));
    UnitSplit(tiny, 12, 4);
    Unit4(Unit(tiny, 12));
  }

  lemma Unit4(tiny: real)
    ensures Unit(tiny, 4) == 16.0 * tiny
  {
    assert Unit(tiny, 0) == tiny && Unit(tiny, 1) == 2.0 * Unit(tiny, 0);
    assert Unit(tiny, 2) == 2.0 * Unit(tiny, 1) && Unit(tiny, 3) == 2.0 * Unit(tiny, 2);
  }

  lemma {:induction false} SixteensUp(tiny: real, n: nat)
    requires tiny > 0.0
    ensures Unit(tiny, 16 * (n + 1)) == 65536.0 * Unit(tiny, 16 * n)
  {
    UnitSplit(tiny, 16 * n, 16);
    Unit16(Unit(tiny, 16 * n));
  }

  lemma TenSixteens(tiny: real)
    requires tiny > 0.0
    ensures Unit(tiny, 160) == 1461501637330902918203684832716283019655932542976.0 * tiny
  {
    SixteensUp(tiny, 0);
    SixteensUp(tiny, 1);
    SixteensUp(tiny, 2);
    SixteensUp(tiny, 3);
    SixteensUp(tiny, 4);
    SixteensUp(tiny, 5);
    SixteensUp(tiny, 6);
    SixteensUp(tiny, 7);
    SixteensUp(tiny, 8);
    SixteensUp(tiny, 9);
    assert Unit(tiny, 0) == tiny;
  }

  lemma LargeTop(f: Format)
    requires f.half > 0 && f.tiny >= 1.0 / TWO149 && f.maxExp >= 160
    ensures FLOOR_AMAX <= f.Top()
  {
    TenSixteens(f.tiny);
    UnitsRise(f.tiny, 160, f.maxExp);
    hide Unit, Times;
    TimesMonotone(1.0, (2 * f.half - 1) as real, Unit(f.tiny, f.maxExp));
    TimesConst(1.0, Unit(f.tiny, f.maxExp));
  }

  /** bf16 stores every scale faithfully, from below the floor's to the largest; so does fp32. */
  lemma Bf16IsFaithful()
    ensures BF16.Valid() && Store(BF16, LOW).Valid()
  {
    LargeTop(BF16);
    TimesConst(128.0, 1.0 / TWO133);
    FormatIsFaithful(BF16, LOW);
  }

  lemma Fp32IsFaithful()
    ensures FP32.Valid() && Store(FP32, LOW).Valid()
  {
    LargeTop(FP32);
    TimesConst(8388608.0, 1.0 / TWO149);
    FormatIsFaithful(FP32, LOW);
  }

  /** Down to those types' low end lies every column up to 127 times their largest value. */
  lemma EveryColumnIsInRange(f: Format, amax: real)
    requires f.Valid() && FLOOR_AMAX <= f.Top() && amax <= 127.0 * f.Top()
    ensures InRange(amax, Store(f, LOW))
  {
  }

  // ---------------------------------------------------------------- fp16

  const FP16_NORMAL: real := 1024.0 / TWO24

  function Fp16(): ScaleType { Store(FP16, FP16_NORMAL) }

  /** fp16 is faithful over its normal numbers only: columns whose largest entry is at least
      127 / 2^14 are restored within half a scale and do not drift. */
  lemma Fp16IsFaithfulWhereNormal(amax: real)
    ensures FP16.Valid() && Fp16().Valid()
    ensures 127.0 * FP16_NORMAL <= amax <= 127.0 * FP16.Top() ==> InRange(amax, Fp16())
  {
    var u := FP16.tiny;
    Fp16Top();
    assert Unit(u, 0) == u;
    TimesConst(1024.0, u);
    SignificandStored(FP16, 0, 1024);
    hide Unit, Times, RoundTo;
    FormatIsFaithful(FP16, FP16_NORMAL);
  }

  /** Such a column in full: the error bound, and no drift. */
  lemma Fp16NormalColumns(x: seq<real>, i: nat, n: nat)
    requires 127.0 * FP16_NORMAL <= AbsMax(x) <= 127.0 * FP16.Top() && i < |x| && n > 0
    ensures FP16.Valid()
    ensures var q := Quantize(x, Fp16());
            && Abs(Dequantize(q)[i] - x[i]) <= 0.5 * q.scale && q.scale > 0.0
            && RoundTrips(x, Fp16(), n) == RoundTrip(x, Fp16())
  {
    hide Fp16, FP16_NORMAL, Format.Top, AbsMax, ScaleType.Valid, InRange, Quantize, Dequantize;
    Fp16IsFaithfulWhereNormal(AbsMax(x));
    ReconstructionError(x, Fp16(), i);
    CheckpointsDoNotDrift(x, Fp16(), n);
  }

  lemma Fp16Top()
    ensures FP16.Top() == 65504.0
  {
    Unit16(FP16.tiny);
    UnitSplit(FP16.tiny, 16, 12);
    Unit4(Unit(FP16.tiny, 16));
    UnitSplit(FP16.tiny, 16, 4);
    Unit4(Unit(FP16.tiny, 20));
    UnitSplit(FP16.tiny, 20, 4);
    Unit4(Unit(FP16.tiny, 24));
    UnitSplit(FP16.tiny, 24, 4);
    assert Unit(FP16.tiny, 29) == 2.0 * Unit(FP16.tiny, 28);
    TimesConst(2047.0, Unit(FP16.tiny, 29));
  }

  lemma FifteenSixteens(tiny: real)
    requires tiny > 0.0
    ensures Unit(tiny, 253) == 14474011154664524427946373126085988481658748083205070504932198000989141204992.0 * tiny
  {
    hide Unit;
    TenSixteens(tiny);
    SixteensUp(tiny, 10);
    SixteensUp(tiny, 11);
    SixteensUp(tiny, 12);
    SixteensUp(tiny, 13);
    SixteensUp(tiny, 14);
    UnitSplit(tiny, 240, 4);
    Unit4(Unit(tiny, 240));
    UnitSplit(tiny, 244, 4);
    Unit4(Unit(tiny, 244));
    UnitSplit(tiny, 248, 4);
    Unit4(Unit(tiny, 248));
    UnitSplit(tiny, 252, 1);
    UnitOnce(Unit(tiny, 252));
  }

  lemma UnitOnce(tiny: real)
    ensures Unit(tiny, 1) == 2.0 * tiny
  {
    assert Unit(tiny, 0) == tiny;
  }

  /** The largest finite numbers: 255 * 2^120 in bf16, (2^24 - 1) * 2^104 in fp32. */
  lemma LargestNumbers()
    ensures BF16.Top() == 255.0 * 1329227995784915872903807060280344576.0
    ensures FP32.Top() == 16777215.0 * 20282409603651670423947251286016.0
  {
    hide Unit, Times;
    FifteenSixteens(BF16.tiny);
    FifteenSixteens(FP32.tiny);
    TimesConst(255.0, Unit(BF16.tiny, 253));
    TimesConst(16777215.0, Unit(FP32.tiny, 253));
  }

  const FP16_TINY: real := 1.0 / TWO24

  /** Below the normal numbers the spacing is fixed. */
  lemma Fp16Spacing(x: real)
    requires 0.0 <= x < 2048.0 * FP16_TINY
    ensures FP16.Valid() && Fp16().round(x) == Times(Round(Ratio(x, FP16_TINY)) as real, FP16_TINY)
  {
    Fp16Top();
    assert Unit(FP16_TINY, 0) == FP16_TINY;
    TimesConst(2048.0, FP16_TINY);
    assert Exponent(FP16, x, 0) == 0;
  }

  lemma TimesTimes(a: int, b: int, p: int, u: real)
    requires p == a * b
    ensures Times(a as real, Times(b as real, u)) == Times(p as real, u)
  {
  }

  /** Round(x / tiny) == 0 exactly up to half the spacing. */
  lemma SmallestSpacing(x: real, u: real)
    requires u > 0.0 && x >= 0.0
    ensures Round(Ratio(x, u)) >= 0 && (Round(Ratio(x, u)) == 0 <==> x <= 0.5 * u)
  {
    var r := Ratio(x, u);
    hide Times, Ratio;
    RatioTimes(x, u);
    TimesConst(0.5, u);
    TimesConst(0.0, u);
    TimesMonotone(0.0, r, u);
    TimesMonotone(r, 0.5, u);
    TimesMonotone(0.5, r, u);
  }

  /** A scale of at most 2^-25 is stored as zero, and only such a one; the column is then restored as
      zero. */
  lemma Fp16ScaleIsZeroIff(amax: real)
    requires 0.0 <= amax <= 127.0 * FP16.Top()
    ensures FP16.Valid()
    ensures ScaleFor(amax, Fp16()) >= 0.0
    ensures ScaleFor(amax, Fp16()) == 0.0 <==> amax <= 127.0 * (0.5 * FP16_TINY)
  {
    hide Times, Ratio, Round, Fp16, Level;
    var t := Max(amax, FLOOR_AMAX) / 127.0;
    Fp16Top();
    Fp16IsFaithfulWhereNormal(amax);
    if t < 1024.0 * FP16_TINY {
      Fp16Spacing(t);
      MultipleIsZeroIff(t, FP16_TINY);
    } else {
      hide ScaleType.Valid;
      ScaleBrackets(amax, Fp16());
    }
  }

  lemma MultipleIsZeroIff(x: real, u: real)
    requires u > 0.0 && x >= 0.0
    ensures Times(Round(Ratio(x, u)) as real, u) >= 0.0
    ensures Times(Round(Ratio(x, u)) as real, u) == 0.0 <==> x <= 0.5 * u
  {
    hide Times, Ratio, Round;
    SmallestSpacing(x, u);
    var n := Round(Ratio(x, u));
    TimesConst(0.0, u);
    TimesConst(1.0, u);
    TimesMonotone(0.0, n as real, u);
    TimesMonotone(1.0, n as real, u);
  }

  /** The integers of a subnormal scale: k spacings for the scale, level m for the largest entry. */
  lemma Fp16Integers(amax: real, k: int, m: int)
    requires 0.5 * 127.0 * FP16_TINY < amax < 127.0 * 1024.0 * FP16_TINY
    requires FP16.Valid() && k == Round(Ratio(amax / 127.0, FP16_TINY)) && m == Level(amax, ScaleFor(amax, Fp16()))
    ensures ScaleFor(amax, Fp16()) == Times(k as real, FP16_TINY) > 0.0
    ensures 1 <= k <= 1024 && 63 <= m <= 127
    ensures 2 * (127 * k - m * k) <= 127 + k
    ensures k >= 127 ==> m == 127
  {
    var t := amax / 127.0;
    var s := ScaleFor(amax, Fp16());
    Fp16Spacing(t);
    SmallestSpacing(t, FP16_TINY);
    hide Times, Ratio, Level, Fp16, Round;
    var r := Ratio(t, FP16_TINY);
    RatioTimes(t, FP16_TINY);
    TimesConst(1024.0, FP16_TINY);
    TimesConst(1.0, FP16_TINY);
    TimesMonotone(1024.0, r, FP16_TINY);
    RoundBetweenReals(r, k);
    TimesMonotone(1.0, k as real, FP16_TINY);
    assert s == Times(k as real, FP16_TINY);
    LargestLevelOf(amax, t, r, k, m);
  }

  lemma RoundBetweenReals(r: real, k: int)
    requires k == Round(r) && 0.0 <= r <= 1024.0
    ensures k <= 1024 && k as real - 0.5 <= r <= k as real + 0.5 && (r == k as real - 0.5 ==> k % 2 == 0)
  {
  }

  /** m is the rounding of 127 r / k. */
  lemma LargestLevelOf(amax: real, t: real, r: real, k: int, m: int)
    requires amax == 127.0 * t && t == Times(r, FP16_TINY) && k >= 1
    requires k as real - 0.5 <= r <= k as real + 0.5 && (r == k as real - 0.5 ==> k % 2 == 0)
    requires m == Level(amax, Times(k as real, FP16_TINY)) && Times(k as real, FP16_TINY) > 0.0
    ensures 63 <= m <= 127 && 2 * (127 * k - m * k) <= 127 + k && (k >= 127 ==> m == 127)
  {
    var s := Times(k as real, FP16_TINY);
    var w := Ratio(amax, s);
    assert m == Clamp(Round(w));
    assert Times(w, k as real) == 127.0 * r by { WeighedRatio(amax, r, k, w); }
    hide Times, Ratio, Level;
    LargestLevelBounds(r, k, w, m);
  }

  lemma WeighedRatio(amax: real, r: real, k: int, w: real)
    requires amax == 127.0 * Times(r, FP16_TINY) && k >= 1 && Times(k as real, FP16_TINY) > 0.0
    requires w == Ratio(amax, Times(k as real, FP16_TINY))
    ensures Times(w, k as real) == 127.0 * r
  {
    RatioTimes(amax, Times(k as real, FP16_TINY));
  }

  lemma LargestLevelBounds(r: real, k: int, w: real, m: int)
    requires k >= 1 && Times(w, k as real) == 127.0 * r && m == Clamp(Round(w))
    requires k as real - 0.5 <= r <= k as real + 0.5 && (r == k as real - 0.5 ==> k % 2 == 0)
    ensures 63 <= m <= 127 && 2 * (127 * k - m * k) <= 127 + k && (k >= 127 ==> m == 127)
  {
    TimesConst(63.5, k as real);
    TimesConst(126.5, k as real);
    TimesConst(127.0, k as real);
    hide Times;
    TimesMonotone(63.5, w, k as real);
    TimesMonotone(w, 126.5, k as real);
    if w >= 127.0 { assert m == 127; } else { BelowFullLevel(r, k, w, m); }
  }

  lemma BelowFullLevel(r: real, k: int, w: real, m: int)
    requires k >= 1 && Times(w, k as real) == 127.0 * r && m == Clamp(Round(w)) && 63.5 <= w < 127.0
    requires k as real - 0.5 <= r
    ensures 2 * (127 * k - m * k) <= 127 + k
  {
    assert m as real >= w - 0.5 && m <= 127;
    TimesDiff(m as real, w, k as real);
    TimesMonotone(-0.5, m as real - w, k as real);
    TimesConst(-0.5, k as real);
    assert Times(m as real, k as real) == (m * k) as real;
  }

  /** How far the restored largest entry falls short of 127 scales: over 63 spacings is too far. */
  predicate Fp16Recurs(amax: real) {
    var s := ScaleFor(amax, Fp16());
    Times((127 - Level(amax, s)) as real, s) <= 63.0 * FP16_TINY
  }

  lemma RoundOfMultiple(p: int, k: int)
    requires k >= 1 && 0 <= p <= 127 * k
    ensures Round(p as real / 127.0) >= 0
    ensures Round(p as real / 127.0) == k <==> 127 * k - p <= 63
    ensures 127 * k - p > 63 ==> Round(p as real / 127.0) <= k - 1
  {
  }

  /** The exact condition, for every column fp16 can hold: the scale found again is the stored one if
      and only if the restored largest entry is within 63 spacings of 127 scales. */
  lemma Fp16RecursIff(amax: real)
    requires 0.0 <= amax <= 127.0 * FP16.Top()
    ensures FP16.Valid()
    ensures ScaleRecurs(amax, Fp16()) <==> Fp16Recurs(amax)
  {
    hide Times, Ratio, Round, Fp16, Level, Format.Top;
    var s := ScaleFor(amax, Fp16());
    Fp16Top();
    Fp16IsFaithfulWhereNormal(amax);
    TimesConst(0.0, s);
    if amax <= 127.0 * (0.5 * FP16_TINY) {
      Fp16ScaleIsZeroIff(amax);
      Fp16ScaleIsZeroIff(0.0);
      NoScaleNoLevel(amax, 0.0);
      TimesConst(127.0, s);
    } else if amax >= 127.0 * FP16_NORMAL {
      ScaleIsFixed(amax, Fp16());
      ScaleBrackets(amax, Fp16());
      LargestLevel(amax, s);
    } else {
      Fp16SubnormalRecursIff(amax);
    }
  }

  lemma Fp16Again(k: int, m: int, s: real)
    requires FP16.Valid() && 1 <= k <= 1024 && 63 <= m <= 127 && s == Times(k as real, FP16_TINY)
    ensures ScaleFor(Times(m as real, s), Fp16()) == Times(Round((m * k) as real / 127.0) as real, FP16_TINY)
  {
    var p := m * k;
    assert 63 <= p <= 127 * 1024;
    TimesTimes(m, k, p, FP16_TINY);
    var t := Times(p as real, FP16_TINY);
    TimesConst(63.0, FP16_TINY);
    TimesMonotone(63.0, p as real, FP16_TINY);
    assert ScaleFor(t, Fp16()) == Fp16().round(t / 127.0);
    assert t / 127.0 == Times(p as real / 127.0, FP16_TINY);
    TimesConst(1024.0, FP16_TINY);
    TimesMonotone(p as real / 127.0, 1024.0, FP16_TINY);
    Fp16Spacing(t / 127.0);
    TimesRatio(p as real / 127.0, FP16_TINY);
  }

  lemma Fp16SubnormalRecursIff(amax: real)
    requires 0.5 * 127.0 * FP16_TINY < amax < 127.0 * 1024.0 * FP16_TINY && FP16.Valid()
    ensures ScaleRecurs(amax, Fp16()) <==> Fp16Recurs(amax)
  {
    hide Times, Ratio, Round, Fp16, Level;
    var s := ScaleFor(amax, Fp16());
    var k, m := Round(Ratio(amax / 127.0, FP16_TINY)), Level(amax, s);
    Fp16Integers(amax, k, m);
    Fp16Again(k, m, s);
    var p := m * k;
    var k' := Round(p as real / 127.0);
    RoundOfMultiple(p, k);
    SameMultiple(k, k', FP16_TINY);
    TimesTimes(127 - m, k, 127 * k - p, FP16_TINY);
    TimesConst(63.0, FP16_TINY);
    TimesMonotone((127 * k - p) as real, 63.0, FP16_TINY);
  }

  lemma SameMultiple(a: int, b: int, u: real)
    requires u > 0.0
    ensures Times(a as real, u) == Times(b as real, u) <==> a == b
  {
    hide Times;
    TimesMonotone(a as real, b as real, u);
    TimesMonotone(b as real, a as real, u);
  }

  /** Where the scale does not recur the second restore is visibly smaller than the first. */
  lemma Fp16DriftShows(amax: real)
    requires 0.0 <= amax <= 127.0 * FP16.Top() && FP16.Valid() && !Fp16Recurs(amax)
    ensures var s := ScaleFor(amax, Fp16());
            var first := Times(Level(amax, s) as real, s);
            var s' := ScaleFor(first, Fp16());
            Times(Level(first, s') as real, s') < first
  {
    hide Times, Ratio, Round, Fp16, Level, Format.Top;
    var s := ScaleFor(amax, Fp16());
    Fp16Top();
    Fp16IsFaithfulWhereNormal(amax);
    TimesConst(0.0, s);
    if amax <= 127.0 * (0.5 * FP16_TINY) {
      Fp16ScaleIsZeroIff(amax);
      TimesConst(127.0, s);
      NoScaleNoLevel(amax, 0.0);
    } else if amax >= 127.0 * FP16_NORMAL {
      ScaleBrackets(amax, Fp16());
      LargestLevel(amax, s);
    } else {
      Fp16SubnormalDrift(amax);
    }
  }

  lemma Fp16SubnormalDrift(amax: real)
    requires 0.5 * 127.0 * FP16_TINY < amax < 127.0 * 1024.0 * FP16_TINY && FP16.Valid() && !Fp16Recurs(amax)
    ensures var s := ScaleFor(amax, Fp16());
            var first := Times(Level(amax, s) as real, s);
            var s' := ScaleFor(first, Fp16());
            Times(Level(first, s') as real, s') < first
  {
    hide Times, Ratio, Round, Fp16, Level;
    var s := ScaleFor(amax, Fp16());
    var k, m := Round(Ratio(amax / 127.0, FP16_TINY)), Level(amax, s);
    Fp16Integers(amax, k, m);
    Fp16Again(k, m, s);
    var p := m * k;
    FarBelow(k, m, p, s);
    var first := Times(m as real, s);
    TimesTimes(m, k, p, FP16_TINY);
    var k' := Round(p as real / 127.0);
    var s' := Times(k' as real, FP16_TINY);
    LevelIsWithin(first, s');
    SmallerRestore(k, k', p, Level(first, s'));
  }

  lemma FarBelow(k: int, m: int, p: int, s: real)
    requires 1 <= k && 0 <= m <= 127 && p == m * k && 0 <= p && s == Times(k as real, FP16_TINY)
    requires Times((127 - m) as real, s) > 63.0 * FP16_TINY
    ensures 127 * k - p > 63 && p <= 127 * k && 0 <= Round(p as real / 127.0) <= k - 1
  {
    hide Times, Round;
    TimesTimes(127 - m, k, 127 * k - p, FP16_TINY);
    TimesConst(63.0, FP16_TINY);
    TimesMonotone((127 * k - p) as real, 63.0, FP16_TINY);
    MulNat(m, 127, k);
    RoundOfMultiple(p, k);
  }

  lemma SmallerRestore(k: int, k': int, p: int, m': int)
    requires 0 <= k' <= k - 1 && 127 * k - p < 127 && m' <= 127
    ensures Times(m' as real, Times(k' as real, FP16_TINY)) < Times(p as real, FP16_TINY)
  {
    hide Times;
    MulNat(m', 127, k');
    TimesTimes(m', k', m' * k', FP16_TINY);
    TimesStrict((m' * k') as real, p as real, FP16_TINY);
  }

  lemma MulNat(a: int, b: int, k: int)
    requires a <= b && k >= 0
    ensures a * k <= b * k
  {
  }

  /** fp16 checkpoints: a column is restored and stored again without drift if and only if the
      restored largest entry is within 63 spacings of 127 scales, zero scales included; where it is
      not, the second restore differs from the first. */
  lemma Fp16DriftsIff(x: seq<real>)
    requires AbsMax(x) <= 127.0 * FP16.Top()
    ensures FP16.Valid()
    ensures Quantize(Dequantize(Quantize(x, Fp16())), Fp16()) == Quantize(x, Fp16()) <==> Fp16Recurs(AbsMax(x))
    ensures RoundTrip(RoundTrip(x, Fp16()), Fp16()) == RoundTrip(x, Fp16()) <==> Fp16Recurs(AbsMax(x))
  {
    var amax := AbsMax(x);
    hide Fp16, Fp16Recurs, Format.Top, ScaleFor, Level, Times, AbsMax, ScaleRecurs;
    Fp16RecursIff(amax);
    QuantizeIsIdempotentIff(x, Fp16());
    var y := RoundTrip(x, Fp16());
    LargestRestored(x, ScaleFor(amax, Fp16()), y);
    LargestRestored(y, ScaleFor(AbsMax(y), Fp16()), RoundTrip(y, Fp16()));
    if !Fp16Recurs(amax) { Fp16DriftShows(amax); }
  }

  /** A column whose scale is not zero and which drifts: 445, 444, 381 spacings. */
  lemma Fp16DriftingColumn()
    ensures FP16.Valid()
    ensures var x := [445.0 * FP16_TINY];
            && Quantize(x, Fp16()) == Quantized([111], 4.0 * FP16_TINY)
            && RoundTrip(x, Fp16()) == [444.0 * FP16_TINY]
            && RoundTrip(RoundTrip(x, Fp16()), Fp16()) == [381.0 * FP16_TINY]
  {
    hide Round, Clamp, Quantize, Dequantize, RoundTrip, Fp16, Times;
    TheQuotients();
    Fp16OneEntry(445.0, 4, 111.25, 111);
    TimesConst(111.0, 4.0 * FP16_TINY);
    Fp16OneEntry(444.0, 3, 148.0, 127);
    TimesConst(127.0, 3.0 * FP16_TINY);
  }

  lemma TheQuotients()
    ensures Round(445.0 / 127.0) == 4 && Round(444.0 / 127.0) == 3
    ensures Clamp(Round(111.25)) == 111 && Clamp(Round(148.0)) == 127
    ensures Times(111.25, 4.0) == 445.0 && Times(148.0, 3.0) == 444.0
  {
  }

  /** A column of one entry of a spacings, w scales of k spacings. */
  lemma Fp16OneEntry(a: real, k: int, w: real, m: int)
    requires 0.0 <= a <= 1000.0 && k > 0 && Times(w, k as real) == a
    requires Round(a / 127.0) == k && Clamp(Round(w)) == m && 127.0 * FP16_TINY <= a * FP16_TINY
    ensures FP16.Valid()
    ensures Quantize([a * FP16_TINY], Fp16()) == Quantized([m], k as real * FP16_TINY)
    ensures RoundTrip([a * FP16_TINY], Fp16()) == [Times(m as real, k as real * FP16_TINY)]
  {
    var x := [a * FP16_TINY];
    OneEntryMax(a * FP16_TINY);
    Fp16OneScale(a, k);
    var s := k as real * FP16_TINY;
    OneEntryRatio(a, k, w, s);
    hide Fp16, Times, Ratio, Round, Clamp, AbsMax;
    assert ScaleFor(AbsMax(x), Fp16()) == s;
    assert s > 0.0;
    assert Level(x[0], s) == m;
  }

  lemma OneEntryMax(v: real)
    requires v >= 0.0
    ensures AbsMax([v]) == v
  {
    assert [v][1..] == [];
  }

  lemma Fp16OneScale(a: real, k: int)
    requires 127.0 <= a <= 1000.0 && Round(a / 127.0) == k
    ensures FP16.Valid() && ScaleFor(a * FP16_TINY, Fp16()) == k as real * FP16_TINY
  {
    hide Round, Fp16, Times, Ratio;
    var t := a * FP16_TINY / 127.0;
    Fp16Spacing(t);
    SpacingsOf(a, t);
    TimesConst(k as real, FP16_TINY);
  }

  lemma SpacingsOf(a: real, t: real)
    requires 127.0 * t == a * FP16_TINY
    ensures Ratio(t, FP16_TINY) == a / 127.0
  {
    assert t == Times(a / 127.0, FP16_TINY);
    TimesRatio(a / 127.0, FP16_TINY);
  }

  lemma OneEntryRatio(a: real, k: int, w: real, s: real)
    requires k > 0 && Times(w, k as real) == a && s == k as real * FP16_TINY
    ensures s > 0.0 && Ratio(a * FP16_TINY, s) == w
  {
    assert Times(w, s) == a * FP16_TINY;
    TimesRatio(w, s);
  }
}
