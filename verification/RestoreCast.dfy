/** Restoring into bf16 state: restored values are rounded to the state's type, and a restored
    column stored again gets the same scale unless the scale's significand is 192 of 128 to 255. */
module RestoreCast {
  import opened Int8Checkpoint
  import opened ScaleTypes

  function Bf16(): ScaleType
  {
    assert BF16.Valid();
    Store(BF16, LOW)
  }

  /** The spacing of the bf16 values around x. */
  function Spacing(x: real): real { Unit(BF16.tiny, Exponent(BF16, x, 0)) }

  /** 1.5 times a power of two. */
  predicate HasSignificand192(s: real) { s == Times(192.0, Spacing(s)) }

  // ---------------------------------------------------------------- one rounding

  lemma RoundInBinade(x: real, k: nat)
    requires InBinade(BF16, x, k) && Times(128.0, BF16.tiny) <= x <= BF16.Top()
    ensures RoundTo(BF16, x) == Times(Round(Ratio(x, Unit(BF16.tiny, k))) as real, Unit(BF16.tiny, k))
    ensures Spacing(x) == Unit(BF16.tiny, k)
  {
    hide Times, Ratio, Round, Unit, Exponent, RoundTo;
    var j := SpacingOf(BF16, x);
    BinadeUnique(BF16, x, j, k);
  }

  /** A stored scale is a significand times a spacing. */
  lemma ScaleParts(s: real) returns (k: nat, n: int)
    requires Times(128.0, BF16.tiny) <= s <= BF16.Top() && RoundTo(BF16, s) == s
    ensures InBinade(BF16, s, k) && 128 <= n <= 255 && s == Times(n as real, Unit(BF16.tiny, k))
    ensures HasSignificand192(s) <==> n == 192
  {
    hide Times, Ratio, Round, Unit, Exponent, RoundTo;
    k := SpacingOf(BF16, s);
    var u := Unit(BF16.tiny, k);
    n := Significand(BF16, s, k);
    RoundInBinade(s, k);
    TimesMonotone(256.0, n as real, u);
    SameMultiple(n, 192, u);
  }

  // ---------------------------------------------------------------- 127 scales, rounded, over 127

  /** The significand of 127 n, n from 130 up, one binade short of seven up. */
  function Shrunk(n: int): int { if n < 192 then n - 1 else n - 2 }

  lemma ShrunkIsRounded(n: int)
    requires 130 <= n <= 255
    ensures Round((127 * n) as real / 128.0) == Shrunk(n)
    ensures Round((128 * Shrunk(n)) as real / 127.0) == if n == 192 then 191 else n
    ensures 128 <= Shrunk(n) <= 253
  {
    assert (127 * n) as real / 128.0 == n as real - n as real / 128.0;
    var m := Shrunk(n);
    assert (128 * m) as real / 127.0 == m as real + m as real / 127.0;
  }

  lemma UnitSeven(k: nat)
    ensures Unit(BF16.tiny, k + 6) == 64.0 * Unit(BF16.tiny, k) && Unit(BF16.tiny, k + 7) == 128.0 * Unit(BF16.tiny, k)
  {
    var t := BF16.tiny;
    assert Unit(t, k + 1) == 2.0 * Unit(t, k) && Unit(t, k + 2) == 2.0 * Unit(t, k + 1);
    assert Unit(t, k + 3) == 2.0 * Unit(t, k + 2) && Unit(t, k + 4) == 2.0 * Unit(t, k + 3);
    assert Unit(t, k + 5) == 2.0 * Unit(t, k + 4) && Unit(t, k + 6) == 2.0 * Unit(t, k + 5);
  }

  /** A value with at least half a binade's significand has an exponent of the format. */
  lemma ExponentFits(x: real, j: nat)
    requires Times(128.0, Unit(BF16.tiny, j)) <= x <= BF16.Top()
    ensures j <= BF16.maxExp
  {
    hide Times, Unit;
    if j > BF16.maxExp {
      BinadesRise(BF16, BF16.maxExp, j);
      TimesStrict(255.0, 256.0, Unit(BF16.tiny, BF16.maxExp));
    }
  }

  lemma Rescale(a: int, c: real, u: real)
    requires u > 0.0 && c > 0.0
    ensures Ratio(Times(a as real, u), c * u) == a as real / c
  {
    assert Times(a as real / c, c * u) == Times(a as real, u);
    TimesRatio(a as real / c, c * u);
  }

  /** An integer number of spacings of binade k, in binade j with spacing c times as wide. */
  lemma RoundSpacings(a: int, c: real, j: nat, u: real)
    requires u > 0.0 && (c == 1.0 || c == 64.0 || c == 128.0) && Unit(BF16.tiny, j) == c * u
    requires 128.0 * c <= a as real < 256.0 * c && Times(a as real, u) <= BF16.Top()
    ensures RoundTo(BF16, Times(a as real, u)) == Times(Round(a as real / c) as real, c * u)
    ensures j <= BF16.maxExp && Times(128.0, Unit(BF16.tiny, j)) <= Times(a as real, u)
  {
    var x := Times(a as real, u);
    BinadeOfSpacings(a as real, c, j, u);
    Rescale(a, c, u);
    hide Times, Ratio, Round, Unit, Exponent, RoundTo;
    ExponentFits(x, j);
    LeastNormal(j);
    RoundInBinade(x, j);
  }

  lemma BinadeOfSpacings(a: real, c: real, j: nat, u: real)
    requires u > 0.0 && c > 0.0 && Unit(BF16.tiny, j) == c * u && 128.0 * c <= a < 256.0 * c
    ensures Times(128.0, Unit(BF16.tiny, j)) <= Times(a, u) < Times(256.0, Unit(BF16.tiny, j))
  {
    assert Times(128.0, c * u) == Times(128.0 * c, u) && Times(256.0, c * u) == Times(256.0 * c, u);
    hide Times;
    TimesMonotone(128.0 * c, a, u);
    TimesStrict(a, 256.0 * c, u);
  }

  lemma LeastNormal(j: nat)
    ensures Times(128.0, BF16.tiny) <= Times(128.0, Unit(BF16.tiny, j))
  {
    assert Unit(BF16.tiny, 0) == BF16.tiny;
    UnitsRise(BF16.tiny, 0, j);
    hide Unit;
    TimesUnit(128.0, BF16.tiny, Unit(BF16.tiny, j));
  }

  /** 127 scales rounded, over 127, rounded again: the scale itself but for one significand, which
      becomes the one below. */
  lemma FullScaleAgain(k: nat, n: int, s: real)
    requires 128 <= n <= 255 && k <= BF16.maxExp && s == Times(n as real, Unit(BF16.tiny, k)) && 127.0 * s <= BF16.Top()
    ensures RoundTo(BF16, RoundTo(BF16, 127.0 * s) / 127.0)
            == Times((if n == 192 then 191 else n) as real, Unit(BF16.tiny, k))
  {
    var u := Unit(BF16.tiny, k);
    UnitSeven(k);
    FullScale(n, u, s);
    if n >= 130 {
      ShrunkIsRounded(n);
      FullScaleWide(k, n, u, s);
    } else {
      FullScaleNarrow(k, n, u, s);
    }
  }

  lemma FullScale(n: int, u: real, s: real)
    requires s == Times(n as real, u)
    ensures 127.0 * s == Times((127 * n) as real, u)
  {
  }

  lemma PartOfTop(a: int, c: real, u: real)
    requires u > 0.0 && 0 <= a && Times(a as real, u) <= BF16.Top() && c == Times(a as real, u) / 127.0
    ensures c <= BF16.Top() && c == Times(a as real / 127.0, u)
  {
  }

  lemma FullScaleWide(k: nat, n: int, u: real, s: real)
    requires 130 <= n <= 255 && u == Unit(BF16.tiny, k) && Unit(BF16.tiny, k + 7) == 128.0 * u && u > 0.0
    requires 127.0 * s == Times((127 * n) as real, u) <= BF16.Top()
    requires Round((127 * n) as real / 128.0) == Shrunk(n) && 128 <= Shrunk(n) <= 253
    requires Round((128 * Shrunk(n)) as real / 127.0) == if n == 192 then 191 else n
    ensures RoundTo(BF16, RoundTo(BF16, 127.0 * s) / 127.0) == Times((if n == 192 then 191 else n) as real, u)
  {
    hide Round, RoundTo, Times, Unit, Shrunk, Exponent;
    RoundSpacings(127 * n, 128.0, k + 7, u);
    var m := Shrunk(n);
    assert Times(m as real, 128.0 * u) == Times((128 * m) as real, u) by { Widen(m, u); }
    TopAfterRounding(127.0 * s, k + 7);
    RoundedOver127(k, 128 * m, u);
  }

  lemma Widen(m: int, u: real)
    ensures Times(m as real, 128.0 * u) == Times((128 * m) as real, u)
    ensures Times(m as real, 64.0 * u) == Times((64 * m) as real, u)
  {
  }

  lemma TopAfterRounding(x: real, j: nat)
    requires Times(128.0, Unit(BF16.tiny, j)) <= x <= BF16.Top()
    ensures RoundTo(BF16, x) <= BF16.Top()
  {
    hide Round, RoundTo, Times, Unit, Exponent;
    LeastNormal(j);
    RoundToIsFaithful(BF16, x);
  }

  /** a spacings over 127, back in binade k. */
  lemma RoundedOver127(k: nat, a: int, u: real)
    requires u == Unit(BF16.tiny, k) && u > 0.0 && 128 * 127 <= a < 256 * 127 && Times(a as real, u) <= BF16.Top()
    ensures RoundTo(BF16, Times(a as real, u) / 127.0) == Times(Round(a as real / 127.0) as real, u)
    ensures k <= BF16.maxExp
  {
    var c := Times(a as real, u) / 127.0;
    PartOfTop(a, c, u);
    BinadeOfSpacings(a as real / 127.0, 1.0, k, u);
    TimesRatio(a as real / 127.0, u);
    hide Times, Ratio, Round, Unit, Exponent, RoundTo;
    ExponentFits(c, k);
    LeastNormal(k);
    RoundInBinade(c, k);
  }

  lemma FullScaleNarrow(k: nat, n: int, u: real, s: real)
    requires 128 <= n <= 129 && u == Unit(BF16.tiny, k) && Unit(BF16.tiny, k + 6) == 64.0 * u && u > 0.0
    requires 127.0 * s == Times((127 * n) as real, u) <= BF16.Top()
    ensures RoundTo(BF16, RoundTo(BF16, 127.0 * s) / 127.0) == Times(n as real, u)
  {
    assert Round((127 * n) as real / 64.0) == n + 126 + (n - 128);
    assert Round((64 * (n + 126 + (n - 128))) as real / 127.0) == n;
    hide Round, RoundTo, Times, Unit, Exponent;
    RoundSpacings(127 * n, 64.0, k + 6, u);
    var m := n + 126 + (n - 128);
    assert Times(m as real, 64.0 * u) == Times((64 * m) as real, u) by { Widen(m, u); }
    TopAfterRounding(127.0 * s, k + 6);
    RoundedOver127(k, 64 * m, u);
  }

  // ---------------------------------------------------------------- the floor's scale

  const TWO41: real := 2199023255552.0

  lemma FloorUnit()
    ensures Unit(BF16.tiny, 92) == 1.0 / TWO41
  {
    var t := BF16.tiny;
    assert Unit(t, 0) == t;
    SixteensUp(t, 0);
    SixteensUp(t, 1);
    SixteensUp(t, 2);
    SixteensUp(t, 3);
    SixteensUp(t, 4);
    UnitSplit(t, 80, 4);
    Unit4(Unit(t, 80));
    UnitSplit(t, 84, 4);
    Unit4(Unit(t, 84));
    UnitSplit(t, 88, 4);
    Unit4(Unit(t, 88));
  }

  /** The floor's scale has significand 173. */
  lemma FloorScale()
    ensures RoundTo(BF16, FLOOR_AMAX / 127.0) == 173.0 / TWO41
    ensures InBinade(BF16, 173.0 / TWO41, 92) && InBinade(BF16, FLOOR_AMAX / 127.0, 92)
  {
    var u := 1.0 / TWO41;
    FloorUnit();
    TimesConst(128.0, u);
    TimesConst(256.0, u);
    TimesConst(173.0, u);
    FloorRatio(u);
    LeastNormal(92);
    LargeTop(BF16);
    hide Times, Unit, Round, Ratio, RoundTo, Format.Top;
    RoundInBinade(FLOOR_AMAX / 127.0, 92);
  }

  lemma FloorRatio(u: real)
    requires u == 1.0 / TWO41
    ensures Round(Ratio(FLOOR_AMAX / 127.0, u)) == 173
  {
    var r := FLOOR_AMAX / 127.0 * TWO41;
    assert Times(r, u) == FLOOR_AMAX / 127.0;
    TimesRatio(r, u);
    assert 172.5 < r < 173.5;
  }

  /** A larger stored scale than the floor's is at least the next value. */
  lemma NextAfterFloorScale(s: real, k: nat, n: int)
    requires InBinade(BF16, s, k) && s == Times(n as real, Unit(BF16.tiny, k)) && s > 173.0 / TWO41
    ensures s >= 174.0 / TWO41
  {
    FloorScale();
    FloorUnit();
    TimesConst(128.0, 1.0 / TWO41);
    TimesConst(256.0, 1.0 / TWO41);
    TimesConst(173.0, 1.0 / TWO41);
    TimesConst(174.0, 1.0 / TWO41);
    hide Times, Unit, RoundTo;
    if k == 92 {
      TimesMonotone(n as real, 173.0, 1.0 / TWO41);
      TimesMonotone(174.0, n as real, 1.0 / TWO41);
    } else if k < 92 {
      BinadesRise(BF16, k, 92);
    } else {
      BinadesRise(BF16, 92, k);
    }
  }

  // ---------------------------------------------------------------- the exact condition

  /** A scale found from a restored largest entry that the floor does not hide. */
  lemma FullScaleRecursIff(s: real)
    requires 0.0 < s && Times(128.0, BF16.tiny) <= s && RoundTo(BF16, s) == s && 127.0 * s <= BF16.Top()
    ensures RoundTo(BF16, RoundTo(BF16, 127.0 * s) / 127.0) == s <==> !HasSignificand192(s)
    ensures HasSignificand192(s) ==> RoundTo(BF16, RoundTo(BF16, 127.0 * s) / 127.0) == Times(191.0, Spacing(s))
  {
    hide Times, RoundTo, Format.Top, Spacing, Unit, HasSignificand192;
    var k, n := ScaleParts(s);
    FullScaleAgain(k, n, s);
    SameMultiple(n, 191, Unit(BF16.tiny, k));
    SpacingIs(s, k);
  }

  lemma SpacingIs(s: real, k: nat)
    requires InBinade(BF16, s, k) && Times(128.0, BF16.tiny) <= s <= BF16.Top()
    ensures Spacing(s) == Unit(BF16.tiny, k)
  {
    hide Times, RoundTo, Unit, Round, Ratio, Exponent;
    RoundInBinade(s, k);
  }

  /** What the type gives for values inside its range. */
  lemma Bf16Rounds(x: real)
    requires LOW <= x <= BF16.Top()
    ensures Bf16().Valid() && Bf16().low == LOW && Bf16().top == BF16.Top()
    ensures Bf16().round(x) == RoundTo(BF16, x) && Times(128.0, BF16.tiny) <= x
  {
    TimesConst(128.0, BF16.tiny);
    Bf16IsFaithful();
  }

  lemma Bf16Facts()
    ensures Bf16().Valid() && Bf16().low == LOW && Bf16().top == BF16.Top() && FLOOR_AMAX <= BF16.Top()
  {
    Bf16IsFaithful();
    LargeTop(BF16);
  }

  /** The scale of a column that can be restored: what it is, and that 127 of it fit. */
  lemma StoredScale(amax: real)
    requires amax >= 0.0 && Restorable(amax, Bf16())
    ensures var s := ScaleFor(amax, Bf16());
            && LOW <= s && s > 0.0 && 127.0 * s <= BF16.Top() && RoundTo(BF16, s) == s
            && 126.5 * s < Max(amax, FLOOR_AMAX) && RoundTo(BF16, FLOOR_AMAX / 127.0) <= s
            && (amax <= FLOOR_AMAX ==> s == RoundTo(BF16, FLOOR_AMAX / 127.0))
  {
    hide Bf16, RoundTo, Format.Top, Times;
    Bf16Facts();
    ScaleBrackets(amax, Bf16());
    var t := Max(amax, FLOOR_AMAX) / 127.0;
    Bf16Rounds(ScaleFor(amax, Bf16()));
    Bf16Rounds(FLOOR_AMAX / 127.0);
    assert Bf16().round(FLOOR_AMAX / 127.0) <= Bf16().round(t);
  }

  lemma LevelRange(amax: real, s: real)
    requires amax >= 0.0
    ensures 0 <= Level(amax, s) <= 127
  {
    LevelIsWithin(amax, s);
    LevelOfAbs(amax, s);
    hide Level;
  }

  /** m scales, restored: 127 of them when that is above the floor. */
  lemma RestoredLargest(amax: real)
    requires amax >= 0.0 && Restorable(amax, Bf16())
    ensures var s := ScaleFor(amax, Bf16());
            var c := Cast(Bf16(), Times(Level(amax, s) as real, s));
            && 0.0 <= c <= BF16.Top()
            && (amax >= FLOOR_AMAX || c > FLOOR_AMAX ==> Level(amax, s) == 127 && c == RoundTo(BF16, 127.0 * s))
  {
    hide Bf16, RoundTo, Format.Top, Times, Cast, Level, ScaleFor;
    var s := ScaleFor(amax, Bf16());
    var m := Level(amax, s);
    LevelRange(amax, s);
    StoredScale(amax);
    Bf16Facts();
    TimesConst(127.0, s);
    TimesConst(126.0, s);
    TimesConst(0.0, s);
    CastZero(Bf16());
    hide Restorable;
    if m > 0 { CastClose(m, s, Bf16()); }
    if amax >= FLOOR_AMAX { LargestLevel(amax, s); }
    if m == 127 {
      Bf16Rounds(127.0 * s);
    } else if m > 0 {
      TimesMonotone(m as real, 126.0, s);
      SmallRestored(amax, s, Cast(Bf16(), Times(m as real, s)), Times(m as real, s));
    }
    if m > 0 { TopKept(Times(m as real, s)); }
  }

  lemma TopKept(v: real)
    requires LOW <= v <= BF16.Top()
    ensures Bf16().round(v) <= BF16.Top()
  {
    hide RoundTo, Format.Top, Times, Bf16;
    Bf16Rounds(v);
    Bf16Facts();
    assert Bf16().round(v) <= Bf16().round(BF16.Top());
  }

  lemma SmallRestored(amax: real, s: real, c: real, v: real)
    requires 126.5 * s < Max(amax, FLOOR_AMAX) && amax <= FLOOR_AMAX && s > 0.0
    requires v <= 126.0 * s && Abs(c - v) <= 127.0 / 256.0 * s
    ensures c <= FLOOR_AMAX
  {
  }

  /** The exact condition: a restored bf16 column finds its scale again if and only if the scale's
      significand is not 192. */
  lemma Bf16RecursIff(amax: real)
    requires amax >= 0.0 && Restorable(amax, Bf16())
    ensures CastRecurs(amax, Bf16()) <==> !HasSignificand192(ScaleFor(amax, Bf16()))
    ensures HasSignificand192(ScaleFor(amax, Bf16())) ==>
      var s := ScaleFor(amax, Bf16());
      ScaleFor(Cast(Bf16(), Times(Level(amax, s) as real, s)), Bf16()) == Times(191.0, Spacing(s))
  {
    var s := ScaleFor(amax, Bf16());
    var c := Cast(Bf16(), Times(Level(amax, s) as real, s));
    hide Bf16, RoundTo, Format.Top, Times, Cast, Level, Restorable, HasSignificand192, Spacing;
    StoredScale(amax);
    RestoredLargest(amax);
    Bf16Rounds(s);
    FullScaleRecursIff(s);
    if c > FLOOR_AMAX {
      Bf16Rounds(c / 127.0);
    } else {
      HiddenByTheFloor(amax, s, c);
    }
  }

  /** A restored largest entry the floor hides: the scale is the floor's, before and after. */
  lemma HiddenByTheFloor(amax: real, s: real, c: real)
    requires amax >= 0.0 && Restorable(amax, Bf16()) && s == ScaleFor(amax, Bf16())
    requires c == Cast(Bf16(), Times(Level(amax, s) as real, s)) && c <= FLOOR_AMAX
    ensures s == ScaleFor(c, Bf16()) && !HasSignificand192(s)
  {
    hide Bf16, RoundTo, Format.Top, Times, Cast, Level, HasSignificand192;
    StoredScale(amax);
    RestoredLargest(amax);
    Bf16Facts();
    FloorScale();
    Bf16Rounds(FLOOR_AMAX / 127.0);
    if s > 173.0 / TWO41 {
      Bf16Rounds(s);
      var k, n := ScaleParts(s);
      NextAfterFloorScale(s, k, n);
      PassesTheFloor(s);
    }
    FloorSignificand();
  }

  lemma PassesTheFloor(s: real)
    requires s >= 174.0 / TWO41 && 127.0 * s <= BF16.Top()
    ensures RoundTo(BF16, 127.0 * s) > FLOOR_AMAX
  {
    hide RoundTo, Format.Top, Bf16;
    Bf16Rounds(127.0 * s);
    assert Abs(Bf16().round(127.0 * s) - 127.0 * s) <= 127.0 * s / 256.0;
  }

  lemma FloorSignificand()
    ensures !HasSignificand192(173.0 / TWO41)
  {
    var s := 173.0 / TWO41;
    FloorScale();
    FloorUnit();
    LeastNormal(92);
    LargeTop(BF16);
    TimesConst(192.0, 1.0 / TWO41);
    hide Times, Unit, RoundTo, Format.Top, Spacing;
    SpacingIs(s, 92);
  }

  // ---------------------------------------------------------------- columns

  /** The column as the state holds it after one store and restore. */
  function Cycle(x: seq<real>): seq<real> { Restore(Quantize(x, Bf16()), Bf16()) }

  /** A bf16 checkpoint stored again from its restored state is the same checkpoint if and only if
      the column's scale does not have significand 192; else its scale moves to significand 191. */
  lemma Bf16StoreOfRestoreIff(x: seq<real>)
    requires Restorable(AbsMax(x), Bf16())
    ensures var s := ScaleFor(AbsMax(x), Bf16());
            && (Quantize(Cycle(x), Bf16()) == Quantize(x, Bf16()) <==> !HasSignificand192(s))
            && (HasSignificand192(s) ==> Quantize(Cycle(x), Bf16()).scale == Times(191.0, Spacing(s)))
  {
    hide Bf16, Restorable, CastRecurs, HasSignificand192, Spacing, Times, Cast, Level, ScaleFor;
    Bf16Facts();
    Bf16RecursIff(AbsMax(x));
    StoreOfRestoreIff(x, Bf16());
  }

  lemma Below192(s: real)
    requires 0.0 < s && Times(128.0, BF16.tiny) <= s && RoundTo(BF16, s) == s && 127.0 * s <= BF16.Top() && HasSignificand192(s)
    ensures !HasSignificand192(Times(191.0, Spacing(s))) && Times(191.0, Spacing(s)) <= s
  {
    hide Times, RoundTo, Format.Top, Unit, Exponent;
    var k, n := ScaleParts(s);
    var u := Unit(BF16.tiny, k);
    SpacingIs(s, k);
    var t := Times(191.0, u);
    TimesMonotone(191.0, 192.0, u);
    TimesMonotone(128.0, 191.0, u);
    TimesStrict(191.0, 256.0, u);
    LeastNormal(k);
    SpacingIs(t, k);
    SameMultiple(191, 192, u);
  }

  lemma CycleIsRestorable(x: seq<real>)
    requires Restorable(AbsMax(x), Bf16()) && HasSignificand192(ScaleFor(AbsMax(x), Bf16()))
    ensures Restorable(AbsMax(Cycle(x)), Bf16()) && !HasSignificand192(ScaleFor(AbsMax(Cycle(x)), Bf16()))
  {
    hide Bf16, HasSignificand192, Spacing, Times, Cast, Level, ScaleFor, RoundTo, Format.Top, AbsMax;
    var s := ScaleFor(AbsMax(x), Bf16());
    Bf16Facts();
    StoredScale(AbsMax(x));
    Bf16Rounds(s);
    Below192(s);
    Bf16StoreOfRestoreIff(x);
    RestoredLargest(AbsMax(x));
    LargestCast(x, s, Cycle(x), Bf16());
    LowIsSmall();
  }

  lemma LowIsSmall()
    ensures 127.0 * LOW <= FLOOR_AMAX
  {
  }

  function Cycles(x: seq<real>, n: nat): seq<real> {
    if n == 0 then x else Cycle(Cycles(x, n - 1))
  }

  lemma SettledAfterOne(x: seq<real>)
    requires Restorable(AbsMax(x), Bf16()) && !HasSignificand192(ScaleFor(AbsMax(x), Bf16()))
    ensures Cycle(Cycle(x)) == Cycle(x)
  {
    hide Restorable, HasSignificand192, Bf16, AbsMax, ScaleFor, Restore, Quantize, Spacing;
    Bf16StoreOfRestoreIff(x);
  }

  lemma SettledAfterTwo(x: seq<real>)
    requires Restorable(AbsMax(x), Bf16())
    ensures Cycle(Cycle(Cycle(x))) == Cycle(Cycle(x))
  {
    hide Restorable, HasSignificand192, Bf16, AbsMax, ScaleFor, Cycle, Spacing;
    if HasSignificand192(ScaleFor(AbsMax(x), Bf16())) {
      CycleIsRestorable(x);
      SettledAfterOne(Cycle(x));
    } else {
      SettledAfterOne(x);
    }
  }

  lemma {:induction false} StaysSettled(x: seq<real>, k: nat, n: nat)
    requires Cycles(x, k + 1) == Cycles(x, k) && n >= k
    ensures Cycles(x, n) == Cycles(x, k)
    decreases n
  {
    hide Cycle;
    if n > k { StaysSettled(x, k, n - 1); }
  }

  /** However often a column is stored and restored, its state changes at the second cycle at the
      latest: after one cycle it is settled, or after two when its scale has significand 192. */
  lemma DriftsAtMostOnce(x: seq<real>, n: nat)
    requires Restorable(AbsMax(x), Bf16())
    ensures n >= 2 ==> Cycles(x, n) == Cycles(x, 2)
    ensures n >= 1 && !HasSignificand192(ScaleFor(AbsMax(x), Bf16())) ==> Cycles(x, n) == Cycles(x, 1)
  {
    hide Restorable, HasSignificand192, Bf16, AbsMax, ScaleFor, Cycle;
    assert Cycles(x, 0) == x && Cycles(x, 1) == Cycle(x) && Cycles(x, 2) == Cycle(Cycles(x, 1)) && Cycles(x, 3) == Cycle(Cycles(x, 2));
    SettledAfterTwo(x);
    if n >= 2 { StaysSettled(x, 2, n); }
    if n >= 1 && !HasSignificand192(ScaleFor(AbsMax(x), Bf16())) {
      SettledAfterOne(x);
      StaysSettled(x, 1, n);
    }
  }

  // ---------------------------------------------------------------- columns of bf16 values

  lemma TopSignificands(a: int)
    requires 128 <= a <= 255
    ensures a < 254 ==> Round((128 * a) as real / 127.0) == a + (if a <= 190 then 1 else 2)
    ensures a >= 254 ==> Round((64 * a) as real / 127.0) == a - 126
  {
    assert (128 * a) as real / 127.0 == a as real + a as real / 127.0;
  }

  lemma UnitOne(k: nat)
    ensures Unit(BF16.tiny, k + 1) == 2.0 * Unit(BF16.tiny, k)
  {
  }

  lemma HalveSpacings(a: int, u: real)
    ensures Times(a as real, 128.0 * u) == Times((128 * a) as real, u) == Times((64 * a) as real, 2.0 * u)
  {
  }

  /** The scale of a bf16 value has significand 129 and up, but never 192. */
  lemma SignificandOfScale(k: nat, a: int, amax: real)
    requires 128 <= a <= 255 && amax == Times(a as real, Unit(BF16.tiny, k + 7)) && amax <= BF16.Top()
    ensures RoundTo(BF16, amax / 127.0) > 0.0 && !HasSignificand192(RoundTo(BF16, amax / 127.0))
  {
    hide Times, Unit, Round, RoundTo, Format.Top, HasSignificand192;
    var u := Unit(BF16.tiny, k);
    UnitSeven(k);
    HalveSpacings(a, u);
    TopSignificands(a);
    if a < 254 {
      RoundedOver127(k, 128 * a, u);
      ScaleWith(k, a + (if a <= 190 then 1 else 2), u);
    } else {
      UnitOne(k);
      RoundedOver127(k + 1, 64 * a, 2.0 * u);
      ScaleWith(k + 1, a - 126, 2.0 * u);
    }
  }

  lemma ScaleWith(k: nat, n: int, u: real)
    requires u == Unit(BF16.tiny, k) && u > 0.0 && 128 <= n <= 255 && n != 192 && k <= BF16.maxExp
    ensures Times(n as real, u) > 0.0 && !HasSignificand192(Times(n as real, u))
  {
    hide Times, Unit, RoundTo, Exponent, Round, Ratio;
    var s := Times(n as real, u);
    TimesMonotone(128.0, n as real, u);
    TimesStrict(n as real, 256.0, u);
    TimesConst(0.0, u);
    TimesStrict(0.0, n as real, u);
    SignificandStored(BF16, k, n);
    SpacingIs(s, k);
    SameMultiple(n, 192, u);
  }

  /** The largest entry is a bf16 value (or below the floor), and 127 of its scales are finite. */
  predicate IsBf16State(x: seq<real>) {
    && Restorable(AbsMax(x), Bf16())
    && (AbsMax(x) >= FLOOR_AMAX ==> RoundTo(BF16, AbsMax(x)) == AbsMax(x) <= BF16.Top())
  }

  /** bf16 checkpoints of bf16 states do not drift at all: a column whose largest entry is a bf16
      value finds its scale again, and every restored column is such a column. */
  lemma Bf16StatesDoNotDrift(x: seq<real>)
    requires IsBf16State(x)
    ensures Quantize(Cycle(x), Bf16()) == Quantize(x, Bf16()) && Cycle(Cycle(x)) == Cycle(x)
  {
    var amax := AbsMax(x);
    hide Bf16, Restorable, HasSignificand192, Times, ScaleFor, RoundTo, Format.Top, AbsMax, Spacing;
    StoredScale(amax);
    if amax > FLOOR_AMAX {
      Bf16ScaleOfValue(amax);
      Bf16Rounds(amax / 127.0);
    } else {
      FloorScale();
      FloorSignificand();
    }
    Bf16StoreOfRestoreIff(x);
    SettledAfterOne(x);
  }

  lemma Bf16ScaleOfValue(amax: real)
    requires FLOOR_AMAX < amax && RoundTo(BF16, amax) == amax <= BF16.Top()
    ensures !HasSignificand192(RoundTo(BF16, amax / 127.0)) && LOW <= amax / 127.0 <= BF16.Top()
    ensures ScaleFor(amax, Bf16()) == RoundTo(BF16, amax / 127.0)
  {
    TimesConst(128.0, BF16.tiny);
    hide HasSignificand192, Times, RoundTo, Format.Top, Spacing, Unit;
    Bf16Rounds(amax / 127.0);
    var j, a := ScaleParts(amax);
    AboveTheFloor(amax, j);
    SignificandOfScale(j - 7, a, amax);
  }

  lemma AboveTheFloor(amax: real, j: nat)
    requires FLOOR_AMAX < amax && InBinade(BF16, amax, j)
    ensures j >= 7
  {
    FloorUnit();
    TimesConst(128.0, 1.0 / TWO41);
    hide Times, Unit;
    if j < 92 { BinadesRise(BF16, j, 92); }
  }

  /** What a restore leaves are bf16 values, so the law above applies to every state after one. */
  lemma RestoredAreValues(x: seq<real>)
    requires Restorable(AbsMax(x), Bf16()) && AbsMax(Cycle(x)) >= FLOOR_AMAX
    ensures RoundTo(BF16, AbsMax(Cycle(x))) == AbsMax(Cycle(x)) <= BF16.Top()
  {
    var s := ScaleFor(AbsMax(x), Bf16());
    hide Bf16, Restorable, Times, Cast, Level, ScaleFor, RoundTo, Format.Top, AbsMax, ScaleType.Valid;
    Bf16Facts();
    StoredScale(AbsMax(x));
    RestoredLargest(AbsMax(x));
    LargestCast(x, s, Cycle(x), Bf16());
    var m := Level(AbsMax(x), s);
    LevelIsWithin(AbsMax(x), s);
    LevelOfAbs(AbsMax(x), s);
    TimesConst(0.0, s);
    CastZero(Bf16());
    if m > 0 {
      CastClose(m, s, Bf16());
      ValueIsKept(Times(m as real, s));
    }
  }

  lemma ValueIsKept(v: real)
    requires LOW <= v <= BF16.Top() && Bf16().round(v) >= FLOOR_AMAX
    ensures RoundTo(BF16, Bf16().round(v)) == Bf16().round(v)
  {
    hide Times, RoundTo, Format.Top, Bf16;
    Bf16Rounds(v);
    TopKept(v);
    assert Bf16().round(Bf16().round(v)) == Bf16().round(v);
    Bf16Rounds(Bf16().round(v));
  }
}
