/** Symmetric int8 quantization of one (head, k-channel) column of a temporal state, over exact
    reals, with the scale rounded to its storage type before it is used. */
module Int8Checkpoint {

  const QMAX: int := 127
  const FLOOR_AMAX: real := 0.00000001

  function Abs(r: real): real { if r < 0.0 then -r else r }

  function Max(a: real, b: real): real { if a >= b then a else b }

  // ---------------------------------------------------------------- rounding

  /** Nearest integer, ties to the even one. */
  function Round(r: real): int {
    var f := r.Floor;
    var d := r - f as real;
    if d < 0.5 || (d == 0.5 && f % 2 == 0) then f else f + 1
  }

  lemma RoundIsNearest(r: real, n: int)
    ensures Abs(Round(r) as real - r) <= 0.5
    ensures Abs(Round(r) as real - r) <= Abs(n as real - r)
    ensures Abs(Round(r) as real - r) == 0.5 ==> Round(r) % 2 == 0
  {
    if n >= r.Floor + 1 { assert n as real >= (r.Floor + 1) as real; }
    if n <= r.Floor { assert n as real <= r.Floor as real; }
  }

  lemma RoundOfInteger(n: int)
    ensures Round(n as real) == n
  {
  }

  function Clamp(n: int): int {
    if n > QMAX then QMAX else if n < -QMAX then -QMAX else n
  }

  predicate Within(n: int, m: int) { -m <= n <= m }

  predicate Extreme(n: int, m: int) { n == m || n == -m }

  /** A floor scale may be rounded to a little below FLOOR_AMAX / 127, not below this. */
  const LOW: real := FLOOR_AMAX / 254.0

  /** How a floating-point type stores scales from `low` to `top`: there rounding is monotone, exact
      on its own values, and off by at most 1/256 of the value (eight significant bits).  The lower
      end is one of its values, or below every scale the floor allows. */
  datatype ScaleType = ScaleType(round: real -> real, low: real, top: real) {
    ghost predicate Valid() {
      && 0.0 < low <= top && round(top) == top && (round(low) == low || low <= LOW)
      && (forall x :: low <= x <= top ==> round(round(x)) == round(x) && Abs(round(x) - x) <= x / 256.0)
      && (forall x, y :: low <= x <= y <= top ==> round(x) <= round(y))
    }
  }

  // ---------------------------------------------------------------- products and quotients

  function Times(a: real, s: real): real { a * s }

  function Ratio(v: real, s: real): real
    requires s > 0.0
  {
    v / s
  }

  lemma TimesConst(c: real, s: real)
    ensures Times(c, s) == c * s
  {
  }

  lemma RatioTimes(v: real, s: real)
    requires s > 0.0
    ensures Times(Ratio(v, s), s) == v
  {
  }

  lemma TimesRatio(n: real, s: real)
    requires s > 0.0
    ensures Ratio(Times(n, s), s) == n
  {
  }

  lemma TimesDiff(a: real, b: real, s: real)
    ensures Times(a, s) - Times(b, s) == Times(a - b, s)
  {
  }

  lemma TimesMonotone(a: real, b: real, s: real)
    requires s > 0.0
    ensures a <= b <==> Times(a, s) <= Times(b, s)
  {
  }

  lemma TimesAbs(a: real, s: real)
    requires s > 0.0
    ensures Abs(Times(a, s)) == Times(Abs(a), s)
  {
  }

  lemma AbsScaled(a: real, c: real, s: real)
    requires s > 0.0
    ensures Abs(Times(a, s)) <= c * s <==> Abs(a) <= c
    ensures Abs(Times(a, s)) < c * s <==> Abs(a) < c
  {
    TimesConst(c, s);
    TimesAbs(a, s);
    hide Times, Abs;
    TimesMonotone(Abs(a), c, s);
    TimesMonotone(c, Abs(a), s);
  }

  // ---------------------------------------------------------------- quantize

  function AbsMax(x: seq<real>): (m: real)
    ensures m >= 0.0
    ensures forall i :: 0 <= i < |x| ==> Abs(x[i]) <= m
    ensures x != [] ==> exists i :: 0 <= i < |x| && Abs(x[i]) == m
  {
    if x == [] then 0.0
    else
      var rest := AbsMax(x[1..]);
      assert forall i :: 1 <= i < |x| ==> x[i] == x[1..][i - 1];
      assert Abs(x[0]) >= 0.0;
      if Abs(x[0]) >= rest then Abs(x[0]) else rest
  }

  datatype Quantized = Quantized(levels: seq<int>, scale: real)

  function ScaleFor(amax: real, dt: ScaleType): real {
    dt.round(Max(amax, FLOOR_AMAX) / 127.0)
  }

  /** With a scale stored as zero the code divides by zero; what level results is immaterial, since
      every level of such a column is restored as zero, and 0 stands for it here. */
  function Level(v: real, scale: real): int {
    if scale > 0.0 then Clamp(Round(Ratio(v, scale))) else 0
  }

  function Quantize(x: seq<real>, dt: ScaleType): (q: Quantized) {
    var s := ScaleFor(AbsMax(x), dt);
    Quantized(seq(|x|, i requires 0 <= i < |x| => Level(x[i], s)), s)
  }

  function Dequantize(q: Quantized): seq<real> {
    seq(|q.levels|, i requires 0 <= i < |q.levels| => Times(q.levels[i] as real, q.scale))
  }

  // ---------------------------------------------------------------- error bound

  lemma ClampedRound(r: real)
    ensures Abs(Clamp(Round(r)) as real - r) <= 0.5 <==> Abs(r) <= 127.5
    ensures Abs(r) < 127.5 ==> Clamp(Round(r)) == Round(r)
  {
    RoundIsNearest(r, 0);
  }

  /** For any scale at all, an entry is reconstructed within half a scale exactly when it is at
      most 127.5 scales away from zero; short of that the clamp does not act. */
  lemma ErrorWithinHalfScaleIff(v: real, s: real)
    requires s > 0.0
    ensures Abs(Times(Level(v, s) as real, s) - v) <= 0.5 * s <==> Abs(v) <= 127.5 * s
    ensures Abs(v) < 127.5 * s ==> Level(v, s) == Round(Ratio(v, s))
  {
    var r := Ratio(v, s);
    ClampedRound(r);
    var l := Level(v, s) as real;
    hide Times, Ratio, Abs, Level, Clamp, Round;
    RatioTimes(v, s);
    TimesDiff(l, r, s);
    AbsScaled(r, 127.5, s);
    AbsScaled(l - r, 0.5, s);
  }

  /** The column's scale is in the range the type stores faithfully. */
  predicate InRange(amax: real, dt: ScaleType) {
    127.0 * dt.low <= Max(amax, FLOOR_AMAX) <= 127.0 * dt.top
  }

  /** What the stored scale does to the largest entry: 126.5 s < amax < 127.5 s. */
  lemma ScaleBrackets(amax: real, dt: ScaleType)
    requires dt.Valid() && InRange(amax, dt)
    ensures var s := ScaleFor(amax, dt);
            && s > 0.0 && dt.low <= s <= dt.top
            && Max(amax, FLOOR_AMAX) < 127.5 * s
            && 126.5 * s < Max(amax, FLOOR_AMAX)
            && dt.round(s) == s
  {
    var t := Max(amax, FLOOR_AMAX) / 127.0;
    assert dt.low <= t <= dt.top;
    assert Abs(dt.round(t) - t) <= t / 256.0;
    assert dt.round(dt.low) <= dt.round(t) <= dt.round(dt.top);
  }

  /** For any scale type and any scale but zero: every entry is reconstructed within half the stored
      scale exactly when the largest one is at most 127.5 scales. */
  lemma ReconstructionErrorIff(x: seq<real>, dt: ScaleType)
    requires ScaleFor(AbsMax(x), dt) > 0.0 && x != []
    ensures var q := Quantize(x, dt);
            (forall i :: 0 <= i < |x| ==> Abs(Dequantize(q)[i] - x[i]) <= 0.5 * q.scale) <==> AbsMax(x) <= 127.5 * q.scale
  {
    hide ScaleFor, AbsMax, Level, Times, Ratio, Abs;
    var q := Quantize(x, dt);
    RestoredEntries(x, q.scale, Dequantize(q));
  }

  lemma RestoredEntries(x: seq<real>, s: real, y: seq<real>)
    requires s > 0.0 && x != [] && |y| == |x| && forall i :: 0 <= i < |x| ==> y[i] == Times(Level(x[i], s) as real, s)
    ensures (forall i :: 0 <= i < |x| ==> Abs(y[i] - x[i]) <= 0.5 * s) <==> AbsMax(x) <= 127.5 * s
  {
    hide AbsMax, Level, Times, Ratio, Abs;
    forall i | 0 <= i < |x| ensures Abs(y[i] - x[i]) <= 0.5 * s <==> Abs(x[i]) <= 127.5 * s {
      ErrorWithinHalfScaleIff(x[i], s);
    }
    var k :| 0 <= k < |x| && Abs(x[k]) == AbsMax(x);
    assert Abs(y[k] - x[k]) <= 0.5 * s <==> Abs(x[k]) <= 127.5 * s;
  }

  /** Every entry is reconstructed within half the stored scale, and the clamp never acts. */
  lemma ReconstructionError(x: seq<real>, dt: ScaleType, i: nat)
    requires dt.Valid() && InRange(AbsMax(x), dt) && i < |x|
    ensures var q := Quantize(x, dt);
            && Abs(Dequantize(q)[i] - x[i]) <= 0.5 * q.scale
            && Within(q.levels[i], QMAX)
            && q.scale > 0.0
            && q.levels[i] == Round(Ratio(x[i], q.scale))
  {
    var s := ScaleFor(AbsMax(x), dt);
    ScaleBrackets(AbsMax(x), dt);
    assert Abs(x[i]) < 127.5 * s;
    LevelIsWithin(x[i], s);
    hide ScaleType.Valid, ScaleFor, AbsMax, Round, Clamp, Level, Times, Ratio, Abs;
    ErrorWithinHalfScaleIff(x[i], s);
  }

  lemma LevelIsWithin(v: real, s: real)
    ensures Within(Level(v, s), QMAX)
  {
  }

  // ---------------------------------------------------------------- no drift

  /** A level times the scale comes back as the same level. */
  lemma LevelOfLevel(n: int, s: real)
    requires s > 0.0 && Within(n, QMAX)
    ensures Level(Times(n as real, s), s) == n
  {
    hide Times, Ratio;
    TimesRatio(n as real, s);
    RoundOfInteger(n);
  }

  lemma RoundMonotone(a: real, b: real)
    requires a <= b
    ensures Round(a) <= Round(b)
  {
  }

  lemma RoundOdd(a: real)
    ensures Round(-a) == -Round(a)
  {
    assert a.Floor as real <= a < a.Floor as real + 1.0;
  }

  lemma RatioMonotone(a: real, b: real, u: real)
    requires u > 0.0 && a <= b
    ensures Ratio(a, u) <= Ratio(b, u)
  {
    hide Times, Ratio;
    RatioTimes(a, u);
    RatioTimes(b, u);
    TimesMonotone(Ratio(b, u), Ratio(a, u), u);
  }

  lemma LevelMonotone(a: real, b: real, s: real)
    requires a <= b
    ensures Level(a, s) <= Level(b, s)
  {
    hide Ratio, Round;
    if s > 0.0 {
      RatioMonotone(a, b, s);
      RoundMonotone(Ratio(a, s), Ratio(b, s));
    }
  }

  lemma RatioOdd(v: real, s: real)
    requires s > 0.0
    ensures Ratio(-v, s) == -Ratio(v, s)
  {
    RatioTimes(v, s);
    RatioTimes(-v, s);
  }

  lemma LevelOfAbs(v: real, s: real)
    ensures Level(Abs(v), s) == (if v < 0.0 then -Level(v, s) else Level(v, s)) && Level(Abs(v), s) >= 0
  {
    hide Ratio, Round;
    if s > 0.0 {
      RatioOdd(v, s);
      RoundOdd(Ratio(v, s));
      assert Level(0.0, s) == 0 by { TimesRatio(0.0, s); TimesConst(0.0, s); RoundOfInteger(0); }
      LevelMonotone(0.0, Abs(v), s);
    }
  }

  lemma AbsRestored(v: real, s: real)
    ensures s > 0.0 ==> Abs(Times(Level(v, s) as real, s)) == Times(Level(Abs(v), s) as real, s)
    ensures s <= 0.0 ==> Times(Level(v, s) as real, s) == 0.0
  {
    TimesConst(0.0, s);
    if s > 0.0 {
      LevelOfAbs(v, s);
      TimesAbs(Level(v, s) as real, s);
    }
    hide Times, Level;
  }

  /** The largest restored entry is the restored largest entry. */
  lemma LargestRestored(x: seq<real>, s: real, y: seq<real>)
    requires |y| == |x| && forall i :: 0 <= i < |x| ==> y[i] == Times(Level(x[i], s) as real, s)
    ensures AbsMax(y) == Times(Level(AbsMax(x), s) as real, s)
  {
    hide Times, Level, AbsMax, Abs;
    TimesConst(0.0, s);
    assert Level(0.0, s) == 0 by { ZeroLevel(s); }
    if x == [] || s <= 0.0 {
      ZeroColumn(x, s, y);
    } else {
      forall i | 0 <= i < |y| ensures Abs(y[i]) == Times(Level(Abs(x[i]), s) as real, s) <= Times(Level(AbsMax(x), s) as real, s) {
        AbsRestored(x[i], s);
        LevelMonotone(Abs(x[i]), AbsMax(x), s);
        TimesMonotone(Level(Abs(x[i]), s) as real, Level(AbsMax(x), s) as real, s);
      }
      var k :| 0 <= k < |x| && Abs(x[k]) == AbsMax(x);
      assert Abs(y[k]) == Times(Level(AbsMax(x), s) as real, s);
    }
  }

  lemma ZeroLevel(s: real)
    ensures Level(0.0, s) == 0
  {
    LevelOfAbs(0.0, s);
  }

  lemma ZeroColumn(x: seq<real>, s: real, y: seq<real>)
    requires |y| == |x| && forall i :: 0 <= i < |x| ==> y[i] == Times(Level(x[i], s) as real, s)
    requires x == [] || s <= 0.0
    ensures AbsMax(y) == 0.0 == Times(Level(AbsMax(x), s) as real, s)
  {
    hide Times, Level;
    TimesConst(0.0, s);
    ZeroLevel(s);
    forall i | 0 <= i < |x| ensures y[i] == 0.0 { AbsRestored(x[i], s); }
    AbsRestored(AbsMax(x), s);
  }

  /** The scale found again from the restored largest entry is the stored one. */
  predicate ScaleRecurs(amax: real, dt: ScaleType) {
    var s := ScaleFor(amax, dt);
    ScaleFor(Times(Level(amax, s) as real, s), dt) == s
  }

  /** For any column and any scale type at all, quantizing the restored column gives the same levels
      and scale exactly when its largest entry's scale recurs. */
  lemma QuantizeIsIdempotentIff(x: seq<real>, dt: ScaleType)
    ensures Quantize(Dequantize(Quantize(x, dt)), dt) == Quantize(x, dt) <==> ScaleRecurs(AbsMax(x), dt)
  {
    var q := Quantize(x, dt);
    var s, y := q.scale, Dequantize(q);
    hide Times, Level, AbsMax, ScaleFor;
    LargestRestored(x, s, y);
    forall i | 0 <= i < |x| ensures Level(y[i], s) == q.levels[i] {
      LevelIsWithin(x[i], s);
      if s > 0.0 { LevelOfLevel(q.levels[i], s); } else { NoScaleNoLevel(x[i], s); NoScaleNoLevel(y[i], s); }
    }
  }

  lemma NoScaleNoLevel(v: real, s: real)
    requires s <= 0.0
    ensures Level(v, s) == 0
  {
  }

  lemma ExtremeRound(r: real)
    requires 126.5 < r
    ensures Clamp(Round(r)) == QMAX
  {
  }

  lemma LargestLevel(amax: real, s: real)
    requires s > 0.0 && 126.5 * s < amax
    ensures Level(amax, s) == QMAX
  {
    hide Times, Ratio, Round, Clamp;
    RatioTimes(amax, s);
    TimesConst(126.5, s);
    TimesMonotone(Ratio(amax, s), 126.5, s);
    ExtremeRound(Ratio(amax, s));
  }

  /** Every scale in the faithful range recurs: with the largest level at 127 when the floor did not
      act, and below or at the floor when it did. */
  lemma ScaleIsFixed(amax: real, dt: ScaleType)
    requires dt.Valid() && amax >= 0.0 && InRange(amax, dt)
    ensures ScaleRecurs(amax, dt)
  {
    var s := ScaleFor(amax, dt);
    var m := Level(amax, s);
    ScaleBrackets(amax, dt);
    LevelIsWithin(amax, s);
    LevelOfAbs(amax, s);
    if amax >= FLOOR_AMAX { LargestLevel(amax, s); }
    hide Level;
    if m == QMAX {
      TimesConst(127.0, s);
      FullScaleIsFixed(amax, s, dt);
    } else {
      TimesConst(126.0, s);
      hide ScaleType.Valid, Times;
      TimesMonotone(m as real, 126.0, s);
    }
  }

  lemma FullScaleIsFixed(amax: real, s: real, dt: ScaleType)
    requires dt.Valid() && InRange(amax, dt) && s == ScaleFor(amax, dt) && dt.low <= s <= dt.top && dt.round(s) == s
    ensures ScaleFor(127.0 * s, dt) == s
  {
    if 127.0 * s < FLOOR_AMAX && amax >= FLOOR_AMAX {
      assert dt.round(s) <= dt.round(FLOOR_AMAX / 127.0) <= dt.round(amax / 127.0);
    }
  }

  /** Quantizing a reconstructed column gives the same levels and the same scale. */
  lemma QuantizeIsIdempotent(x: seq<real>, dt: ScaleType)
    requires dt.Valid() && InRange(AbsMax(x), dt)
    ensures Quantize(Dequantize(Quantize(x, dt)), dt) == Quantize(x, dt)
  {
    hide ScaleType.Valid, InRange, ScaleRecurs;
    ScaleIsFixed(AbsMax(x), dt);
    QuantizeIsIdempotentIff(x, dt);
  }

  function RoundTrip(x: seq<real>, dt: ScaleType): seq<real> {
    Dequantize(Quantize(x, dt))
  }

  function RoundTrips(x: seq<real>, dt: ScaleType, n: nat): (y: seq<real>) {
    if n == 0 then x else RoundTrip(RoundTrips(x, dt, n - 1), dt)
  }

  lemma {:induction false} RecurringScaleStays(x: seq<real>, dt: ScaleType, n: nat)
    requires ScaleRecurs(AbsMax(x), dt) && n > 0
    ensures RoundTrips(x, dt, n) == RoundTrip(x, dt)
    decreases n
  {
    if n > 1 {
      RecurringScaleStays(x, dt, n - 1);
      QuantizeIsIdempotentIff(x, dt);
    } else {
      assert RoundTrips(x, dt, 0) == x;
    }
  }

  /** Checkpoints do not drift: any number of store-and-restore cycles gives what one gives. */
  lemma CheckpointsDoNotDrift(x: seq<real>, dt: ScaleType, n: nat)
    requires dt.Valid() && InRange(AbsMax(x), dt) && n > 0
    ensures RoundTrips(x, dt, n) == RoundTrip(x, dt)
  {
    hide ScaleType.Valid, InRange, ScaleRecurs, AbsMax;
    ScaleIsFixed(AbsMax(x), dt);
    RecurringScaleStays(x, dt, n);
  }

  /** The unrounded scale: amax / 127 or the floor's, within half of which every entry comes back,
      and which is found again. */
  lemma UnroundedScale(x: seq<real>, i: nat)
    requires i < |x|
    ensures var dt := ScaleType(r => r, LOW, Max(AbsMax(x), 1.0));
            var q := Quantize(x, dt);
            && dt.Valid() && q.scale == Max(AbsMax(x), FLOOR_AMAX) / 127.0
            && Abs(Dequantize(q)[i] - x[i]) <= 0.5 * q.scale
            && Quantize(Dequantize(q), dt) == q
  {
    var dt := ScaleType(r => r, LOW, Max(AbsMax(x), 1.0));
    UnroundedIsValid(AbsMax(x));
    hide ScaleType.Valid, InRange, Dequantize, AbsMax, Level;
    ReconstructionError(x, dt, i);
    QuantizeIsIdempotent(x, dt);
  }

  lemma UnroundedIsValid(amax: real)
    ensures var dt := ScaleType(r => r, LOW, Max(amax, 1.0));
            dt.Valid() && InRange(amax, dt) && ScaleFor(amax, dt) == Max(amax, FLOOR_AMAX) / 127.0
  {
  }

  // ---------------------------------------------------------------- restoring into the state's own type

  /** The state has the scale's type: a restored value is rounded to it, whatever its sign. */
  function Cast(dt: ScaleType, v: real): real {
    if v > 0.0 then dt.round(v) else if v < 0.0 then -dt.round(-v) else 0.0
  }

  function Restore(q: Quantized, dt: ScaleType): seq<real> {
    seq(|q.levels|, i requires 0 <= i < |q.levels| => Cast(dt, Times(q.levels[i] as real, q.scale)))
  }

  /** Every restored value of a column with this largest entry is a finite one of the type. */
  predicate Restorable(amax: real, dt: ScaleType) {
    InRange(amax, dt) && 127.0 * ScaleFor(amax, dt) <= dt.top
  }

  /** A multiple of a faithful scale, rounded: off by less than half a scale. */
  lemma CastClose(n: int, s: real, dt: ScaleType)
    requires dt.Valid() && dt.low <= s && 127.0 * s <= dt.top && 1 <= n <= QMAX
    ensures var v := Times(n as real, s);
            dt.low <= v <= dt.top && Cast(dt, v) == dt.round(v) > 0.0 && Abs(Cast(dt, v) - v) <= 127.0 / 256.0 * s
  {
    var v := Times(n as real, s);
    TimesConst(1.0, s);
    TimesConst(127.0, s);
    hide Times;
    TimesMonotone(1.0, n as real, s);
    TimesMonotone(n as real, 127.0, s);
    assert Abs(dt.round(v) - v) <= v / 256.0;
  }

  lemma CastOdd(dt: ScaleType, v: real)
    ensures Cast(dt, -v) == -Cast(dt, v)
  {
  }

  lemma NearLevel(r: real, n: int)
    requires Abs(r - n as real) <= 127.0 / 256.0
    ensures Round(r) == n
  {
  }

  /** A restored level is found again, rounding or not. */
  lemma LevelOfCast(n: int, s: real, dt: ScaleType)
    requires dt.Valid() && dt.low <= s && 127.0 * s <= dt.top && Within(n, QMAX)
    ensures Level(Cast(dt, Times(n as real, s)), s) == n
  {
    var v := Times(n as real, s);
    TimesConst(0.0, s);
    hide Level, Cast, Times;
    if n > 0 {
      PositiveLevelOfCast(n, s, dt);
    } else if n < 0 {
      NegatedTimes(n, s);
      PositiveLevelOfCast(-n, s, dt);
      CastOdd(dt, Times((-n) as real, s));
      var c := Cast(dt, Times((-n) as real, s));
      CastClose(-n, s, dt);
      LevelOfAbs(-c, s);
    } else {
      ZeroLevel(s);
      assert Cast(dt, 0.0) == 0.0 by { CastZero(dt); }
    }
  }

  lemma CastZero(dt: ScaleType)
    ensures Cast(dt, 0.0) == 0.0
  {
  }

  lemma NegatedTimes(n: int, s: real)
    ensures Times(n as real, s) == -Times((-n) as real, s)
  {
  }

  lemma PositiveLevelOfCast(n: int, s: real, dt: ScaleType)
    requires dt.Valid() && dt.low <= s && 127.0 * s <= dt.top && 1 <= n <= QMAX
    ensures Level(Cast(dt, Times(n as real, s)), s) == n
  {
    var c := Cast(dt, Times(n as real, s));
    CastClose(n, s, dt);
    hide Cast, Times, Ratio, Round, Abs, ScaleType.Valid;
    var r := Ratio(c, s);
    RatioTimes(c, s);
    TimesDiff(r, n as real, s);
    AbsScaled(r - n as real, 127.0 / 256.0, s);
    NearLevel(r, n);
  }

  lemma CastMonotone(a: int, b: int, s: real, dt: ScaleType)
    requires dt.Valid() && dt.low <= s && 127.0 * s <= dt.top && 0 <= a <= b <= QMAX
    ensures 0.0 <= Cast(dt, Times(a as real, s)) <= Cast(dt, Times(b as real, s))
  {
    TimesConst(0.0, s);
    hide Times;
    TimesMonotone(a as real, b as real, s);
    if a > 0 { CastClose(a, s, dt); }
    if b > 0 { CastClose(b, s, dt); }
  }

  lemma AbsCast(v: real, s: real, dt: ScaleType)
    requires dt.Valid() && dt.low <= s && 127.0 * s <= dt.top
    ensures Abs(Cast(dt, Times(Level(v, s) as real, s))) == Cast(dt, Times(Level(Abs(v), s) as real, s))
  {
    hide Cast, Times, Level;
    LevelOfAbs(v, s);
    LevelIsWithin(Abs(v), s);
    var n := Level(Abs(v), s);
    CastMonotone(0, n, s, dt);
    TimesConst(0.0, s);
    CastZero(dt);
    if v < 0.0 {
      NegatedTimes(-n, s);
      CastOdd(dt, Times(n as real, s));
    }
  }

  /** The largest restored entry, rounding included. */
  lemma LargestCast(x: seq<real>, s: real, y: seq<real>, dt: ScaleType)
    requires dt.Valid() && dt.low <= s && 127.0 * s <= dt.top
    requires |y| == |x| && forall i :: 0 <= i < |x| ==> y[i] == Cast(dt, Times(Level(x[i], s) as real, s))
    ensures AbsMax(y) == Cast(dt, Times(Level(AbsMax(x), s) as real, s))
  {
    hide Times, Level, AbsMax, Abs, Cast, ScaleType.Valid;
    if x == [] {
      EmptyMax();
      ZeroLevel(s);
      TimesConst(0.0, s);
      CastZero(dt);
    } else {
      forall i | 0 <= i < |y| ensures Abs(y[i]) <= Cast(dt, Times(Level(AbsMax(x), s) as real, s)) {
        AbsCast(x[i], s, dt);
        LevelMonotone(Abs(x[i]), AbsMax(x), s);
        LevelIsWithin(AbsMax(x), s);
        LevelOfAbs(x[i], s);
        CastMonotone(Level(Abs(x[i]), s), Level(AbsMax(x), s), s, dt);
      }
      var k :| 0 <= k < |x| && Abs(x[k]) == AbsMax(x);
      AbsCast(x[k], s, dt);
      assert Abs(y[k]) == Cast(dt, Times(Level(AbsMax(x), s) as real, s));
    }
  }

  lemma EmptyMax()
    ensures AbsMax([]) == 0.0
  {
  }

  /** The scale found again from the largest restored value is the stored one. */
  predicate CastRecurs(amax: real, dt: ScaleType) {
    var s := ScaleFor(amax, dt);
    ScaleFor(Cast(dt, Times(Level(amax, s) as real, s)), dt) == s
  }

  /** Storing a column again after restoring it in its own type: the levels are always found again,
      and the checkpoint is the same exactly when the scale is. */
  lemma StoreOfRestoreIff(x: seq<real>, dt: ScaleType)
    requires dt.Valid() && Restorable(AbsMax(x), dt)
    ensures Quantize(Restore(Quantize(x, dt), dt), dt) == Quantize(x, dt) <==> CastRecurs(AbsMax(x), dt)
    ensures Quantize(Restore(Quantize(x, dt), dt), dt).scale
            == ScaleFor(Cast(dt, Times(Level(AbsMax(x), ScaleFor(AbsMax(x), dt)) as real, ScaleFor(AbsMax(x), dt))), dt)
  {
    ScaleBrackets(AbsMax(x), dt);
    var q := Quantize(x, dt);
    var s, y := q.scale, Restore(q, dt);
    hide Times, Level, AbsMax, ScaleFor, Cast, ScaleType.Valid;
    LargestCast(x, s, y, dt);
    forall i | 0 <= i < |x| ensures Level(y[i], s) == q.levels[i] {
      LevelIsWithin(x[i], s);
      LevelOfCast(q.levels[i], s, dt);
    }
  }

  /** Rounded to the state's type, an entry still comes back less than a scale away. */
  lemma RestoredWithinAScale(x: seq<real>, dt: ScaleType, i: nat)
    requires dt.Valid() && Restorable(AbsMax(x), dt) && i < |x|
    ensures Abs(Restore(Quantize(x, dt), dt)[i] - x[i]) < Quantize(x, dt).scale
  {
    hide Times, Ratio, Round, Level, AbsMax, ScaleFor, Cast, ScaleType.Valid, Restorable, Within;
    RestorableScale(AbsMax(x), dt);
    ReconstructionError(x, dt, i);
    var q := Quantize(x, dt);
    CastNear(q.levels[i], q.scale, dt);
  }

  lemma RestorableScale(amax: real, dt: ScaleType)
    requires dt.Valid() && Restorable(amax, dt)
    ensures InRange(amax, dt) && 0.0 < dt.low <= ScaleFor(amax, dt) && 127.0 * ScaleFor(amax, dt) <= dt.top
  {
    ScaleBrackets(amax, dt);
  }

  lemma CastNear(n: int, s: real, dt: ScaleType)
    requires dt.Valid() && 0.0 < dt.low <= s && 127.0 * s <= dt.top && Within(n, QMAX)
    ensures Abs(Cast(dt, Times(n as real, s)) - Times(n as real, s)) <= 127.0 / 256.0 * s
  {
    TimesConst(0.0, s);
    hide Times, Cast, ScaleType.Valid;
    if n > 0 {
      CastClose(n, s, dt);
    } else if n < 0 {
      NegatedTimes(n, s);
      CastClose(-n, s, dt);
      CastOdd(dt, Times((-n) as real, s));
    } else {
      CastZero(dt);
    }
  }
}
