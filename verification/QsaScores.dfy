/** The indexer's score of one query row against one key: over the heads, the sum of the
    positive parts of the dot products.  Exact reals stand for the tensor-core arithmetic. */
module QsaScores {
  import opened RealSums

  datatype Logit = NegInf | Fin(value: real)

  function Dot(a: seq<real>, b: seq<real>): real {
    if a == [] || b == [] then 0.0 else a[0] * b[0] + Dot(a[1..], b[1..])
  }

  function Relu(x: real): real { if x > 0.0 then x else 0.0 }

  function Score(heads: seq<seq<real>>, key: seq<real>): real {
    if heads == [] then 0.0 else Score(heads[..|heads| - 1], key) + Relu(Dot(heads[|heads| - 1], key))
  }

  function Zeros(n: nat): (z: seq<real>)
    ensures |z| == n && forall i :: 0 <= i < n ==> z[i] == 0.0
  {
    seq(n, _ => 0.0)
  }

  // ---------------------------------------------------------------- what a score is, as a relation

  /** x is the inner product of a and b: the sum of their entries' products. */
  ghost predicate IsInner(a: seq<real>, b: seq<real>, x: real) {
    exists terms: seq<real> :: AreProducts(a, b, terms) && AddsUp(terms, x)
  }

  ghost predicate AreProducts(a: seq<real>, b: seq<real>, terms: seq<real>) {
    && |terms| == (if |a| < |b| then |a| else |b|)
    && forall i :: 0 <= i < |terms| ==> terms[i] == a[i] * b[i]
  }

  /** part is the larger of x and zero. */
  ghost predicate IsPositivePart(x: real, part: real) {
    part >= x && part >= 0.0 && (part == x || part == 0.0)
  }

  /** s is the sum over the heads of the positive part of the head's inner product with the key. */
  ghost predicate IsHeadSum(heads: seq<seq<real>>, key: seq<real>, s: real) {
    exists inner: seq<real>, parts: seq<real> :: AreHeadParts(heads, key, inner, parts) && AddsUp(parts, s)
  }

  ghost predicate AreHeadParts(heads: seq<seq<real>>, key: seq<real>, inner: seq<real>, parts: seq<real>) {
    && |inner| == |parts| == |heads|
    && forall h :: 0 <= h < |heads| ==> IsInner(heads[h], key, inner[h]) && IsPositivePart(inner[h], parts[h])
  }

  lemma InnerIsUnique(a: seq<real>, b: seq<real>, x: real, y: real)
    requires IsInner(a, b, x) && IsInner(a, b, y)
    ensures x == y
  {
    var s :| AreProducts(a, b, s) && AddsUp(s, x);
    var t :| AreProducts(a, b, t) && AddsUp(t, y);
    assert s == t;
    AddsUpOnce(s, x, y);
  }

  /** The relation leaves one score only. */
  lemma HeadSumIsUnique(heads: seq<seq<real>>, key: seq<real>, x: real, y: real)
    requires IsHeadSum(heads, key, x) && IsHeadSum(heads, key, y)
    ensures x == y
  {
    var i, p :| AreHeadParts(heads, key, i, p) && AddsUp(p, x);
    var j, r :| AreHeadParts(heads, key, j, r) && AddsUp(r, y);
    forall h | 0 <= h < |heads| ensures p[h] == r[h] { InnerIsUnique(heads[h], key, i[h], j[h]); }
    assert p == r;
    AddsUpOnce(p, x, y);
  }

  lemma ProductsFirst(a: seq<real>, b: seq<real>, rest: seq<real>)
    requires a != [] && b != [] && AreProducts(a[1..], b[1..], rest)
    ensures AreProducts(a, b, [a[0] * b[0]] + rest)
  {
    var terms := [a[0] * b[0]] + rest;
    forall i | 0 < i < |terms| ensures terms[i] == a[i] * b[i] {
      assert rest[i - 1] == a[1..][i - 1] * b[1..][i - 1];
    }
  }

  lemma {:induction false} DotIsInner(a: seq<real>, b: seq<real>)
    ensures IsInner(a, b, Dot(a, b))
    decreases |a|
  {
    if a == [] || b == [] {
      NothingAddsUp();
      assert AreProducts(a, b, []);
    } else {
      DotIsInner(a[1..], b[1..]);
      var rest :| AreProducts(a[1..], b[1..], rest) && AddsUp(rest, Dot(a[1..], b[1..]));
      ProductsFirst(a, b, rest);
      AddsUpFirst(a[0] * b[0], rest, Dot(a[1..], b[1..]));
      hide AreProducts, AddsUp;
      assert AreProducts(a, b, [a[0] * b[0]] + rest);
    }
  }

  lemma OneMoreHead(front: seq<seq<real>>, last: seq<real>, key: seq<real>, s: real)
    requires IsHeadSum(front, key, s)
    ensures IsHeadSum(front + [last], key, s + Relu(Dot(last, key)))
  {
    DotIsInner(last, key);
    var d := Dot(last, key);
    hide IsInner, AddsUp, Dot;
    var inner, parts :| AreHeadParts(front, key, inner, parts) && AddsUp(parts, s);
    AddsUpLast(parts, Relu(d), s);
    assert AreHeadParts(front + [last], key, inner + [d], parts + [Relu(d)]);
  }

  /** The score is the head sum, and the only one. */
  lemma {:induction false} ScoreIsHeadSum(heads: seq<seq<real>>, key: seq<real>)
    ensures IsHeadSum(heads, key, Score(heads, key))
    ensures forall s :: IsHeadSum(heads, key, s) ==> s == Score(heads, key)
    decreases |heads|
  {
    if heads == [] {
      NothingAddsUp();
      assert AreHeadParts(heads, key, [], []);
    } else {
      var front, last := heads[..|heads| - 1], heads[|heads| - 1];
      ScoreIsHeadSum(front, key);
      OneMoreHead(front, last, key, Score(front, key));
      assert heads == front + [last];
    }
    hide IsHeadSum;
    forall s | IsHeadSum(heads, key, s) ensures s == Score(heads, key) {
      HeadSumIsUnique(heads, key, s, Score(heads, key));
    }
  }

  /** A finite cell holds the head sum divided by the scale. */
  ghost predicate HoldsHeadSum(cell: Logit, heads: seq<seq<real>>, key: seq<real>, scale: real)
    requires scale != 0.0
  {
    exists s :: IsHeadSum(heads, key, s) && cell == Fin(s / scale)
  }

  lemma ScaledScoreHolds(heads: seq<seq<real>>, key: seq<real>, scale: real)
    requires scale != 0.0
    ensures HoldsHeadSum(Fin(Score(heads, key) / scale), heads, key, scale)
  {
    ScoreIsHeadSum(heads, key);
  }

  // ---------------------------------------------------------------- laws of the score

  lemma {:induction false} DotZero(z: seq<real>, b: seq<real>)
    requires forall i :: 0 <= i < |z| ==> z[i] == 0.0
    ensures Dot(z, b) == 0.0
    decreases |z|
  {
    if z != [] && b != [] { DotZero(z[1..], b[1..]); }
  }

  function Unit(n: nat, i: nat): seq<real> { seq(n, j => if j == i then 1.0 else 0.0) }

  lemma SplitProduct(x: real, a: real, y: real, b: real, c: real)
    ensures (x * a + y * b) * c == x * (a * c) + y * (b * c)
  {
    assert (x * a + y * b) * c == (x * a) * c + (y * b) * c;
  }

  /** Dot is linear in the head ... */
  lemma {:induction false} DotIsLinear(x: real, a: seq<real>, y: real, b: seq<real>, both: seq<real>, key: seq<real>)
    requires |a| == |b| == |both| && forall i :: 0 <= i < |both| ==> both[i] == x * a[i] + y * b[i]
    ensures Dot(both, key) == x * Dot(a, key) + y * Dot(b, key)
    decreases |a|
  {
    if a != [] && key != [] {
      DotIsLinear(x, a[1..], y, b[1..], both[1..], key[1..]);
      SplitProduct(x, a[0], y, b[0], key[0]);
    }
  }

  /** ... and a unit head picks the key's entry. */
  lemma {:induction false} DotOfUnit(n: nat, i: nat, key: seq<real>)
    requires i < n && i < |key|
    ensures Dot(Unit(n, i), key) == key[i]
    decreases n
  {
    if i == 0 {
      DotZero(Unit(n, i)[1..], key[1..]);
    } else {
      assert Unit(n, i)[1..] == Unit(n - 1, i - 1);
      DotOfUnit(n - 1, i - 1, key[1..]);
    }
  }

  lemma {:induction false} ScoreOfHeads(a: seq<seq<real>>, b: seq<seq<real>>, key: seq<real>)
    ensures Score(a + b, key) == Score(a, key) + Score(b, key)
    ensures Score(b, key) >= 0.0
    decreases |b|
  {
    if b == [] {
      assert a + b == a;
    } else {
      assert (a + b)[..|a + b| - 1] == a + b[..|b| - 1];
      ScoreOfHeads(a, b[..|b| - 1], key);
    }
  }

  lemma OneHead(head: seq<real>, key: seq<real>)
    ensures Score([head], key) == Relu(Dot(head, key))
  {
    assert Score([head], key) == Score([], key) + Relu(Dot(head, key));
  }

  /** Scores are never negative and add over groups of heads; a head and its negation have one
      zero score between them, and their difference is the inner product. */
  lemma ScoreLaws(a: seq<seq<real>>, b: seq<seq<real>>, head: seq<real>, negated: seq<real>, key: seq<real>)
    requires |negated| == |head| && forall i :: 0 <= i < |head| ==> negated[i] == -head[i]
    ensures Score(a, key) >= 0.0
    ensures Score(a + b, key) == Score(a, key) + Score(b, key)
    ensures Score([head], key) - Score([negated], key) == Dot(head, key)
    ensures Score([head], key) == 0.0 || Score([negated], key) == 0.0
  {
    OneHead(head, key);
    OneHead(negated, key);
    hide Dot, Score;
    ScoreOfHeads([], a, key);
    ScoreOfHeads(a, b, key);
    DotIsLinear(-1.0, head, 0.0, head, negated, key);
  }

  /** Zero query heads appended for the MMA layout do not change the weight-free head sum. */
  lemma {:induction false} ZeroHeadsKeepScore(heads: seq<seq<real>>, extra: nat, dim: nat, key: seq<real>)
    ensures Score(heads + seq(extra, _ => Zeros(dim)), key) == Score(heads, key)
    decreases extra
  {
    var padded := heads + seq(extra, _ => Zeros(dim));
    if extra == 0 {
      assert padded == heads;
    } else {
      assert padded[..|padded| - 1] == heads + seq(extra - 1, _ => Zeros(dim));
      ZeroHeadsKeepScore(heads, extra - 1, dim, key);
      DotZero(Zeros(dim), key);
    }
  }
}
