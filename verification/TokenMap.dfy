/** The draft vocabulary: mandatory ids first, then the ids seen most often in the corpus. */
module TokenMap {
  import opened Wrappers
  import opened Finite

  datatype SelectError = SpecialNotValid | InvalidSize | MandatoryTooLarge

  type Counts = map<int, nat>

  function Count(counts: Counts, id: int): nat {
    if id in counts then counts[id] else 0
  }

  /** How often an id occurs in the corpus. */
  ghost function Seen(counts: Counts, id: int): nat { if id in counts then counts[id] else 0 }

  /** The sort key (-counts[id], id). */
  predicate Before(counts: Counts, x: int, y: int) {
    Count(counts, x) > Count(counts, y) || (Count(counts, x) == Count(counts, y) && x < y)
  }

  // ---------------------------------------------------------------- sorted

  predicate IsFirst(ids: set<int>, counts: Counts, x: int) {
    x in ids && forall y :: y in ids && y != x ==> Before(counts, x, y)
  }

  lemma SomeMember(ids: set<int>)
    ensures ids == {} || exists x :: x in ids
  {
    if forall y :: y !in ids { assert ids == {}; }
  }

  lemma Member(ids: set<int>) returns (x: int)
    requires ids != {}
    ensures x in ids
  {
    SomeMember(ids);
    x :| x in ids;
  }

  lemma {:induction false} FirstExists(ids: set<int>, counts: Counts) returns (x: int)
    requires ids != {}
    ensures IsFirst(ids, counts, x)
    decreases |ids|
  {
    var z := Member(ids);
    if ids == {z} {
      x := z;
    } else {
      var w := FirstExists(ids - {z}, counts);
      assert forall y :: y in ids ==> y == z || y in ids - {z};
      x := if Before(counts, z, w) then z else w;
    }
  }

  function First(ids: set<int>, counts: Counts): (x: int)
    requires ids != {}
    ensures IsFirst(ids, counts, x)
  {
    assert exists x :: IsFirst(ids, counts, x) by { var w := FirstExists(ids, counts); }
    var x :| IsFirst(ids, counts, x);
    x
  }

  ghost predicate Ordered(s: seq<int>, counts: Counts) {
    forall i, j :: 0 <= i < j < |s| ==> Before(counts, s[i], s[j])
  }

  /** sorted(ids, key = lambda id: (-counts[id], id)); with no counts, sorted(ids). */
  function SortedBy(ids: set<int>, counts: Counts): (s: seq<int>)
    ensures Ordered(s, counts)
    ensures forall x :: x in s <==> x in ids
    ensures |s| == |ids|
    decreases |ids|
  {
    if ids == {} then []
    else
      var x := First(ids, counts);
      [x] + SortedBy(ids - {x}, counts)
  }

  lemma InSuffix(s: seq<int>, i: nat, y: int)
    requires i <= |s| && y in s && y !in s[..i]
    ensures y in s[i..]
  {
    assert s == s[..i] + s[i..];
  }

  lemma OrderedAcross(s: seq<int>, counts: Counts, i: nat, x: int, y: int)
    requires Ordered(s, counts) && i <= |s| && x in s[..i] && y in s[i..]
    ensures Before(counts, x, y)
  {
    var j :| 0 <= j < i && s[..i][j] == x;
    var k :| 0 <= k < |s| - i && s[i..][k] == y;
    assert s[j] == x && s[i + k] == y;
  }

  // ---------------------------------------------------------------- what the choice promises

  function Base(valid: set<int>, baseCount: nat): set<int>
    requires baseCount <= |valid|
  {
    Elements(SortedBy(valid, map[])[..baseCount])
  }

  /** The base ids are the smallest ones. */
  lemma BaseIsSmallest(valid: set<int>, baseCount: nat, x: int, y: int)
    requires baseCount <= |valid| && x in Base(valid, baseCount) && y in valid - Base(valid, baseCount)
    ensures |Base(valid, baseCount)| == baseCount && Base(valid, baseCount) <= valid && x < y
  {
    var s := SortedBy(valid, map[]);
    DistinctElements(s[..baseCount]);
    InSuffix(s, baseCount, y);
    OrderedAcross(s, map[], baseCount, x, y);
  }

  lemma DistinctElements(s: seq<int>)
    requires Ordered(s, map[])
    ensures |Elements(s)| == |s|
  {
    DistinctSize(s);
  }

  /** The order in which ids outside the mandatory ones are taken: by count, then ids that occur
      in the counts at all, then by id. */
  ghost predicate Preferred(counts: Counts, x: int, y: int) {
    Seen(counts, x) > Seen(counts, y)
    || (Seen(counts, x) == Seen(counts, y)
        && ((x in counts && y !in counts) || ((x in counts <==> y in counts) && x < y)))
  }

  /** `chosen` holds the mandatory ids and, of the other valid ones, only most preferred ones. */
  ghost predicate Greedy(chosen: set<int>, valid: set<int>, mandatory: set<int>, counts: Counts) {
    && mandatory <= chosen <= valid
    && forall x, y :: x in chosen - mandatory && y in valid - chosen ==> Preferred(counts, x, y)
  }

  ghost function Total(counts: Counts, ids: set<int>): nat
    decreases |ids|
  {
    if ids == {} then 0
    else
      var x := First(ids, map[]);
      Seen(counts, x) + Total(counts, ids - {x})
  }

  lemma {:induction false} TotalRemove(counts: Counts, ids: set<int>, x: int)
    requires x in ids
    ensures Total(counts, ids) == Seen(counts, x) + Total(counts, ids - {x})
    decreases |ids|
  {
    var f := First(ids, map[]);
    if f != x {
      TotalRemove(counts, ids - {f}, x);
      TotalRemove(counts, ids - {x}, f);
      assert ids - {f} - {x} == ids - {x} - {f};
    }
  }

  lemma {:induction false} TotalUnion(counts: Counts, a: set<int>, b: set<int>)
    requires a !! b
    ensures Total(counts, a + b) == Total(counts, a) + Total(counts, b)
    decreases |a|
  {
    if a == {} {
      assert a + b == b;
    } else {
      var x := Member(a);
      TotalRemove(counts, a, x);
      TotalRemove(counts, a + b, x);
      TotalUnion(counts, a - {x}, b);
      assert a + b - {x} == (a - {x}) + b;
    }
  }

  /** The exchange: equally many ids, each counted at least as often, total at least as much. */
  lemma {:induction false} Exchange(counts: Counts, a: set<int>, b: set<int>)
    requires |a| == |b|
    requires forall x, y :: x in a && y in b ==> Seen(counts, x) >= Seen(counts, y)
    ensures Total(counts, a) >= Total(counts, b)
    decreases |a|
  {
    if a != {} {
      var x := Member(a);
      var y := Member(b);
      TotalRemove(counts, a, x);
      TotalRemove(counts, b, y);
      Exchange(counts, a - {x}, b - {y});
    }
  }

  lemma DifferenceSizes(a: set<int>, b: set<int>)
    requires |a| == |b|
    ensures |a - b| == |b - a|
  {
    assert a == (a - b) + (a * b) && b == (b - a) + (a * b);
    assert |a| == |a - b| + |a * b|;
    assert |b| == |b - a| + |a * b|;
  }

  /** No set of the same size that holds the mandatory ids covers more of the corpus. */
  lemma GreedyIsOptimal(chosen: set<int>, other: set<int>, valid: set<int>, mandatory: set<int>, counts: Counts)
    requires Greedy(chosen, valid, mandatory, counts)
    requires mandatory <= other <= valid && |other| == |chosen|
    ensures Total(counts, other) <= Total(counts, chosen)
  {
    DifferenceSizes(chosen, other);
    forall x, y | x in chosen - other && y in other - chosen
      ensures Seen(counts, x) >= Seen(counts, y)
    {
      assert Preferred(counts, x, y);
    }
    Exchange(counts, chosen - other, other - chosen);
    TotalUnion(counts, chosen - other, chosen * other);
    TotalUnion(counts, other - chosen, chosen * other);
    assert chosen == (chosen - other) + (chosen * other);
    assert other == (other - chosen) + (chosen * other);
  }

  lemma PreferredIsStrict(counts: Counts, x: int, y: int)
    ensures !(Preferred(counts, x, y) && Preferred(counts, y, x))
  {
  }

  /** The selection is deterministic: only one set of a given size is greedy. */
  lemma GreedyIsUnique(a: set<int>, b: set<int>, valid: set<int>, mandatory: set<int>, counts: Counts)
    requires Greedy(a, valid, mandatory, counts) && Greedy(b, valid, mandatory, counts)
    requires |a| == |b|
    ensures a == b
  {
    DifferenceSizes(a, b);
    if a - b != {} {
      var x := Member(a - b);
      var y := Member(b - a);
      PreferredIsStrict(counts, x, y);
    }
  }

  // ---------------------------------------------------------------- select_ids

  /** The mandatory ids and the valid ones among the first i ranked. */
  ghost function Taken(mandatory: set<int>, valid: set<int>, ranked: seq<int>, i: nat): set<int>
    requires i <= |ranked|
  {
    mandatory + (Elements(ranked[..i]) * valid)
  }

  lemma TakenSteps(mandatory: set<int>, valid: set<int>, ranked: seq<int>, i: nat)
    requires i <= |ranked| && mandatory <= valid
    ensures i == 0 ==> Taken(mandatory, valid, ranked, i) == mandatory
    ensures i == |ranked| ==> forall id :: id in ranked && id in valid ==> id in Taken(mandatory, valid, ranked, i)
    ensures i < |ranked| ==>
      Taken(mandatory, valid, ranked, i + 1)
      == Taken(mandatory, valid, ranked, i) + if ranked[i] in valid then {ranked[i]} else {}
  {
    if i < |ranked| { ElementsStep(ranked, i); } else { assert ranked[..i] == ranked; }
  }

  /** Every valid id that is still left out occurs in no count and is not among the first i. */
  ghost predicate LeftAreLater(chosen: set<int>, valid: set<int>, counts: Counts, ascending: seq<int>, i: nat)
    requires i <= |ascending|
  {
    counts.Keys * valid <= chosen && Elements(ascending[..i]) <= chosen
  }

  /** What the first loop has chosen when it stops, early or not. */
  lemma RankedPrefixIsGreedy(chosen: set<int>, valid: set<int>, mandatory: set<int>, counts: Counts,
                             ranked: seq<int>, i: nat)
    requires mandatory <= valid && ranked == SortedBy(counts.Keys, counts) && i <= |ranked|
    requires chosen == Taken(mandatory, valid, ranked, i)
    ensures Greedy(chosen, valid, mandatory, counts)
  {
    forall x, y | x in chosen - mandatory && y in valid - chosen ensures Preferred(counts, x, y) {
      assert x in ranked[..i] && x in ranked;
      if y in counts {
        InSuffix(ranked, i, y);
        OrderedAcross(ranked, counts, i, x, y);
      }
    }
  }

  lemma AllCountedIn(chosen: set<int>, valid: set<int>, mandatory: set<int>, counts: Counts,
                     ranked: seq<int>, ascending: seq<int>)
    requires mandatory <= valid && ranked == SortedBy(counts.Keys, counts)
    requires chosen == Taken(mandatory, valid, ranked, |ranked|)
    ensures LeftAreLater(chosen, valid, counts, ascending, 0)
  {
    TakenSteps(mandatory, valid, ranked, |ranked|);
  }

  /** One step of the second loop: every counted id is in already, so the smallest is next. */
  lemma NextKeepsGreedy(chosen: set<int>, valid: set<int>, mandatory: set<int>, counts: Counts,
                        ascending: seq<int>, i: nat)
    requires ascending == SortedBy(valid, map[]) && i < |ascending|
    requires Greedy(chosen, valid, mandatory, counts) && LeftAreLater(chosen, valid, counts, ascending, i)
    ensures Greedy(chosen + {ascending[i]}, valid, mandatory, counts)
    ensures LeftAreLater(chosen + {ascending[i]}, valid, counts, ascending, i + 1)
  {
    var next := ascending[i];
    assert next in ascending;
    ElementsStep(ascending, i);
    forall x, y | x in chosen + {next} - mandatory && y in valid - (chosen + {next})
      ensures Preferred(counts, x, y)
    {
      if x !in chosen {
        assert ascending[..i + 1] == ascending[..i] + [next];
        assert x in ascending[..i + 1];
        InSuffix(ascending, i + 1, y);
        OrderedAcross(ascending, map[], i + 1, x, y);
      }
    }
  }

  lemma ElementsStep(s: seq<int>, i: nat)
    requires i < |s|
    ensures Elements(s[..i + 1]) == Elements(s[..i]) + {s[i]}
  {
    assert s[..i + 1] == s[..i] + [s[i]];
  }

  lemma AllIn(chosen: set<int>, valid: set<int>, counts: Counts, ascending: seq<int>)
    requires ascending == SortedBy(valid, map[]) && LeftAreLater(chosen, valid, counts, ascending, |ascending|)
    ensures |valid| <= |chosen|
  {
    assert ascending[..|ascending|] == ascending;
    SubsetSize(valid, chosen);
  }

  ghost predicate Ascending(s: seq<int>) {
    forall i, j :: 0 <= i < j < |s| ==> s[i] < s[j]
  }

  lemma OrderedAscends(s: seq<int>)
    ensures Ordered(s, map[]) <==> Ascending(s)
  {
  }

  /** What select_ids has to return. */
  ghost predicate Selected(res: seq<int>, valid: set<int>, mandatory: set<int>, counts: Counts, size: int) {
    |res| == size && Ascending(res) && Greedy(Elements(res), valid, mandatory, counts)
  }

  ghost predicate InvalidBounds(valid: set<int>, size: int, baseCount: int) {
    !(0 <= baseCount <= size <= |valid|)
  }

  /** The first loop: ids in corpus order, until the size is reached. */
  method TakeByCount(counts: Counts, valid: set<int>, mandatory: set<int>, size: nat) returns (chosen: set<int>)
    requires mandatory <= valid && |mandatory| <= size
    ensures Greedy(chosen, valid, mandatory, counts) && |chosen| <= size
    ensures |chosen| == size || LeftAreLater(chosen, valid, counts, SortedBy(valid, map[]), 0)
  {
    hide Greedy, SortedBy, Ordered, First, Taken, LeftAreLater;
    chosen := mandatory;
    var ranked := SortedBy(counts.Keys, counts);
    TakenSteps(mandatory, valid, ranked, 0);
    var i := 0;
    while i < |ranked| && |chosen| != size
      invariant 0 <= i <= |ranked| && |chosen| <= size
      invariant chosen == Taken(mandatory, valid, ranked, i)
    {
      TakenSteps(mandatory, valid, ranked, i);
      if ranked[i] in valid { chosen := chosen + {ranked[i]}; }
      i := i + 1;
    }
    RankedPrefixIsGreedy(chosen, valid, mandatory, counts, ranked, i);
    if i == |ranked| { AllCountedIn(chosen, valid, mandatory, counts, ranked, SortedBy(valid, map[])); }
  }

  /** The second loop: the remaining valid ids from the smallest up, until the size is reached. */
  method FillAscending(taken: set<int>, counts: Counts, valid: set<int>, ghost mandatory: set<int>, size: nat)
      returns (chosen: set<int>)
    requires Greedy(taken, valid, mandatory, counts) && |taken| <= size <= |valid|
    requires |taken| == size || LeftAreLater(taken, valid, counts, SortedBy(valid, map[]), 0)
    ensures Greedy(chosen, valid, mandatory, counts) && |chosen| == size
  {
    hide Greedy, SortedBy, Ordered, First, LeftAreLater;
    chosen := taken;
    var ascending := SortedBy(valid, map[]);
    var i := 0;
    while i < |ascending| && |chosen| != size
      invariant 0 <= i <= |ascending| && |chosen| <= size
      invariant Greedy(chosen, valid, mandatory, counts)
      invariant |chosen| == size || LeftAreLater(chosen, valid, counts, ascending, i)
    {
      NextKeepsGreedy(chosen, valid, mandatory, counts, ascending, i);
      chosen := chosen + {ascending[i]};
      i := i + 1;
    }
    if |chosen| != size { AllIn(chosen, valid, counts, ascending); }
  }

  method SelectIds(counts: Counts, valid: set<int>, special: set<int>, size: int, baseCount: int)
      returns (res: Result<seq<int>, SelectError>)
    ensures match res
      case Err(SpecialNotValid) => !(special <= valid)
      case Err(InvalidSize) => special <= valid && InvalidBounds(valid, size, baseCount)
      case Err(MandatoryTooLarge) =>
        special <= valid && !InvalidBounds(valid, size, baseCount) && |special + Base(valid, baseCount)| > size
      case Ok(ids) =>
        special <= valid && !InvalidBounds(valid, size, baseCount) && |special + Base(valid, baseCount)| <= size
        && Selected(ids, valid, special + Base(valid, baseCount), counts, size)
  {
    if !(special <= valid) { return Err(SpecialNotValid); }
    if !(0 <= baseCount <= size <= |valid|) { return Err(InvalidSize); }
    var chosen := special + Elements(SortedBy(valid, map[])[..baseCount]);
    assert chosen == special + Base(valid, baseCount) && chosen <= valid;
    hide Greedy, Base, SortedBy, LeftAreLater;
    if |chosen| > size { return Err(MandatoryTooLarge); }
    ghost var mandatory := chosen;
    chosen := TakeByCount(counts, valid, chosen, size);
    chosen := FillAscending(chosen, counts, valid, mandatory, size);
    res := Ok(SortedBy(chosen, map[]));
    OrderedAscends(res.value);
    assert Elements(res.value) == chosen;
  }

  /** What is returned covers the most: no other set of `size` valid ids with the mandatory ones
      has a larger corpus count. */
  lemma SelectedIsOptimal(res: seq<int>, other: set<int>, valid: set<int>, mandatory: set<int>, counts: Counts, size: int)
    requires Selected(res, valid, mandatory, counts, size)
    requires mandatory <= other <= valid && |other| == size
    ensures mandatory <= Elements(res) <= valid && |Elements(res)| == size
    ensures Total(counts, other) <= Total(counts, Elements(res))
  {
    OrderedAscends(res);
    DistinctElements(res);
    GreedyIsOptimal(Elements(res), other, valid, mandatory, counts);
  }

  lemma {:induction false} SameElementsSameOrder(s: seq<int>, t: seq<int>)
    requires Ordered(s, map[]) && Ordered(t, map[]) && Elements(s) == Elements(t)
    ensures s == t
    decreases |s|
  {
    DistinctElements(s);
    DistinctElements(t);
    if s != [] {
      assert s[0] in Elements(t) && t[0] in Elements(s);
      assert s == [s[0]] + s[1..] && t == [t[0]] + t[1..];
      assert s[0] == t[0];
      HeadIsOnce(s);
      HeadIsOnce(t);
      SameElementsSameOrder(s[1..], t[1..]);
    }
  }

  lemma HeadIsOnce(s: seq<int>)
    requires s != [] && Ordered(s, map[])
    ensures Elements(s[1..]) == Elements(s) - {s[0]}
  {
    assert forall i :: 0 <= i < |s| - 1 ==> s[1..][i] == s[i + 1];
    assert s == [s[0]] + s[1..];
  }

  /** The promise fixes the answer: the map is the same however the inputs were gathered. */
  lemma SelectedIsUnique(a: seq<int>, b: seq<int>, valid: set<int>, mandatory: set<int>, counts: Counts, size: int)
    requires Selected(a, valid, mandatory, counts, size) && Selected(b, valid, mandatory, counts, size)
    ensures a == b
  {
    DistinctElements(a);
    DistinctElements(b);
    GreedyIsUnique(Elements(a), Elements(b), valid, mandatory, counts);
    SameElementsSameOrder(a, b);
  }
}
