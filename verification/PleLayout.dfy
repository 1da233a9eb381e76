/** The token layout of one PLE batch: flat tokens of several requests, the request and offset
    of each position, and the scatter into one padded row per request. */
module PleLayout {

  // ---------------------------------------------------------------- ragged extend rows

  /** cat([0], cumsum(lengths)) */
  function QueryStart(lengths: seq<nat>, r: nat): nat
    requires r <= |lengths|
  {
    if r == 0 then 0 else QueryStart(lengths, r - 1) + lengths[r - 1]
  }

  function Total(lengths: seq<nat>): nat { QueryStart(lengths, |lengths|) }

  lemma {:induction false} QueryStartMonotone(lengths: seq<nat>, a: nat, b: nat)
    requires a <= b <= |lengths|
    ensures QueryStart(lengths, a) <= QueryStart(lengths, b)
    decreases b
  {
    if a < b { QueryStartMonotone(lengths, a, b - 1); }
  }

  /** searchsorted(query_start_loc, p, right=True): how many of the first n starts are <= p. */
  function SearchSortedRight(lengths: seq<nat>, p: nat, n: nat): (k: nat)
    requires n <= |lengths| + 1
    ensures k <= n
  {
    if n == 0 then 0
    else SearchSortedRight(lengths, p, n - 1) + if QueryStart(lengths, n - 1) <= p then 1 else 0
  }

  /** The request of a position: the search result less one, clamped to the last request. */
  function RequestOf(lengths: seq<nat>, p: nat): int
    requires lengths != []
  {
    var r := SearchSortedRight(lengths, p, |lengths| + 1) - 1;
    if r < 0 then 0 else if r > |lengths| - 1 then |lengths| - 1 else r
  }

  lemma {:induction false} SearchFinds(lengths: seq<nat>, p: nat, r: nat, n: nat)
    requires r < |lengths| && n <= |lengths| + 1
    requires QueryStart(lengths, r) <= p < QueryStart(lengths, r + 1)
    ensures SearchSortedRight(lengths, p, n) == if n <= r then n else r + 1
    decreases n
  {
    if n > 0 {
      SearchFinds(lengths, p, r, n - 1);
      if n - 1 <= r { QueryStartMonotone(lengths, n - 1, r); } else { QueryStartMonotone(lengths, r + 1, n - 1); }
    }
  }

  /** Every token's position is traced back to its own request; empty requests are skipped. */
  lemma RequestFound(lengths: seq<nat>, r: nat, o: nat)
    requires r < |lengths| && o < lengths[r]
    ensures RequestOf(lengths, PositionOf(lengths, r, o)) == r
  {
    SearchFinds(lengths, QueryStart(lengths, r) + o, r, |lengths| + 1);
  }

  lemma {:induction false} RequestExists(lengths: seq<nat>, p: nat, n: nat) returns (r: nat, o: nat)
    requires n <= |lengths| && p < QueryStart(lengths, n)
    ensures r < n && o < lengths[r] && p == PositionOf(lengths, r, o)
    decreases n
  {
    if p >= QueryStart(lengths, n - 1) {
      r, o := n - 1, p - QueryStart(lengths, n - 1);
    } else {
      r, o := RequestExists(lengths, p, n - 1);
    }
  }

  lemma PastTheEnd(lengths: seq<nat>, p: nat)
    requires lengths != [] && p >= Total(lengths)
    ensures RequestOf(lengths, p) == |lengths| - 1
  {
    SearchAll(lengths, p, |lengths| + 1);
  }

  lemma {:induction false} SearchAll(lengths: seq<nat>, p: nat, n: nat)
    requires n <= |lengths| + 1 && p >= Total(lengths)
    ensures SearchSortedRight(lengths, p, n) == n
    decreases n
  {
    if n > 0 {
      SearchAll(lengths, p, n - 1);
      QueryStartMonotone(lengths, n - 1, |lengths|);
    }
  }

  /** Where token o of request r stands in the flat batch. */
  function PositionOf(lengths: seq<nat>, r: nat, o: nat): (p: nat)
    requires r < |lengths| && o < lengths[r]
    ensures p < Total(lengths)
  {
    QueryStartMonotone(lengths, r + 1, |lengths|);
    QueryStart(lengths, r) + o
  }

  /** The tokens of request r. */
  function Chunk<T>(tokens: seq<T>, lengths: seq<nat>, r: nat): seq<T>
    requires r < |lengths| && Total(lengths) <= |tokens|
    ensures |Chunk(tokens, lengths, r)| == lengths[r]
  {
    QueryStartMonotone(lengths, r + 1, |lengths|);
    tokens[QueryStart(lengths, r)..QueryStart(lengths, r + 1)]
  }

  /** Row r starts with request r's tokens. */
  ghost predicate HoldsChunk<T>(row: seq<T>, chunk: seq<T>, width: nat) {
    |row| == width && |chunk| <= width && row[..|chunk|] == chunk
  }

  ghost predicate Scattered<T>(padded: seq<seq<T>>, tokens: seq<T>, lengths: seq<nat>, width: nat, p: nat)
    requires Total(lengths) <= |tokens|
  {
    && |padded| == |lengths|
    && (forall r :: 0 <= r < |padded| ==> |padded[r]| == width)
    && (forall r, o: nat :: 0 <= r < |lengths| && o < lengths[r] && o < width && PositionOf(lengths, r, o) < p ==>
          padded[r][o] == tokens[PositionOf(lengths, r, o)])
  }

  /** padded[req_indices, token_offsets] = tokens.  The first Total(lengths) positions belong to
      requests; further ones (present only when the row width is the whole batch) land after the
      last request's tokens. */
  method ScatterExtend<T>(tokens: seq<T>, lengths: seq<nat>, width: nat, fill: T) returns (padded: seq<seq<T>>)
    requires Total(lengths) <= |tokens| && (lengths == [] ==> tokens == [])
    requires forall r :: 0 <= r < |lengths| ==> lengths[r] <= width
    requires |tokens| == Total(lengths) || |tokens| <= width
    ensures |padded| == |lengths|
    ensures forall r :: 0 <= r < |lengths| ==> HoldsChunk(padded[r], Chunk(tokens, lengths, r), width)
  {
    padded := seq(|lengths|, _ => seq(width, _ => fill));
    for p := 0 to |tokens|
      invariant Scattered(padded, tokens, lengths, width, p)
    {
      var r := RequestOf(lengths, p);
      if p < Total(lengths) {
        ghost var r0, o0 := RequestExists(lengths, p, |lengths|);
        RequestFound(lengths, r0, o0);
      } else {
        PastTheEnd(lengths, p);
        QueryStartMonotone(lengths, r, |lengths|);
      }
      var o := p - QueryStart(lengths, r);
      ghost var before := padded;
      padded := padded[r := padded[r][o := tokens[p]]];
      ScatterStep(before, padded, tokens, lengths, width, p);
    }
    forall r | 0 <= r < |lengths| ensures HoldsChunk(padded[r], Chunk(tokens, lengths, r), width) {
      RowHoldsChunk(padded, tokens, lengths, width, r);
    }
  }

  lemma ScatterStep<T>(before: seq<seq<T>>, padded: seq<seq<T>>, tokens: seq<T>, lengths: seq<nat>, width: nat, p: nat)
    requires Total(lengths) <= |tokens| && p < |tokens| && lengths != []
    requires Scattered(before, tokens, lengths, width, p)
    requires var r := RequestOf(lengths, p); var o := p - QueryStart(lengths, r);
             0 <= o < width && padded == before[r := before[r][o := tokens[p]]]
    ensures Scattered(padded, tokens, lengths, width, p + 1)
  {
    var r := RequestOf(lengths, p);
    var o := p - QueryStart(lengths, r);
    forall r', o': nat | 0 <= r' < |lengths| && o' < lengths[r'] && o' < width && PositionOf(lengths, r', o') < p + 1
      ensures padded[r'][o'] == tokens[PositionOf(lengths, r', o')]
    {
      RequestFound(lengths, r', o');
      if PositionOf(lengths, r', o') < p {
        assert before[r'][o'] == tokens[PositionOf(lengths, r', o')];
      }
    }
  }

  lemma RowHoldsChunk<T>(padded: seq<seq<T>>, tokens: seq<T>, lengths: seq<nat>, width: nat, r: nat)
    requires Total(lengths) <= |tokens| && Scattered(padded, tokens, lengths, width, |tokens|)
    requires r < |lengths| && lengths[r] <= width
    ensures HoldsChunk(padded[r], Chunk(tokens, lengths, r), width)
  {
    var chunk := Chunk(tokens, lengths, r);
    QueryStartMonotone(lengths, r + 1, |lengths|);
    forall o | 0 <= o < |chunk| ensures padded[r][o] == chunk[o] {
      assert padded[r][o] == tokens[PositionOf(lengths, r, o)];
    }
  }

  // ---------------------------------------------------------------- fixed verify rows

  lemma RowStart(r: nat, rows: nat, width: nat)
    requires r < rows
    ensures 0 <= r * width && r * width + width <= rows * width
  {
    if r + 1 < rows { RowStart(r, rows - 1, width); }
  }

  /** Draft row r of a verify batch, valid or not. */
  function Draft<T>(tokens: seq<T>, width: nat, rows: nat, r: nat): (row: seq<T>)
    requires r < rows && |tokens| == rows * width
    ensures |row| == width
  {
    RowStart(r, rows, width);
    tokens[r * width..r * width + width]
  }

  /** Verify rows have a fixed stride; tokens past a row's valid length become the fill. */
  method ScatterVerify<T>(tokens: seq<T>, lengths: seq<nat>, width: nat, fill: T) returns (padded: seq<seq<T>>)
    requires |tokens| == |lengths| * width
    requires forall r :: 0 <= r < |lengths| ==> lengths[r] <= width
    ensures |padded| == |lengths|
    ensures forall r :: 0 <= r < |lengths| ==>
              HoldsChunk(padded[r], Draft(tokens, width, |lengths|, r)[..lengths[r]], width)
  {
    padded := [];
    for r := 0 to |lengths|
      invariant |padded| == r
      invariant forall i :: 0 <= i < r ==>
                  HoldsChunk(padded[i], Draft(tokens, width, |lengths|, i)[..lengths[i]], width)
    {
      var draft := Draft(tokens, width, |lengths|, r);
      var row := seq(width, o requires 0 <= o < width => if o < lengths[r] then draft[o] else fill);
      padded := padded + [row];
    }
  }
}
