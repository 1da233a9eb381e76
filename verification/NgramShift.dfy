/** The EOS-respecting shift of the n-gram hash: its cummax form, its plain meaning, and why
    hashing a token's window is hashing the token in the whole sequence. */
module NgramShift {

  function Max(a: int, b: int): int { if a < b then b else a }

  /** where(tokens == eos, idx, -1) */
  function EosPos(tokens: seq<int>, eos: int): (r: seq<int>)
    ensures |r| == |tokens|
  {
    seq(|tokens|, i requires 0 <= i < |tokens| => if tokens[i] == eos then i else -1)
  }

  function Cummax(s: seq<int>): (r: seq<int>)
    ensures |r| == |s|
  {
    if s == [] then []
    else
      var front := Cummax(s[..|s| - 1]);
      var last := s[|s| - 1];
      front + [if front == [] then last else Max(front[|front| - 1], last)]
  }

  /** cat([-1], cummax[:-1]) */
  function PrevEos(tokens: seq<int>, eos: int): (r: seq<int>)
    ensures |r| == |tokens|
  {
    var inclusive := Cummax(EosPos(tokens, eos));
    if tokens == [] then [] else [-1] + inclusive[..|inclusive| - 1]
  }

  /** _shift_right_ignore_eos on one row. */
  function Shift(tokens: seq<int>, eos: int, n: nat): (r: seq<int>)
    ensures |r| == |tokens|
  {
    if n == 0 then tokens
    else
      var prev := PrevEos(tokens, eos);
      seq(|tokens|, i requires 0 <= i < |tokens| == |prev| =>
        var source := i - n;
        var gathered := tokens[if source < 0 then 0 else source];
        var inSegment := i - (prev[i] + 1);
        if inSegment >= n && source >= 0 then gathered else eos)
  }

  /** No EOS among positions [lo, hi). */
  ghost predicate NoEos(tokens: seq<int>, eos: int, lo: int, hi: int)
    requires 0 <= lo && hi <= |tokens|
  {
    forall k :: lo <= k < hi ==> tokens[k] != eos
  }

  /** `last` is the position of the last EOS before position `end`, -1 when there is none. */
  ghost predicate LastEosBefore(tokens: seq<int>, eos: int, end: nat, last: int)
    requires end <= |tokens|
  {
    && -1 <= last < end
    && (last >= 0 ==> tokens[last] == eos)
    && NoEos(tokens, eos, last + 1, end)
  }

  /** The running maximum is the position of the last EOS so far. */
  lemma {:induction false} CummaxIsLastEos(tokens: seq<int>, eos: int, i: nat)
    requires i < |tokens|
    ensures LastEosBefore(tokens, eos, i + 1, Cummax(EosPos(tokens, eos))[i])
    decreases |tokens|
  {
    var n := |tokens| - 1;
    var front := tokens[..n];
    assert EosPos(tokens, eos)[..n] == EosPos(front, eos);
    if i < n {
      CummaxIsLastEos(front, eos, i);
    } else if n > 0 {
      CummaxIsLastEos(front, eos, n - 1);
    }
  }

  lemma PrevEosIsLastEos(tokens: seq<int>, eos: int, i: nat)
    requires i < |tokens|
    ensures LastEosBefore(tokens, eos, i, PrevEos(tokens, eos)[i])
  {
    if i > 0 { CummaxIsLastEos(tokens, eos, i - 1); }
    hide Cummax, EosPos;
  }

  lemma ShiftAt(tokens: seq<int>, eos: int, n: nat, i: nat)
    requires i < |tokens| && n > 0
    ensures Shift(tokens, eos, n)[i]
            == if i >= n && PrevEos(tokens, eos)[i] < i - n then tokens[i - n] else eos
  {
    hide PrevEos;
  }

  /** Position i takes token i - n exactly when i >= n and no EOS lies in [i - n, i - 1]; else
      it takes EOS. */
  lemma ShiftMeaning(tokens: seq<int>, eos: int, n: nat, i: nat)
    requires i < |tokens| && n > 0
    ensures Shift(tokens, eos, n)[i] == if i >= n && NoEos(tokens, eos, i - n, i) then tokens[i - n] else eos
  {
    PrevEosIsLastEos(tokens, eos, i);
    ShiftAt(tokens, eos, n, i);
    hide PrevEos, Shift;
    var prev := PrevEos(tokens, eos)[i];
    if i >= n && prev >= i - n {
      assert tokens[prev] == eos && i - n <= prev < i;
      assert !NoEos(tokens, eos, i - n, i);
    }
  }

  // ---------------------------------------------------------------- windows

  /** The last column of a window sees what its position sees in the whole sequence, for every
      shift that stays inside the window. */
  lemma WindowShiftIsSequenceShift(tokens: seq<int>, eos: int, at: nat, size: nat, n: nat)
    requires n < size <= at + 1 <= |tokens|
    ensures Shift(tokens[at + 1 - size..at + 1], eos, n)[size - 1] == Shift(tokens, eos, n)[at]
  {
    var window := tokens[at + 1 - size..at + 1];
    if n > 0 {
      ShiftMeaning(window, eos, n, size - 1);
      ShiftMeaning(tokens, eos, n, at);
      assert forall k :: 0 <= k < size ==> window[k] == tokens[at + 1 - size + k];
      if NoEos(window, eos, size - 1 - n, size - 1) {
        forall k | at - n <= k < at ensures tokens[k] != eos {
          assert window[k - (at + 1 - size)] == tokens[k];
        }
      }
    }
  }

  /** Two sequences that agree from their last EOS before `at` on shift alike at `at`, whatever
      came before that EOS. */
  lemma ShiftIgnoresEarlierSegments(a: seq<int>, b: seq<int>, eos: int, cut: nat, at: nat, n: nat)
    requires cut < at < |a| == |b| && a[cut] == b[cut] == eos
    requires forall k :: cut <= k <= at ==> a[k] == b[k]
    ensures Shift(a, eos, n)[at] == Shift(b, eos, n)[at]
  {
    if n > 0 {
      ShiftMeaning(a, eos, n, at);
      ShiftMeaning(b, eos, n, at);
      if at >= n && at - n <= cut {
        assert !NoEos(a, eos, at - n, at) && !NoEos(b, eos, at - n, at);
      }
    }
  }
}
