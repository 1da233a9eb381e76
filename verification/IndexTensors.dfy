/** Reading and writing tensor rows through lists of slots. */
module IndexTensors {
  import opened Finite

  ghost predicate InRange(at: seq<nat>, size: nat) {
    forall i :: 0 <= i < |at| ==> at[i] < size
  }

  function IndexOf<T(==)>(at: seq<T>, slot: T): (i: nat)
    requires slot in at
    ensures i < |at| && at[i] == slot
  {
    if at[0] == slot then 0 else 1 + IndexOf(at[1..], slot)
  }

  lemma IndexOfDistinct<T>(at: seq<T>, i: nat)
    requires Distinct(at) && i < |at|
    ensures IndexOf(at, at[i]) == i
  {
  }

  /** t[:, at] */
  function Gather<T>(t: seq<T>, at: seq<nat>): seq<T>
    requires InRange(at, |t|)
  {
    seq(|at|, i requires 0 <= i < |at| => t[at[i]])
  }

  /** t[:, at] = rows */
  function Scatter<T>(t: seq<T>, at: seq<nat>, rows: seq<T>): seq<T>
    requires |rows| == |at|
  {
    seq(|t|, s requires 0 <= s < |t| => if s in at then rows[IndexOf(at, s)] else t[s])
  }
}
