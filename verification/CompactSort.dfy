/** Compacting the non-negative entries of a row by a stable sort of keys. */
module CompactSort {

  function Fill(n: nat): (r: seq<int>)
    ensures |r| == n && forall i :: 0 <= i < n ==> r[i] == -1
  {
    seq(n, _ => -1)
  }

  /** The non-negative entries, in order. */
  function Kept(s: seq<int>): (r: seq<int>)
    ensures |r| <= |s|
    ensures forall x :: x in r <==> x in s && x >= 0
  {
    if s == [] then []
    else
      assert s == s[..|s| - 1] + [s[|s| - 1]];
      Kept(s[..|s| - 1]) + if s[|s| - 1] >= 0 then [s[|s| - 1]] else []
  }

  function Compact(s: seq<int>): seq<int> {
    Kept(s) + Fill(|s| - |Kept(s)|)
  }

  lemma {:induction false} KeptAppend(a: seq<int>, b: seq<int>)
    ensures Kept(a + b) == Kept(a) + Kept(b)
    decreases |b|
  {
    if b == [] {
      assert a + b == a;
    } else {
      KeptAppend(a, b[..|b| - 1]);
      assert (a + b)[..|a + b| - 1] == a + b[..|b| - 1];
    }
  }

  lemma {:induction false} KeptFill(n: nat)
    ensures Kept(Fill(n)) == []
  {
    if n > 0 {
      KeptFill(n - 1);
      assert Fill(n)[..n - 1] == Fill(n - 1);
    }
  }

  lemma {:induction false} KeptAll(s: seq<int>)
    requires forall i :: 0 <= i < |s| ==> s[i] >= 0
    ensures Kept(s) == s
    decreases |s|
  {
    if s != [] { KeptAll(s[..|s| - 1]); }
  }

  function SortKey(s: seq<int>): (keys: seq<int>)
    ensures |keys| == |s|
  {
    seq(|s|, i requires 0 <= i < |s| => if s[i] >= 0 then i else i + |s|)
  }

  /** torch.argsort(keys, stable=True). */
  ghost predicate IsArgsort(keys: seq<int>, perm: seq<nat>) {
    && |perm| == |keys|
    && (forall i :: 0 <= i < |perm| ==> perm[i] < |keys|)
    && (forall v: nat :: v < |keys| ==> v in perm)
    && (forall i, j :: 0 <= i < j < |perm| ==> Before(keys, perm[i], perm[j]))
  }

  ghost predicate Before(keys: seq<int>, a: nat, b: nat) {
    a < |keys| && b < |keys| && (keys[a] < keys[b] || (keys[a] == keys[b] && a < b))
  }

  function Gather(s: seq<int>, perm: seq<nat>): (r: seq<int>)
    requires forall i :: 0 <= i < |perm| ==> perm[i] < |s|
    ensures |r| == |perm| && forall i :: 0 <= i < |r| ==> r[i] == s[perm[i]]
  {
    seq(|perm|, i requires 0 <= i < |perm| => s[perm[i]])
  }

  lemma {:induction false} ArgsortPrefixUnique(keys: seq<int>, p: seq<nat>, q: seq<nat>, i: nat)
    requires IsArgsort(keys, p) && IsArgsort(keys, q) && i <= |keys|
    ensures p[..i] == q[..i]
    decreases i
  {
    if i > 0 {
      ArgsortPrefixUnique(keys, p, q, i - 1);
      var k := i - 1;
      assert q[k] in p && p[k] in q;
      var a :| 0 <= a < |p| && p[a] == q[k];
      var b :| 0 <= b < |q| && q[b] == p[k];
      assert forall c :: 0 <= c < k ==> p[c] == p[..k][c] == q[..k][c] == q[c];
    }
  }

  /** A stable sort order is unique. */
  lemma ArgsortUnique(keys: seq<int>, p: seq<nat>, q: seq<nat>)
    requires IsArgsort(keys, p) && IsArgsort(keys, q)
    ensures p == q
  {
    ArgsortPrefixUnique(keys, p, q, |keys|);
    assert p[..|keys|] == p && q[..|keys|] == q;
  }

  /** The positions of the kept (or of the dropped) entries, in order. */
  function Positions(s: seq<int>, keep: bool): (r: seq<nat>)
    ensures forall i :: 0 <= i < |r| ==> r[i] < |s| && (s[r[i]] >= 0 <==> keep)
    ensures forall i, j :: 0 <= i < j < |r| ==> r[i] < r[j]
  {
    if s == [] then []
    else Positions(s[..|s| - 1], keep) + if s[|s| - 1] >= 0 <==> keep then [|s| - 1] else []
  }

  lemma {:induction false} PositionsComplete(s: seq<int>, keep: bool, p: nat)
    requires p < |s| && (s[p] >= 0 <==> keep)
    ensures p in Positions(s, keep)
    decreases |s|
  {
    if p < |s| - 1 { PositionsComplete(s[..|s| - 1], keep, p); }
  }

  lemma {:induction false} PositionsSizes(s: seq<int>)
    ensures |Positions(s, true)| == |Kept(s)| && |Positions(s, false)| == |s| - |Kept(s)|
    decreases |s|
  {
    if s != [] { PositionsSizes(s[..|s| - 1]); }
  }

  lemma GatherFront(s: seq<int>, n: nat, r: seq<nat>)
    requires n <= |s| && forall i :: 0 <= i < |r| ==> r[i] < n
    ensures Gather(s[..n], r) == Gather(s, r)
  {
  }

  lemma {:induction false} GatherKept(s: seq<int>)
    ensures Gather(s, Positions(s, true)) == Kept(s)
    decreases |s|
  {
    if s != [] {
      var n := |s| - 1;
      GatherKept(s[..n]);
      var r := Positions(s[..n], true);
      GatherFront(s, n, r);
      assert Gather(s, r + [n]) == Gather(s, r) + [s[n]];
    }
  }

  lemma CanonicalArgsort(s: seq<int>)
    ensures IsArgsort(SortKey(s), Positions(s, true) + Positions(s, false))
  {
    var a, b, keys := Positions(s, true), Positions(s, false), SortKey(s);
    PositionsSizes(s);
    var p := a + b;
    forall v: nat | v < |keys| ensures v in p {
      PositionsComplete(s, s[v] >= 0, v);
    }
    forall i | 0 <= i < |p|
      ensures p[i] < |s|
      ensures keys[p[i]] == if i < |a| then a[i] else b[i - |a|] + |s|
    {
    }
  }

  lemma GatherSplits(s: seq<int>, a: seq<nat>, b: seq<nat>)
    requires forall i :: 0 <= i < |a| ==> a[i] < |s|
    requires forall i :: 0 <= i < |b| ==> b[i] < |s|
    ensures Gather(s, a + b) == Gather(s, a) + Gather(s, b)
  {
    forall i | 0 <= i < |a| + |b| ensures Gather(s, a + b)[i] == (Gather(s, a) + Gather(s, b))[i] {
      if i < |a| { assert (a + b)[i] == a[i]; } else { assert (a + b)[i] == b[i - |a|]; }
    }
  }

  lemma DroppedAreFill(s: seq<int>)
    requires forall i :: 0 <= i < |s| ==> s[i] >= -1
    ensures Gather(s, Positions(s, false)) == Fill(|Positions(s, false)|)
  {
  }

  /** Gathering by the sort of the keys keeps the valid entries in order, ahead of the rest. */
  lemma SortingCompacts(s: seq<int>, perm: seq<nat>)
    requires IsArgsort(SortKey(s), perm)
    requires forall i :: 0 <= i < |s| ==> s[i] >= -1
    ensures Gather(s, perm) == Compact(s)
  {
    hide Gather, Positions, IsArgsort, SortKey, Kept, Fill;
    var a, b := Positions(s, true), Positions(s, false);
    CanonicalArgsort(s);
    ArgsortUnique(SortKey(s), perm, a + b);
    PositionsSizes(s);
    GatherKept(s);
    GatherSplits(s, a, b);
    DroppedAreFill(s);
  }

  lemma CompactIff(s: seq<int>)
    requires forall i :: 0 <= i < |s| ==> s[i] >= -1
    ensures s == Compact(s) <==> forall i, j :: 0 <= i < j < |s| && s[j] >= 0 ==> s[i] >= 0
  {
    if s == Compact(s) {
      forall i, j | 0 <= i < j < |s| && s[j] >= 0 ensures s[i] >= 0 {
        assert s[j] == Compact(s)[j] && j < |Kept(s)|;
        assert Kept(s)[i] in Kept(s);
      }
    }
    if forall i, j :: 0 <= i < j < |s| && s[j] >= 0 ==> s[i] >= 0 {
      PrefixIsCompact(s);
    }
  }

  lemma {:induction false} PrefixIsCompact(s: seq<int>)
    requires forall i :: 0 <= i < |s| ==> s[i] >= -1
    requires forall i, j :: 0 <= i < j < |s| && s[j] >= 0 ==> s[i] >= 0
    ensures s == Compact(s)
    decreases |s|
  {
    if s != [] {
      var front := s[..|s| - 1];
      PrefixIsCompact(front);
      if s[|s| - 1] >= 0 {
        KeptAll(front);
      }
    }
  }
}
