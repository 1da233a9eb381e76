/** The one-time shrink of a layer: gathering the cold rows of every distinct tensor into one
    flat host buffer, rebuilding the GPU tensors at keep + slots rows, and arming the tables.
    The result is a safe pool, which is where every run starts. */
module ColdPoolShrink {
  import opened Wrappers
  import opened ColdPoolModel
  import opened ColdPoolSafety
  import opened ColdPoolLayer

  /** A 0-d tensor, or one whose first axis is a number of equally wide rows of bytes. */
  datatype Tensor = Scalar | Rowed(width: nat, rows: seq<Model.Row>) {
    ghost predicate Valid() {
      Rowed? ==> forall i :: 0 <= i < |rows| ==> |rows[i]| == width
    }
  }

  type Attrs = map<Model.Name, TensorId>
  type Heap = map<TensorId, Tensor>

  const ROW_PARAMS: seq<Model.Name> :=
    ["w13_weight", "w2_weight", "w13_weight_scale", "w2_weight_scale",
     "w13_weight_scale_2", "w2_weight_scale_2", "w13_input_scale", "w2_input_scale"]
  const DERIVED_PARAMS: seq<Model.Name> := ["g1_alphas", "g1_alphas_up", "g2_alphas"]
  const ALL_PARAMS: seq<Model.Name> := ROW_PARAMS + DERIVED_PARAMS

  // ---------------------------------------------------------------- inventory

  /** The tensor bound to a name, when its first axis has this many rows. */
  function Sharded(name: Model.Name, attrs: Attrs, heap: Heap, n: nat): Option<TensorId> {
    if name in attrs && attrs[name] in heap && heap[attrs[name]].Rowed? && |heap[attrs[name]].rows| == n
    then Some(attrs[name]) else None
  }

  /** The loop over ALL_PARAMS that skips a tensor seen under an earlier name. */
  function DistinctParams(names: seq<Model.Name>, attrs: Attrs, heap: Heap, n: nat, seen: set<TensorId>)
    : (r: seq<(Model.Name, TensorId)>)
    ensures forall i :: 0 <= i < |r| ==> Sharded(r[i].0, attrs, heap, n) == Some(r[i].1) && r[i].1 !in seen
    ensures forall i, j :: 0 <= i < j < |r| ==> r[i].1 != r[j].1
  {
    if names == [] then []
    else
      var t := Sharded(names[0], attrs, heap, n);
      if t.None? || t.value in seen then DistinctParams(names[1..], attrs, heap, n, seen)
      else [(names[0], t.value)] + DistinctParams(names[1..], attrs, heap, n, seen + {t.value})
  }

  lemma {:induction false} DistinctParamsComplete(names: seq<Model.Name>, attrs: Attrs, heap: Heap, n: nat,
                                                  seen: set<TensorId>, k: nat)
    requires k < |names| && Sharded(names[k], attrs, heap, n).Some?
    ensures var t := Sharded(names[k], attrs, heap, n).value;
            t in seen || HasTensor(DistinctParams(names, attrs, heap, n, seen), t)
    decreases |names|
  {
    hide Sharded;
    var r := DistinctParams(names, attrs, heap, n, seen);
    var t := Sharded(names[0], attrs, heap, n);
    if t.None? || t.value in seen {
      if k > 0 { DistinctParamsComplete(names[1..], attrs, heap, n, seen, k - 1); }
    } else if k == 0 {
      assert r[0].1 == t.value;
    } else {
      DistinctParamsComplete(names[1..], attrs, heap, n, seen + {t.value}, k - 1);
      var rest := DistinctParams(names[1..], attrs, heap, n, seen + {t.value});
      var u := Sharded(names[k], attrs, heap, n).value;
      assert names[1..][k - 1] == names[k];
      if u == t.value {
        assert r[0].1 == u;
      } else if u !in seen {
        var i :| 0 <= i < |rest| && rest[i].1 == u;
        assert r[i + 1] == rest[i];
      }
    }
  }

  predicate HasTensor(params: seq<(Model.Name, TensorId)>, t: TensorId) {
    exists i :: 0 <= i < |params| && params[i].1 == t
  }

  /** named_parameters(recurse=False): the first registered name of each Parameter. */
  function NamedParameters(registered: seq<Model.Name>, attrs: Attrs, seen: set<TensorId>): (r: seq<Model.Name>)
    requires forall i :: 0 <= i < |registered| ==> registered[i] in attrs
    ensures forall i :: 0 <= i < |r| ==> r[i] in attrs
    ensures forall k :: 0 <= k < |registered| ==>
              attrs[registered[k]] in seen || exists i :: 0 <= i < |r| && attrs[r[i]] == attrs[registered[k]]
  {
    if registered == [] then []
    else if attrs[registered[0]] in seen then NamedParameters(registered[1..], attrs, seen)
    else
      var rest := NamedParameters(registered[1..], attrs, seen + {attrs[registered[0]]});
      var r := [registered[0]] + rest;
      assert r[0] == registered[0] && forall k :: 0 <= k < |rest| ==> r[k + 1] == rest[k];
      r
  }

  /** Where a swizzled scale must be aliased to, if the name is one. */
  function SwizzleSource(name: Model.Name): Option<Model.Name> {
    if name == "w13_blockscale_swizzled" then Some("w13_weight_scale")
    else if name == "w2_blockscale_swizzled" then Some("w2_weight_scale")
    else None
  }

  predicate Unclassified(name: Model.Name, attrs: Attrs, heap: Heap, n: nat) {
    Sharded(name, attrs, heap, n).Some? && name !in ALL_PARAMS &&
    match SwizzleSource(name)
    case None => true
    case Some(src) => src !in attrs || attrs[src] != Sharded(name, attrs, heap, n).value
  }

  /** The k-th registered name is the first one bound to its Parameter. */
  ghost predicate FirstName(registered: seq<Model.Name>, attrs: Attrs, k: int) {
    && 0 <= k < |registered| && registered[k] in attrs
    && forall j :: 0 <= j < k ==> registered[j] in attrs && attrs[registered[j]] != attrs[registered[k]]
  }

  lemma FirstNameLater(head: Model.Name, rest: seq<Model.Name>, attrs: Attrs, k: nat)
    requires head in attrs && k < |rest|
    ensures FirstName([head] + rest, attrs, k + 1) <==> FirstName(rest, attrs, k) && attrs[rest[k]] != attrs[head]
  {
    var all := [head] + rest;
    assert all[k + 1] == rest[k] && all[0] == head && forall j :: 0 <= j < k ==> all[j + 1] == rest[j];
    if FirstName(all, attrs, k + 1) {
      forall j | 0 <= j < k ensures rest[j] in attrs && attrs[rest[j]] != attrs[rest[k]] {
        assert all[j + 1] in attrs && attrs[all[j + 1]] != attrs[all[k + 1]];
      }
    }
  }

  /** A first name of the rest is a first name of the whole, unless the head is bound to its Parameter. */
  lemma FirstNames(registered: seq<Model.Name>, attrs: Attrs, seen: set<TensorId>, name: Model.Name)
    requires registered != [] && registered[0] in attrs
    ensures FirstNamed(registered, attrs, seen, name) <==>
            (name == registered[0] && attrs[name] !in seen) || FirstNamed(registered[1..], attrs, seen + {attrs[registered[0]]}, name)
  {
    var head, rest := registered[0], registered[1..];
    assert registered == [head] + rest;
    assert FirstName(registered, attrs, 0);
    if k :| FirstName(registered, attrs, k) && registered[k] == name && attrs[name] !in seen {
      if k > 0 {
        FirstNameLater(head, rest, attrs, k - 1);
        assert rest[k - 1] == name;
      }
    }
    if k :| FirstName(rest, attrs, k) && rest[k] == name && attrs[name] !in seen + {attrs[head]} {
      FirstNameLater(head, rest, attrs, k);
      assert registered[k + 1] == name;
    }
  }

  ghost predicate FirstNamed(registered: seq<Model.Name>, attrs: Attrs, seen: set<TensorId>, name: Model.Name) {
    exists k :: FirstName(registered, attrs, k) && registered[k] == name && attrs[name] !in seen
  }

  /** Each Parameter is listed under its first name and no other. */
  lemma {:induction false} NamedAreFirst(registered: seq<Model.Name>, attrs: Attrs, seen: set<TensorId>, name: Model.Name)
    requires forall i :: 0 <= i < |registered| ==> registered[i] in attrs
    ensures name in NamedParameters(registered, attrs, seen) <==> FirstNamed(registered, attrs, seen, name)
    decreases |registered|
  {
    if registered != [] {
      var head := registered[0];
      FirstNames(registered, attrs, seen, name);
      hide FirstNamed;
      NamedAreFirst(registered[1..], attrs, seen + {attrs[head]}, name);
      if attrs[head] in seen { assert seen + {attrs[head]} == seen; }
    }
  }

  /** A Parameter that the shrink would leave behind: as many rows as there are experts, under a first
      name outside the inventory, unless it is a swizzled scale bound to the scale itself. */
  ghost predicate LeftBehind(registered: seq<Model.Name>, attrs: Attrs, heap: Heap, n: nat, k: int) {
    && FirstName(registered, attrs, k)
    && attrs[registered[k]] in heap && heap[attrs[registered[k]]].Rowed? && |heap[attrs[registered[k]]].rows| == n
    && registered[k] !in ALL_PARAMS
    && !(registered[k] == "w13_blockscale_swizzled" && "w13_weight_scale" in attrs
         && attrs["w13_weight_scale"] == attrs[registered[k]])
    && !(registered[k] == "w2_blockscale_swizzled" && "w2_weight_scale" in attrs
         && attrs["w2_weight_scale"] == attrs[registered[k]])
  }

  lemma {:induction false} GateLists(named: seq<Model.Name>, attrs: Attrs, heap: Heap, n: nat, name: Model.Name)
    ensures name in InventoryGate(named, attrs, heap, n) <==> name in named && Unclassified(name, attrs, heap, n)
    decreases |named|
  {
    hide Unclassified;
    if named != [] { GateLists(named[1..], attrs, heap, n, name); }
  }

  lemma UnclassifiedIsLeftBehind(registered: seq<Model.Name>, attrs: Attrs, heap: Heap, n: nat, k: int)
    requires FirstName(registered, attrs, k)
    ensures Unclassified(registered[k], attrs, heap, n) <==> LeftBehind(registered, attrs, heap, n, k)
  {
    hide ALL_PARAMS;
  }

  lemma LeftBehindIsFirst(registered: seq<Model.Name>, attrs: Attrs, heap: Heap, n: nat, k: int)
    ensures LeftBehind(registered, attrs, heap, n, k) ==> FirstName(registered, attrs, k)
  {
  }

  /** The gate reports exactly those. */
  lemma GateReports(registered: seq<Model.Name>, attrs: Attrs, heap: Heap, n: nat, name: Model.Name)
    requires forall i :: 0 <= i < |registered| ==> registered[i] in attrs
    ensures name in InventoryGate(NamedParameters(registered, attrs, {}), attrs, heap, n)
            <==> exists k :: LeftBehind(registered, attrs, heap, n, k) && registered[k] == name
  {
    hide NamedParameters, InventoryGate, Unclassified, LeftBehind;
    NamedAreFirst(registered, attrs, {}, name);
    GateLists(NamedParameters(registered, attrs, {}), attrs, heap, n, name);
    forall k ensures LeftBehind(registered, attrs, heap, n, k) <==>
                     FirstName(registered, attrs, k) && Unclassified(registered[k], attrs, heap, n)
    {
      LeftBehindIsFirst(registered, attrs, heap, n, k);
      if FirstName(registered, attrs, k) { UnclassifiedIsLeftBehind(registered, attrs, heap, n, k); }
    }
  }

  lemma GateOutcome(registered: seq<Model.Name>, attrs: Attrs, heap: Heap, n: nat)
    requires forall i :: 0 <= i < |registered| ==> registered[i] in attrs
    ensures var bad := InventoryGate(NamedParameters(registered, attrs, {}), attrs, heap, n);
            && (bad == [] <==> !exists k :: LeftBehind(registered, attrs, heap, n, k))
            && forall name :: name in bad <==> exists k :: LeftBehind(registered, attrs, heap, n, k) && registered[k] == name
  {
    hide NamedParameters, InventoryGate;
    var bad := InventoryGate(NamedParameters(registered, attrs, {}), attrs, heap, n);
    forall name ensures name in bad <==> exists k :: LeftBehind(registered, attrs, heap, n, k) && registered[k] == name {
      GateReports(registered, attrs, heap, n, name);
    }
    if bad != [] { assert bad[0] in bad; }
    forall k | LeftBehind(registered, attrs, heap, n, k) ensures registered[k] in bad {}
  }

  function InventoryGate(named: seq<Model.Name>, attrs: Attrs, heap: Heap, n: nat): (bad: seq<Model.Name>)
    ensures bad == [] <==> forall i :: 0 <= i < |named| ==> !Unclassified(named[i], attrs, heap, n)
  {
    if named == [] then []
    else (if Unclassified(named[0], attrs, heap, n) then [named[0]] else []) + InventoryGate(named[1..], attrs, heap, n)
  }

  /** A module that passes the gate has no per-expert Parameter that the shrink and the staging
      would leave behind, whatever names it is bound to. */
  lemma GateCoversEveryParameter(registered: seq<Model.Name>, attrs: Attrs, heap: Heap, n: nat, k: nat)
    requires forall i :: 0 <= i < |registered| ==> registered[i] in attrs
    requires InventoryGate(NamedParameters(registered, attrs, {}), attrs, heap, n) == []
    requires k < |registered| && Sharded(registered[k], attrs, heap, n).Some?
    ensures HasTensor(DistinctParams(ALL_PARAMS, attrs, heap, n, {}), attrs[registered[k]])
  {
    var named := NamedParameters(registered, attrs, {});
    var i :| 0 <= i < |named| && attrs[named[i]] == attrs[registered[k]];
    assert !Unclassified(named[i], attrs, heap, n);
    if named[i] in ALL_PARAMS {
      var j :| 0 <= j < |ALL_PARAMS| && ALL_PARAMS[j] == named[i];
      DistinctParamsComplete(ALL_PARAMS, attrs, heap, n, {}, j);
    } else {
      var src := SwizzleSource(named[i]).value;
      var j := if src == "w13_weight_scale" then 2 else 3;
      assert ALL_PARAMS[j] == src;
      DistinctParamsComplete(ALL_PARAMS, attrs, heap, n, {}, j);
    }
  }

  // ---------------------------------------------------------------- the flat buffer

  /** The ids outside the keep list, in order. */
  function ColdIds(keep: seq<nat>, n: nat): (cold: seq<nat>)
    ensures forall g: nat :: g in cold <==> g < n && g !in keep
    ensures Increasing(cold)
  {
    if n == 0 then []
    else
      var rest := ColdIds(keep, n - 1);
      assert forall i :: 0 <= i < |rest| ==> rest[i] in rest;
      if n - 1 in keep then rest else rest + [n - 1]
  }

  function Flat(rows: seq<Model.Row>): seq<bv8> {
    if rows == [] then [] else Flat(rows[..|rows| - 1]) + rows[|rows| - 1]
  }

  lemma {:induction false} FlatLength(rows: seq<Model.Row>, width: nat)
    requires forall i :: 0 <= i < |rows| ==> |rows[i]| == width
    ensures |Flat(rows)| == |rows| * width
    decreases |rows|
  {
    if rows != [] { FlatLength(rows[..|rows| - 1], width); }
  }

  lemma SliceBounds(i: nat, n: nat, width: nat)
    requires i < n
    ensures 0 <= i * width <= (i + 1) * width <= n * width
  {
    if i + 1 < n { SliceBounds(i, n - 1, width); }
  }

  lemma {:induction false} FlatSlice(rows: seq<Model.Row>, width: nat, i: nat)
    requires forall k :: 0 <= k < |rows| ==> |rows[k]| == width
    requires i < |rows|
    ensures i * width <= (i + 1) * width <= |Flat(rows)|
    ensures Flat(rows)[i * width..(i + 1) * width] == rows[i]
    decreases |rows|
  {
    var front := rows[..|rows| - 1];
    FlatLength(rows, width);
    FlatLength(front, width);
    SliceBounds(i, |rows|, width);
    if i < |front| {
      FlatSlice(front, width, i);
      assert Flat(rows)[i * width..(i + 1) * width] == Flat(front)[i * width..(i + 1) * width];
    }
  }

  /** index_select along the first axis. */
  function Select(rows: seq<Model.Row>, ids: seq<nat>): (r: seq<Model.Row>)
    requires forall i :: 0 <= i < |ids| ==> ids[i] < |rows|
    ensures |r| == |ids| && forall i :: 0 <= i < |ids| ==> r[i] == rows[ids[i]]
  {
    seq(|ids|, i requires 0 <= i < |ids| => rows[ids[i]])
  }

  lemma SliceOfPrefix(whole: seq<bv8>, front: seq<bv8>, part: seq<bv8>, lo: nat, hi: nat)
    requires |front + part| <= |whole| && whole[..|front + part|] == front + part
    requires lo <= hi <= |part|
    ensures |front| + hi <= |whole| && whole[|front| + lo..|front| + hi] == part[lo..hi]
  {
    forall j | lo <= j < hi ensures whole[|front| + j] == part[j] {
      assert whole[..|front + part|][|front| + j] == (front + part)[|front| + j];
    }
  }

  /** The cold rows of the tensors, one tensor after the other, no gaps. */
  function Image(parts: seq<seq<Model.Row>>): seq<bv8> {
    if parts == [] then [] else Image(parts[..|parts| - 1]) + Flat(parts[|parts| - 1])
  }

  lemma {:induction false} ImagePrefix(parts: seq<seq<Model.Row>>, k: nat)
    requires k <= |parts|
    ensures |Image(parts[..k])| <= |Image(parts)|
    ensures Image(parts)[..|Image(parts[..k])|] == Image(parts[..k])
    decreases |parts|
  {
    if k < |parts| {
      var front := parts[..|parts| - 1];
      ImagePrefix(front, k);
      assert front[..k] == parts[..k];
    } else {
      assert parts[..k] == parts;
    }
  }

  lemma ImageStep(parts: seq<seq<Model.Row>>, k: nat)
    requires k < |parts|
    ensures Image(parts[..k + 1]) == Image(parts[..k]) + Flat(parts[k])
    ensures |Image(parts[..k + 1])| <= |Image(parts)|
  {
    assert parts[..k + 1][..k] == parts[..k];
    ImagePrefix(parts, k + 1);
  }

  /** All rows of part k are this wide. */
  ghost predicate Rectangular(parts: seq<seq<Model.Row>>, widths: seq<nat>) {
    |widths| == |parts| && forall k, i :: 0 <= k < |parts| && 0 <= i < |parts[k]| ==> |parts[k][i]| == widths[k]
  }

  /** Part k's slice of the finished buffer holds row i at its own offset. */
  lemma RowInImage(parts: seq<seq<Model.Row>>, widths: seq<nat>, k: nat, i: nat, lo: nat, hi: nat)
    requires Rectangular(parts, widths) && k < |parts| && i < |parts[k]|
    requires lo == i * widths[k] && hi == (i + 1) * widths[k]
    ensures lo <= hi && |Image(parts[..k])| + hi <= |Image(parts)|
    ensures Image(parts)[|Image(parts[..k])| + lo..|Image(parts[..k])| + hi] == parts[k][i]
  {
    FlatSlice(parts[k], widths[k], i);
    ImageStep(parts, k);
    ImagePrefix(parts, k + 1);
    SliceOfPrefix(Image(parts), Image(parts[..k]), Flat(parts[k]), lo, hi);
  }

  /** First pass: the exact size of the buffer, from row widths and the number of cold rows. */
  method ColdBytes(ghost parts: seq<seq<Model.Row>>, widths: seq<nat>, coldLen: nat) returns (bytes: nat)
    requires Rectangular(parts, widths) && forall k :: 0 <= k < |parts| ==> |parts[k]| == coldLen
    ensures bytes == |Image(parts)|
  {
    bytes := 0;
    for k := 0 to |widths|
      invariant bytes == |Image(parts[..k])|
    {
      FlatLength(parts[k], widths[k]);
      ImageStep(parts, k);
      bytes := bytes + widths[k] * coldLen;
    }
    assert parts[..|widths|] == parts;
  }

  method CopyInto(buf: array<bv8>, off: nat, data: seq<bv8>)
    requires off + |data| <= buf.Length
    modifies buf
    ensures buf[..off + |data|] == old(buf[..off]) + data
  {
    forall j | 0 <= j < |data| { buf[off + j] := data[j]; }
  }

  /** Second pass: each tensor's cold rows into its slice.  The slices are adjacent, start at 0
      and end at the end of the buffer. */
  method FillBuffer(parts: seq<seq<Model.Row>>, bytes: nat) returns (buf: array<bv8>, offsets: seq<nat>)
    requires bytes == |Image(parts)|
    ensures fresh(buf) && buf[..] == Image(parts)
    ensures |offsets| == |parts| && forall k :: 0 <= k < |offsets| ==> offsets[k] == |Image(parts[..k])|
  {
    buf := new bv8[bytes];
    offsets := [];
    var off := 0;
    for k := 0 to |parts|
      invariant off == |Image(parts[..k])| <= buf.Length == |Image(parts)|
      invariant buf[..off] == Image(parts[..k])
      invariant |offsets| == k && forall m :: 0 <= m < k ==> offsets[m] == |Image(parts[..m])|
    {
      var cr := Flat(parts[k]);
      ImageStep(parts, k);
      CopyInto(buf, off, cr);
      offsets := offsets + [off];
      off := off + |cr|;
    }
    assert parts[..|parts|] == parts;
    assert buf[..off] == buf[..];
  }

  type Host = map<nat, seq<(Model.Name, Model.Row)>>

  /** What the host keeps for the i-th cold expert: its row of each of the tensors. */
  function Entries(names: seq<Model.Name>, parts: seq<seq<Model.Row>>, i: nat): (r: seq<(Model.Name, Model.Row)>)
    requires |names| <= |parts| && forall k :: 0 <= k < |parts| ==> i < |parts[k]|
    ensures |r| == |names| && forall k :: 0 <= k < |r| ==> r[k] == (names[k], parts[k][i])
  {
    seq(|names|, k requires 0 <= k < |names| => (names[k], parts[k][i]))
  }

  ghost predicate Increasing(ids: seq<nat>) {
    forall i, j :: 0 <= i < j < |ids| ==> ids[i] < ids[j]
  }

  ghost predicate Matching(parts: seq<seq<Model.Row>>, cold: seq<nat>) {
    forall k :: 0 <= k < |parts| ==> |parts[k]| == |cold|
  }

  /** The host dict after the first k tensors. */
  ghost predicate HostHolds(names: seq<Model.Name>, parts: seq<seq<Model.Row>>, cold: seq<nat>, host: Host, k: nat)
    requires k <= |names| <= |parts| && Matching(parts, cold)
  {
    && (forall g :: g in host <==> k > 0 && g in cold)
    && forall i :: 0 <= i < |cold| && k > 0 ==> host[cold[i]] == Entries(names[..k], parts, i)
  }

  method RowView(parts: seq<seq<Model.Row>>, widths: seq<nat>, buf: array<bv8>, offset: nat, k: nat, i: nat)
    returns (view: Model.Row)
    requires Rectangular(parts, widths) && k < |parts| && i < |parts[k]|
    requires buf[..] == Image(parts) && offset == |Image(parts[..k])|
    ensures view == parts[k][i]
  {
    var lo, hi := i * widths[k], (i + 1) * widths[k];
    RowInImage(parts, widths, k, i, lo, hi);
    view := buf[offset + lo..offset + hi];
    assert view == buf[..][offset + lo..offset + hi];
  }

  /** pool.host.setdefault(gid, {})[name] = view */
  function AddView(host: Host, gid: nat, name: Model.Name, view: Model.Row): Host {
    host[gid := (if gid in host then host[gid] else []) + [(name, view)]]
  }

  /** The dict while tensor k's views are added: the first i experts have one entry more. */
  ghost predicate MidHost(names: seq<Model.Name>, parts: seq<seq<Model.Row>>, cold: seq<nat>, host: Host, k: nat, i: nat)
    requires k < |names| <= |parts| && i <= |cold| && Matching(parts, cold)
  {
    && (forall g :: g in host <==> g in cold[..i] || (k > 0 && g in cold))
    && (forall j :: 0 <= j < i ==> host[cold[j]] == Entries(names[..k + 1], parts, j))
    && (forall j :: i <= j < |cold| && k > 0 ==> host[cold[j]] == Entries(names[..k], parts, j))
  }

  lemma AddViewStep(names: seq<Model.Name>, parts: seq<seq<Model.Row>>, cold: seq<nat>, host: Host, k: nat, i: nat)
    requires k < |names| <= |parts| && i < |cold| && Matching(parts, cold) && Increasing(cold)
    requires MidHost(names, parts, cold, host, k, i)
    ensures MidHost(names, parts, cold, AddView(host, cold[i], names[k], parts[k][i]), k, i + 1)
  {
    var gid := cold[i];
    var host' := AddView(host, gid, names[k], parts[k][i]);
    assert cold[..i + 1] == cold[..i] + [gid];
    assert host'[gid] == Entries(names[..k + 1], parts, i) by {
      assert gid in host ==> host[gid] == Entries(names[..k], parts, i);
      assert k == 0 ==> Entries(names[..k], parts, i) == [] && gid !in host;
    }
    assert forall j :: 0 <= j < |cold| && j != i ==> cold[j] != gid;
  }

  /** The row views of one tensor, added under its name to each cold expert. */
  method AddViews(names: seq<Model.Name>, parts: seq<seq<Model.Row>>, widths: seq<nat>, cold: seq<nat>,
                  buf: array<bv8>, offset: nat, k: nat, host0: Host) returns (host: Host)
    requires Rectangular(parts, widths) && buf[..] == Image(parts) && Increasing(cold) && Matching(parts, cold)
    requires k < |names| <= |parts| && offset == |Image(parts[..k])| && HostHolds(names, parts, cold, host0, k)
    ensures HostHolds(names, parts, cold, host, k + 1)
  {
    hide Image, Rectangular, Increasing, AddView;
    host := host0;
    for i := 0 to |cold|
      invariant MidHost(names, parts, cold, host, k, i)
    {
      var view := RowView(parts, widths, buf, offset, k, i);
      AddViewStep(names, parts, cold, host, k, i);
      host := AddView(host, cold[i], names[k], view);
    }
    assert cold[..|cold|] == cold;
  }

  /** Third pass: row views into the buffer, per cold expert and tensor name. */
  method HostRows(names: seq<Model.Name>, parts: seq<seq<Model.Row>>, widths: seq<nat>, cold: seq<nat>,
                  buf: array<bv8>, offsets: seq<nat>) returns (host: Host)
    requires Rectangular(parts, widths) && buf[..] == Image(parts) && Increasing(cold) && Matching(parts, cold)
    requires |names| == |parts| == |offsets|
    requires forall k :: 0 <= k < |offsets| ==> offsets[k] == |Image(parts[..k])|
    ensures HostHolds(names, parts, cold, host, |names|)
  {
    host := map[];
    for k := 0 to |names|
      invariant HostHolds(names, parts, cold, host, k)
    {
      host := AddViews(names, parts, widths, cold, buf, offsets[k], k, host);
    }
  }

  /** Rebuilding every distinct tensor: kept rows first, the staging rows uninitialised. */
  method RebuildGpu(tids: seq<TensorId>, full: Tensors, keep: seq<nat>, slots: nat) returns (gpu: Tensors)
    requires forall k :: 0 <= k < |tids| ==> tids[k] in full
    requires forall t, i :: t in full && 0 <= i < |keep| ==> keep[i] < |full[t]|
    ensures forall t :: t in gpu <==> t in tids
    ensures forall t :: t in gpu ==> |gpu[t]| == |keep| + slots
    ensures forall t, i :: t in gpu && 0 <= i < |keep| ==> gpu[t][i] == full[t][keep[i]]
  {
    gpu := map[];
    for k := 0 to |tids|
      invariant forall t :: t in gpu <==> t in tids[..k]
      invariant forall t :: t in gpu ==> |gpu[t]| == |keep| + slots
      invariant forall t, i :: t in gpu && 0 <= i < |keep| ==> gpu[t][i] == full[t][keep[i]]
    {
      var t := tids[k];
      var kept := Select(full[t], keep);
      var uninitialised := AnyRows(slots);
      gpu := gpu[t := kept + uninitialised];
      assert tids[..k + 1] == tids[..k] + [t];
    }
    assert tids[..|tids|] == tids;
  }

  /** torch.empty: some rows, nothing is known about their bytes. */
  method AnyRows(n: nat) returns (rows: seq<Model.Row>)
    ensures |rows| == n
  {
    rows := [];
    for i := 0 to n
      invariant |rows| == i
    {
      var row: Model.Row := *;
      rows := rows + [row];
    }
  }

  // ---------------------------------------------------------------- a safe starting point

  /** The full-size tensors the shrink takes apart. */
  function Originals(tids: seq<TensorId>, heap: Heap): (full: Tensors)
    requires forall k :: 0 <= k < |tids| ==> tids[k] in heap && heap[tids[k]].Rowed?
    ensures full.Keys == set k | 0 <= k < |tids| :: tids[k]
    ensures forall t :: t in full ==> t in heap && heap[t].Rowed? && full[t] == heap[t].rows
  {
    map t | t in tids :: heap[t].rows
  }

  lemma {:induction false} KeepTableRows(keep: seq<nat>, width: nat)
    requires forall i :: 0 <= i < |keep| ==> keep[i] < width
    ensures forall g :: 0 <= g < width && g in keep ==>
              KeepTable(keep, width)[g] < |keep| && keep[KeepTable(keep, width)[g]] == g
    ensures forall g :: 0 <= g < width && g !in keep ==> KeepTable(keep, width)[g] == 0
    decreases |keep|
  {
    if keep != [] {
      var front := keep[..|keep| - 1];
      KeepTableRows(front, width);
      assert keep == front + [keep[|keep| - 1]];
    }
  }

  lemma FreshTablesOk(c: Config)
    requires forall i :: 0 <= i < |c.keep| ==> c.keep[i] < c.numExperts
    ensures TablesOk(c, map[], FreshTables(c.keep, c.numExperts))
  {
    KeepTableRows(c.keep, c.numExperts);
    var bias := FreshTables(c.keep, c.numExperts).bias;
    forall d: Dtype ensures d in bias && bias[d] == KeepColumn(c.keep, c.numExperts, d) {
      match d { case BF16 => case F32 => case F16 => }
    }
  }

  lemma NothingStagedOk(c: Config)
    ensures OwnersOk(c, NothingStaged(c), {})
  {
    var o := NothingStaged(c);
    forall r: nat | |c.keep| <= r < c.Phys() ensures r in o.free {
      assert o.free[r - |c.keep|] == r;
    }
  }

  /** The host dict the passes build holds every cold expert's row of every tensor. */
  lemma HostIsComplete(c: Config, full: Tensors, names: seq<Model.Name>, tids: seq<TensorId>,
                       parts: seq<seq<Model.Row>>, cold: seq<nat>)
    requires |names| == |tids| == |parts| && Matching(parts, cold) && HostHolds(names, parts, cold, c.host, |names|)
    requires full.Keys == set k | 0 <= k < |tids| :: tids[k]
    requires forall t :: t in full ==> |full[t]| == c.numExperts
    requires forall k :: 0 <= k < |names| ==> names[k] in c.attrs && c.attrs[names[k]] == tids[k]
    requires forall g: nat :: g in cold <==> g < c.numExperts && g !in c.keep
    requires forall i :: 0 <= i < |cold| ==> cold[i] in cold && cold[i] < c.numExperts
    requires forall k :: 0 <= k < |tids| ==> tids[k] in full
    requires forall k, i :: 0 <= k < |parts| && 0 <= i < |cold| ==> parts[k][i] == full[tids[k]][cold[i]]
    requires forall i :: 0 <= i < |c.keep| ==> c.keep[i] < c.numExperts
    ensures ConfigOk(c, full) && HoldsAllCold(c, full)
  {
    assert full != map[] <==> |tids| > 0 by {
      if |tids| > 0 { assert tids[0] in full; }
    }
    forall g | g in c.host ensures EntriesOk(c.host[g], g, c, full) && Covers(c.host[g], c.attrs, full) {
      var i :| 0 <= i < |cold| && cold[i] == g;
      assert names[..|names|] == names;
      var entries := Entries(names, parts, i);
      assert c.host[g] == entries;
      forall k | 0 <= k < |entries| ensures EntryOk(entries[k], g, c, full) {
        assert tids[k] in full;
      }
      forall t | t in full
        ensures exists k :: 0 <= k < |entries| && entries[k].0 in c.attrs && c.attrs[entries[k].0] == t
      {
        var k :| 0 <= k < |tids| && tids[k] == t;
        assert entries[k].0 == names[k];
      }
    }
  }

  function Names(params: seq<(Model.Name, TensorId)>): (r: seq<Model.Name>)
    ensures |r| == |params| && forall k :: 0 <= k < |r| ==> r[k] == params[k].0
  {
    seq(|params|, k requires 0 <= k < |params| => params[k].0)
  }

  function Tids(params: seq<(Model.Name, TensorId)>): (r: seq<TensorId>)
    ensures |r| == |params| && forall k :: 0 <= k < |r| ==> r[k] == params[k].1
  {
    seq(|params|, k requires 0 <= k < |params| => params[k].1)
  }

  /** Every E-row tensor reachable by an inventory name, at full size. */
  function FullTensors(attrs: Attrs, heap: Heap, n: nat): Tensors {
    Originals(Tids(DistinctParams(ALL_PARAMS, attrs, heap, n, {})), heap)
  }

  /** The inventory the passes work from: names, tensors and the storage they are bound to. */
  ghost predicate Inventory(names: seq<Model.Name>, tids: seq<TensorId>, attrs: Attrs, full: Tensors, widths: seq<nat>, n: nat) {
    && |names| == |tids| == |widths|
    && full.Keys == (set k | 0 <= k < |tids| :: tids[k])
    && (forall t :: t in full ==> |full[t]| == n)
    && (forall k :: 0 <= k < |names| ==> names[k] in attrs && attrs[names[k]] == tids[k] && tids[k] in full)
    && (forall k, i :: 0 <= k < |tids| && 0 <= i < n ==> |full[tids[k]][i]| == widths[k])
  }

  method GatherHost(names: seq<Model.Name>, tids: seq<TensorId>, full: Tensors, widths: seq<nat>, c: Config)
    returns (host: Host)
    requires Inventory(names, tids, c.attrs, full, widths, c.numExperts)
    requires forall i :: 0 <= i < |c.keep| ==> c.keep[i] < c.numExperts
    ensures ConfigOk(c.(host := host), full) && HoldsAllCold(c.(host := host), full)
  {
    var cold := ColdIds(c.keep, c.numExperts);
    assert forall i :: 0 <= i < |cold| ==> cold[i] in cold;
    var parts := seq(|tids|, k requires 0 <= k < |tids| => Select(full[tids[k]], cold));
    assert Matching(parts, cold) && Rectangular(parts, widths);
    hide Image, Entries, ColdIds;
    var bytes := ColdBytes(parts, widths, |cold|);
    var buf, offsets := FillBuffer(parts, bytes);
    host := HostRows(names, parts, widths, cold, buf, offsets);
    HostIsComplete(c.(host := host), full, names, tids, parts, cold);
  }

  method MoveRows(attrs: Attrs, heap: Heap, keep: seq<nat>, n: nat, slots: nat)
    returns (host: Host, gpu: Tensors)
    requires forall t :: t in heap ==> heap[t].Valid()
    requires forall i :: 0 <= i < |keep| ==> keep[i] < n
    ensures ConfigOk(Config(keep, n, slots, attrs, host), FullTensors(attrs, heap, n))
    ensures HoldsAllCold(Config(keep, n, slots, attrs, host), FullTensors(attrs, heap, n))
    ensures ContentOk(Config(keep, n, slots, attrs, host), map[], gpu, FullTensors(attrs, heap, n))
  {
    hide DistinctParams, ConfigOk;
    var params := DistinctParams(ALL_PARAMS, attrs, heap, n, {});
    var names, tids := Names(params), Tids(params);
    var full := Originals(tids, heap);
    var widths := seq(|tids|, k requires 0 <= k < |tids| => heap[tids[k]].width);
    assert Inventory(names, tids, attrs, full, widths, n) by {
      assert forall k :: 0 <= k < |tids| ==> tids[k] in full;
    }
    host := GatherHost(names, tids, full, widths, Config(keep, n, slots, attrs, map[]));
    gpu := RebuildGpu(tids, full, keep, slots);
  }

  /** The expert count of a quantized layer: w13_weight has rows and a scale beside it. */
  function ExpertCount(attrs: Attrs, heap: Heap): Option<nat> {
    if "w13_weight" in attrs && "w13_weight_scale" in attrs
      && attrs["w13_weight"] in heap && heap[attrs["w13_weight"]].Rowed?
    then Some(|heap[attrs["w13_weight"]].rows|) else None
  }

  /** Whether the layer is passed over: not quantized, not a table, or nothing to offload. */
  predicate NothingToShrink(attrs: Attrs, heap: Heap, keep: seq<nat>) {
    var n := ExpertCount(attrs, heap);
    n.None? || n.value <= 1 || ColdIds(keep, n.value) == []
  }

  /** A quantized expert table of which at least one expert is not kept. */
  ghost predicate Shrinkable(attrs: Attrs, heap: Heap, keep: seq<nat>) {
    && "w13_weight" in attrs && "w13_weight_scale" in attrs
    && attrs["w13_weight"] in heap && heap[attrs["w13_weight"]].Rowed?
    && |heap[attrs["w13_weight"]].rows| > 1
    && exists g: nat :: g < |heap[attrs["w13_weight"]].rows| && g !in keep
  }

  lemma ShrinksWhenShrinkable(attrs: Attrs, heap: Heap, keep: seq<nat>)
    ensures NothingToShrink(attrs, heap, keep) <==> !Shrinkable(attrs, heap, keep)
    ensures Shrinkable(attrs, heap, keep) ==> ExpertCount(attrs, heap) == Some(|heap[attrs["w13_weight"]].rows|)
  {
    var n := ExpertCount(attrs, heap);
    if n.Some? && ColdIds(keep, n.value) != [] {
      var cold := ColdIds(keep, n.value);
      assert cold[0] in cold;
    }
  }

  /** The name the count is read from is in the inventory, so there is a tensor to gather. */
  lemma WeightIsGathered(attrs: Attrs, heap: Heap)
    requires ExpertCount(attrs, heap).Some?
    ensures FullTensors(attrs, heap, ExpertCount(attrs, heap).value) != map[]
  {
    var n := ExpertCount(attrs, heap).value;
    assert ALL_PARAMS[0] == "w13_weight";
    DistinctParamsComplete(ALL_PARAMS, attrs, heap, n, {}, 0);
    var params := DistinctParams(ALL_PARAMS, attrs, heap, n, {});
    hide DistinctParams;
    var i :| 0 <= i < |params| && params[i].1 == attrs["w13_weight"];
    assert Tids(params)[i] in FullTensors(attrs, heap, n);
  }

  /** The pool a shrink hands over: nothing staged, the module's own name bindings, every cold
      expert and no other on the host, and safe. */
  ghost predicate Shrunk(p: Pool, attrs: Attrs, heap: Heap, keep: seq<nat>, n: nat, slots: nat) {
    && p.cfg.keep == keep && p.cfg.numExperts == n && p.cfg.slots == slots && p.cfg.attrs == attrs
    && p.own == NothingStaged(p.cfg)
    && (forall g: nat :: g in p.cfg.host <==> g < n && g !in keep)
    && FullTensors(attrs, heap, n) != map[]
    && Safe(p, FullTensors(attrs, heap, n), {})
  }

  lemma NoneStaged(c: Config)
    ensures NothingStaged(c).gidRow == map[]
  {
  }

  lemma FreshPoolIsShrunk(c: Config, gpu: Tensors, heap: Heap)
    requires ExpertCount(c.attrs, heap) == Some(c.numExperts)
    requires forall i :: 0 <= i < |c.keep| ==> c.keep[i] < c.numExperts
    requires ConfigOk(c, FullTensors(c.attrs, heap, c.numExperts))
    requires HoldsAllCold(c, FullTensors(c.attrs, heap, c.numExperts))
    requires ContentOk(c, map[], gpu, FullTensors(c.attrs, heap, c.numExperts))
    ensures Shrunk(Pool(c, NothingStaged(c), FreshTables(c.keep, c.numExperts), gpu), c.attrs, heap,
                   c.keep, c.numExperts, c.slots)
  {
    hide ConfigOk, ContentOk, TablesOk, OwnersOk, FullTensors, NothingStaged, FreshTables;
    WeightIsGathered(c.attrs, heap);
    FreshTablesOk(c);
    NothingStagedOk(c);
    assert NothingStaged(c).gidRow == map[] by { NoneStaged(c); }
  }

  /** The body of the shrink loop for one layer.  Ok(None): nothing to shrink here; Err: an
      unclassified per-expert tensor, the shrink refuses to arm. */
  method ShrinkLayer(layer: nat, attrs: Attrs, registered: seq<Model.Name>, heap: Heap, keep: seq<nat>,
                     slots: nat, tables: RouterTables)
    returns (r: Result<Option<LayerPool>, seq<Model.Name>>)
    requires forall t :: t in heap ==> heap[t].Valid()
    requires forall i :: 0 <= i < |registered| ==> registered[i] in attrs
    requires ExpertCount(attrs, heap).Some? ==> forall i :: 0 <= i < |keep| ==> keep[i] < ExpertCount(attrs, heap).value
    modifies tables
    ensures r == Ok(None) <==> !Shrinkable(attrs, heap, keep)
    ensures r.Err? <==> Shrinkable(attrs, heap, keep)
                        && exists k :: LeftBehind(registered, attrs, heap, |heap[attrs["w13_weight"]].rows|, k)
    ensures r.Err? ==> forall name ::
              name in r.error <==> exists k :: LeftBehind(registered, attrs, heap, |heap[attrs["w13_weight"]].rows|, k)
                                               && registered[k] == name
    ensures r.Ok? && r.value.Some? ==>
              var pool := r.value.value;
              && fresh(pool) && pool.layer == layer && pool.tables == tables && layer in tables.remap
              && Shrunk(pool.State(), attrs, heap, keep, |heap[attrs["w13_weight"]].rows|, slots)
              && pool.gidRow == map[] && pool.guarded == {} && pool.tick == 0
              && |pool.free| == slots && forall i :: 0 <= i < slots ==> pool.free[i] == |keep| + i
    ensures OnlyLayer(layer, old(tables.remap), old(tables.bias), tables.remap, tables.bias)
  {
    hide OnlyLayer, ConfigOk, ContentOk, HoldsAllCold, FullTensors, Shrunk, NothingToShrink, InventoryGate, NamedParameters,
      LeftBehind, ExpertCount;
    OnlyLayerNothing(layer, tables.remap, tables.bias);
    ShrinksWhenShrinkable(attrs, heap, keep);
    if NothingToShrink(attrs, heap, keep) {
      return Ok(None);
    }
    var n := ExpertCount(attrs, heap).value;
    var bad := InventoryGate(NamedParameters(registered, attrs, {}), attrs, heap, n);
    GateOutcome(registered, attrs, heap, n);
    if bad != [] {
      return Err(bad);
    }
    var host, gpu := MoveRows(attrs, heap, keep, n, slots);
    tables.BuildTables(layer, keep, n);
    var cfg := Config(keep, n, slots, attrs, host);
    FreshPoolIsShrunk(cfg, gpu, heap);
    var pool := new LayerPool(layer, cfg, tables, gpu);
    return Ok(Some(pool));
  }
}
