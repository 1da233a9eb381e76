/** The overlapping conv-window buffer: one strided view in which window t of a request shares
    all but one column with window t + 1. */
module ConvWindow {
  import opened Wrappers

  // ---------------------------------------------------------------- which axis slides

  datatype ConvShape = ConvShape(rows: nat, cols: nat)

  datatype AxisError = NoWindowAxis(at: nat) | MixedLayouts(at: nat)

  /** The trailing axis when it has the window length, else the leading one. */
  function ShapeAxis(shape: ConvShape, winLen: nat): Option<nat> {
    if shape.cols == winLen then Some(1) else if shape.rows == winLen then Some(0) else None
  }

  function Extent(shape: ConvShape, axis: nat): nat {
    if axis == 0 then shape.rows else shape.cols
  }

  /** _detect_conv_window_axis */
  method DetectAxis(shapes: seq<ConvShape>, winLen: nat) returns (res: Result<Option<nat>, AxisError>)
    ensures res == Ok(None) <==> shapes == []
    ensures res.Ok? && res.value.Some? ==>
      forall i :: 0 <= i < |shapes| ==>
        ShapeAxis(shapes[i], winLen) == res.value && Extent(shapes[i], res.value.value) == winLen
    ensures res.Err? ==>
      var i := res.error.at;
      && i < |shapes|
      && (forall j :: 0 <= j < i ==> ShapeAxis(shapes[j], winLen).Some? && ShapeAxis(shapes[j], winLen) == ShapeAxis(shapes[0], winLen))
      && (res.error.NoWindowAxis? <==> ShapeAxis(shapes[i], winLen) == None)
      && (res.error.MixedLayouts? ==> i > 0 && ShapeAxis(shapes[i], winLen) != ShapeAxis(shapes[0], winLen))
    ensures res.Ok? && res.value.Some? ==> forall i :: 0 <= i < |shapes| ==>
      if shapes[i].cols == winLen then res.value == Some(1) else shapes[i].rows == winLen && res.value == Some(0)
    ensures res.Err? && res.error.NoWindowAxis? ==>
      shapes[res.error.at].rows != winLen && shapes[res.error.at].cols != winLen
    ensures res.Err? && res.error.MixedLayouts? ==>
      var a, b := shapes[0], shapes[res.error.at];
      if a.cols == winLen then b.cols != winLen && b.rows == winLen else a.rows == winLen && b.cols == winLen
  {
    var axis: Option<nat> := None;
    for i := 0 to |shapes|
      invariant axis == None <==> i == 0
      invariant axis.Some? ==> forall j :: 0 <= j < i ==> ShapeAxis(shapes[j], winLen) == axis
    {
      var shapeAxis := ShapeAxis(shapes[i], winLen);
      if shapeAxis == None { return Err(NoWindowAxis(i)); }
      if axis == None {
        axis := shapeAxis;
      } else if axis != shapeAxis {
        return Err(MixedLayouts(i));
      }
    }
    return Ok(axis);
  }

  // ---------------------------------------------------------------- strides

  /** layers x slots x drafts windows of the conv shape, sliding along `axis`. */
  datatype Layout = Layout(layers: nat, slots: nat, drafts: nat, conv: ConvShape, axis: nat) {

    predicate Valid() { drafts >= 1 && axis <= 1 }

    function PhysRows(): nat
      requires Valid()
    {
      if axis == 0 then drafts + conv.rows - 1 else conv.rows
    }

    function PhysCols(): nat
      requires Valid()
    {
      if axis == 1 then drafts + conv.cols - 1 else conv.cols
    }

    /** Strides of the contiguous physical tensor: layer, slot, row; a column has stride 1. */
    function LayerStride(): nat
      requires Valid()
    {
      slots * (PhysRows() * PhysCols())
    }

    function SlotStride(): nat
      requires Valid()
    {
      PhysRows() * PhysCols()
    }

    function WindowStride(): nat
      requires Valid()
    {
      if axis == 0 then PhysCols() else 1
    }

    function Size(): nat
      requires Valid()
    {
      layers * LayerStride()
    }
  }

  /** A cell of the view: layer, slot, draft step, and position in that step's window. */
  datatype Cell = Cell(layer: nat, slot: nat, step: nat, row: nat, col: nat) {
    predicate In(lay: Layout) {
      layer < lay.layers && slot < lay.slots && step < lay.drafts && row < lay.conv.rows && col < lay.conv.cols
    }
  }

  /** A cell of the physical tensor. */
  datatype PhysCell = PhysCell(layer: nat, slot: nat, row: nat, col: nat) {
    predicate In(lay: Layout)
      requires lay.Valid()
    {
      layer < lay.layers && slot < lay.slots && row < lay.PhysRows() && col < lay.PhysCols()
    }
  }

  function PhysAddress(lay: Layout, p: PhysCell): nat
    requires lay.Valid()
  {
    p.layer * lay.LayerStride() + p.slot * lay.SlotStride() + p.row * lay.PhysCols() + p.col
  }

  /** What as_strided computes. */
  function ViewAddress(lay: Layout, c: Cell): nat
    requires lay.Valid()
  {
    c.layer * lay.LayerStride() + c.slot * lay.SlotStride() + c.step * lay.WindowStride()
    + c.row * lay.PhysCols() + c.col
  }

  /** Window position moved along the window axis by the draft step. */
  function Slide(lay: Layout, c: Cell): PhysCell {
    if lay.axis == 0 then PhysCell(c.layer, c.slot, c.row + c.step, c.col)
    else PhysCell(c.layer, c.slot, c.row, c.col + c.step)
  }

  lemma Distribute(a: nat, b: nat, n: nat)
    ensures (a + b) * n == a * n + b * n
  {
  }

  /** Digit r under q in base n. */
  function Place(q: nat, n: nat, r: nat): nat { q * n + r }

  lemma PlaceBound(q: nat, bound: nat, n: nat, r: nat)
    requires q < bound && r < n
    ensures Place(q, n, r) < bound * n
  {
    Distribute(bound - q - 1, q + 1, n);
    Distribute(q, 1, n);
  }

  lemma PlaceUnique(q1: nat, r1: nat, q2: nat, r2: nat, n: nat)
    requires r1 < n && r2 < n && Place(q1, n, r1) == Place(q2, n, r2)
    ensures q1 == q2 && r1 == r2
  {
    if q1 < q2 { PlaceBound(q1, q2, n, r1); }
    if q2 < q1 { PlaceBound(q2, q1, n, r2); }
  }

  function RowPart(lay: Layout, p: PhysCell): nat
    requires lay.Valid()
  {
    Place(p.row, lay.PhysCols(), p.col)
  }

  function SlotPart(lay: Layout, p: PhysCell): nat
    requires lay.Valid()
  {
    Place(p.slot, lay.SlotStride(), RowPart(lay, p))
  }

  lemma AddressIsNested(lay: Layout, p: PhysCell)
    requires lay.Valid() && p.In(lay)
    ensures PhysAddress(lay, p) == Place(p.layer, lay.LayerStride(), SlotPart(lay, p)) < lay.Size()
    ensures RowPart(lay, p) < lay.SlotStride() && SlotPart(lay, p) < lay.LayerStride()
  {
    PlaceBound(p.row, lay.PhysRows(), lay.PhysCols(), p.col);
    PlaceBound(p.slot, lay.slots, lay.SlotStride(), RowPart(lay, p));
    PlaceBound(p.layer, lay.layers, lay.LayerStride(), SlotPart(lay, p));
  }

  lemma AddressInjective(lay: Layout, p: PhysCell, q: PhysCell)
    requires lay.Valid() && p.In(lay) && q.In(lay) && PhysAddress(lay, p) == PhysAddress(lay, q)
    ensures p == q
  {
    AddressIsNested(lay, p);
    AddressIsNested(lay, q);
    hide Layout.LayerStride, Layout.SlotStride, Layout.PhysRows, Layout.PhysCols, Place, PhysAddress;
    PlaceUnique(p.layer, SlotPart(lay, p), q.layer, SlotPart(lay, q), lay.LayerStride());
    PlaceUnique(p.slot, RowPart(lay, p), q.slot, RowPart(lay, q), lay.SlotStride());
    PlaceUnique(p.row, p.col, q.row, q.col, lay.PhysCols());
  }

  /** A view cell and its slid physical cell are the same element, inside the buffer. */
  lemma ViewIsPhysical(lay: Layout, c: Cell)
    requires lay.Valid() && c.In(lay)
    ensures Slide(lay, c).In(lay)
    ensures ViewAddress(lay, c) == PhysAddress(lay, Slide(lay, c)) < lay.Size()
  {
    AddressIsNested(lay, Slide(lay, c));
    if lay.axis == 0 { Distribute(c.row, c.step, lay.PhysCols()); }
  }

  /** Two view cells share an element exactly when they slide to the same physical cell. */
  lemma AliasIff(lay: Layout, c: Cell, d: Cell)
    requires lay.Valid() && c.In(lay) && d.In(lay)
    ensures ViewAddress(lay, c) == ViewAddress(lay, d) <==> Slide(lay, c) == Slide(lay, d)
  {
    ViewIsPhysical(lay, c);
    ViewIsPhysical(lay, d);
    if ViewAddress(lay, c) == ViewAddress(lay, d) {
      AddressInjective(lay, Slide(lay, c), Slide(lay, d));
    }
  }

  /** No element of the buffer is wasted: every one is some window's. */
  lemma EveryElementIsInAWindow(lay: Layout, p: PhysCell) returns (c: Cell)
    requires lay.Valid() && p.In(lay) && Extent(lay.conv, lay.axis) > 0
    ensures c.In(lay) && Slide(lay, c) == p
  {
    var at := if lay.axis == 0 then p.row else p.col;
    var step := if at < lay.drafts then at else lay.drafts - 1;
    c := if lay.axis == 0 then Cell(p.layer, p.slot, step, p.row - step, p.col)
         else Cell(p.layer, p.slot, step, p.row, p.col - step);
  }

  // ---------------------------------------------------------------- writing windows

  /** The input a request's windows slide over: one value per channel and time. */
  type Stream<V> = (nat, nat, nat, nat) -> V

  /** What window `c.step` of the sequence holds at a cell: its time is step plus offset. */
  function StreamAt<V>(lay: Layout, stream: Stream<V>, c: Cell): V {
    if lay.axis == 0 then stream(c.layer, c.slot, c.col, c.step + c.row)
    else stream(c.layer, c.slot, c.row, c.step + c.col)
  }

  class Windows<V(0)> {
    const lay: Layout
    const phys: array<V>

    ghost predicate Valid() {
      lay.Valid() && phys.Length == lay.Size()
    }

    /** _allocate_deduplicated_conv_window */
    constructor (lay: Layout, zero: V)
      requires lay.Valid()
      ensures Valid() && this.lay == lay && fresh(phys)
      ensures forall c: Cell {:trigger c.In(lay)} :: c.In(lay) ==> ViewAddress(lay, c) < phys.Length && Get(c) == zero
    {
      this.lay := lay;
      phys := new V[lay.Size()](_ => zero);
      new;
      forall c: Cell {:trigger c.In(lay)} | c.In(lay)
        ensures ViewAddress(lay, c) < phys.Length && Get(c) == zero
      {
        ViewIsPhysical(lay, c);
      }
    }

    function Get(c: Cell): V
      requires Valid() && c.In(lay)
      reads phys
    {
      ViewIsPhysical(lay, c);
      phys[ViewAddress(lay, c)]
    }

    method Set(c: Cell, v: V)
      requires Valid() && c.In(lay)
      modifies phys
      ensures forall d: Cell {:trigger d.In(lay)} :: d.In(lay) ==>
        Get(d) == if Slide(lay, d) == Slide(lay, c) then v else old(Get(d))
    {
      ViewIsPhysical(lay, c);
      phys[ViewAddress(lay, c)] := v;
      forall d: Cell {:trigger d.In(lay)} | d.In(lay)
        ensures Get(d) == if Slide(lay, d) == Slide(lay, c) then v else old(Get(d))
      {
        ViewIsPhysical(lay, d);
        AliasIff(lay, c, d);
      }
    }

    /** Every window of one sliding sequence stored through the view, cell by cell in any order,
        with any repeats: each stored cell reads back as its own window's value, and a cell no
        stored one shares an element with is untouched. */
    method StoreWindows(cells: seq<Cell>, stream: Stream<V>)
      requires Valid() && forall i :: 0 <= i < |cells| ==> cells[i].In(lay)
      modifies phys
      ensures forall i :: 0 <= i < |cells| ==> Get(cells[i]) == StreamAt(lay, stream, cells[i])
      ensures forall d: Cell {:trigger d.In(lay)} :: d.In(lay) && (forall i :: 0 <= i < |cells| ==> Slide(lay, cells[i]) != Slide(lay, d)) ==>
        Get(d) == old(Get(d))
    {
      for n := 0 to |cells|
        invariant forall i :: 0 <= i < n ==> Get(cells[i]) == StreamAt(lay, stream, cells[i])
        invariant forall d: Cell {:trigger d.In(lay)} :: d.In(lay) && (forall i :: 0 <= i < n ==> Slide(lay, cells[i]) != Slide(lay, d)) ==>
          Get(d) == old(Get(d))
      {
        Set(cells[n], StreamAt(lay, stream, cells[n]));
        forall i | 0 <= i < n ensures Get(cells[i]) == StreamAt(lay, stream, cells[i]) {
          if Slide(lay, cells[i]) == Slide(lay, cells[n]) { SharedCellsAgree(lay, stream, cells[i], cells[n]); }
        }
      }
    }
  }

  /** Overlapping windows of one sequence never disagree about the element they share. */
  lemma SharedCellsAgree<V>(lay: Layout, stream: Stream<V>, c: Cell, d: Cell)
    requires lay.Valid() && Slide(lay, c) == Slide(lay, d)
    ensures StreamAt(lay, stream, c) == StreamAt(lay, stream, d)
  {
  }
}
