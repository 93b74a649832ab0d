/** The grid layout of `svCircuit::placeDevices` and the box of
    `svCircuit::updateBoundingBox`, on device values: where each strategy
    puts the devices, the translation that follows, and the bounding box of
    the result.  The older `svSubckt::draw` runs the heuristic rule on a
    vector of positions of its own, with a translation computed from the
    positions alone; both forms are here. */
module Placement {
  import opened Common
  import opened Geometry
  import opened Devices
  import opened Graphs

  /** `svPlaceAlgorithm`, with the three cases `placeDevices` switches on. */
  datatype Algorithm = NonOverlapped | KamadaKawai | Heuristic1

  /** Every device keeps the device invariant, as in a valid circuit. */
  predicate AllOk(ds: seq<DeviceValue>)
  {
    forall i :: 0 <= i < |ds| ==> ValueOk(ds[i])
  }

  function Leftmost(d: DeviceValue): Point
  {
    ShapeOf(d.kind).leftmost
  }

  function Rightmost(d: DeviceValue): Point
  {
    ShapeOf(d.kind).rightmost
  }

  function Bottommost(d: DeviceValue): Point
  {
    ShapeOf(d.kind).bottommost
  }

  /** The grid column of the device's leftmost node. */
  function AbsLeft(d: DeviceValue): int
  {
    d.position.x + Leftmost(d).x
  }

  /** The grid column of the device's rightmost node. */
  function AbsRight(d: DeviceValue): int
  {
    d.position.x + Rightmost(d).x
  }

  /** The grid row of the device's bottommost node. */
  function AbsBottom(d: DeviceValue): int
  {
    d.position.y + Bottommost(d).y
  }

  /** The devices with their positions replaced. */
  function Reposition(ds: seq<DeviceValue>, ps: seq<Point>): (r: seq<DeviceValue>)
    requires |ps| == |ds|
    ensures |r| == |ds| && forall i :: 0 <= i < |ds| ==> r[i] == ds[i].(position := ps[i])
  {
    seq(|ds|, i requires 0 <= i < |ds| => ds[i].(position := ps[i]))
  }

  function Positions(ds: seq<DeviceValue>): (ps: seq<Point>)
    ensures |ps| == |ds| && forall i :: 0 <= i < |ds| ==> ps[i] == ds[i].position
  {
    seq(|ds|, i requires 0 <= i < |ds| => ds[i].position)
  }

  function Zeros(n: nat): (ps: seq<Point>)
    ensures |ps| == n && forall i :: 0 <= i < n ==> ps[i] == Point(0, 0)
  {
    seq(n, _ => Point(0, 0))
  }

  // ---------------------------------------------------------------------------
  // SVPA_PLACE_NON_OVERLAPPED
  // ---------------------------------------------------------------------------

  /** The column `lastPt.x` holds when device `i` (from 1 on) is placed:
      one column right of device 0's rightmost node, then one column more
      than the width of each device placed since. */
  function LastX(ds: seq<DeviceValue>, i: nat): (x: int)
    requires 1 <= i <= |ds|
    ensures AllOk(ds) ==> x >= Rightmost(ds[0]).x + i
    decreases i
  {
    if i == 1 then Rightmost(ds[0]).x + 1
    else LastX(ds, i - 1) + (Rightmost(ds[i - 1]).x - Leftmost(ds[i - 1]).x) + 1
  }

  /** Device 0 at the origin; every later device with its leftmost node on
      the column `lastPt.x`, on the row of device 0's rightmost node.  Node
      0 is at (0,0) in every shape, so the distance from the leftmost node to
      node 0 is `-leftmost.x`. */
  function NonOverlappedLayout(ds: seq<DeviceValue>): (ps: seq<Point>)
    requires |ds| > 0
    ensures |ps| == |ds| && ps[0] == Point(0, 0)
  {
    seq(|ds|, i requires 0 <= i < |ds| =>
      if i == 0 then Point(0, 0) else Point(LastX(ds, i) - Leftmost(ds[i]).x, Rightmost(ds[0]).y))
  }

  /** One pass of the placement loop: device `i` goes `-leftmost.x`
      columns right of `lastPt`, which then moves past the device. */
  lemma NonOverlappedStep(ds: seq<DeviceValue>, i: nat)
    requires 1 <= i < |ds|
    ensures NonOverlappedLayout(ds)[i] == Point(LastX(ds, i) - Leftmost(ds[i]).x, Rightmost(ds[0]).y)
    ensures LastX(ds, i + 1) == LastX(ds, i) + (Rightmost(ds[i]).x - Leftmost(ds[i]).x) + 1
  {
  }

  // ---------------------------------------------------------------------------
  // SVPA_HEURISTIC_1 (and the placement in the older `svSubckt::draw`)
  // ---------------------------------------------------------------------------

  /** The number of ground nodes at the head of a node list. */
  function GroundRun(ns: seq<string>): (g: nat)
    ensures g <= |ns| && (forall k :: 0 <= k < g ==> ns[k] == Ground) && (g < |ns| ==> ns[g] != Ground)
  {
    if ns == [] || ns[0] != Ground then 0 else 1 + GroundRun(ns[1..])
  }

  /** The heuristic reads device 0's nodes `getNode(j)` for j from 0 until
      the first non-ground one, as long as j is below `getNodesCount()`;
      `getNode` indexes the node vector unchecked, so every node it reads
      must exist. */
  predicate HeuristicDefined(ds: seq<DeviceValue>)
  {
    ds == [] || NodesReadable(ds[0])
  }

  /** The nodes of `d0` that the heuristic reads all exist. */
  predicate NodesReadable(d0: DeviceValue)
  {
    GroundRun(d0.nodes) < |d0.nodes| || NodesCount(d0.kind) <= GroundRun(d0.nodes)
  }

  /** The node the heuristic places around: device 0's first non-ground
      node among its first `getNodesCount()` ones. */
  function SharedNode(d0: DeviceValue): (r: Option<string>)
    ensures r.Some? ==> r.value in d0.nodes && r.value != Ground
  {
    var g := GroundRun(d0.nodes);
    if g < NodesCount(d0.kind) && g < |d0.nodes| then Some(d0.nodes[g]) else None
  }

  /** The first device from `i` on attached to `n`. */
  function FirstConnected(ds: seq<DeviceValue>, n: string, i: nat): (r: Option<nat>)
    requires i <= |ds|
    ensures r.Some? ==> i <= r.value < |ds| && n in ds[r.value].nodes
    ensures r.Some? ==> forall k :: i <= k < r.value ==> n !in ds[k].nodes
    ensures r.None? ==> forall k :: i <= k < |ds| ==> n !in ds[k].nodes
    decreases |ds| - i
  {
    if i == |ds| then None
    else if n in ds[i].nodes then Some(i)
    else FirstConnected(ds, n, i + 1)
  }

  /** Which device is attached to `n` does not depend on where the devices
      are. */
  lemma {:induction false} FirstConnectedRepositioned(ds: seq<DeviceValue>, ps: seq<Point>, n: string, i: nat)
    requires |ps| == |ds| && i <= |ds|
    ensures FirstConnected(Reposition(ds, ps), n, i) == FirstConnected(ds, n, i)
    decreases |ds| - i
  {
    if i < |ds| {
      FirstConnectedRepositioned(ds, ps, n, i + 1);
    }
  }

  /** Where the heuristic moves a device attached to `n`: its leftmost node
      one column right of device 0's node 0, and its row lowered by the row
      offset of its own `n` node. */
  function HeuristicPoint(d: DeviceValue, n: string): (p: Point)
    requires ValueOk(d) && n in d.nodes
    ensures p.x >= 1 && p.x + Leftmost(d).x == 1
  {
    var t := FirstIndex(d.nodes, n);
    Point(0 + 1 - Leftmost(d).x, 0 + RelativeNodePosition(d.kind, t).value.y)
  }

  /** The heuristic's point for a device whose first `n` node is node `t`. */
  lemma HeuristicPointAt(d: DeviceValue, n: string, t: nat)
    requires ValueOk(d) && t < |d.nodes| && d.nodes[t] == n && n !in d.nodes[..t]
    ensures RelativeNodePosition(d.kind, t).Some?
    ensures HeuristicPoint(d, n) == Point(1 - Leftmost(d).x, RelativeNodePosition(d.kind, t).value.y)
  {
    FirstIndexUnique(d.nodes, n, t);
  }

  /** The device the heuristic moves, if any. */
  function Moved(ds: seq<DeviceValue>): Option<nat>
    requires |ds| > 0
  {
    match SharedNode(ds[0])
    case None => None
    case Some(n) => FirstConnected(ds, n, 1)
  }

  /** Every device at the origin, except the first device after device 0
      attached to device 0's shared node. */
  function HeuristicLayout(ds: seq<DeviceValue>): (ps: seq<Point>)
    requires |ds| > 0 && AllOk(ds)
    ensures |ps| == |ds|
  {
    match Moved(ds)
    case None => Zeros(|ds|)
    case Some(i) => Zeros(|ds|)[i := HeuristicPoint(ds[i], SharedNode(ds[0]).value)]
  }

  // ---------------------------------------------------------------------------
  // The normalising translation
  // ---------------------------------------------------------------------------

  /** `min(0, min leftmost.x)` over the devices: the relative leftmost
      column, not the absolute one. */
  function LowLeft(ds: seq<DeviceValue>): (m: int)
    ensures m <= 0 && forall i :: 0 <= i < |ds| ==> m <= Leftmost(ds[i]).x
    decreases |ds|
  {
    if ds == [] then 0 else Min(LowLeft(ds[..|ds| - 1]), Leftmost(ds[|ds| - 1]).x)
  }

  /** `min(0, min position.y)` over the devices. */
  function LowY(ds: seq<DeviceValue>): (m: int)
    ensures m <= 0 && forall i :: 0 <= i < |ds| ==> m <= ds[i].position.y
    ensures m == 0 || exists i :: 0 <= i < |ds| && m == ds[i].position.y
    decreases |ds|
  {
    if ds == [] then 0
    else
      var m := LowY(ds[..|ds| - 1]);
      assert forall i :: 0 <= i < |ds| - 1 ==> ds[..|ds| - 1][i] == ds[i];
      Min(m, ds[|ds| - 1].position.y)
  }

  /** `min(0, min position.x)` over the devices, which the older
      `svSubckt::draw` uses where `placeDevices` uses the leftmost column. */
  function LowX(ds: seq<DeviceValue>): (m: int)
    ensures m <= 0 && forall i :: 0 <= i < |ds| ==> m <= ds[i].position.x
    decreases |ds|
  {
    if ds == [] then 0 else Min(LowX(ds[..|ds| - 1]), ds[|ds| - 1].position.x)
  }

  /** The offset of the older `svSubckt::draw`. */
  function DrawOffset(ds: seq<DeviceValue>): (off: Point)
    ensures off.x >= 2 && off.y >= 2
    ensures forall i :: 0 <= i < |ds| ==> ds[i].position.x + off.x >= 2 && ds[i].position.y + off.y >= 2
  {
    Point(2 - LowX(ds), 2 - LowY(ds))
  }

  /** `wxPoint(2,2) - offset`. */
  function Offset(ds: seq<DeviceValue>): Point
  {
    Point(2 - LowLeft(ds), 2 - LowY(ds))
  }

  function Translate(ds: seq<DeviceValue>, off: Point): (r: seq<DeviceValue>)
    ensures |r| == |ds| && forall i :: 0 <= i < |ds| ==> r[i] == ds[i].(position := ds[i].position.Plus(off))
  {
    seq(|ds|, i requires 0 <= i < |ds| => ds[i].(position := ds[i].position.Plus(off)))
  }

  /** The positions a strategy sets, before the translation.  The
      Kamada-Kawai case sets none. */
  function Arranged(ds: seq<DeviceValue>, ag: Algorithm): (r: seq<DeviceValue>)
    requires |ds| > 0 && AllOk(ds)
    ensures |r| == |ds|
  {
    match ag
    case NonOverlapped => Reposition(ds, NonOverlappedLayout(ds))
    case KamadaKawai => ds
    case Heuristic1 => Reposition(ds, HeuristicLayout(ds))
  }

  /** The devices after `placeDevices(ag)`. */
  function Placed(ds: seq<DeviceValue>, ag: Algorithm): (r: seq<DeviceValue>)
    requires |ds| > 0 && AllOk(ds)
    ensures |r| == |ds|
  {
    var a := Arranged(ds, ag);
    Translate(a, Offset(a))
  }

  // ---------------------------------------------------------------------------
  // updateBoundingBox
  // ---------------------------------------------------------------------------

  /** `INT_MAX - 1`, the start of the two minimum folds. */
  const Sentinel: int := 2147483646

  /** One pass of the fold: the left and top edges are minimums, the right
      and bottom edges (kept in width and height) maximums. */
  function BoxStep(r: Rect, d: DeviceValue): Rect
  {
    Rect(Min(AbsLeft(d), r.x), Min(d.position.y, r.y), Max(AbsRight(d), r.width), Max(AbsBottom(d), r.height))
  }

  /** The fold only widens the box it starts from. */
  function BoxFold(ds: seq<DeviceValue>, start: Rect): (f: Rect)
    ensures f.x <= start.x && f.y <= start.y && f.width >= start.width && f.height >= start.height
    decreases |ds|
  {
    if ds == [] then start else BoxStep(BoxFold(ds[..|ds| - 1], start), ds[|ds| - 1])
  }

  /** The fold starts from the sentinel for the left and top edges and from
      the previous width and height for the right and bottom edges. */
  function BoxStart(prior: Rect): Rect
  {
    Rect(Sentinel, Sentinel, prior.width, prior.height)
  }

  /** `m_bb` after `updateBoundingBox`, given the box it held before. */
  function BoundingBox(ds: seq<DeviceValue>, prior: Rect): (b: Rect)
    ensures b.x + b.width >= prior.width && b.y + b.height >= prior.height
  {
    var f := BoxFold(ds, BoxStart(prior));
    Rect(f.x, f.y, f.width - f.x, f.height - f.y)
  }

  // ---------------------------------------------------------------------------
  // Properties
  // ---------------------------------------------------------------------------

  /** A device's leftmost node is never right of its rightmost one, and
      node 0 lies between them. */
  lemma DeviceExtent(d: DeviceValue)
    requires ValueOk(d)
    ensures Leftmost(d).x <= 0 <= Rightmost(d).x && 0 <= Bottommost(d).y
    ensures AbsLeft(d) <= d.position.x <= AbsRight(d)
  {
    ExtentsAroundNodeZero(d.kind);
  }

  /** Under the non-overlapped strategy a device from 1 on spans the
      columns `LastX` to `LastX` plus its width. */
  lemma NonOverlappedExtent(ds: seq<DeviceValue>, i: nat)
    requires |ds| > 0 && AllOk(ds) && 1 <= i < |ds|
    ensures var a := Arranged(ds, NonOverlapped);
      && AbsLeft(a[i]) == LastX(ds, i)
      && AbsRight(a[i]) == LastX(ds, i) + Rightmost(ds[i]).x - Leftmost(ds[i]).x
      && a[i].position.y == Rightmost(ds[0]).y
  {
  }

  /** Non-overlapped placement puts each device's leftmost node one column
      right of the previous device's rightmost node, and every device after
      the first on one row. */
  lemma NonOverlappedSideBySide(ds: seq<DeviceValue>, i: nat)
    requires AllOk(ds) && 1 <= i < |ds|
    ensures var a := Arranged(ds, NonOverlapped);
      && AbsLeft(a[i]) == AbsRight(a[i - 1]) + 1
      && a[i].position.y == Rightmost(ds[0]).y
  {
    NonOverlappedExtent(ds, i);
    if i > 1 {
      NonOverlappedExtent(ds, i - 1);
    }
  }

  /** `lastPt.x` only grows: past each device placed, by more than the
      device's width. */
  lemma {:induction false} LastXGrows(ds: seq<DeviceValue>, i: nat, j: nat)
    requires AllOk(ds) && 1 <= i < j <= |ds|
    ensures LastX(ds, i) + Rightmost(ds[i]).x - Leftmost(ds[i]).x < LastX(ds, j)
    decreases j
  {
    if i < j - 1 {
      LastXGrows(ds, i, j - 1);
      DeviceExtent(ds[j - 1]);
    }
  }

  /** The horizontal extents of the devices are disjoint and follow the
      device order. */
  lemma NonOverlappedDisjoint(ds: seq<DeviceValue>, i: nat, j: nat)
    requires AllOk(ds) && i < j < |ds|
    ensures var a := Arranged(ds, NonOverlapped); AbsRight(a[i]) < AbsLeft(a[j])
  {
    NonOverlappedExtent(ds, j);
    if i == 0 {
      if j > 1 {
        LastXGrows(ds, 1, j);
        DeviceExtent(ds[1]);
      }
    } else {
      NonOverlappedExtent(ds, i);
      LastXGrows(ds, i, j);
    }
  }

  /** The heuristic moves at most one device off the origin: the first one
      after device 0 attached to device 0's shared node, which goes one
      column right of device 0's node 0. */
  lemma HeuristicMovesOne(ds: seq<DeviceValue>, i: nat)
    requires AllOk(ds) && i < |ds|
    ensures var a := Arranged(ds, Heuristic1);
      && (a[i].position != Point(0, 0) ==> Moved(ds) == Some(i))
      && (Moved(ds) == Some(i) ==>
            && 1 <= i
            && AbsLeft(a[i]) == 1
            && SharedNode(ds[0]).value in ds[i].nodes
            && forall k :: 1 <= k < i ==> SharedNode(ds[0]).value !in ds[k].nodes)
  {
  }

  /** With no non-ground node among device 0's first `getNodesCount()`
      ones, or no other device attached to it, nothing moves. */
  lemma HeuristicNoMove(ds: seq<DeviceValue>)
    requires AllOk(ds) && |ds| > 0
    requires SharedNode(ds[0]).None? || forall k :: 1 <= k < |ds| ==> SharedNode(ds[0]).value !in ds[k].nodes
    ensures Positions(Arranged(ds, Heuristic1)) == Zeros(|ds|)
  {
    if SharedNode(ds[0]).Some? {
      var f := FirstConnected(ds, SharedNode(ds[0]).value, 1);
      assert f.None?;
    }
  }

  /** The translation is the same for every device, so it keeps the
      distances between them. */
  lemma PlacedIsTranslation(ds: seq<DeviceValue>, ag: Algorithm)
    requires AllOk(ds) && |ds| > 0
    ensures var a := Arranged(ds, ag); var p := Placed(ds, ag);
      forall i :: 0 <= i < |ds| ==>
        && p[i].position == a[i].position.Plus(Offset(a))
        && p[i].kind == ds[i].kind && p[i].nodes == ds[i].nodes && p[i].name == ds[i].name && p[i].props == ds[i].props
  {
  }

  /** The placement keeps each device's kind, name, nodes and members: only
      positions change. */
  lemma PlacedKeepsDevices(ds: seq<DeviceValue>, ag: Algorithm)
    requires AllOk(ds) && |ds| > 0
    ensures AllOk(Placed(ds, ag))
    ensures forall i :: 0 <= i < |ds| ==> Placed(ds, ag)[i] == ds[i].(position := Placed(ds, ag)[i].position)
  {
    var a := Arranged(ds, ag);
    assert forall i :: 0 <= i < |ds| ==> a[i] == ds[i].(position := a[i].position);
  }

  /** After any strategy every device, and so every node, is at row 2 or
      below, and the topmost device is on row 2 exactly. */
  lemma PlacedRows(ds: seq<DeviceValue>, ag: Algorithm)
    requires AllOk(ds) && |ds| > 0
    ensures var p := Placed(ds, ag);
      && (forall i :: 0 <= i < |p| ==> p[i].position.y >= 2)
      && (ag != KamadaKawai ==> exists i :: 0 <= i < |p| && p[i].position.y == 2)
  {
    var a := Arranged(ds, ag);
    var p := Placed(ds, ag);
    if ag != KamadaKawai {
      assert a[0].position.y == 0;
      var m := LowY(a);
      if m == 0 {
        assert p[0].position.y == 2;
      } else {
        var i :| 0 <= i < |a| && m == a[i].position.y;
        assert p[i].position.y == 2;
      }
    }
  }

  /** Every position a strategy other than Kamada-Kawai sets has x >= 0. */
  lemma ArrangedColumns(ds: seq<DeviceValue>, ag: Algorithm, i: nat)
    requires AllOk(ds) && i < |ds| && ag != KamadaKawai
    ensures Arranged(ds, ag)[i].position.x >= 0
  {
    DeviceExtent(ds[i]);
    if ag == NonOverlapped && i >= 1 {
      LastXPositive(ds, i);
    }
  }

  lemma {:induction false} LastXPositive(ds: seq<DeviceValue>, i: nat)
    requires AllOk(ds) && 1 <= i <= |ds|
    ensures LastX(ds, i) >= 1
    decreases i
  {
    DeviceExtent(ds[i - 1]);
    if i > 1 {
      LastXPositive(ds, i - 1);
    }
  }

  /** With the non-overlapped or the heuristic strategy, every node of every
      device ends at column 2 or right of it: the translation makes the
      leftmost nodes non-negative plus two, and those strategies put no
      device left of column 0. */
  lemma PlacedColumns(ds: seq<DeviceValue>, ag: Algorithm, i: nat)
    requires AllOk(ds) && i < |ds| && ag != KamadaKawai
    ensures AbsLeft(Placed(ds, ag)[i]) >= 2
  {
    var a := Arranged(ds, ag);
    ArrangedColumns(ds, ag, i);
    assert Leftmost(a[i]) == Leftmost(ds[i]);
    assert LowLeft(a) <= Leftmost(a[i]).x;
  }

  /** The box holds every device: its leftmost and rightmost nodes lie
      between its left and right edges, and its node 0 and bottommost node
      between its top and bottom edges. */
  lemma {:induction false} BoxFoldContains(ds: seq<DeviceValue>, start: Rect, i: nat)
    requires i < |ds|
    ensures var f := BoxFold(ds, start);
      && f.x <= AbsLeft(ds[i]) && AbsRight(ds[i]) <= f.width
      && f.y <= ds[i].position.y && AbsBottom(ds[i]) <= f.height
    decreases |ds|
  {
    if i < |ds| - 1 {
      BoxFoldContains(ds[..|ds| - 1], start, i);
    }
  }

  /** Each edge of the box is the starting value or an edge of some
      device. */
  lemma {:induction false} BoxFoldTight(ds: seq<DeviceValue>, start: Rect)
    ensures var f := BoxFold(ds, start);
      && (f.x == start.x || exists i :: 0 <= i < |ds| && f.x == AbsLeft(ds[i]))
      && (f.y == start.y || exists i :: 0 <= i < |ds| && f.y == ds[i].position.y)
      && (f.width == start.width || exists i :: 0 <= i < |ds| && f.width == AbsRight(ds[i]))
      && (f.height == start.height || exists i :: 0 <= i < |ds| && f.height == AbsBottom(ds[i]))
    decreases |ds|
  {
    if ds != [] {
      var init := ds[..|ds| - 1];
      BoxFoldTight(init, start);
      assert forall i :: 0 <= i < |init| ==> init[i] == ds[i];
    }
  }

  /** Every node of every device lies inside the box `updateBoundingBox`
      computes, whatever box it held before. */
  lemma BoundingBoxHoldsNodes(ds: seq<DeviceValue>, prior: Rect, i: nat, k: nat)
    requires i < |ds| && ValueOk(ds[i]) && k < NodesCount(ds[i].kind)
    ensures var b := BoundingBox(ds, prior); var q := ds[i].position.Plus(ShapeOf(ds[i].kind).offsets[k]);
      b.x <= q.x <= b.x + b.width && b.y <= q.y <= b.y + b.height
  {
    KindShapeOk(ds[i].kind);
    BoxFoldContains(ds, BoxStart(prior), i);
  }

  /** Each edge of that box is an edge of some device, unless no device
      reaches past the starting value: `INT_MAX - 1` for the left and top
      edges, the previous right and bottom edges (zero after
      `placeDevices`) for the others. */
  lemma BoundingBoxTight(ds: seq<DeviceValue>, prior: Rect)
    ensures var b := BoundingBox(ds, prior);
      && (b.x == Sentinel || exists i :: 0 <= i < |ds| && b.x == AbsLeft(ds[i]))
      && (b.y == Sentinel || exists i :: 0 <= i < |ds| && b.y == ds[i].position.y)
      && (b.x + b.width == prior.width || exists i :: 0 <= i < |ds| && b.x + b.width == AbsRight(ds[i]))
      && (b.y + b.height == prior.height || exists i :: 0 <= i < |ds| && b.y + b.height == AbsBottom(ds[i]))
  {
    BoxFoldTight(ds, BoxStart(prior));
  }

  /** In the older `svSubckt::draw`, every translated position has both
      coordinates at 2 or more, and some device sits on row 2. */
  lemma DrawOffsetPositive(ds: seq<DeviceValue>)
    requires AllOk(ds) && |ds| > 0
    ensures var a := Arranged(ds, Heuristic1); var off := DrawOffset(a);
      && (forall i :: 0 <= i < |a| ==> a[i].position.x + off.x >= 2 && a[i].position.y + off.y >= 2)
      && exists i :: 0 <= i < |a| && a[i].position.y + off.y == 2
  {
    var a := Arranged(ds, Heuristic1);
    assert a[0].position.y == 0;
    var m := LowY(a);
    if m != 0 {
      var i :| 0 <= i < |a| && m == a[i].position.y;
      assert a[i].position.y + DrawOffset(a).y == 2;
    }
  }
}
