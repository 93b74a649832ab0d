/** `svCircuit`: one SPICE subcircuit, its node set, the devices it owns and
    the bounding box of their grid positions; its copy semantics and the
    parser that fills it from the lines between `.SUBCKT` and `.ENDS`. */
module Circuits {
  import opened Common
  import opened Geometry
  import opened Properties
  import opened Devices
  import opened Registry
  import opened Parsing
  import opened Graphs
  import opened Placement

  /** The abstract state of one circuit object. */
  datatype CircuitValue = CircuitValue(name: string, nodes: set<string>, devices: seq<DeviceValue>, bb: Rect)

  /** `wxRect(0,0,0,0)`, also what a default-constructed `wxRect` holds. */
  const ZeroRect: Rect := Rect(0, 0, 0, 0)

  /** What `release()` leaves. */
  const Released: CircuitValue := CircuitValue("", {}, [], ZeroRect)

  /** The devices `assign` puts in the copy: one clone per device, in order. */
  function CloneAll(ds: seq<DeviceValue>): (cs: seq<DeviceValue>)
    ensures |cs| == |ds| && forall i :: 0 <= i < |ds| ==> cs[i] == CloneValue(ds[i])
  {
    seq(|ds|, i requires 0 <= i < |ds| => CloneValue(ds[i]))
  }

  /** The value a copy (copy constructor or `operator=` from another
      circuit) holds. */
  function CopyValue(c: CircuitValue): (d: CircuitValue)
    ensures d.name == c.name && d.nodes == c.nodes && d.bb == c.bb
    ensures |d.devices| == |c.devices| && forall i :: 0 <= i < |c.devices| ==> d.devices[i] == CloneValue(c.devices[i])
  {
    c.(devices := CloneAll(c.devices))
  }

  /** A copy keeps the name, the node set, the bounding box and the order and
      kinds of the devices; a device comes out equal to its original exactly
      when its class's `clone` copies it or it is still default-constructed,
      and the E and G sources come out blank. */
  lemma CopyKeeps(c: CircuitValue)
    ensures var d := CopyValue(c);
      && d.name == c.name && d.nodes == c.nodes && d.bb == c.bb
      && |d.devices| == |c.devices|
      && forall i :: 0 <= i < |c.devices| ==>
           && d.devices[i].kind == c.devices[i].kind
           && (d.devices[i] == c.devices[i] <==> CloneCopies(c.devices[i].kind) || c.devices[i] == DefaultValue(c.devices[i].kind))
           && (FamilyOf(c.devices[i].kind) == Controlled ==> d.devices[i].nodes == [] && d.devices[i].name == "")
  {
    var d := CopyValue(c);
    forall i | 0 <= i < |c.devices| && FamilyOf(c.devices[i].kind) == Controlled
      ensures d.devices[i].nodes == [] && d.devices[i].name == ""
    {
      ControlledCloneIsBlank(c.devices[i]);
    }
  }

  /** Copying a copy changes nothing more. */
  lemma CopyIdempotent(c: CircuitValue)
    ensures CopyValue(CopyValue(c)) == CopyValue(c)
  {
    var once := CloneAll(c.devices);
    forall i | 0 <= i < |once|
      ensures CloneValue(once[i]) == once[i]
    {
      CloneIdempotent(c.devices[i]);
    }
    assert CloneAll(once) == once;
  }

  /** A circuit whose devices all keep the device invariant keeps it after
      copying. */
  lemma CopyKeepsValid(c: CircuitValue)
    requires forall i :: 0 <= i < |c.devices| ==> ValueOk(c.devices[i])
    ensures forall i :: 0 <= i < |CopyValue(c).devices| ==> ValueOk(CopyValue(c).devices[i])
  {
  }

  /** The devices of `ds` with the first `i` moved to the positions `ps`. */
  function Partly(ds: seq<DeviceValue>, ps: seq<Point>, i: nat): seq<DeviceValue>
    requires |ps| == |ds| && i <= |ds|
  {
    seq(|ds|, k requires 0 <= k < |ds| => if k < i then ds[k].(position := ps[k]) else ds[k])
  }

  lemma PartlyStep(ds: seq<DeviceValue>, ps: seq<Point>, i: nat)
    requires |ps| == |ds| && i < |ds|
    ensures Partly(ds, ps, i)[i := ds[i].(position := ps[i])] == Partly(ds, ps, i + 1)
  {
  }

  lemma PartlyAll(ds: seq<DeviceValue>, ps: seq<Point>, i: nat)
    requires |ps| == |ds| == i
    ensures Partly(ds, ps, i) == Reposition(ds, ps)
  {
  }

  lemma PartlyEnds(ds: seq<DeviceValue>, ps: seq<Point>)
    requires |ps| == |ds|
    ensures Partly(ds, ps, 0) == ds && Partly(ds, ps, |ds|) == Reposition(ds, ps)
  {
  }

  lemma RepositionUpdate(ds: seq<DeviceValue>, ps: seq<Point>, i: nat, p: Point)
    requires |ps| == |ds| && i < |ds|
    ensures Reposition(ds, ps)[i := ds[i].(position := p)] == Reposition(ds, ps[i := p])
  {
  }

  /** The circuit after `placeDevices(ag)`: with no devices only the box
      is reset; otherwise the devices are placed and translated and the box
      is the one `updateBoundingBox` computes from the reset box. */
  function PlacedValue(c: CircuitValue, ag: Algorithm): (p: CircuitValue)
    requires AllOk(c.devices)
    ensures p.name == c.name && p.nodes == c.nodes && |p.devices| == |c.devices|
    ensures c.devices == [] ==> p.bb == ZeroRect
  {
    if c.devices == [] then c.(bb := ZeroRect)
    else
      var ds := Placed(c.devices, ag);
      c.(devices := ds, bb := BoundingBox(ds, ZeroRect))
  }

  /** Placing a circuit changes only positions and the box, and leaves every
      node of every device inside the new box. */
  lemma PlacedCircuitHoldsNodes(c: CircuitValue, ag: Algorithm, i: nat, k: nat)
    requires AllOk(c.devices) && i < |c.devices| && k < NodesCount(c.devices[i].kind)
    ensures var p := PlacedValue(c, ag);
      && p.name == c.name && p.nodes == c.nodes && NodeLists(p.devices) == NodeLists(c.devices)
      && var d := p.devices[i]; var q := d.position.Plus(ShapeOf(d.kind).offsets[k]);
         p.bb.x <= q.x <= p.bb.x + p.bb.width && p.bb.y <= q.y <= p.bb.y + p.bb.height
  {
    PlacedKeepsDevices(c.devices, ag);
    var ds := Placed(c.devices, ag);
    BoundingBoxHoldsNodes(ds, ZeroRect, i, k);
    assert NodeLists(ds) == NodeLists(c.devices);
  }

  class Circuit {
    var name: string
    var nodes: set<string>
    var devices: seq<Device>
    var bb: Rect

    function Model(): CircuitValue
      reads this, devices
    {
      CircuitValue(name, nodes, Values(devices), bb)
    }

    /** The circuit owns its devices: no device object is listed twice, and
        each keeps the device invariant. */
    predicate Valid()
      reads this, devices
    {
      Distinct(devices) && forall i :: 0 <= i < |devices| ==> devices[i].Valid()
    }

    /** `svCircuit(name)`. */
    constructor (n: string)
      ensures Valid() && Model() == CircuitValue(n, {}, [], ZeroRect)
    {
      name := n;
      nodes := {};
      devices := [];
      bb := ZeroRect;
    }

    /** The copy constructor: `release()` then `assign(tocopy)`. */
    constructor Copy(src: Circuit)
      requires src.Valid()
      ensures Valid() && Model() == CopyValue(src.Model())
      ensures forall i :: 0 <= i < |devices| ==> fresh(devices[i])
    {
      name := "";
      nodes := {};
      devices := [];
      bb := ZeroRect;
      new;
      Assign(src);
    }

    /** `release()`: deletes the devices and clears everything. */
    method Release()
      modifies this
      ensures Valid() && Model() == Released
    {
      devices := [];
      name := "";
      nodes := {};
      bb := ZeroRect;
    }

    /** `assign(tocopy)`, which `operator=` runs: release, then copy the
        name, the nodes and the box and clone every device.  Assigning a
        circuit to itself releases it first and so leaves it empty. */
    method Assign(src: Circuit)
      requires src.Valid()
      modifies this
      ensures Valid()
      ensures src == this ==> Model() == Released
      ensures src != this ==> Model() == CopyValue(old(src.Model()))
      ensures forall i :: 0 <= i < |devices| ==> fresh(devices[i])
    {
      ghost var orig := src.Model();
      Release();
      assert src != this ==> src.Model() == orig && src.Valid();
      var srcDevices := src.devices;
      var clones := CloneDevices(srcDevices);
      name, nodes, bb, devices := src.name, src.nodes, src.bb, clones;
    }

    /** `setName`. */
    method SetName(n: string)
      modifies this
      ensures devices == old(devices) && Model() == old(Model()).(name := n)
    {
      name := n;
    }

    /** `addNode`: a set insertion, so a node already present is not added
        twice. */
    method AddNode(n: string)
      modifies this
      ensures devices == old(devices) && Model() == old(Model()).(nodes := old(nodes) + {n})
    {
      nodes := nodes + {n};
    }

    /** `addDevice`: the circuit takes ownership of a device it does not hold
        yet. */
    method AddDevice(d: Device)
      requires Valid() && d.Valid() && d !in devices
      modifies this
      ensures Valid() && devices == old(devices) + [d]
      ensures Model() == old(Model()).(devices := old(Model().devices) + [d.Value()])
    {
      devices := devices + [d];
    }

    /** The node loop of the parser: `addNode` for each token. */
    method AddNodes(ns: seq<string>)
      modifies this
      ensures devices == old(devices) && Model() == old(Model()).(nodes := old(nodes) + Elems(ns))
    {
      var j := 0;
      while j < |ns|
        invariant j <= |ns|
        invariant devices == old(devices) && Model() == old(Model()).(nodes := old(nodes) + Elems(ns[..j]))
      {
        assert Elems(ns[..j + 1]) == Elems(ns[..j]) + {ns[j]} by {
          assert ns[..j + 1] == ns[..j] + [ns[j]];
        }
        AddNode(ns[j]);
        j := j + 1;
      }
      assert ns[..j] == ns;
    }

    /** `parseSPICESubCkt(lines, startIdx, endIdx)`: releases the circuit,
        then parses the lines `startIdx` to `endIdx - 1`.  The result and the
        circuit's new contents follow the line rules; on a failure the nodes
        of the failing line stay and its device is not added. */
    method ParseSubCkt(factory: DeviceFactory, lines: seq<string>, start: nat, end: nat) returns (ok: bool)
      requires factory.Valid() && ProtosOk(factory.Prototypes())
      requires start <= end <= |lines|
      modifies this
      ensures Valid()
      ensures var r := ParseLines(factory.Prototypes(), lines[start..end], NothingParsed);
        ok == r.ok && Model() == CircuitValue("", r.state.nodes, r.state.devices, ZeroRect)
    {
      ghost var protos := factory.Prototypes();
      Release();
      var i := start;
      while i < end
        invariant start <= i <= end && Valid()
        invariant factory.Prototypes() == protos
        invariant ParseLines(protos, lines[start..i], NothingParsed) == RunResult(true, Parsed(nodes, Model().devices))
        invariant name == "" && bb == ZeroRect
      {
        SliceStep(protos, lines, start, i, end, NothingParsed);
        var lineOk := ParseLine(factory, lines[i]);
        ghost var next := ParseLines(protos, lines[start..i + 1], NothingParsed);
        assert next == RunResult(lineOk, Parsed(nodes, Model().devices));
        if !lineOk {
          assert ParseLines(protos, lines[start..end], NothingParsed) == next;
          return false;
        }
        i := i + 1;
      }
      assert lines[start..i] == lines[start..end];
      ok := true;
    }

    /** One pass of the parser's line loop: the line's node tokens join the
        node set, and its device, if it yields one, is appended. */
    method ParseLine(factory: DeviceFactory, line: string) returns (ok: bool)
      requires factory.Valid() && ProtosOk(factory.Prototypes())
      requires Valid()
      modifies this
      ensures Valid() && factory.Prototypes() == old(factory.Prototypes())
      ensures var r := LineStep(factory.Prototypes(), line);
        && ok == r.ok
        && Parsed(nodes, Model().devices) == Apply(old(Parsed(nodes, Model().devices)), r)
        && name == old(name) && bb == old(bb)
    {
      ghost var before := Parsed(nodes, Model().devices);
      var lineOk, newNodes, dev := ParseDeviceLine(factory, line);
      ghost var r := LineResult(lineOk, newNodes, if dev == null then None else Some(dev.Value()));
      assert dev != null ==> dev !in devices;
      AddNodes(newNodes);
      if dev != null {
        AddDevice(dev);
      }
      assert Parsed(nodes, Model().devices) == Apply(before, r);
      ok := lineOk;
    }

    /** `buildGraph`. */
    method BuildGraph() returns (g: UGraph)
      requires GraphReady(nodes, NodeLists(Model().devices))
      ensures g == GraphOf(nodes, NodeLists(Model().devices))
    {
      g := Graphs.BuildGraph(nodes, NodeLists(Values(devices)));
    }

    /** Moves device `i`, leaving every other device as it was. */
    method SetPosition(i: nat, p: Point)
      requires Valid() && i < |devices|
      modifies devices[i]
      ensures Valid() && devices == old(devices)
      ensures Values(devices) == old(Values(devices))[i := old(Values(devices))[i].(position := p)]
    {
      ghost var before := Values(devices);
      devices[i].SetGridPosition(p);
      forall k | 0 <= k < |devices|
        ensures devices[k].Value() == before[i := before[i].(position := p)][k]
      {
        if k != i {
          assert devices[k] != devices[i];
        }
      }
    }

    /** `placeDevices(ag)`: resets the box; with devices, places them by the
        strategy, translates them and recomputes the box, which it returns. */
    method PlaceDevices(ag: Algorithm) returns (r: Rect)
      requires Valid()
      requires ag == Heuristic1 ==> HeuristicDefined(Model().devices)
      modifies this, devices
      ensures Valid() && devices == old(devices)
      ensures Model() == PlacedValue(old(Model()), ag) && r == bb
    {
      ghost var c0 := Model();
      bb := ZeroRect;
      assert Model() == c0.(bb := ZeroRect);
      if |devices| == 0 {
        return bb;
      }
      PlaceAndBound(ag);
      r := bb;
    }

    /** The non-empty path of `placeDevices`: the strategy, the normalising
        translation, then `updateBoundingBox`. */
    method PlaceAndBound(ag: Algorithm)
      requires Valid() && |devices| > 0
      requires ag == Heuristic1 ==> HeuristicDefined(Model().devices)
      modifies this, devices
      ensures Valid() && devices == old(devices)
      ensures Model() == old(Model()).(devices := Placed(old(Model().devices), ag),
                                       bb := BoundingBox(Placed(old(Model().devices), ag), old(bb)))
    {
      ghost var ds := Values(devices);
      ghost var c0 := Model();
      match ag {
        case NonOverlapped =>
          PlaceNonOverlapped();
        case KamadaKawai =>
        case Heuristic1 =>
          PlaceHeuristic();
      }
      assert Values(devices) == Arranged(ds, ag);
      Normalise();
      assert Values(devices) == Placed(ds, ag);
      assert Model() == c0.(devices := Placed(ds, ag));
      UpdateBoundingBox();
    }

    /** The `SVPA_PLACE_NON_OVERLAPPED` case: device 0 at the origin, the
        next column just right of its rightmost node. */
    method PlaceNonOverlapped()
      requires Valid() && |devices| > 0
      modifies devices
      ensures Valid()
      ensures Values(devices) == Reposition(old(Values(devices)), NonOverlappedLayout(old(Values(devices))))
    {
      ghost var ds := Values(devices);
      var d0 := devices[0];
      var lastPt := ShapeOf(d0.kind).rightmost.Plus(Point(1, 0));
      assert lastPt == Point(LastX(ds, 1), Rightmost(ds[0]).y);
      PartlyEnds(ds, NonOverlappedLayout(ds));
      PartlyStep(ds, NonOverlappedLayout(ds), 0);
      SetPosition(0, Point(0, 0));
      PlaceRow(ds, lastPt);
    }

    /** The loop of the `SVPA_PLACE_NON_OVERLAPPED` case: each later device
        with its leftmost node on the column `lastPt.x`, which then moves
        past the device. */
    method PlaceRow(ghost ds: seq<DeviceValue>, lastPt0: Point)
      requires Valid() && 1 <= |ds| == |devices|
      requires lastPt0 == Point(LastX(ds, 1), Rightmost(ds[0]).y)
      requires Values(devices) == Partly(ds, NonOverlappedLayout(ds), 1)
      modifies devices
      ensures Valid()
      ensures Values(devices) == Reposition(ds, NonOverlappedLayout(ds))
    {
      ghost var ps := NonOverlappedLayout(ds);
      var lastPt := lastPt0;
      var i := 1;
      while i < |devices|
        invariant 1 <= i <= |devices| == |ds|
        invariant Valid() && devices == old(devices)
        invariant lastPt == Point(LastX(ds, i), Rightmost(ds[0]).y)
        invariant Values(devices) == Partly(ds, ps, i)
      {
        var d := devices[i];
        assert d.kind == ds[i].kind && d.Valid();
        ExtentsAroundNodeZero(d.kind);
        NonOverlappedStep(ds, i);
        var s := ShapeOf(d.kind);
        var w := s.rightmost.x - s.leftmost.x;
        var centerOffset := s.offsets[0].x - s.leftmost.x;
        var p := lastPt.Plus(Point(centerOffset, 0));
        assert p == ps[i] && lastPt.x + w + 1 == LastX(ds, i + 1);
        PartlyStep(ds, ps, i);
        SetPosition(i, p);
        lastPt := lastPt.(x := lastPt.x + w + 1);
        i := i + 1;
      }
      PartlyAll(ds, ps, i);
    }

    /** The `SVPA_HEURISTIC_1` case: every device to the origin, then the
        first device after device 0 attached to device 0's first non-ground
        node next to device 0.  The two `break`s of the source end both
        loops after that first node, so the outer loop is `FirstLiveNode`
        and the inner one `FindConnected`. */
    method PlaceHeuristic()
      requires Valid() && |devices| > 0 && HeuristicDefined(Values(devices))
      modifies devices
      ensures Valid()
      ensures Values(devices) == Reposition(old(Values(devices)), HeuristicLayout(old(Values(devices))))
    {
      ghost var ds := Values(devices);
      ghost var zeros := Zeros(|ds|);
      ResetPositions();
      var d0 := devices[0];
      assert d0.Value() == ds[0].(position := Point(0, 0));
      var shared := FirstLiveNode(d0);
      if shared.None? {
        return;
      }
      var n := shared.value;
      var moved, temp := FindConnected(devices, n);
      FirstConnectedRepositioned(ds, zeros, n, 1);
      assert moved == Moved(ds);
      if moved.None? {
        return;
      }
      var i := moved.value;
      var d := devices[i];
      assert d.Value() == ds[i].(position := Point(0, 0));
      assert d.Valid();
      HeuristicPointAt(ds[i], n, temp);
      var rel := RelativeNodePosition(d.kind, temp);
      var pos := Point(d0.position.x + 1, d0.position.y);
      pos := pos.(x := pos.x - ShapeOf(d.kind).leftmost.x);
      pos := pos.(y := pos.y + rel.value.y);
      assert pos == HeuristicPoint(ds[i], n);
      RepositionUpdate(ds, zeros, i, pos);
      SetPosition(i, pos);
    }

    /** The first loop of `SVPA_HEURISTIC_1`: every device to the origin. */
    method ResetPositions()
      requires Valid()
      modifies devices
      ensures Valid() && devices == old(devices)
      ensures Values(devices) == Reposition(old(Values(devices)), Zeros(|devices|))
    {
      ghost var ds := Values(devices);
      ghost var zeros := Zeros(|ds|);
      PartlyEnds(ds, zeros);
      for i := 0 to |devices|
        invariant |devices| == |ds| && Valid() && devices == old(devices)
        invariant Values(devices) == Partly(ds, zeros, i)
      {
        PartlyStep(ds, zeros, i);
        SetPosition(i, Point(0, 0));
      }
      PartlyAll(ds, zeros, |ds|);
    }

    /** The normalising translation: the offset that brings the least
        relative leftmost column and the least row to 2, added to every
        position. */
    method Normalise()
      requires Valid()
      modifies devices
      ensures Valid()
      ensures Values(devices) == Translate(old(Values(devices)), Offset(old(Values(devices))))
    {
      ghost var ds := Values(devices);
      var low := LowCorner();
      var off := Point(2, 2).Plus(Point(-low.x, -low.y));
      assert off == Offset(ds);
      MoveAll(off);
    }

    /** The scan before the translation: the least relative leftmost column
        and the least row, each at most 0. */
    method LowCorner() returns (low: Point)
      ensures low == Point(LowLeft(Values(devices)), LowY(Values(devices)))
    {
      ghost var ds := Values(devices);
      low := Point(0, 0);
      for i := 0 to |devices|
        invariant low == Point(LowLeft(ds[..i]), LowY(ds[..i]))
      {
        assert ds[..i + 1][..i] == ds[..i];
        var d := devices[i];
        assert d.Value() == ds[i];
        low := Point(Min(low.x, ShapeOf(d.kind).leftmost.x), Min(low.y, d.position.y));
      }
      assert ds[..|ds|] == ds;
    }

    /** The translation loop: `offset` added to every position. */
    method MoveAll(offset: Point)
      requires Valid()
      modifies devices
      ensures Valid() && devices == old(devices)
      ensures Values(devices) == Translate(old(Values(devices)), offset)
    {
      ghost var ds := Values(devices);
      ghost var moved := Positions(Translate(ds, offset));
      PartlyEnds(ds, moved);
      for i := 0 to |devices|
        invariant |devices| == |ds| && Valid() && devices == old(devices)
        invariant Values(devices) == Partly(ds, moved, i)
      {
        PartlyStep(ds, moved, i);
        SetPosition(i, devices[i].position.Plus(offset));
      }
      PartlyAll(ds, moved, |ds|);
      assert Reposition(ds, moved) == Translate(ds, offset);
    }

    /** `updateBoundingBox`: the left and top edges start at `INT_MAX - 1`,
        the right and bottom edges at the box's previous width and height. */
    method UpdateBoundingBox()
      modifies this
      ensures devices == old(devices)
      ensures Model() == old(Model()).(bb := BoundingBox(old(Model().devices), old(bb)))
    {
      ghost var ds := Values(devices);
      var box := bb.(x := Sentinel, y := Sentinel);
      for i := 0 to |devices|
        invariant box == BoxFold(ds[..i], BoxStart(bb))
      {
        assert ds[..i + 1][..i] == ds[..i];
        var d := devices[i];
        var s := ShapeOf(d.kind);
        box := Rect(Min(d.position.x + s.leftmost.x, box.x), Min(d.position.y, box.y),
                    Max(d.position.x + s.rightmost.x, box.width), Max(d.position.y + s.bottommost.y, box.height));
      }
      assert ds[..|ds|] == ds;
      box := box.(width := box.width - box.x);
      box := box.(height := box.height - box.y);
      bb := box;
    }
  }

  /** The outer loop of `SVPA_HEURISTIC_1` (and of the older `draw`): the
      first of device 0's `getNodesCount()` nodes that is not ground. */
  method FirstLiveNode(d0: Device) returns (r: Option<string>)
    requires NodesReadable(d0.Value())
    ensures r == SharedNode(d0.Value())
  {
    var count := NodesCount(d0.kind);
    var j := 0;
    while j < count
      invariant j <= count && j <= GroundRun(d0.nodes)
    {
      if d0.nodes[j] != Ground {
        return Some(d0.nodes[j]);
      }
      j := j + 1;
    }
    return None;
  }

  /** The inner loop of `SVPA_HEURISTIC_1` (and of the older `draw`): the
      first device after device 0 attached to `n`, with the index of its
      first `n` node. */
  method FindConnected(devs: seq<Device>, n: string) returns (r: Option<nat>, temp: nat)
    requires |devs| > 0
    ensures r == FirstConnected(Values(devs), n, 1)
    ensures r.Some? ==> var ns := devs[r.value].nodes; temp < |ns| && ns[temp] == n && n !in ns[..temp]
  {
    ghost var ds := Values(devs);
    var i := 1;
    while i < |devs|
      invariant 1 <= i <= |devs|
      invariant FirstConnected(ds, n, i) == FirstConnected(ds, n, 1)
    {
      var d := devs[i];
      assert d.nodes == ds[i].nodes;
      var found, idx := d.IsConnectedTo(n);
      if found {
        return Some(i), idx;
      }
      i := i + 1;
    }
    return None, 0;
  }

  /** The device loop of `assign`: one new clone per device, in order. */
  method CloneDevices(ds: seq<Device>) returns (cs: seq<Device>)
    requires forall i :: 0 <= i < |ds| ==> ds[i].Valid()
    ensures Values(cs) == CloneAll(Values(ds))
    ensures Distinct(cs) && forall i :: 0 <= i < |cs| ==> fresh(cs[i]) && cs[i].Valid()
  {
    cs := [];
    var i := 0;
    while i < |ds|
      invariant i <= |ds| && |cs| == i
      invariant forall k :: 0 <= k < i ==> cs[k].Value() == CloneValue(ds[k].Value())
      invariant forall k :: 0 <= k < |cs| ==> cs[k].Valid()
      invariant forall k :: 0 <= k < |cs| ==> fresh(cs[k])
      invariant Distinct(cs)
    {
      var c := ds[i].Clone();
      cs := cs + [c];
      i := i + 1;
    }
    assert Values(cs) == CloneAll(Values(ds));
  }
}
