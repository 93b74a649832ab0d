/** The older copy of the viewer (`trunk/`).  Its value parser, device
    classes, factory and per-line parsing rules are the ones modelled in the
    other modules; what differs is collected here: `svSubckt` has no
    bounding box, `svParser::loadSubCkt` parses onto the subcircuit it is
    given without clearing it, so a loaded subcircuit keeps the name its
    constructor was given, and the placement lives in `svSubckt::draw`,
    which fills a local vector of positions and derives the drawing offset
    from the positions alone. */
module Trunk {
  import opened Common
  import opened Geometry
  import opened Devices
  import opened Registry
  import opened NetlistText
  import opened Parsing
  import opened Graphs
  import opened Placement
  import opened Circuits
  import opened Loader

  /** The abstract state of one `svSubckt`. */
  datatype SubcktValue = SubcktValue(name: string, nodes: set<string>, devices: seq<DeviceValue>)

  /** What the copy constructor builds: the name and the nodes, and one
      clone per device, in order. */
  function CopySubckt(s: SubcktValue): (c: SubcktValue)
    ensures c.name == s.name && c.nodes == s.nodes
    ensures |c.devices| == |s.devices| && forall i :: 0 <= i < |s.devices| ==> c.devices[i] == CloneValue(s.devices[i])
  {
    s.(devices := CloneAll(s.devices))
  }

  class Subckt {
    var name: string
    var nodes: set<string>
    var devices: seq<Device>

    function Model(): SubcktValue
      reads this, devices
    {
      SubcktValue(name, nodes, Values(devices))
    }

    /** The subcircuit owns its devices: none is listed twice, and each
        keeps the device invariant. */
    predicate Valid()
      reads this, devices
    {
      Distinct(devices) && forall i :: 0 <= i < |devices| ==> devices[i].Valid()
    }

    /** `svSubckt(name)`. */
    constructor (n: string)
      ensures Valid() && Model() == SubcktValue(n, {}, [])
    {
      name := n;
      nodes := {};
      devices := [];
    }

    /** The copy constructor. */
    constructor Copy(src: Subckt)
      requires src.Valid()
      ensures Valid() && Model() == CopySubckt(src.Model())
    {
      var clones := CloneDevices(src.devices);
      name := src.name;
      nodes := src.nodes;
      devices := clones;
    }

    /** `addNode` for each token: set insertions. */
    method AddNodes(ns: seq<string>)
      modifies this
      ensures devices == old(devices) && Model() == old(Model()).(nodes := old(nodes) + Elems(ns))
    {
      var j := 0;
      while j < |ns|
        invariant j <= |ns|
        invariant devices == old(devices) && Model() == old(Model()).(nodes := old(nodes) + Elems(ns[..j]))
      {
        assert Elems(ns[..j + 1]) == Elems(ns[..j]) + {ns[j]} by {
          assert ns[..j + 1] == ns[..j] + [ns[j]];
        }
        nodes := nodes + {ns[j]};
        j := j + 1;
      }
      assert ns[..j] == ns;
    }

    /** `addDevice`: the subcircuit takes ownership of a device it does not
        hold yet. */
    method AddDevice(d: Device)
      requires Valid() && d.Valid() && d !in devices
      modifies this
      ensures Valid() && devices == old(devices) + [d]
      ensures Model() == old(Model()).(devices := old(Model().devices) + [d.Value()])
    {
      devices := devices + [d];
    }

    /** One pass of the line loop of `loadSubCkt`: the line's node tokens
        join the node set, and its device, if it yields one, is appended. */
    method ParseLine(factory: DeviceFactory, line: string) returns (ok: bool)
      requires factory.Valid() && ProtosOk(factory.Prototypes())
      requires Valid()
      modifies this
      ensures Valid() && factory.Prototypes() == old(factory.Prototypes())
      ensures var r := LineStep(factory.Prototypes(), line);
        && ok == r.ok
        && Parsed(nodes, Model().devices) == Apply(old(Parsed(nodes, Model().devices)), r)
        && name == old(name)
    {
      ghost var before := Parsed(nodes, Model().devices);
      var lineOk, newNodes, dev := ParseDeviceLine(factory, line);
      ghost var r := LineResult(lineOk, newNodes, if dev == null then None else Some(dev.Value()));
      assert dev != null ==> dev !in devices;
      AddNodes(newNodes);
      if dev != null {
        AddDevice(dev);
      }
      assert Parsed(nodes, Model().devices) == Apply(before, r);
      ok := lineOk;
    }

    /** `svSubckt::buildGraph`, which is the same as the newer one. */
    method BuildGraph() returns (g: UGraph)
      requires GraphReady(nodes, NodeLists(Model().devices))
      ensures g == GraphOf(nodes, NodeLists(Model().devices))
    {
      g := Graphs.BuildGraph(nodes, NodeLists(Values(devices)));
    }

    /** The placement at the top of `svSubckt::draw`: the positions it puts
        in `m_devicesPos` (the heuristic of the newer copy, computed on a
        vector instead of on the devices) and the offset that shifts them
        onto the grid.  Device 0 is read unchecked, so there must be one. */
    method DrawLayout() returns (ps: seq<Point>, offset: Point)
      requires Valid() && |devices| > 0 && NodesReadable(devices[0].Value())
      ensures ps == HeuristicLayout(Model().devices)
      ensures offset == DrawOffset(Reposition(Model().devices, ps))
    {
      ps := HeuristicPositions();
      offset := GridOffset(Model().devices, ps);
    }

    /** The filling of `m_devicesPos` in `svSubckt::draw`. */
    method HeuristicPositions() returns (ps: seq<Point>)
      requires Valid() && |devices| > 0 && NodesReadable(devices[0].Value())
      ensures ps == HeuristicLayout(Model().devices)
    {
      ghost var ds := Values(devices);
      ps := Zeros(|devices|);
      var d0 := devices[0];
      assert d0.Value() == ds[0];
      var shared := FirstLiveNode(d0);
      if shared.None? {
        return;
      }
      var n := shared.value;
      var moved, temp := FindConnected(devices, n);
      assert moved == Moved(ds);
      if moved.None? {
        return;
      }
      var i := moved.value;
      var d := devices[i];
      assert d.Value() == ds[i];
      assert d.Valid();
      HeuristicPointAt(ds[i], n, temp);
      var rel := RelativeNodePosition(d.kind, temp);
      var pos := Point(ps[0].x + 1, ps[0].y);
      pos := pos.(x := pos.x - ShapeOf(d.kind).leftmost.x);
      pos := pos.(y := pos.y + rel.value.y);
      assert pos == HeuristicPoint(ds[i], n);
      ps := ps[i := pos];
    }
  }

  /** The offset loop of `svSubckt::draw`: the least column and row of the
      positions, each at most 0, and then `(2,2) - offset`. */
  method GridOffset(ghost ds: seq<DeviceValue>, ps: seq<Point>) returns (offset: Point)
    requires |ps| == |ds|
    ensures offset == DrawOffset(Reposition(ds, ps))
  {
    ghost var rs := Reposition(ds, ps);
    var low := Point(0, 0);
    for i := 0 to |ps|
      invariant low == Point(LowX(rs[..i]), LowY(rs[..i]))
    {
      assert rs[..i + 1][..i] == rs[..i];
      assert rs[i].position == ps[i];
      low := Point(Min(low.x, ps[i].x), Min(low.y, ps[i].y));
    }
    assert rs[..|ps|] == rs;
    offset := Point(2, 2).Plus(Point(-low.x, -low.y));
  }

  /** `svParser::loadSubCkt(ret, lines, startIdx, endIdx)`: parses the
      lines `startIdx` to `endIdx - 1` onto `ret` as it is, without clearing
      it first.  The result and the new contents follow the line rules from
      the subcircuit's old nodes and devices; the name is untouched. */
  method LoadSubCkt(ret: Subckt, factory: DeviceFactory, lines: seq<string>, start: nat, end: nat) returns (ok: bool)
    requires factory.Valid() && ProtosOk(factory.Prototypes()) && ret.Valid()
    requires start <= end <= |lines|
    modifies ret
    ensures ret.Valid()
    ensures var r := ParseLines(factory.Prototypes(), lines[start..end], old(Parsed(ret.nodes, ret.Model().devices)));
      ok == r.ok && ret.Model() == SubcktValue(old(ret.name), r.state.nodes, r.state.devices)
  {
    ghost var protos := factory.Prototypes();
    ghost var st0 := Parsed(ret.nodes, ret.Model().devices);
    ghost var name0 := ret.name;
    assert lines[start..start] == [];
    assert ParseLines(protos, [], st0) == RunResult(true, st0);
    var i := start;
    while i < end
      invariant start <= i <= end && ret.Valid()
      invariant factory.Prototypes() == protos
      invariant ParseLines(protos, lines[start..i], st0) == RunResult(true, Parsed(ret.nodes, ret.Model().devices))
      invariant ret.name == name0
    {
      LoopStep(protos, lines, start, i, end, st0, Parsed(ret.nodes, ret.Model().devices));
      var lineOk := ret.ParseLine(factory, lines[i]);
      if !lineOk {
        return false;
      }
      i := i + 1;
    }
    assert lines[start..i] == lines[start..end];
    ok := true;
  }

  /** Parsing onto a subcircuit that already holds something gives what
      parsing onto an empty one gives, after what was there: the old nodes
      joined with the new ones, the old devices followed by the new ones. */
  lemma ParseOnto(protos: seq<DeviceValue>, lines: seq<string>, st: Parsed)
    requires ProtosOk(protos)
    ensures var alone := ParseLines(protos, lines, NothingParsed);
      ParseLines(protos, lines, st) == RunResult(alone.ok, Parsed(st.nodes + alone.state.nodes, st.devices + alone.state.devices))
  {
    RunAccumulates(Steps(protos, lines), st);
  }

  // ---------------------------------------------------------------------------
  // svParser::load
  // ---------------------------------------------------------------------------

  datatype TrunkResult = TrunkResult(ok: bool, subckts: seq<SubcktValue>)

  /** The subcircuit a closed and parsed block contributes: the fresh
      `svSubckt(name)` parsed onto, then copied by `push_back`. */
  function TrunkBlock(protos: seq<DeviceValue>, t: seq<string>, k: nat): SubcktValue
    requires ProtosOk(protos) && k < |t| && IsSubcktLine(t[k]) && BlockOk(protos, t, k)
  {
    var st := ParseLines(protos, t[k + 1..FindEnds(t, k + 1).value], NothingParsed).state;
    CopySubckt(SubcktValue(SubcktName(t[k]), st.nodes, st.devices))
  }

  /** The outer loop of the older `load` from line `i` of the filtered
      lines on, with the subcircuits pushed so far in `acc`. */
  function TrunkLoadFrom(protos: seq<DeviceValue>, t: seq<string>, i: nat, acc: seq<SubcktValue>): (r: TrunkResult)
    requires ProtosOk(protos) && i <= |t|
    ensures |r.subckts| <= |acc| + (|t| - i)
    decreases |t| - i
  {
    if i == |t| then TrunkResult(true, acc)
    else if !IsSubcktLine(t[i]) then TrunkLoadFrom(protos, t, i + 1, acc)
    else if !BlockOk(protos, t, i) then TrunkResult(false, acc)
    else TrunkLoadFrom(protos, t, i + 1, acc + [TrunkBlock(protos, t, i)])
  }

  /** A subcircuit as the newer loader would have produced it: no name
      (the newer parser clears it) and a zero bounding box. */
  function Unnamed(s: SubcktValue): (c: CircuitValue)
    ensures c.name == "" && c.bb == ZeroRect && c.nodes == s.nodes && c.devices == s.devices
  {
    CircuitValue("", s.nodes, s.devices, ZeroRect)
  }

  function UnnamedAll(ss: seq<SubcktValue>): (cs: seq<CircuitValue>)
    ensures |cs| == |ss| && forall i :: 0 <= i < |ss| ==> cs[i] == Unnamed(ss[i])
  {
    seq(|ss|, i requires 0 <= i < |ss| => Unnamed(ss[i]))
  }

  /** The older loader accepts exactly the netlists the newer one accepts
      and yields the same subcircuits, in the same order, with the same
      nodes and devices; they differ only in that the older one keeps each
      subcircuit's `.SUBCKT` name. */
  lemma {:induction false} TrunkLoadAgrees(protos: seq<DeviceValue>, t: seq<string>, i: nat, acc: seq<SubcktValue>)
    requires ProtosOk(protos) && i <= |t|
    ensures var r := TrunkLoadFrom(protos, t, i, acc);
      LoadFrom(protos, t, i, UnnamedAll(acc)) == LoadResult(r.ok, UnnamedAll(r.subckts))
    decreases |t| - i
  {
    if i < |t| {
      if !IsSubcktLine(t[i]) {
        TrunkLoadAgrees(protos, t, i + 1, acc);
      } else if BlockOk(protos, t, i) {
        var b := TrunkBlock(protos, t, i);
        assert Unnamed(b) == BlockCircuit(protos, t, i);
        assert UnnamedAll(acc + [b]) == UnnamedAll(acc) + [BlockCircuit(protos, t, i)];
        TrunkLoadAgrees(protos, t, i + 1, acc + [b]);
      }
    }
  }

  /** What was in the output array stays in front. */
  lemma {:induction false} TrunkKeepsEarlier(protos: seq<DeviceValue>, t: seq<string>, i: nat, acc: seq<SubcktValue>)
    requires ProtosOk(protos) && i <= |t|
    ensures var r := TrunkLoadFrom(protos, t, i, acc).subckts; |acc| <= |r| && r[..|acc|] == acc
    decreases |t| - i
  {
    if i < |t| && IsSubcktLine(t[i]) && BlockOk(protos, t, i) {
      var acc' := acc + [TrunkBlock(protos, t, i)];
      TrunkKeepsEarlier(protos, t, i + 1, acc');
      var r := TrunkLoadFrom(protos, t, i + 1, acc').subckts;
      assert r[..|acc'|][..|acc|] == r[..|acc|];
    } else if i < |t| && !IsSubcktLine(t[i]) {
      TrunkKeepsEarlier(protos, t, i + 1, acc);
    }
  }

  /** The names of the `.SUBCKT` lines of `t` from line `i` on. */
  function SubcktNames(t: seq<string>, i: nat): set<string>
  {
    set j | i <= j < |t| && IsSubcktLine(t[j]) :: SubcktName(t[j])
  }

  /** Every subcircuit of `ss` from index `lo` on is named after a
      `.SUBCKT` line of `t` at or after `i`. */
  predicate NamedFrom(ss: seq<SubcktValue>, lo: nat, t: seq<string>, i: nat)
  {
    forall k :: lo <= k < |ss| ==> ss[k].name in SubcktNames(t, i)
  }

  /** Each subcircuit the older loader appends is named after a `.SUBCKT`
      line at or after `i`. */
  lemma {:induction false} TrunkLoadNames(protos: seq<DeviceValue>, t: seq<string>, i: nat, acc: seq<SubcktValue>)
    requires ProtosOk(protos) && i <= |t|
    ensures NamedFrom(TrunkLoadFrom(protos, t, i, acc).subckts, |acc|, t, i)
    decreases |t| - i
  {
    if i < |t| && IsSubcktLine(t[i]) && BlockOk(protos, t, i) {
      var b := TrunkBlock(protos, t, i);
      TrunkLoadNames(protos, t, i + 1, acc + [b]);
      TrunkKeepsEarlier(protos, t, i + 1, acc + [b]);
      var r := TrunkLoadFrom(protos, t, i + 1, acc + [b]).subckts;
      assert TrunkLoadFrom(protos, t, i, acc).subckts == r;
      NamedStep(r, acc, b, t, i);
    } else if i < |t| && !IsSubcktLine(t[i]) {
      TrunkLoadNames(protos, t, i + 1, acc);
      assert TrunkLoadFrom(protos, t, i, acc) == TrunkLoadFrom(protos, t, i + 1, acc);
      NamedFromEarlier(TrunkLoadFrom(protos, t, i + 1, acc).subckts, |acc|, t, i);
    }
  }

  /** One more subcircuit, named after line `i`, in front of the ones
      named after later lines. */
  lemma NamedStep(r: seq<SubcktValue>, acc: seq<SubcktValue>, b: SubcktValue, t: seq<string>, i: nat)
    requires i < |t| && IsSubcktLine(t[i]) && b.name == SubcktName(t[i])
    requires |acc| + 1 <= |r| && r[..|acc| + 1] == acc + [b]
    requires NamedFrom(r, |acc| + 1, t, i + 1)
    ensures NamedFrom(r, |acc|, t, i)
  {
    assert r[|acc|] == r[..|acc| + 1][|acc|] == b;
    assert SubcktName(t[i]) in SubcktNames(t, i);
    NamedFromEarlier(r, |acc| + 1, t, i);
  }

  lemma NamedFromEarlier(ss: seq<SubcktValue>, lo: nat, t: seq<string>, i: nat)
    requires NamedFrom(ss, lo, t, i + 1)
    ensures NamedFrom(ss, lo, t, i)
  {
    assert SubcktNames(t, i + 1) <= SubcktNames(t, i);
  }

  /** `svParser::load(ret, filename)` on the lines of the file. */
  method Load(factory: DeviceFactory, lines: seq<string>, ret0: seq<SubcktValue>) returns (ok: bool, ret: seq<SubcktValue>)
    requires factory.Valid() && ProtosOk(factory.Prototypes())
    ensures TrunkResult(ok, ret) == TrunkLoadFrom(factory.Prototypes(), Preprocess(lines), 0, ret0)
  {
    ghost var protos := factory.Prototypes();
    var toparse := FilterLines(lines);
    ret := ret0;
    var i := 0;
    while i < |toparse|
      invariant i <= |toparse|
      invariant TrunkLoadFrom(protos, toparse, i, ret) == TrunkLoadFrom(protos, toparse, 0, ret0)
    {
      var stop;
      stop, ret := LoadLine(factory, toparse, i, ret);
      if stop {
        return false, ret;
      }
      i := i + 1;
    }
    ok := true;
  }

  /** The body of the outer loop of the older `load` for line `i`. */
  method LoadLine(factory: DeviceFactory, t: seq<string>, i: nat, ret0: seq<SubcktValue>) returns (stop: bool, ret: seq<SubcktValue>)
    requires factory.Valid() && ProtosOk(factory.Prototypes()) && i < |t|
    ensures stop ==> TrunkLoadFrom(factory.Prototypes(), t, i, ret0) == TrunkResult(false, ret)
    ensures !stop ==> TrunkLoadFrom(factory.Prototypes(), t, i, ret0) == TrunkLoadFrom(factory.Prototypes(), t, i + 1, ret)
  {
    ret := ret0;
    if !IsSubcktLine(t[i]) {
      return false, ret;
    }
    var blockOk, c := LoadBlock(factory, t, i);
    if !blockOk {
      return true, ret;
    }
    ret := ret + [c];
    stop := false;
  }

  /** A `.SUBCKT` line of the older `load`: find the `.ENDS`, parse the
      block onto `svSubckt sub(name)` and copy it. */
  method LoadBlock(factory: DeviceFactory, t: seq<string>, i: nat) returns (ok: bool, c: SubcktValue)
    requires factory.Valid() && ProtosOk(factory.Prototypes())
    requires i < |t| && IsSubcktLine(t[i])
    ensures ok == BlockOk(factory.Prototypes(), t, i)
    ensures ok ==> c == TrunkBlock(factory.Prototypes(), t, i)
  {
    ghost var protos := factory.Prototypes();
    var found, endIdx := FindEndsLine(t, i + 1);
    if !found {
      return false, SubcktValue("", {}, []);
    }
    var sub := new Subckt(SubcktName(t[i]));
    assert factory.Prototypes() == protos;
    ok := LoadSubCkt(sub, factory, t, i + 1, endIdx);
    assert sub.nodes + {} == sub.nodes;
    if !ok {
      return false, SubcktValue("", {}, []);
    }
    var copy := new Subckt.Copy(sub);
    c := copy.Model();
  }
}
