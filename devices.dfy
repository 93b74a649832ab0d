/** `svBaseDevice` and its concrete kinds: the node list, the node lookups,
    the property parser and `clone`.  The older copy's devices have the same
    members except the grid position, which they never use. */
module Devices {
  import opened Common
  import opened Geometry
  import opened Properties

  /** The abstract state of one device object. */
  datatype DeviceValue = DeviceValue(kind: Kind, name: string, nodes: seq<string>, position: Point, props: Props)

  /** What a default-constructed device holds: no name, no nodes, position
      (0,0) and the family's default members. */
  function DefaultValue(k: Kind): (d: DeviceValue)
    ensures d.kind == k && d.nodes == [] && d.name == ""
  {
    DeviceValue(k, "", [], Point(0, 0), DefaultProps(k))
  }

  /** A default-constructed device keeps the device invariant exactly when
      its kind's geometry is well formed. */
  lemma DefaultValueOk(k: Kind)
    ensures ValueOk(DefaultValue(k)) <==> KindOk(k)
  {
  }

  /** The invariant every device object keeps: its members match its
      family, its geometry is well formed and it never holds more nodes than
      `getNodesCount()`. */
  predicate ValueOk(d: DeviceValue)
  {
    KindOk(d.kind) && PropsFit(d.kind, d.props) && |d.nodes| <= NodesCount(d.kind)
  }

  /** Whether `clone` copies the object (`new svCapacitor(*this)` and the
      like) rather than returning a default-constructed one (`new
      svESource()`, `new svGSource()`). */
  predicate CloneCopies(k: Kind)
  {
    match k
    case ESource | GSource => false
    case ExternalPin(pin) => pin.cloneKeepsState
    case _ => true
  }

  /** The value `clone()` returns. */
  function CloneValue(d: DeviceValue): (c: DeviceValue)
    ensures c.kind == d.kind
    ensures c == d || c == DefaultValue(d.kind)
    ensures c == d <==> CloneCopies(d.kind) || d == DefaultValue(d.kind)
    ensures ValueOk(d) ==> ValueOk(c)
  {
    DefaultValueOk(d.kind);
    if CloneCopies(d.kind) then d else DefaultValue(d.kind)
  }

  /** Cloning a clone gives the same value again. */
  lemma CloneIdempotent(d: DeviceValue)
    ensures CloneValue(CloneValue(d)) == CloneValue(d)
  {
  }

  /** An E or G clone has lost its nodes, its name and its parameters,
      whatever the original held. */
  lemma ControlledCloneIsBlank(d: DeviceValue)
    requires FamilyOf(d.kind) == Controlled
    ensures CloneValue(d).nodes == [] && CloneValue(d).name == ""
    ensures CloneValue(d).props == ControlledProps(Unset, "", "", "")
  {
  }

  /** The index `std::find` reports: the first occurrence. */
  function FirstIndex(s: seq<string>, n: string): (i: nat)
    requires n in s
    ensures i < |s| && s[i] == n && n !in s[..i]
  {
    if s[0] == n then 0
    else
      assert s == [s[0]] + s[1..];
      var k := FirstIndex(s[1..], n);
      assert s[..k + 1] == [s[0]] + s[1..][..k];
      k + 1
  }

  /** The first occurrence is the only index that holds `n` and has no
      earlier `n`. */
  lemma FirstIndexUnique(s: seq<string>, n: string, i: nat)
    requires i < |s| && s[i] == n && n !in s[..i]
    ensures FirstIndex(s, n) == i
  {
    var f := FirstIndex(s, n);
    assert forall k :: 0 <= k < i ==> s[..i][k] == s[k];
    assert forall k :: 0 <= k < f ==> s[..f][k] == s[k];
  }

  /** The values of a sequence of device objects, in order. */
  function Values(ds: seq<Device>): (r: seq<DeviceValue>)
    reads ds
    ensures |r| == |ds| && forall i :: 0 <= i < |ds| ==> r[i] == ds[i].Value()
  {
    seq(|ds|, i requires 0 <= i < |ds| reads ds => ds[i].Value())
  }

  class Device {
    const kind: Kind
    var name: string
    var nodes: seq<string>
    var position: Point
    var props: Props

    function Value(): DeviceValue
      reads this
    {
      DeviceValue(kind, name, nodes, position, props)
    }

    predicate Valid()
      reads this
    {
      ValueOk(Value())
    }

    /** The default constructors of the concrete device classes. */
    constructor (k: Kind)
      requires KindOk(k)
      ensures Value() == DefaultValue(k) && Valid()
    {
      DefaultValueOk(k);
      kind := k;
      name := "";
      nodes := [];
      position := Point(0, 0);
      props := DefaultProps(k);
    }

    /** The implicit copy constructors `clone` uses. */
    constructor Copy(src: Device)
      requires src.Valid()
      ensures Value() == src.Value() && Valid()
    {
      kind := src.kind;
      name := src.name;
      nodes := src.nodes;
      position := src.position;
      props := src.props;
    }

    /** `clone()`: a new object, a copy except for E and G sources. */
    method Clone() returns (c: Device)
      requires Valid()
      ensures fresh(c) && c.Valid()
      ensures c.Value() == CloneValue(Value())
    {
      if CloneCopies(kind) {
        c := new Device.Copy(this);
      } else {
        c := new Device(kind);
      }
    }

    /** `setName`. */
    method SetName(n: string)
      modifies this
      ensures Value() == old(Value()).(name := n)
    {
      name := n;
    }

    /** `setGridPosition`. */
    method SetGridPosition(p: Point)
      modifies this
      ensures Value() == old(Value()).(position := p)
    {
      position := p;
    }

    /** `addNode`: appends; the source asserts the count stays within
        `getNodesCount()`. */
    method AddNode(n: string)
      requires Valid() && |nodes| < NodesCount(kind)
      modifies this
      ensures Valid()
      ensures Value() == old(Value()).(nodes := old(nodes) + [n])
    {
      nodes := nodes + [n];
    }

    /** `isConnectedTo(node, &idx)`: true exactly when `n` is one of the
        device's nodes, and then `idx` is its first occurrence. */
    method IsConnectedTo(n: string) returns (found: bool, idx: nat)
      ensures found <==> n in nodes
      ensures found ==> idx < |nodes| && nodes[idx] == n && n !in nodes[..idx]
    {
      idx := 0;
      while idx < |nodes|
        invariant idx <= |nodes|
        invariant n !in nodes[..idx]
      {
        if nodes[idx] == n {
          return true, idx;
        }
        assert nodes[..idx + 1] == nodes[..idx] + [nodes[idx]];
        idx := idx + 1;
      }
      assert nodes[..idx] == nodes;
      found := false;
    }

    /** `getRelativeGridNodePosition(node)`: the offset of the node's first
        occurrence, or None (`svInvalidPoint`) when the device is not
        attached to it. */
    method RelativePositionOf(n: string) returns (r: Option<Point>)
      ensures r == (if n in nodes then RelativeNodePosition(kind, FirstIndex(nodes, n)) else None)
      ensures Valid() ==> (r.Some? <==> n in nodes)
    {
      var i := 0;
      while i < |nodes|
        invariant i <= |nodes|
        invariant n !in nodes[..i]
      {
        if nodes[i] == n {
          FirstIndexUnique(nodes, n, i);
          return RelativeNodePosition(kind, i);
        }
        assert nodes[..i + 1] == nodes[..i] + [nodes[i]];
        i := i + 1;
      }
      assert nodes[..i] == nodes;
      r := None;
    }

    /** `parseSPICEProperty(j, tok)` (`parseProperty` in the older copy):
        the members change as the family's parser says, and only when it
        accepts the token. */
    method ParseProperty(j: nat, tok: string) returns (ok: bool)
      requires Valid()
      modifies this
      ensures Valid()
      ensures ok == Properties.ParseProperty(kind, old(props), j, tok).Some?
      ensures Value() == old(Value()).(props := if ok then Properties.ParseProperty(kind, old(props), j, tok).value else old(props))
    {
      match Properties.ParseProperty(kind, props, j, tok)
      case None =>
        ok := false;
      case Some(q) =>
        props := q;
        ok := true;
    }
  }
}
