/** The device kinds and their fixed grid geometry: `getSPICEid`,
    `getNodesCount` and the node-offset and extent getters of the passive,
    transistor and source classes of netlist.h.  The older `trunk` header
    carries the same tables under other getter names, so both copies share
    this module. */
module Geometry {
  import opened Common

  /** A grid point (`wxPoint` holding grid coordinates, possibly negative). */
  datatype Point = Point(x: int, y: int)
  {
    function Plus(p: Point): Point
    {
      Point(x + p.x, y + p.y)
    }
  }

  /** `wxRect(x, y, width, height)`. */
  datatype Rect = Rect(x: int, y: int, width: int, height: int)

  /** The geometry of a device in its default (vertical) orientation: the
      offset of each node from node 0, and the leftmost, rightmost and
      bottommost node positions, all relative to node 0. */
  datatype Shape = Shape(offsets: seq<Point>, leftmost: Point, rightmost: Point, bottommost: Point)

  /** `svExternalPin` is declared in a header that is not part of this model,
      so what the model needs of it is carried as data: its identifier, its
      shape, whether its property parser accepts a token, and whether its
      `clone` copies its state. */
  datatype PinTraits = PinTraits(id: char, shape: Shape, acceptsProperties: bool, cloneKeepsState: bool)

  datatype Kind =
    | Capacitor | Resistor | Inductor | Diode
    | ISource | VSource
    | MOS | BJT | JFET
    | ESource | GSource
    | ExternalPin(pin: PinTraits)

  /** The intermediate abstract classes of the source. */
  datatype Family = Passive | Transistor | Independent | Controlled | Pin

  function FamilyOf(k: Kind): Family
  {
    match k
    case Capacitor | Resistor | Inductor | Diode => Passive
    case ISource | VSource => Independent
    case MOS | BJT | JFET => Transistor
    case ESource | GSource => Controlled
    case ExternalPin(_) => Pin
  }

  /** `getSPICEid` (`getSpiceIdentifier` in the older copy). */
  function Id(k: Kind): char
  {
    match k
    case Capacitor => 'C'
    case Resistor => 'R'
    case Inductor => 'L'
    case Diode => 'D'
    case ISource => 'I'
    case VSource => 'V'
    case MOS => 'M'
    case BJT => 'Q'
    case JFET => 'J'
    case ESource => 'E'
    case GSource => 'G'
    case ExternalPin(p) => p.id
  }

  /** Vertical two-pin symbol: node 1 one row below node 0. */
  const TwoPinShape: Shape := Shape([Point(0, 0), Point(0, 1)], Point(0, 0), Point(0, 0), Point(0, 1))

  /** Transistor symbol: drain/collector, gate/base one column to the left
      and one row down, source/emitter two rows down. */
  const TransistorShape: Shape :=
    Shape([Point(0, 0), Point(-1, 1), Point(0, 2)], Point(-1, 1), Point(0, 0), Point(0, 2))

  /** The table of a built-in kind: the transistor table for M, Q and J,
      the two-pin table for the others. */
  function BuiltInShape(f: Family): Shape
  {
    if f == Transistor then TransistorShape else TwoPinShape
  }

  function ShapeOf(k: Kind): Shape
  {
    if k.ExternalPin? then k.pin.shape else BuiltInShape(FamilyOf(k))
  }

  /** `getNodesCount`: one node per entry of the offset table. */
  function NodesCount(k: Kind): nat
  {
    |ShapeOf(k).offsets|
  }

  /** `getRelativeGridNodePosition(nodeIdx)`; None is `svInvalidPoint`. */
  function RelativeNodePosition(k: Kind, i: nat): (r: Option<Point>)
    ensures r.Some? <==> i < NodesCount(k)
    ensures i == 0 && 0 < NodesCount(k) ==> r == Some(ShapeOf(k).offsets[0])
  {
    if i < |ShapeOf(k).offsets| then Some(ShapeOf(k).offsets[i]) else None
  }

  /** What the source states about every shape: node 0 is at (0,0) and is the
      topmost node, every node lies between the leftmost and rightmost
      columns and above the bottommost row, and the three extents are node
      positions. */
  predicate ShapeOk(s: Shape)
  {
    && |s.offsets| >= 1
    && s.offsets[0] == Point(0, 0)
    && (forall i :: 0 <= i < |s.offsets| ==>
          s.leftmost.x <= s.offsets[i].x <= s.rightmost.x && 0 <= s.offsets[i].y <= s.bottommost.y)
    && s.leftmost in s.offsets && s.rightmost in s.offsets && s.bottommost in s.offsets
  }

  /** The kinds whose geometry the model knows; the pin's comes with it. */
  predicate KindOk(k: Kind)
  {
    !k.ExternalPin? || ShapeOk(k.pin.shape)
  }

  /** The built-in tables satisfy `ShapeOk`, with two nodes for passives and
      sources and three for transistors. */
  lemma BuiltInShapes(k: Kind)
    requires !k.ExternalPin?
    ensures ShapeOk(ShapeOf(k))
    ensures NodesCount(k) == (if FamilyOf(k) == Transistor then 3 else 2)
  {
    assert ShapeOk(TwoPinShape) by {
      assert TwoPinShape.leftmost == TwoPinShape.offsets[0];
      assert TwoPinShape.bottommost == TwoPinShape.offsets[1];
    }
    assert ShapeOk(TransistorShape) by {
      assert TransistorShape.leftmost == TransistorShape.offsets[1];
      assert TransistorShape.rightmost == TransistorShape.offsets[0];
      assert TransistorShape.bottommost == TransistorShape.offsets[2];
    }
  }

  /** Every kind the model admits has a well-formed shape. */
  lemma KindShapeOk(k: Kind)
    requires KindOk(k)
    ensures ShapeOk(ShapeOf(k))
  {
    if !k.ExternalPin? {
      BuiltInShapes(k);
    }
  }

  /** Consequences used by placement: node 0 lies within the horizontal
      extent, so the width and the distance from the leftmost column to node
      0 are never negative. */
  lemma ExtentsAroundNodeZero(k: Kind)
    requires KindOk(k)
    ensures ShapeOf(k).leftmost.x <= 0 <= ShapeOf(k).rightmost.x
    ensures ShapeOf(k).bottommost.y >= 0
    ensures |ShapeOf(k).offsets| >= 1 && ShapeOf(k).offsets[0] == Point(0, 0)
  {
    KindShapeOk(k);
    var s := ShapeOf(k);
    assert s.offsets[0] == Point(0, 0);
  }
}
