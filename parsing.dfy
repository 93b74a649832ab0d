/** The per-line rules of `svCircuit::parseSPICESubCkt`, which the older
    `svParser::loadSubCkt` shares word for word: skip short and `.MODEL`
    lines, find the device by its identifier character, take its node
    tokens, hand the rest to its property parser.  First on values, then the
    method both copies run for one line. */
module Parsing {
  import opened Common
  import opened Geometry
  import opened Properties
  import opened Devices
  import opened Registry
  import opened NetlistText

  /** The prototypes the parser may be handed out clones of: well-formed
      devices that hold no nodes yet (what the registration functions
      register), so that the node tokens fit. */
  predicate ProtosOk(protos: seq<DeviceValue>)
  {
    forall i :: 0 <= i < |protos| ==> ValueOk(protos[i]) && protos[i].nodes == []
  }

  /** The lines that are skipped: at most one token, or `.MODEL` first. */
  predicate IsSkipped(line: string)
  {
    var toks := Tokens(line);
    |toks| <= 1 || toks[0] == ".MODEL"
  }

  /** What one line does: whether parsing goes on, the node tokens that were
      added to the circuit's node set (also when a property fails later on),
      and the device appended, if any. */
  datatype LineResult = LineResult(ok: bool, newNodes: seq<string>, device: Option<DeviceValue>)

  /** The prototype a device line asks for by its first character. */
  function LineProto(protos: seq<DeviceValue>, line: string): (r: Option<DeviceValue>)
    requires ProtosOk(protos) && !IsSkipped(line)
    ensures r.Some? ==> ValueOk(r.value) && r.value.nodes == [] && Id(r.value.kind) == Tokens(line)[0][0]
  {
    LookupClonesAPrototype(protos, Tokens(line)[0][0]);
    LookupValue(protos, Tokens(line)[0][0])
  }

  function LineStep(protos: seq<DeviceValue>, line: string): (r: LineResult)
    requires ProtosOk(protos)
    // skipped lines do nothing and never fail
    ensures IsSkipped(line) ==> r == LineResult(true, [], None)
    // a line goes through exactly when it is skipped or yields a device
    ensures r.ok <==> IsSkipped(line) || r.device.Some?
  {
    if IsSkipped(line) then LineResult(true, [], None)
    else
      var toks := Tokens(line);
      match LineProto(protos, line)
      case None => LineResult(false, [], None)
      case Some(proto) => DeviceStep(proto, toks[0][1..], toks[1..])
  }

  /** The rest of a device line, once the prototype's clone is in hand: the
      node tokens, then the property tokens. */
  function DeviceStep(proto: DeviceValue, name: string, args: seq<string>): (r: LineResult)
    requires ValueOk(proto) && proto.nodes == []
    ensures r.ok <==> r.device.Some?
    // too few tokens for the nodes: the line fails before any node is added
    ensures |args| < NodesCount(proto.kind) ==> r == LineResult(false, [], None)
    // otherwise the node tokens are added to the circuit whatever follows,
    // and the line goes through exactly when the properties parse
    ensures NodesCount(proto.kind) <= |args| ==>
      && r.newNodes == args[..NodesCount(proto.kind)]
      && (r.ok <==> ParseProperties(proto.kind, proto.props, args[NodesCount(proto.kind)..], 0).Some?)
    // the device is the clone renamed, attached to those nodes, with the
    // parsed properties, and it keeps the device invariant
    ensures r.device.Some? ==>
      var d := r.device.value;
      && d == proto.(name := name, nodes := r.newNodes, props := d.props)
      && ParseProperties(proto.kind, proto.props, args[NodesCount(proto.kind)..], 0) == Some(d.props)
      && |d.nodes| == NodesCount(d.kind) && ValueOk(d)
  {
    var nc := NodesCount(proto.kind);
    if |args| < nc then LineResult(false, [], None)
    else
      match ParseProperties(proto.kind, proto.props, args[nc..], 0)
      case None => LineResult(false, args[..nc], None)
      case Some(p) => LineResult(true, args[..nc], Some(proto.(name := name, nodes := args[..nc], props := p)))
  }

  /** An identifier character no prototype has fails the line. */
  lemma UnknownIdentifierFails(protos: seq<DeviceValue>, line: string)
    requires ProtosOk(protos) && !IsSkipped(line) && LineProto(protos, line).None?
    ensures !LineStep(protos, line).ok
  {
  }

  /** The device a line yields: the clone of the prototype its first
      character selects, named by the rest of the first token, attached to
      the next `getNodesCount()` tokens, which are also the nodes added to
      the circuit, with the properties the remaining tokens give. */
  lemma DeviceOfLine(protos: seq<DeviceValue>, line: string)
    requires ProtosOk(protos) && LineStep(protos, line).device.Some?
    ensures var toks := Tokens(line);
      var d := LineStep(protos, line).device.value;
      && !IsSkipped(line) && LineProto(protos, line).Some?
      && var proto := LineProto(protos, line).value;
      && d.kind == proto.kind && Id(d.kind) == toks[0][0]
      && d.name == toks[0][1..] && d.position == proto.position
      && 1 + NodesCount(d.kind) <= |toks|
      && d.nodes == LineStep(protos, line).newNodes == toks[1..1 + NodesCount(d.kind)]
      && ParseProperties(d.kind, proto.props, toks[1 + NodesCount(d.kind)..], 0) == Some(d.props)
      && ValueOk(d)
  {
  }

  /** What the lookup hands out is a well-formed device without nodes. */
  lemma LookupClonesAPrototype(protos: seq<DeviceValue>, c: char)
    requires ProtosOk(protos)
    ensures LookupValue(protos, c).Some? ==> ValueOk(LookupValue(protos, c).value) && LookupValue(protos, c).value.nodes == []
  {
    if LookupValue(protos, c).Some? {
      var i :| 0 <= i < |protos| && Id(protos[i].kind) == c && forall k :: 0 <= k < i ==> Id(protos[k].kind) != c by {
        FirstWithId(protos, c);
      }
      LookupFindsFirst(protos, c, i);
    }
  }

  lemma {:induction false} FirstWithId(protos: seq<DeviceValue>, c: char)
    requires LookupValue(protos, c).Some?
    ensures exists i :: 0 <= i < |protos| && Id(protos[i].kind) == c && forall k :: 0 <= k < i ==> Id(protos[k].kind) != c
    decreases |protos|
  {
    if Id(protos[0].kind) != c {
      assert LookupValue(protos[1..], c).Some?;
      FirstWithId(protos[1..], c);
      var i :| 0 <= i < |protos[1..]| && Id(protos[1..][i].kind) == c && forall k :: 0 <= k < i ==> Id(protos[1..][k].kind) != c;
      assert forall k :: 0 <= k < i ==> protos[1..][k] == protos[k + 1];
      assert Id(protos[i + 1].kind) == c;
    } else {
      assert Id(protos[0].kind) == c;
    }
  }

  // ---------------------------------------------------------------------------
  // A sequence of lines
  // ---------------------------------------------------------------------------

  /** The node set and the devices parsed so far. */
  datatype Parsed = Parsed(nodes: set<string>, devices: seq<DeviceValue>)

  const NothingParsed: Parsed := Parsed({}, [])

  /** The state after one line. */
  function Apply(st: Parsed, r: LineResult): (st': Parsed)
    ensures st'.nodes == st.nodes + Elems(r.newNodes)
    ensures r.device.None? ==> st'.devices == st.devices
    ensures r.device.Some? ==> st'.devices == st.devices + [r.device.value]
  {
    Parsed(st.nodes + Elems(r.newNodes), if r.device.Some? then st.devices + [r.device.value] else st.devices)
  }

  datatype RunResult = RunResult(ok: bool, state: Parsed)

  /** The results of the lines taken one by one. */
  function Steps(protos: seq<DeviceValue>, lines: seq<string>): (rs: seq<LineResult>)
    requires ProtosOk(protos)
    ensures |rs| == |lines| && forall k :: 0 <= k < |lines| ==> rs[k] == LineStep(protos, lines[k])
  {
    seq(|lines|, k requires 0 <= k < |lines| => LineStep(protos, lines[k]))
  }

  /** The line results applied in order from state `st`, stopping at the
      first that fails. */
  function Run(rs: seq<LineResult>, st: Parsed): (r: RunResult)
    ensures rs == [] ==> r == RunResult(true, st)
    ensures !r.ok ==> rs != []
    decreases |rs|
  {
    if rs == [] then RunResult(true, st)
    else
      var prev := Run(rs[..|rs| - 1], st);
      if !prev.ok then prev
      else RunResult(rs[|rs| - 1].ok, Apply(prev.state, rs[|rs| - 1]))
  }

  /** The lines parsed in order from state `st`; no lines leave the state
      as it was, and only a line can make parsing fail. */
  function ParseLines(protos: seq<DeviceValue>, lines: seq<string>, st: Parsed): (r: RunResult)
    requires ProtosOk(protos)
    ensures lines == [] ==> r == RunResult(true, st)
    ensures !r.ok ==> lines != []
  {
    Run(Steps(protos, lines), st)
  }

  /** One more line. */
  lemma ParseLinesSnoc(protos: seq<DeviceValue>, lines: seq<string>, line: string, st: Parsed)
    requires ProtosOk(protos)
    ensures var prev := ParseLines(protos, lines, st);
      var r := LineStep(protos, line);
      ParseLines(protos, lines + [line], st) == if !prev.ok then prev else RunResult(r.ok, Apply(prev.state, r))
  {
    var rs := Steps(protos, lines + [line]);
    assert rs[..|rs| - 1] == Steps(protos, lines);
  }

  /** Once a line fails, the lines after it change nothing. */
  lemma {:induction false} FailureIsFinal(protos: seq<DeviceValue>, lines: seq<string>, k: nat, st: Parsed)
    requires ProtosOk(protos) && k <= |lines|
    requires !ParseLines(protos, lines[..k], st).ok
    ensures ParseLines(protos, lines, st) == ParseLines(protos, lines[..k], st)
    decreases |lines| - k
  {
    if k < |lines| {
      var init := lines[..|lines| - 1];
      assert init[..k] == lines[..k];
      FailureIsFinal(protos, init, k, st);
      assert lines == init + [lines[|lines| - 1]];
      ParseLinesSnoc(protos, init, lines[|lines| - 1], st);
    } else {
      assert lines[..k] == lines;
    }
  }

  /** The two facts above for a slice `lines[start..i]` growing by one, as
      the parser's loop over line indices sees them. */
  lemma SliceStep(protos: seq<DeviceValue>, lines: seq<string>, start: nat, i: nat, end: nat, st: Parsed)
    requires ProtosOk(protos) && start <= i < end <= |lines|
    ensures var prev := ParseLines(protos, lines[start..i], st);
      var r := LineStep(protos, lines[i]);
      ParseLines(protos, lines[start..i + 1], st) == if !prev.ok then prev else RunResult(r.ok, Apply(prev.state, r))
    ensures !ParseLines(protos, lines[start..i + 1], st).ok ==>
      ParseLines(protos, lines[start..end], st) == ParseLines(protos, lines[start..i + 1], st)
  {
    assert lines[start..i + 1] == lines[start..i] + [lines[i]];
    ParseLinesSnoc(protos, lines[start..i], lines[i], st);
    if !ParseLines(protos, lines[start..i + 1], st).ok {
      assert lines[start..end][..i + 1 - start] == lines[start..i + 1];
      FailureIsFinal(protos, lines[start..end], i + 1 - start, st);
    }
  }

  /** `SliceStep` as the loop uses it: with the lines before `i` parsed
      into `before`, line `i` takes the state to `Apply(before, step)`, and
      a failing line is the result of the whole slice. */
  lemma LoopStep(protos: seq<DeviceValue>, lines: seq<string>, start: nat, i: nat, end: nat, st: Parsed, before: Parsed)
    requires ProtosOk(protos) && start <= i < end <= |lines|
    requires ParseLines(protos, lines[start..i], st) == RunResult(true, before)
    ensures var step := LineStep(protos, lines[i]);
      && ParseLines(protos, lines[start..i + 1], st) == RunResult(step.ok, Apply(before, step))
      && (!step.ok ==> ParseLines(protos, lines[start..end], st) == RunResult(false, Apply(before, step)))
  {
    SliceStep(protos, lines, start, i, end, st);
  }

  /** The lines parse exactly when every one of them does. */
  lemma {:induction false} RunOkExactly(rs: seq<LineResult>, st: Parsed)
    ensures Run(rs, st).ok <==> forall k :: 0 <= k < |rs| ==> rs[k].ok
    decreases |rs|
  {
    if rs != [] {
      var init := rs[..|rs| - 1];
      RunOkExactly(init, st);
      assert forall k :: 0 <= k < |init| ==> init[k] == rs[k];
    }
  }

  lemma LinesOkExactly(protos: seq<DeviceValue>, lines: seq<string>, st: Parsed)
    requires ProtosOk(protos)
    ensures ParseLines(protos, lines, st).ok <==> forall k :: 0 <= k < |lines| ==> LineStep(protos, lines[k]).ok
  {
    RunOkExactly(Steps(protos, lines), st);
  }

  /** What a line result may add: a well-formed device attached to exactly
      its `getNodesCount()` nodes, each of which goes into the node set. */
  predicate ResultOk(r: LineResult)
  {
    r.device.Some? ==> ValueOk(r.device.value) && r.device.value.nodes == r.newNodes
                       && |r.newNodes| == NodesCount(r.device.value.kind)
  }

  lemma LineResultOk(protos: seq<DeviceValue>, line: string)
    requires ProtosOk(protos)
    ensures ResultOk(LineStep(protos, line))
  {
    if LineStep(protos, line).device.Some? {
      DeviceOfLine(protos, line);
    }
  }

  /** Every device is attached only to nodes of the circuit's node set. */
  predicate Connected(st: Parsed)
  {
    forall i :: 0 <= i < |st.devices| ==> forall n :: n in st.devices[i].nodes ==> n in st.nodes
  }

  /** Parsing only adds: earlier nodes and devices stay, the circuit stays
      connected, and every device added is well formed and holds exactly
      `getNodesCount()` nodes. */
  lemma {:induction false} RunKeepsConnected(rs: seq<LineResult>, st: Parsed)
    requires forall k :: 0 <= k < |rs| ==> ResultOk(rs[k])
    requires Connected(st)
    ensures var r := Run(rs, st).state;
      && Connected(r)
      && st.nodes <= r.nodes
      && |st.devices| <= |r.devices| && r.devices[..|st.devices|] == st.devices
      && forall i :: |st.devices| <= i < |r.devices| ==> ValueOk(r.devices[i]) && |r.devices[i].nodes| == NodesCount(r.devices[i].kind)
    decreases |rs|
  {
    if rs != [] {
      var init := rs[..|rs| - 1];
      assert forall k :: 0 <= k < |init| ==> init[k] == rs[k];
      RunKeepsConnected(init, st);
      var prev := Run(init, st);
      if prev.ok {
        var l := rs[|rs| - 1];
        assert ResultOk(l);
        var next := Apply(prev.state, l);
        assert prev.state.devices[..|st.devices|] == st.devices;
        if l.device.Some? {
          assert next.devices[..|prev.state.devices|] == prev.state.devices;
        }
      }
    }
  }

  lemma LinesKeepConnected(protos: seq<DeviceValue>, lines: seq<string>, st: Parsed)
    requires ProtosOk(protos) && Connected(st)
    ensures var r := ParseLines(protos, lines, st).state;
      && Connected(r)
      && st.nodes <= r.nodes
      && |st.devices| <= |r.devices| && r.devices[..|st.devices|] == st.devices
      && forall i :: |st.devices| <= i < |r.devices| ==> ValueOk(r.devices[i]) && |r.devices[i].nodes| == NodesCount(r.devices[i].kind)
  {
    var rs := Steps(protos, lines);
    forall k | 0 <= k < |rs|
      ensures ResultOk(rs[k])
    {
      LineResultOk(protos, lines[k]);
    }
    RunKeepsConnected(rs, st);
  }

  /** The number of lines that are not skipped. */
  function DeviceLines(lines: seq<string>): (n: nat)
    ensures n <= |lines|
    decreases |lines|
  {
    if lines == [] then 0
    else DeviceLines(lines[..|lines| - 1]) + (if IsSkipped(lines[|lines| - 1]) then 0 else 1)
  }

  /** The number of results that carry a device. */
  function DeviceCount(rs: seq<LineResult>): (n: nat)
    ensures n <= |rs|
    decreases |rs|
  {
    if rs == [] then 0
    else DeviceCount(rs[..|rs| - 1]) + (if rs[|rs| - 1].device.Some? then 1 else 0)
  }

  /** When all lines go through, one device is appended per device result. */
  lemma {:induction false} RunAppendsDevices(rs: seq<LineResult>, st: Parsed)
    requires Run(rs, st).ok
    ensures |Run(rs, st).state.devices| == |st.devices| + DeviceCount(rs)
    decreases |rs|
  {
    if rs != [] {
      RunAppendsDevices(rs[..|rs| - 1], st);
    }
  }

  /** A line that goes through yields a device exactly when it is not
      skipped. */
  lemma OkLineDevice(protos: seq<DeviceValue>, line: string)
    requires ProtosOk(protos) && LineStep(protos, line).ok
    ensures LineStep(protos, line).device.Some? <==> !IsSkipped(line)
  {
  }

  lemma {:induction false} CountMatches(rs: seq<LineResult>, lines: seq<string>)
    requires |rs| == |lines|
    requires forall k :: 0 <= k < |rs| ==> (rs[k].device.Some? <==> !IsSkipped(lines[k]))
    ensures DeviceCount(rs) == DeviceLines(lines)
    decreases |rs|
  {
    if rs != [] {
      var n := |rs| - 1;
      assert forall k :: 0 <= k < n ==> rs[..n][k] == rs[k] && lines[..n][k] == lines[k];
      CountMatches(rs[..n], lines[..n]);
    }
  }

  /** When the lines parse, exactly one device is appended per line that is
      not skipped. */
  lemma OneDevicePerLine(protos: seq<DeviceValue>, lines: seq<string>, st: Parsed)
    requires ProtosOk(protos) && ParseLines(protos, lines, st).ok
    ensures |ParseLines(protos, lines, st).state.devices| == |st.devices| + DeviceLines(lines)
  {
    var rs := Steps(protos, lines);
    LinesOkExactly(protos, lines, st);
    forall k | 0 <= k < |rs|
      ensures rs[k].device.Some? <==> !IsSkipped(lines[k])
    {
      OkLineDevice(protos, lines[k]);
    }
    RunAppendsDevices(rs, st);
    CountMatches(rs, lines);
  }

  /** Starting from a non-empty state only adds that state in front: the
      outcome is the same, the node sets join and the device lists
      concatenate.  (The older `loadSubCkt` never clears its subcircuit; the
      newer parser clears it first.) */
  lemma {:induction false} RunAccumulates(rs: seq<LineResult>, st: Parsed)
    ensures var alone := Run(rs, NothingParsed);
      Run(rs, st) == RunResult(alone.ok, Parsed(st.nodes + alone.state.nodes, st.devices + alone.state.devices))
    decreases |rs|
  {
    if rs == [] {
      assert st.devices + [] == st.devices;
      assert st.nodes + {} == st.nodes;
    } else {
      var init := rs[..|rs| - 1];
      RunAccumulates(init, st);
      var prev := Run(init, NothingParsed);
      var l := rs[|rs| - 1];
      if prev.ok && l.device.Some? {
        assert st.devices + prev.state.devices + [l.device.value] == st.devices + (prev.state.devices + [l.device.value]);
      }
    }
  }

  // ---------------------------------------------------------------------------
  // One line, on objects
  // ---------------------------------------------------------------------------

  /** One iteration of the line loop: the node tokens to add to the circuit
      and the new device object to append (null when nothing is appended). */
  method ParseDeviceLine(factory: DeviceFactory, line: string) returns (ok: bool, newNodes: seq<string>, dev: Device?)
    requires factory.Valid() && ProtosOk(factory.Prototypes())
    ensures LineResult(ok, newNodes, if dev == null then None else Some(dev.Value())) == LineStep(factory.Prototypes(), line)
    ensures dev != null ==> fresh(dev) && dev.Valid()
  {
    ghost var protos := factory.Prototypes();
    var toks := Tokens(line);
    if |toks| <= 1 {
      return true, [], null;
    }
    var compName := toks[0];
    var args := toks[1..];
    if compName == ".MODEL" {
      return true, [], null;
    }
    var d := factory.Lookup(compName[0]);
    if d == null {
      return false, [], null;
    }
    assert LineProto(protos, line) == Some(d.Value());
    ok, newNodes := FillDevice(d, compName[1..], args);
    assert factory.Prototypes() == protos;
    dev := if ok then d else null;
  }

  /** From `setName` on: the node tokens, then the property tokens, on the
      clone the factory handed out. */
  method FillDevice(d: Device, name: string, args: seq<string>) returns (ok: bool, newNodes: seq<string>)
    requires d.Valid() && d.nodes == []
    modifies d
    ensures d.Valid()
    ensures LineResult(ok, newNodes, if ok then Some(d.Value()) else None) == DeviceStep(old(d.Value()), name, args)
  {
    ghost var proto := d.Value();
    d.SetName(name);
    var nc := NodesCount(d.kind);
    if |args| < nc {
      return false, [];
    }
    newNodes := args[..nc];
    AttachNodes(d, newNodes);
    assert d.Value() == proto.(name := name, nodes := newNodes);
    ok := ParsePropertyTokens(d, args[nc..]);
    ghost var parsed := ParseProperties(proto.kind, proto.props, args[nc..], 0);
    assert ok == parsed.Some?;
    assert ok ==> d.Value() == proto.(name := name, nodes := newNodes, props := parsed.value);
  }

  /** The node loop: `addNode` for each node token, in order. */
  method AttachNodes(d: Device, ns: seq<string>)
    requires d.Valid() && |d.nodes| + |ns| <= NodesCount(d.kind)
    modifies d
    ensures d.Valid() && d.Value() == old(d.Value()).(nodes := old(d.nodes) + ns)
  {
    var j := 0;
    while j < |ns|
      invariant 0 <= j <= |ns|
      invariant d.Valid() && d.Value() == old(d.Value()).(nodes := old(d.nodes) + ns[..j])
    {
      assert ns[..j + 1] == ns[..j] + [ns[j]];
      d.AddNode(ns[j]);
      j := j + 1;
    }
    assert ns[..j] == ns;
  }

  /** The property loop: `parseSPICEProperty(j, tok)` for each remaining
      token, stopping at the first one rejected. */
  method ParsePropertyTokens(d: Device, toks: seq<string>) returns (ok: bool)
    requires d.Valid()
    modifies d
    ensures d.Valid()
    ensures ok == ParseProperties(d.kind, old(d.props), toks, 0).Some?
    ensures ok ==> d.Value() == old(d.Value()).(props := ParseProperties(d.kind, old(d.props), toks, 0).value)
  {
    var k := 0;
    while k < |toks|
      invariant 0 <= k <= |toks|
      invariant d.Valid() && d.Value() == old(d.Value()).(props := d.props)
      invariant ParseProperties(d.kind, old(d.props), toks, 0) == ParseProperties(d.kind, d.props, toks[k..], k)
    {
      PropertiesStep(d.kind, d.props, toks, k);
      var accepted := d.ParseProperty(k, toks[k]);
      if !accepted {
        return false;
      }
      k := k + 1;
    }
    assert toks[k..] == [];
    ok := true;
  }

  /** One token of the property loop. */
  lemma PropertiesStep(k: Kind, p: Props, toks: seq<string>, i: nat)
    requires i < |toks| && PropsFit(k, p)
    ensures ParseProperties(k, p, toks[i..], i)
            == match ParseProperty(k, p, i, toks[i])
               case None => None
               case Some(q) => ParseProperties(k, q, toks[i + 1..], i + 1)
  {
    assert toks[i..][0] == toks[i] && toks[i..][1..] == toks[i + 1..];
  }
}
