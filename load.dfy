/** `svParserSPICE::load`: the lines of a netlist are trimmed and filtered,
    then every `.SUBCKT` line opens a block that ends at the next `.ENDS`,
    each block is parsed into a fresh circuit and a copy of that circuit is
    appended to the output array. */
module Loader {
  import opened Common
  import opened Geometry
  import opened Devices
  import opened Registry
  import opened NetlistText
  import opened Parsing
  import opened Circuits

  datatype LoadResult = LoadResult(ok: bool, circuits: seq<CircuitValue>)

  /** The circuit `parseSPICESubCkt` leaves behind: `release()` has cleared
      the name the constructor was given, and the box is still zero. */
  function ParsedCircuit(st: Parsed): CircuitValue
  {
    CircuitValue("", st.nodes, st.devices, ZeroRect)
  }

  /** A `.SUBCKT` line at `k` whose block is closed and parses. */
  predicate BlockOk(protos: seq<DeviceValue>, t: seq<string>, k: nat)
    requires ProtosOk(protos) && k < |t|
  {
    var e := FindEnds(t, k + 1);
    e.Some? && ParseLines(protos, t[k + 1..e.value], NothingParsed).ok
  }

  /** The outer loop from line `i` of the filtered lines on, with the
      circuits pushed so far in `acc`. */
  function LoadFrom(protos: seq<DeviceValue>, t: seq<string>, i: nat, acc: seq<CircuitValue>): (r: LoadResult)
    requires ProtosOk(protos) && i <= |t|
    ensures |r.circuits| <= |acc| + (|t| - i)
    decreases |t| - i
  {
    if i == |t| then LoadResult(true, acc)
    else if !IsSubcktLine(t[i]) then LoadFrom(protos, t, i + 1, acc)
    else if !BlockOk(protos, t, i) then LoadResult(false, acc)
    else LoadFrom(protos, t, i + 1, acc + [BlockCircuit(protos, t, i)])
  }

  /** `load(ret, filename)` once the file has been read into lines. */
  function LoadNetlist(protos: seq<DeviceValue>, lines: seq<string>, ret: seq<CircuitValue>): (r: LoadResult)
    requires ProtosOk(protos)
    ensures |r.circuits| <= |ret| + |lines|
    ensures lines == [] ==> r == LoadResult(true, ret)
  {
    LoadFrom(protos, Preprocess(lines), 0, ret)
  }

  /** What was in the output array stays in front, also when loading
      fails. */
  lemma {:induction false} LoadKeepsEarlier(protos: seq<DeviceValue>, t: seq<string>, i: nat, acc: seq<CircuitValue>)
    requires ProtosOk(protos) && i <= |t|
    ensures var r := LoadFrom(protos, t, i, acc).circuits;
      |acc| <= |r| && r[..|acc|] == acc
    decreases |t| - i
  {
    if i < |t| && IsSubcktLine(t[i]) {
      if BlockOk(protos, t, i) {
        var acc' := acc + [BlockCircuit(protos, t, i)];
        LoadKeepsEarlier(protos, t, i + 1, acc');
        assert acc'[..|acc|] == acc;
      }
    } else if i < |t| {
      LoadKeepsEarlier(protos, t, i + 1, acc);
    }
  }

  /** Loading succeeds exactly when every `.SUBCKT` line has a later `.ENDS`
      and its block parses. */
  lemma {:induction false} LoadOkExactly(protos: seq<DeviceValue>, t: seq<string>, i: nat, acc: seq<CircuitValue>)
    requires ProtosOk(protos) && i <= |t|
    ensures LoadFrom(protos, t, i, acc).ok <==> forall k :: i <= k < |t| && IsSubcktLine(t[k]) ==> BlockOk(protos, t, k)
    decreases |t| - i
  {
    if i < |t| {
      if !IsSubcktLine(t[i]) {
        LoadOkExactly(protos, t, i + 1, acc);
      } else if BlockOk(protos, t, i) {
        LoadOkExactly(protos, t, i + 1, acc + [BlockCircuit(protos, t, i)]);
      } else {
        assert !LoadFrom(protos, t, i, acc).ok;
      }
    }
  }

  /** The number of `.SUBCKT` lines from `i` on. */
  function SubcktCount(t: seq<string>, i: nat): (n: nat)
    requires i <= |t|
    ensures n <= |t| - i
    decreases |t| - i
  {
    if i == |t| then 0 else SubcktCount(t, i + 1) + (if IsSubcktLine(t[i]) then 1 else 0)
  }

  /** A successful load appends one circuit per `.SUBCKT` line. */
  lemma {:induction false} OneCircuitPerSubckt(protos: seq<DeviceValue>, t: seq<string>, i: nat, acc: seq<CircuitValue>)
    requires ProtosOk(protos) && i <= |t|
    requires LoadFrom(protos, t, i, acc).ok
    ensures |LoadFrom(protos, t, i, acc).circuits| == |acc| + SubcktCount(t, i)
    decreases |t| - i
  {
    if i < |t| {
      if !IsSubcktLine(t[i]) {
        OneCircuitPerSubckt(protos, t, i + 1, acc);
      } else {
        OneCircuitPerSubckt(protos, t, i + 1, acc + [BlockCircuit(protos, t, i)]);
      }
    }
  }

  /** What a loaded circuit looks like: no name (the parser's `release()`
      cleared it), a zero box, every device well formed and attached only to
      nodes of the circuit's node set.  A device whose `clone` copies it
      holds its `getNodesCount()` nodes; the others (E and G sources) have
      come through the copy default-constructed. */
  predicate LoadedShape(c: CircuitValue)
  {
    && c.name == "" && c.bb == ZeroRect
    && Connected(Parsed(c.nodes, c.devices))
    && forall i :: 0 <= i < |c.devices| ==>
         && ValueOk(c.devices[i])
         && (CloneCopies(c.devices[i].kind) ==> |c.devices[i].nodes| == NodesCount(c.devices[i].kind))
         && (!CloneCopies(c.devices[i].kind) ==> c.devices[i] == DefaultValue(c.devices[i].kind))
  }

  /** The copy of a parsed block has the loaded shape. */
  lemma BlockShape(protos: seq<DeviceValue>, block: seq<string>)
    requires ProtosOk(protos)
    ensures LoadedShape(CopyValue(ParsedCircuit(ParseLines(protos, block, NothingParsed).state)))
  {
    var st := ParseLines(protos, block, NothingParsed).state;
    LinesKeepConnected(protos, block, NothingParsed);
    var c := ParsedCircuit(st);
    CopyKeeps(c);
    CopyKeepsValid(c);
  }

  /** Every circuit a load appends has the loaded shape. */
  lemma {:induction false} LoadedCircuitsShape(protos: seq<DeviceValue>, t: seq<string>, i: nat, acc: seq<CircuitValue>)
    requires ProtosOk(protos) && i <= |t|
    ensures forall k :: |acc| <= k < |LoadFrom(protos, t, i, acc).circuits| ==> LoadedShape(LoadFrom(protos, t, i, acc).circuits[k])
    decreases |t| - i
  {
    if i < |t| {
      if !IsSubcktLine(t[i]) {
        LoadedCircuitsShape(protos, t, i + 1, acc);
        assert LoadFrom(protos, t, i, acc) == LoadFrom(protos, t, i + 1, acc);
      } else if BlockOk(protos, t, i) {
        var c := BlockCircuit(protos, t, i);
        BlockCircuitShape(protos, t, i);
        LoadedCircuitsShape(protos, t, i + 1, acc + [c]);
        LoadKeepsEarlier(protos, t, i + 1, acc + [c]);
        var r := LoadFrom(protos, t, i + 1, acc + [c]).circuits;
        assert LoadFrom(protos, t, i, acc).circuits == r;
        assert r[..|acc| + 1][|acc|] == c;
        forall k | |acc| <= k < |r|
          ensures LoadedShape(r[k])
        {
          if k == |acc| {
            assert r[k] == c;
          }
        }
      }
    }
  }

  /** The circuit a well-formed block yields has the loaded shape. */
  lemma BlockCircuitShape(protos: seq<DeviceValue>, t: seq<string>, i: nat)
    requires ProtosOk(protos) && i < |t| && BlockOk(protos, t, i)
    ensures LoadedShape(BlockCircuit(protos, t, i))
  {
    BlockShape(protos, t[i + 1..FindEnds(t, i + 1).value]);
  }

  /** The first loop of `load`: trim each line and keep the ones that are
      neither empty nor comments. */
  method FilterLines(lines: seq<string>) returns (toparse: seq<string>)
    ensures toparse == Preprocess(lines)
  {
    toparse := [];
    var i := 0;
    while i < |lines|
      invariant i <= |lines|
      invariant toparse == Preprocess(lines[..i])
    {
      assert lines[..i + 1][..i] == lines[..i];
      var line := Trim(lines[i]);
      if !(line != [] && line[0] == '*') && |line| > 0 {
        toparse := toparse + [line];
      }
      i := i + 1;
    }
    assert lines[..i] == lines;
  }

  /** The search for the `.ENDS` of a block: the first line from `start`
      on whose first token is `.ENDS`. */
  method FindEndsLine(t: seq<string>, start: nat) returns (found: bool, endIdx: nat)
    ensures found <==> FindEnds(t, start).Some?
    ensures found ==> endIdx == FindEnds(t, start).value
  {
    var j := start;
    while j < |t|
      invariant start <= j || |t| <= start
      invariant forall k :: start <= k < j && k < |t| ==> !IsEndsLine(t[k])
    {
      var arr := Tokens(t[j]);
      if |arr| > 0 && arr[0] == ".ENDS" {
        return true, j;
      }
      j := j + 1;
    }
    return false, 0;
  }

  /** The circuit a closed and parsed block contributes. */
  function BlockCircuit(protos: seq<DeviceValue>, t: seq<string>, k: nat): CircuitValue
    requires ProtosOk(protos) && k < |t| && BlockOk(protos, t, k)
  {
    CopyValue(ParsedCircuit(ParseLines(protos, t[k + 1..FindEnds(t, k + 1).value], NothingParsed).state))
  }

  /** The body of the outer loop for a `.SUBCKT` line: find the `.ENDS`,
      then parse the block and copy it. */
  method LoadBlock(factory: DeviceFactory, t: seq<string>, i: nat) returns (ok: bool, c: CircuitValue)
    requires factory.Valid() && ProtosOk(factory.Prototypes())
    requires i < |t| && IsSubcktLine(t[i])
    ensures ok == BlockOk(factory.Prototypes(), t, i)
    ensures ok ==> c == BlockCircuit(factory.Prototypes(), t, i)
  {
    var found, endIdx := FindEndsLine(t, i + 1);
    if !found {
      return false, Released;
    }
    ok, c := ParseBlock(factory, SubcktName(t[i]), t, i + 1, endIdx);
  }

  /** `svCircuit sub(name)`, `sub.parseSPICESubCkt(...)` and the copy that
      `ret.push_back(sub)` makes. */
  method ParseBlock(factory: DeviceFactory, name: string, t: seq<string>, start: nat, end: nat) returns (ok: bool, c: CircuitValue)
    requires factory.Valid() && ProtosOk(factory.Prototypes())
    requires start <= end <= |t|
    ensures var parsed := ParseLines(factory.Prototypes(), t[start..end], NothingParsed);
      ok == parsed.ok && (ok ==> c == CopyValue(ParsedCircuit(parsed.state)))
  {
    ghost var protos := factory.Prototypes();
    var sub := new Circuit(name);
    assert factory.Prototypes() == protos;
    ok := sub.ParseSubCkt(factory, t, start, end);
    if !ok {
      return false, Released;
    }
    var copy := new Circuit.Copy(sub);
    assert factory.Prototypes() == protos;
    c := copy.Model();
  }

  /** `load(ret, filename)` on the lines of the file: true when every
      subcircuit was closed and parsed; the circuits found are appended to
      `ret` (those pushed before a failure stay). */
  method Load(factory: DeviceFactory, lines: seq<string>, ret0: seq<CircuitValue>) returns (ok: bool, ret: seq<CircuitValue>)
    requires factory.Valid() && ProtosOk(factory.Prototypes())
    ensures LoadResult(ok, ret) == LoadNetlist(factory.Prototypes(), lines, ret0)
  {
    ghost var protos := factory.Prototypes();
    var toparse := FilterLines(lines);
    ret := ret0;
    var i := 0;
    while i < |toparse|
      invariant i <= |toparse|
      invariant LoadFrom(protos, toparse, i, ret) == LoadFrom(protos, toparse, 0, ret0)
    {
      var stop;
      stop, ret := LoadLine(factory, toparse, i, ret);
      if stop {
        return false, ret;
      }
      i := i + 1;
    }
    ok := true;
  }

  /** The body of the outer loop of `load` for line `i`: a `.SUBCKT` line
      either appends its block's circuit or stops the load. */
  method LoadLine(factory: DeviceFactory, t: seq<string>, i: nat, ret0: seq<CircuitValue>) returns (stop: bool, ret: seq<CircuitValue>)
    requires factory.Valid() && ProtosOk(factory.Prototypes()) && i < |t|
    ensures stop ==> LoadFrom(factory.Prototypes(), t, i, ret0) == LoadResult(false, ret)
    ensures !stop ==> LoadFrom(factory.Prototypes(), t, i, ret0) == LoadFrom(factory.Prototypes(), t, i + 1, ret)
  {
    ret := ret0;
    if !IsSubcktLine(t[i]) {
      return false, ret;
    }
    var blockOk, c := LoadBlock(factory, t, i);
    if !blockOk {
      return true, ret;
    }
    ret := ret + [c];
    stop := false;
  }
}
