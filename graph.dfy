/** `buildGraph` of `svCircuit` (and, word for word, of the older
    `svSubckt`): the connectivity graph of a circuit, one vertex per node
    other than ground, and an edge between every two nodes a device is
    attached to.  The boost `adjacency_matrix<undirectedS>` is modelled as its
    vertex count and the set of its matrix cells that are set, so an edge
    appears in both orientations and adding it again changes nothing. */
module Graphs {
  import opened Common
  import opened Devices

  /** `svGroundNode`, the SPICE name of the ground node. */
  const Ground: string := "0"

  datatype UGraph = UGraph(vertexCount: nat, edges: set<(int, int)>)

  // ---------------------------------------------------------------------------
  // The order of `std::set<std::string>`
  // ---------------------------------------------------------------------------

  /** `std::string::operator<`: lexicographic by character code, a proper
      prefix coming first. */
  predicate StrLt(a: string, b: string)
    decreases |a|
  {
    if a == [] then b != []
    else b != [] && (a[0] < b[0] || (a[0] == b[0] && StrLt(a[1..], b[1..])))
  }

  lemma {:induction false} StrLtIrreflexive(a: string)
    ensures !StrLt(a, a)
    decreases |a|
  {
    if a != [] {
      StrLtIrreflexive(a[1..]);
    }
  }

  lemma {:induction false} StrLtTransitive(a: string, b: string, c: string)
    requires StrLt(a, b) && StrLt(b, c)
    ensures StrLt(a, c)
    decreases |a|
  {
    if a != [] && a[0] == b[0] && b[0] == c[0] {
      StrLtTransitive(a[1..], b[1..], c[1..]);
    }
  }

  lemma {:induction false} StrLtTotal(a: string, b: string)
    ensures a == b || StrLt(a, b) || StrLt(b, a)
    decreases |a|
  {
    if a != [] && b != [] && a[0] == b[0] {
      StrLtTotal(a[1..], b[1..]);
      if a[1..] == b[1..] {
        assert a == [a[0]] + a[1..] && b == [b[0]] + b[1..];
      }
    }
  }

  lemma StrLtAsymmetric(a: string, b: string)
    ensures !(StrLt(a, b) && StrLt(b, a))
  {
    if StrLt(a, b) && StrLt(b, a) {
      StrLtTransitive(a, b, a);
      StrLtIrreflexive(a);
    }
  }

  /** Strictly increasing, which is how a `std::set` is iterated. */
  predicate Sorted(v: seq<string>)
  {
    forall i, j :: 0 <= i < j < |v| ==> StrLt(v[i], v[j])
  }

  /** The number of nodes that come before `n`: the index `n` has in the
      vector copied from the set. */
  function Rank(nodes: set<string>, n: string): (r: nat)
    ensures r <= |nodes|
  {
    var below := set m | m in nodes && StrLt(m, n);
    assert below <= nodes;
    SubsetCard(below, nodes);
    |below|
  }

  lemma SubsetCard<T>(a: set<T>, b: set<T>)
    requires a <= b
    ensures |a| <= |b| && (a < b ==> |a| < |b|)
  {
    assert b == a + (b - a);
    if a < b {
      var x :| x in b - a;
      assert {x} <= b - a;
    }
  }

  /** The vertex `buildGraph` gives a node: its index in the sorted vector,
      less one for the ground node in front. */
  function Vertex(nodes: set<string>, n: string): int
  {
    Rank(nodes, n) - 1
  }

  /** What `buildGraph` asserts: ground is the first node of the vector, and
      every node of every device is found in it. */
  predicate GraphReady(nodes: set<string>, lists: seq<seq<string>>)
  {
    nodes == {} ||
    (&& Ground in nodes
     && (forall n :: n in nodes ==> !StrLt(n, Ground))
     && (forall i, j :: 0 <= i < |lists| && 0 <= j < |lists[i]| ==> lists[i][j] in nodes))
  }

  // ---------------------------------------------------------------------------
  // The graph
  // ---------------------------------------------------------------------------

  /** The vertices of a device's non-ground nodes, in node order. */
  function Indexes(nodes: set<string>, dn: seq<string>): (idx: seq<int>)
    ensures |idx| <= |dn|
    decreases |dn|
  {
    if dn == [] then []
    else
      var last := dn[|dn| - 1];
      Indexes(nodes, dn[..|dn| - 1]) + (if last != Ground then [Vertex(nodes, last)] else [])
  }

  /** The edges `add_edge` sets for one device: every ordered pair of
      different positions of its vertex list. */
  function Clique(idx: seq<int>): set<(int, int)>
  {
    set j, k | 0 <= j < |idx| && 0 <= k < |idx| && j != k :: (idx[j], idx[k])
  }

  /** The edges of the devices' node lists, device by device. */
  function Edges(nodes: set<string>, lists: seq<seq<string>>): (e: set<(int, int)>)
    ensures forall j :: 0 <= j < |lists| ==> Clique(Indexes(nodes, lists[j])) <= e
    decreases |lists|
  {
    if lists == [] then {}
    else Edges(nodes, lists[..|lists| - 1]) + Clique(Indexes(nodes, lists[|lists| - 1]))
  }

  /** The graph `buildGraph` returns for a node set and the node lists of
      the devices. */
  function GraphOf(nodes: set<string>, lists: seq<seq<string>>): (g: UGraph)
    ensures GraphReady(nodes, lists) ==> g.vertexCount == |nodes - {Ground}|
    ensures nodes == {} ==> g == UGraph(0, {})
  {
    if nodes == {} then UGraph(0, {}) else UGraph(|nodes| - 1, Edges(nodes, lists))
  }

  /** The node lists of a device sequence. */
  function NodeLists(ds: seq<DeviceValue>): (lists: seq<seq<string>>)
    ensures |lists| == |ds| && forall i :: 0 <= i < |ds| ==> lists[i] == ds[i].nodes
  {
    seq(|ds|, i requires 0 <= i < |ds| => ds[i].nodes)
  }

  // ---------------------------------------------------------------------------
  // Properties
  // ---------------------------------------------------------------------------

  /** In a sorted vector, the index of an element is its rank among the
      elements. */
  lemma SortedRank(v: seq<string>, i: nat)
    requires Sorted(v) && i < |v|
    ensures Rank(Elems(v), v[i]) == i
  {
    var below := set m | m in Elems(v) && StrLt(m, v[i]);
    forall m | m in below
      ensures m in Elems(v[..i])
    {
      var p :| 0 <= p < |v| && v[p] == m;
      if p >= i {
        if p == i {
          StrLtIrreflexive(m);
        } else {
          StrLtAsymmetric(v[i], v[p]);
        }
      }
      assert v[..i][p] == m;
    }
    assert below == Elems(v[..i]);
    SortedDistinctCard(v[..i]);
  }

  lemma {:induction false} SortedDistinctCard(v: seq<string>)
    requires Sorted(v)
    ensures |Elems(v)| == |v|
    decreases |v|
  {
    if v != [] {
      var init := v[..|v| - 1];
      SortedDistinctCard(init);
      assert Elems(v) == Elems(init) + {v[|v| - 1]};
      if v[|v| - 1] in init {
        var p :| 0 <= p < |init| && init[p] == v[|v| - 1];
        StrLtIrreflexive(v[p]);
      }
    }
  }

  /** The vertex numbering: ground has no vertex, the other nodes are
      numbered 0 to |nodes| - 2 in string order, and different nodes get
      different vertices. */
  lemma VertexNumbering(nodes: set<string>, a: string, b: string)
    requires nodes != {} && GraphReady(nodes, [])
    requires a in nodes && b in nodes && a != Ground && b != Ground
    ensures 0 <= Vertex(nodes, a) < |nodes| - 1
    ensures StrLt(a, b) <==> Vertex(nodes, a) < Vertex(nodes, b)
    ensures a == b <==> Vertex(nodes, a) == Vertex(nodes, b)
  {
    RankBounds(nodes, a);
    RankBounds(nodes, b);
    StrLtTotal(a, b);
    if StrLt(a, b) {
      RankMonotone(nodes, a, b);
    } else if StrLt(b, a) {
      RankMonotone(nodes, b, a);
    }
  }

  lemma RankBounds(nodes: set<string>, a: string)
    requires GraphReady(nodes, []) && a in nodes && a != Ground
    ensures 1 <= Rank(nodes, a) < |nodes|
  {
    var below := set m | m in nodes && StrLt(m, a);
    StrLtTotal(a, Ground);
    assert Ground in below;
    StrLtIrreflexive(a);
    assert a !in below;
    SubsetCard(below, nodes);
    SubsetCard({Ground}, below);
  }

  lemma RankMonotone(nodes: set<string>, a: string, b: string)
    requires a in nodes && StrLt(a, b)
    ensures Rank(nodes, a) < Rank(nodes, b)
  {
    var lowA := set m | m in nodes && StrLt(m, a);
    var lowB := set m | m in nodes && StrLt(m, b);
    forall m | m in lowA
      ensures m in lowB
    {
      StrLtTransitive(m, a, b);
    }
    StrLtIrreflexive(a);
    assert a in lowB - lowA;
    SubsetCard(lowA, lowB);
  }

  /** The positions of a device's node list that hold a non-ground node, in
      order. */
  function LivePositions(dn: seq<string>): (pos: seq<nat>)
    ensures forall t :: 0 <= t < |pos| ==> pos[t] < |dn| && dn[pos[t]] != Ground
    decreases |dn|
  {
    if dn == [] then []
    else
      var init := dn[..|dn| - 1];
      assert forall p :: 0 <= p < |init| ==> init[p] == dn[p];
      LivePositions(init) + (if dn[|dn| - 1] != Ground then [|dn| - 1] else [])
  }

  /** The live positions pair up with the entries of the vertex list. */
  lemma {:induction false} LivePositionsPair(nodes: set<string>, dn: seq<string>)
    ensures var pos := LivePositions(dn); var idx := Indexes(nodes, dn);
      |pos| == |idx| && forall t :: 0 <= t < |pos| ==> idx[t] == Vertex(nodes, dn[pos[t]])
    decreases |dn|
  {
    if dn != [] {
      var init := dn[..|dn| - 1];
      LivePositionsPair(nodes, init);
      assert forall p :: 0 <= p < |init| ==> init[p] == dn[p];
    }
  }

  /** The live positions are in increasing order. */
  lemma {:induction false} LivePositionsIncrease(dn: seq<string>)
    ensures forall s, t :: 0 <= s < t < |LivePositions(dn)| ==> LivePositions(dn)[s] < LivePositions(dn)[t]
    decreases |dn|
  {
    if dn != [] {
      var init := dn[..|dn| - 1];
      LivePositionsIncrease(init);
      var prev := LivePositions(init);
      var pos := LivePositions(dn);
      assert pos == prev + (if dn[|dn| - 1] != Ground then [|dn| - 1] else []);
      forall s, t | 0 <= s < t < |pos|
        ensures pos[s] < pos[t]
      {
        if t >= |prev| {
          assert pos[s] == prev[s] < |init| == pos[t];
        } else {
          assert pos[s] == prev[s] && pos[t] == prev[t];
        }
      }
    }
  }

  /** Every position holding a non-ground node is live. */
  lemma {:induction false} LivePositionsCover(dn: seq<string>)
    ensures forall p :: 0 <= p < |dn| && dn[p] != Ground ==> p in LivePositions(dn)
    decreases |dn|
  {
    if dn != [] {
      var init := dn[..|dn| - 1];
      LivePositionsCover(init);
      assert forall p :: 0 <= p < |init| ==> init[p] == dn[p];
    }
  }

  /** An edge joins two vertices exactly when one device has the two
      nodes at two different positions, neither of them ground. */
  lemma EdgesExactly(nodes: set<string>, lists: seq<seq<string>>, u: int, v: int)
    ensures (u, v) in Edges(nodes, lists) <==>
      exists i, j, k :: 0 <= i < |lists| && 0 <= j < |lists[i]| && 0 <= k < |lists[i]| && j != k
        && lists[i][j] != Ground && lists[i][k] != Ground
        && u == Vertex(nodes, lists[i][j]) && v == Vertex(nodes, lists[i][k])
  {
    EdgesByDevice(nodes, lists, u, v);
    if exists i :: 0 <= i < |lists| && (u, v) in Clique(Indexes(nodes, lists[i])) {
      var i :| 0 <= i < |lists| && (u, v) in Clique(Indexes(nodes, lists[i]));
      CliqueExactly(nodes, lists[i], u, v);
    }
    if exists i, j, k :: 0 <= i < |lists| && 0 <= j < |lists[i]| && 0 <= k < |lists[i]| && j != k
        && lists[i][j] != Ground && lists[i][k] != Ground
        && u == Vertex(nodes, lists[i][j]) && v == Vertex(nodes, lists[i][k])
    {
      var i, j, k :| 0 <= i < |lists| && 0 <= j < |lists[i]| && 0 <= k < |lists[i]| && j != k
        && lists[i][j] != Ground && lists[i][k] != Ground
        && u == Vertex(nodes, lists[i][j]) && v == Vertex(nodes, lists[i][k]);
      CliqueExactly(nodes, lists[i], u, v);
    }
  }

  lemma {:induction false} EdgesByDevice(nodes: set<string>, lists: seq<seq<string>>, u: int, v: int)
    ensures (u, v) in Edges(nodes, lists) <==> exists i :: 0 <= i < |lists| && (u, v) in Clique(Indexes(nodes, lists[i]))
    decreases |lists|
  {
    if lists != [] {
      var init := lists[..|lists| - 1];
      EdgesByDevice(nodes, init, u, v);
      assert forall i :: 0 <= i < |init| ==> init[i] == lists[i];
    }
  }

  lemma CliqueExactly(nodes: set<string>, dn: seq<string>, u: int, v: int)
    ensures (u, v) in Clique(Indexes(nodes, dn)) <==>
      exists j, k :: 0 <= j < |dn| && 0 <= k < |dn| && j != k && dn[j] != Ground && dn[k] != Ground
        && u == Vertex(nodes, dn[j]) && v == Vertex(nodes, dn[k])
  {
    if (u, v) in Clique(Indexes(nodes, dn)) {
      CliqueEdgeFromNodes(nodes, dn, u, v);
    }
    if exists j, k :: 0 <= j < |dn| && 0 <= k < |dn| && j != k && dn[j] != Ground && dn[k] != Ground
        && u == Vertex(nodes, dn[j]) && v == Vertex(nodes, dn[k])
    {
      var j, k :| 0 <= j < |dn| && 0 <= k < |dn| && j != k && dn[j] != Ground && dn[k] != Ground
        && u == Vertex(nodes, dn[j]) && v == Vertex(nodes, dn[k]);
      NodesGiveCliqueEdge(nodes, dn, j, k);
    }
  }

  /** An edge of a device's clique comes from two different positions. */
  lemma CliqueEdgeFromNodes(nodes: set<string>, dn: seq<string>, u: int, v: int)
    requires (u, v) in Clique(Indexes(nodes, dn))
    ensures exists j, k :: (0 <= j < |dn| && 0 <= k < |dn| && j != k && dn[j] != Ground && dn[k] != Ground
                            && u == Vertex(nodes, dn[j]) && v == Vertex(nodes, dn[k]))
  {
    var idx := Indexes(nodes, dn);
    var pos := LivePositions(dn);
    LivePositionsPair(nodes, dn);
    LivePositionsIncrease(dn);
    var s, t :| 0 <= s < |idx| && 0 <= t < |idx| && s != t && (u, v) == (idx[s], idx[t]);
    assert pos[s] != pos[t] by {
      if s < t { assert pos[s] < pos[t]; } else { assert pos[t] < pos[s]; }
    }
    assert u == Vertex(nodes, dn[pos[s]]) && v == Vertex(nodes, dn[pos[t]]);
  }

  /** Two different non-ground positions give an edge of the clique. */
  lemma NodesGiveCliqueEdge(nodes: set<string>, dn: seq<string>, j: nat, k: nat)
    requires j < |dn| && k < |dn| && j != k && dn[j] != Ground && dn[k] != Ground
    ensures (Vertex(nodes, dn[j]), Vertex(nodes, dn[k])) in Clique(Indexes(nodes, dn))
  {
    var idx := Indexes(nodes, dn);
    var pos := LivePositions(dn);
    LivePositionsPair(nodes, dn);
    LivePositionsCover(dn);
    assert j in pos && k in pos;
    var s :| 0 <= s < |pos| && pos[s] == j;
    var t :| 0 <= t < |pos| && pos[t] == k;
    assert (idx[s], idx[t]) in Clique(idx);
  }

  /** The graph is undirected: every edge is there in both orientations. */
  lemma EdgesSymmetric(nodes: set<string>, lists: seq<seq<string>>, u: int, v: int)
    requires (u, v) in GraphOf(nodes, lists).edges
    ensures (v, u) in GraphOf(nodes, lists).edges
  {
    EdgesExactly(nodes, lists, u, v);
    EdgesExactly(nodes, lists, v, u);
  }

  /** Every edge joins two vertices of the graph. */
  lemma EdgesWithinVertices(nodes: set<string>, lists: seq<seq<string>>, u: int, v: int)
    requires GraphReady(nodes, lists)
    requires (u, v) in GraphOf(nodes, lists).edges
    ensures 0 <= u < GraphOf(nodes, lists).vertexCount && 0 <= v < GraphOf(nodes, lists).vertexCount
  {
    EdgesExactly(nodes, lists, u, v);
    var i, j, k :| 0 <= i < |lists| && 0 <= j < |lists[i]| && 0 <= k < |lists[i]| && j != k
      && lists[i][j] != Ground && lists[i][k] != Ground
      && u == Vertex(nodes, lists[i][j]) && v == Vertex(nodes, lists[i][k]);
    assert GraphReady(nodes, []);
    VertexNumbering(nodes, lists[i][j], lists[i][k]);
    VertexNumbering(nodes, lists[i][k], lists[i][j]);
  }

  /** A device that lists the same non-ground node twice puts a loop on
      that node's vertex. */
  lemma RepeatedNodeLoops(nodes: set<string>, lists: seq<seq<string>>, i: nat, j: nat, k: nat)
    requires nodes != {}
    requires i < |lists| && j < k < |lists[i]| && lists[i][j] == lists[i][k] != Ground
    ensures var w := Vertex(nodes, lists[i][j]); (w, w) in GraphOf(nodes, lists).edges
  {
    var w := Vertex(nodes, lists[i][j]);
    EdgesExactly(nodes, lists, w, w);
  }

  /** A device attached to ground and at most one other node adds no edge. */
  lemma SingleNodeNoEdge(nodes: set<string>, dn: seq<string>, n: string)
    requires forall j :: 0 <= j < |dn| ==> dn[j] == Ground || dn[j] == n
    ensures forall u, v :: (u, v) in Clique(Indexes(nodes, dn)) ==> u == v == Vertex(nodes, n)
  {
    forall u, v | (u, v) in Clique(Indexes(nodes, dn))
      ensures u == v == Vertex(nodes, n)
    {
      CliqueExactly(nodes, dn, u, v);
    }
  }

  // ---------------------------------------------------------------------------
  // buildGraph
  // ---------------------------------------------------------------------------

  /** The least node of a non-empty set. */
  method Least(s: set<string>) returns (m: string)
    requires s != {}
    ensures m in s && forall x :: x in s && x != m ==> StrLt(m, x)
  {
    m :| m in s;
    var todo := s - {m};
    while todo != {}
      invariant todo <= s && m in s && m !in todo
      invariant forall x :: x in s && x !in todo && x != m ==> StrLt(m, x)
      decreases |todo|
    {
      var y :| y in todo;
      StrLtTotal(y, m);
      if StrLt(y, m) {
        forall x | x in s && x !in todo && x != m
          ensures StrLt(y, x)
        {
          StrLtTransitive(y, m, x);
        }
        m := y;
      }
      todo := todo - {y};
    }
  }

  /** The loop that copies the set into a vector, in the set's order. */
  method SortNodes(nodes: set<string>) returns (v: seq<string>)
    ensures Sorted(v) && Elems(v) == nodes
  {
    v := [];
    var rest := nodes;
    while rest != {}
      invariant Sorted(v) && Elems(v) + rest == nodes
      invariant forall i, x :: 0 <= i < |v| && x in rest ==> StrLt(v[i], x)
      decreases |rest|
    {
      var m := Least(rest);
      v := v + [m];
      rest := rest - {m};
    }
  }

  /** The vertex list of one device: each non-ground node's index in the
      vector, less one. */
  method DeviceIndexes(circuitNodes: seq<string>, dn: seq<string>) returns (idx: seq<int>)
    requires Sorted(circuitNodes)
    requires forall j :: 0 <= j < |dn| ==> dn[j] in circuitNodes
    ensures idx == Indexes(Elems(circuitNodes), dn)
  {
    idx := [];
    for j := 0 to |dn|
      invariant idx == Indexes(Elems(circuitNodes), dn[..j])
    {
      assert dn[..j + 1][..j] == dn[..j];
      if dn[j] != Ground {
        var f := FirstIndex(circuitNodes, dn[j]);
        SortedRank(circuitNodes, f);
        idx := idx + [f as int - 1];
      }
    }
    assert dn[..|dn|] == dn;
  }

  /** The edges between the entries at rows before `j` and every other
      column. */
  function Rows(idx: seq<int>, j: nat): set<(int, int)>
  {
    set a, b | 0 <= a < j && a < |idx| && 0 <= b < |idx| && a != b :: (idx[a], idx[b])
  }

  /** The double `add_edge` loop over one device's vertex list. */
  method AddClique(edges: set<(int, int)>, idx: seq<int>) returns (r: set<(int, int)>)
    ensures r == edges + Clique(idx)
  {
    r := edges;
    for j := 0 to |idx|
      invariant r == edges + Rows(idx, j)
    {
      for k := 0 to |idx|
        invariant r == edges + Rows(idx, j) + set b | 0 <= b < k && b != j :: (idx[j], idx[b])
      {
        if k != j {
          r := r + {(idx[j], idx[k])};
        }
      }
      assert Rows(idx, j + 1) == Rows(idx, j) + set b | 0 <= b < |idx| && b != j :: (idx[j], idx[b]);
    }
    assert Rows(idx, |idx|) == Clique(idx);
  }

  /** `buildGraph`, given the node set and each device's node list. */
  method BuildGraph(nodes: set<string>, lists: seq<seq<string>>) returns (g: UGraph)
    requires GraphReady(nodes, lists)
    ensures g == GraphOf(nodes, lists)
  {
    if nodes == {} {
      return UGraph(0, {});
    }
    var circuitNodes := SortNodes(nodes);
    SortedDistinctCard(circuitNodes);
    var edges := {};
    for i := 0 to |lists|
      invariant edges == Edges(nodes, lists[..i])
    {
      var idx := DeviceIndexes(circuitNodes, lists[i]);
      edges := AddClique(edges, idx);
      assert lists[..i + 1][..i] == lists[..i];
    }
    assert lists[..|lists|] == lists;
    g := UGraph(|circuitNodes| - 1, edges);
  }
}
