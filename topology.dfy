/** The 3D topology view's layout and connection pass
    (src/components/NetworkTopology.js, the effect that regenerates the
    network whenever the layout kind, node count, sink count or connection
    range changes).

    Positions are exact reals. Every Math.random draw is a parameter, cos and
    sin of the sink circle are parameters, and the Euclidean distance is
    compared through its square. Only ids and positions of the rendered
    meshes are kept. */
module Topology {
  import opened Text

  /** The four layout options of the view. */
  datatype Kind = Random | Grid | Column | Triangle

  datatype Point = Point(x: real, y: real, z: real)

  /** A sensor node: its id and where it was placed. */
  datatype Node = Node(id: int, position: Point)

  /** The far end of a connection: a sensor node by its numeric id, or a
      sink by its index (the source labels it `sink-<index>`). */
  datatype Endpoint = NodeEnd(id: int) | SinkEnd(index: nat)

  /** A connection always starts at a sensor node. */
  datatype Connection = Connection(from: int, to: Endpoint)

  /** The three Math.random draws one node's placement consumes, in the
      order the source calls it. Each lies in [0, 1). */
  datatype Draws = Draws(first: real, second: real, third: real)

  /** cos and sin, taking an angle as a fraction of a full turn. */
  datatype Trig = Trig(cosTurn: real -> real, sinTurn: real -> real)

  predicate IsDraw(r: real) {
    0.0 <= r < 1.0
  }

  predicate ValidDraws(d: Draws) {
    IsDraw(d.first) && IsDraw(d.second) && IsDraw(d.third)
  }

  // ---------------------------------------------------------------------
  // Index arithmetic of the layouts
  // ---------------------------------------------------------------------

  /** Math.ceil(Math.sqrt(n)) for a natural number: the least g with g*g >= n. */
  function CeilSqrt(n: nat): (g: nat)
    ensures g * g >= n
    ensures g == 0 || (g - 1) * (g - 1) < n
  {
    CeilSqrtFrom(n, 0)
  }

  function CeilSqrtFrom(n: nat, g: nat): (r: nat)
    requires g <= n
    requires g == 0 || (g - 1) * (g - 1) < n
    ensures r * r >= n
    ensures r == 0 || (r - 1) * (r - 1) < n
    decreases n - g
  {
    if g * g >= n then g
    else
      assert g < n by {
        if g > 0 { assert g <= g * g; }
      }
      CeilSqrtFrom(n, g + 1)
  }

  /** Math.ceil(n / 5): the number of columns in the column layout. */
  function ColumnCount(n: nat): nat {
    (n + 4) / 5
  }

  /** The divisor of the column-sink spacing: `sinkCount - 1 || 1`. */
  function SinkSpacingDivisor(sinkCount: nat): int {
    if sinkCount - 1 == 0 then 1 else sinkCount - 1
  }

  // ---------------------------------------------------------------------
  // Placement
  // ---------------------------------------------------------------------

  /** Where sink `i` of `sinkCount` goes. Every sink sits at height 30. */
  function SinkPosition(kind: Kind, sinkCount: nat, i: nat, trig: Trig): (p: Point)
    requires i < sinkCount
    ensures p.y == 30.0
  {
    match kind
    case Random | Grid =>
      if sinkCount == 1 then Point(0.0, 30.0, 0.0)
      else
        var turn := (i as real) / (sinkCount as real);
        Point(trig.cosTurn(turn) * 400.0, 30.0, trig.sinTurn(turn) * 400.0)
    case Column =>
      Point(0.0, 30.0, -400.0 + (i as real) * (800.0 / (SinkSpacingDivisor(sinkCount) as real)))
    case Triangle =>
      if i == 0 then Point(0.0, 30.0, -400.0)
      else if i == 1 then Point(-400.0, 30.0, 400.0)
      else Point(400.0, 30.0, 400.0)
  }

  /** Offset of cell `index` when the 1600-wide extent is cut into `cells`
      equal cells. */
  function CellOffset(index: nat, cells: nat): real
    requires cells > 0
  {
    (index as real) * (1600.0 / (cells as real))
  }

  /** Where node `i` of `nodeCount` goes, from its three draws. */
  function NodePosition(kind: Kind, nodeCount: nat, i: nat, d: Draws): Point
    requires i < nodeCount
  {
    match kind
    case Random =>
      Point((d.first - 0.5) * 1600.0, d.second * 400.0 + 20.0, (d.third - 0.5) * 1600.0)
    case Grid =>
      var gridSize := CeilSqrt(nodeCount);
      var row := i / gridSize;
      var col := i % gridSize;
      Point(CellOffset(col, gridSize) - 800.0 + (d.first * 50.0 - 25.0),
            d.second * 400.0 + 20.0,
            CellOffset(row, gridSize) - 800.0 + (d.third * 50.0 - 25.0))
    case Column =>
      var columnCount := ColumnCount(nodeCount);
      var column := i / 5;
      var row := i % 5;
      Point(CellOffset(column, columnCount) - 800.0 + (d.first * 50.0 - 25.0),
            (row as real) * 80.0 + 20.0,
            (d.second - 0.5) * 1600.0)
    case Triangle =>
      var area := i % 3;
      if area == 0 then
        Point((d.first - 0.5) * 400.0, d.third * 400.0 + 20.0, (d.second - 0.5) * 400.0 - 400.0)
      else if area == 1 then
        Point((d.first - 0.5) * 400.0 - 400.0, d.third * 400.0 + 20.0, (d.second - 0.5) * 400.0 + 400.0)
      else
        Point((d.first - 0.5) * 400.0 + 400.0, d.third * 400.0 + 20.0, (d.second - 0.5) * 400.0 + 400.0)
  }

  /** The grid layout's row and column both stay below the grid side. */
  lemma GridIndicesInRange(nodeCount: nat, i: nat)
    requires i < nodeCount
    ensures CeilSqrt(nodeCount) >= 1
    ensures i % CeilSqrt(nodeCount) < CeilSqrt(nodeCount)
    ensures i / CeilSqrt(nodeCount) < CeilSqrt(nodeCount)
  {
    var g := CeilSqrt(nodeCount);
    assert g >= 1;
    var q := i / g;
    assert q * g <= i;
    if q >= g {
      MulMonotone(g, q, g);
      assert false;
    }
  }

  /** The column layout's stack row is 0..4, so the depth is one of
      20, 100, 180, 260, 340, and the column index stays below the column
      count. */
  lemma ColumnIndicesInRange(nodeCount: nat, i: nat)
    requires i < nodeCount
    ensures 0 <= i % 5 <= 4
    ensures 20.0 <= ((i % 5) as real) * 80.0 + 20.0 <= 340.0
    ensures i / 5 < ColumnCount(nodeCount)
  {
  }

  /** k equal cells of width 1600/m starting at 0 end before 1600 when k < m. */
  lemma CellOffsetBelow(k: nat, m: nat)
    requires k < m
    ensures 0.0 <= CellOffset(k, m) < 1600.0
  {
    var c := 1600.0 / (m as real);
    assert (m as real) * c == 1600.0;
    assert c > 0.0;
    RealMulMonotone(k as real, (m as real) - 1.0, c);
    assert ((m as real) - 1.0) * c == (m as real) * c - c;
  }

  lemma RealMulMonotone(a: real, b: real, c: real)
    requires 0.0 <= a <= b && c >= 0.0
    ensures 0.0 <= a * c <= b * c
  {
    assert b * c - a * c == (b - a) * c;
  }

  /** Every node lands inside the deployment volume: x and z within 825 of
      the centre (800 plus the 25 of jitter), depth between 20 and 420. */
  lemma NodeInVolume(kind: Kind, nodeCount: nat, i: nat, d: Draws)
    requires i < nodeCount
    requires ValidDraws(d)
    ensures InVolume(NodePosition(kind, nodeCount, i, d))
  {
    match kind
    case Random =>
    case Grid => GridNodeInVolume(nodeCount, i, d);
    case Column => ColumnNodeInVolume(nodeCount, i, d);
    case Triangle =>
  }

  predicate InVolume(p: Point) {
    -825.0 <= p.x < 825.0 && 20.0 <= p.y < 420.0 && -825.0 <= p.z < 825.0
  }

  lemma GridNodeInVolume(nodeCount: nat, i: nat, d: Draws)
    requires i < nodeCount
    requires ValidDraws(d)
    ensures InVolume(NodePosition(Grid, nodeCount, i, d))
  {
    GridIndicesInRange(nodeCount, i);
    var g := CeilSqrt(nodeCount);
    CellOffsetBelow(i % g, g);
    CellOffsetBelow(i / g, g);
  }

  lemma ColumnNodeInVolume(nodeCount: nat, i: nat, d: Draws)
    requires i < nodeCount
    requires ValidDraws(d)
    ensures InVolume(NodePosition(Column, nodeCount, i, d))
  {
    ColumnIndicesInRange(nodeCount, i);
    CellOffsetBelow(i / 5, ColumnCount(nodeCount));
  }

  /** Column sinks are spread from z = -400 to z = 400 and the spacing never
      divides by zero; one sink sits at the line's start. */
  lemma ColumnSinksOnLine(sinkCount: nat, i: nat, trig: Trig)
    requires i < sinkCount
    ensures SinkSpacingDivisor(sinkCount) >= 1
    ensures var p := SinkPosition(Column, sinkCount, i, trig);
      p.x == 0.0 && -400.0 <= p.z <= 400.0
    ensures sinkCount == 1 ==> SinkPosition(Column, sinkCount, i, trig) == Point(0.0, 30.0, -400.0)
  {
    var dv := SinkSpacingDivisor(sinkCount);
    assert 1 <= dv && i <= dv;
    SpacedWithin(i, dv);
  }

  /** i steps of 800/dv, for i up to dv, stay within 0..800. */
  lemma SpacedWithin(i: nat, dv: int)
    requires 1 <= dv && i <= dv
    ensures 0.0 <= (i as real) * (800.0 / (dv as real)) <= 800.0
  {
    var step := 800.0 / (dv as real);
    assert (dv as real) * step == 800.0;
    assert (i as real) * step <= (dv as real) * step;
  }

  /** The triangle layout has three sink sites; every sink from the third
      on shares the third site. */
  lemma TriangleSinksShareThirdSite(sinkCount: nat, i: nat, trig: Trig)
    requires 2 <= i < sinkCount
    ensures SinkPosition(Triangle, sinkCount, i, trig) == Point(400.0, 30.0, 400.0)
  {
  }

  // ---------------------------------------------------------------------
  // Connections: the reference definition
  // ---------------------------------------------------------------------

  function Dist2(p: Point, q: Point): (d: real)
    ensures d >= 0.0
  {
    (p.x - q.x) * (p.x - q.x) + (p.y - q.y) * (p.y - q.y) + (p.z - q.z) * (p.z - q.z)
  }

  /** `distance <= connectionRange`, squared: a negative range reaches nothing. */
  predicate InRange(p: Point, q: Point, range: real) {
    range >= 0.0 && Dist2(p, q) <= range * range
  }

  lemma InRangeSymmetric(p: Point, q: Point, range: real)
    ensures InRange(p, q, range) == InRange(q, p, range)
  {
    assert Dist2(p, q) == Dist2(q, p);
  }

  /** Node ids are the creation indices 0..n-1. */
  predicate DenseIds(nodes: seq<Node>) {
    forall k :: 0 <= k < |nodes| ==> nodes[k].id == k
  }

  /** The connections the pass is meant to produce: a node-to-sink connection
      for every pair within range, and one connection for every unordered pair
      of distinct nodes within range, drawn from the lower id to the higher. */
  predicate Wanted(nodes: seq<Node>, sinks: seq<Point>, range: real, c: Connection) {
    if c.to.SinkEnd? then
      0 <= c.from < |nodes| && c.to.index < |sinks| && InRange(nodes[c.from].position, sinks[c.to.index], range)
    else
      0 <= c.from < c.to.id < |nodes| && InRange(nodes[c.from].position, nodes[c.to.id].position, range)
  }

  /** Connections from node i to sinks 0..s-1, in sink order. */
  function SinkEdges(nodes: seq<Node>, sinks: seq<Point>, range: real, i: nat, s: nat): seq<Connection>
    requires i < |nodes| && s <= |sinks|
  {
    if s == 0 then []
    else
      SinkEdges(nodes, sinks, range, i, s - 1)
      + (if InRange(nodes[i].position, sinks[s - 1], range) then [Connection(i, SinkEnd(s - 1))] else [])
  }

  /** Connections from node i to the nodes among 0..j-1 with a higher id. */
  function PeerEdges(nodes: seq<Node>, range: real, i: nat, j: nat): seq<Connection>
    requires i < |nodes| && j <= |nodes|
  {
    if j == 0 then []
    else
      PeerEdges(nodes, range, i, j - 1)
      + (if i < j - 1 && InRange(nodes[i].position, nodes[j - 1].position, range)
         then [Connection(i, NodeEnd(j - 1))] else [])
  }

  /** Everything the pass adds while visiting node i. */
  function NodeEdges(nodes: seq<Node>, sinks: seq<Point>, range: real, i: nat): seq<Connection>
    requires i < |nodes|
  {
    SinkEdges(nodes, sinks, range, i, |sinks|) + PeerEdges(nodes, range, i, |nodes|)
  }

  /** Everything the pass has added after visiting nodes 0..k-1. */
  function EdgesUpTo(nodes: seq<Node>, sinks: seq<Point>, range: real, k: nat): seq<Connection>
    requires k <= |nodes|
  {
    Concat(EdgesOf(nodes, sinks, range), k)
  }

  /** Node j's connections, for every j: nothing past the last node. */
  function EdgesOf(nodes: seq<Node>, sinks: seq<Point>, range: real): nat -> seq<Connection> {
    (j: nat) => if j < |nodes| then NodeEdges(nodes, sinks, range, j) else []
  }

  /** f(0) + f(1) + ... + f(k - 1). */
  function Concat<T>(f: nat -> seq<T>, k: nat): seq<T> {
    if k == 0 then [] else Concat(f, k - 1) + f(k - 1)
  }

  /** When x can only come from part `owner`, it is in the first k parts
      exactly when that part is among them and holds it. */
  lemma {:induction false} ConcatMembers<T>(f: nat -> seq<T>, k: nat, x: T, owner: int, held: bool)
    requires forall j :: 0 <= j < k ==> (x in f(j) <==> j == owner && held)
    ensures x in Concat(f, k) <==> 0 <= owner < k && held
  {
    if k > 0 {
      ConcatMembers(f, k - 1, x, owner, held);
    }
  }

  /** Visiting node i appends its sink connections, then its peer
      connections, to everything before it. */
  lemma EdgesUpToStep(nodes: seq<Node>, sinks: seq<Point>, range: real, i: nat, before: seq<Connection>, after: seq<Connection>)
    requires i < |nodes| && before == EdgesUpTo(nodes, sinks, range, i)
    requires after == before + SinkEdges(nodes, sinks, range, i, |sinks|) + PeerEdges(nodes, range, i, |nodes|)
    ensures after == EdgesUpTo(nodes, sinks, range, i + 1)
  {
    var f := EdgesOf(nodes, sinks, range);
    var se, pe := SinkEdges(nodes, sinks, range, i, |sinks|), PeerEdges(nodes, range, i, |nodes|);
    assert f(i) == se + pe;
    assert EdgesUpTo(nodes, sinks, range, i + 1) == before + f(i);
    AppendAssociates(before, se, pe);
  }

  lemma AppendAssociates<T>(a: seq<T>, b: seq<T>, c: seq<T>)
    ensures a + b + c == a + (b + c)
  {
  }

  function Expected(nodes: seq<Node>, sinks: seq<Point>, range: real): seq<Connection> {
    EdgesUpTo(nodes, sinks, range, |nodes|)
  }

  lemma {:induction false} SinkEdgesMembers(nodes: seq<Node>, sinks: seq<Point>, range: real, i: nat, s: nat, c: Connection)
    requires i < |nodes| && s <= |sinks|
    ensures c in SinkEdges(nodes, sinks, range, i, s) <==>
      c.from == i && c.to.SinkEnd? && c.to.index < s && InRange(nodes[i].position, sinks[c.to.index], range)
  {
    if s > 0 {
      SinkEdgesMembers(nodes, sinks, range, i, s - 1, c);
    }
  }

  lemma {:induction false} PeerEdgesMembers(nodes: seq<Node>, range: real, i: nat, j: nat, c: Connection)
    requires i < |nodes| && j <= |nodes|
    ensures c in PeerEdges(nodes, range, i, j) <==>
      c.from == i && c.to.NodeEnd? && i < c.to.id < j && InRange(nodes[i].position, nodes[c.to.id].position, range)
  {
    if j > 0 {
      PeerEdgesMembers(nodes, range, i, j - 1, c);
    }
  }

  lemma NodeEdgesMembers(nodes: seq<Node>, sinks: seq<Point>, range: real, i: nat, c: Connection)
    requires i < |nodes|
    ensures c in NodeEdges(nodes, sinks, range, i) <==> c.from == i && Wanted(nodes, sinks, range, c)
  {
    SinkEdgesMembers(nodes, sinks, range, i, |sinks|, c);
    PeerEdgesMembers(nodes, range, i, |nodes|, c);
  }

  lemma EdgesUpToMembers(nodes: seq<Node>, sinks: seq<Point>, range: real, k: nat, c: Connection)
    requires k <= |nodes|
    ensures c in EdgesUpTo(nodes, sinks, range, k) <==> c.from < k && Wanted(nodes, sinks, range, c)
  {
    var f := EdgesOf(nodes, sinks, range);
    forall j | 0 <= j < k
      ensures c in f(j) <==> j == c.from && Wanted(nodes, sinks, range, c)
    {
      NodeEdgesMembers(nodes, sinks, range, j, c);
    }
    ConcatMembers(f, k, c, c.from, Wanted(nodes, sinks, range, c));
  }

  /** Soundness and completeness of the reference definition: a connection is
      produced exactly when it is wanted. */
  lemma ExpectedMembers(nodes: seq<Node>, sinks: seq<Point>, range: real, c: Connection)
    ensures c in Expected(nodes, sinks, range) <==> Wanted(nodes, sinks, range, c)
  {
    EdgesUpToMembers(nodes, sinks, range, |nodes|, c);
  }

  predicate Distinct(e: seq<Connection>) {
    forall p, q :: 0 <= p < q < |e| ==> e[p] != e[q]
  }

  lemma DistinctAppend(a: seq<Connection>, b: seq<Connection>)
    requires Distinct(a) && Distinct(b)
    requires forall x :: x in a ==> x !in b
    ensures Distinct(a + b)
  {
    forall p, q | 0 <= p < q < |a + b|
      ensures (a + b)[p] != (a + b)[q]
    {
      if q < |a| {
      } else if p >= |a| {
        assert (a + b)[p] == b[p - |a|] && (a + b)[q] == b[q - |a|];
      } else {
        assert (a + b)[p] in a && (a + b)[q] in b;
      }
    }
  }

  lemma {:induction false} SinkEdgesDistinct(nodes: seq<Node>, sinks: seq<Point>, range: real, i: nat, s: nat)
    requires i < |nodes| && s <= |sinks|
    ensures Distinct(SinkEdges(nodes, sinks, range, i, s))
  {
    if s > 0 {
      SinkEdgesDistinct(nodes, sinks, range, i, s - 1);
      SinkEdgesMembers(nodes, sinks, range, i, s - 1, Connection(i, SinkEnd(s - 1)));
      DistinctAppend(SinkEdges(nodes, sinks, range, i, s - 1),
        if InRange(nodes[i].position, sinks[s - 1], range) then [Connection(i, SinkEnd(s - 1))] else []);
    }
  }

  lemma {:induction false} PeerEdgesDistinct(nodes: seq<Node>, range: real, i: nat, j: nat)
    requires i < |nodes| && j <= |nodes|
    ensures Distinct(PeerEdges(nodes, range, i, j))
  {
    if j > 0 {
      PeerEdgesDistinct(nodes, range, i, j - 1);
      PeerEdgesMembers(nodes, range, i, j - 1, Connection(i, NodeEnd(j - 1)));
      DistinctAppend(PeerEdges(nodes, range, i, j - 1),
        if i < j - 1 && InRange(nodes[i].position, nodes[j - 1].position, range)
        then [Connection(i, NodeEnd(j - 1))] else []);
    }
  }

  lemma {:induction false} EdgesUpToDistinct(nodes: seq<Node>, sinks: seq<Point>, range: real, k: nat)
    requires k <= |nodes|
    ensures Distinct(EdgesUpTo(nodes, sinks, range, k))
  {
    if k > 0 {
      EdgesUpToDistinct(nodes, sinks, range, k - 1);
      var i := k - 1;
      var se := SinkEdges(nodes, sinks, range, i, |sinks|);
      var pe := PeerEdges(nodes, range, i, |nodes|);
      SinkEdgesDistinct(nodes, sinks, range, i, |sinks|);
      PeerEdgesDistinct(nodes, range, i, |nodes|);
      forall x | x in se ensures x !in pe {
        SinkEdgesMembers(nodes, sinks, range, i, |sinks|, x);
        PeerEdgesMembers(nodes, range, i, |nodes|, x);
      }
      DistinctAppend(se, pe);
      forall x | x in EdgesUpTo(nodes, sinks, range, i) ensures x !in se + pe {
        EdgesUpToMembers(nodes, sinks, range, i, x);
        NodeEdgesMembers(nodes, sinks, range, i, x);
      }
      DistinctAppend(EdgesUpTo(nodes, sinks, range, i), se + pe);
    }
  }

  /** Connection c joins nodes a and b, in either direction. */
  predicate Joins(c: Connection, a: int, b: int) {
    (c.from == a && c.to == NodeEnd(b)) || (c.from == b && c.to == NodeEnd(a))
  }

  /** Every connection joins two entities within range, never a node to
      itself, and names existing nodes and sinks. */
  lemma ExpectedSound(nodes: seq<Node>, sinks: seq<Point>, range: real, p: nat)
    requires p < |Expected(nodes, sinks, range)|
    ensures var c := Expected(nodes, sinks, range)[p];
      0 <= c.from < |nodes| &&
      match c.to
      case SinkEnd(s) => s < |sinks| && InRange(nodes[c.from].position, sinks[s], range)
      case NodeEnd(b) => 0 <= b < |nodes| && b != c.from && InRange(nodes[c.from].position, nodes[b].position, range)
  {
    ExpectedMembers(nodes, sinks, range, Expected(nodes, sinks, range)[p]);
  }

  /** No unordered pair of nodes is joined twice. */
  lemma ExpectedNoDuplicatePair(nodes: seq<Node>, sinks: seq<Point>, range: real, p: nat, q: nat, a: int, b: int)
    requires p < q < |Expected(nodes, sinks, range)|
    requires Joins(Expected(nodes, sinks, range)[p], a, b)
    ensures !Joins(Expected(nodes, sinks, range)[q], a, b)
  {
    var e := Expected(nodes, sinks, range);
    EdgesUpToDistinct(nodes, sinks, range, |nodes|);
    ExpectedMembers(nodes, sinks, range, e[p]);
    ExpectedMembers(nodes, sinks, range, e[q]);
  }

  /** Every pair of distinct nodes within range is joined by exactly one
      connection. */
  lemma ExpectedNodePairComplete(nodes: seq<Node>, sinks: seq<Point>, range: real, a: nat, b: nat)
    requires a < |nodes| && b < |nodes| && a != b
    requires InRange(nodes[a].position, nodes[b].position, range)
    ensures exists p :: 0 <= p < |Expected(nodes, sinks, range)| && Joins(Expected(nodes, sinks, range)[p], a, b)
    ensures forall p, q ::
      (0 <= p < |Expected(nodes, sinks, range)| && 0 <= q < |Expected(nodes, sinks, range)| &&
       Joins(Expected(nodes, sinks, range)[p], a, b) && Joins(Expected(nodes, sinks, range)[q], a, b)) ==> p == q
  {
    var e := Expected(nodes, sinks, range);
    var lo, hi := if a < b then a else b, if a < b then b else a;
    InRangeSymmetric(nodes[a].position, nodes[b].position, range);
    var c := Connection(lo, NodeEnd(hi));
    ExpectedMembers(nodes, sinks, range, c);
    var p :| 0 <= p < |e| && e[p] == c;
    assert Joins(e[p], a, b);
    forall p, q | 0 <= p < |e| && 0 <= q < |e| && Joins(e[p], a, b) && Joins(e[q], a, b)
      ensures p == q
    {
      if p < q {
        ExpectedNoDuplicatePair(nodes, sinks, range, p, q, a, b);
      } else if q < p {
        ExpectedNoDuplicatePair(nodes, sinks, range, q, p, a, b);
      }
    }
  }

  /** Every node-sink pair within range gets exactly one connection, from
      the node to `sink-<index>`. */
  lemma ExpectedSinkPairComplete(nodes: seq<Node>, sinks: seq<Point>, range: real, a: nat, s: nat)
    requires a < |nodes| && s < |sinks|
    requires InRange(nodes[a].position, sinks[s], range)
    ensures Connection(a, SinkEnd(s)) in Expected(nodes, sinks, range)
    ensures forall p, q ::
      (0 <= p < |Expected(nodes, sinks, range)| && 0 <= q < |Expected(nodes, sinks, range)| &&
       Expected(nodes, sinks, range)[p] == Connection(a, SinkEnd(s)) &&
       Expected(nodes, sinks, range)[q] == Connection(a, SinkEnd(s))) ==> p == q
  {
    ExpectedMembers(nodes, sinks, range, Connection(a, SinkEnd(s)));
    EdgesUpToDistinct(nodes, sinks, range, |nodes|);
  }

  // ---------------------------------------------------------------------
  // Connectivity summary
  // ---------------------------------------------------------------------

  /** The ids of one connection's numeric endpoints: the source counts an
      endpoint only when its id is a number, so a sink end adds nothing. */
  function NumericEnds(c: Connection): set<int> {
    if c.to.NodeEnd? then {c.from, c.to.id} else {c.from}
  }

  /** The `connectedNodes` set after scanning the connections in order. */
  function NumericIds(e: seq<Connection>): set<int> {
    if e == [] then {} else NumericIds(e[..|e| - 1]) + NumericEnds(e[|e| - 1])
  }

  /** round(count / total * 100); dividing by a zero total gives NaN in the
      source, modelled as None. */
  function Percent(count: nat, total: nat): Option<int> {
    if total == 0 then None else Some(Round((count as real) / (total as real) * 100.0))
  }

  lemma {:induction false} NumericIdsMembers(e: seq<Connection>, x: int)
    ensures x in NumericIds(e) <==> exists k :: 0 <= k < |e| && x in NumericEnds(e[k])
  {
    if e != [] {
      var init := e[..|e| - 1];
      NumericIdsMembers(init, x);
      if x in NumericIds(e) {
        if x !in NumericEnds(e[|e| - 1]) {
          var k :| 0 <= k < |init| && x in NumericEnds(init[k]);
          assert e[k] == init[k];
        }
      } else {
        forall k | 0 <= k < |e| ensures x !in NumericEnds(e[k]) {
          if k < |init| { assert e[k] == init[k]; }
        }
      }
    }
  }

  /** Node x has something within range: a sink or another node. */
  predicate HasPartner(nodes: seq<Node>, sinks: seq<Point>, range: real, x: nat)
    requires x < |nodes|
  {
    (exists s :: 0 <= s < |sinks| && InRange(nodes[x].position, sinks[s], range)) ||
    (exists b :: 0 <= b < |nodes| && b != x && InRange(nodes[x].position, nodes[b].position, range))
  }

  /** A node counts as connected exactly when some sink or other node is
      within range of it. */
  lemma ConnectedIff(nodes: seq<Node>, sinks: seq<Point>, range: real, x: int)
    ensures x in NumericIds(Expected(nodes, sinks, range)) <==>
      0 <= x < |nodes| && HasPartner(nodes, sinks, range, x)
  {
    var e := Expected(nodes, sinks, range);
    NumericIdsMembers(e, x);
    if x in NumericIds(e) {
      var k :| 0 <= k < |e| && x in NumericEnds(e[k]);
      var c := e[k];
      ExpectedMembers(nodes, sinks, range, c);
      if c.to.SinkEnd? {
        assert x == c.from;
      } else if x == c.from {
        assert c.to.id != x;
      } else {
        assert x == c.to.id;
        InRangeSymmetric(nodes[c.from].position, nodes[x].position, range);
        assert c.from != x;
      }
    }
    if 0 <= x < |nodes| && HasPartner(nodes, sinks, range, x) {
      var c: Connection;
      if s :| 0 <= s < |sinks| && InRange(nodes[x].position, sinks[s], range) {
        c := Connection(x, SinkEnd(s));
      } else {
        var b :| 0 <= b < |nodes| && b != x && InRange(nodes[x].position, nodes[b].position, range);
        InRangeSymmetric(nodes[x].position, nodes[b].position, range);
        c := if x < b then Connection(x, NodeEnd(b)) else Connection(b, NodeEnd(x));
      }
      ExpectedMembers(nodes, sinks, range, c);
      var k :| 0 <= k < |e| && e[k] == c;
      assert x in NumericEnds(e[k]);
    }
  }

  /** The ids 0..n-1. */
  function Ids(n: nat): (r: set<int>)
    ensures forall x :: x in r <==> 0 <= x < n
  {
    if n == 0 then {} else Ids(n - 1) + {n - 1}
  }

  lemma {:induction false} IdsSize(n: nat)
    ensures |Ids(n)| == n
  {
    if n > 0 {
      IdsSize(n - 1);
    }
  }

  /** Only node ids are counted, so at most nodeCount nodes are connected. */
  lemma ConnectedAtMostNodeCount(nodes: seq<Node>, sinks: seq<Point>, range: real)
    ensures NumericIds(Expected(nodes, sinks, range)) <= Ids(|nodes|)
    ensures |NumericIds(Expected(nodes, sinks, range))| <= |nodes|
  {
    var ids := NumericIds(Expected(nodes, sinks, range));
    forall x | x in ids ensures x in Ids(|nodes|) {
      ConnectedIff(nodes, sinks, range, x);
    }
    IdsSize(|nodes|);
    SubsetSize(ids, Ids(|nodes|));
  }

  lemma SubsetSize(a: set<int>, b: set<int>)
    requires a <= b
    ensures |a| <= |b|
  {
    assert b == a + (b - a);
  }

  /** The percentage lies in [0, 100]; no connected node gives 0 and every
      node connected gives 100. */
  lemma PercentBounds(count: nat, total: nat)
    requires count <= total
    ensures total == 0 <==> Percent(count, total).None?
    ensures total > 0 ==> 0 <= Percent(count, total).value <= 100
    ensures total > 0 && count == 0 ==> Percent(count, total) == Some(0)
    ensures total > 0 && count == total ==> Percent(count, total) == Some(100)
  {
    if total > 0 {
      var ratio := (count as real) / (total as real);
      assert 0.0 <= ratio <= 1.0;
      if count == total {
        assert ratio == 1.0;
      }
    }
  }

  /** When every node has something in range, connectivity is 100%. */
  lemma FullyConnected(nodes: seq<Node>, sinks: seq<Point>, range: real)
    requires |nodes| > 0
    requires forall x :: 0 <= x < |nodes| ==> HasPartner(nodes, sinks, range, x)
    ensures Percent(|NumericIds(Expected(nodes, sinks, range))|, |nodes|) == Some(100)
  {
    var ids := NumericIds(Expected(nodes, sinks, range));
    forall x ensures x in ids <==> x in Ids(|nodes|) {
      ConnectedIff(nodes, sinks, range, x);
    }
    assert ids == Ids(|nodes|);
    IdsSize(|nodes|);
    PercentBounds(|nodes|, |nodes|);
  }

  /** Without any connection the percentage is 0. */
  lemma NoConnectionsNoConnectivity(nodes: seq<Node>, sinks: seq<Point>, range: real)
    requires |nodes| > 0
    requires Expected(nodes, sinks, range) == []
    ensures Percent(|NumericIds(Expected(nodes, sinks, range))|, |nodes|) == Some(0)
  {
    PercentBounds(0, |nodes|);
  }

  // ---------------------------------------------------------------------
  // The builder: the refs the effect clears and refills
  // ---------------------------------------------------------------------

  /** The dedup scan's answer while node i is being visited: a connection
      between i and j already exists exactly when j was visited earlier and
      is within range. */
  lemma {:induction false} ScanFindsEarlierPairs(nodes: seq<Node>, sinks: seq<Point>, range: real, i: nat, j: nat)
    requires i < |nodes| && j < |nodes| && i != j
    ensures var conns := EdgesUpTo(nodes, sinks, range, i) + SinkEdges(nodes, sinks, range, i, |sinks|)
                         + PeerEdges(nodes, range, i, j);
      (Connection(i, NodeEnd(j)) in conns || Connection(j, NodeEnd(i)) in conns) <==>
      (j < i && InRange(nodes[i].position, nodes[j].position, range))
  {
    var forward := Connection(i, NodeEnd(j));
    var backward := Connection(j, NodeEnd(i));
    EdgesUpToMembers(nodes, sinks, range, i, forward);
    EdgesUpToMembers(nodes, sinks, range, i, backward);
    SinkEdgesMembers(nodes, sinks, range, i, |sinks|, forward);
    SinkEdgesMembers(nodes, sinks, range, i, |sinks|, backward);
    PeerEdgesMembers(nodes, range, i, j, forward);
    PeerEdgesMembers(nodes, range, i, j, backward);
    InRangeSymmetric(nodes[i].position, nodes[j].position, range);
  }

  class Builder {
    var sinks: seq<Point>
    var nodes: seq<Node>
    var connections: seq<Connection>
    /** The connectivity shown on the status line. */
    var connectivity: Option<int>

    constructor ()
      ensures sinks == [] && nodes == [] && connections == [] && connectivity == None
    {
      sinks, nodes, connections, connectivity := [], [], [], None;
    }

    /** Regenerate the whole network for new inputs: clear the three lists,
        place the sinks and nodes, connect them and summarise. */
    method Generate(kind: Kind, nodeCount: nat, sinkCount: nat, range: real, trig: Trig, draws: seq<Draws>)
      requires |draws| == nodeCount
      modifies this
      ensures |sinks| == sinkCount
      ensures forall i :: 0 <= i < sinkCount ==> sinks[i] == SinkPosition(kind, sinkCount, i, trig)
      ensures |nodes| == nodeCount
      ensures forall i :: 0 <= i < nodeCount ==> nodes[i] == Node(i, NodePosition(kind, nodeCount, i, draws[i]))
      ensures connections == Expected(nodes, sinks, range)
      ensures connectivity == Percent(|NumericIds(connections)|, nodeCount)
    {
      sinks, nodes, connections := [], [], [];
      PlaceSinks(kind, sinkCount, trig);
      PlaceNodes(kind, nodeCount, draws);
      Connect(range);
      var connected := ConnectedNodes();
      connectivity := Percent(|connected|, nodeCount);
    }

    method PlaceSinks(kind: Kind, sinkCount: nat, trig: Trig)
      requires sinks == []
      modifies this`sinks
      ensures |sinks| == sinkCount
      ensures forall i :: 0 <= i < sinkCount ==> sinks[i] == SinkPosition(kind, sinkCount, i, trig)
    {
      var i := 0;
      while i < sinkCount
        invariant 0 <= i <= sinkCount
        invariant |sinks| == i
        invariant forall k :: 0 <= k < i ==> sinks[k] == SinkPosition(kind, sinkCount, k, trig)
      {
        sinks := sinks + [SinkPosition(kind, sinkCount, i, trig)];
        i := i + 1;
      }
    }

    method PlaceNodes(kind: Kind, nodeCount: nat, draws: seq<Draws>)
      requires nodes == [] && |draws| == nodeCount
      modifies this`nodes
      ensures |nodes| == nodeCount && DenseIds(nodes)
      ensures forall i :: 0 <= i < nodeCount ==> nodes[i] == Node(i, NodePosition(kind, nodeCount, i, draws[i]))
    {
      var i := 0;
      while i < nodeCount
        invariant 0 <= i <= nodeCount
        invariant |nodes| == i
        invariant forall k :: 0 <= k < i ==> nodes[k] == Node(k, NodePosition(kind, nodeCount, k, draws[k]))
      {
        nodes := nodes + [Node(i, NodePosition(kind, nodeCount, i, draws[i]))];
        i := i + 1;
      }
    }

    /** The `some` scan: is there already a connection between a and b, in
        either direction? */
    method PairExists(a: int, b: int) returns (found: bool)
      ensures found == (Connection(a, NodeEnd(b)) in connections || Connection(b, NodeEnd(a)) in connections)
    {
      found := false;
      var k := 0;
      while k < |connections|
        invariant 0 <= k <= |connections|
        invariant found == (Connection(a, NodeEnd(b)) in connections[..k] || Connection(b, NodeEnd(a)) in connections[..k])
      {
        var c := connections[k];
        if (c.from == a && c.to == NodeEnd(b)) || (c.from == b && c.to == NodeEnd(a)) {
          found := true;
        }
        assert connections[..k + 1] == connections[..k] + [c];
        k := k + 1;
      }
      assert connections[..k] == connections;
    }

    /** The nested connection pass: for each node, every sink in range, then
        every other node in range whose pair is not yet connected. */
    method Connect(range: real)
      requires connections == [] && DenseIds(nodes)
      modifies this`connections
      ensures connections == Expected(nodes, sinks, range)
    {
      var i := 0;
      while i < |nodes|
        invariant 0 <= i <= |nodes|
        invariant connections == EdgesUpTo(nodes, sinks, range, i)
      {
        Visit(i, range);
        i := i + 1;
      }
    }

    /** The outer loop's body for node i: its sinks, then its peers. */
    method Visit(i: nat, range: real)
      requires i < |nodes| && DenseIds(nodes)
      requires connections == EdgesUpTo(nodes, sinks, range, i)
      modifies this`connections
      ensures connections == EdgesUpTo(nodes, sinks, range, i + 1)
    {
      ghost var before := connections;
      ConnectToSinks(i, range);
      ConnectToPeers(i, range);
      EdgesUpToStep(nodes, sinks, range, i, before, connections);
    }

    /** Node i's connections to the sinks within range, in sink order. */
    method ConnectToSinks(i: nat, range: real)
      requires i < |nodes| && DenseIds(nodes)
      modifies this`connections
      ensures connections == old(connections) + SinkEdges(nodes, sinks, range, i, |sinks|)
    {
      ghost var start := connections;
      var node := nodes[i];
      var s := 0;
      while s < |sinks|
        invariant 0 <= s <= |sinks|
        invariant connections == start + SinkEdges(nodes, sinks, range, i, s)
      {
        ghost var edges := SinkEdges(nodes, sinks, range, i, s);
        if InRange(node.position, sinks[s], range) {
          connections := connections + [Connection(node.id, SinkEnd(s))];
          assert SinkEdges(nodes, sinks, range, i, s + 1) == edges + [Connection(i, SinkEnd(s))];
          assert connections == start + (edges + [Connection(i, SinkEnd(s))]);
        } else {
          assert SinkEdges(nodes, sinks, range, i, s + 1) == edges;
        }
        s := s + 1;
      }
    }

    /** Node i's connections to the other nodes within range, skipping any
        pair the scan finds already connected. */
    method ConnectToPeers(i: nat, range: real)
      requires i < |nodes| && DenseIds(nodes)
      requires connections == EdgesUpTo(nodes, sinks, range, i) + SinkEdges(nodes, sinks, range, i, |sinks|)
      modifies this`connections
      ensures connections == old(connections) + PeerEdges(nodes, range, i, |nodes|)
    {
      ghost var start := connections;
      var node := nodes[i];
      var j := 0;
      while j < |nodes|
        invariant 0 <= j <= |nodes|
        invariant connections == start + PeerEdges(nodes, range, i, j)
      {
        var other := nodes[j];
        var add := ShouldConnect(i, j, range);
        ghost var edges := PeerEdges(nodes, range, i, j);
        if add {
          connections := connections + [Connection(node.id, NodeEnd(other.id))];
          assert connections == start + (edges + [Connection(i, NodeEnd(j))]);
        }
        j := j + 1;
      }
    }

    /** One step of the inner loop: node j is connected to node i when it is
        another node, within range, and the scan finds no connection between
        the two yet. That is the case exactly when j comes after i. */
    method ShouldConnect(i: nat, j: nat, range: real) returns (add: bool)
      requires i < |nodes| && j < |nodes| && DenseIds(nodes)
      requires connections == EdgesUpTo(nodes, sinks, range, i) + SinkEdges(nodes, sinks, range, i, |sinks|)
                              + PeerEdges(nodes, range, i, j)
      ensures add == (i < j && InRange(nodes[i].position, nodes[j].position, range))
    {
      var node, other := nodes[i], nodes[j];
      add := false;
      if node.id != other.id && InRange(node.position, other.position, range) {
        var already := PairExists(node.id, other.id);
        ScanFindsEarlierPairs(nodes, sinks, range, i, j);
        add := !already;
      }
    }

    /** The `connectedNodes` set: numeric endpoints of every connection. */
    method ConnectedNodes() returns (connected: set<int>)
      ensures connected == NumericIds(connections)
    {
      connected := {};
      var k := 0;
      while k < |connections|
        invariant 0 <= k <= |connections|
        invariant connected == NumericIds(connections[..k])
      {
        var c := connections[k];
        connected := connected + {c.from};
        if c.to.NodeEnd? {
          connected := connected + {c.to.id};
        }
        assert connections[..k + 1][..k] == connections[..k];
        k := k + 1;
      }
      assert connections[..k] == connections;
    }
  }
}
