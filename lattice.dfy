/**
 * The hex-lattice geometry of the stencil generator: hex centres on a
 * pointy-top offset grid, their six sides as canonical (rounded, ordered)
 * edges collected without duplicates, the vertex adjacency built from those
 * edges, and the two kinds of slot segments: dashes along edges whose
 * midpoint lies in the working rectangle, and arms from every vertex in the
 * working rectangle towards each of its neighbours.
 */
module Lattice {
  import opened Results
  import opened Numerics
  import opened Collections

  /** The stencil's settings; DefaultConfig holds the documented defaults. */
  datatype Config = Config(
    width: real,
    height: real,
    thickness: real,
    hexFlatToFlat: real,
    border: real,
    slotWidth: real,
    edgeGapFromVertex: real,
    vertexArmLength: real,
    precision: int)

  const Inch: real := 25.4

  const DefaultConfig := Config(170.0, 170.0, 1.6, Inch, 6.0, 0.75, 2.2, 2.4, 3)

  datatype Point = Point(x: real, y: real)

  /** An edge between two rounded points, the smaller one first. */
  datatype Edge = Edge(p: Point, q: Point)

  /** A slot: centre, length and direction in degrees. */
  datatype Segment = Segment(cx: real, cy: real, length: real, angle: real)

  /** The plate shrunk by the border on every side. */
  datatype Rect = Rect(minX: real, maxX: real, minY: real, maxY: real)

  /** The offset grid: first centre, spacing, and the number of columns and rows. */
  datatype Layout = Layout(startX: real, startY: real, dx: real, dy: real, cols: int, rows: int)

  datatype GridError = ZeroDivision

  /** Python's tuple comparison (x1, y1) <= (x2, y2). */
  predicate PointLe(a: Point, b: Point) {
    a.x < b.x || (a.x == b.x && a.y <= b.y)
  }

  /** Both coordinates rounded to precision places: a point that rounding leaves where it is. */
  function RoundPoint(p: Point, precision: int, ops: Ops): (r: Point)
    ensures RoundStable(ops) ==> ops.round(r.x, precision) == r.x && ops.round(r.y, precision) == r.y
  {
    Point(ops.round(p.x, precision), ops.round(p.y, precision))
  }

  /** Both endpoints rounded, the smaller first: the edge is the same whichever end is given first. */
  function CanonicalEdge(p1: Point, p2: Point, precision: int, ops: Ops): (e: Edge)
    ensures PointLe(e.p, e.q)
    ensures multiset{e.p, e.q} == multiset{RoundPoint(p1, precision, ops), RoundPoint(p2, precision, ops)}
  {
    var a := RoundPoint(p1, precision, ops);
    var b := RoundPoint(p2, precision, ops);
    if PointLe(a, b) then Edge(a, b) else Edge(b, a)
  }

  /**
   * Two sides give the same canonical edge exactly when their endpoints round
   * to the same two points, in either order: this is what merges the side
   * that two neighbouring hexes share.
   */
  lemma CanonicalEdgeUnordered(p1: Point, p2: Point, q1: Point, q2: Point, precision: int, ops: Ops)
    ensures (CanonicalEdge(p1, p2, precision, ops) == CanonicalEdge(q1, q2, precision, ops))
        <==> (multiset{RoundPoint(p1, precision, ops), RoundPoint(p2, precision, ops)}
              == multiset{RoundPoint(q1, precision, ops), RoundPoint(q2, precision, ops)})
  {
    var e, f := CanonicalEdge(p1, p2, precision, ops), CanonicalEdge(q1, q2, precision, ops);
    if multiset{e.p, e.q} == multiset{f.p, f.q} {
      SortedPairUnique(e.p, e.q, f.p, f.q);
    }
  }

  /** Symmetry: the order in which a side's corners are given does not matter. */
  lemma CanonicalEdgeSymmetric(p1: Point, p2: Point, precision: int, ops: Ops)
    ensures CanonicalEdge(p1, p2, precision, ops) == CanonicalEdge(p2, p1, precision, ops)
  {
    CanonicalEdgeUnordered(p1, p2, p2, p1, precision, ops);
  }

  /** A canonical edge is its own canonical form: its points are already rounded and in order. */
  lemma CanonicalEdgeStable(p1: Point, p2: Point, precision: int, ops: Ops)
    requires RoundStable(ops)
    ensures var e := CanonicalEdge(p1, p2, precision, ops);
      CanonicalEdge(e.p, e.q, precision, ops) == e
  {
    var a, b := RoundPoint(p1, precision, ops), RoundPoint(p2, precision, ops);
    assert RoundPoint(a, precision, ops) == a && RoundPoint(b, precision, ops) == b;
  }

  /** A pair of points has one ordering under PointLe, which is why the canonical edge is unique. */
  lemma SortedPairUnique(a: Point, b: Point, c: Point, d: Point)
    requires PointLe(a, b) && PointLe(c, d) && multiset{a, b} == multiset{c, d}
    ensures a == c && b == d
  {
    assert a in multiset{c, d} && b in multiset{c, d};
    assert c in multiset{a, b} && d in multiset{a, b};
  }

  /** The working rectangle: the plate, centred on the origin, less the border. */
  function WorkingRect(config: Config): Rect {
    Rect(-config.width / 2.0 + config.border, config.width / 2.0 - config.border,
         -config.height / 2.0 + config.border, config.height / 2.0 - config.border)
  }

  predicate Inside(r: Rect, x: real, y: real) {
    r.minX <= x <= r.maxX && r.minY <= y <= r.maxY
  }

  /** Hex side length from the flat-to-flat distance. */
  function Side(config: Config, ops: Ops): real
    requires ops.sqrt(3.0) != 0.0
  {
    config.hexFlatToFlat / ops.sqrt(3.0)
  }

  /** Enough columns and rows to overflow the working rectangle by a hex or more on every side. */
  function GridLayout(config: Config, ops: Ops): (l: Layout)
    requires ops.sqrt(3.0) != 0.0 && config.hexFlatToFlat != 0.0
    ensures l.dy == 1.5 * Side(config, ops) && l.dy != 0.0
  {
    var side := Side(config, ops);
    var dx := config.hexFlatToFlat;
    var dy := 1.5 * side;
    var rect := WorkingRect(config);
    Layout(rect.minX - dx, rect.minY - dy, dx, dy,
           Ceil((config.width - 2.0 * config.border) / dx) + 3,
           Ceil((config.height - 2.0 * config.border) / dy) + 3)
  }

  /** n = ceil(extent / d) + 3 steps of d from lo - d reach at least one step past lo + extent. */
  lemma CoverSteps(lo: real, extent: real, d: real, n: int)
    requires d > 0.0 && n == Ceil(extent / d) + 3
    ensures (lo - d) + (n - 1) as real * d >= lo + extent + d
  {
    var c := Ceil(extent / d) as real;
    assert c >= extent / d;
    assert c * d >= (extent / d) * d;
    assert (extent / d) * d == extent;
    assert (n - 1) as real * d == c * d + 2.0 * d;
  }

  /**
   * The grid covers the working rectangle with a hex to spare: the first
   * column is one column spacing left of it and the last at least one right
   * of it; in every column the first centre is at least half a row below it
   * and the last at least one row above it.
   */
  lemma GridOverflows(config: Config, ops: Ops)
    requires SqrtSound(ops.sqrt) && config.hexFlatToFlat > 0.0
    ensures ops.sqrt(3.0) != 0.0
    ensures var l := GridLayout(config, ops); var r := WorkingRect(config);
      && l.dx > 0.0 && l.dy > 0.0
      && CenterAt(l, 0, 0).x == r.minX - l.dx
      && CenterAt(l, l.cols - 1, 0).x >= r.maxX + l.dx
      && (forall col :: CenterAt(l, col, 0).y <= r.minY - 0.5 * l.dy)
      && (forall col, row :: row == l.rows - 1 ==> CenterAt(l, col, row).y >= r.maxY + l.dy)
  {
    var root := ops.sqrt(3.0);
    assert root >= 0.0 && root * root == 3.0;
    assert root > 0.0;
    var l, r := GridLayout(config, ops), WorkingRect(config);
    assert l.dy == 1.5 * (config.hexFlatToFlat / root);
    assert config.hexFlatToFlat / root > 0.0;
    CoverSteps(r.minX, config.width - 2.0 * config.border, l.dx, l.cols);
    CoverSteps(r.minY, config.height - 2.0 * config.border, l.dy, l.rows);
  }

  /** The centre in column col, row row; odd columns sit half a row higher. */
  function CenterAt(l: Layout, col: int, row: int): Point {
    var yOffset := if col % 2 == 1 then 0.5 * l.dy else 0.0;
    Point(l.startX + col as real * l.dx, l.startY + row as real * l.dy + yOffset)
  }

  /** The centres, column by column: cols * rows of them, or none when either count is not positive. */
  ghost predicate CentersOf(l: Layout, centers: seq<Point>) {
    && |centers| == (if l.cols > 0 && l.rows > 0 then l.cols * l.rows else 0)
    && forall k :: 0 <= k < |centers| ==> l.rows > 0 && centers[k] == CenterAt(l, k / l.rows, k % l.rows)
  }

  /** The centre loop: one column after another, each column's rows in order. */
  method HexCenters(l: Layout) returns (centers: seq<Point>)
    ensures CentersOf(l, centers)
  {
    var rows := if l.rows > 0 then l.rows else 0;
    var cols := if l.cols > 0 then l.cols else 0;
    centers := [];
    var col := 0;
    while col < l.cols
      invariant 0 <= col <= cols
      invariant |centers| == col * rows
      invariant forall k :: 0 <= k < |centers| ==> l.rows > 0 && centers[k] == CenterAt(l, k / l.rows, k % l.rows)
    {
      var row := 0;
      while row < l.rows
        invariant 0 <= row <= rows
        invariant |centers| == col * rows + row
        invariant forall k :: 0 <= k < |centers| ==> l.rows > 0 && centers[k] == CenterAt(l, k / l.rows, k % l.rows)
      {
        DivModUnique(col * l.rows + row, l.rows, col, row);
        centers := centers + [CenterAt(l, col, row)];
        row := row + 1;
      }
      assert (col + 1) * rows == col * rows + rows;
      col := col + 1;
    }
    assert l.rows <= 0 ==> col * rows == 0;
  }

  /** Corner i of the hex around center, at 30 + 60 i degrees. */
  function Corner(center: Point, side: real, i: int, ops: Ops): Point {
    var angle := ops.radians(30.0 + i as real * 60.0);
    Point(center.x + side * ops.cos(angle), center.y + side * ops.sin(angle))
  }

  /** The corner loop of one hex. */
  method HexCorners(center: Point, side: real, ops: Ops) returns (corners: seq<Point>)
    ensures |corners| == 6
    ensures forall i :: 0 <= i < 6 ==> corners[i] == Corner(center, side, i, ops)
  {
    corners := [];
    for i := 0 to 6
      invariant |corners| == i
      invariant forall j :: 0 <= j < i ==> corners[j] == Corner(center, side, j, ops)
    {
      corners := corners + [Corner(center, side, i, ops)];
    }
  }

  /** Every corner lies at distance side from the centre. */
  lemma CornerDistance(center: Point, side: real, i: int, ops: Ops)
    requires TrigSound(ops)
    ensures var c := Corner(center, side, i, ops);
      (c.x - center.x) * (c.x - center.x) + (c.y - center.y) * (c.y - center.y) == side * side
  {
    var t := ops.radians(30.0 + i as real * 60.0);
    var co, si := ops.cos(t), ops.sin(t);
    assert co * co + si * si == 1.0;
    ScaledCircle(side, co, si);
  }

  /** Side i of a hex: corners i and i + 1, as a canonical edge. */
  function HexEdge(center: Point, side: real, i: int, precision: int, ops: Ops): Edge {
    CanonicalEdge(Corner(center, side, i, ops), Corner(center, side, (i + 1) % 6, ops), precision, ops)
  }

  function HexEdges(center: Point, side: real, precision: int, ops: Ops): (es: seq<Edge>)
    ensures |es| == 6
  {
    seq(6, i requires 0 <= i < 6 => HexEdge(center, side, i, precision, ops))
  }

  /** The sides of every hex, in the order the loop visits them, duplicates included. */
  function AllHexEdges(centers: seq<Point>, side: real, precision: int, ops: Ops): seq<Edge> {
    if centers == [] then []
    else AllHexEdges(centers[..|centers| - 1], side, precision, ops) + HexEdges(centers[|centers| - 1], side, precision, ops)
  }

  /** A side of some hex in the list. */
  ghost predicate IsHexSide(centers: seq<Point>, side: real, precision: int, ops: Ops, e: Edge) {
    exists k :: 0 <= k < |centers| && e in HexEdges(centers[k], side, precision, ops)
  }

  /** Each hex's sides, hex by hex. */
  function HexSides(centers: seq<Point>, side: real, precision: int, ops: Ops): (groups: seq<seq<Edge>>)
    ensures |groups| == |centers|
  {
    seq(|centers|, k requires 0 <= k < |centers| => HexEdges(centers[k], side, precision, ops))
  }

  lemma {:induction false} AllHexEdgesFlat(centers: seq<Point>, side: real, precision: int, ops: Ops)
    ensures AllHexEdges(centers, side, precision, ops) == Flatten(HexSides(centers, side, precision, ops))
  {
    if centers != [] {
      var init := centers[..|centers| - 1];
      var groups := HexSides(centers, side, precision, ops);
      AllHexEdgesFlat(init, side, precision, ops);
      assert groups[..|groups| - 1] == HexSides(init, side, precision, ops);
    }
  }

  lemma AllHexEdgesMembers(centers: seq<Point>, side: real, precision: int, ops: Ops, e: Edge)
    ensures e in AllHexEdges(centers, side, precision, ops) <==> IsHexSide(centers, side, precision, ops, e)
  {
    var groups := HexSides(centers, side, precision, ops);
    AllHexEdgesFlat(centers, side, precision, ops);
    FlattenMembers(groups, e);
    if exists k :: 0 <= k < |groups| && e in groups[k] {
      var k :| 0 <= k < |groups| && e in groups[k];
      assert e in HexEdges(centers[k], side, precision, ops);
    }
    if IsHexSide(centers, side, precision, ops, e) {
      var k :| 0 <= k < |centers| && e in HexEdges(centers[k], side, precision, ops);
      assert e in groups[k];
    }
  }



  /**
   * The edges dict: every side of every hex once, in first-seen order, and
   * nothing that is not a side of some hex.
   */
  ghost predicate EdgesOf(centers: seq<Point>, side: real, precision: int, ops: Ops, edges: seq<Edge>) {
    && edges == Dedup(AllHexEdges(centers, side, precision, ops))
    && NoDup(edges)
    && forall e :: e in edges <==> IsHexSide(centers, side, precision, ops, e)
  }

  /** The six sides of one hex, from its corner list. */
  method AddHexEdges(edges: seq<Edge>, center: Point, side: real, precision: int, ops: Ops, ghost done: seq<Edge>)
    returns (edges': seq<Edge>)
    requires edges == Dedup(done)
    ensures edges' == Dedup(done + HexEdges(center, side, precision, ops))
  {
    var corners := HexCorners(center, side, ops);
    ghost var hs := HexEdges(center, side, precision, ops);
    edges' := edges;
    assert done + hs[..0] == done;
    for i := 0 to 6
      invariant edges' == Dedup(done + hs[..i])
    {
      var edge := CanonicalEdge(corners[i], corners[(i + 1) % 6], precision, ops);
      assert edge == hs[i];
      DedupPrefixStep(done, hs, i);
      edges' := InsertKey(edges', edge);
    }
    assert hs[..6] == hs;
  }

  /** The edge loop: each hex's six sides inserted into the edges dict. */
  method CollectEdges(centers: seq<Point>, side: real, precision: int, ops: Ops) returns (edges: seq<Edge>)
    ensures EdgesOf(centers, side, precision, ops, edges)
  {
    edges := [];
    for k := 0 to |centers|
      invariant edges == Dedup(AllHexEdges(centers[..k], side, precision, ops))
    {
      edges := AddHexEdges(edges, centers[k], side, precision, ops, AllHexEdges(centers[..k], side, precision, ops));
      assert centers[..k + 1][..k] == centers[..k];
    }
    assert centers[..|centers|] == centers;
    DedupSound(AllHexEdges(centers, side, precision, ops));
    forall e ensures e in edges <==> IsHexSide(centers, side, precision, ops, e) {
      AllHexEdgesMembers(centers, side, precision, ops, e);
    }
  }

  /** Neighbouring columns are one dx apart, and odd columns sit half a row above even ones. */
  lemma ColumnOffset(l: Layout, col: int, row: int)
    ensures CenterAt(l, col + 1, row).x - CenterAt(l, col, row).x == l.dx
    ensures CenterAt(l, col + 1, row).y - CenterAt(l, col, row).y
         == (if col % 2 == 0 then 0.5 * l.dy else -0.5 * l.dy)
  {
  }

  /** The vertex_neighbors dict: its keys in insertion order, and each key's neighbour set. */
  datatype Adjacency = Adjacency(order: seq<Point>, neighbors: map<Point, set<Point>>)

  /** Both endpoints of every edge, in the order the adjacency loop touches them. */
  function Endpoints(edges: seq<Edge>): (ps: seq<Point>)
    ensures |ps| == 2 * |edges|
  {
    if edges == [] then []
    else Endpoints(edges[..|edges| - 1]) + [edges[|edges| - 1].p, edges[|edges| - 1].q]
  }

  predicate Adjacent(edges: seq<Edge>, p: Point, q: Point) {
    Edge(p, q) in edges || Edge(q, p) in edges
  }

  predicate IsEndpoint(edges: seq<Edge>, p: Point) {
    exists e :: e in edges && (p == e.p || p == e.q)
  }

  lemma {:induction false} EndpointsMembers(edges: seq<Edge>, p: Point)
    ensures p in Endpoints(edges) <==> IsEndpoint(edges, p)
  {
    if edges != [] {
      var init, last := edges[..|edges| - 1], edges[|edges| - 1];
      EndpointsMembers(init, p);
      assert edges == init + [last];
      if IsEndpoint(edges, p) {
        var e :| e in edges && (p == e.p || p == e.q);
        if e != last {
          assert e in init;
        }
      }
    }
  }

  /**
   * The adjacency the source builds: keys in first-touched order, one key per
   * endpoint, and q a neighbour of p exactly when p and q are the two ends of
   * an edge.
   */
  ghost predicate AdjacencyOf(edges: seq<Edge>, adj: Adjacency) {
    && adj.order == Dedup(Endpoints(edges))
    && (forall p :: p in adj.neighbors <==> p in adj.order)
    && forall p, q :: p in adj.neighbors ==> (q in adj.neighbors[p] <==> Adjacent(edges, p, q))
  }

  /** The setdefault(...).add(...) of one endpoint. */
  function AddNeighbor(nbrs: map<Point, set<Point>>, p: Point, q: Point): (m: map<Point, set<Point>>)
    ensures m.Keys == nbrs.Keys + {p}
    ensures m[p] == (if p in nbrs then nbrs[p] else {}) + {q}
    ensures forall k :: k in nbrs && k != p ==> m[k] == nbrs[k]
  {
    nbrs[p := (if p in nbrs then nbrs[p] else {}) + {q}]
  }

  /** Folding one more edge into both endpoints' neighbour sets. */
  function AddEdge(adj: Adjacency, e: Edge): Adjacency {
    Adjacency(InsertKey(InsertKey(adj.order, e.p), e.q),
              AddNeighbor(AddNeighbor(adj.neighbors, e.p, e.q), e.q, e.p))
  }

  lemma AddEdgeOrder(edges: seq<Edge>, e: Edge)
    ensures Dedup(Endpoints(edges + [e])) == InsertKey(InsertKey(Dedup(Endpoints(edges)), e.p), e.q)
  {
    var edges' := edges + [e];
    assert edges'[..|edges'| - 1] == edges;
    assert Endpoints(edges') == (Endpoints(edges) + [e.p]) + [e.q];
    DedupSnoc(Endpoints(edges), e.p);
    DedupSnoc(Endpoints(edges) + [e.p], e.q);
  }

  /** Both ends of an edge are keys of the adjacency. */
  lemma AdjacentKeys(edges: seq<Edge>, adj: Adjacency, p: Point, q: Point)
    requires AdjacencyOf(edges, adj)
    ensures Adjacent(edges, p, q) ==> p in adj.neighbors
  {
    if Adjacent(edges, p, q) {
      var e := if Edge(p, q) in edges then Edge(p, q) else Edge(q, p);
      assert e in edges && (p == e.p || p == e.q);
      EndpointsMembers(edges, p);
      DedupSound(Endpoints(edges));
    }
  }

  lemma AddEdgeNeighbors(edges: seq<Edge>, adj: Adjacency, e: Edge, p: Point, q: Point)
    requires AdjacencyOf(edges, adj)
    requires p in AddNeighbor(AddNeighbor(adj.neighbors, e.p, e.q), e.q, e.p)
    ensures q in AddNeighbor(AddNeighbor(adj.neighbors, e.p, e.q), e.q, e.p)[p] <==> Adjacent(edges + [e], p, q)
  {
    AdjacentKeys(edges, adj, p, q);
    assert Edge(p, q) in edges + [e] <==> Edge(p, q) in edges || Edge(p, q) == e;
    assert Edge(q, p) in edges + [e] <==> Edge(q, p) in edges || Edge(q, p) == e;
  }

  lemma AddEdgeKeeps(edges: seq<Edge>, adj: Adjacency, e: Edge)
    requires AdjacencyOf(edges, adj)
    ensures AdjacencyOf(edges + [e], AddEdge(adj, e))
  {
    AddEdgeOrder(edges, e);
    var adj' := AddEdge(adj, e);
    forall p ensures p in adj'.neighbors <==> p in adj'.order {
      assert p in InsertKey(adj.order, e.p) <==> p in adj.order || p == e.p;
    }
    forall p, q | p in adj'.neighbors
      ensures q in adj'.neighbors[p] <==> Adjacent(edges + [e], p, q)
    {
      AddEdgeNeighbors(edges, adj, e, p, q);
    }
  }

  /** The adjacency loop over the deduplicated edges. */
  method BuildAdjacency(edges: seq<Edge>) returns (adj: Adjacency)
    ensures AdjacencyOf(edges, adj)
  {
    var order: seq<Point> := [];
    var nbrs: map<Point, set<Point>> := map[];
    for k := 0 to |edges|
      invariant AdjacencyOf(edges[..k], Adjacency(order, nbrs))
    {
      var e := edges[k];
      ghost var before := Adjacency(order, nbrs);
      AddEdgeKeeps(edges[..k], before, e);
      TakeSnoc(edges, k);
      order := InsertKey(order, e.p);
      nbrs := AddNeighbor(nbrs, e.p, e.q);
      order := InsertKey(order, e.q);
      nbrs := AddNeighbor(nbrs, e.q, e.p);
      assert Adjacency(order, nbrs) == AddEdge(before, e);
    }
    assert edges[..|edges|] == edges;
    adj := Adjacency(order, nbrs);
  }

  /** Adjacency is symmetric, and its keys are exactly the endpoints, each listed once. */
  lemma AdjacencySymmetric(edges: seq<Edge>, adj: Adjacency, p: Point, q: Point)
    requires AdjacencyOf(edges, adj)
    ensures p in adj.neighbors <==> IsEndpoint(edges, p)
    ensures p in adj.neighbors && q in adj.neighbors[p] ==> q in adj.neighbors && p in adj.neighbors[q]
    ensures NoDup(adj.order)
  {
    DedupSound(Endpoints(edges));
    EndpointsMembers(edges, p);
    EndpointsMembers(edges, q);
    if p in adj.neighbors && q in adj.neighbors[p] {
      assert Adjacent(edges, p, q);
      var e := if Edge(p, q) in edges then Edge(p, q) else Edge(q, p);
      assert e in edges && (q == e.p || q == e.q);
    }
  }

  /** The dash length along each edge: the side less both vertex gaps, but at least 0.2. */
  function EdgeDashLength(side: real, gap: real): (dash: real)
    ensures dash >= 0.2
    ensures dash >= side - 2.0 * gap
    ensures dash == 0.2 || dash == side - 2.0 * gap
  {
    Max(0.2, side - 2.0 * gap)
  }

  /** The dash of one edge: centred on its midpoint, pointing from p to q. */
  function DashSegment(e: Edge, dash: real, ops: Ops): (s: Segment)
    ensures s.length == dash
    ensures s.cx - e.p.x == e.q.x - s.cx && s.cy - e.p.y == e.q.y - s.cy
  {
    Segment(0.5 * (e.p.x + e.q.x), 0.5 * (e.p.y + e.q.y), dash,
            ops.degrees(ops.atan2(e.q.y - e.p.y, e.q.x - e.p.x)))
  }

  predicate MidpointInside(r: Rect, e: Edge) {
    Inside(r, 0.5 * (e.p.x + e.q.x), 0.5 * (e.p.y + e.q.y))
  }

  /** The dashes of the edges whose midpoint is in the working rectangle, in edge order. */
  function KeptDashes(edges: seq<Edge>, r: Rect, dash: real, ops: Ops): seq<Segment> {
    if edges == [] then []
    else
      var init, last := edges[..|edges| - 1], edges[|edges| - 1];
      KeptDashes(init, r, dash, ops) + (if MidpointInside(r, last) then [DashSegment(last, dash, ops)] else [])
  }

  /**
   * A dash is produced exactly for each edge whose midpoint is in the working
   * rectangle; so every dash is centred inside it and has the dash length.
   */
  lemma {:induction false} KeptDashesMembers(edges: seq<Edge>, r: Rect, dash: real, ops: Ops, s: Segment)
    ensures s in KeptDashes(edges, r, dash, ops)
        <==> exists e :: e in edges && MidpointInside(r, e) && s == DashSegment(e, dash, ops)
    ensures s in KeptDashes(edges, r, dash, ops) ==> Inside(r, s.cx, s.cy) && s.length == dash
  {
    if edges != [] {
      var init, last := edges[..|edges| - 1], edges[|edges| - 1];
      KeptDashesMembers(init, r, dash, ops, s);
      assert edges == init + [last];
      if exists e :: e in edges && MidpointInside(r, e) && s == DashSegment(e, dash, ops) {
        var e :| e in edges && MidpointInside(r, e) && s == DashSegment(e, dash, ops);
        if e != last {
          assert e in init;
        }
      }
    }
  }

  /** The edge-dash loop. */
  method EdgeSegments(edges: seq<Edge>, r: Rect, dash: real, ops: Ops) returns (segs: seq<Segment>)
    ensures segs == KeptDashes(edges, r, dash, ops)
  {
    segs := [];
    for k := 0 to |edges|
      invariant segs == KeptDashes(edges[..k], r, dash, ops)
    {
      assert edges[..k + 1][..k] == edges[..k];
      var e := edges[k];
      var mx := 0.5 * (e.p.x + e.q.x);
      var my := 0.5 * (e.p.y + e.q.y);
      if !(r.minX <= mx <= r.maxX && r.minY <= my <= r.maxY) {
        continue;
      }
      var angle := ops.degrees(ops.atan2(e.q.y - e.p.y, e.q.x - e.p.x));
      segs := segs + [Segment(mx, my, dash, angle)];
    }
    assert edges[..|edges|] == edges;
  }

  /**
   * The arm from vertex v towards neighbour n: an arm's length long, centred
   * half its length away from v along the edge's direction.
   */
  function ArmSegment(v: Point, n: Point, arm: real, ops: Ops): (s: Segment)
    ensures s.length == arm
    ensures TrigSound(ops) ==>
      (s.cx - v.x) * (s.cx - v.x) + (s.cy - v.y) * (s.cy - v.y) == (0.5 * arm) * (0.5 * arm)
  {
    var angle := ops.degrees(ops.atan2(n.y - v.y, n.x - v.x));
    var t := ops.radians(angle);
    var co, si := ops.cos(t), ops.sin(t);
    assert TrigSound(ops) ==> co * co + si * si == 1.0;
    ScaledCircle(0.5 * arm, co, si);
    Segment(v.x + 0.5 * arm * co, v.y + 0.5 * arm * si, arm, angle)
  }

  /** Scaling a direction (co, si) by h scales its squared length by h * h. */
  lemma ScaledCircle(h: real, co: real, si: real)
    ensures (h * co) * (h * co) + (h * si) * (h * si) == h * h * (co * co + si * si)
    ensures co * co + si * si == 1.0 ==> (h * co) * (h * co) + (h * si) * (h * si) == h * h
  {
  }

  /** The number of arms: the neighbour counts of the in-bounds vertices, summed. */
  function InsideDegreeSum(order: seq<Point>, nbrs: map<Point, set<Point>>, r: Rect): nat
    requires forall p :: p in order ==> p in nbrs
  {
    if order == [] then 0
    else
      var init, v := order[..|order| - 1], order[|order| - 1];
      InsideDegreeSum(init, nbrs, r) + (if Inside(r, v.x, v.y) then |nbrs[v]| else 0)
  }

  /** An arm of vertex v towards one of its neighbours, v in the working rectangle. */
  ghost predicate IsArm(adj: Adjacency, r: Rect, arm: real, ops: Ops, s: Segment) {
    exists v, n :: v in adj.order && v in adj.neighbors && Inside(r, v.x, v.y)
      && n in adj.neighbors[v] && s == ArmSegment(v, n, arm, ops)
  }

  /**
   * The vertex-arm list: one arm per (in-bounds vertex, neighbour) pair, and
   * nothing else. The order within one vertex follows set iteration, which the
   * model leaves open.
   */
  ghost predicate VertexArmsOf(adj: Adjacency, r: Rect, arm: real, ops: Ops, segs: seq<Segment>)
    requires forall p :: p in adj.order ==> p in adj.neighbors
  {
    && |segs| == InsideDegreeSum(adj.order, adj.neighbors, r)
    && (forall s :: s in segs <==> IsArm(adj, r, arm, ops, s))
  }

  /** The arms of one vertex: one per neighbour, in some order of the neighbour set. */
  method VertexArms(v: Point, neighbors: set<Point>, arm: real, ops: Ops) returns (segs: seq<Segment>)
    ensures |segs| == |neighbors|
    ensures forall s :: s in segs <==> exists n :: n in neighbors && s == ArmSegment(v, n, arm, ops)
  {
    segs := [];
    var rest := neighbors;
    while rest != {}
      invariant rest <= neighbors
      invariant |segs| + |rest| == |neighbors|
      invariant forall s :: s in segs <==> exists n :: n in neighbors - rest && s == ArmSegment(v, n, arm, ops)
      decreases |rest|
    {
      var n :| n in rest;
      segs := segs + [ArmSegment(v, n, arm, ops)];
      rest := rest - {n};
    }
  }

  /** The vertex-arm loop, over the adjacency's keys in insertion order. */
  method VertexSegments(adj: Adjacency, r: Rect, arm: real, ops: Ops) returns (segs: seq<Segment>)
    requires forall p :: p in adj.order ==> p in adj.neighbors
    ensures VertexArmsOf(adj, r, arm, ops, segs)
  {
    segs := [];
    for i := 0 to |adj.order|
      invariant |segs| == InsideDegreeSum(adj.order[..i], adj.neighbors, r)
      invariant forall s :: s in segs <==> IsArm(Adjacency(adj.order[..i], adj.neighbors), r, arm, ops, s)
    {
      var v := adj.order[i];
      ghost var prev := Adjacency(adj.order[..i], adj.neighbors);
      ghost var next := Adjacency(adj.order[..i + 1], adj.neighbors);
      assert adj.order[..i + 1] == adj.order[..i] + [v];
      if Inside(r, v.x, v.y) {
        var arms := VertexArms(v, adj.neighbors[v], arm, ops);
        forall s ensures s in segs + arms <==> IsArm(next, r, arm, ops, s) {
          if IsArm(next, r, arm, ops, s) {
            var w, n :| w in next.order && w in adj.neighbors && Inside(r, w.x, w.y)
              && n in adj.neighbors[w] && s == ArmSegment(w, n, arm, ops);
            if w != v {
              assert IsArm(prev, r, arm, ops, s);
            }
          }
        }
        segs := segs + arms;
      } else {
        forall s ensures IsArm(next, r, arm, ops, s) ==> IsArm(prev, r, arm, ops, s) {
          if IsArm(next, r, arm, ops, s) {
            var w, n :| w in next.order && w in adj.neighbors && Inside(r, w.x, w.y)
              && n in adj.neighbors[w] && s == ArmSegment(w, n, arm, ops);
            assert w in prev.order;
          }
        }
      }
    }
    assert adj.order[..|adj.order|] == adj.order;
  }

  /** What the grid computation returns, with the intermediate structures it builds along the way. */
  datatype Geometry = Geometry(
    layout: Layout,
    side: real,
    centers: seq<Point>,
    edges: seq<Edge>,
    adjacency: Adjacency,
    edgeSegments: seq<Segment>,
    vertexSegments: seq<Segment>)

  /** Every phase of the grid computation, each one's output feeding the next. */
  ghost predicate GeometryOf(config: Config, ops: Ops, g: Geometry) {
    && ops.sqrt(3.0) != 0.0 && config.hexFlatToFlat != 0.0
    && g.side == Side(config, ops)
    && g.layout == GridLayout(config, ops)
    && CentersOf(g.layout, g.centers)
    && EdgesOf(g.centers, g.side, config.precision, ops, g.edges)
    && AdjacencyOf(g.edges, g.adjacency)
    && g.edgeSegments
       == KeptDashes(g.edges, WorkingRect(config), EdgeDashLength(g.side, config.edgeGapFromVertex), ops)
    && VertexArmsOf(g.adjacency, WorkingRect(config), config.vertexArmLength, ops, g.vertexSegments)
  }

  /**
   * The whole grid computation. It fails with a division by zero exactly when
   * the hex size is zero (or the square root of 3 is taken to be zero).
   */
  method CollectGridGeometry(config: Config, ops: Ops) returns (result: Result<Geometry, GridError>)
    ensures result.Failure? <==> ops.sqrt(3.0) == 0.0 || config.hexFlatToFlat == 0.0
    ensures result.Success? ==> GeometryOf(config, ops, result.value)
  {
    if ops.sqrt(3.0) == 0.0 || config.hexFlatToFlat == 0.0 {
      return Failure(ZeroDivision);
    }
    var side := Side(config, ops);
    var layout := GridLayout(config, ops);
    var rect := WorkingRect(config);
    var centers := HexCenters(layout);
    var edges := CollectEdges(centers, side, config.precision, ops);
    var adj := BuildAdjacency(edges);
    var dash := EdgeDashLength(side, config.edgeGapFromVertex);
    var edgeSegments := EdgeSegments(edges, rect, dash, ops);
    var vertexSegments := VertexSegments(adj, rect, config.vertexArmLength, ops);
    return Success(Geometry(layout, side, centers, edges, adj, edgeSegments, vertexSegments));
  }

  /**
   * What the slots of a computed grid satisfy: each shared side is cut once,
   * every dash is centred in the working rectangle with the dash length, and
   * every arm has the arm length and starts at an in-bounds vertex.
   */
  lemma GeometrySlots(config: Config, ops: Ops, g: Geometry)
    requires GeometryOf(config, ops, g)
    ensures NoDup(g.edges)
    ensures forall s :: s in g.edgeSegments ==>
      Inside(WorkingRect(config), s.cx, s.cy) && s.length == EdgeDashLength(g.side, config.edgeGapFromVertex)
    ensures forall s :: s in g.vertexSegments ==> s.length == config.vertexArmLength
  {
    var rect := WorkingRect(config);
    var dash := EdgeDashLength(g.side, config.edgeGapFromVertex);
    forall s | s in g.edgeSegments
      ensures Inside(rect, s.cx, s.cy) && s.length == dash
    {
      KeptDashesMembers(g.edges, rect, dash, ops, s);
    }
    forall s | s in g.vertexSegments
      ensures s.length == config.vertexArmLength
    {
      assert IsArm(g.adjacency, rect, config.vertexArmLength, ops, s);
    }
  }
}
