/**
 * The SVG preview renderer: each triangle is turned by a yaw and a pitch,
 * shaded by a fixed light, ordered back to front by mean depth and drawn as a
 * polygon in a frame that fits the rotated mesh into 86% of the image.
 */
module Preview {
  import opened Results
  import opened Numerics
  import opened Vectors

  /** Yaw about the z axis, then pitch about the x axis, both in degrees: a turn, which keeps lengths. */
  function Rotate(v: Vec3, yawDeg: real, pitchDeg: real, ops: Ops): (r: Vec3)
    ensures TrigSound(ops) ==> Dot(r, r) == Dot(v, v)
  {
    var yaw, pitch := ops.radians(yawDeg), ops.radians(pitchDeg);
    var x1 := v.x * ops.cos(yaw) - v.y * ops.sin(yaw);
    var y1 := v.x * ops.sin(yaw) + v.y * ops.cos(yaw);
    var z1 := v.z;
    PlaneRotation(v.x, v.y, ops.cos(yaw), ops.sin(yaw));
    PlaneRotation(y1, z1, ops.cos(pitch), ops.sin(pitch));
    Vec3(x1, y1 * ops.cos(pitch) - z1 * ops.sin(pitch), y1 * ops.sin(pitch) + z1 * ops.cos(pitch))
  }

  /** A plane rotation by (c, s) with c^2 + s^2 = 1 keeps the squared length. */
  lemma PlaneRotation(x: real, y: real, c: real, s: real)
    ensures c * c + s * s == 1.0 ==>
      (x * c - y * s) * (x * c - y * s) + (x * s + y * c) * (x * s + y * c) == x * x + y * y
  {
    calc {
      (x * c - y * s) * (x * c - y * s) + (x * s + y * c) * (x * s + y * c);
      (x * x + y * y) * (c * c + s * s);
    }
  }

  datatype Rgb = Rgb(r: int, g: int, b: int)

  /** The light direction before normalisation, and its squared length. */
  const Light := Vec3(0.25, -0.35, 0.9)
  const LightNormSquared: real := 0.995

  lemma LightNorm()
    ensures Dot(Light, Light) == LightNormSquared
  {
  }

  /** The face normal the renderer shades with: a zero-length cross product is divided by 1. */
  function ShadeNormal(t: Triangle, sqrt: real -> real): (n: Vec3)
    ensures Cross(n, FaceCross(t)) == Zero
    ensures FaceCross(t) == Zero ==> n == Zero
  {
    var cr := FaceCross(t);
    var m := sqrt(Dot(cr, cr));
    var mag := if m == 0.0 then 1.0 else m;
    DivIsTimesInverse(cr, mag);
    CrossScaled(1.0 / mag, cr);
    Vec3(cr.x / mag, cr.y / mag, cr.z / mag)
  }

  /** The light, scaled to unit length. */
  function UnitLight(sqrt: real -> real): Vec3
    requires sqrt(LightNormSquared) != 0.0
  {
    var lmag := sqrt(LightNormSquared);
    Vec3(Light.x / lmag, Light.y / lmag, Light.z / lmag)
  }

  /** How much the face is lit: the cosine of its angle to the light, never below zero. */
  function Intensity(t: Triangle, sqrt: real -> real): (i: real)
    requires sqrt(LightNormSquared) != 0.0
    ensures i >= 0.0
  {
    Max(0.0, Dot(ShadeNormal(t, sqrt), UnitLight(sqrt)))
  }

  /** A grey with a blue tint, never darker than 150: rgb(c, c + 8, c + 16). */
  function Shade(t: Triangle, sqrt: real -> real): (c: Rgb)
    requires sqrt(LightNormSquared) != 0.0
    ensures c.r >= 150 && c.g == c.r + 8 && c.b == c.r + 16
  {
    var cval := (150.0 + Intensity(t, sqrt) * 85.0).Floor;
    Rgb(cval, cval + 8, cval + 16)
  }

  /** (n - l).(n - l) >= 0 bounds n.l by the mean of the squared lengths. */
  lemma DotBound(n: Vec3, l: Vec3)
    ensures 2.0 * Dot(n, l) <= Dot(n, n) + Dot(l, l)
  {
    DotSelfNonNegative(Sub(n, l));
  }

  /** With a true square root the intensity is at most 1, so the shade stays within 150 to 235. */
  lemma ShadeBounds(t: Triangle, sqrt: real -> real)
    requires SqrtSound(sqrt)
    ensures sqrt(LightNormSquared) != 0.0
    ensures Intensity(t, sqrt) <= 1.0
    ensures 150 <= Shade(t, sqrt).r <= 235
  {
    var lmag := sqrt(LightNormSquared);
    assert lmag * lmag == LightNormSquared;
    LightNorm();
    DivIsTimesInverse(Light, lmag);
    ScaledUnit(Light, 1.0 / lmag, lmag);
    var l := UnitLight(sqrt);
    var cr := FaceCross(t);
    DotSelfNonNegative(cr);
    var m := sqrt(Dot(cr, cr));
    assert 0.0 <= m && m * m == Dot(cr, cr);
    var n := ShadeNormal(t, sqrt);
    if m == 0.0 {
      assert n == cr;
      assert Dot(n, n) == 0.0;
    } else {
      DivIsTimesInverse(cr, m);
      ScaledUnit(cr, 1.0 / m, m);
    }
    DotBound(n, l);
  }

  /** A rotated triangle with its depth and colour. */
  datatype Item = Item(tri: Triangle, depth: real, color: Rgb)

  /** The mean rotated z of the three vertices: between the nearest and the farthest of them. */
  function Depth(t: Triangle): (d: real)
    ensures Min(Min(t.a.z, t.b.z), t.c.z) <= d <= Max(Max(t.a.z, t.b.z), t.c.z)
  {
    (0.0 + t.a.z + t.b.z + t.c.z) / 3.0
  }

  datatype View = View(width: int, height: int, yawDeg: real, pitchDeg: real)

  const DefaultView := View(1400, 900, -36.0, -58.0)

  function RotateTriangle(t: Triangle, view: View, ops: Ops): Triangle {
    Triangle(Rotate(t.a, view.yawDeg, view.pitchDeg, ops), Rotate(t.b, view.yawDeg, view.pitchDeg, ops),
             Rotate(t.c, view.yawDeg, view.pitchDeg, ops))
  }

  function MakeItem(t: Triangle, view: View, ops: Ops): Item
    requires ops.sqrt(LightNormSquared) != 0.0
  {
    var r := RotateTriangle(t, view, ops);
    Item(r, Depth(r), Shade(r, ops.sqrt))
  }

  predicate SortedByDepth(items: seq<Item>) {
    forall i, j :: 0 <= i < j < |items| ==> items[i].depth <= items[j].depth
  }

  /** Places x before the first item at least as deep, so an earlier item stays ahead of equally deep later ones. */
  function InsertByDepth(x: Item, sorted: seq<Item>): seq<Item> {
    if sorted == [] then [x]
    else if x.depth <= sorted[0].depth then [x] + sorted
    else [sorted[0]] + InsertByDepth(x, sorted[1..])
  }

  /**
   * list.sort with the depth as key: a stable sort, modelled as insertion
   * from the back. The result is ordered by depth and holds every item, so
   * back faces come first and are painted over.
   */
  function SortByDepth(items: seq<Item>): (sorted: seq<Item>)
    ensures SortedByDepth(sorted)
    ensures multiset(sorted) == multiset(items)
    ensures |sorted| == |items|
  {
    if items == [] then []
    else
      var rest := SortByDepth(items[1..]);
      InsertFirst(items, rest);
      InsertByDepth(items[0], rest)
  }

  /** Inserting the first item into the sorted rest sorts the whole list. */
  lemma InsertFirst(items: seq<Item>, rest: seq<Item>)
    requires items != [] && SortedByDepth(rest) && multiset(rest) == multiset(items[1..])
    ensures SortedByDepth(InsertByDepth(items[0], rest))
    ensures multiset(InsertByDepth(items[0], rest)) == multiset(items)
    ensures |InsertByDepth(items[0], rest)| == |items|
  {
    InsertByDepthSorted(items[0], rest);
    assert items == [items[0]] + items[1..];
    assert multiset(items) == multiset(items[1..]) + multiset{items[0]};
    assert |InsertByDepth(items[0], rest)| == |multiset(InsertByDepth(items[0], rest))|;
  }

  lemma ConsSorted(h: Item, s: seq<Item>)
    requires SortedByDepth(s)
    requires forall k :: 0 <= k < |s| ==> h.depth <= s[k].depth
    ensures SortedByDepth([h] + s)
  {
    forall i, j | 0 <= i < j < |[h] + s|
      ensures ([h] + s)[i].depth <= ([h] + s)[j].depth
    {
      if i > 0 {
        assert ([h] + s)[i] == s[i - 1] && ([h] + s)[j] == s[j - 1];
      }
    }
  }

  lemma {:induction false} InsertByDepthSorted(x: Item, sorted: seq<Item>)
    requires SortedByDepth(sorted)
    ensures SortedByDepth(InsertByDepth(x, sorted))
    ensures multiset(InsertByDepth(x, sorted)) == multiset(sorted) + multiset{x}
  {
    if sorted == [] {
    } else if x.depth <= sorted[0].depth {
      ConsSorted(x, sorted);
    } else {
      var head, tail := sorted[0], sorted[1..];
      var rest := InsertByDepth(x, tail);
      assert sorted == [head] + tail;
      InsertByDepthSorted(x, tail);
      forall k | 0 <= k < |rest|
        ensures head.depth <= rest[k].depth
      {
        assert rest[k] in multiset(rest);
        if rest[k] != x {
          assert rest[k] in multiset(tail);
          var m :| 0 <= m < |tail| && tail[m] == rest[k];
          assert sorted[m + 1] == tail[m];
        }
      }
      ConsSorted(head, rest);
    }
  }

  /** The items of one depth, in their order. */
  function AtDepth(items: seq<Item>, d: real): seq<Item> {
    if items == [] then []
    else (if items[0].depth == d then [items[0]] else []) + AtDepth(items[1..], d)
  }

  lemma AtDepthCons(h: Item, r: seq<Item>, d: real)
    ensures AtDepth([h] + r, d) == (if h.depth == d then [h] else []) + AtDepth(r, d)
  {
    assert ([h] + r)[0] == h && ([h] + r)[1..] == r;
  }

  lemma {:induction false} InsertByDepthStable(x: Item, sorted: seq<Item>, d: real)
    ensures AtDepth(InsertByDepth(x, sorted), d) == (if x.depth == d then [x] else []) + AtDepth(sorted, d)
  {
    var here := if x.depth == d then [x] else [];
    if sorted == [] {
      AtDepthCons(x, [], d);
      assert [x] + [] == [x];
    } else if x.depth <= sorted[0].depth {
      AtDepthCons(x, sorted, d);
    } else {
      var head, tail := sorted[0], sorted[1..];
      var r := InsertByDepth(x, tail);
      var first := if head.depth == d then [head] else [];
      assert sorted == [head] + tail;
      AtDepthCons(head, r, d);
      AtDepthCons(head, tail, d);
      InsertByDepthStable(x, tail, d);
      assert here == [] || first == [];
      calc {
        AtDepth(InsertByDepth(x, sorted), d);
        AtDepth([head] + r, d);
        first + (here + AtDepth(tail, d));
        here + (first + AtDepth(tail, d));
        here + AtDepth(sorted, d);
      }
    }
  }

  /** The sort is stable: items of equal depth keep their input order. */
  lemma {:induction false} SortByDepthStable(items: seq<Item>, d: real)
    ensures AtDepth(SortByDepth(items), d) == AtDepth(items, d)
  {
    if items != [] {
      SortByDepthStable(items[1..], d);
      InsertByDepthStable(items[0], SortByDepth(items[1..]), d);
    }
  }

  /** The least of a non-empty list, as Python's min. */
  function MinOf(xs: seq<real>): (m: real)
    requires xs != []
    ensures m in xs && forall i :: 0 <= i < |xs| ==> m <= xs[i]
  {
    if |xs| == 1 then xs[0]
    else
      var rest := MinOf(xs[1..]);
      assert forall i :: 1 <= i < |xs| ==> xs[i] == xs[1..][i - 1];
      if xs[0] <= rest then xs[0] else rest
  }

  /** The greatest of a non-empty list, as Python's max. */
  function MaxOf(xs: seq<real>): (m: real)
    requires xs != []
    ensures m in xs && forall i :: 0 <= i < |xs| ==> xs[i] <= m
  {
    if |xs| == 1 then xs[0]
    else
      var rest := MaxOf(xs[1..]);
      assert forall i :: 1 <= i < |xs| ==> xs[i] == xs[1..][i - 1];
      if xs[0] >= rest then xs[0] else rest
  }

  /** Every x (or every y) coordinate of the rotated triangles, three per triangle. */
  function Xs(items: seq<Item>): (xs: seq<real>)
    ensures |xs| == 3 * |items|
  {
    if items == [] then []
    else Xs(items[..|items| - 1]) + [items[|items| - 1].tri.a.x, items[|items| - 1].tri.b.x, items[|items| - 1].tri.c.x]
  }

  function Ys(items: seq<Item>): (ys: seq<real>)
    ensures |ys| == 3 * |items|
  {
    if items == [] then []
    else Ys(items[..|items| - 1]) + [items[|items| - 1].tri.a.y, items[|items| - 1].tri.b.y, items[|items| - 1].tri.c.y]
  }

  /** A span of zero (all points on one line) becomes 1, so that the scale stays finite. */
  function Span(lo: real, hi: real): (s: real)
    requires lo <= hi
    ensures s > 0.0
    ensures hi - lo <= s
    ensures s == hi - lo || (s == 1.0 && hi == lo)
  {
    if hi - lo == 0.0 then 1.0 else hi - lo
  }

  /** The bounding box of the rotated mesh and the scale that fits it into the image. */
  datatype Frame = Frame(minX: real, maxX: real, minY: real, maxY: real, scale: real, width: int, height: int)

  /** The frame for a bounding box: the smaller of the two scales that fit each span into 86% of the image. */
  function FrameOf(minX: real, maxX: real, minY: real, maxY: real, view: View): Frame
    requires minX <= maxX && minY <= maxY
  {
    var spanX, spanY := Span(minX, maxX), Span(minY, maxY);
    var scale := Min(view.width as real * 0.86 / spanX, view.height as real * 0.86 / spanY);
    Frame(minX, maxX, minY, maxY, scale, view.width, view.height)
  }

  /** The frame of the rotated mesh: its bounding box, the image's size, and the scale for them. */
  function MakeFrame(items: seq<Item>, view: View): (f: Frame)
    requires items != []
    ensures f.minX in Xs(items) && f.maxX in Xs(items) && f.minY in Ys(items) && f.maxY in Ys(items)
    ensures forall i :: 0 <= i < |Xs(items)| ==> f.minX <= Xs(items)[i] <= f.maxX
    ensures forall i :: 0 <= i < |Ys(items)| ==> f.minY <= Ys(items)[i] <= f.maxY
    ensures f.width == view.width && f.height == view.height
  {
    var xs, ys := Xs(items), Ys(items);
    var lx, hx, ly, hy := MinOf(xs), MaxOf(xs), MinOf(ys), MaxOf(ys);
    assert lx <= xs[0] <= hx && ly <= ys[0] <= hy;
    var f := FrameOf(lx, hx, ly, hy, view);
    assert f.minX == lx && f.maxX == hx && f.minY == ly && f.maxY == hy;
    f
  }

  datatype Point2 = Point2(x: real, y: real)

  /** The bounding box's centre goes to the image's centre; y grows downwards in SVG. */
  function Project(v: Vec3, f: Frame): (p: Point2)
    ensures v.x == (f.minX + f.maxX) / 2.0 ==> p.x == f.width as real / 2.0
    ensures v.y == (f.minY + f.maxY) / 2.0 ==> p.y == f.height as real / 2.0
    ensures f.scale > 0.0 ==> (v.y > (f.minY + f.maxY) / 2.0 <==> p.y < f.height as real / 2.0)
  {
    Point2((v.x - (f.minX + f.maxX) / 2.0) * f.scale + f.width as real / 2.0,
           f.height as real / 2.0 - (v.y - (f.minY + f.maxY) / 2.0) * f.scale)
  }

  /** |d| s <= (span / 2) s <= 0.43 extent when s span <= 0.86 extent. */
  lemma FitsHalf(d: real, half: real, s: real, span: real, extent: real)
    requires 0.0 <= s && span > 0.0 && -half <= d <= half && 2.0 * half <= span
    requires s * span <= 0.86 * extent
    ensures -0.43 * extent <= d * s <= 0.43 * extent
  {
    assert d * s <= half * s;
    assert -half * s <= d * s;
    assert 2.0 * half * s <= span * s;
  }

  lemma ScaleFits(extent: real, span: real, scale: real)
    requires extent > 0.0 && span > 0.0 && scale <= extent * 0.86 / span
    ensures scale * span <= 0.86 * extent
  {
    assert (extent * 0.86 / span) * span == extent * 0.86;
    assert scale * span <= (extent * 0.86 / span) * span;
  }

  /** The scale fits both spans into 86% of the image. */
  lemma FrameFits(minX: real, maxX: real, minY: real, maxY: real, view: View)
    requires minX <= maxX && minY <= maxY && view.width > 0 && view.height > 0
    ensures var f := FrameOf(minX, maxX, minY, maxY, view);
      && 0.0 <= f.scale
      && f.scale * Span(minX, maxX) <= 0.86 * view.width as real
      && f.scale * Span(minY, maxY) <= 0.86 * view.height as real
  {
    var f := FrameOf(minX, maxX, minY, maxY, view);
    var w, h := view.width as real, view.height as real;
    var spanX, spanY := Span(minX, maxX), Span(minY, maxY);
    assert f.scale <= w * 0.86 / spanX && f.scale <= h * 0.86 / spanY;
    assert 0.0 <= w * 0.86 / spanX && 0.0 <= h * 0.86 / spanY;
    ScaleFits(w, spanX, f.scale);
    ScaleFits(h, spanY, f.scale);
  }

  lemma ProjectInFrame(f: Frame, v: Vec3)
    requires f.width > 0 && f.height > 0 && 0.0 <= f.scale
    requires f.minX <= v.x <= f.maxX && f.minY <= v.y <= f.maxY
    requires f.scale * Span(f.minX, f.maxX) <= 0.86 * f.width as real
    requires f.scale * Span(f.minY, f.maxY) <= 0.86 * f.height as real
    ensures var p := Project(v, f);
      0.07 * f.width as real <= p.x <= 0.93 * f.width as real
      && 0.07 * f.height as real <= p.y <= 0.93 * f.height as real
  {
    var dx, dy := v.x - (f.minX + f.maxX) / 2.0, v.y - (f.minY + f.maxY) / 2.0;
    FitsHalf(dx, (f.maxX - f.minX) / 2.0, f.scale, Span(f.minX, f.maxX), f.width as real);
    FitsHalf(dy, (f.maxY - f.minY) / 2.0, f.scale, Span(f.minY, f.maxY), f.height as real);
  }

  /** Every point inside the bounding box lands in the central 86% of the image. */
  lemma ProjectInside(minX: real, maxX: real, minY: real, maxY: real, view: View, v: Vec3)
    requires view.width > 0 && view.height > 0
    requires minX <= v.x <= maxX && minY <= v.y <= maxY
    ensures var p := Project(v, FrameOf(minX, maxX, minY, maxY, view));
      0.07 * view.width as real <= p.x <= 0.93 * view.width as real
      && 0.07 * view.height as real <= p.y <= 0.93 * view.height as real
  {
    FrameFits(minX, maxX, minY, maxY, view);
    ProjectInFrame(FrameOf(minX, maxX, minY, maxY, view), v);
  }

  /** Each coordinate of the rotated mesh is among the values whose minimum and maximum frame it. */
  lemma {:induction false} CoordinatesFramed(items: seq<Item>, k: nat)
    requires k < |items|
    ensures var t := items[k].tri;
      t.a.x in Xs(items) && t.b.x in Xs(items) && t.c.x in Xs(items)
      && t.a.y in Ys(items) && t.b.y in Ys(items) && t.c.y in Ys(items)
  {
    var init := items[..|items| - 1];
    if k < |init| {
      CoordinatesFramed(init, k);
      assert init[k] == items[k];
    }
  }

  datatype Polygon = Polygon(points: seq<Point2>, color: Rgb)

  function Draw(item: Item, f: Frame): Polygon {
    Polygon([Project(item.tri.a, f), Project(item.tri.b, f), Project(item.tri.c, f)], item.color)
  }

  /** A point in the central 86% of the image. */
  predicate InPicture(p: Point2, view: View) {
    && 0.07 * view.width as real <= p.x <= 0.93 * view.width as real
    && 0.07 * view.height as real <= p.y <= 0.93 * view.height as real
  }

  lemma VertexInside(xs: seq<real>, ys: seq<real>, view: View, v: Vec3)
    requires view.width > 0 && view.height > 0
    requires v.x in xs && v.y in ys
    ensures InPicture(Project(v, FrameOf(MinOf(xs), MaxOf(xs), MinOf(ys), MaxOf(ys), view)), view)
  {
    ProjectInside(MinOf(xs), MaxOf(xs), MinOf(ys), MaxOf(ys), view, v);
  }

  /** Every corner of every drawn polygon lies in the central 86% of the image, with a 7% margin on each side. */
  lemma DrawnInside(items: seq<Item>, view: View, item: Item)
    requires view.width > 0 && view.height > 0
    requires item in items
    ensures forall p :: p in Draw(item, MakeFrame(items, view)).points ==> InPicture(p, view)
  {
    var k :| 0 <= k < |items| && items[k] == item;
    CoordinatesFramed(items, k);
    var xs, ys := Xs(items), Ys(items);
    assert MakeFrame(items, view) == FrameOf(MinOf(xs), MaxOf(xs), MinOf(ys), MaxOf(ys), view);
    VertexInside(xs, ys, view, item.tri.a);
    VertexInside(xs, ys, view, item.tri.b);
    VertexInside(xs, ys, view, item.tri.c);
  }

  /** Drawing any rearrangement of the items in their own frame keeps every corner in the picture. */
  lemma PolygonsInside(items: seq<Item>, drawn: seq<Item>, polygons: seq<Polygon>, view: View)
    requires items != [] && view.width > 0 && view.height > 0
    requires multiset(drawn) == multiset(items) && |polygons| == |drawn|
    requires forall i :: 0 <= i < |polygons| ==> polygons[i] == Draw(drawn[i], MakeFrame(items, view))
    ensures forall i, p :: 0 <= i < |polygons| && p in polygons[i].points ==> InPicture(p, view)
  {
    forall i | 0 <= i < |polygons|
      ensures forall p :: p in polygons[i].points ==> InPicture(p, view)
    {
      assert drawn[i] in multiset(items);
      DrawnInside(items, view, drawn[i]);
    }
  }

  /** The items the renderer builds before sorting, one per input triangle and in input order. */
  function Items(tris: seq<Triangle>, view: View, ops: Ops): (items: seq<Item>)
    requires ops.sqrt(LightNormSquared) != 0.0
    ensures |items| == |tris|
  {
    seq(|tris|, i requires 0 <= i < |tris| => MakeItem(tris[i], view, ops))
  }

  lemma ItemsExtend(tris: seq<Triangle>, i: nat, view: View, ops: Ops)
    requires ops.sqrt(LightNormSquared) != 0.0 && i < |tris|
    ensures Items(tris[..i + 1], view, ops) == Items(tris[..i], view, ops) + [MakeItem(tris[i], view, ops)]
  {
    assert tris[..i + 1][i] == tris[i];
    assert forall k :: 0 <= k < i ==> tris[..i + 1][k] == tris[..i][k];
  }

  /** The polygons written to the picture, one per item and in painting order. */
  method DrawAll(items: seq<Item>, frame: Frame) returns (polygons: seq<Polygon>)
    ensures |polygons| == |items|
    ensures forall j :: 0 <= j < |items| ==> polygons[j] == Draw(items[j], frame)
  {
    polygons := [];
    for i := 0 to |items|
      invariant |polygons| == i
      invariant forall j :: 0 <= j < i ==> polygons[j] == Draw(items[j], frame)
    {
      polygons := polygons + [Draw(items[i], frame)];
    }
  }

  /** min() of an empty list of coordinates. */
  datatype RenderError = EmptyMesh

  /** The drawn scene: the items in painting order and one polygon per item. */
  datatype Render = Render(items: seq<Item>, polygons: seq<Polygon>)

  /**
   * The renderer: one polygon per triangle, painted back to front by depth,
   * with every input triangle drawn exactly once. An empty mesh is an error.
   */
  method RenderSvg(tris: seq<Triangle>, view: View, ops: Ops) returns (result: Result<Render, RenderError>)
    requires ops.sqrt(LightNormSquared) != 0.0
    ensures result.Failure? <==> tris == []
    ensures result.Success? ==>
      var items := result.value.items;
      var polygons := result.value.polygons;
      && items == SortByDepth(Items(tris, view, ops))
      && SortedByDepth(items)
      && multiset(items) == multiset(Items(tris, view, ops))
      && |polygons| == |tris|
      && (forall i :: 0 <= i < |polygons| ==> polygons[i] == Draw(items[i], MakeFrame(Items(tris, view, ops), view)))
      && (view.width > 0 && view.height > 0 ==>
            forall i, p :: 0 <= i < |polygons| && p in polygons[i].points ==> InPicture(p, view))
  {
    var rotated: seq<Item> := [];
    for i := 0 to |tris|
      invariant rotated == Items(tris[..i], view, ops)
    {
      var t := tris[i];
      var rtri := RotateTriangle(t, view, ops);
      var depth := (0.0 + rtri.a.z + rtri.b.z + rtri.c.z) / 3.0;
      ItemsExtend(tris, i, view, ops);
      rotated := rotated + [Item(rtri, depth, Shade(rtri, ops.sqrt))];
    }
    assert tris[..|tris|] == tris;
    if rotated == [] {
      return Failure(EmptyMesh);
    }
    var frame := MakeFrame(rotated, view);
    rotated := SortByDepth(rotated);
    var polygons := DrawAll(rotated, frame);
    if view.width > 0 && view.height > 0 {
      PolygonsInside(Items(tris, view, ops), rotated, polygons, view);
    }
    return Success(Render(rotated, polygons));
  }
}
