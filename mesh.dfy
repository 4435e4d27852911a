/**
 * The fallback STL backend of the stencil generator: facet normals, the
 * twelve-triangle box cut for each slot, the ASCII STL text, and the triangle
 * list assembled from every slot of the grid.
 */
module Mesh {
  import opened Results
  import opened Numerics
  import opened Vectors
  import opened Text
  import opened Lattice

  /** The unit facet normal: the face cross product scaled to length 1, or zero when it has no length. */
  function Normal(t: Triangle, sqrt: real -> real): (n: Vec3)
    ensures Cross(n, FaceCross(t)) == Zero
    ensures FaceCross(t) == Zero ==> n == Zero
  {
    var cr := FaceCross(t);
    var mag := sqrt(Dot(cr, cr));
    if mag == 0.0 then Zero
    else
      DivIsTimesInverse(cr, mag);
      CrossScaled(1.0 / mag, cr);
      Vec3(cr.x / mag, cr.y / mag, cr.z / mag)
  }

  /**
   * A degenerate face gets the zero normal; otherwise the normal has length 1
   * and points along the face cross product (parallel to it, on its side).
   */
  lemma NormalDirection(t: Triangle, sqrt: real -> real)
    requires SqrtSound(sqrt)
    ensures FaceCross(t) == Zero ==> Normal(t, sqrt) == Zero
    ensures sqrt(Dot(FaceCross(t), FaceCross(t))) == 0.0 ==> Normal(t, sqrt) == Zero
    ensures sqrt(Dot(FaceCross(t), FaceCross(t))) != 0.0 ==>
      var n := Normal(t, sqrt);
      Dot(n, n) == 1.0 && Cross(n, FaceCross(t)) == Zero && Dot(n, FaceCross(t)) > 0.0
  {
    var cr := FaceCross(t);
    DotSelfNonNegative(cr);
    var mag := sqrt(Dot(cr, cr));
    assert 0.0 <= mag && mag * mag == Dot(cr, cr);
    if mag != 0.0 {
      DivIsTimesInverse(cr, mag);
      ScaledUnit(cr, 1.0 / mag, mag);
    }
  }

  /** A triangle as three indices into a box's eight corners. */
  datatype Face = Face(i: nat, j: nat, k: nat)

  /** The face table as written: every triangle is wound towards the inside of the box. */
  const FacesAsWritten: seq<Face> := [
    Face(0, 1, 2), Face(0, 2, 3),
    Face(4, 6, 5), Face(4, 7, 6),
    Face(0, 4, 5), Face(0, 5, 1),
    Face(1, 5, 6), Face(1, 6, 2),
    Face(2, 6, 7), Face(2, 7, 3),
    Face(3, 7, 4), Face(3, 4, 0)]

  /** The face table with each triangle's last two corners swapped, so that it winds outwards. */
  const Faces: seq<Face> := [
    Face(0, 2, 1), Face(0, 3, 2),
    Face(4, 5, 6), Face(4, 6, 7),
    Face(0, 5, 4), Face(0, 1, 5),
    Face(1, 6, 5), Face(1, 2, 6),
    Face(2, 7, 6), Face(2, 3, 7),
    Face(3, 4, 7), Face(3, 0, 4)]

  function Flip(f: Face): Face {
    Face(f.i, f.k, f.j)
  }

  predicate InBox(f: Face) {
    f.i < 8 && f.j < 8 && f.k < 8
  }

  /** The box of half-extents hl, hw, hh centred on the origin: bottom ring, then top ring. */
  function LocalCorners(hl: real, hw: real, hh: real): (cs: seq<Vec3>)
    ensures |cs| == 8
  {
    [Vec3(-hl, -hw, -hh), Vec3(hl, -hw, -hh), Vec3(hl, hw, -hh), Vec3(-hl, hw, -hh),
     Vec3(-hl, -hw, hh), Vec3(hl, -hw, hh), Vec3(hl, hw, hh), Vec3(-hl, hw, hh)]
  }

  function FaceTriangle(corners: seq<Vec3>, f: Face): Triangle
    requires |corners| == 8 && InBox(f)
  {
    Triangle(corners[f.i], corners[f.j], corners[f.k])
  }

  /**
   * The corrected table is the written one with every triangle flipped; both
   * tables use only the eight corners.
   */
  lemma FaceTables()
    ensures |FacesAsWritten| == 12 && |Faces| == 12
    ensures forall n :: 0 <= n < 12 ==> InBox(FacesAsWritten[n]) && Faces[n] == Flip(FacesAsWritten[n])
  {
  }

  /** Swapping two vertices of a triangle reverses its face cross product. */
  lemma FlipReversesCross(t: Triangle)
    ensures FaceCross(Triangle(t.a, t.c, t.b)) == Times(-1.0, FaceCross(t))
  {
  }

  lemma ProductPositive(a: real, b: real, c: real)
    requires a > 0.0 && b > 0.0 && c > 0.0
    ensures a * b * c > 0.0
  {
    assert a * b > 0.0 * b;
    assert (a * b) * c > 0.0 * c;
  }

  /**
   * The as-written face table winds every one of the twelve triangles inwards:
   * its face cross product points towards the box's centre, for any box with
   * positive extents.
   */
  lemma AsWrittenFacesWindInward(hl: real, hw: real, hh: real, n: nat)
    requires hl > 0.0 && hw > 0.0 && hh > 0.0 && n < 12
    ensures InBox(FacesAsWritten[n])
    ensures var t := FaceTriangle(LocalCorners(hl, hw, hh), FacesAsWritten[n]);
      Dot(FaceCross(t), t.a) < 0.0
  {
    ProductPositive(hl, hw, hh);
    var t := FaceTriangle(LocalCorners(hl, hw, hh), FacesAsWritten[n]);
    assert Dot(FaceCross(t), t.a) == -4.0 * (hl * hw * hh);
  }

  /** The corrected face table winds every triangle outwards. */
  lemma FacesWindOutward(hl: real, hw: real, hh: real, n: nat)
    requires hl > 0.0 && hw > 0.0 && hh > 0.0 && n < 12
    ensures InBox(Faces[n])
    ensures var t := FaceTriangle(LocalCorners(hl, hw, hh), Faces[n]);
      Dot(FaceCross(t), t.a) > 0.0
  {
    FaceTables();
    AsWrittenFacesWindInward(hl, hw, hh, n);
    var cs := LocalCorners(hl, hw, hh);
    var w := FaceTriangle(cs, FacesAsWritten[n]);
    assert FaceTriangle(cs, Faces[n]) == Triangle(w.a, w.c, w.b);
    FlipTurnsOutward(w);
  }

  /** A triangle wound inwards, flipped, is wound outwards. */
  lemma FlipTurnsOutward(t: Triangle)
    requires Dot(FaceCross(t), t.a) < 0.0
    ensures Dot(FaceCross(Triangle(t.a, t.c, t.b)), t.a) > 0.0
  {
    FlipReversesCross(t);
  }

  /**
   * The direction from each face of the box towards its centre, one per pair
   * of triangles in the written table: bottom, top, front, right, back, left.
   */
  const InwardAxes: seq<Vec3> := [
    Vec3(0.0, 0.0, 1.0), Vec3(0.0, 0.0, -1.0),
    Vec3(0.0, 1.0, 0.0), Vec3(-1.0, 0.0, 0.0),
    Vec3(0.0, -1.0, 0.0), Vec3(1.0, 0.0, 0.0)]

  /** The six face directions are the six axis directions, each once. */
  lemma InwardAxesCoverAxes()
    ensures |InwardAxes| == 6
    ensures forall f, g :: 0 <= f < g < 6 ==> InwardAxes[f] != InwardAxes[g]
    ensures (set f | 0 <= f < 6 :: InwardAxes[f]) ==
      {Vec3(1.0, 0.0, 0.0), Vec3(-1.0, 0.0, 0.0), Vec3(0.0, 1.0, 0.0),
       Vec3(0.0, -1.0, 0.0), Vec3(0.0, 0.0, 1.0), Vec3(0.0, 0.0, -1.0)}
  {
    var axes := set f | 0 <= f < 6 :: InwardAxes[f];
    assert InwardAxes[0] in axes && InwardAxes[1] in axes && InwardAxes[2] in axes;
    assert InwardAxes[3] in axes && InwardAxes[4] in axes && InwardAxes[5] in axes;
  }

  /** How far face pair f lies from the centre along its axis. */
  function FaceExtent(hl: real, hw: real, hh: real, f: nat): real
    requires f < 6
  {
    if f < 2 then hh else if f == 3 || f == 5 then hl else hw
  }

  /** Twice the area of one triangle of face pair f: the length of its cross product. */
  function FaceScale(hl: real, hw: real, hh: real, f: nat): real
    requires f < 6
  {
    if f < 2 then 4.0 * (hl * hw) else if f == 3 || f == 5 then 4.0 * (hw * hh) else 4.0 * (hl * hh)
  }

  /** The corner indices a face uses. */
  function FaceCorners(face: Face): set<nat> {
    {face.i, face.j, face.k}
  }

  /** The corners of the box that lie in the plane of face pair f. */
  function CornersOnFace(hl: real, hw: real, hh: real, f: nat): set<nat>
    requires f < 6
  {
    var cs := LocalCorners(hl, hw, hh);
    set m: nat | m < 8 && Dot(cs[m], InwardAxes[f]) == -FaceExtent(hl, hw, hh, f)
  }

  /**
   * The written table covers the box face by face: triangles 2f and 2f + 1
   * together use exactly the four corners in the plane of face f, and both
   * have a cross product that is the same positive multiple of that face's
   * inward axis. With InwardAxesCoverAxes, the twelve triangles are two on
   * each of the six faces, every face direction once.
   */
  lemma AsWrittenFacePairs(hl: real, hw: real, hh: real, f: nat)
    requires hl > 0.0 && hw > 0.0 && hh > 0.0 && f < 6
    ensures InBox(FacesAsWritten[2 * f]) && InBox(FacesAsWritten[2 * f + 1])
    ensures FaceScale(hl, hw, hh, f) > 0.0
    ensures FaceCorners(FacesAsWritten[2 * f]) + FaceCorners(FacesAsWritten[2 * f + 1])
         == CornersOnFace(hl, hw, hh, f)
    ensures |CornersOnFace(hl, hw, hh, f)| == 4
    ensures var cs := LocalCorners(hl, hw, hh);
      FaceCross(FaceTriangle(cs, FacesAsWritten[2 * f])) == Times(FaceScale(hl, hw, hh, f), InwardAxes[f]) &&
      FaceCross(FaceTriangle(cs, FacesAsWritten[2 * f + 1])) == Times(FaceScale(hl, hw, hh, f), InwardAxes[f])
  {
    FaceScalePositive(hl, hw, hh, f);
    FacePairCorners(hl, hw, hh, f);
    FacePairCornerCount(f);
    FacePairCross(hl, hw, hh, f);
  }

  /** A box of positive extents gives every face a positive scale. */
  lemma FaceScalePositive(hl: real, hw: real, hh: real, f: nat)
    requires hl > 0.0 && hw > 0.0 && hh > 0.0 && f < 6
    ensures FaceScale(hl, hw, hh, f) > 0.0
  {
    if f < 2 {
      assert hl * hw > 0.0 * hw;
    } else if f == 3 || f == 5 {
      assert hw * hh > 0.0 * hh;
    } else {
      assert hl * hh > 0.0 * hh;
    }
  }

  /** The corners a written pair of triangles uses are the corners in the plane of its face. */
  lemma FacePairCorners(hl: real, hw: real, hh: real, f: nat)
    requires hl > 0.0 && hw > 0.0 && hh > 0.0 && f < 6
    ensures FaceCorners(FacesAsWritten[2 * f]) + FaceCorners(FacesAsWritten[2 * f + 1])
         == CornersOnFace(hl, hw, hh, f)
  {
    var cs := LocalCorners(hl, hw, hh);
    var on := CornersOnFace(hl, hw, hh, f);
    var want := FaceCorners(FacesAsWritten[2 * f]) + FaceCorners(FacesAsWritten[2 * f + 1]);
    forall m: nat | m < 8
      ensures m in on <==> m in want
    {
      assert m in on <==> Dot(cs[m], InwardAxes[f]) == -FaceExtent(hl, hw, hh, f);
    }
    assert on == want;
  }

  /** Both triangles of a written pair have the same cross product, along the face's inward axis. */
  lemma FacePairCross(hl: real, hw: real, hh: real, f: nat)
    requires f < 6
    ensures InBox(FacesAsWritten[2 * f]) && InBox(FacesAsWritten[2 * f + 1])
    ensures var cs := LocalCorners(hl, hw, hh);
      FaceCross(FaceTriangle(cs, FacesAsWritten[2 * f])) == Times(FaceScale(hl, hw, hh, f), InwardAxes[f]) &&
      FaceCross(FaceTriangle(cs, FacesAsWritten[2 * f + 1])) == Times(FaceScale(hl, hw, hh, f), InwardAxes[f])
  {
    var cs := LocalCorners(hl, hw, hh);
    WrittenFaceEntries();
    assert cs[0] == Vec3(-hl, -hw, -hh) && cs[1] == Vec3(hl, -hw, -hh);
    assert cs[2] == Vec3(hl, hw, -hh) && cs[3] == Vec3(-hl, hw, -hh);
    assert cs[4] == Vec3(-hl, -hw, hh) && cs[5] == Vec3(hl, -hw, hh);
    assert cs[6] == Vec3(hl, hw, hh) && cs[7] == Vec3(-hl, hw, hh);
    var d := Times(FaceScale(hl, hw, hh, f), InwardAxes[f]);
    if f == 0 {
      assert d == Vec3(0.0, 0.0, 4.0 * (hl * hw));
      BottomCross(hl, hw, hh);
    } else if f == 1 {
      assert d == Vec3(0.0, 0.0, -4.0 * (hl * hw));
      TopCross(hl, hw, hh);
    } else if f == 2 {
      assert d == Vec3(0.0, 4.0 * (hl * hh), 0.0);
      FrontCross(hl, hw, hh);
    } else if f == 3 {
      assert d == Vec3(-4.0 * (hw * hh), 0.0, 0.0);
      RightCross(hl, hw, hh);
    } else if f == 4 {
      assert d == Vec3(0.0, -4.0 * (hl * hh), 0.0);
      BackCross(hl, hw, hh);
    } else {
      assert d == Vec3(4.0 * (hw * hh), 0.0, 0.0);
      LeftCross(hl, hw, hh);
    }
  }

  /** The two written triangles on the bottom face, z = -hh. */
  lemma BottomCross(hl: real, hw: real, hh: real)
    ensures FaceCross(Triangle(Vec3(-hl, -hw, -hh), Vec3(hl, -hw, -hh), Vec3(hl, hw, -hh))) == Vec3(0.0, 0.0, 4.0 * (hl * hw))
    ensures FaceCross(Triangle(Vec3(-hl, -hw, -hh), Vec3(hl, hw, -hh), Vec3(-hl, hw, -hh))) == Vec3(0.0, 0.0, 4.0 * (hl * hw))
  {
  }

  /** The two written triangles on the top face, z = hh. */
  lemma TopCross(hl: real, hw: real, hh: real)
    ensures FaceCross(Triangle(Vec3(-hl, -hw, hh), Vec3(hl, hw, hh), Vec3(hl, -hw, hh))) == Vec3(0.0, 0.0, -4.0 * (hl * hw))
    ensures FaceCross(Triangle(Vec3(-hl, -hw, hh), Vec3(-hl, hw, hh), Vec3(hl, hw, hh))) == Vec3(0.0, 0.0, -4.0 * (hl * hw))
  {
  }

  /** The two written triangles on the front face, y = -hw. */
  lemma FrontCross(hl: real, hw: real, hh: real)
    ensures FaceCross(Triangle(Vec3(-hl, -hw, -hh), Vec3(-hl, -hw, hh), Vec3(hl, -hw, hh))) == Vec3(0.0, 4.0 * (hl * hh), 0.0)
    ensures FaceCross(Triangle(Vec3(-hl, -hw, -hh), Vec3(hl, -hw, hh), Vec3(hl, -hw, -hh))) == Vec3(0.0, 4.0 * (hl * hh), 0.0)
  {
  }

  /** The two written triangles on the right face, x = hl. */
  lemma RightCross(hl: real, hw: real, hh: real)
    ensures FaceCross(Triangle(Vec3(hl, -hw, -hh), Vec3(hl, -hw, hh), Vec3(hl, hw, hh))) == Vec3(-4.0 * (hw * hh), 0.0, 0.0)
    ensures FaceCross(Triangle(Vec3(hl, -hw, -hh), Vec3(hl, hw, hh), Vec3(hl, hw, -hh))) == Vec3(-4.0 * (hw * hh), 0.0, 0.0)
  {
  }

  /** The two written triangles on the back face, y = hw. */
  lemma BackCross(hl: real, hw: real, hh: real)
    ensures FaceCross(Triangle(Vec3(hl, hw, -hh), Vec3(hl, hw, hh), Vec3(-hl, hw, hh))) == Vec3(0.0, -4.0 * (hl * hh), 0.0)
    ensures FaceCross(Triangle(Vec3(hl, hw, -hh), Vec3(-hl, hw, hh), Vec3(-hl, hw, -hh))) == Vec3(0.0, -4.0 * (hl * hh), 0.0)
  {
  }

  /** The two written triangles on the left face, x = -hl. */
  lemma LeftCross(hl: real, hw: real, hh: real)
    ensures FaceCross(Triangle(Vec3(-hl, hw, -hh), Vec3(-hl, hw, hh), Vec3(-hl, -hw, hh))) == Vec3(4.0 * (hw * hh), 0.0, 0.0)
    ensures FaceCross(Triangle(Vec3(-hl, hw, -hh), Vec3(-hl, -hw, hh), Vec3(-hl, -hw, -hh))) == Vec3(4.0 * (hw * hh), 0.0, 0.0)
  {
  }

  /** The entries of the written face table. */
  lemma WrittenFaceEntries()
    ensures FacesAsWritten[0] == Face(0, 1, 2) && FacesAsWritten[1] == Face(0, 2, 3)
    ensures FacesAsWritten[2] == Face(4, 6, 5) && FacesAsWritten[3] == Face(4, 7, 6)
    ensures FacesAsWritten[4] == Face(0, 4, 5) && FacesAsWritten[5] == Face(0, 5, 1)
    ensures FacesAsWritten[6] == Face(1, 5, 6) && FacesAsWritten[7] == Face(1, 6, 2)
    ensures FacesAsWritten[8] == Face(2, 6, 7) && FacesAsWritten[9] == Face(2, 7, 3)
    ensures FacesAsWritten[10] == Face(3, 7, 4) && FacesAsWritten[11] == Face(3, 4, 0)
  {
  }

  /** Each pair of triangles in the written table spans four distinct corners. */
  lemma FacePairCornerCount(f: nat)
    requires f < 6
    ensures |FaceCorners(FacesAsWritten[2 * f]) + FaceCorners(FacesAsWritten[2 * f + 1])| == 4
  {
    WrittenFaceEntries();
    var both := FaceCorners(FacesAsWritten[2 * f]) + FaceCorners(FacesAsWritten[2 * f + 1]);
    if f == 0 { assert both == {0, 1, 2, 3}; }
    else if f == 1 { assert both == {4, 5, 6, 7}; }
    else if f == 2 { assert both == {0, 1, 4, 5}; }
    else if f == 3 { assert both == {1, 2, 5, 6}; }
    else if f == 4 { assert both == {2, 3, 6, 7}; }
    else { assert both == {0, 3, 4, 7}; }
  }

  /**
   * The corrected table uses the same corners face by face, and its cross
   * products are the written ones reversed: a positive multiple of each
   * face's outward axis.
   */
  lemma FacePairs(hl: real, hw: real, hh: real, f: nat)
    requires hl > 0.0 && hw > 0.0 && hh > 0.0 && f < 6
    ensures InBox(Faces[2 * f]) && InBox(Faces[2 * f + 1])
    ensures FaceCorners(Faces[2 * f]) + FaceCorners(Faces[2 * f + 1]) == CornersOnFace(hl, hw, hh, f)
    ensures FaceScale(hl, hw, hh, f) > 0.0
    ensures var cs := LocalCorners(hl, hw, hh);
      FaceCross(FaceTriangle(cs, Faces[2 * f])) == Times(-FaceScale(hl, hw, hh, f), InwardAxes[f]) &&
      FaceCross(FaceTriangle(cs, Faces[2 * f + 1])) == Times(-FaceScale(hl, hw, hh, f), InwardAxes[f])
  {
    var cs := LocalCorners(hl, hw, hh);
    var k := FaceScale(hl, hw, hh, f);
    var p, q := FacesAsWritten[2 * f], FacesAsWritten[2 * f + 1];
    assert Faces[2 * f] == Flip(p) && Faces[2 * f + 1] == Flip(q) && InBox(p) && InBox(q) by { FaceTables(); }
    assert FaceCorners(Flip(p)) == FaceCorners(p) && FaceCorners(Flip(q)) == FaceCorners(q);
    FaceScalePositive(hl, hw, hh, f);
    FacePairCorners(hl, hw, hh, f);
    FacePairCross(hl, hw, hh, f);
    FlippedCross(cs, p, k, InwardAxes[f]);
    FlippedCross(cs, q, k, InwardAxes[f]);
  }

  /** Flipping a face whose cross product is k d gives the cross product -k d. */
  lemma FlippedCross(cs: seq<Vec3>, face: Face, k: real, d: Vec3)
    requires |cs| == 8 && InBox(face) && FaceCross(FaceTriangle(cs, face)) == Times(k, d)
    ensures FaceCross(FaceTriangle(cs, Flip(face))) == Times(-k, d)
  {
    var t := FaceTriangle(cs, face);
    assert FaceTriangle(cs, Flip(face)) == Triangle(t.a, t.c, t.b);
    FlipReversesCross(t);
  }

  /** A local corner turned by the slot's angle, moved to the slot's centre and lifted onto the plate. */
  function PlaceCorner(v: Vec3, cx: real, cy: real, cosA: real, sinA: real, hh: real): Vec3 {
    Vec3(v.x * cosA - v.y * sinA + cx, v.x * sinA + v.y * cosA + cy, v.z + hh)
  }

  /** The eight corners of the slot box that a segment cuts. */
  function BoxCorners(s: Segment, width: real, height: real, ops: Ops): (cs: seq<Vec3>)
    ensures |cs| == 8
  {
    var local := LocalCorners(0.5 * s.length, 0.5 * width, 0.5 * height);
    var angle := ops.radians(s.angle);
    seq(8, m requires 0 <= m < 8 =>
      PlaceCorner(local[m], s.cx, s.cy, ops.cos(angle), ops.sin(angle), 0.5 * height))
  }

  /** Every corner sits on the plate's bottom face or its top face. */
  lemma BoxCornerHeights(s: Segment, width: real, height: real, ops: Ops)
    ensures forall m :: 0 <= m < 8 ==>
      BoxCorners(s, width, height, ops)[m].z == 0.0 || BoxCorners(s, width, height, ops)[m].z == height
  {
  }

  /** The twelve triangles of the slot box, from the face table as written. */
  function BoxTriangleList(s: Segment, width: real, height: real, ops: Ops): (tris: seq<Triangle>)
    ensures |tris| == 12
  {
    FaceTables();
    var cs := BoxCorners(s, width, height, ops);
    seq(12, n requires 0 <= n < 12 => FaceTriangle(cs, FacesAsWritten[n]))
  }

  function FlipTriangle(t: Triangle): Triangle {
    Triangle(t.a, t.c, t.b)
  }

  /** The box from the corrected face table: the written box with every triangle flipped. */
  function OutwardBoxTriangleList(s: Segment, width: real, height: real, ops: Ops): (tris: seq<Triangle>)
    ensures |tris| == 12
    ensures forall n :: 0 <= n < 12 ==> tris[n] == FlipTriangle(BoxTriangleList(s, width, height, ops)[n])
  {
    FaceTables();
    var cs := BoxCorners(s, width, height, ops);
    seq(12, n requires 0 <= n < 12 => FaceTriangle(cs, Faces[n]))
  }

  /** The centre of a slot box: the segment's centre, half the plate's thickness up. */
  function BoxCentre(s: Segment, height: real): Vec3 {
    Vec3(s.cx, s.cy, 0.5 * height)
  }

  /** A turn by (c, s) about the z axis. */
  function TurnZ(v: Vec3, c: real, s: real): Vec3 {
    Vec3(v.x * c - v.y * s, v.x * s + v.y * c, v.z)
  }

  function PlaceTriangle(t: Triangle, cx: real, cy: real, c: real, s: real, hh: real): Triangle {
    Triangle(PlaceCorner(t.a, cx, cy, c, s, hh), PlaceCorner(t.b, cx, cy, c, s, hh), PlaceCorner(t.c, cx, cy, c, s, hh))
  }

  /** Placing moves differences of corners by the turn alone. */
  lemma PlaceDifference(u: Vec3, w: Vec3, cx: real, cy: real, c: real, s: real, hh: real)
    ensures Sub(PlaceCorner(u, cx, cy, c, s, hh), PlaceCorner(w, cx, cy, c, s, hh)) == TurnZ(Sub(u, w), c, s)
    ensures Sub(PlaceCorner(u, cx, cy, c, s, hh), Vec3(cx, cy, hh)) == TurnZ(u, c, s)
  {
  }

  /** A turn commutes with the cross product. */
  lemma CrossTurn(u: Vec3, w: Vec3, c: real, s: real)
    requires c * c + s * s == 1.0
    ensures Cross(TurnZ(u, c, s), TurnZ(w, c, s)) == TurnZ(Cross(u, w), c, s)
  {
    var l, r := Cross(TurnZ(u, c, s), TurnZ(w, c, s)), TurnZ(Cross(u, w), c, s);
    CrossTurnX(u, w, c, s);
    CrossTurnY(u, w, c, s);
    CrossTurnZ(u, w, c, s);
    assert l == Vec3(l.x, l.y, l.z) && r == Vec3(r.x, r.y, r.z);
  }

  lemma CrossTurnX(u: Vec3, w: Vec3, c: real, s: real)
    ensures Cross(TurnZ(u, c, s), TurnZ(w, c, s)).x == TurnZ(Cross(u, w), c, s).x
  {
    var tu, tw, cr := TurnZ(u, c, s), TurnZ(w, c, s), Cross(u, w);
    TurnZParts(u, c, s);
    TurnZParts(w, c, s);
    TurnCrossX(u.x, u.y, u.z, w.x, w.y, w.z, c, s, tu.y, tu.z, tw.y, tw.z, cr.x, cr.y);
  }

  lemma CrossTurnY(u: Vec3, w: Vec3, c: real, s: real)
    ensures Cross(TurnZ(u, c, s), TurnZ(w, c, s)).y == TurnZ(Cross(u, w), c, s).y
  {
    var tu, tw, cr := TurnZ(u, c, s), TurnZ(w, c, s), Cross(u, w);
    TurnZParts(u, c, s);
    TurnZParts(w, c, s);
    TurnCrossY(u.x, u.y, u.z, w.x, w.y, w.z, c, s, tu.x, tu.z, tw.x, tw.z, cr.x, cr.y);
  }

  /** The x coordinate of CrossTurn, over the coordinates as plain numbers. */
  lemma TurnCrossX(a: real, b: real, z: real, p: real, q: real, r: real, c: real, s: real,
                   uy: real, uz: real, wy: real, wz: real, cx: real, cy: real)
    requires uy == a * s + b * c && uz == z && wy == p * s + q * c && wz == r
    requires cx == b * r - z * q && cy == z * p - a * r
    ensures uy * wz - uz * wy == cx * c - cy * s
  {
    calc {
      uy * wz - uz * wy;
      (a * s + b * c) * r - z * (p * s + q * c);
      (b * r - z * q) * c - (z * p - a * r) * s;
      cx * c - cy * s;
    }
  }

  /** The y coordinate of CrossTurn, over the coordinates as plain numbers. */
  lemma TurnCrossY(a: real, b: real, z: real, p: real, q: real, r: real, c: real, s: real,
                   ux: real, uz: real, wx: real, wz: real, cx: real, cy: real)
    requires ux == a * c - b * s && uz == z && wx == p * c - q * s && wz == r
    requires cx == b * r - z * q && cy == z * p - a * r
    ensures uz * wx - ux * wz == cx * s + cy * c
  {
    calc {
      uz * wx - ux * wz;
      z * (p * c - q * s) - (a * c - b * s) * r;
      (b * r - z * q) * s + (z * p - a * r) * c;
      cx * s + cy * c;
    }
  }

  lemma CrossTurnZ(u: Vec3, w: Vec3, c: real, s: real)
    requires c * c + s * s == 1.0
    ensures Cross(TurnZ(u, c, s), TurnZ(w, c, s)).z == TurnZ(Cross(u, w), c, s).z
  {
    var tu, tw, cr := TurnZ(u, c, s), TurnZ(w, c, s), Cross(u, w);
    TurnZParts(u, c, s);
    TurnZParts(w, c, s);
    TurnCrossZ(u.x, u.y, w.x, w.y, c, s, tu.x, tu.y, tw.x, tw.y, cr.z);
  }

  lemma TurnZParts(v: Vec3, c: real, s: real)
    ensures TurnZ(v, c, s).x == v.x * c - v.y * s && TurnZ(v, c, s).y == v.x * s + v.y * c
  {
  }

  /** The z coordinate of CrossTurn, over the coordinates as plain numbers. */
  lemma TurnCrossZ(a: real, b: real, p: real, q: real, c: real, s: real,
                   ux: real, uy: real, wx: real, wy: real, cz: real)
    requires c * c + s * s == 1.0
    requires ux == a * c - b * s && uy == a * s + b * c && wx == p * c - q * s && wy == p * s + q * c
    requires cz == a * q - b * p
    ensures ux * wy - uy * wx == cz
  {
    calc {
      ux * wy - uy * wx;
      (a * c - b * s) * (p * s + q * c) - (a * s + b * c) * (p * c - q * s);
      { TurnCrossTerms(a, b, p, q, c, s); }
      a * q - b * p;
    }
  }

  /** The z coordinate of CrossTurn, as an identity between polynomials. */
  lemma TurnCrossTerms(a: real, b: real, p: real, q: real, c: real, s: real)
    requires c * c + s * s == 1.0
    ensures (a * c - b * s) * (p * s + q * c) - (a * s + b * c) * (p * c - q * s) == a * q - b * p
  {
    calc {
      (a * c - b * s) * (p * s + q * c) - (a * s + b * c) * (p * c - q * s);
      (a * c * p * s + a * c * q * c - b * s * p * s - b * s * q * c)
        - (a * s * p * c - a * s * q * s + b * c * p * c - b * c * q * s);
      (c * c + s * s) * (a * q - b * p);
      a * q - b * p;
    }
  }

  /** A turn keeps dot products. */
  lemma DotTurn(u: Vec3, w: Vec3, c: real, s: real)
    requires c * c + s * s == 1.0
    ensures Dot(TurnZ(u, c, s), TurnZ(w, c, s)) == Dot(u, w)
  {
    calc {
      Dot(TurnZ(u, c, s), TurnZ(w, c, s));
      (c * c + s * s) * (u.x * w.x + u.y * w.y) + u.z * w.z;
      Dot(u, w);
    }
  }

  /** Turning and moving a triangle keeps which side of the centre its cross product faces. */
  lemma PlacedWinding(t: Triangle, cx: real, cy: real, c: real, s: real, hh: real)
    requires c * c + s * s == 1.0
    ensures var p := PlaceTriangle(t, cx, cy, c, s, hh);
      Dot(FaceCross(p), Sub(p.a, Vec3(cx, cy, hh))) == Dot(FaceCross(t), t.a)
  {
    PlaceDifference(t.b, t.a, cx, cy, c, s, hh);
    PlaceDifference(t.c, t.a, cx, cy, c, s, hh);
    PlaceDifference(t.a, t.a, cx, cy, c, s, hh);
    CrossTurn(Sub(t.b, t.a), Sub(t.c, t.a), c, s);
    DotTurn(FaceCross(t), t.a, c, s);
  }

  /** Triangle n of the box is the local triangle, placed. */
  lemma BoxTrianglePlaced(seg: Segment, width: real, height: real, ops: Ops, n: nat)
    requires n < 12
    ensures var angle := ops.radians(seg.angle);
      var local := LocalCorners(0.5 * seg.length, 0.5 * width, 0.5 * height);
      && InBox(FacesAsWritten[n]) && InBox(Faces[n])
      && BoxTriangleList(seg, width, height, ops)[n]
         == PlaceTriangle(FaceTriangle(local, FacesAsWritten[n]), seg.cx, seg.cy, ops.cos(angle), ops.sin(angle), 0.5 * height)
      && OutwardBoxTriangleList(seg, width, height, ops)[n]
         == PlaceTriangle(FaceTriangle(local, Faces[n]), seg.cx, seg.cy, ops.cos(angle), ops.sin(angle), 0.5 * height)
  {
    FaceTables();
  }

  /**
   * The box the program writes is wound inwards: for a slot of positive
   * length, width and height, every triangle's cross product points towards
   * the box's centre.
   */
  lemma BoxWindsInward(seg: Segment, width: real, height: real, ops: Ops, n: nat)
    requires TrigSound(ops) && seg.length > 0.0 && width > 0.0 && height > 0.0 && n < 12
    ensures var t := BoxTriangleList(seg, width, height, ops)[n];
      Dot(FaceCross(t), Sub(t.a, BoxCentre(seg, height))) < 0.0
  {
    var hl, hw, hh := 0.5 * seg.length, 0.5 * width, 0.5 * height;
    BoxTrianglePlaced(seg, width, height, ops, n);
    AsWrittenFacesWindInward(hl, hw, hh, n);
    BoxWinding(seg, height, ops, BoxTriangleList(seg, width, height, ops)[n], FaceTriangle(LocalCorners(hl, hw, hh), FacesAsWritten[n]));
  }

  /** The corrected box is wound outwards. */
  lemma OutwardBoxWindsOutward(seg: Segment, width: real, height: real, ops: Ops, n: nat)
    requires TrigSound(ops) && seg.length > 0.0 && width > 0.0 && height > 0.0 && n < 12
    ensures var t := OutwardBoxTriangleList(seg, width, height, ops)[n];
      Dot(FaceCross(t), Sub(t.a, BoxCentre(seg, height))) > 0.0
  {
    var hl, hw, hh := 0.5 * seg.length, 0.5 * width, 0.5 * height;
    BoxTrianglePlaced(seg, width, height, ops, n);
    FacesWindOutward(hl, hw, hh, n);
    BoxWinding(seg, height, ops, OutwardBoxTriangleList(seg, width, height, ops)[n], FaceTriangle(LocalCorners(hl, hw, hh), Faces[n]));
  }

  /** A triangle placed in the slot faces the box centre as the local triangle faces the origin. */
  lemma BoxWinding(seg: Segment, height: real, ops: Ops, t: Triangle, local: Triangle)
    requires TrigSound(ops)
    requires var angle := ops.radians(seg.angle);
      t == PlaceTriangle(local, seg.cx, seg.cy, ops.cos(angle), ops.sin(angle), 0.5 * height)
    ensures Dot(FaceCross(t), Sub(t.a, BoxCentre(seg, height))) == Dot(FaceCross(local), local.a)
  {
    var angle := ops.radians(seg.angle);
    var co, si := ops.cos(angle), ops.sin(angle);
    assert co * co + si * si == 1.0;
    PlacedWinding(local, seg.cx, seg.cy, co, si, 0.5 * height);
  }

  /**
   * So the facet normal the program writes for its box points into the box,
   * and the corrected table's normal points out of it.
   */
  lemma BoxNormalsPointInward(seg: Segment, width: real, height: real, ops: Ops, n: nat)
    requires TrigSound(ops) && SqrtSound(ops.sqrt) && seg.length > 0.0 && width > 0.0 && height > 0.0 && n < 12
    ensures var t := BoxTriangleList(seg, width, height, ops)[n];
      Dot(Normal(t, ops.sqrt), Sub(t.a, BoxCentre(seg, height))) < 0.0
    ensures var t := OutwardBoxTriangleList(seg, width, height, ops)[n];
      Dot(Normal(t, ops.sqrt), Sub(t.a, BoxCentre(seg, height))) > 0.0
  {
    BoxWindsInward(seg, width, height, ops, n);
    OutwardBoxWindsOutward(seg, width, height, ops, n);
    var t := BoxTriangleList(seg, width, height, ops)[n];
    var u := OutwardBoxTriangleList(seg, width, height, ops)[n];
    NormalAlong(t, ops.sqrt, Sub(t.a, BoxCentre(seg, height)));
    NormalAlong(u, ops.sqrt, Sub(u.a, BoxCentre(seg, height)));
  }

  /** The normal of a face with a cross product lies on the same side of any direction as the cross product. */
  lemma NormalAlong(t: Triangle, sqrt: real -> real, d: Vec3)
    requires SqrtSound(sqrt) && Dot(FaceCross(t), d) != 0.0
    ensures Dot(FaceCross(t), d) < 0.0 ==> Dot(Normal(t, sqrt), d) < 0.0
    ensures Dot(FaceCross(t), d) > 0.0 ==> Dot(Normal(t, sqrt), d) > 0.0
  {
    var cr := FaceCross(t);
    DotZero(d);
    DotSelfPositive(cr);
    var mag := sqrt(Dot(cr, cr));
    assert 0.0 <= mag && mag * mag == Dot(cr, cr);
    PositiveRoot(mag, Dot(cr, cr));
    DivIsTimesInverse(cr, mag);
    var k := 1.0 / mag;
    assert k > 0.0;
    assert Dot(Times(k, cr), d) == k * Dot(cr, d);
  }

  /**
   * The twelve triangles use only the box's corners, so every vertex is at
   * height 0 or at the plate's height.
   */
  lemma BoxTriangleVertices(s: Segment, width: real, height: real, ops: Ops, n: nat)
    requires n < 12
    ensures var t := BoxTriangleList(s, width, height, ops)[n];
      var cs := BoxCorners(s, width, height, ops);
      t.a in cs && t.b in cs && t.c in cs
      && (t.a.z == 0.0 || t.a.z == height)
      && (t.b.z == 0.0 || t.b.z == height)
      && (t.c.z == 0.0 || t.c.z == height)
  {
    FaceTables();
    BoxCornerHeights(s, width, height, ops);
  }

  /** The box of one segment: the corner loop, then the face table. */
  method BoxTriangles(s: Segment, width: real, height: real, ops: Ops) returns (tris: seq<Triangle>)
    ensures tris == BoxTriangleList(s, width, height, ops)
  {
    var hl, hw, hh := 0.5 * s.length, 0.5 * width, 0.5 * height;
    var angle := ops.radians(s.angle);
    var cosA, sinA := ops.cos(angle), ops.sin(angle);
    var local := LocalCorners(hl, hw, hh);
    var verts: seq<Vec3> := [];
    for m := 0 to 8
      invariant verts == BoxCorners(s, width, height, ops)[..m]
    {
      verts := verts + [PlaceCorner(local[m], s.cx, s.cy, cosA, sinA, hh)];
    }
    FaceTables();
    tris := seq(12, n requires 0 <= n < 12 => FaceTriangle(verts, FacesAsWritten[n]));
  }

  /** The triangles of every slot, twelve per segment, in segment order. */
  ghost predicate SlotTrianglesOf(segs: seq<Segment>, width: real, height: real, ops: Ops, tris: seq<Triangle>) {
    && |tris| == 12 * |segs|
    && forall k :: 0 <= k < |tris| ==> tris[k] == BoxTriangleList(segs[k / 12], width, height, ops)[k % 12]
  }

  /** Appending the next segment's box keeps the slot layout. */
  lemma SlotStep(segs: seq<Segment>, s: Segment, width: real, height: real, ops: Ops, tris: seq<Triangle>)
    requires SlotTrianglesOf(segs, width, height, ops, tris)
    ensures SlotTrianglesOf(segs + [s], width, height, ops, tris + BoxTriangleList(s, width, height, ops))
  {
    var segs', tris' := segs + [s], tris + BoxTriangleList(s, width, height, ops);
    forall k | 0 <= k < |tris'|
      ensures tris'[k] == BoxTriangleList(segs'[k / 12], width, height, ops)[k % 12]
    {
      if k < |tris| {
        assert tris'[k] == tris[k];
        assert k / 12 < |segs|;
        assert segs'[k / 12] == segs[k / 12];
      } else {
        DivModUnique(k, 12, |segs|, k - |tris|);
      }
    }
  }

  /** The triangles.extend loop of the fallback backend. */
  method FallbackTriangles(segs: seq<Segment>, width: real, height: real, ops: Ops) returns (tris: seq<Triangle>)
    ensures SlotTrianglesOf(segs, width, height, ops, tris)
  {
    tris := [];
    for i := 0 to |segs|
      invariant SlotTrianglesOf(segs[..i], width, height, ops, tris)
    {
      var box := BoxTriangles(segs[i], width, height, ops);
      SlotStep(segs[..i], segs[i], width, height, ops, tris);
      assert segs[..i + 1] == segs[..i] + [segs[i]];
      tris := tris + box;
    }
    assert segs[..|segs|] == segs;
  }

  const SolidName := "hex_grid_template"

  /** One vertex line: three numbers in the writer's number format, on one line when the numbers are. */
  function VertexLine(v: Vec3, fmt: real -> string): (line: string)
    ensures NoBreaks(fmt(v.x)) && NoBreaks(fmt(v.y)) && NoBreaks(fmt(v.z)) ==> NoBreaks(line)
  {
    var head := "      vertex ";
    assert NoBreaks(head) && NoBreaks(" ");
    NoBreaksJoin(head, fmt(v.x));
    NoBreaksJoin(head + fmt(v.x), " ");
    NoBreaksJoin(head + fmt(v.x) + " ", fmt(v.y));
    NoBreaksJoin(head + fmt(v.x) + " " + fmt(v.y), " ");
    NoBreaksJoin(head + fmt(v.x) + " " + fmt(v.y) + " ", fmt(v.z));
    head + fmt(v.x) + " " + fmt(v.y) + " " + fmt(v.z)
  }

  /** The seven lines of one facet. */
  function FacetLines(t: Triangle, sqrt: real -> real, fmt: real -> string): (ls: seq<string>)
    ensures |ls| == 7
  {
    var n := Normal(t, sqrt);
    ["  facet normal " + fmt(n.x) + " " + fmt(n.y) + " " + fmt(n.z),
     "    outer loop",
     VertexLine(t.a, fmt), VertexLine(t.b, fmt), VertexLine(t.c, fmt),
     "    endloop",
     "  endfacet"]
  }

  function AllFacetLines(tris: seq<Triangle>, sqrt: real -> real, fmt: real -> string): (ls: seq<string>)
    ensures |ls| == 7 * |tris|
  {
    if tris == [] then []
    else AllFacetLines(tris[..|tris| - 1], sqrt, fmt) + FacetLines(tris[|tris| - 1], sqrt, fmt)
  }

  /** The lines of the ASCII STL file: a solid header, seven lines per facet, the end line. */
  function StlLines(tris: seq<Triangle>, sqrt: real -> real, fmt: real -> string): seq<string> {
    ["solid " + SolidName] + AllFacetLines(tris, sqrt, fmt) + ["endsolid " + SolidName]
  }

  /** Facet k's lines sit at a fixed place: after the header and the seven lines of each earlier facet. */
  lemma {:induction false} FacetLinesAt(tris: seq<Triangle>, sqrt: real -> real, fmt: real -> string, k: nat, j: nat)
    requires k < |tris| && j < 7
    ensures AllFacetLines(tris, sqrt, fmt)[7 * k + j] == FacetLines(tris[k], sqrt, fmt)[j]
  {
    var init := tris[..|tris| - 1];
    if k < |init| {
      FacetLinesAt(init, sqrt, fmt, k, j);
      assert init[k] == tris[k];
    }
  }

  /** A run of writes, each one line followed by a newline. */
  method WriteLines(text: string, lines: seq<string>) returns (text': string)
    ensures text' == text + JoinLines(lines)
  {
    text' := text;
    for j := 0 to |lines|
      invariant text' == text + JoinLines(lines[..j])
    {
      JoinLinesAppend(lines[..j], [lines[j]]);
      assert lines[..j + 1] == lines[..j] + [lines[j]];
      text' := text' + lines[j] + "\n";
    }
    assert lines[..|lines|] == lines;
  }

  /** Writing facet i after the header and the earlier facets gives the text of one more facet. */
  lemma FacetWritten(tris: seq<Triangle>, i: nat, sqrt: real -> real, fmt: real -> string)
    requires i < |tris|
    ensures JoinLines(["solid " + SolidName] + AllFacetLines(tris[..i + 1], sqrt, fmt))
         == JoinLines(["solid " + SolidName] + AllFacetLines(tris[..i], sqrt, fmt)) + JoinLines(FacetLines(tris[i], sqrt, fmt))
  {
    var head, done, next := ["solid " + SolidName], AllFacetLines(tris[..i], sqrt, fmt), FacetLines(tris[i], sqrt, fmt);
    assert tris[..i + 1][..i] == tris[..i];
    assert AllFacetLines(tris[..i + 1], sqrt, fmt) == done + next;
    assert head + (done + next) == (head + done) + next;
    JoinLinesAppend(head + done, next);
  }

  /** The writer: the text holds the file's lines, each ended by a newline. */
  method WriteAsciiStl(tris: seq<Triangle>, sqrt: real -> real, fmt: real -> string) returns (text: string)
    ensures text == JoinLines(StlLines(tris, sqrt, fmt))
  {
    text := WriteLines([], ["solid " + SolidName]);
    for i := 0 to |tris|
      invariant text == JoinLines(["solid " + SolidName] + AllFacetLines(tris[..i], sqrt, fmt))
    {
      FacetWritten(tris, i, sqrt, fmt);
      text := WriteLines(text, FacetLines(tris[i], sqrt, fmt));
    }
    assert tris[..|tris|] == tris;
    JoinLinesAppend(["solid " + SolidName] + AllFacetLines(tris, sqrt, fmt), ["endsolid " + SolidName]);
    text := WriteLines(text, ["endsolid " + SolidName]);
  }

  /** What the fallback backend produces from a grid: its slot triangles and the STL text. */
  datatype FallbackStl = FallbackStl(geometry: Geometry, triangles: seq<Triangle>, text: string)

  /**
   * The fallback backend: the grid's slots, edge dashes first and then vertex
   * arms, each cut as a twelve-triangle box of the slot width and the plate's
   * thickness, written as ASCII STL.
   */
  method BuildFallbackStl(config: Config, ops: Ops, fmt: real -> string) returns (result: Result<FallbackStl, GridError>)
    ensures result.Failure? <==> ops.sqrt(3.0) == 0.0 || config.hexFlatToFlat == 0.0
    ensures result.Success? ==>
      var out := result.value;
      var segs := out.geometry.edgeSegments + out.geometry.vertexSegments;
      && GeometryOf(config, ops, out.geometry)
      && SlotTrianglesOf(segs, config.slotWidth, config.thickness, ops, out.triangles)
      && out.text == JoinLines(StlLines(out.triangles, ops.sqrt, fmt))
  {
    var geometry := CollectGridGeometry(config, ops);
    if geometry.Failure? {
      return Failure(geometry.error);
    }
    var g := geometry.value;
    var tris := FallbackTriangles(g.edgeSegments + g.vertexSegments, config.slotWidth, config.thickness, ops);
    var text := WriteAsciiStl(tris, ops.sqrt, fmt);
    return Success(FallbackStl(g, tris, text));
  }
}
