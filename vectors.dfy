/** Three-dimensional vectors and triangles, shared by the mesh writer and the preview renderer. */
module Vectors {
  datatype Vec3 = Vec3(x: real, y: real, z: real)

  /** A facet: three vertices, wound so that Cross(b - a, c - a) is its normal direction. */
  datatype Triangle = Triangle(a: Vec3, b: Vec3, c: Vec3)

  const Zero := Vec3(0.0, 0.0, 0.0)

  function Sub(u: Vec3, v: Vec3): Vec3 {
    Vec3(u.x - v.x, u.y - v.y, u.z - v.z)
  }

  function Dot(u: Vec3, v: Vec3): real {
    u.x * v.x + u.y * v.y + u.z * v.z
  }

  function Cross(u: Vec3, v: Vec3): Vec3 {
    Vec3(u.y * v.z - u.z * v.y, u.z * v.x - u.x * v.z, u.x * v.y - u.y * v.x)
  }

  /** The scalar multiple k v. */
  function Times(k: real, v: Vec3): Vec3 {
    Vec3(k * v.x, k * v.y, k * v.z)
  }

  /** The un-normalised normal both tools compute: (b - a) x (c - a). */
  function FaceCross(t: Triangle): Vec3 {
    Cross(Sub(t.b, t.a), Sub(t.c, t.a))
  }

  /** A squared length is never negative. */
  lemma DotSelfNonNegative(v: Vec3)
    ensures Dot(v, v) >= 0.0
  {
  }

  /** The zero vector is orthogonal to everything. */
  lemma DotZero(d: Vec3)
    ensures Dot(Zero, d) == 0.0
  {
  }

  /** Only the zero vector has squared length zero. */
  lemma DotSelfPositive(v: Vec3)
    ensures v != Zero ==> Dot(v, v) > 0.0
  {
    if v != Zero {
      assert v.x != 0.0 || v.y != 0.0 || v.z != 0.0;
      SumOfSquares(v.x, v.y, v.z);
      calc {
        Dot(v, v);
      ==
        v.x * v.x + v.y * v.y + v.z * v.z;
      >
        0.0;
      }
    }
  }

  /** A sum of three squares is positive unless all three roots are zero. */
  lemma SumOfSquares(a: real, b: real, c: real)
    ensures a != 0.0 || b != 0.0 || c != 0.0 ==> a * a + b * b + c * c > 0.0
  {
    Square(a);
    Square(b);
    Square(c);
  }

  /** A square is never negative, and is positive unless its root is zero. */
  lemma Square(a: real)
    ensures a * a >= 0.0
    ensures a != 0.0 ==> a * a > 0.0
  {
    if a < 0.0 {
      assert a * a == (-a) * (-a);
    }
  }

  /** A multiple of v is parallel to v. */
  lemma CrossScaled(k: real, v: Vec3)
    ensures Cross(Times(k, v), v) == Zero
  {
  }

  /** Dividing each coordinate by mag is scaling by 1 / mag. */
  lemma DivIsTimesInverse(v: Vec3, mag: real)
    requires mag != 0.0
    ensures Vec3(v.x / mag, v.y / mag, v.z / mag) == Times(1.0 / mag, v)
  {
  }

  /** Scaling a vector of length mag by the inverse of mag gives a unit vector along it. */
  lemma ScaledUnit(v: Vec3, k: real, mag: real)
    requires k * mag == 1.0 && mag * mag == Dot(v, v)
    ensures Dot(Times(k, v), Times(k, v)) == 1.0
    ensures Dot(Times(k, v), v) == mag
    ensures Cross(Times(k, v), v) == Zero
  {
    CrossScaled(k, v);
    calc {
      Dot(Times(k, v), Times(k, v));
      (k * k) * Dot(v, v);
      (k * k) * (mag * mag);
      (k * mag) * (k * mag);
      1.0;
    }
    calc {
      Dot(Times(k, v), v);
      k * Dot(v, v);
      k * (mag * mag);
      (k * mag) * mag;
      mag;
    }
  }
}
