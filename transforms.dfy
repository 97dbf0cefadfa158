/** The 4x4 homogeneous transforms of src/geometry.cpp: the named constructors and
    `apply`, which divides the transformed point by its `w` coordinate. */
module Transforms {
  import opened Numerics
  import opened Geometry

  /** `PI` as the source spells it (nine digits), and the degree-to-radian factor. */
  const PI: real := 3.141592653
  const DEG2RAD: real := PI / 180.0

  /** One row `(a, b, c, d)` of the matrix. */
  datatype Row = Row(a: real, b: real, c: real, d: real)

  /** The matrix, row by row; the fourth row gives `w`. */
  datatype Transform = Transform(r0: Row, r1: Row, r2: Row, r3: Row)

  /** The dot product of a row with the point `(v, 1)`. */
  function RowApply(r: Row, v: Vec3): real {
    r.a * v.x + r.b * v.y + r.c * v.z + r.d
  }

  /** The homogeneous coordinate `w` of the transformed point. */
  function W(t: Transform, v: Vec3): real {
    RowApply(t.r3, v)
  }

  /** A transform whose bottom row is `(0, 0, 0, 1)`: `w` is always 1. */
  predicate IsAffine(t: Transform) {
    t.r3 == Row(0.0, 0.0, 0.0, 1.0)
  }

  /** `apply`: the first three rows applied to `(v, 1)`, divided by `w`, which the
      division operator requires to be nonzero. */
  function Apply(t: Transform, v: Vec3): (r: Vec3)
    requires W(t, v) != 0.0
    ensures Scale(r, W(t, v)) == Vec3(RowApply(t.r0, v), RowApply(t.r1, v), RowApply(t.r2, v))
  {
    Div(Vec3(RowApply(t.r0, v), RowApply(t.r1, v), RowApply(t.r2, v)), W(t, v))
  }

  /** For an affine transform `w == 1` and the final division changes nothing. */
  lemma AffineApply(t: Transform, v: Vec3)
    requires IsAffine(t)
    ensures W(t, v) == 1.0
    ensures Apply(t, v) == Vec3(RowApply(t.r0, v), RowApply(t.r1, v), RowApply(t.r2, v))
  {
  }

  /** `identity()`: fixes every point. */
  function Identity(): (t: Transform)
    ensures IsAffine(t)
    ensures forall p :: W(t, p) == 1.0 && Apply(t, p) == p
  {
    Transform(Row(1.0, 0.0, 0.0, 0.0),
              Row(0.0, 1.0, 0.0, 0.0),
              Row(0.0, 0.0, 1.0, 0.0),
              Row(0.0, 0.0, 0.0, 1.0))
  }

  /** `translate(tx, ty, tz)`: adds the offset to every point. */
  function Translate(translateX: real, translateY: real, translateZ: real): (t: Transform)
    ensures IsAffine(t)
    ensures forall p :: W(t, p) == 1.0 && Apply(t, p) == Add(p, Vec3(translateX, translateY, translateZ))
  {
    Transform(Row(1.0, 0.0, 0.0, translateX),
              Row(0.0, 1.0, 0.0, translateY),
              Row(0.0, 0.0, 1.0, translateZ),
              Row(0.0, 0.0, 0.0, 1.0))
  }

  /** `rotateX(angle, center)`: keeps the x coordinate of every point and fixes
      `center`, whatever `sin` and `cos` return. */
  function RotateX(angle: real, center: Vec3, m: MathLib): (t: Transform)
    ensures IsAffine(t)
    ensures forall p :: W(t, p) == 1.0 && Apply(t, p).x == p.x
    ensures Apply(t, center) == center
  {
    var rad := angle * DEG2RAD;
    var sin := m.sin(rad);
    var cos := m.cos(rad);
    Transform(Row(1.0, 0.0, 0.0, 0.0),
              Row(0.0, cos, -sin, -cos * center.y + sin * center.z + center.y),
              Row(0.0, sin, cos, -cos * center.z - sin * center.y + center.z),
              Row(0.0, 0.0, 0.0, 1.0))
  }

  /** `rotateY(angle, center)`: keeps y and fixes `center`. */
  function RotateY(angle: real, center: Vec3, m: MathLib): (t: Transform)
    ensures IsAffine(t)
    ensures forall p :: W(t, p) == 1.0 && Apply(t, p).y == p.y
    ensures Apply(t, center) == center
  {
    var rad := angle * DEG2RAD;
    var sin := m.sin(rad);
    var cos := m.cos(rad);
    Transform(Row(cos, 0.0, sin, -cos * center.x - sin * center.z + center.x),
              Row(0.0, 1.0, 0.0, 0.0),
              Row(-sin, 0.0, cos, -cos * center.z + sin * center.x + center.z),
              Row(0.0, 0.0, 0.0, 1.0))
  }

  /** `rotateZ(angle, center)`: keeps z and fixes `center`. */
  function RotateZ(angle: real, center: Vec3, m: MathLib): (t: Transform)
    ensures IsAffine(t)
    ensures forall p :: W(t, p) == 1.0 && Apply(t, p).z == p.z
    ensures Apply(t, center) == center
  {
    var rad := angle * DEG2RAD;
    var sin := m.sin(rad);
    var cos := m.cos(rad);
    Transform(Row(cos, -sin, 0.0, -cos * center.x + sin * center.y + center.x),
              Row(sin, cos, 0.0, -cos * center.y - sin * center.x + center.y),
              Row(0.0, 0.0, 1.0, 0.0),
              Row(0.0, 0.0, 0.0, 1.0))
  }

  /** The point `c + s (p - c)`, coordinate by coordinate. */
  function AboutPivot(center: Vec3, scaleX: real, scaleY: real, scaleZ: real, p: Vec3): Vec3 {
    Vec3(center.x + scaleX * (p.x - center.x),
         center.y + scaleY * (p.y - center.y),
         center.z + scaleZ * (p.z - center.z))
  }

  /** `scale(center, sx, sy, sz)`: moves every coordinate away from the pivot by its
      factor, so the pivot itself is fixed. */
  function Scaling(center: Vec3, scaleX: real, scaleY: real, scaleZ: real): (t: Transform)
    ensures IsAffine(t)
    ensures forall p :: W(t, p) == 1.0 && Apply(t, p) == AboutPivot(center, scaleX, scaleY, scaleZ, p)
    ensures Apply(t, center) == center
  {
    var t := Transform(Row(scaleX, 0.0, 0.0, center.x * (1.0 - scaleX)),
                       Row(0.0, scaleY, 0.0, center.y * (1.0 - scaleY)),
                       Row(0.0, 0.0, scaleZ, center.z * (1.0 - scaleZ)),
                       Row(0.0, 0.0, 0.0, 1.0));
    ScalingApply(t, center, scaleX, scaleY, scaleZ);
    t
  }

  lemma ScalingApply(t: Transform, center: Vec3, scaleX: real, scaleY: real, scaleZ: real)
    requires t == Transform(Row(scaleX, 0.0, 0.0, center.x * (1.0 - scaleX)),
                            Row(0.0, scaleY, 0.0, center.y * (1.0 - scaleY)),
                            Row(0.0, 0.0, scaleZ, center.z * (1.0 - scaleZ)),
                            Row(0.0, 0.0, 0.0, 1.0))
    ensures forall p :: W(t, p) == 1.0 && Apply(t, p) == AboutPivot(center, scaleX, scaleY, scaleZ, p)
  {
    forall p ensures W(t, p) == 1.0 && Apply(t, p) == AboutPivot(center, scaleX, scaleY, scaleZ, p) {
      AffineApply(t, p);
      calc {
        RowApply(t.r0, p);
        == scaleX * p.x + 0.0 * p.y + 0.0 * p.z + center.x * (1.0 - scaleX);
        == center.x + scaleX * (p.x - center.x);
      }
      calc {
        RowApply(t.r1, p);
        == 0.0 * p.x + scaleY * p.y + 0.0 * p.z + center.y * (1.0 - scaleY);
        == center.y + scaleY * (p.y - center.y);
      }
      calc {
        RowApply(t.r2, p);
        == 0.0 * p.x + 0.0 * p.y + scaleZ * p.z + center.z * (1.0 - scaleZ);
        == center.z + scaleZ * (p.z - center.z);
      }
    }
  }
}
