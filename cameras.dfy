/** The pinhole `Camera` of src/renderer.cpp: `update` derives the viewport from the eye,
    the look-at point, the field of view and the aspect ratio, and `generateRay` shoots a
    ray from the eye through a point of that viewport. */
module Cameras {
  import opened Numerics
  import opened Geometry

  /** `M_PI` from `<cmath>`. */
  const M_PI: real := 3.14159265358979323846

  /** The world's up direction `(0, 1, 0)`. */
  const WorldUp: Vec3 := Vec3(0.0, 1.0, 0.0)

  /** `update` normalises `eye - lookAt` and `up x n`; both must be nonzero. */
  predicate BasisDefined(eye: Vec3, lookAt: Vec3, m: MathLib) {
    Length(Sub(eye, lookAt), m) != 0.0 &&
    Length(Cross(WorldUp, Normalize(Sub(eye, lookAt), m)), m) != 0.0
  }

  /** `n`: the unit vector from the look-at point back to the eye. */
  function BasisN(eye: Vec3, lookAt: Vec3, m: MathLib): Vec3
    requires BasisDefined(eye, lookAt, m)
  {
    Normalize(Sub(eye, lookAt), m)
  }

  /** `u`: the unit vector to the right of the view. */
  function BasisU(eye: Vec3, lookAt: Vec3, m: MathLib): Vec3
    requires BasisDefined(eye, lookAt, m)
  {
    Normalize(Cross(WorldUp, BasisN(eye, lookAt, m)), m)
  }

  /** `v = n x u`: the up direction of the view. */
  function BasisV(eye: Vec3, lookAt: Vec3, m: MathLib): Vec3
    requires BasisDefined(eye, lookAt, m)
  {
    Cross(BasisN(eye, lookAt, m), BasisU(eye, lookAt, m))
  }

  /** With a true square root, `n`, `u` and `v` form an orthonormal basis. */
  lemma BasisOrthonormal(eye: Vec3, lookAt: Vec3, m: MathLib)
    requires SqrtLaw(m) && BasisDefined(eye, lookAt, m)
    ensures var n, u, v := BasisN(eye, lookAt, m), BasisU(eye, lookAt, m), BasisV(eye, lookAt, m);
      Dot(n, n) == 1.0 && Dot(u, u) == 1.0 && Dot(v, v) == 1.0 &&
      Dot(u, n) == 0.0 && Dot(v, n) == 0.0 && Dot(v, u) == 0.0
  {
    var n, u := BasisN(eye, lookAt, m), BasisU(eye, lookAt, m);
    var c := Cross(WorldUp, n);
    var len := Length(c, m);
    assert u == Scale(c, 1.0 / len);
    DotScale(c, 1.0 / len, n);
    DotComm(u, n);
    LagrangeIdentity(n, u);
    calc {
      Dot(Cross(n, u), Cross(n, u));
      == Dot(n, n) * Dot(u, u) - Dot(n, u) * Dot(n, u);
      == 1.0 * 1.0 - 0.0 * 0.0;
      == 1.0;
    }
  }

  /** `h = tan(fov * pi / 360)`, half the viewport height at unit distance. */
  function HalfHeight(fov: real, m: MathLib): real {
    m.tan(fov * M_PI / 360.0)
  }

  class Camera {
    var eye: Vec3
    var lookAt: Vec3
    var fov: real
    var aspect: real
    var horizontal: Vec3
    var vertical: Vec3
    var corner: Vec3

    /** What `update` establishes: the viewport spans `u * 2h * aspect` across and
        `v * 2h` up, and its lower-left corner lies one unit in front of the eye. */
    predicate Updated(m: MathLib)
      reads this
    {
      BasisDefined(eye, lookAt, m) &&
      var h := HalfHeight(fov, m);
      horizontal == Scale(BasisU(eye, lookAt, m), 2.0 * h * aspect) &&
      vertical == Scale(BasisV(eye, lookAt, m), 2.0 * h) &&
      corner == Sub(Sub(Sub(eye, Div(horizontal, 2.0)), Div(vertical, 2.0)), BasisN(eye, lookAt, m))
    }

    /** `Camera(eye, lookat, fov, aspect)`: stores the four settings, then `update`. */
    constructor(eye: Vec3, lookAt: Vec3, fov: real, aspect: real, m: MathLib)
      requires BasisDefined(eye, lookAt, m)
      ensures this.eye == eye && this.lookAt == lookAt && this.fov == fov && this.aspect == aspect
      ensures Updated(m)
    {
      this.eye := eye;
      this.lookAt := lookAt;
      this.fov := fov;
      this.aspect := aspect;
      new;
      Update(m);
    }

    /** `update`: recomputes the viewport from the settings and changes nothing else. */
    method Update(m: MathLib)
      requires BasisDefined(eye, lookAt, m)
      modifies this
      ensures eye == old(eye) && lookAt == old(lookAt) && fov == old(fov) && aspect == old(aspect)
      ensures Updated(m)
    {
      var n := Normalize(Sub(eye, lookAt), m);
      var u := Normalize(Cross(Vec3(0.0, 1.0, 0.0), n), m);
      var v := Cross(n, u);
      var h := m.tan(fov * M_PI / 360.0);
      var viewportHeight := 2.0 * h;
      var viewportWidth := viewportHeight * aspect;
      horizontal := Scale(u, viewportWidth);
      vertical := Scale(v, viewportHeight);
      corner := Sub(Sub(Sub(eye, Div(horizontal, 2.0)), Div(vertical, 2.0)), n);
    }

    /** The viewport point at `(s, t)`: `(0, 0)` is the corner, `(1, 1)` the opposite one. */
    function ViewportPoint(s: real, t: real): Vec3
      reads this
    {
      Add(Add(corner, Scale(horizontal, s)), Scale(vertical, t))
    }

    /** `generateRay(s, t)`: from the eye, reaching the viewport point at parameter 1. */
    function GenerateRay(s: real, t: real): (r: Ray)
      reads this
      ensures r.origin == eye && r.At(1.0) == ViewportPoint(s, t)
    {
      var point := Add(Add(corner, Scale(horizontal, s)), Scale(vertical, t));
      Ray(eye, Sub(point, eye))
    }
  }

  /** The ray through the middle of the viewport looks straight at the look-at point:
      its direction is `-n`. */
  lemma CenterRay(camera: Camera, m: MathLib)
    requires camera.Updated(m)
    ensures camera.GenerateRay(0.5, 0.5).direction == Neg(BasisN(camera.eye, camera.lookAt, m))
  {
  }

  /** Every generated ray has component -1 along `n`: the viewport is the plane one unit
      in front of the eye, whatever `(s, t)` and `tan` are. */
  lemma ViewportAtUnitDistance(camera: Camera, s: real, t: real, m: MathLib)
    requires SqrtLaw(m) && camera.Updated(m)
    ensures Dot(camera.GenerateRay(s, t).direction, BasisN(camera.eye, camera.lookAt, m)) == -1.0
  {
    var eye, lookAt := camera.eye, camera.lookAt;
    var n, u, v := BasisN(eye, lookAt, m), BasisU(eye, lookAt, m), BasisV(eye, lookAt, m);
    var h := HalfHeight(camera.fov, m);
    BasisOrthonormal(eye, lookAt, m);
    var wide, high := 2.0 * h * camera.aspect, 2.0 * h;
    var eh, ev := camera.horizontal, camera.vertical;
    var corner := camera.corner;
    // The viewport's edges are orthogonal to n.
    DotScale(u, wide, n);
    DotScale(v, high, n);
    assert Div(eh, 2.0) == Scale(eh, 0.5) && Div(ev, 2.0) == Scale(ev, 0.5);
    DotScale(eh, 0.5, n);
    DotScale(ev, 0.5, n);
    DotScale(eh, s, n);
    DotScale(ev, t, n);
    // The corner lies one unit from the eye towards the look-at point.
    DotSub(Sub(Sub(eye, Div(eh, 2.0)), Div(ev, 2.0)), n, n);
    DotSub(Sub(eye, Div(eh, 2.0)), Div(ev, 2.0), n);
    DotSub(eye, Div(eh, 2.0), n);
    assert Dot(corner, n) == Dot(eye, n) - 1.0;
    // So does every viewport point.
    var point := camera.ViewportPoint(s, t);
    DotAdd(Add(corner, Scale(eh, s)), Scale(ev, t), n);
    DotAdd(corner, Scale(eh, s), n);
    DotSub(point, eye, n);
  }
}
