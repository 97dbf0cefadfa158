/** The two analytic primitives of src/objects.cpp: the sphere, which keeps only the
    near root of its quadratic, and the axis-aligned cube, a slab test that remembers
    the axis through which the ray enters. */
module Objects {
  import opened Wrappers
  import opened Numerics
  import opened Geometry
  import opened Bounds
  import opened Records

  /** The closest hit parameter either primitive accepts. */
  const MIN_HIT: real := 0.001

  // ----- Sphere -----

  datatype Sphere = Sphere(center: Vec3, radius: real, material: Material)

  /** `Sphere(c, r)`, with the default material. */
  function NewSphere(c: Vec3, r: real): Sphere {
    Sphere(c, r, DefaultMaterial)
  }

  /** `Sphere()`: the unit sphere at the origin. */
  const DefaultSphere: Sphere := NewSphere(Zero, 1.0)

  /** The quadratic `a t^2 + 2 h t + c` whose roots are where the ray meets the sphere. */
  function QuadA(ray: Ray): real {
    Dot(ray.direction, ray.direction)
  }

  function QuadH(s: Sphere, ray: Ray): real {
    Dot(Sub(ray.origin, s.center), ray.direction)
  }

  function QuadC(s: Sphere, ray: Ray): real {
    Dot(Sub(ray.origin, s.center), Sub(ray.origin, s.center)) - s.radius * s.radius
  }

  /** `h*h - a*c`. */
  function SphereDiscriminant(s: Sphere, ray: Ray): real {
    QuadH(s, ray) * QuadH(s, ray) - QuadA(ray) * QuadC(s, ray)
  }

  /** `(-h - sqrt(discriminant)) / a`, the nearer root. */
  function NearRoot(s: Sphere, ray: Ray, m: MathLib): real
    requires QuadA(ray) != 0.0
  {
    (-QuadH(s, ray) - m.sqrt(SphereDiscriminant(s, ray))) / QuadA(ray)
  }

  /** The divisions `Sphere::hit` performs: by `a` always, and by the radius when it
      builds a record. */
  predicate SphereDefined(s: Sphere, ray: Ray, m: MathLib) {
    QuadA(ray) != 0.0 &&
    (0.0 <= SphereDiscriminant(s, ray) && MIN_HIT <= NearRoot(s, ray, m) ==> s.radius != 0.0)
  }

  /** `Sphere::hit`: none when the discriminant is negative or the near root is below
      0.001 (the far root is never tried); otherwise the record at the near root, whose
      normal times the radius is the offset from the centre. */
  function SphereHit(s: Sphere, ray: Ray, m: MathLib): (r: Option<HitRecord>)
    requires SphereDefined(s, ray, m)
    ensures r.None? <==> SphereDiscriminant(s, ray) < 0.0 || NearRoot(s, ray, m) < MIN_HIT
    ensures r.Some? ==>
      r.value.parameter == NearRoot(s, ray, m) && MIN_HIT <= r.value.parameter &&
      r.value.position == ray.At(r.value.parameter) &&
      Scale(r.value.normal, s.radius) == Sub(r.value.position, s.center) &&
      r.value.material == s.material
  {
    if SphereDiscriminant(s, ray) < 0.0 then None
    else
      var root := NearRoot(s, ray, m);
      if root < MIN_HIT then None
      else
        var position := ray.At(root);
        Some(HitRecord(position, Div(Sub(position, s.center), s.radius), root, s.material))
  }

  /** The point at parameter `t`, seen from the centre, is `oc + t d`; its squared
      distance from the centre is the quadratic plus the squared radius. */
  lemma OffsetAlongRay(s: Sphere, ray: Ray, t: real)
    ensures Sub(ray.At(t), s.center) == Add(Sub(ray.origin, s.center), Scale(ray.direction, t))
    ensures Dot(Sub(ray.At(t), s.center), Sub(ray.At(t), s.center)) ==
      QuadA(ray) * t * t + 2.0 * QuadH(s, ray) * t + QuadC(s, ray) + s.radius * s.radius
  {
    var oc := Sub(ray.origin, s.center);
    var d := ray.direction;
    assert Sub(ray.At(t), s.center) == Add(oc, Scale(d, t));
    calc {
      Dot(Add(oc, Scale(d, t)), Add(oc, Scale(d, t)));
      == Dot(d, d) * t * t + 2.0 * Dot(oc, d) * t + Dot(oc, oc);
    }
  }

  /** The near root is a root. */
  lemma QuadRoot(a: real, h: real, cc: real, s: real, t: real)
    requires a * t == -h - s
    requires s * s == h * h - a * cc
    ensures a * (a * t * t + 2.0 * h * t + cc) == 0.0
  {
    calc {
      a * (a * t * t + 2.0 * h * t + cc);
      == (a * t) * (a * t) + 2.0 * h * (a * t) + a * cc;
      == (-h - s) * (-h - s) + 2.0 * h * (-h - s) + a * cc;
      == s * s - h * h + a * cc;
      == 0.0;
    }
  }

  lemma ZeroFactor(a: real, q: real)
    requires a != 0.0 && a * q == 0.0
    ensures q == 0.0
  {
  }

  lemma DivMul(n: real, a: real)
    requires a != 0.0
    ensures a * (n / a) == n
  {
  }

  /** A sphere hit lies on the sphere, and its normal has unit length. */
  lemma SphereHitOnSurface(s: Sphere, ray: Ray, m: MathLib)
    requires SqrtLaw(m)
    requires SphereDefined(s, ray, m) && SphereHit(s, ray, m).Some?
    ensures var hit := SphereHit(s, ray, m).value;
      Dot(Sub(hit.position, s.center), Sub(hit.position, s.center)) == s.radius * s.radius &&
      Dot(hit.normal, hit.normal) == 1.0
  {
    var hit := SphereHit(s, ray, m).value;
    var a, h, cc := QuadA(ray), QuadH(s, ray), QuadC(s, ray);
    var disc := SphereDiscriminant(s, ray);
    var root := m.sqrt(disc);
    var t := NearRoot(s, ray, m);
    DivMul(-h - root, a);
    QuadRoot(a, h, cc, root, t);
    ZeroFactor(a, a * t * t + 2.0 * h * t + cc);
    OffsetAlongRay(s, ray, t);
    var off := Sub(hit.position, s.center);
    calc {
      Dot(off, off);
      == a * t * t + 2.0 * h * t + cc + s.radius * s.radius;
      == s.radius * s.radius;
    }
    calc {
      s.radius * s.radius * Dot(hit.normal, hit.normal);
      == { DotScaleBoth(hit.normal, s.radius); }
      Dot(Scale(hit.normal, s.radius), Scale(hit.normal, s.radius));
      == Dot(off, off);
      == s.radius * s.radius;
    }
    var r2 := s.radius * s.radius;
    calc { r2; == s.radius * s.radius; > { SquareSign(s.radius); } 0.0; }
    Cancel(r2, Dot(hit.normal, hit.normal));
  }

  /** If `s * s > h * h` with `s >= 0`, then `-h - s < 0`. */
  lemma RootDominates(h: real, s: real)
    requires 0.0 <= s && h * h < s * s
    ensures -h - s < 0.0
  {
  }

  lemma NegativeQuotient(n: real, a: real)
    requires n < 0.0 && 0.0 < a
    ensures n / a < 0.0
  {
  }

  /** A ray that starts strictly inside the sphere never hits it: the near root is
      negative, and the far root, which is positive, is not tried. */
  lemma SphereInsideMiss(s: Sphere, ray: Ray, m: MathLib)
    requires SqrtLaw(m)
    requires QuadA(ray) != 0.0
    requires Dot(Sub(ray.origin, s.center), Sub(ray.origin, s.center)) < s.radius * s.radius
    ensures SphereDefined(s, ray, m) && SphereHit(s, ray, m).None?
    ensures 0.0 < (-QuadH(s, ray) + m.sqrt(SphereDiscriminant(s, ray))) / QuadA(ray)
  {
    var a, h, cc := QuadA(ray), QuadH(s, ray), QuadC(s, ray);
    var disc := SphereDiscriminant(s, ray);
    DotSelfZero(ray.direction);
    assert 0.0 < a;
    assert cc < 0.0;
    calc { a * cc; < { NegativeProduct(a, cc); } 0.0; }
    calc { disc; == h * h - a * cc; > h * h; >= { SquareSign(h); } 0.0; }
    var root := m.sqrt(disc);
    assert root * root == disc;
    RootDominates(h, root);
    NegativeQuotient(-h - root, a);
    RootDominates(-h, root);
    assert 0.0 < (-h + root) / a;
  }

  lemma NegativeProduct(a: real, c: real)
    requires 0.0 < a && c < 0.0
    ensures a * c < 0.0
  {
  }

  // ----- Cube -----

  /** A cube as the source keeps it: its corners, their midpoint and its material. */
  datatype Cube = Cube(min: Vec3, max: Vec3, center: Vec3, material: Material)

  /** `Cube(min, max)`: the centre is the midpoint of the two corners. */
  function NewCube(min: Vec3, max: Vec3): (c: Cube)
    ensures c.min == min && c.max == max && c.material == DefaultMaterial
    ensures Sub(c.center, min) == Sub(max, c.center)
  {
    Cube(min, max, Div(Add(min, max), 2.0), DefaultMaterial)
  }

  /** `Cube()`: the cube from (-3,-3,-3) to (3,3,3), centred on the origin. */
  const DefaultCube: Cube := NewCube(Splat(-3.0), Splat(3.0))

  lemma DefaultCubeCentred()
    ensures DefaultCube.center == Zero
  {
    assert Add(Splat(-3.0), Splat(3.0)) == Zero;
    assert Div(Zero, 2.0) == Zero;
  }

  /** The running state of `Cube::hit`'s axis loop. */
  datatype Scan = Scan(tMin: real, tMax: real, normalAxis: int)

  /** The state after the first `n` axes: the entry bound replaces `tMin` (and names the
      normal axis) only when strictly larger; `tMax` keeps the least exit bound. */
  function ScanAxes(cube: Cube, ray: Ray, n: int): (s: Scan)
    requires NonzeroDirection(ray) && 0 <= n <= 3
    ensures 0 <= s.normalAxis <= 2
  {
    if n == 0 then Scan(FLT_MIN, FLT_MAX, 0)
    else
      var s := ScanAxes(cube, ray, n - 1);
      var slab := Slab(cube.min, cube.max, ray, n - 1);
      if slab.t0 > s.tMin then Scan(slab.t0, Min(s.tMax, slab.t1), n - 1)
      else Scan(s.tMin, Min(s.tMax, slab.t1), s.normalAxis)
  }

  /** `tMax` is the least exit bound over the axes scanned (or the seed when it is smaller). */
  lemma {:induction false} ScanExit(cube: Cube, ray: Ray, n: int)
    requires NonzeroDirection(ray) && 0 <= n <= 3
    ensures var s := ScanAxes(cube, ray, n);
      s.tMax <= FLT_MAX &&
      (forall a :: 0 <= a < n ==> s.tMax <= Slab(cube.min, cube.max, ray, a).t1) &&
      (s.tMax == FLT_MAX || exists a :: 0 <= a < n && s.tMax == Slab(cube.min, cube.max, ray, a).t1)
  {
    if n > 0 {
      ScanExit(cube, ray, n - 1);
    }
  }

  /** `tMin` is the greatest entry bound (or the seed), and `normalAxis` is the FIRST axis
      whose entry bound attains it; when no entry bound exceeds the seed, the normal axis
      stays 0. */
  lemma {:induction false} ScanEntry(cube: Cube, ray: Ray, n: int)
    requires NonzeroDirection(ray) && 0 <= n <= 3
    ensures var s := ScanAxes(cube, ray, n);
      FLT_MIN <= s.tMin && 0 <= s.normalAxis <= 2 &&
      (forall a :: 0 <= a < n ==> Slab(cube.min, cube.max, ray, a).t0 <= s.tMin) &&
      (if s.tMin == FLT_MIN then s.normalAxis == 0
       else
         s.normalAxis < n && Slab(cube.min, cube.max, ray, s.normalAxis).t0 == s.tMin &&
         forall a :: 0 <= a < s.normalAxis ==> Slab(cube.min, cube.max, ray, a).t0 < s.tMin)
  {
    if n > 0 {
      ScanEntry(cube, ray, n - 1);
    }
  }

  /** The record `Cube::hit` builds at the entry parameter. */
  function CubeRecord(cube: Cube, ray: Ray, s: Scan): HitRecord
    requires 0 <= s.normalAxis <= 2
  {
    var point := ray.At(s.tMin);
    var normal := Set(Zero, s.normalAxis, Sign(Get(Sub(point, cube.center), s.normalAxis)));
    HitRecord(point, normal, s.tMin, cube.material)
  }

  /** What `Cube::hit` returns: none when the slabs do not overlap or the entry is
      closer than 0.001; otherwise a record at the entry parameter whose normal is zero
      except on the entry axis, where it is the sign of the offset from the centre. */
  function CubeHitSpec(cube: Cube, ray: Ray): (r: Option<HitRecord>)
    requires NonzeroDirection(ray)
    ensures var s := ScanAxes(cube, ray, 3);
      (r.None? <==> s.tMax <= s.tMin || s.tMin < MIN_HIT) &&
      (r.Some? ==>
        r.value.parameter == s.tMin && r.value.position == ray.At(s.tMin) &&
        r.value.material == cube.material &&
        Get(r.value.normal, s.normalAxis) == Sign(Get(Sub(r.value.position, cube.center), s.normalAxis)) &&
        forall a :: 0 <= a <= 2 && a != s.normalAxis ==> Get(r.value.normal, a) == 0.0)
  {
    var s := ScanAxes(cube, ray, 3);
    ScanEntry(cube, ray, 3);
    if s.tMin >= s.tMax then None
    else if s.tMin < MIN_HIT then None
    else Some(CubeRecord(cube, ray, s))
  }

  /** `Cube::hit`: the axis loop updating `tMin`, `tMax` and `normalAxis`, then the record. */
  method CubeHit(cube: Cube, ray: Ray) returns (r: Option<HitRecord>)
    requires NonzeroDirection(ray)
    ensures r == CubeHitSpec(cube, ray)
  {
    var normalAxis := 0;
    var tMin := FLT_MIN;
    var tMax := FLT_MAX;
    var axis := 0;
    while axis < 3
      invariant 0 <= axis <= 3
      invariant Scan(tMin, tMax, normalAxis) == ScanAxes(cube, ray, axis)
      invariant 0 <= normalAxis <= 2
    {
      var invD := 1.0 / Get(ray.direction, axis);
      var t0 := (Get(cube.min, axis) - Get(ray.origin, axis)) * invD;
      var t1 := (Get(cube.max, axis) - Get(ray.origin, axis)) * invD;
      if invD < 0.0 {
        t0, t1 := t1, t0;
      }
      assert Interval(t0, t1) == Slab(cube.min, cube.max, ray, axis);
      if t0 > tMin {
        tMin := t0;
        normalAxis := axis;
      }
      tMax := Min(tMax, t1);
      axis := axis + 1;
    }
    ScanEntry(cube, ray, 3);
    if tMin >= tMax {
      return None;
    }
    if tMin < MIN_HIT {
      return None;
    }
    var point := ray.At(tMin);
    var normal := Zero;
    normal := Set(normal, normalAxis, Sign(Get(Sub(point, cube.center), normalAxis)));
    r := Some(HitRecord(point, normal, tMin, cube.material));
  }
}
