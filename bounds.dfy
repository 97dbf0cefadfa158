/** The axis-aligned bounding box of src/geometry.cpp: the running min/max constructor
    over a vertex list and the per-axis slab test `hit`. */
module Bounds {
  import opened Numerics
  import opened Geometry

  datatype AABB = AABB(min: Vec3, max: Vec3)

  /** The running minimum of coordinate `axis`, seeded with the largest float. */
  function Lowest(vs: seq<Vec3>, axis: int): real
    requires 0 <= axis <= 2
  {
    if vs == [] then FLT_MAX else Min(Lowest(vs[..|vs| - 1], axis), Get(vs[|vs| - 1], axis))
  }

  /** The running maximum of coordinate `axis`, seeded with the smallest POSITIVE float,
      as the source does. */
  function Highest(vs: seq<Vec3>, axis: int): real
    requires 0 <= axis <= 2
  {
    if vs == [] then FLT_MIN else Max(Highest(vs[..|vs| - 1], axis), Get(vs[|vs| - 1], axis))
  }

  /** The box `AABB(vertices)` builds. */
  function Hull(vs: seq<Vec3>): AABB {
    AABB(Vec3(Lowest(vs, 0), Lowest(vs, 1), Lowest(vs, 2)),
         Vec3(Highest(vs, 0), Highest(vs, 1), Highest(vs, 2)))
  }

  /** The running minimum is below every vertex and the seed, and it is the seed or
      some vertex's coordinate. */
  lemma {:induction false} LowestBounds(vs: seq<Vec3>, axis: int)
    requires 0 <= axis <= 2
    ensures Lowest(vs, axis) <= FLT_MAX
    ensures forall i :: 0 <= i < |vs| ==> Lowest(vs, axis) <= Get(vs[i], axis)
    ensures Lowest(vs, axis) == FLT_MAX || exists i :: 0 <= i < |vs| && Lowest(vs, axis) == Get(vs[i], axis)
  {
    if vs != [] {
      var init := vs[..|vs| - 1];
      LowestBounds(init, axis);
      assert forall i :: 0 <= i < |init| ==> vs[i] == init[i];
    }
  }

  /** The running maximum is above every vertex and the seed, and it is the seed or some
      vertex's coordinate. */
  lemma {:induction false} HighestBounds(vs: seq<Vec3>, axis: int)
    requires 0 <= axis <= 2
    ensures FLT_MIN <= Highest(vs, axis)
    ensures forall i :: 0 <= i < |vs| ==> Get(vs[i], axis) <= Highest(vs, axis)
    ensures Highest(vs, axis) == FLT_MIN || exists i :: 0 <= i < |vs| && Highest(vs, axis) == Get(vs[i], axis)
  {
    if vs != [] {
      var init := vs[..|vs| - 1];
      HighestBounds(init, axis);
      assert forall i :: 0 <= i < |init| ==> vs[i] == init[i];
    }
  }

  /** Every vertex lies inside the hull, on every axis. */
  lemma HullContains(vs: seq<Vec3>, i: int, axis: int)
    requires 0 <= i < |vs| && 0 <= axis <= 2
    ensures Get(Hull(vs).min, axis) <= Get(vs[i], axis) <= Get(Hull(vs).max, axis)
  {
    LowestBounds(vs, axis);
    HighestBounds(vs, axis);
  }

  /** For a non-empty list of finite coordinates the minimum is attained by a vertex. */
  lemma LowestAttained(vs: seq<Vec3>, axis: int)
    requires 0 <= axis <= 2 && vs != []
    requires forall i :: 0 <= i < |vs| ==> Get(vs[i], axis) <= FLT_MAX
    ensures exists i :: 0 <= i < |vs| && Lowest(vs, axis) == Get(vs[i], axis)
  {
    LowestBounds(vs, axis);
    if Lowest(vs, axis) == FLT_MAX {
      assert Get(vs[0], axis) == FLT_MAX;
    }
  }

  /** The maximum is attained by a vertex exactly when some vertex reaches the seed;
      when every coordinate is below the smallest positive float, the seed is kept. */
  lemma HighestAttained(vs: seq<Vec3>, axis: int)
    requires 0 <= axis <= 2
    ensures (exists i :: 0 <= i < |vs| && FLT_MIN <= Get(vs[i], axis)) ==>
      exists i :: 0 <= i < |vs| && Highest(vs, axis) == Get(vs[i], axis)
    ensures (forall i :: 0 <= i < |vs| ==> Get(vs[i], axis) < FLT_MIN) ==>
      Highest(vs, axis) == FLT_MIN
  {
    HighestBounds(vs, axis);
  }

  /** `AABB(vertices)`: one pass keeping six running bounds. */
  method FromVertices(vertices: seq<Vec3>) returns (box: AABB)
    ensures box == Hull(vertices)
  {
    var minX, minY, minZ := FLT_MAX, FLT_MAX, FLT_MAX;
    var maxX, maxY, maxZ := FLT_MIN, FLT_MIN, FLT_MIN;
    var i := 0;
    while i < |vertices|
      invariant 0 <= i <= |vertices|
      invariant minX == Lowest(vertices[..i], 0) && minY == Lowest(vertices[..i], 1) && minZ == Lowest(vertices[..i], 2)
      invariant maxX == Highest(vertices[..i], 0) && maxY == Highest(vertices[..i], 1) && maxZ == Highest(vertices[..i], 2)
    {
      var vertex := vertices[i];
      assert vertices[..i + 1][..i] == vertices[..i];
      minX := Min(minX, vertex.x);
      minY := Min(minY, vertex.y);
      minZ := Min(minZ, vertex.z);
      maxX := Max(maxX, vertex.x);
      maxY := Max(maxY, vertex.y);
      maxZ := Max(maxZ, vertex.z);
      i := i + 1;
    }
    assert vertices[..i] == vertices;
    box := AABB(Vec3(minX, minY, minZ), Vec3(maxX, maxY, maxZ));
  }

  /** The slab tests divide by every direction component; IEEE infinities are not
      modelled, so each component must be nonzero. */
  predicate NonzeroDirection(ray: Ray) {
    ray.direction.x != 0.0 && ray.direction.y != 0.0 && ray.direction.z != 0.0
  }

  /** The entry and exit parameters of one slab, after the swap for a negative direction. */
  datatype Interval = Interval(t0: real, t1: real)

  function Slab(lo: Vec3, hi: Vec3, ray: Ray, axis: int): (s: Interval)
    requires NonzeroDirection(ray) && 0 <= axis <= 2
  {
    var invD := 1.0 / Get(ray.direction, axis);
    var t0 := (Get(lo, axis) - Get(ray.origin, axis)) * invD;
    var t1 := (Get(hi, axis) - Get(ray.origin, axis)) * invD;
    if invD < 0.0 then Interval(t1, t0) else Interval(t0, t1)
  }

  /** What `AABB::hit` answers: every slab, taken on its own, is a non-empty interval. */
  predicate HitsBox(box: AABB, ray: Ray)
    requires NonzeroDirection(ray)
  {
    forall axis :: 0 <= axis <= 2 ==> Slab(box.min, box.max, ray, axis).t0 < Slab(box.min, box.max, ray, axis).t1
  }

  /** `AABB::hit`: the axis loop with its early `return false`. */
  method Hit(box: AABB, ray: Ray) returns (hit: bool)
    requires NonzeroDirection(ray)
    ensures hit == HitsBox(box, ray)
  {
    var axis := 0;
    while axis < 3
      invariant 0 <= axis <= 3
      invariant forall a :: 0 <= a < axis ==> Slab(box.min, box.max, ray, a).t0 < Slab(box.min, box.max, ray, a).t1
    {
      var invD := 1.0 / Get(ray.direction, axis);
      var t0 := (Get(box.min, axis) - Get(ray.origin, axis)) * invD;
      var t1 := (Get(box.max, axis) - Get(ray.origin, axis)) * invD;
      if invD < 0.0 {
        t0, t1 := t1, t0;
      }
      assert Interval(t0, t1) == Slab(box.min, box.max, ray, axis);
      if t1 <= t0 {
        ClosedSlabMisses(box, ray, axis);
        return false;
      }
      axis := axis + 1;
    }
    return true;
  }

  /** One empty slab is enough for the ray to miss the box. */
  lemma ClosedSlabMisses(box: AABB, ray: Ray, axis: int)
    requires NonzeroDirection(ray) && 0 <= axis <= 2
    requires Slab(box.min, box.max, ray, axis).t1 <= Slab(box.min, box.max, ray, axis).t0
    ensures !HitsBox(box, ray)
  {
  }

  /** A slab is a non-empty interval exactly when the box is thick on that axis: the
      ray's origin and direction play no part. */
  lemma SlabOpen(lo: Vec3, hi: Vec3, ray: Ray, axis: int)
    requires NonzeroDirection(ray) && 0 <= axis <= 2
    ensures Slab(lo, hi, ray, axis).t0 < Slab(lo, hi, ray, axis).t1 <==> Get(lo, axis) < Get(hi, axis)
  {
    var d := Get(ray.direction, axis);
    var invD := 1.0 / d;
    var a := Get(lo, axis) - Get(ray.origin, axis);
    var b := Get(hi, axis) - Get(ray.origin, axis);
    var width := Get(hi, axis) - Get(lo, axis);
    calc { b * invD - a * invD; == (b - a) * invD; == width * invD; }
    ReciprocalSign(d);
    if invD < 0.0 {
      ProductSign(width, -invD);
      calc { a * invD - b * invD; == width * -invD; }
    } else {
      ProductSign(width, invD);
    }
  }

  /** `1 / d` has the sign of `d`. */
  lemma ReciprocalSign(d: real)
    requires d != 0.0
    ensures 1.0 / d != 0.0
    ensures (1.0 / d < 0.0) == (d < 0.0)
  {
  }

  lemma ProductSign(a: real, k: real)
    requires 0.0 < k
    ensures (0.0 < a * k) == (0.0 < a)
  {
  }

  /** So `AABB::hit` as written answers the same for every ray: it accepts exactly the
      boxes that are thick on all three axes.  The per-axis intervals are never
      intersected with each other. */
  lemma HitIgnoresRay(box: AABB, ray: Ray)
    requires NonzeroDirection(ray)
    ensures HitsBox(box, ray) <==>
      box.min.x < box.max.x && box.min.y < box.max.y && box.min.z < box.max.z
  {
    SlabOpen(box.min, box.max, ray, 0);
    SlabOpen(box.min, box.max, ray, 1);
    SlabOpen(box.min, box.max, ray, 2);
  }
}
