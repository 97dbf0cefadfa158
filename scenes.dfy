/** The `Scene` of src/renderer.h and src/renderer.cpp: the object and light lists with
    their mutators, the optional floor plane, and `Scene::hit`, which keeps the nearest
    candidate with the plane tried first and the objects in list order. */
module Scenes {
  import opened Wrappers
  import opened Numerics
  import opened Geometry
  import opened Bounds
  import opened Records
  import opened Objects
  import opened Models

  // ----- Objects -----

  /** The three kinds of `IObject` the scene may hold. */
  datatype Shape = SphereShape(sphere: Sphere) | CubeShape(cube: Cube) | ModelShape(model: Model)

  /** What each `hit` needs of the ray and the object: the sphere divides by `a` and by
      its radius, the slab tests divide by every direction component, and the mesh
      indexes its vertex list through the stored faces. */
  predicate ShapeDefined(shape: Shape, ray: Ray, m: MathLib) {
    match shape
    case SphereShape(s) => SphereDefined(s, ray, m)
    case CubeShape(_) => NonzeroDirection(ray)
    case ModelShape(model) => NonzeroDirection(ray) && WellIndexed(model)
  }

  /** The material `getMaterial()` returns. */
  function ShapeMaterial(shape: Shape): Material {
    match shape
    case SphereShape(s) => s.material
    case CubeShape(c) => c.material
    case ModelShape(model) => model.material
  }

  /** `object->hit(ray)`: every hit carries the object's material and a parameter of at
      least epsilon. */
  function ShapeHit(shape: Shape, ray: Ray, m: MathLib): (r: Option<HitRecord>)
    requires SqrtLaw(m) && ShapeDefined(shape, ray, m)
    ensures r.Some? ==> r.value.material == ShapeMaterial(shape) && EPSILON <= r.value.parameter
  {
    match shape
    case SphereShape(s) => SphereHit(s, ray, m)
    case CubeShape(c) => CubeHitSpec(c, ray)
    case ModelShape(model) =>
      var r := ModelHitSpec(model, ray, m);
      if r.Some? then ModelHitIsNearestFace(model, ray, m); r else r
  }

  /** The virtual call, dispatched to the object's own `hit`. */
  method ObjectHit(shape: Shape, ray: Ray, m: MathLib) returns (r: Option<HitRecord>)
    requires SqrtLaw(m) && ShapeDefined(shape, ray, m)
    ensures r == ShapeHit(shape, ray, m)
  {
    match shape
    case SphereShape(s) =>
      r := SphereHit(s, ray, m);
    case CubeShape(c) =>
      r := CubeHit(c, ray);
    case ModelShape(model) =>
      r := ModelHit(model, ray, m);
  }

  // ----- The floor plane -----

  /** The floor's material: the default one with diffuse albedo 1 and a light grey
      diffuse colour. */
  const PlaneMaterial: Material := DefaultMaterial.(diffuseAlbedo := 1.0, diffuse := Vec3(0.8, 0.8, 0.8))

  /** Where the ray meets the plane `y = -3`. */
  function PlaneT(ray: Ray): real
    requires ray.direction.y != 0.0
  {
    -(ray.origin.y + 3.0) / ray.direction.y
  }

  /** The plane's candidate: only when the plane is shown, the ray is not nearly
      horizontal and the crossing lies beyond 0.001; the hit is on the floor `y = -3`,
      with the upward normal. */
  function PlaneHit(show: bool, ray: Ray): (r: Option<HitRecord>)
    ensures r.Some? <==> show && Abs(ray.direction.y) > 0.001 && PlaneT(ray) > 0.001
    ensures r.Some? ==>
      r.value.parameter == PlaneT(ray) && r.value.position == ray.At(r.value.parameter) &&
      r.value.position.y == -3.0 && r.value.normal == Vec3(0.0, 1.0, 0.0) &&
      r.value.material == PlaneMaterial
  {
    if show && Abs(ray.direction.y) > 0.001 then
      var t := PlaneT(ray);
      if t > 0.001 then
        FloorCrossing(ray.origin.y, ray.direction.y);
        Some(HitRecord(ray.At(t), Vec3(0.0, 1.0, 0.0), t, PlaneMaterial))
      else None
    else None
  }

  lemma FloorCrossing(oy: real, dy: real)
    requires dy != 0.0
    ensures oy + dy * (-(oy + 3.0) / dy) == -3.0
  {
    calc {
      dy * (-(oy + 3.0) / dy);
      == -(oy + 3.0);
    }
  }

  // ----- Scene::hit -----

  /** The state of a scene, as a value. */
  datatype SceneView = SceneView(objects: seq<Shape>, lights: seq<Vec3>, planeShown: bool, ambient: real)

  /** Every object's `hit` can be evaluated on the ray. */
  predicate SceneDefined(view: SceneView, ray: Ray, m: MathLib) {
    forall i :: 0 <= i < |view.objects| ==> ShapeDefined(view.objects[i], ray, m)
  }

  /** The objects' results, in list order. */
  function ObjectHits(objects: seq<Shape>, ray: Ray, m: MathLib): (r: seq<Option<HitRecord>>)
    requires SqrtLaw(m) && forall i :: 0 <= i < |objects| ==> ShapeDefined(objects[i], ray, m)
    ensures |r| == |objects|
    ensures forall i :: 0 <= i < |objects| ==> r[i] == ShapeHit(objects[i], ray, m)
  {
    if objects == [] then []
    else ObjectHits(objects[..|objects| - 1], ray, m) + [ShapeHit(objects[|objects| - 1], ray, m)]
  }

  /** The candidates in the order `Scene::hit` tries them: the plane, then the objects. */
  function SceneCandidates(view: SceneView, ray: Ray, m: MathLib): (r: seq<Option<HitRecord>>)
    requires SqrtLaw(m) && SceneDefined(view, ray, m)
    ensures |r| == |view.objects| + 1 && r[0] == PlaneHit(view.planeShown, ray)
    ensures forall i :: 0 <= i < |view.objects| ==> r[i + 1] == ShapeHit(view.objects[i], ray, m)
  {
    [PlaneHit(view.planeShown, ray)] + ObjectHits(view.objects, ray, m)
  }

  /** What `Scene::hit` returns. */
  function SceneHitSpec(view: SceneView, ray: Ray, m: MathLib): Option<HitRecord>
    requires SqrtLaw(m) && SceneDefined(view, ray, m)
  {
    Nearest(SceneCandidates(view, ray, m))
  }

  /** The scene's hit is the first candidate with the least parameter (the plane before
      every object, an earlier object before a later one), and there is none exactly when
      no candidate has a parameter below the largest float. */
  lemma SceneHitNearest(view: SceneView, ray: Ray, m: MathLib)
    requires SqrtLaw(m) && SceneDefined(view, ray, m)
    ensures var cands := SceneCandidates(view, ray, m);
      (SceneHitSpec(view, ray, m).None? <==>
        forall i :: 0 <= i < |cands| && cands[i].Some? ==> FLT_MAX <= cands[i].value.parameter) &&
      (SceneHitSpec(view, ray, m).Some? ==>
        exists k :: IsFirstNearest(cands, k) && SceneHitSpec(view, ray, m) == cands[k])
  {
    NearestSpec(SceneCandidates(view, ray, m));
  }

  /** A hit of the scene lies at least epsilon along the ray and carries the floor's
      material or the material of one of the objects. */
  lemma SceneHitMaterial(view: SceneView, ray: Ray, m: MathLib)
    requires SqrtLaw(m) && SceneDefined(view, ray, m)
    requires SceneHitSpec(view, ray, m).Some?
    ensures var r := SceneHitSpec(view, ray, m).value;
      EPSILON <= r.parameter &&
      (r.material == PlaneMaterial ||
       exists i :: 0 <= i < |view.objects| && r.material == ShapeMaterial(view.objects[i]))
  {
    var cands := SceneCandidates(view, ray, m);
    NearestSpec(cands);
    var k :| IsFirstNearest(cands, k) && Nearest(cands) == cands[k];
    if k > 0 {
      assert cands[(k - 1) + 1] == ShapeHit(view.objects[k - 1], ray, m);
    }
  }

  /** Appending an object changes the scene's hit only when the new object is hit
      strictly nearer than the old result (or the old result was none and the new hit
      lies below the largest float). */
  lemma AddObjectHit(view: SceneView, shape: Shape, ray: Ray, m: MathLib)
    requires SqrtLaw(m) && SceneDefined(view, ray, m) && ShapeDefined(shape, ray, m)
    ensures var after := view.(objects := view.objects + [shape]);
      SceneDefined(after, ray, m) &&
      SceneHitSpec(after, ray, m) ==
        var before := SceneHitSpec(view, ray, m);
        var hit := ShapeHit(shape, ray, m);
        if hit.Some? && hit.value.parameter < Bound(before) then hit else before
  {
    var after := view.(objects := view.objects + [shape]);
    assert forall i :: 0 <= i < |view.objects| ==> after.objects[i] == view.objects[i];
    var cands := SceneCandidates(after, ray, m);
    assert cands[..|cands| - 1] == SceneCandidates(view, ray, m);
  }

  // ----- The container -----

  /** `Scene`: the objects and lights in insertion order, whether the floor is shown, and
      the ambient term. */
  class Scene {
    var objects: seq<Shape>
    var lights: seq<Vec3>
    var planeShown: bool
    var ambient: real

    /** `Scene()`: no objects, no lights, the floor hidden, no ambient light. */
    constructor()
      ensures objects == [] && lights == [] && !planeShown && ambient == 0.0
    {
      objects := [];
      lights := [];
      planeShown := false;
      ambient := 0.0;
    }

    /** The current state as a value. */
    function View(): SceneView
      reads this
    {
      SceneView(objects, lights, planeShown, ambient)
    }

    /** `addObject`: appends at the end, so earlier objects keep their precedence. */
    method AddObject(shape: Shape)
      modifies this
      ensures objects == old(objects) + [shape]
      ensures lights == old(lights) && planeShown == old(planeShown) && ambient == old(ambient)
    {
      objects := objects + [shape];
    }

    /** `objectAt(index)`. */
    method ObjectAt(index: int) returns (shape: Shape)
      requires 0 <= index < |objects|
      ensures shape == objects[index]
    {
      shape := objects[index];
    }

    /** `addLight`: appends at the end. */
    method AddLight(light: Vec3)
      modifies this
      ensures lights == old(lights) + [light]
      ensures objects == old(objects) && planeShown == old(planeShown) && ambient == old(ambient)
    {
      lights := lights + [light];
    }

    /** `lightAt(index)`, read. */
    method LightAt(index: int) returns (light: Vec3)
      requires 0 <= index < |lights|
      ensures light == lights[index]
    {
      light := lights[index];
    }

    /** An assignment through the reference `lightAt(index)` returns: only that light
      changes. */
    method SetLightAt(index: int, light: Vec3)
      requires 0 <= index < |lights|
      modifies this
      ensures lights == old(lights)[index := light]
      ensures objects == old(objects) && planeShown == old(planeShown) && ambient == old(ambient)
    {
      lights := lights[index := light];
    }

    /** `showPlane(show)`: sets only the flag. */
    method ShowPlane(show: bool)
      modifies this
      ensures planeShown == show
      ensures objects == old(objects) && lights == old(lights) && ambient == old(ambient)
    {
      planeShown := show;
    }

    /** `getAmbient()`, read. */
    method GetAmbient() returns (a: real)
      ensures a == ambient
    {
      a := ambient;
    }

    /** An assignment through the reference `getAmbient()` returns. */
    method SetAmbient(a: real)
      modifies this
      ensures ambient == a
      ensures objects == old(objects) && lights == old(lights) && planeShown == old(planeShown)
    {
      ambient := a;
    }

    /** `Scene::hit`: the plane test, then the objects in order, each replacing the
        result only when strictly nearer than the running bound. */
    method Hit(ray: Ray, m: MathLib) returns (result: Option<HitRecord>)
      requires SqrtLaw(m) && SceneDefined(View(), ray, m)
      ensures result == SceneHitSpec(View(), ray, m)
    {
      ghost var cands := SceneCandidates(View(), ray, m);
      result := None;
      var minT := FLT_MAX;
      if planeShown && Abs(ray.direction.y) > 0.001 {
        var t := -(ray.origin.y + 3.0) / ray.direction.y;
        var p := Add(ray.origin, Scale(ray.direction, t));
        if t > 0.001 && t < minT {
          result := Some(HitRecord(p, Vec3(0.0, 1.0, 0.0), t, PlaneMaterial));
          minT := t;
        }
      }
      NearestExtend(cands, 0);
      var i := 0;
      while i < |objects|
        invariant 0 <= i <= |objects|
        invariant result == Nearest(cands[..i + 1])
        invariant minT == Bound(result)
      {
        var record := ObjectHit(objects[i], ray, m);
        NearestExtend(cands, i + 1);
        if record.Some? && record.value.parameter < minT {
          minT := record.value.parameter;
          result := record;
        }
        i := i + 1;
      }
      assert cands[..i + 1] == cands;
    }
  }

  /** A fresh scene shows nothing: every ray misses it. */
  lemma EmptySceneMisses(ray: Ray, m: MathLib)
    requires SqrtLaw(m)
    ensures SceneHitSpec(SceneView([], [], false, 0.0), ray, m).None?
  {
    var cands := SceneCandidates(SceneView([], [], false, 0.0), ray, m);
    NearestExtend(cands, 0);
    assert cands[..1] == cands;
  }
}
