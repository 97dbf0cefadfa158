/** `background` and `castRay` of src/renderer.cpp: a Whitted-style integrator that, at a
    hit, follows one reflected and one refracted ray to depth - 1 and adds a diffuse and a
    specular term summed over the lights. */
module Shading {
  import opened Wrappers
  import opened Numerics
  import opened Geometry
  import opened Records
  import opened Scenes

  /** All three components are non-negative. */
  predicate NonNegative(v: Vec3) {
    0.0 <= v.x && 0.0 <= v.y && 0.0 <= v.z
  }

  /** `background(ray)`: a vertical blend from white at the bottom to sky blue at the
      top; for a unit direction the channels stay within [0.5, 1], [0.7, 1] and {1}. */
  function Background(ray: Ray, m: MathLib): (c: Vec3)
    requires Length(ray.direction, m) != 0.0
    ensures SqrtLaw(m) ==> 0.5 <= c.x <= 1.0 && 0.7 <= c.y <= 1.0 && c.z == 1.0
  {
    var direction := Normalize(ray.direction, m);
    var t := 0.5 * (direction.y + 1.0);
    BlendBounds(direction, m);
    Add(Scale(Vec3(1.0, 1.0, 1.0), 1.0 - t), Scale(Vec3(0.5, 0.7, 1.0), t))
  }

  /** A unit vector's y component lies in [-1, 1]. */
  lemma BlendBounds(direction: Vec3, m: MathLib)
    ensures Dot(direction, direction) == 1.0 ==> -1.0 <= direction.y <= 1.0
  {
    if Dot(direction, direction) == 1.0 {
      calc {
        direction.y * direction.y;
        <= { SquareSign(direction.x); SquareSign(direction.z); }
        direction.x * direction.x + direction.y * direction.y + direction.z * direction.z;
        == 1.0;
      }
      UnitSquareBound(direction.y);
    }
  }

  /** The colour of a ray that is not traced further: the background, dimmed by
      `min(1, 2 * ambient)`. */
  function Sky(view: SceneView, ray: Ray, m: MathLib): Vec3
    requires Length(ray.direction, m) != 0.0
  {
    Scale(Background(ray, m), Min(1.0, 2.0 * view.ambient))
  }

  // ----- The lights loop -----

  /** Every light can be normalised towards from the hit point. */
  predicate LightsDefined(lights: seq<Vec3>, position: Vec3, m: MathLib) {
    forall i :: 0 <= i < |lights| ==> Length(Sub(lights[i], position), m) != 0.0
  }

  /** The unit vector from the hit point towards a light. */
  function Source(light: Vec3, rec: HitRecord, m: MathLib): Vec3
    requires Length(Sub(light, rec.position), m) != 0.0
  {
    Normalize(Sub(light, rec.position), m)
  }

  /** One light's diffuse term, the cosine between the light direction and the normal,
      clamped below at 0. */
  function DiffuseTerm(light: Vec3, rec: HitRecord, m: MathLib): (r: real)
    requires Length(Sub(light, rec.position), m) != 0.0
    ensures 0.0 <= r
  {
    Max(0.0, Dot(Source(light, rec, m), rec.normal))
  }

  /** One light's specular term: the clamped cosine between the mirrored light direction
      and the viewing direction, raised to the shininess. */
  function SpecularTerm(light: Vec3, rec: HitRecord, direction: Vec3, m: MathLib): (r: real)
    requires Length(Sub(light, rec.position), m) != 0.0 && Length(direction, m) != 0.0
    ensures PowLaw(m) ==> 0.0 <= r
  {
    var mirrored := Neg(Reflect(Neg(Source(light, rec, m)), rec.normal));
    m.pow(Max(0.0, Dot(mirrored, Normalize(direction, m))), rec.material.shininess)
  }

  /** The diffuse accumulator after the given lights, starting from the ambient term. */
  function DiffuseSum(ambient: real, lights: seq<Vec3>, rec: HitRecord, m: MathLib): real
    requires LightsDefined(lights, rec.position, m)
  {
    if lights == [] then ambient
    else DiffuseSum(ambient, lights[..|lights| - 1], rec, m) + DiffuseTerm(lights[|lights| - 1], rec, m)
  }

  /** The specular accumulator after the given lights, starting from 0. */
  function SpecularSum(lights: seq<Vec3>, rec: HitRecord, direction: Vec3, m: MathLib): real
    requires LightsDefined(lights, rec.position, m) && (lights != [] ==> Length(direction, m) != 0.0)
  {
    if lights == [] then 0.0
    else SpecularSum(lights[..|lights| - 1], rec, direction, m) + SpecularTerm(lights[|lights| - 1], rec, direction, m)
  }

  /** Lights only add to the diffuse accumulator: it never drops below the ambient term. */
  lemma {:induction false} DiffuseAtLeastAmbient(ambient: real, lights: seq<Vec3>, rec: HitRecord, m: MathLib)
    requires LightsDefined(lights, rec.position, m)
    ensures ambient <= DiffuseSum(ambient, lights, rec, m)
  {
    if lights != [] {
      DiffuseAtLeastAmbient(ambient, lights[..|lights| - 1], rec, m);
    }
  }

  /** With a `pow` that keeps non-negative bases non-negative, so is the specular sum. */
  lemma {:induction false} SpecularNonNegative(lights: seq<Vec3>, rec: HitRecord, direction: Vec3, m: MathLib)
    requires PowLaw(m)
    requires LightsDefined(lights, rec.position, m) && (lights != [] ==> Length(direction, m) != 0.0)
    ensures 0.0 <= SpecularSum(lights, rec, direction, m)
  {
    if lights != [] {
      SpecularNonNegative(lights[..|lights| - 1], rec, direction, m);
    }
  }

  // ----- castRay -----

  /** The two secondary rays, from the hit point: the mirror direction, and the
      refracted one with the material's index against air (`eta_i = 1`). */
  function ReflectedRay(ray: Ray, rec: HitRecord): Ray {
    Ray(rec.position, Reflect(ray.direction, rec.normal))
  }

  function RefractedRay(ray: Ray, rec: HitRecord, m: MathLib): Ray
    requires RefractDefined(ray.direction, rec.normal, rec.material.refractive, 1.0)
  {
    Ray(rec.position, Refract(ray.direction, rec.normal, rec.material.refractive, 1.0, m))
  }

  /** Shading a hit divides only where defined: towards each light, by the length of
      the view direction when there is a light, and in `Refract`. */
  predicate ShadingDefined(view: SceneView, ray: Ray, rec: HitRecord, m: MathLib) {
    LightsDefined(view.lights, rec.position, m) &&
    (view.lights != [] ==> Length(ray.direction, m) != 0.0) &&
    RefractDefined(ray.direction, rec.normal, rec.material.refractive, 1.0)
  }

  /** The two calls of `castRay` whose results it only passes on: `scene.hit(ray)`, and
      the refracted ray at a hit.  The colour is specified against any such pair of
      functions; `Answers` ties them to `Scene::hit` and to `Refract`. */
  datatype Tracer = Tracer(hit: Ray -> Option<HitRecord>, refract: (Ray, HitRecord) -> Ray)

  /** `hit` agrees with the scene's nearest hit on every ray the scene can test. */
  ghost predicate HitsScene(view: SceneView, hit: Ray -> Option<HitRecord>, m: MathLib) {
    SqrtLaw(m) ==>
      forall r {:trigger SceneHitSpec(view, r, m)} :: SceneDefined(view, r, m) ==> hit(r) == SceneHitSpec(view, r, m)
  }

  /** `refract` agrees with `RefractedRay` wherever `Refract` is defined. */
  ghost predicate RefractsRay(refract: (Ray, HitRecord) -> Ray, m: MathLib) {
    forall ray: Ray, rec: HitRecord {:trigger RefractedRay(ray, rec, m)} ::
      RefractDefined(ray.direction, rec.normal, rec.material.refractive, 1.0) ==>
        refract(ray, rec) == RefractedRay(ray, rec, m)
  }

  ghost predicate Answers(view: SceneView, t: Tracer, m: MathLib) {
    HitsScene(view, t.hit, m) && RefractsRay(t.refract, m)
  }

  /** The scene's own pair: `None` where the scene cannot test the ray, and the ray
      itself where `Refract` is undefined. */
  ghost function SceneTracer(view: SceneView, m: MathLib): (t: Tracer)
    ensures Answers(view, t, m)
  {
    Tracer(r => if SqrtLaw(m) && SceneDefined(view, r, m) then SceneHitSpec(view, r, m) else None,
           (ray: Ray, rec: HitRecord) =>
             if RefractDefined(ray.direction, rec.normal, rec.material.refractive, 1.0)
             then RefractedRay(ray, rec, m) else ray)
  }

  /** `castRay(ray, scene, depth)` performs only defined operations: the background at
      depth 0 or on a miss, and `HitTraceable` at a hit. */
  predicate Traceable(view: SceneView, t: Tracer, ray: Ray, depth: int, m: MathLib)
    decreases depth, 1
  {
    if depth <= 0 then Length(ray.direction, m) != 0.0
    else
      SceneDefined(view, ray, m) &&
      match t.hit(ray)
      case None => Length(ray.direction, m) != 0.0
      case Some(rec) => HitTraceable(view, t, ray, rec, depth, m)
  }

  /** At a hit: the shading and both secondary rays one level down. */
  predicate HitTraceable(view: SceneView, t: Tracer, ray: Ray, rec: HitRecord, depth: int, m: MathLib)
    requires 0 < depth
    decreases depth, 0
  {
    ShadingDefined(view, ray, rec, m) &&
    Traceable(view, t, ReflectedRay(ray, rec), depth - 1, m) &&
    Traceable(view, t, t.refract(ray, rec), depth - 1, m)
  }

  /** The colour at a hit: diffuse and specular colours weighted by their albedos and by
      the accumulators capped at 1, plus the reflected and refracted colours weighted by
      their albedos.  The sum itself is not clamped. */
  function Shade(view: SceneView, ray: Ray, rec: HitRecord, reflected: Vec3, refracted: Vec3, m: MathLib): Vec3
    requires ShadingDefined(view, ray, rec, m)
  {
    var material := rec.material;
    var diffuse := DiffuseSum(view.ambient, view.lights, rec, m);
    var specular := SpecularSum(view.lights, rec, ray.direction, m);
    Add(Add(Add(Scale(Scale(material.diffuse, material.diffuseAlbedo), Min(1.0, diffuse)),
                Scale(Scale(material.specular, material.specularAlbedo), Min(1.0, specular))),
            Scale(reflected, material.reflectAlbedo)),
        Scale(refracted, material.refractAlbedo))
  }

  /** The colour `castRay` computes: the sky when out of depth or on a miss, and
      `HitRadiance` at a hit. */
  function Radiance(view: SceneView, t: Tracer, ray: Ray, depth: int, m: MathLib): Vec3
    requires Traceable(view, t, ray, depth, m)
    decreases depth, 1
  {
    if depth <= 0 then Sky(view, ray, m)
    else
      match t.hit(ray)
      case None => Sky(view, ray, m)
      case Some(rec) => HitRadiance(view, t, ray, rec, depth, m)
  }

  /** The colour at a hit: its shading with the colours of both secondary rays, traced
      one level down. */
  function HitRadiance(view: SceneView, t: Tracer, ray: Ray, rec: HitRecord, depth: int, m: MathLib): Vec3
    requires 0 < depth && HitTraceable(view, t, ray, rec, depth, m)
    decreases depth, 0
  {
    Shade(view, ray, rec,
          Radiance(view, t, ReflectedRay(ray, rec), depth - 1, m),
          Radiance(view, t, t.refract(ray, rec), depth - 1, m), m)
  }

  /** The loop over the lights in `castRay`: the ambient term plus every light's diffuse
      contribution, and the sum of every light's specular contribution. */
  method LightTerms(scene: Scene, rec: HitRecord, direction: Vec3, m: MathLib) returns (diffuse: real, specular: real)
    requires LightsDefined(scene.lights, rec.position, m) && (scene.lights != [] ==> Length(direction, m) != 0.0)
    ensures diffuse == DiffuseSum(scene.ambient, scene.lights, rec, m)
    ensures specular == SpecularSum(scene.lights, rec, direction, m)
  {
    diffuse := scene.GetAmbient();
    specular := 0.0;
    var lights := scene.lights;
    var i := 0;
    while i < |lights|
      invariant 0 <= i <= |lights|
      invariant diffuse == DiffuseSum(scene.ambient, lights[..i], rec, m)
      invariant specular == SpecularSum(lights[..i], rec, direction, m)
    {
      var light := lights[i];
      assert lights[..i + 1][..i] == lights[..i];
      var source := Normalize(Sub(light, rec.position), m);
      diffuse := diffuse + Max(0.0, Dot(source, rec.normal));
      var r := Neg(Reflect(Neg(source), rec.normal));
      specular := specular + m.pow(Max(0.0, Dot(r, Normalize(direction, m))), rec.material.shininess);
      i := i + 1;
    }
    assert lights[..i] == lights;
  }

  /** The refracted ray of `castRay`: from the hit point, in the direction `Refract`
      gives for the material's index against air. */
  method RefractRay(ray: Ray, rec: HitRecord, m: MathLib, ghost t: Tracer) returns (r: Ray)
    requires RefractsRay(t.refract, m)
    requires RefractDefined(ray.direction, rec.normal, rec.material.refractive, 1.0)
    ensures r == t.refract(ray, rec)
  {
    var direction := Refract(ray.direction, rec.normal, rec.material.refractive, 1.0, m);
    r := Ray(rec.position, direction);
    assert r == RefractedRay(ray, rec, m);
  }

  /** The scene query of `castRay`, `scene.hit(ray)`. */
  method HitScene(ray: Ray, scene: Scene, m: MathLib, ghost t: Tracer) returns (record: Option<HitRecord>)
    requires SqrtLaw(m) && HitsScene(scene.View(), t.hit, m) && SceneDefined(scene.View(), ray, m)
    ensures record == t.hit(ray)
  {
    record := scene.Hit(ray, m);
  }

  /** `castRay`: the recursion on both secondary rays, then the loop over the lights. */
  method CastRay(ray: Ray, scene: Scene, depth: int, m: MathLib, ghost t: Tracer) returns (color: Vec3)
    requires SqrtLaw(m) && Answers(scene.View(), t, m) && Traceable(scene.View(), t, ray, depth, m)
    ensures color == Radiance(scene.View(), t, ray, depth, m)
    decreases depth
  {
    if depth <= 0 {
      var ambient := scene.GetAmbient();
      return Scale(Background(ray, m), Min(1.0, 2.0 * ambient));
    }
    ghost var view := scene.View();
    var record := HitScene(ray, scene, m, t);
    if record.Some? {
      var rec := record.value;
      assert HitTraceable(view, t, ray, rec, depth, m);
      var material := rec.material;
      var reflectDir := Reflect(ray.direction, rec.normal);
      var refractRay := RefractRay(ray, rec, m, t);
      var reflected := CastRay(Ray(rec.position, reflectDir), scene, depth - 1, m, t);
      var refracted := CastRay(refractRay, scene, depth - 1, m, t);

      var diffuse, specular := LightTerms(scene, rec, ray.direction, m);
      color := Add(Add(Add(Scale(Scale(material.diffuse, material.diffuseAlbedo), Min(1.0, diffuse)),
                           Scale(Scale(material.specular, material.specularAlbedo), Min(1.0, specular))),
                       Scale(reflected, material.reflectAlbedo)),
                   Scale(refracted, material.refractAlbedo));
      assert color == Shade(view, ray, rec, reflected, refracted, m);
      assert Radiance(view, t, ray, depth, m) == HitRadiance(view, t, ray, rec, depth, m);
      return;
    }
    var ambient := scene.GetAmbient();
    return Scale(Background(ray, m), Min(1.0, 2.0 * ambient));
  }

  // ----- Properties -----

  /** A miss at any depth shows the same colour as running out of depth. */
  lemma MissShowsSky(view: SceneView, t: Tracer, ray: Ray, depth: int, m: MathLib)
    requires 0 < depth && Traceable(view, t, ray, depth, m) && t.hit(ray).None?
    ensures Traceable(view, t, ray, 0, m) && Radiance(view, t, ray, depth, m) == Radiance(view, t, ray, 0, m)
  {
  }

  /** Out of depth, the scene's objects, lights and plane and the query functions play no
      part: only the ambient term and the ray do. */
  lemma OutOfDepthIgnoresScene(view: SceneView, t: Tracer, other: SceneView, otherT: Tracer,
                               ray: Ray, depth: int, m: MathLib)
    requires depth <= 0 && other.ambient == view.ambient && Traceable(view, t, ray, depth, m)
    ensures Traceable(other, otherT, ray, depth, m)
    ensures Radiance(other, otherT, ray, depth, m) == Radiance(view, t, ray, depth, m)
  {
  }

  /** A material none of whose colours or weights is negative. */
  predicate Paintable(material: Material) {
    NonNegative(material.diffuse) && NonNegative(material.specular) &&
    0.0 <= material.diffuseAlbedo && 0.0 <= material.specularAlbedo &&
    0.0 <= material.reflectAlbedo && 0.0 <= material.refractAlbedo
  }

  /** A scene with a non-negative ambient term whose objects all have paintable
      materials. */
  predicate ScenePaintable(view: SceneView) {
    0.0 <= view.ambient &&
    forall i :: 0 <= i < |view.objects| ==> Paintable(ShapeMaterial(view.objects[i]))
  }

  lemma ScaleNonNegative(v: Vec3, k: real)
    requires NonNegative(v) && 0.0 <= k
    ensures NonNegative(Scale(v, k))
  {
  }

  /** Every hit of a paintable scene carries a paintable material. */
  lemma HitPaintable(view: SceneView, t: Tracer, ray: Ray, m: MathLib)
    requires SqrtLaw(m) && Answers(view, t, m) && ScenePaintable(view)
    requires SceneDefined(view, ray, m) && t.hit(ray).Some?
    ensures Paintable(t.hit(ray).value.material)
  {
    assert t.hit(ray) == SceneHitSpec(view, ray, m);
    SceneHitMaterial(view, ray, m);
  }

  /** In a paintable scene (and with a `pow` that keeps non-negative bases
      non-negative) every channel `castRay` returns is non-negative, as `setPixel`
      requires. */
  lemma {:induction false} RadianceNonNegative(view: SceneView, t: Tracer, ray: Ray, depth: int, m: MathLib)
    requires SqrtLaw(m) && PowLaw(m) && Answers(view, t, m) && ScenePaintable(view)
    requires Traceable(view, t, ray, depth, m)
    ensures NonNegative(Radiance(view, t, ray, depth, m))
    decreases depth
  {
    if depth <= 0 || t.hit(ray).None? {
      ScaleNonNegative(Background(ray, m), Min(1.0, 2.0 * view.ambient));
    } else {
      var rec := t.hit(ray).value;
      HitPaintable(view, t, ray, m);
      RadianceNonNegative(view, t, ReflectedRay(ray, rec), depth - 1, m);
      RadianceNonNegative(view, t, t.refract(ray, rec), depth - 1, m);
      DiffuseAtLeastAmbient(view.ambient, view.lights, rec, m);
      SpecularNonNegative(view.lights, rec, ray.direction, m);
      ShadeNonNegative(view, ray, rec,
                       Radiance(view, t, ReflectedRay(ray, rec), depth - 1, m),
                       Radiance(view, t, t.refract(ray, rec), depth - 1, m), m);
    }
  }

  lemma ShadeNonNegative(view: SceneView, ray: Ray, rec: HitRecord, reflected: Vec3, refracted: Vec3, m: MathLib)
    requires ShadingDefined(view, ray, rec, m) && Paintable(rec.material)
    requires NonNegative(reflected) && NonNegative(refracted)
    requires 0.0 <= DiffuseSum(view.ambient, view.lights, rec, m)
    requires 0.0 <= SpecularSum(view.lights, rec, ray.direction, m)
    ensures NonNegative(Shade(view, ray, rec, reflected, refracted, m))
  {
    var material := rec.material;
    var diffuse := DiffuseSum(view.ambient, view.lights, rec, m);
    var specular := SpecularSum(view.lights, rec, ray.direction, m);
    ScaleNonNegative(material.diffuse, material.diffuseAlbedo);
    ScaleNonNegative(Scale(material.diffuse, material.diffuseAlbedo), Min(1.0, diffuse));
    ScaleNonNegative(material.specular, material.specularAlbedo);
    ScaleNonNegative(Scale(material.specular, material.specularAlbedo), Min(1.0, specular));
    ScaleNonNegative(reflected, material.reflectAlbedo);
    ScaleNonNegative(refracted, material.refractAlbedo);
  }
}
