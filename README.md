# A verified model of a small Whitted-style ray tracer

This project models the rendering engine of a small C++ ray tracer in Dafny and proves
properties of that model. The engine covers:

- vector algebra with reflection and refraction;
- affine transforms and axis-aligned bounding boxes;
- sphere, cube and triangle-mesh hit tests and the line-oriented mesh loader;
- the scene's nearest-hit query;
- the pinhole camera;
- the recursive `castRay` integrator and the per-pixel render loop;
- the byte framebuffer it writes into.

Single-precision floats are modelled by Dafny's `real`. `sqrt`, `tan`, `sin`, `cos` and
`pow` are not defined: a `Numerics.MathLib` value is any choice of them, passed to every
operation that calls one. The only facts used about them are two predicates, taken as
preconditions where needed:

- `SqrtLaw`: on non-negative input, `sqrt` is the non-negative square root.
- `PowLaw`: a non-negative base gives a non-negative power.

The limits `numeric_limits<float>::max()` and `::min()` are the exact reals `FLT_MAX`
and `FLT_MIN`. `FLT_MIN` is 2^-126, the smallest positive normal float.

Each module follows one part of the program:

| module | file | models |
|---|---|---|
| `Wrappers`, `Numerics` | numerics.dfy | `std::optional` and exceptions as `Option`/`Result`; the maths library; `min`, `max`, `abs` |
| `Geometry` | geometry.dfy | `Vec3` and its operators, `Dot`, `Cross`, `Length`, `Normalize`, `Reflect`, `Refract`, `Ray::at` |
| `Transforms` | transforms.dfy | the 4x4 `Transform` constructors and `apply` |
| `Bounds` | bounds.dfy | the `AABB` constructor (a running min/max loop) and the slab test `AABB::hit` |
| `Records` | records.dfy | `Material` with its defaults, `HitRecord`, and the nearest-hit scan shared by `Model::hit` and `Scene::hit` |
| `Objects` | objects.dfy | `Sphere` and `Cube`, with their constructors and hit tests |
| `Models` | models.dfy | the mesh loader over pre-split lines, `Model::vertex`, Möller–Trumbore `intersection`, `Model::hit` |
| `Scenes` | scenes.dfy | the plane, `Scene` (a class whose mutators update its lists in place) and `Scene::hit` |
| `Cameras` | cameras.dfy | `Camera` (a class whose `update` overwrites its viewport fields) and `generateRay` |
| `Shading` | shading.dfy | `background` and `castRay` |
| `Framebuffers` | framebuffers.dfy | `Framebuffer`: an array of bytes, cleared and written in place |
| `Rendering` | rendering.dfy | `Render`: the nested loop over pixels |

The source's loops are methods with `while` loops. Each is proved equal to a function
that specifies it:

- `Bounds.FromVertices` and `Bounds.Hit`;
- `Objects.CubeHit`;
- `Models.Load` and `Models.ModelHit`;
- `Scenes.Scene.Hit`;
- `Shading.LightTerms`;
- `Framebuffers.Framebuffer.Clear`;
- `Rendering.Render`.

The properties the program relies on are lemmas about those functions. For example, the
nearest hit is the first candidate with the least parameter, and `Refract` recurses at
most once.

`castRay` needs `Scene::hit` and `Refract` for every ray it traces. The specification
`Shading.Radiance` takes them through a `Tracer`: a pair of functions tied to
`Scenes.SceneHitSpec` and `Geometry.Refract` by the predicate `Shading.Answers`.
`Shading.SceneTracer` shows that such a tracer always exists. `Shading.CastRay` is proved
equal to `Radiance`. `Rendering.Render` is proved to write, at every pixel, the bytes of
`Radiance` for that pixel's ray.

The default coefficients of `Material()` are the constant `Records.DefaultMaterial`:

- `diffuseAlbedo` 0.145 and `specularAlbedo` 0.125;
- `reflectAlbedo` 0 and `refractAlbedo` 0.655;
- `shininess` 1000 and `refractive` 4;
- black diffuse and specular colours.

The plane's material `Scenes.PlaneMaterial` is that default with `diffuseAlbedo` 1 and
diffuse colour (0.8, 0.8, 0.8). `Objects.DefaultSphere` is the unit sphere at the origin.
`Objects.DefaultCube` spans (-3,-3,-3) to (3,3,3).

## Model

| member | source | states |
|---|---|---|
| Numerics.Min | src/renderer.cpp:79 | `std::min`: the result is at most both arguments and is one of them |
| Numerics.Max | src/renderer.cpp:94 | `std::max`: the result is at least both arguments and is one of them |
| Numerics.Abs | src/renderer.cpp:40 | `std::abs`: the result is non-negative and is `x` or `-x` |
| Geometry.Splat | src/geometry.h:21 | `Vec3(v)`: all three components equal `v`; `Zero` is `Splat(0)`, the default vector |
| Geometry.Get | src/geometry.h:30-33 | `vector[i]` for `i` in 0..2, the asserted range, as the requires: the x, y or z component |
| Geometry.Sign | src/geometry.h:10-14 | the result is -1, 0 or 1; it is 0 exactly for 0; it never has the opposite sign of the value |
| Geometry.Set | src/geometry.h:26-33 | writing component `i` (which must be 0, 1 or 2) sets that component and keeps the other two |
| Geometry.NegInverse | src/geometry.h:86-88 | unary minus is the additive inverse: `v + (-v)` is the zero vector |
| Geometry.Add | src/geometry.h:90-93 | `a + b`, component by component |
| Geometry.AddScalar | src/geometry.h:95-98 | `vector + value`, adding `value` to every component |
| Geometry.Neg | src/geometry.h:86-88 | `-vector`, every component negated |
| Geometry.Sub | src/geometry.h:100-103 | vector subtraction undoes addition: `(a - b) + b == a` |
| Geometry.SubScalar | src/geometry.h:105-108 | subtracting a scalar from every component is undone by adding it back |
| Geometry.Scale | src/geometry.h:110-118 | `vector * factor` and `factor * vector`, every component times `factor` |
| Geometry.Mul | src/geometry.h:120-123 | `vector * other`, component by component |
| Geometry.Div | src/geometry.h:125-128 | division needs a nonzero divisor, and scaling the quotient by the divisor gives the vector back |
| Geometry.Dot | src/geometry.h:130-132 | `a.x b.x + a.y b.y + a.z b.z` |
| Geometry.Cross | src/geometry.h:134-140 | the cross product is orthogonal to both arguments |
| Geometry.LagrangeIdentity | src/geometry.h:134-140 | Lagrange's identity: `Dot(a, a) Dot(b, b) - Dot(a, b)^2 == Dot(a x b, a x b)` |
| Geometry.Length | src/geometry.h:142-144 | under `SqrtLaw` the length is non-negative and squares to `Dot(v, v)` |
| Geometry.LengthZero | src/geometry.h:142-144 | under `SqrtLaw` the length is 0 exactly for the zero vector |
| Geometry.Normalize | src/geometry.h:146-148 | under `SqrtLaw` the normalised vector has unit length |
| Geometry.Reflect | src/geometry.h:150-152 | about a unit normal, reflection negates the normal component and keeps the squared length |
| Geometry.ReflectTwice | src/geometry.h:150-152 | about a unit normal, reflecting twice gives the incident vector back |
| Geometry.CosIncidence | src/geometry.h:155 | `-max(-1, min(1, Dot(I, N)))`, the clamped cosine of incidence |
| Geometry.RefractDefined | src/geometry.h:157 | the division `eta_i / eta_t` on the side `Refract` ends on has a nonzero divisor |
| Geometry.Discriminant | src/geometry.h:158 | `k = 1 - eta^2 (1 - cosi^2)` |
| Geometry.Transmitted | src/geometry.h:159 | Snell's direction `I eta + N (eta cosi - sqrt(k))` on the oriented surface |
| Geometry.RefractFacing | src/geometry.h:157-159 | one call of `Refract` past its flip test: `eta = eta_i / eta_t`, and (1,0,0) when `k < 0`, otherwise Snell's direction |
| Geometry.Refract | src/geometry.h:154-160 | `Refract(I, N, eta_t, eta_i)`: with a negative cosine, the facing computation with `-N` and the indices swapped, otherwise with `N` |
| Geometry.CosIncidenceFlip | src/geometry.h:155 | negating the normal negates the clamped cosine of incidence |
| Geometry.RefractFlipsOnce | src/geometry.h:155-156 | after the flip, the recursive call's cosine is positive, so its own flip branch is not taken |
| Geometry.RefractRecursion | src/geometry.h:156 | from behind the normal, `Refract` equals `Refract` with the normal negated and the indices swapped, and that call is defined |
| Geometry.Orient | src/geometry.h:155-157 | the side `Refract` ends on has cosine in [0, 1] and uses the normal or its negation |
| Geometry.RefractClosedForm | src/geometry.h:157-159 | `Refract` returns exactly (1,0,0) when the discriminant `k` is negative, and Snell's direction otherwise |
| Geometry.RefractTangent | src/geometry.h:154-160 | about a unit normal, without total internal reflection, the tangential part of the refracted direction is `eta` times that of the incident one |
| Geometry.TransmittedUnit | src/geometry.h:158-159 | under `SqrtLaw`, Snell's direction on an oriented unit normal, for a unit incident direction and a non-negative discriminant, has length 1 |
| Geometry.RefractUnit | src/geometry.h:154-160 | under `SqrtLaw`, a unit incident direction and a unit normal refract (without total internal reflection) to a unit direction |
| Geometry.Ray.At | src/geometry.h:189-191 | `at(t) - origin == t * direction`, and `at(0)` is the origin |
| Transforms.Apply | src/geometry.cpp:67-74 | the result scaled by `w` is the first three rows applied to the point; `w` must be nonzero |
| Transforms.RowApply | src/geometry.cpp:69-72 | one row of the matrix applied to the point `(v, 1)` |
| Transforms.W | src/geometry.cpp:72 | `w`, the bottom row applied to `(v, 1)` |
| Transforms.AffineApply | src/geometry.cpp:67-74 | with bottom row (0,0,0,1), `w == 1` and the final division changes nothing |
| Transforms.Identity | src/geometry.cpp:16-21 | the identity is affine and maps every point to itself |
| Transforms.Translate | src/geometry.cpp:23-28 | the translation is affine and adds `(tx, ty, tz)` to every point |
| Transforms.RotateX | src/geometry.cpp:30-38 | for any sine and cosine, the rotation is affine, keeps every point's `x` and fixes the centre |
| Transforms.RotateY | src/geometry.cpp:40-48 | for any sine and cosine, the rotation is affine, keeps every point's `y` and fixes the centre |
| Transforms.RotateZ | src/geometry.cpp:50-58 | for any sine and cosine, the rotation is affine, keeps every point's `z` and fixes the centre |
| Transforms.Scaling | src/geometry.cpp:60-65 | the scaling is affine, fixes the pivot and maps each component to `c_i + s_i (p_i - c_i)` |
| Transforms.ScalingApply | src/geometry.cpp:60-65 | every point is mapped to `c_i + s_i (p_i - c_i)` componentwise |
| Transforms.AboutPivot | src/geometry.cpp:60-65 | the point `c_i + s_i (p_i - c_i)`, coordinate by coordinate |
| Bounds.Lowest | src/geometry.cpp:77-90 | the running `std::min` of one coordinate over the vertices, seeded with `FLT_MAX` |
| Bounds.Highest | src/geometry.cpp:80-90 | the running `std::max` of one coordinate over the vertices, seeded with `FLT_MIN`, the smallest positive float |
| Bounds.Hull | src/geometry.cpp:91-92 | the box of the three running minima and the three running maxima |
| Bounds.LowestBounds | src/geometry.cpp:77-90 | the running minimum is at most `FLT_MAX` and at most every vertex's coordinate, and it is `FLT_MAX` or some vertex's coordinate |
| Bounds.HighestBounds | src/geometry.cpp:80-90 | the running maximum is at least `FLT_MIN` and at least every vertex's coordinate, and it is `FLT_MIN` or some vertex's coordinate |
| Bounds.LowestAttained | src/geometry.cpp:83-86 | for non-empty input, the minimum is attained by some vertex |
| Bounds.HighestAttained | src/geometry.cpp:80-89 | the maximum is attained by a vertex when some coordinate reaches `FLT_MIN`; when all coordinates are below `FLT_MIN`, it stays `FLT_MIN` |
| Bounds.HullContains | src/geometry.cpp:76-93 | every vertex lies between the box's `min` and `max` on every axis |
| Bounds.Slab | src/geometry.cpp:97-100 | one axis's entry and exit parameters, `(min - o) * (1/d)` and `(max - o) * (1/d)`, swapped when `1/d < 0` |
| Bounds.HitsBox | src/geometry.cpp:95-104 | every axis has its exit parameter above its entry parameter |
| Bounds.FromVertices | src/geometry.cpp:76-93 | the constructor's loop over the vertices builds the box of running minima and maxima |
| Bounds.SlabOpen | src/geometry.cpp:97-101 | after the swap, an axis's exit bound exceeds its entry bound exactly when that axis's `min` is below its `max` |
| Bounds.Hit | src/geometry.cpp:95-104 | the axis loop with early return decides `HitsBox`: no axis has exit bound at most its entry bound |
| Bounds.HitIgnoresRay | src/geometry.cpp:95-104 | because the axis intervals are never intersected, the test holds exactly when the box is non-degenerate on all three axes, whatever the ray |
| Records.DefaultMaterial | src/renderer.h:7-17 | `Material()`: black diffuse and specular colours, albedos 0.145, 0.125, 0 and 0.655, shininess 1000, refractive index 4 |
| Records.Bound | src/renderer.cpp:38 | the running `minT`: the best parameter so far, or `FLT_MAX` before any |
| Records.Nearest | src/renderer.cpp:57-65 | the scan over the candidates in order: a candidate replaces the best so far only when its parameter is strictly below the running bound |
| Records.NearestSpec | src/renderer.cpp:57-65 | the strict-`<` scan from `FLT_MAX` finds nothing exactly when no candidate is below `FLT_MAX`; otherwise it finds the first candidate with the least parameter |
| Records.FirstNearestUnique | src/renderer.cpp:60 | at most one candidate is the first with the least parameter, so ties go to the earliest |
| Records.NearestIsFirstNearest | src/model.cpp:48 | the first candidate with the least parameter is what the scan returns |
| Records.NearestExtend | src/model.cpp:48-52 | one more candidate replaces the best so far only when its parameter is strictly below the running bound |
| Objects.NewSphere | src/objects.cpp:6 | `Sphere(c, r)`: the given centre and radius with the default material |
| Objects.DefaultSphere | src/objects.cpp:4 | `Sphere()`: the unit sphere at the origin |
| Objects.QuadA | src/objects.cpp:11 | `a = Dot(d, d)` |
| Objects.QuadH | src/objects.cpp:12 | `h = Dot(o - center, d)` |
| Objects.QuadC | src/objects.cpp:13 | `c = Dot(o - center, o - center) - radius^2` |
| Objects.SphereDiscriminant | src/objects.cpp:15 | `h^2 - a c` |
| Objects.NearRoot | src/objects.cpp:19 | the near root `(-h - sqrt(discriminant)) / a` |
| Objects.SphereHit | src/objects.cpp:8-29 | no hit exactly when the discriminant is negative or the near root is below 0.001; a hit has that root as its parameter, position `ray.at(root)`, normal `(position - center) / radius` and the sphere's material |
| Objects.SphereHitOnSurface | src/objects.cpp:23-28 | under `SqrtLaw`, a hit lies at distance `radius` from the centre and has a unit normal |
| Objects.SphereInsideMiss | src/objects.cpp:19-21 | a ray starting inside the sphere misses, although the far root `(-h + sqrt(disc)) / a` is positive |
| Objects.NewCube | src/objects.cpp:33 | the cube keeps its corners, has the default material, and its centre is their midpoint |
| Objects.DefaultCube | src/objects.cpp:31 | `Cube()`: the cube from (-3,-3,-3) to (3,3,3) |
| Objects.DefaultCubeCentred | src/objects.cpp:31 | the default cube is centred on the origin |
| Objects.ScanAxes | src/objects.cpp:37-53 | the loop state's `normalAxis` is always a valid component index |
| Objects.ScanExit | src/objects.cpp:39-52 | `tMax` is the least exit bound over the axes (or `FLT_MAX` when that is smaller) |
| Objects.ScanEntry | src/objects.cpp:37-51 | `tMin` is the greatest entry bound (or the seed `FLT_MIN`); `normalAxis` is the first axis whose entry bound attains it, or 0 when none exceeds the seed |
| Objects.CubeRecord | src/objects.cpp:59-67 | the record at `ray.at(tMin)` whose normal is zero except `Sign((point - center)[normalAxis])` on the entry axis |
| Objects.CubeHitSpec | src/objects.cpp:54-68 | no hit exactly when `tMin >= tMax` or `tMin < 0.001`; a hit is at `ray.at(tMin)` with the cube's material, and its normal is zero except on `normalAxis`, where it is the sign of the offset from the centre |
| Objects.CubeHit | src/objects.cpp:35-69 | the axis loop and record construction compute `CubeHitSpec` |
| Models.ParseStep | src/model.cpp:16-29 | one line: a `v` line appends its vertex, an `f` line with three indices appends them minus 1, an `f` line with any other count fails with "Not triangulated model", any other line changes nothing |
| Models.ParseLines | src/model.cpp:12-30 | the lines in order, stopping at the first failure |
| Models.LoadSpec | src/model.cpp:6-34 | the parsed lists with their bounding box and the box's midpoint as centre, or the parse error |
| Models.Shifted | src/model.cpp:24-26 | each index of a face line is stored minus 1, in order |
| Models.LineKindsDisjoint | src/model.cpp:16-20 | no line is both a vertex line and a face line |
| Models.ParseCharacterised | src/model.cpp:16-29 | any face line without exactly three indices makes loading fail with "Not triangulated model"; otherwise the vertices are those of the `v` lines and the faces the shifted indices of the `f` lines, in order, and other lines change nothing |
| Models.ParseErrorSticks | src/model.cpp:28 | once a line fails, the later lines do not matter: the first failure ends the constructor |
| Models.Load | src/model.cpp:6-34 | the line loop, the bounding box and the centre compute `LoadSpec` |
| Models.FacesAreTriples | src/model.cpp:20-28 | after a successful load the face list length is a multiple of 3 |
| Models.CenterInBox | src/model.cpp:32-33 | with at least one vertex, the centre lies inside the bounding box on every axis |
| Models.Vertex | src/model.cpp:61-66 | with face and corner in range and the stored index in range, the result is one of the model's vertices |
| Models.Det | src/model.cpp:69-73 | `det = Dot(edge1, Cross(d, edge2))` |
| Models.BaryU | src/model.cpp:76-77 | `u = Dot(o - A, Cross(d, edge2))` |
| Models.BaryV | src/model.cpp:80-81 | `v = Dot(d, Cross(o - A, edge1))` |
| Models.TriangleT | src/model.cpp:84 | `t = Dot(edge2, qvec) * (1 / det)` |
| Models.Intersection | src/model.cpp:68-92 | none exactly when `det < EPSILON`, `u` is outside [0, det], `v < 0` or `u + v > det`, or `t < EPSILON`; a hit has parameter `t >= EPSILON`, position `ray.at(t)`, the default material, and a normal orthogonal to both edges (of unit length under `SqrtLaw`) |
| Models.TriangleAlwaysDefined | src/model.cpp:84-89 | under `SqrtLaw`, whenever the test gets past the `det` check the face normal `edge1 x edge2` has nonzero length, so `Normalize` never divides by zero |
| Models.BackFacesCulled | src/model.cpp:73-74 | every accepted hit is front-facing: the ray direction has negative component along `edge1 x edge2` |
| Models.HitInsideTriangle | src/model.cpp:76-91 | a hit point is `A + b1 edge1 + b2 edge2` with barycentric weights `b1, b2 >= 0` and `b1 + b2 <= 1` |
| Models.FaceHit | src/model.cpp:44-47 | the triangle test on face `f`'s three vertices |
| Models.Candidates | src/model.cpp:43-50 | the scanned candidates are the face tests in face order, each stamped with the model's material |
| Models.TestFace | src/model.cpp:44-47 | fetching the face's three vertices and running the triangle test gives `FaceHit` |
| Models.NearestNextFace | src/model.cpp:47-52 | one more face: its stamped hit replaces the nearest so far exactly when its parameter is below the running bound, otherwise the nearest is kept |
| Models.ModelHit | src/model.cpp:36-55 | the box test with early return, then the face loop, computes `ModelHitSpec` |
| Models.ModelHitSpec | src/model.cpp:36-55 | none when the box test fails, otherwise the nearest-hit scan over the stamped face candidates |
| Models.ModelHitIsNearestFace | src/model.cpp:40-54 | a hit carries the model's material and has the least parameter of all faces, with the earliest face winning ties |
| Models.ModelMissedExactly | src/model.cpp:36-55 | the model is missed exactly when the box test fails or no face is hit with a parameter below `FLT_MAX` |
| Models.FlatModelMissed | src/model.cpp:37-38 | a model whose box is degenerate on some axis is never hit, whatever its faces |
| Scenes.PlaneMaterial | src/renderer.cpp:46-51 | the plane's material: the default with `diffuseAlbedo` 1 and diffuse colour (0.8, 0.8, 0.8) |
| Scenes.PlaneT | src/renderer.cpp:42 | `t = -(o.y + 3) / d.y` |
| Scenes.ShapeMaterial | src/renderer.h:28 | each object's own material |
| Scenes.PlaneHit | src/renderer.cpp:40-55 | the plane is a candidate exactly when it is shown, `abs(dir.y) > 0.001` and `t > 0.001`; its record is at `ray.at(t)` on `y = -3`, with normal (0,1,0) and the plane material |
| Scenes.FloorCrossing | src/renderer.cpp:42-43 | the plane's parameter reaches height -3 |
| Scenes.ShapeHit | src/renderer.cpp:59 | any object's hit carries that object's material and a parameter of at least `EPSILON` |
| Scenes.ObjectHit | src/renderer.cpp:59 | the dispatch to the object's own `hit` method computes `ShapeHit` |
| Scenes.ObjectHits | src/renderer.cpp:57-59 | one hit test per object, in list order |
| Scenes.SceneCandidates | src/renderer.cpp:40-65 | the candidates are the plane first, then the objects in list order |
| Scenes.SceneHitSpec | src/renderer.cpp:35-67 | the nearest-hit scan over the candidates, plane first |
| Scenes.SceneHitNearest | src/renderer.cpp:35-67 | no hit exactly when no candidate is below `FLT_MAX`; otherwise the hit is the first candidate with the least parameter, so ties go to the plane, then to the earliest object |
| Scenes.SceneHitMaterial | src/renderer.cpp:46-63 | a hit has parameter at least `EPSILON` and the plane's material or that of some object in the scene |
| Scenes.AddObjectHit | src/renderer.h:70 | appending an object makes the scene's hit the new object's hit when strictly nearer, and otherwise the previous hit |
| Scenes.EmptySceneMisses | src/renderer.cpp:35-67 | a fresh scene, with no objects and the plane hidden, is never hit |
| Scenes.Scene.constructor | src/renderer.h:84-88 | a fresh scene has no objects and no lights, the plane hidden and ambient 0 |
| Scenes.Scene.AddObject | src/renderer.h:70 | appends the object at the end, keeps the earlier ones in order and changes nothing else |
| Scenes.Scene.ObjectAt | src/renderer.h:71 | with the index in range, returns that object |
| Scenes.Scene.AddLight | src/renderer.h:75 | appends the light at the end and changes nothing else |
| Scenes.Scene.LightAt | src/renderer.h:76 | with the index in range, returns that light |
| Scenes.Scene.SetLightAt | src/renderer.h:76 | a write through `lightAt`'s reference replaces that light only |
| Scenes.Scene.ShowPlane | src/renderer.h:80 | sets only the plane flag |
| Scenes.Scene.GetAmbient | src/renderer.h:82 | returns the ambient term |
| Scenes.Scene.SetAmbient | src/renderer.h:81 | a write through `getAmbient`'s reference sets only the ambient term |
| Scenes.Scene.Hit | src/renderer.cpp:35-67 | the plane test and the object loop with running `minT` compute `SceneHitSpec` of the current scene |
| Cameras.BasisDefined | src/renderer.cpp:22-23 | both `Normalize` calls of `update` have a nonzero vector: `eye - lookAt` and `up x n` |
| Cameras.BasisN | src/renderer.cpp:22 | `n = Normalize(eye - lookAt)` |
| Cameras.BasisU | src/renderer.cpp:23 | `u = Normalize((0,1,0) x n)` |
| Cameras.BasisV | src/renderer.cpp:24 | `v = n x u` |
| Cameras.HalfHeight | src/renderer.cpp:26 | `h = tan(fov * pi / 360)` |
| Cameras.BasisOrthonormal | src/renderer.cpp:22-24 | under `SqrtLaw`, `n`, `u` and `v` are pairwise orthogonal unit vectors |
| Cameras.Camera.constructor | src/renderer.cpp:5-12 | stores eye, look-at point, field of view and aspect, then establishes what `update` does |
| Cameras.Camera.Update | src/renderer.cpp:20-33 | keeps the four settings and sets `horizontal == u * 2h * aspect`, `vertical == v * 2h` and `corner == eye - horizontal/2 - vertical/2 - n` |
| Cameras.Camera.ViewportPoint | src/renderer.cpp:16 | `corner + s * horizontal + t * vertical` |
| Cameras.Camera.GenerateRay | src/renderer.cpp:14-18 | the ray starts at the eye and reaches `corner + s * horizontal + t * vertical` at parameter 1 |
| Cameras.CenterRay | src/renderer.cpp:14-33 | after `update`, the ray through (0.5, 0.5) has direction `-n` |
| Cameras.ViewportAtUnitDistance | src/renderer.cpp:14-33 | after `update`, under `SqrtLaw`, every generated direction has component -1 along `n`, whatever `tan` returns |
| Shading.Background | src/renderer.cpp:69-74 | under `SqrtLaw`, the sky colour blends white and (0.5, 0.7, 1): red in [0.5, 1], green in [0.7, 1], blue 1 |
| Shading.BlendBounds | src/renderer.cpp:71-72 | a unit direction has height in [-1, 1], so the blend weight lies in [0, 1] |
| Shading.Sky | src/renderer.cpp:79 | `min(1, 2 ambient) * background(ray)` |
| Shading.Source | src/renderer.cpp:93 | the unit vector from the hit point towards a light |
| Shading.DiffuseTerm | src/renderer.cpp:94 | each light's diffuse contribution, clamped by `max(0, ·)`, is non-negative |
| Shading.SpecularTerm | src/renderer.cpp:95-96 | under `PowLaw`, each light's specular contribution is non-negative |
| Shading.DiffuseSum | src/renderer.cpp:89-94 | the ambient term plus every light's clamped diffuse cosine |
| Shading.SpecularSum | src/renderer.cpp:90-96 | the sum of every light's specular power |
| Shading.DiffuseAtLeastAmbient | src/renderer.cpp:89-94 | the diffuse accumulator starts at `ambient` and never drops below it |
| Shading.SpecularNonNegative | src/renderer.cpp:90-96 | under `PowLaw`, the specular accumulator is non-negative |
| Shading.LightTerms | src/renderer.cpp:89-97 | the loop over the lights computes both accumulators as the sums over all lights |
| Shading.ReflectedRay | src/renderer.cpp:84-86 | the ray from the hit point in the reflected direction |
| Shading.RefractedRay | src/renderer.cpp:85-87 | the ray from the hit point in `Refract(d, normal, refractive)`'s direction |
| Shading.Shade | src/renderer.cpp:98-101 | diffuse and specular colours weighted by their albedos and the accumulators capped at 1, plus the reflected and refracted colours weighted by their albedos, with no clamp on the sum |
| Shading.Radiance | src/renderer.cpp:76-104 | the sky at depth 0 or below and on a miss, `HitRadiance` at a hit |
| Shading.HitRadiance | src/renderer.cpp:83-101 | the shading of the hit with the colours of the reflected and refracted rays traced at `depth - 1` |
| Shading.SceneTracer | src/renderer.cpp:81-85 | the tracer that calls `Scene::hit` and `Refract` satisfies `Answers`, so `CastRay`'s tracer precondition can always be met |
| Shading.HitScene | src/renderer.cpp:81 | the scene query in `castRay` is the tracer's hit function |
| Shading.RefractRay | src/renderer.cpp:85-87 | the refracted ray starts at the hit point with `Refract`'s direction (index of the medium 1), as the tracer says |
| Shading.CastRay | src/renderer.cpp:76-104 | the recursion, with both calls at `depth - 1`, computes `Radiance` |
| Shading.MissShowsSky | src/renderer.cpp:103 | a miss at positive depth gives the same colour as depth 0: `min(1, 2 ambient) * background` |
| Shading.OutOfDepthIgnoresScene | src/renderer.cpp:78-79 | at depth 0 or below the colour depends only on the ambient term, not on the objects, the lights or the scene query |
| Shading.ShadeNonNegative | src/renderer.cpp:98-101 | the weighted sum has no negative channel when the material coefficients, colours and both traced colours have none |
| Shading.RadianceNonNegative | src/renderer.cpp:76-104 | under `SqrtLaw` and `PowLaw`, with non-negative materials and ambient, no traced colour has a negative channel, although the sum is never clamped |
| Framebuffers.PixelIndex | src/application.cpp:21 | `(y * width + x) * 3`, the first byte of pixel `(x, y)` |
| Framebuffers.ChannelDefinedRange | src/application.cpp:22-24 | the conversion's truncated value `min(1, c) * 255` fits `uint8_t` exactly when `c > -1/255` |
| Framebuffers.ToByte | src/application.cpp:22-24 | truncation toward zero: a non-negative channel becomes the floor of `min(1, c) * 255`, a channel in (-1/255, 0) becomes 0, and any channel of at least 1 becomes 255 |
| Framebuffers.PixelInBuffer | src/application.cpp:21 | a pixel in range has its three bytes inside the buffer |
| Framebuffers.PixelsDisjoint | src/application.cpp:21-24 | a byte offset determines its pixel and its channel |
| Framebuffers.PixelsApart | src/application.cpp:21-24 | distinct pixels never share a byte |
| Framebuffers.ByteOwner | src/application.cpp:11-12 | every byte of the buffer belongs to some pixel and channel |
| Framebuffers.OtherPixelKept | src/application.cpp:21-24 | writing one pixel's bytes keeps what every other pixel holds |
| Framebuffers.Framebuffer.constructor | src/application.cpp:11-12 | allocates exactly `width * height * 3` zero bytes |
| Framebuffers.Framebuffer.Clear | src/application.cpp:14-16 | every byte becomes 0 |
| Framebuffers.Framebuffer.SetPixel | src/application.cpp:18-25 | with the pixel in range and every channel above `-1/255`, its three bytes take the converted channels and no other byte changes |
| Rendering.PixelRay | src/renderer.cpp:116-119 | pixel `(x, y)`'s ray starts at the eye and reaches the viewport point `(x / (width - 1), y / (height - 1))` |
| Rendering.PixelsSpanViewport | src/renderer.cpp:116-117 | the first pixel's ray reaches the viewport corner and the last pixel's the opposite corner |
| Rendering.DrawPixel | src/renderer.cpp:116-120 | one pixel's bytes take the traced colour and no other byte changes |
| Rendering.DrawnExtends | src/renderer.cpp:112-122 | drawing the next pixel keeps every pixel drawn before it |
| Rendering.Render | src/renderer.cpp:106-123 | after the nested loops, every pixel `0 <= x < width`, `0 <= y < height` holds the bytes of the colour traced through it |

## Left out

- IEEE single precision is not modelled: no rounding, NaN or infinity. Reals stand in for floats, and each division by zero is a precondition: `Geometry.Div`, `Geometry.Normalize`, `Transforms.Apply`, the sphere's division by `a` and `radius`, `Geometry.RefractDefined` for `eta_i / eta_t` in `Refract`, and `Cameras.BasisDefined` for the two `Normalize` calls of `Camera::update`. The refractive index slider keeps `eta_t` in 1..5 (src/application.cpp:188), and the initial camera at (0, 4, -7) looks at the origin (src/application.cpp:103); the camera sliders (src/application.cpp:144-151) can set `eye` equal to `lookAt`, a case the model excludes.
- Bounds.Hit: requires every direction component to be nonzero; the source divides by them and relies on IEEE infinities.
- Objects.CubeHit: requires every direction component to be nonzero, for the same reason.
- Shading.CastRay: requires `Traceable`, which says every division along the recursion is defined (a nonzero direction for `background` and for the specular term, a defined hit test for every traced ray). The source would produce infinities or NaN there instead.
- Shading.CastRay: the scene query and `Refract` reach `Radiance` through a `Tracer`, tied to them by `Answers`. `SceneTracer` builds one for any scene.
- Rendering.Render: requires a width and height other than 1, since `x / (width - 1)` divides by zero otherwise. It also requires `Traceable` for every pixel's ray. It also requires `ScenePaintable`, non-negative material coefficients and colours and a non-negative ambient term, so that every pixel colour can be converted to bytes.
- Framebuffers.SetPixel: requires every channel above `-1/255` (`ChannelDefined`). The source has no lower clamp, and a float-to-integer conversion is undefined when the truncated value does not fit the target type, which for `uint8_t` is when `min(1, c) * 255` is -1 or below. Channels in (-1/255, 0) truncate to 0, and the model gives them 0. `Rendering.Render` meets this through `RadianceNonNegative` when the materials and the ambient term are non-negative.
- Framebuffers.ToByte: the exact `uint8_t` truncation of a float product is modelled as truncation of the real product toward zero.
- Geometry.Length: `std::sqrt` is uninterpreted; only `SqrtLaw` is assumed of it. Contracts that need it say so.
- Transforms.RotateX: `sin` and `cos` are uninterpreted, so the rotations are not proved to preserve lengths; the same holds for RotateY and RotateZ. `PI` and `DEG2RAD` are the source's constants.
- Models.Load: works on lines already split into a kind and parsed numbers. Opening the file, the `eof`/`getline` loop and `istringstream` number parsing are not modelled.
- Models.Vertex: requires the stored index to lie within the vertex list; the source does not check it.
- The OpenMP `parallel for` in `Render` is not modelled. The loop runs sequentially, and since pixels own disjoint bytes (`PixelsApart`), order does not matter.
- The `Application` class (window, OpenGL, ImGui, the run loop, random scene setup) is not part of this model.
- The objects' `getMaterial`, `getPosition`, `getRotation`, `getScale` and `update` hooks for the user interface are not modelled. This includes `Cube` returning `min` for both position and rotation, and the empty `update` bodies. A scene holds its objects as values, so edits through shared pointers after `addObject` are not captured.
- `Camera()` leaves its fields uninitialised; only the four-argument constructor is modelled. The `eye()`, `lookAt()` and `fov()` reference accessors are the class's public fields.
- The `Vec3` compound assignments `+=`, `-=`, `*=` and `/=` are modelled only through the binary operators they build. `Vec3` is a value type.
