/** The triangle mesh of src/model.cpp: the loader of Wavefront `v` and `f` lines, the
    Möller–Trumbore ray/triangle test and the nearest-face scan behind the box test. */
module Models {
  import opened Wrappers
  import opened Numerics
  import opened Geometry
  import opened Bounds
  import opened Records

  // ----- Loading -----

  /** One line of the file, as the stream extractions see it: its text, the three numbers
      read after the first token, and the integers read after the first token until an
      extraction fails. */
  datatype Line = Line(text: string, coords: Vec3, indices: seq<int>)

  /** `line.compare(0, 2, "v ") == 0`. */
  predicate IsVertexLine(l: Line) {
    |l.text| >= 2 && l.text[..2] == "v "
  }

  /** `line.compare(0, 2, "f ") == 0`. */
  predicate IsFaceLine(l: Line) {
    |l.text| >= 2 && l.text[..2] == "f "
  }

  /** The message of the exception thrown for a face that is not a triangle. */
  const NotTriangulated: string := "Not triangulated model"

  /** The indices of a face line made zero-based. */
  function Shifted(indices: seq<int>): (r: seq<int>)
    ensures |r| == |indices|
    ensures forall i :: 0 <= i < |r| ==> r[i] + 1 == indices[i]
  {
    seq(|indices|, i requires 0 <= i < |indices| => indices[i] - 1)
  }

  /** The two lists the constructor fills. */
  datatype Lists = Lists(vertices: seq<Vec3>, faces: seq<int>)

  /** The effect of one line: a vertex line appends its point, a face line appends its
      zero-based indices and fails unless there were exactly three, any other line is
      skipped. */
  function ParseStep(acc: Lists, l: Line): Result<Lists> {
    if IsVertexLine(l) then Ok(Lists(acc.vertices + [l.coords], acc.faces))
    else if IsFaceLine(l) then
      if |l.indices| != 3 then Err(NotTriangulated)
      else Ok(Lists(acc.vertices, acc.faces + Shifted(l.indices)))
    else Ok(acc)
  }

  /** The lines read in order; the first failure ends the reading. */
  function ParseLines(lines: seq<Line>): Result<Lists> {
    if lines == [] then Ok(Lists([], []))
    else
      match ParseLines(lines[..|lines| - 1])
      case Err(e) => Err(e)
      case Ok(acc) => ParseStep(acc, lines[|lines| - 1])
  }

  /** The model: its vertices, the zero-based vertex indices three per face, its box
      and material, and the centre of the box. */
  datatype Model = Model(vertices: seq<Vec3>, faces: seq<int>, box: AABB, material: Material, center: Vec3)

  /** What `Model(filename)` builds from the lines of the file. */
  function LoadSpec(lines: seq<Line>): Result<Model> {
    match ParseLines(lines)
    case Err(e) => Err(e)
    case Ok(lists) =>
      var box := Hull(lists.vertices);
      Ok(Model(lists.vertices, lists.faces, box, DefaultMaterial, Div(Add(box.min, box.max), 2.0)))
  }

  /** Once reading has failed, the rest of the file does not matter. */
  lemma {:induction false} ParseErrorSticks(lines: seq<Line>, k: int)
    requires 0 <= k <= |lines| && ParseLines(lines[..k]).Err?
    ensures ParseLines(lines) == ParseLines(lines[..k])
    decreases |lines| - k
  {
    if k < |lines| {
      var init := lines[..|lines| - 1];
      assert init[..k] == lines[..k];
      ParseErrorSticks(init, k);
    } else {
      assert lines[..k] == lines;
    }
  }

  /** `Model(filename)` on the lines of the file: the read loop, with the inner loop that
      counts the indices of a face line, then the box and its centre. */
  method Load(lines: seq<Line>) returns (r: Result<Model>)
    ensures r == LoadSpec(lines)
  {
    var vertices: seq<Vec3> := [];
    var faces: seq<int> := [];
    var i := 0;
    while i < |lines|
      invariant 0 <= i <= |lines|
      invariant ParseLines(lines[..i]) == Ok(Lists(vertices, faces))
    {
      var line := lines[i];
      assert lines[..i + 1][..i] == lines[..i];
      if IsVertexLine(line) {
        vertices := vertices + [line.coords];
      } else if IsFaceLine(line) {
        var count := 0;
        var j := 0;
        ghost var before := faces;
        while j < |line.indices|
          invariant 0 <= j <= |line.indices| && count == j
          invariant faces == before + Shifted(line.indices[..j])
        {
          assert Shifted(line.indices[..j + 1]) == Shifted(line.indices[..j]) + [line.indices[j] - 1];
          faces := faces + [line.indices[j] - 1];
          count := count + 1;
          j := j + 1;
        }
        assert line.indices[..j] == line.indices;
        if count != 3 {
          ParseErrorSticks(lines, i + 1);
          return Err(NotTriangulated);
        }
      }
      i := i + 1;
    }
    assert lines[..i] == lines;
    var box := FromVertices(vertices);
    r := Ok(Model(vertices, faces, box, DefaultMaterial, Div(Add(box.min, box.max), 2.0)));
  }

  /** The points of the vertex lines, in file order. */
  function VertexPoints(lines: seq<Line>): seq<Vec3> {
    if lines == [] then []
    else
      var last := lines[|lines| - 1];
      VertexPoints(lines[..|lines| - 1]) + (if IsVertexLine(last) then [last.coords] else [])
  }

  /** The zero-based indices of the face lines, in file order. */
  function FaceIndices(lines: seq<Line>): seq<int> {
    if lines == [] then []
    else
      var last := lines[|lines| - 1];
      FaceIndices(lines[..|lines| - 1]) + (if IsFaceLine(last) then Shifted(last.indices) else [])
  }

  /** A face line that does not hold exactly three indices. */
  predicate BadFace(l: Line) {
    IsFaceLine(l) && |l.indices| != 3
  }

  /** Reading fails, with "Not triangulated model", exactly when some face line does not
      hold three indices; otherwise the vertices are the points of the vertex lines and
      the faces the zero-based indices of the face lines. */
  lemma {:induction false} ParseCharacterised(lines: seq<Line>)
    ensures (exists i :: 0 <= i < |lines| && BadFace(lines[i])) ==> ParseLines(lines) == Err(NotTriangulated)
    ensures (forall i :: 0 <= i < |lines| ==> !BadFace(lines[i])) ==>
      ParseLines(lines) == Ok(Lists(VertexPoints(lines), FaceIndices(lines)))
  {
    if lines != [] {
      var init := lines[..|lines| - 1];
      var last := lines[|lines| - 1];
      ParseCharacterised(init);
      assert forall i :: 0 <= i < |init| ==> init[i] == lines[i];
      LineKindsDisjoint(last);
      if exists i :: 0 <= i < |init| && BadFace(init[i]) {
        assert ParseLines(lines) == Err(NotTriangulated);
      } else {
        assert ParseLines(init) == Ok(Lists(VertexPoints(init), FaceIndices(init)));
        assert ParseLines(lines) == ParseStep(Lists(VertexPoints(init), FaceIndices(init)), last);
        if BadFace(last) {
          assert ParseLines(lines) == Err(NotTriangulated);
        } else {
          assert forall i :: 0 <= i < |lines| ==> !BadFace(lines[i]) by {
            forall i | 0 <= i < |lines| ensures !BadFace(lines[i]) {
              if i < |init| {
                assert lines[i] == init[i];
              }
            }
          }
          if IsVertexLine(last) {
            assert FaceIndices(lines) == FaceIndices(init) + [] == FaceIndices(init);
            assert VertexPoints(lines) == VertexPoints(init) + [last.coords];
          } else if IsFaceLine(last) {
            assert VertexPoints(lines) == VertexPoints(init) + [] == VertexPoints(init);
            assert FaceIndices(lines) == FaceIndices(init) + Shifted(last.indices);
          } else {
            assert FaceIndices(lines) == FaceIndices(init) + [] == FaceIndices(init);
            assert VertexPoints(lines) == VertexPoints(init) + [] == VertexPoints(init);
            assert ParseStep(Lists(VertexPoints(init), FaceIndices(init)), last) ==
              Ok(Lists(VertexPoints(init), FaceIndices(init)));
          }
        }
      }
    }
  }

  /** No line is both a vertex line and a face line. */
  lemma LineKindsDisjoint(l: Line)
    ensures !(IsVertexLine(l) && IsFaceLine(l))
  {
    if IsVertexLine(l) {
      assert l.text[0] == "v "[0];
    }
  }

  /** Every face of a loaded model contributes three indices. */
  lemma {:induction false} FacesAreTriples(lines: seq<Line>)
    requires ParseLines(lines).Ok?
    ensures |ParseLines(lines).value.faces| % 3 == 0
  {
    if lines != [] {
      FacesAreTriples(lines[..|lines| - 1]);
    }
  }

  /** A loaded model's centre lies inside its box once it has a vertex. */
  lemma CenterInBox(lines: seq<Line>, axis: int)
    requires LoadSpec(lines).Ok? && |LoadSpec(lines).value.vertices| > 0 && 0 <= axis <= 2
    ensures var model := LoadSpec(lines).value;
      Get(model.box.min, axis) <= Get(model.center, axis) <= Get(model.box.max, axis)
  {
    var model := LoadSpec(lines).value;
    HullContains(model.vertices, 0, axis);
  }

  // ----- Faces -----

  /** Every stored index names a vertex (the source indexes without checking). */
  predicate WellIndexed(model: Model) {
    forall i :: 0 <= i < |model.faces| ==> 0 <= model.faces[i] < |model.vertices|
  }

  /** `vertex(face, k)`: corner `k` of triangle `face`. */
  function Vertex(model: Model, face: int, k: int): (r: Vec3)
    requires 0 <= face < |model.faces| / 3 && 0 <= k < 3
    requires 0 <= model.faces[face * 3 + k] < |model.vertices|
    ensures r in model.vertices
  {
    model.vertices[model.faces[face * 3 + k]]
  }

  // ----- Möller–Trumbore -----

  /** The quantities of the test, named as in the source. */
  function Edge1(a: Vec3, b: Vec3): Vec3 { Sub(b, a) }

  function Edge2(a: Vec3, c: Vec3): Vec3 { Sub(c, a) }

  function Det(a: Vec3, b: Vec3, c: Vec3, ray: Ray): real {
    Dot(Edge1(a, b), Cross(ray.direction, Edge2(a, c)))
  }

  function BaryU(a: Vec3, c: Vec3, ray: Ray): real {
    Dot(Sub(ray.origin, a), Cross(ray.direction, Edge2(a, c)))
  }

  function BaryV(a: Vec3, b: Vec3, ray: Ray): real {
    Dot(ray.direction, Cross(Sub(ray.origin, a), Edge1(a, b)))
  }

  /** `Dot(edge2, qvec)`, the parameter before the division by `det`. */
  function ScaledT(a: Vec3, b: Vec3, c: Vec3, ray: Ray): real {
    Dot(Edge2(a, c), Cross(Sub(ray.origin, a), Edge1(a, b)))
  }

  function TriangleT(a: Vec3, b: Vec3, c: Vec3, ray: Ray): real
    requires Det(a, b, c, ray) != 0.0
  {
    ScaledT(a, b, c, ray) * (1.0 / Det(a, b, c, ray))
  }

  /** The face normal can be normalised whenever the test gets past the `det` check. */
  predicate TriangleDefined(a: Vec3, b: Vec3, c: Vec3, ray: Ray, m: MathLib) {
    EPSILON <= Det(a, b, c, ray) ==> Length(Cross(Edge1(a, b), Edge2(a, c)), m) != 0.0
  }

  /** `intersection(A, B, C, ray)`: none when `det` is below epsilon (a parallel or
      back-facing triangle), when either barycentric weight or their sum leaves [0, det],
      or when the parameter is below epsilon; otherwise the record at that parameter with
      the unit face normal, which is orthogonal to both edges. */
  function Intersection(a: Vec3, b: Vec3, c: Vec3, ray: Ray, m: MathLib): (r: Option<HitRecord>)
    requires TriangleDefined(a, b, c, ray, m)
    ensures r.None? <==>
      Det(a, b, c, ray) < EPSILON ||
      BaryU(a, c, ray) < 0.0 || BaryU(a, c, ray) > Det(a, b, c, ray) ||
      BaryV(a, b, ray) < 0.0 || BaryU(a, c, ray) + BaryV(a, b, ray) > Det(a, b, c, ray) ||
      TriangleT(a, b, c, ray) < EPSILON
    ensures r.Some? ==>
      r.value.parameter == TriangleT(a, b, c, ray) && EPSILON <= r.value.parameter &&
      r.value.position == ray.At(r.value.parameter) &&
      r.value.material == DefaultMaterial &&
      Dot(r.value.normal, Edge1(a, b)) == 0.0 && Dot(r.value.normal, Edge2(a, c)) == 0.0 &&
      (SqrtLaw(m) ==> Dot(r.value.normal, r.value.normal) == 1.0)
  {
    var edge1 := Sub(b, a);
    var edge2 := Sub(c, a);
    var pvec := Cross(ray.direction, edge2);
    var det := Dot(edge1, pvec);
    if det < EPSILON then None
    else
      var tvec := Sub(ray.origin, a);
      var u := Dot(tvec, pvec);
      if u < 0.0 || u > det then None
      else
        var qvec := Cross(tvec, edge1);
        var v := Dot(ray.direction, qvec);
        if v < 0.0 || u + v > det then None
        else
          var t := Dot(edge2, qvec) * (1.0 / det);
          assert t == TriangleT(a, b, c, ray);
          if t < EPSILON then None
          else
            var normal := Cross(edge1, edge2);
            NormalOrthogonal(normal, edge1, edge2, m);
            Some(HitRecord(ray.At(t), Normalize(normal, m), t, DefaultMaterial))
  }

  /** Normalising keeps a vector orthogonal to whatever it was orthogonal to. */
  lemma NormalOrthogonal(normal: Vec3, e1: Vec3, e2: Vec3, m: MathLib)
    requires Length(normal, m) != 0.0
    requires Dot(normal, e1) == 0.0 && Dot(normal, e2) == 0.0
    ensures Dot(Normalize(normal, m), e1) == 0.0 && Dot(Normalize(normal, m), e2) == 0.0
  {
    var len := Length(normal, m);
    DotScale(normal, 1.0 / len, e1);
    DotScale(normal, 1.0 / len, e2);
    assert Div(normal, len) == Scale(normal, 1.0 / len);
  }

  /** The scalar triple product: `det` is minus the direction's component along the
      face normal `edge1 x edge2`. */
  lemma TripleProduct(d: Vec3, e1: Vec3, e2: Vec3)
    ensures Dot(e1, Cross(d, e2)) == -Dot(d, Cross(e1, e2))
  {
  }

  /** With a true square root the face normal can always be normalised. */
  lemma TriangleAlwaysDefined(a: Vec3, b: Vec3, c: Vec3, ray: Ray, m: MathLib)
    requires SqrtLaw(m)
    ensures TriangleDefined(a, b, c, ray, m)
  {
    TripleProduct(ray.direction, Edge1(a, b), Edge2(a, c));
    LengthZero(Cross(Edge1(a, b), Edge2(a, c)), m);
  }

  /** Only triangles seen from their front are hit: the ray runs against the face normal
      `edge1 x edge2`. */
  lemma BackFacesCulled(a: Vec3, b: Vec3, c: Vec3, ray: Ray, m: MathLib)
    requires TriangleDefined(a, b, c, ray, m)
    requires Intersection(a, b, c, ray, m).Some?
    ensures Dot(ray.direction, Cross(Edge1(a, b), Edge2(a, c))) <= -EPSILON
  {
    TripleProduct(ray.direction, Edge1(a, b), Edge2(a, c));
  }

  /** Cramer's rule for `origin - A = -t d + u e1 + v e2`, one coordinate at a time,
      with every term scaled by `det`. */
  lemma CramerX(d: Vec3, t: Vec3, e1: Vec3, e2: Vec3)
    ensures t.x * Dot(e1, Cross(d, e2)) ==
      -d.x * Dot(e2, Cross(t, e1)) + e1.x * Dot(t, Cross(d, e2)) + e2.x * Dot(d, Cross(t, e1))
  {
  }

  lemma CramerY(d: Vec3, t: Vec3, e1: Vec3, e2: Vec3)
    ensures t.y * Dot(e1, Cross(d, e2)) ==
      -d.y * Dot(e2, Cross(t, e1)) + e1.y * Dot(t, Cross(d, e2)) + e2.y * Dot(d, Cross(t, e1))
  {
  }

  lemma CramerZ(d: Vec3, t: Vec3, e1: Vec3, e2: Vec3)
    ensures t.z * Dot(e1, Cross(d, e2)) ==
      -d.z * Dot(e2, Cross(t, e1)) + e1.z * Dot(t, Cross(d, e2)) + e2.z * Dot(d, Cross(t, e1))
  {
  }

  /** Cramer's rule in the terms of the test: `(origin - A) det = -st d + u e1 + v e2`
      on each coordinate. */
  lemma CramerOnX(a: Vec3, b: Vec3, c: Vec3, ray: Ray)
    ensures (ray.origin.x - a.x) * Det(a, b, c, ray) ==
      -ray.direction.x * ScaledT(a, b, c, ray) + Edge1(a, b).x * BaryU(a, c, ray) + Edge2(a, c).x * BaryV(a, b, ray)
  {
    var tv, d, e1, e2 := Sub(ray.origin, a), ray.direction, Edge1(a, b), Edge2(a, c);
    calc {
      (ray.origin.x - a.x) * Det(a, b, c, ray);
      == tv.x * Dot(e1, Cross(d, e2));
      == { CramerX(d, tv, e1, e2); }
      -d.x * Dot(e2, Cross(tv, e1)) + e1.x * Dot(tv, Cross(d, e2)) + e2.x * Dot(d, Cross(tv, e1));
    }
  }

  lemma CramerOnY(a: Vec3, b: Vec3, c: Vec3, ray: Ray)
    ensures (ray.origin.y - a.y) * Det(a, b, c, ray) ==
      -ray.direction.y * ScaledT(a, b, c, ray) + Edge1(a, b).y * BaryU(a, c, ray) + Edge2(a, c).y * BaryV(a, b, ray)
  {
    var tv, d, e1, e2 := Sub(ray.origin, a), ray.direction, Edge1(a, b), Edge2(a, c);
    calc {
      (ray.origin.y - a.y) * Det(a, b, c, ray);
      == tv.y * Dot(e1, Cross(d, e2));
      == { CramerY(d, tv, e1, e2); }
      -d.y * Dot(e2, Cross(tv, e1)) + e1.y * Dot(tv, Cross(d, e2)) + e2.y * Dot(d, Cross(tv, e1));
    }
  }

  lemma CramerOnZ(a: Vec3, b: Vec3, c: Vec3, ray: Ray)
    ensures (ray.origin.z - a.z) * Det(a, b, c, ray) ==
      -ray.direction.z * ScaledT(a, b, c, ray) + Edge1(a, b).z * BaryU(a, c, ray) + Edge2(a, c).z * BaryV(a, b, ray)
  {
    var tv, d, e1, e2 := Sub(ray.origin, a), ray.direction, Edge1(a, b), Edge2(a, c);
    calc {
      (ray.origin.z - a.z) * Det(a, b, c, ray);
      == tv.z * Dot(e1, Cross(d, e2));
      == { CramerZ(d, tv, e1, e2); }
      -d.z * Dot(e2, Cross(tv, e1)) + e1.z * Dot(tv, Cross(d, e2)) + e2.z * Dot(d, Cross(tv, e1));
    }
  }

  /** The point `A + b1 e1 + b2 e2` of the triangle's plane. */
  function OnPlane(a: Vec3, e1: Vec3, e2: Vec3, b1: real, b2: real): Vec3 {
    Add(a, Add(Scale(e1, b1), Scale(e2, b2)))
  }

  /** A hit lies inside the triangle: it is `A + b1 edge1 + b2 edge2` with the weights
      `u / det` and `v / det`, both non-negative and summing to at most one. */
  lemma HitInsideTriangle(a: Vec3, b: Vec3, c: Vec3, ray: Ray, m: MathLib)
    requires TriangleDefined(a, b, c, ray, m)
    requires Intersection(a, b, c, ray, m).Some?
    ensures var det := Det(a, b, c, ray);
      var b1 := BaryU(a, c, ray) / det;
      var b2 := BaryV(a, b, ray) / det;
      0.0 <= b1 && 0.0 <= b2 && b1 + b2 <= 1.0 &&
      Intersection(a, b, c, ray, m).value.position == OnPlane(a, Edge1(a, b), Edge2(a, c), b1, b2)
  {
    HitWeights(a, b, c, ray, m);
    HitOnPlane(a, b, c, ray, m);
  }

  /** The weights of a hit are non-negative and sum to at most one. */
  lemma HitWeights(a: Vec3, b: Vec3, c: Vec3, ray: Ray, m: MathLib)
    requires TriangleDefined(a, b, c, ray, m)
    requires Intersection(a, b, c, ray, m).Some?
    ensures var det := Det(a, b, c, ray);
      0.0 <= BaryU(a, c, ray) / det && 0.0 <= BaryV(a, b, ray) / det &&
      BaryU(a, c, ray) / det + BaryV(a, b, ray) / det <= 1.0
  {
    WeightBounds(BaryU(a, c, ray), BaryV(a, b, ray), Det(a, b, c, ray));
  }

  /** A hit is the point of the triangle's plane with the weights `u / det` and `v / det`. */
  lemma HitOnPlane(a: Vec3, b: Vec3, c: Vec3, ray: Ray, m: MathLib)
    requires TriangleDefined(a, b, c, ray, m)
    requires Intersection(a, b, c, ray, m).Some?
    ensures var det := Det(a, b, c, ray);
      Intersection(a, b, c, ray, m).value.position ==
        OnPlane(a, Edge1(a, b), Edge2(a, c), BaryU(a, c, ray) / det, BaryV(a, b, ray) / det)
  {
    var det, u, v, st := Det(a, b, c, ray), BaryU(a, c, ray), BaryV(a, b, ray), ScaledT(a, b, c, ray);
    var t := TriangleT(a, b, c, ray);
    assert Intersection(a, b, c, ray, m).value.position == ray.At(t);
    CramerOnX(a, b, c, ray);
    CramerOnY(a, b, c, ray);
    CramerOnZ(a, b, c, ray);
    Reciprocal(st, det);
    PlaneCoordinates(ray.origin, a, ray.direction, Edge1(a, b), Edge2(a, c), t, u, v, det, st);
  }

  lemma Reciprocal(st: real, det: real)
    requires det != 0.0
    ensures (st * (1.0 / det)) * det == st
  {
  }

  /** From `(o - a) det = -st d + u e1 + v e2` and `t det = st` follows
      `o + t d = a + (u / det) e1 + (v / det) e2`. */
  lemma PlaneCoordinates(o: Vec3, a: Vec3, d: Vec3, e1: Vec3, e2: Vec3,
                         t: real, u: real, v: real, det: real, st: real)
    requires det != 0.0 && t * det == st
    requires (o.x - a.x) * det == -d.x * st + e1.x * u + e2.x * v
    requires (o.y - a.y) * det == -d.y * st + e1.y * u + e2.y * v
    requires (o.z - a.z) * det == -d.z * st + e1.z * u + e2.z * v
    ensures Add(o, Scale(d, t)) == OnPlane(a, e1, e2, u / det, v / det)
  {
    CoordinateInside(o.x, a.x, d.x, e1.x, e2.x, t, u, v, det, st);
    CoordinateInside(o.y, a.y, d.y, e1.y, e2.y, t, u, v, det, st);
    CoordinateInside(o.z, a.z, d.z, e1.z, e2.z, t, u, v, det, st);
  }

  lemma WeightBounds(u: real, v: real, det: real)
    requires 0.0 < det && 0.0 <= u && 0.0 <= v && u + v <= det
    ensures 0.0 <= u / det && 0.0 <= v / det && u / det + v / det <= 1.0
  {
    calc { u / det + v / det; == (u + v) / det; <= det / det; == 1.0; }
  }

  /** One coordinate of the hit point: from `(o - a) det = -st d + u e1 + v e2` and
      `t det = st` follows `o + t d = a + (u / det) e1 + (v / det) e2`. */
  lemma CoordinateInside(o: real, a: real, d: real, e1: real, e2: real,
                         t: real, u: real, v: real, det: real, st: real)
    requires det != 0.0
    requires (o - a) * det == -d * st + e1 * u + e2 * v
    requires t * det == st
    ensures o + d * t == a + (e1 * (u / det) + e2 * (v / det))
  {
    calc {
      (o + d * t) * det;
      == o * det + d * (t * det);
      == o * det + d * st;
      == a * det + e1 * u + e2 * v;
      == (a + (e1 * (u / det) + e2 * (v / det))) * det;
    }
    Cancel2(o + d * t, a + (e1 * (u / det) + e2 * (v / det)), det);
  }

  lemma Cancel2(x: real, y: real, k: real)
    requires k != 0.0 && x * k == y * k
    ensures x == y
  {
    assert (x - y) * k == 0.0;
  }

  // ----- Model::hit -----

  /** `Model::hit` overwrites the material of the chosen record with the model's. */
  function Stamp(record: Option<HitRecord>, material: Material): (r: Option<HitRecord>)
    ensures r.None? <==> record.None?
    ensures r.Some? ==> r.value == record.value.(material := material)
  {
    if record.Some? then Some(record.value.(material := material)) else None
  }

  /** The test against triangle `face`. */
  function FaceHit(model: Model, face: int, ray: Ray, m: MathLib): Option<HitRecord>
    requires SqrtLaw(m) && WellIndexed(model) && 0 <= face < |model.faces| / 3
  {
    var a, b, c := Vertex(model, face, 0), Vertex(model, face, 1), Vertex(model, face, 2);
    TriangleAlwaysDefined(a, b, c, ray, m);
    Intersection(a, b, c, ray, m)
  }

  /** The stamped results of the first `n` faces, in face order. */
  function Candidates(model: Model, ray: Ray, m: MathLib, n: int): (r: seq<Option<HitRecord>>)
    requires SqrtLaw(m) && WellIndexed(model) && 0 <= n <= |model.faces| / 3
    ensures |r| == n
    ensures forall f :: 0 <= f < n ==> r[f] == Stamp(FaceHit(model, f, ray, m), model.material)
  {
    if n == 0 then []
    else Candidates(model, ray, m, n - 1) + [Stamp(FaceHit(model, n - 1, ray, m), model.material)]
  }

  /** What `Model::hit` returns: nothing when the box test fails, otherwise the nearest
      face hit below the largest float, carrying the model's material. */
  function ModelHitSpec(model: Model, ray: Ray, m: MathLib): Option<HitRecord>
    requires NonzeroDirection(ray) && SqrtLaw(m) && WellIndexed(model)
  {
    if !HitsBox(model.box, ray) then None
    else Nearest(Candidates(model, ray, m, |model.faces| / 3))
  }

  /** One more face: its stamped hit replaces the nearest so far exactly when its
      parameter is below the running bound. */
  lemma NearestNextFace(model: Model, ray: Ray, m: MathLib, face: int,
                        best: Option<HitRecord>, record: Option<HitRecord>)
    requires SqrtLaw(m) && WellIndexed(model) && 0 <= face < |model.faces| / 3
    requires best == Nearest(Candidates(model, ray, m, face)) && record == FaceHit(model, face, ray, m)
    ensures Nearest(Candidates(model, ray, m, face + 1)) ==
      if record.Some? && record.value.parameter < Bound(best) then Some(record.value.(material := model.material))
      else best
  {
    var cands := Candidates(model, ray, m, face + 1);
    assert cands[..face] == Candidates(model, ray, m, face);
  }

  /** The body of the face loop of `Model::hit`: the face's three vertices, then the
      triangle test. */
  method TestFace(model: Model, face: int, ray: Ray, m: MathLib) returns (record: Option<HitRecord>)
    requires SqrtLaw(m) && WellIndexed(model) && 0 <= face < |model.faces| / 3
    ensures record == FaceHit(model, face, ray, m)
  {
    var a := Vertex(model, face, 0);
    var b := Vertex(model, face, 1);
    var c := Vertex(model, face, 2);
    TriangleAlwaysDefined(a, b, c, ray, m);
    record := Intersection(a, b, c, ray, m);
  }

  /** `Model::hit`: the box test, then the scan over the faces with the running bound. */
  method ModelHit(model: Model, ray: Ray, m: MathLib) returns (r: Option<HitRecord>)
    requires NonzeroDirection(ray) && SqrtLaw(m) && WellIndexed(model)
    ensures r == ModelHitSpec(model, ray, m)
  {
    var inBox := Hit(model.box, ray);
    if !inBox {
      return None;
    }
    var hitRecord: Option<HitRecord> := None;
    var minT := FLT_MAX;
    var face := 0;
    while face < |model.faces| / 3
      invariant 0 <= face <= |model.faces| / 3
      invariant hitRecord == Nearest(Candidates(model, ray, m, face))
      invariant minT == Bound(hitRecord)
    {
      var record := TestFace(model, face, ray, m);
      NearestNextFace(model, ray, m, face, hitRecord, record);
      if record.Some? && record.value.parameter < minT {
        hitRecord := Some(record.value.(material := model.material));
        minT := record.value.parameter;
      }
      face := face + 1;
    }
    return hitRecord;
  }

  /** A hit on a model is a hit on one of its faces, the first with the least parameter,
      and it carries the model's material. */
  lemma ModelHitIsNearestFace(model: Model, ray: Ray, m: MathLib)
    requires NonzeroDirection(ray) && SqrtLaw(m) && WellIndexed(model)
    requires ModelHitSpec(model, ray, m).Some?
    ensures var r := ModelHitSpec(model, ray, m).value;
      r.material == model.material && EPSILON <= r.parameter && r.parameter < FLT_MAX &&
      exists f :: IsFirstNearest(Candidates(model, ray, m, |model.faces| / 3), f) &&
        FaceHit(model, f, ray, m).Some? && FaceHit(model, f, ray, m).value.parameter == r.parameter
  {
    var cands := Candidates(model, ray, m, |model.faces| / 3);
    NearestSpec(cands);
    var f :| IsFirstNearest(cands, f) && Nearest(cands) == cands[f];
    var a, b, c := Vertex(model, f, 0), Vertex(model, f, 1), Vertex(model, f, 2);
    TriangleAlwaysDefined(a, b, c, ray, m);
  }

  /** A model is missed exactly when the box test fails or no face is hit below the
      largest float. */
  lemma ModelMissedExactly(model: Model, ray: Ray, m: MathLib)
    requires NonzeroDirection(ray) && SqrtLaw(m) && WellIndexed(model)
    ensures ModelHitSpec(model, ray, m).None? <==>
      !HitsBox(model.box, ray) ||
      forall f :: 0 <= f < |model.faces| / 3 && FaceHit(model, f, ray, m).Some? ==>
        FLT_MAX <= FaceHit(model, f, ray, m).value.parameter
  {
    NearestSpec(Candidates(model, ray, m, |model.faces| / 3));
  }

  /** Since the box test ignores the ray, a model whose box is flat on some axis is
      missed by every ray. */
  lemma FlatModelMissed(model: Model, ray: Ray, m: MathLib)
    requires NonzeroDirection(ray) && SqrtLaw(m) && WellIndexed(model)
    requires model.box.max.x <= model.box.min.x || model.box.max.y <= model.box.min.y ||
             model.box.max.z <= model.box.min.z
    ensures ModelHitSpec(model, ray, m).None?
  {
    HitIgnoresRay(model.box, ray);
  }
}
