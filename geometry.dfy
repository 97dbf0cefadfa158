/** The vector algebra of src/geometry.h: `Vec3` and its operators, `Dot`, `Cross`,
    `Length`, `Normalize`, `Reflect`, `Refract`, `Sign` and `Ray`.

    The compound operators `+=`, `-=`, `*=`, `/=` only build the results of the binary
    operators, so each binary operator is one function on values here. */
module Geometry {
  import opened Numerics

  /** The tolerance of the triangle test. */
  const EPSILON: real := 0.000001

  /** The sign of `value` as -1, 0 or 1. */
  function Sign(value: real): (r: real)
    ensures r == -1.0 || r == 0.0 || r == 1.0
    ensures (r == 0.0) == (value == 0.0)
    ensures 0.0 <= r * value
  {
    if value < 0.0 then -1.0
    else if value > 0.0 then 1.0
    else 0.0
  }

  datatype Vec3 = Vec3(x: real, y: real, z: real)

  /** `Vec3(v)`: all three components equal to `v` (zero by default). */
  function Splat(v: real): Vec3 {
    Vec3(v, v, v)
  }

  const Zero: Vec3 := Splat(0.0)

  /** Reading `vector[i]`; the source asserts `0 <= i <= 2`. */
  function Get(v: Vec3, i: int): real
    requires 0 <= i <= 2
  {
    if i == 0 then v.x else if i == 1 then v.y else v.z
  }

  /** Writing `vector[i] = value`: only component `i` changes. */
  function Set(v: Vec3, i: int, value: real): (r: Vec3)
    requires 0 <= i <= 2
    ensures Get(r, i) == value
    ensures forall j :: 0 <= j <= 2 && j != i ==> Get(r, j) == Get(v, j)
  {
    if i == 0 then v.(x := value) else if i == 1 then v.(y := value) else v.(z := value)
  }

  /** `a + b` */
  function Add(a: Vec3, b: Vec3): Vec3 {
    Vec3(a.x + b.x, a.y + b.y, a.z + b.z)
  }

  /** `vector + value`, adding `value` to every component. */
  function AddScalar(v: Vec3, value: real): Vec3 {
    Vec3(v.x + value, v.y + value, v.z + value)
  }

  /** `-vector`. */
  function Neg(v: Vec3): Vec3 {
    Vec3(-v.x, -v.y, -v.z)
  }

  /** `-vector` is the additive inverse. */
  lemma NegInverse(v: Vec3)
    ensures Add(v, Neg(v)) == Zero
  {
  }

  /** `a - b`: undoes `+ b`. */
  function Sub(a: Vec3, b: Vec3): (r: Vec3)
    ensures Add(r, b) == a
  {
    Vec3(a.x - b.x, a.y - b.y, a.z - b.z)
  }

  /** `vector - value`: undoes `+ value`. */
  function SubScalar(v: Vec3, value: real): (r: Vec3)
    ensures AddScalar(r, value) == v
  {
    Vec3(v.x - value, v.y - value, v.z - value)
  }

  /** `vector * factor` and `factor * vector`. */
  function Scale(v: Vec3, factor: real): Vec3 {
    Vec3(v.x * factor, v.y * factor, v.z * factor)
  }

  /** `vector * other`, component by component. */
  function Mul(a: Vec3, b: Vec3): Vec3 {
    Vec3(a.x * b.x, a.y * b.y, a.z * b.z)
  }

  /** `vector / divider`; the source asserts a nonzero divider.  Undoes `* divider`. */
  function Div(v: Vec3, divider: real): (r: Vec3)
    requires divider != 0.0
    ensures Scale(r, divider) == v
  {
    Vec3(v.x / divider, v.y / divider, v.z / divider)
  }

  function Dot(a: Vec3, b: Vec3): real {
    a.x * b.x + a.y * b.y + a.z * b.z
  }

  /** The cross product, orthogonal to both of its arguments. */
  function Cross(a: Vec3, b: Vec3): (r: Vec3)
    ensures Dot(r, a) == 0.0 && Dot(r, b) == 0.0
  {
    Vec3(a.y * b.z - a.z * b.y, a.z * b.x - a.x * b.z, a.x * b.y - a.y * b.x)
  }

  /** `Length`: the square root of the squared length. */
  function Length(v: Vec3, m: MathLib): (r: real)
    ensures SqrtLaw(m) ==> 0.0 <= r && r * r == Dot(v, v)
  {
    LengthLaw(v, m);
    m.sqrt(Dot(v, v))
  }

  /** The length is zero exactly for the zero vector. */
  lemma LengthZero(v: Vec3, m: MathLib)
    requires SqrtLaw(m)
    ensures Length(v, m) == 0.0 <==> v == Zero
  {
    LengthLaw(v, m);
  }

  lemma LengthLaw(v: Vec3, m: MathLib)
    ensures var r := m.sqrt(Dot(v, v));
      SqrtLaw(m) ==> 0.0 <= r && r * r == Dot(v, v) && (r == 0.0 <==> v == Zero)
  {
    DotSelfZero(v);
    if SqrtLaw(m) {
      RootZero(m.sqrt(Dot(v, v)), Dot(v, v));
    }
  }

  /** A square root is zero exactly when its square is. */
  lemma RootZero(r: real, d: real)
    requires r * r == d
    ensures r == 0.0 <==> d == 0.0
  {
    if r != 0.0 {
      calc { d; == r * r; > { SquareSign(r); } 0.0; }
    }
  }

  /** The squared length is never negative, and zero only for the zero vector. */
  lemma DotSelfZero(v: Vec3)
    ensures 0.0 <= Dot(v, v)
    ensures Dot(v, v) == 0.0 <==> v == Zero
  {
    DotSelfNonNegative(v);
    if v != Zero {
      DotSelfPositive(v);
    }
  }

  lemma DotSelfNonNegative(v: Vec3)
    ensures 0.0 <= Dot(v, v)
  {
    calc {
      Dot(v, v);
      == v.x * v.x + v.y * v.y + v.z * v.z;
      >= { SquareSign(v.x); SquareSign(v.y); SquareSign(v.z); }
      0.0;
    }
  }

  lemma DotSelfPositive(v: Vec3)
    requires v != Zero
    ensures 0.0 < Dot(v, v)
  {
    calc {
      Dot(v, v);
      == v.x * v.x + v.y * v.y + v.z * v.z;
      > { SquareSum(v.x, v.y, v.z); }
      0.0;
    }
  }

  lemma SquareSign(a: real)
    ensures 0.0 <= a * a
    ensures a != 0.0 ==> 0.0 < a * a
  {
  }

  lemma SquareSum(a: real, b: real, c: real)
    requires a != 0.0 || b != 0.0 || c != 0.0
    ensures 0.0 < a * a + b * b + c * c
  {
    SquareSign(a);
    SquareSign(b);
    SquareSign(c);
  }

  /** `Normalize`: divides by the length, which must not be zero; the result has
      unit length. */
  function Normalize(v: Vec3, m: MathLib): (r: Vec3)
    requires Length(v, m) != 0.0
    ensures SqrtLaw(m) ==> Dot(r, r) == 1.0
  {
    var len := Length(v, m);
    NormalizeLaw(v, len, m);
    Div(v, len)
  }

  lemma NormalizeLaw(v: Vec3, len: real, m: MathLib)
    requires len == Length(v, m) && len != 0.0
    ensures SqrtLaw(m) ==> Dot(Div(v, len), Div(v, len)) == 1.0
  {
    if SqrtLaw(m) {
      DivUnit(v, len);
    }
  }

  lemma DivUnit(v: Vec3, len: real)
    requires len != 0.0 && len * len == Dot(v, v)
    ensures Dot(Div(v, len), Div(v, len)) == 1.0
  {
    var r := Div(v, len);
    var k := len * len;
    calc { k; == len * len; > { SquareSign(len); } 0.0; }
    calc {
      k * Dot(r, r);
      == { DotScaleBoth(r, len); }
      Dot(Scale(r, len), Scale(r, len));
      ==
      Dot(v, v);
      ==
      k;
    }
    Cancel(k, Dot(r, r));
  }

  lemma Cancel(k: real, a: real)
    requires k != 0.0 && k * a == k
    ensures a == 1.0
  {
  }

  lemma DotScaleBoth(r: Vec3, k: real)
    ensures Dot(Scale(r, k), Scale(r, k)) == k * k * Dot(r, r)
  {
  }

  lemma DotComm(a: Vec3, b: Vec3)
    ensures Dot(a, b) == Dot(b, a)
  {
  }

  lemma DotAdd(a: Vec3, b: Vec3, c: Vec3)
    ensures Dot(Add(a, b), c) == Dot(a, c) + Dot(b, c)
  {
  }

  lemma DotSub(a: Vec3, b: Vec3, c: Vec3)
    ensures Dot(Sub(a, b), c) == Dot(a, c) - Dot(b, c)
  {
  }

  lemma DotScale(a: Vec3, k: real, c: Vec3)
    ensures Dot(Scale(a, k), c) == k * Dot(a, c)
  {
  }

  lemma DotNeg(a: Vec3, c: Vec3)
    ensures Dot(a, Neg(c)) == -Dot(a, c)
  {
  }

  /** `incidence - 2 * normal * Dot(incidence, normal)`.  For a unit normal the component
      along the normal changes sign and the length is kept. */
  function Reflect(incidence: Vec3, normal: Vec3): (r: Vec3)
    ensures Dot(normal, normal) == 1.0 ==> Dot(r, normal) == -Dot(incidence, normal)
    ensures Dot(normal, normal) == 1.0 ==> Dot(r, r) == Dot(incidence, incidence)
  {
    var d := Dot(incidence, normal);
    var r := Sub(incidence, Scale(Scale(normal, 2.0), d));
    ReflectAlgebra(incidence, normal, d);
    r
  }

  /** The two dot products of `incidence - 2 d normal`, by bilinearity. */
  lemma ReflectAlgebra(incidence: Vec3, normal: Vec3, d: real)
    requires d == Dot(incidence, normal)
    ensures var r := Sub(incidence, Scale(Scale(normal, 2.0), d));
      Dot(r, normal) == d - 2.0 * d * Dot(normal, normal) &&
      Dot(r, r) == Dot(incidence, incidence) - 4.0 * d * d + 4.0 * d * d * Dot(normal, normal)
  {
    var w := Scale(Scale(normal, 2.0), d);
    assert w == Scale(normal, 2.0 * d);
    ReflectAlongNormal(incidence, normal, d, w);
    ReflectSquared(incidence, normal, d, w);
  }

  lemma ReflectAlongNormal(incidence: Vec3, normal: Vec3, d: real, w: Vec3)
    requires w == Scale(normal, 2.0 * d)
    ensures Dot(Sub(incidence, w), normal) == Dot(incidence, normal) - 2.0 * d * Dot(normal, normal)
  {
    DotSub(incidence, w, normal);
    DotScale(normal, 2.0 * d, normal);
  }

  lemma ReflectSquared(incidence: Vec3, normal: Vec3, d: real, w: Vec3)
    requires d == Dot(incidence, normal) && w == Scale(normal, 2.0 * d)
    ensures var r := Sub(incidence, w);
      Dot(r, r) == Dot(incidence, incidence) - 4.0 * d * d + 4.0 * d * d * Dot(normal, normal)
  {
    var r := Sub(incidence, w);
    DotSub(incidence, w, r);
    DotComm(incidence, r);
    DotSub(incidence, w, incidence);
    DotComm(w, r);
    DotSub(incidence, w, w);
    DotScale(normal, 2.0 * d, incidence);
    DotComm(normal, incidence);
    DotScale(normal, 2.0 * d, w);
    DotComm(normal, w);
    DotScale(normal, 2.0 * d, normal);
    var nn := Dot(normal, normal);
    assert Dot(w, w) == 4.0 * d * d * nn;
  }

  /** Reflecting twice about the same unit normal gives back the incident vector. */
  lemma ReflectTwice(incidence: Vec3, normal: Vec3)
    requires Dot(normal, normal) == 1.0
    ensures Reflect(Reflect(incidence, normal), normal) == incidence
  {
    var d := Dot(incidence, normal);
    var r := Reflect(incidence, normal);
    assert r == Sub(incidence, Scale(normal, 2.0 * d));
    assert Dot(r, normal) == -d;
    assert Reflect(r, normal) == Sub(r, Scale(normal, 2.0 * -d));
  }

  /** `-max(-1, min(1, Dot(I, N)))`, the cosine of incidence in `Refract`. */
  function CosIncidence(incidence: Vec3, normal: Vec3): real {
    -Max(-1.0, Min(1.0, Dot(incidence, normal)))
  }

  /** Seen from the other side of the surface, the cosine changes sign. */
  lemma CosIncidenceFlip(incidence: Vec3, normal: Vec3)
    ensures CosIncidence(incidence, Neg(normal)) == -CosIncidence(incidence, normal)
  {
    DotNeg(incidence, normal);
  }

  /** `Refract` recurses at most once: after the flip the cosine is positive. */
  lemma RefractFlipsOnce(incidence: Vec3, normal: Vec3)
    requires CosIncidence(incidence, normal) < 0.0
    ensures 0.0 < CosIncidence(incidence, Neg(normal))
  {
    CosIncidenceFlip(incidence, normal);
  }

  /** The surface as `Refract` finally uses it: the normal facing the incident ray, the
      ratio of refractive indices and the cosine of incidence. */
  datatype Interface = Interface(normal: Vec3, eta: real, cosi: real)

  /** The only division `Refract` does, `eta_i / eta_t` on the side it ends on, has a
      nonzero divisor. */
  predicate RefractDefined(incidence: Vec3, normal: Vec3, etaT: real, etaI: real) {
    if CosIncidence(incidence, normal) < 0.0 then etaI != 0.0 else etaT != 0.0
  }

  /** The side `Refract` ends on: when the ray comes from behind the normal, the normal is
      negated and the two indices swap places. */
  function Orient(incidence: Vec3, normal: Vec3, etaT: real, etaI: real): (f: Interface)
    requires RefractDefined(incidence, normal, etaT, etaI)
    ensures 0.0 <= f.cosi <= 1.0
    ensures f.normal == normal || f.normal == Neg(normal)
  {
    var c := CosIncidence(incidence, normal);
    if c < 0.0 then Interface(Neg(normal), etaT / etaI, -c)
    else Interface(normal, etaI / etaT, c)
  }

  /** The discriminant `1 - eta^2 (1 - cosi^2)`; negative means total internal reflection. */
  function Discriminant(f: Interface): real {
    1.0 - f.eta * f.eta * (1.0 - f.cosi * f.cosi)
  }

  /** Snell's direction `I eta + N (eta cosi - sqrt(k))` on an oriented surface. */
  function Transmitted(incidence: Vec3, f: Interface, m: MathLib): Vec3 {
    Add(Scale(incidence, f.eta), Scale(f.normal, f.eta * f.cosi - m.sqrt(Discriminant(f))))
  }

  /** What one call of `Refract` computes once its flip test has failed: the ratio
      `eta_i / eta_t`, the discriminant, and the sentinel (1,0,0) under total internal
      reflection, otherwise Snell's direction. */
  function RefractFacing(incidence: Vec3, normal: Vec3, etaT: real, etaI: real, m: MathLib): Vec3
    requires etaT != 0.0
  {
    var f := Interface(normal, etaI / etaT, CosIncidence(incidence, normal));
    if Discriminant(f) < 0.0 then Vec3(1.0, 0.0, 0.0) else Transmitted(incidence, f, m)
  }

  /** `Refract(I, N, eta_t, eta_i)`.  When the ray comes from behind the normal the source
      calls itself once with `-N` and the indices swapped; that call's own flip test
      fails (`RefractFlipsOnce`), so it is `RefractFacing`, as `RefractRecursion` states. */
  function Refract(incidence: Vec3, normal: Vec3, etaT: real, etaI: real, m: MathLib): Vec3
    requires RefractDefined(incidence, normal, etaT, etaI)
  {
    if CosIncidence(incidence, normal) < 0.0 then
      CosIncidenceFlip(incidence, normal);
      RefractFacing(incidence, Neg(normal), etaI, etaT, m)
    else
      RefractFacing(incidence, normal, etaT, etaI, m)
  }

  /** `Refract` in closed form on the side it ends on: the sentinel (1,0,0) exactly under
      total internal reflection, otherwise Snell's direction. */
  lemma RefractClosedForm(incidence: Vec3, normal: Vec3, etaT: real, etaI: real, m: MathLib)
    requires RefractDefined(incidence, normal, etaT, etaI)
    ensures var f := Orient(incidence, normal, etaT, etaI);
      Refract(incidence, normal, etaT, etaI, m) == if Discriminant(f) < 0.0 then Vec3(1.0, 0.0, 0.0) else Transmitted(incidence, f, m)
  {
    if CosIncidence(incidence, normal) < 0.0 {
      CosIncidenceFlip(incidence, normal);
    }
  }

  /** The source's recursion equation holds: from behind the normal, `Refract` is
      `Refract` with the normal negated and the indices swapped. */
  lemma RefractRecursion(incidence: Vec3, normal: Vec3, etaT: real, etaI: real, m: MathLib)
    requires RefractDefined(incidence, normal, etaT, etaI)
    requires CosIncidence(incidence, normal) < 0.0
    ensures RefractDefined(incidence, Neg(normal), etaI, etaT)
    ensures Refract(incidence, normal, etaT, etaI, m) == Refract(incidence, Neg(normal), etaI, etaT, m)
  {
    RefractFlipsOnce(incidence, normal);
  }

  /** Cauchy-Schwarz, through Lagrange's identity. */
  lemma DotSquareBound(a: Vec3, b: Vec3)
    ensures Dot(a, b) * Dot(a, b) <= Dot(a, a) * Dot(b, b)
  {
    var c := Cross(a, b);
    LagrangeIdentity(a, b);
    DotSelfZero(c);
  }

  lemma LagrangeIdentity(a: Vec3, b: Vec3)
    ensures Dot(a, a) * Dot(b, b) - Dot(a, b) * Dot(a, b) == Dot(Cross(a, b), Cross(a, b))
  {
  }

  lemma UnitSquareBound(d: real)
    requires d * d <= 1.0
    ensures -1.0 <= d <= 1.0
  {
  }

  /** For unit vectors the clamp in `CosIncidence` changes nothing. */
  lemma CosIncidenceUnclamped(incidence: Vec3, normal: Vec3)
    requires Dot(incidence, incidence) == 1.0 && Dot(normal, normal) == 1.0
    ensures CosIncidence(incidence, normal) == -Dot(incidence, normal)
  {
    DotSquareBound(incidence, normal);
    UnitSquareBound(Dot(incidence, normal));
  }

  /** The part of `v` orthogonal to the unit normal `n`. */
  function Tangent(v: Vec3, n: Vec3): Vec3 {
    Sub(v, Scale(n, Dot(v, n)))
  }

  /** Projecting on `-n` is projecting on `n`. */
  lemma TangentNeg(v: Vec3, n: Vec3)
    ensures Tangent(v, Neg(n)) == Tangent(v, n)
  {
    DotNeg(v, n);
  }

  /** Tangent(a I + b n) == a Tangent(I) for unit n. */
  lemma TangentCombination(v: Vec3, n: Vec3, a: real, b: real)
    requires Dot(n, n) == 1.0
    ensures Tangent(Add(Scale(v, a), Scale(n, b)), n) == Scale(Tangent(v, n), a)
  {
    var w := Add(Scale(v, a), Scale(n, b));
    DotCombination(v, n, a, b);
    RemoveCombination(v, n, a, b, Dot(v, n), Dot(w, n));
  }

  lemma DotCombination(v: Vec3, n: Vec3, a: real, b: real)
    ensures Dot(Add(Scale(v, a), Scale(n, b)), n) == a * Dot(v, n) + b * Dot(n, n)
  {
    DotAdd(Scale(v, a), Scale(n, b), n);
    DotScale(v, a, n);
    DotScale(n, b, n);
  }

  /** Removing `k n` from `a v + b n`, with `k = a d + b`, leaves `a (v - d n)`. */
  lemma RemoveCombination(v: Vec3, n: Vec3, a: real, b: real, d: real, k: real)
    requires k == a * d + b
    ensures Sub(Add(Scale(v, a), Scale(n, b)), Scale(n, k)) == Scale(Sub(v, Scale(n, d)), a)
  {
    TangentCoordinate(v.x, n.x, a, b, d, k);
    TangentCoordinate(v.y, n.y, a, b, d, k);
    TangentCoordinate(v.z, n.z, a, b, d, k);
  }

  /** One coordinate of `RemoveCombination`. */
  lemma TangentCoordinate(vc: real, nc: real, a: real, b: real, d: real, k: real)
    requires k == a * d + b
    ensures (vc * a + nc * b) - nc * k == (vc - nc * d) * a
  {
  }

  /** Snell's law: when there is no total internal reflection, the refracted direction's
      part along the surface is the incident one's scaled by the index ratio. */
  lemma RefractTangent(incidence: Vec3, normal: Vec3, etaT: real, etaI: real, m: MathLib)
    requires Dot(normal, normal) == 1.0
    requires RefractDefined(incidence, normal, etaT, etaI)
    requires 0.0 <= Discriminant(Orient(incidence, normal, etaT, etaI))
    ensures var f := Orient(incidence, normal, etaT, etaI);
      Tangent(Refract(incidence, normal, etaT, etaI, m), normal) == Scale(Tangent(incidence, normal), f.eta)
  {
    RefractClosedForm(incidence, normal, etaT, etaI, m);
    var f := Orient(incidence, normal, etaT, etaI);
    DotNegBoth(normal);
    TransmittedTangent(incidence, f, m);
    if f.normal != normal {
      TangentNeg(Transmitted(incidence, f, m), normal);
      TangentNeg(incidence, normal);
    }
  }

  lemma DotNegBoth(n: Vec3)
    ensures Dot(Neg(n), Neg(n)) == Dot(n, n)
  {
  }

  /** Snell's direction on an oriented unit normal keeps `eta` times the tangential part. */
  lemma TransmittedTangent(incidence: Vec3, f: Interface, m: MathLib)
    requires Dot(f.normal, f.normal) == 1.0
    ensures Tangent(Transmitted(incidence, f, m), f.normal) == Scale(Tangent(incidence, f.normal), f.eta)
  {
    TangentCombination(incidence, f.normal, f.eta, f.eta * f.cosi - m.sqrt(Discriminant(f)));
  }

  /** The scalar identity behind `RefractUnit`. */
  lemma TransmittedAlgebra(e: real, c: real, s: real, beta: real)
    requires beta == e * c - s
    requires s * s == 1.0 - e * e * (1.0 - c * c)
    ensures e * e - 2.0 * e * beta * c + beta * beta == 1.0
  {
    assert beta * beta == e * e * c * c - 2.0 * e * c * s + s * s;
    assert 2.0 * e * beta * c == 2.0 * e * e * c * c - 2.0 * e * c * s;
  }

  /** |a v + b n|^2 for unit v and n with v.n == -c. */
  lemma CombinationLength(v: Vec3, n: Vec3, a: real, b: real, c: real)
    requires Dot(v, v) == 1.0 && Dot(n, n) == 1.0 && Dot(v, n) == -c
    ensures var w := Add(Scale(v, a), Scale(n, b)); Dot(w, w) == a * a - 2.0 * a * b * c + b * b
  {
    var p := Scale(v, a);
    var q := Scale(n, b);
    var w := Add(p, q);
    DotAdd(p, q, w);
    DotComm(p, w);
    DotComm(q, w);
    DotAdd(p, q, p);
    DotAdd(p, q, q);
    DotScale(v, a, p);
    DotComm(v, p);
    DotScale(v, a, v);
    DotScale(n, b, p);
    DotComm(n, p);
    DotScale(v, a, n);
    DotScale(v, a, q);
    DotComm(v, q);
    DotScale(n, b, v);
    DotComm(n, v);
    DotScale(n, b, q);
    DotComm(n, q);
    DotScale(n, b, n);
    assert Dot(p, p) == a * a;
    assert Dot(q, q) == b * b;
    assert Dot(p, q) == -a * b * c;
  }

  /** A unit incident direction through a unit normal refracts to a unit direction, unless
      it is totally reflected. */
  lemma RefractUnit(incidence: Vec3, normal: Vec3, etaT: real, etaI: real, m: MathLib)
    requires SqrtLaw(m)
    requires Dot(incidence, incidence) == 1.0 && Dot(normal, normal) == 1.0
    requires RefractDefined(incidence, normal, etaT, etaI)
    requires 0.0 <= Discriminant(Orient(incidence, normal, etaT, etaI))
    ensures var r := Refract(incidence, normal, etaT, etaI, m); Dot(r, r) == 1.0
  {
    RefractClosedForm(incidence, normal, etaT, etaI, m);
    var f := Orient(incidence, normal, etaT, etaI);
    CosIncidenceUnclamped(incidence, normal);
    DotNeg(incidence, normal);
    DotNeg(Neg(normal), normal);
    assert Neg(Neg(normal)) == normal;
    CosIncidenceFlip(incidence, normal);
    assert Dot(f.normal, f.normal) == 1.0;
    assert Dot(incidence, f.normal) == -f.cosi;
    TransmittedUnit(incidence, f, m);
  }

  /** Snell's direction on an oriented unit normal, for a unit incident direction, is a
      unit vector. */
  lemma TransmittedUnit(incidence: Vec3, f: Interface, m: MathLib)
    requires SqrtLaw(m)
    requires Dot(incidence, incidence) == 1.0 && Dot(f.normal, f.normal) == 1.0
    requires Dot(incidence, f.normal) == -f.cosi && 0.0 <= Discriminant(f)
    ensures var t := Transmitted(incidence, f, m); Dot(t, t) == 1.0
  {
    SquareOfSqrt(m, Discriminant(f));
    SnellLength(incidence, f, m.sqrt(Discriminant(f)));
  }

  lemma SquareOfSqrt(m: MathLib, x: real)
    requires SqrtLaw(m) && 0.0 <= x
    ensures m.sqrt(x) * m.sqrt(x) == x
  {
  }

  /** `Transmitted` with the square root written `s`. */
  lemma SnellLength(incidence: Vec3, f: Interface, s: real)
    requires Dot(incidence, incidence) == 1.0 && Dot(f.normal, f.normal) == 1.0
    requires Dot(incidence, f.normal) == -f.cosi && s * s == Discriminant(f)
    ensures var t := Add(Scale(incidence, f.eta), Scale(f.normal, f.eta * f.cosi - s)); Dot(t, t) == 1.0
  {
    SnellAlgebra(f, s);
    CombinationLength(incidence, f.normal, f.eta, f.eta * f.cosi - s, f.cosi);
  }

  /** With `s^2` the discriminant and `beta = eta cosi - s`, the squared length
      `eta^2 - 2 eta beta cosi + beta^2` of Snell's direction is 1. */
  lemma SnellAlgebra(f: Interface, s: real)
    requires s * s == Discriminant(f)
    ensures var beta := f.eta * f.cosi - s; f.eta * f.eta - 2.0 * f.eta * beta * f.cosi + beta * beta == 1.0
  {
    TransmittedAlgebra(f.eta, f.cosi, s, f.eta * f.cosi - s);
  }

  /** `Ray`: an origin and a direction (not necessarily of unit length). */
  datatype Ray = Ray(origin: Vec3, direction: Vec3) {
    /** `at(t) = origin + t * direction`; `at(0)` is the origin. */
    function At(t: real): (p: Vec3)
      ensures Sub(p, origin) == Scale(direction, t)
      ensures t == 0.0 ==> p == origin
    {
      Add(origin, Scale(direction, t))
    }
  }
}
