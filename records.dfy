/** `Material` and `HitRecord` of src/renderer.h, and the nearest-hit selection that
    `Model::hit` and `Scene::hit` both perform: a scan with a running bound that starts
    at the largest float and is only replaced by a strictly smaller parameter. */
module Records {
  import opened Wrappers
  import opened Numerics
  import opened Geometry

  datatype Material = Material(
    diffuse: Vec3,
    specular: Vec3,
    diffuseAlbedo: real,
    specularAlbedo: real,
    reflectAlbedo: real,
    refractAlbedo: real,
    shininess: real,
    refractive: real)

  /** `Material()`: black diffuse and specular colours and the default coefficients. */
  const DefaultMaterial: Material :=
    Material(Zero, Zero, 0.145, 0.125, 0.0, 0.655, 1000.0, 4.0)

  /** Where a ray met a surface, the surface normal there, the ray parameter and the
      surface's material. */
  datatype HitRecord = HitRecord(position: Vec3, normal: Vec3, parameter: real, material: Material)

  /** The running bound `minT`: the best parameter so far, or the largest float. */
  function Bound(best: Option<HitRecord>): real {
    if best.Some? then best.value.parameter else FLT_MAX
  }

  /** The scan over the candidates in order: a candidate replaces the best so far only
      when its parameter is strictly below the running bound. */
  function Nearest(cands: seq<Option<HitRecord>>): Option<HitRecord> {
    if cands == [] then None
    else
      var best := Nearest(cands[..|cands| - 1]);
      var last := cands[|cands| - 1];
      if last.Some? && last.value.parameter < Bound(best) then last else best
  }

  /** Candidate `k` is the first one with the least parameter, and that parameter is
      below the largest float. */
  predicate IsFirstNearest(cands: seq<Option<HitRecord>>, k: int) {
    0 <= k < |cands| && cands[k].Some? && cands[k].value.parameter < FLT_MAX &&
    (forall j :: 0 <= j < k && cands[j].Some? ==> cands[k].value.parameter < cands[j].value.parameter) &&
    (forall j :: k < j < |cands| && cands[j].Some? ==> cands[k].value.parameter <= cands[j].value.parameter)
  }

  /** The scan finds nothing exactly when no candidate is below the largest float, and
      otherwise returns the first candidate with the least parameter. */
  lemma {:induction false} NearestSpec(cands: seq<Option<HitRecord>>)
    ensures Nearest(cands).None? <==>
      forall i :: 0 <= i < |cands| && cands[i].Some? ==> FLT_MAX <= cands[i].value.parameter
    ensures Nearest(cands).Some? ==> exists k :: IsFirstNearest(cands, k) && Nearest(cands) == cands[k]
  {
    if cands != [] {
      var init := cands[..|cands| - 1];
      var last := cands[|cands| - 1];
      NearestSpec(init);
      assert forall i :: 0 <= i < |init| ==> cands[i] == init[i];
      var best := Nearest(init);
      if last.Some? && last.value.parameter < Bound(best) {
        if best.Some? {
          var k :| IsFirstNearest(init, k) && best == init[k];
          assert IsFirstNearest(cands, |cands| - 1);
        } else {
          assert IsFirstNearest(cands, |cands| - 1);
        }
      } else if best.Some? {
        var k :| IsFirstNearest(init, k) && best == init[k];
        assert IsFirstNearest(cands, k);
      }
    }
  }

  /** At most one candidate is the first nearest one. */
  lemma FirstNearestUnique(cands: seq<Option<HitRecord>>, k: int, l: int)
    requires IsFirstNearest(cands, k) && IsFirstNearest(cands, l)
    ensures k == l
  {
  }

  /** Conversely, the first nearest candidate is what the scan returns. */
  lemma NearestIsFirstNearest(cands: seq<Option<HitRecord>>, k: int)
    requires IsFirstNearest(cands, k)
    ensures Nearest(cands) == cands[k]
  {
    NearestSpec(cands);
    var l :| IsFirstNearest(cands, l) && Nearest(cands) == cands[l];
    FirstNearestUnique(cands, k, l);
  }

  /** One more step of the scan over a prefix of the candidates. */
  lemma NearestExtend(cands: seq<Option<HitRecord>>, i: int)
    requires 0 <= i < |cands|
    ensures Nearest(cands[..i + 1]) ==
      var best := Nearest(cands[..i]);
      if cands[i].Some? && cands[i].value.parameter < Bound(best) then cands[i] else best
  {
    assert cands[..i + 1][..i] == cands[..i];
  }
}
