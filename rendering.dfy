/** `Render` of src/renderer.cpp: one primary ray per pixel through the camera's
    viewport, traced by `castRay` and written to the framebuffer. */
module Rendering {
  import opened Numerics
  import opened Geometry
  import opened Scenes
  import opened Shading
  import opened Cameras
  import opened Framebuffers

  /** The ray `Render` shoots through pixel `(x, y)`: the viewport parameters are
      `x / (width - 1)` across and `y / (height - 1)` up, so a width or height of 1
      would divide by zero. */
  function PixelRay(camera: Camera, width: int, height: int, x: int, y: int): (r: Ray)
    reads camera
    requires width != 1 && height != 1
    ensures r.origin == camera.eye
    ensures r.At(1.0) == camera.ViewportPoint(x as real / (width - 1) as real, y as real / (height - 1) as real)
  {
    camera.GenerateRay(x as real / (width - 1) as real, y as real / (height - 1) as real)
  }

  /** The first pixel's ray reaches the viewport's corner and the last pixel's the
      opposite corner: the pixels span the whole viewport. */
  lemma PixelsSpanViewport(camera: Camera, width: int, height: int)
    requires 1 < width && 1 < height
    ensures PixelRay(camera, width, height, 0, 0).At(1.0) == camera.corner
    ensures PixelRay(camera, width, height, width - 1, height - 1).At(1.0) ==
      Add(Add(camera.corner, camera.horizontal), camera.vertical)
  {
    assert (width - 1) as real / (width - 1) as real == 1.0;
    assert (height - 1) as real / (height - 1) as real == 1.0;
  }

  /** The colour `Render` gives pixel `(x, y)`. */
  function PixelColor(view: SceneView, t: Tracer, camera: Camera, width: int, height: int,
                      x: int, y: int, depth: int, m: MathLib): Vec3
    reads camera
    requires width != 1 && height != 1 && Traceable(view, t, PixelRay(camera, width, height, x, y), depth, m)
  {
    Radiance(view, t, PixelRay(camera, width, height, x, y), depth, m)
  }

  /** Every pixel's ray can be traced. */
  ghost predicate ImageTraceable(view: SceneView, t: Tracer, camera: Camera, width: int, height: int,
                                 depth: int, m: MathLib)
    reads camera
  {
    width != 1 && height != 1 &&
    forall x, y :: 0 <= x < width && 0 <= y < height ==>
      Traceable(view, t, PixelRay(camera, width, height, x, y), depth, m)
  }

  /** The pixels of the rows before `y`, and of row `y` before column `x`, hold their
      colours. */
  ghost predicate DrawnUpTo(buffer: seq<byte>, view: SceneView, t: Tracer, camera: Camera,
                            width: int, height: int, depth: int, m: MathLib, x: int, y: int)
    reads camera
    requires ImageTraceable(view, t, camera, width, height, depth, m)
  {
    forall px, py :: 0 <= px < width && 0 <= py < height && (py < y || (py == y && px < x)) ==>
      PixelHolds(buffer, width, px, py, PixelColor(view, t, camera, width, height, px, py, depth, m))
  }

  /** Writing pixel `(x, y)` over a buffer whose pixels before it hold their colours
      gives one whose pixels up to and including it do. */
  lemma DrawnExtends(before: seq<byte>, after: seq<byte>, view: SceneView, t: Tracer, camera: Camera,
                     width: int, height: int, depth: int, m: MathLib, x: int, y: int)
    requires ImageTraceable(view, t, camera, width, height, depth, m)
    requires 0 <= x < width && 0 <= y < height && |after| == |before|
    requires DrawnUpTo(before, view, t, camera, width, height, depth, m, x, y)
    requires forall i :: 0 <= i < |after| && (i < PixelIndex(width, x, y) || PixelIndex(width, x, y) + 2 < i) ==>
      after[i] == before[i]
    requires PixelHolds(after, width, x, y, PixelColor(view, t, camera, width, height, x, y, depth, m))
    ensures DrawnUpTo(after, view, t, camera, width, height, depth, m, x + 1, y)
  {
    forall px, py | 0 <= px < width && 0 <= py < height && (py < y || (py == y && px < x))
      ensures PixelHolds(after, width, px, py, PixelColor(view, t, camera, width, height, px, py, depth, m))
    {
      OtherPixelKept(before, after, width, height, x, y, px, py,
                     PixelColor(view, t, camera, width, height, px, py, depth, m));
    }
  }

  /** One pixel of `Render`: `castRay` on the pixel's ray, then `setPixel`. */
  method DrawPixel(fb: Framebuffer, camera: Camera, scene: Scene, x: int, y: int, depth: int,
                   m: MathLib, ghost tracer: Tracer)
    requires fb.Valid() && 0 <= x < fb.width && 0 <= y < fb.height && SqrtLaw(m) && PowLaw(m)
    requires Answers(scene.View(), tracer, m) && ScenePaintable(scene.View())
    requires ImageTraceable(scene.View(), tracer, camera, fb.width, fb.height, depth, m)
    modifies fb.buffer
    ensures PixelHolds(fb.buffer[..], fb.width, x, y, PixelColor(scene.View(), tracer, camera, fb.width, fb.height, x, y, depth, m))
    ensures forall i :: 0 <= i < fb.buffer.Length && (i < PixelIndex(fb.width, x, y) || PixelIndex(fb.width, x, y) + 2 < i) ==>
      fb.buffer[i] == old(fb.buffer[i])
  {
    var s := x as real / (fb.width - 1) as real;
    var t := y as real / (fb.height - 1) as real;
    var ray := camera.GenerateRay(s, t);
    assert ray == PixelRay(camera, fb.width, fb.height, x, y);
    var color := CastRay(ray, scene, depth, m, tracer);
    RadianceNonNegative(scene.View(), tracer, ray, depth, m);
    fb.SetPixel(x, y, color);
  }

  /** `Render(framebuffer, camera, scene, depth)`: row by row, every pixel receives the
      colour `castRay` computes for its ray.  The pixel colours have no negative channel
      when the scene's materials and ambient term have none. */
  method Render(fb: Framebuffer, camera: Camera, scene: Scene, depth: int, m: MathLib, ghost tracer: Tracer)
    requires fb.Valid() && SqrtLaw(m) && PowLaw(m)
    requires Answers(scene.View(), tracer, m) && ScenePaintable(scene.View())
    requires ImageTraceable(scene.View(), tracer, camera, fb.width, fb.height, depth, m)
    modifies fb.buffer
    ensures forall x, y :: 0 <= x < fb.width && 0 <= y < fb.height ==>
      PixelHolds(fb.buffer[..], fb.width, x, y, PixelColor(scene.View(), tracer, camera, fb.width, fb.height, x, y, depth, m))
  {
    ghost var view := scene.View();
    var y := 0;
    while y < fb.height
      invariant 0 <= y <= fb.height
      invariant DrawnUpTo(fb.buffer[..], view, tracer, camera, fb.width, fb.height, depth, m, 0, y)
    {
      var x := 0;
      while x < fb.width
        invariant 0 <= x <= fb.width
        invariant DrawnUpTo(fb.buffer[..], view, tracer, camera, fb.width, fb.height, depth, m, x, y)
      {
        ghost var before := fb.buffer[..];
        DrawPixel(fb, camera, scene, x, y, depth, m, tracer);
        DrawnExtends(before, fb.buffer[..], view, tracer, camera, fb.width, fb.height, depth, m, x, y);
        x := x + 1;
      }
      y := y + 1;
    }
  }
}
