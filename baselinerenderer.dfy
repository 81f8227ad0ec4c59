/**
 * The managed reference renderer `MandelbrotBaselineRenderer`: the same row-major fill as the
 * native kernel, with its own argument checks (no magnitude of the iteration cap and no
 * overflow check) and the managed colour provider. Rows are filled one after another here; the
 * original hands them to `Parallel.For`, which is the same result because each row writes only
 * its own slots (see `Raster.ImageRow`).
 */
module BaselineRenderer {
  import opened Ints
  import opened Mandelbrot
  import opened Raster
  import opened Model
  import ColorProvider

  /** `Iterate`: the escape count with budget `maxIter`; a non-positive budget gives 0. */
  method Iterate(x0: real, y0: real, maxIter: I32) returns (i: I32)
    ensures 0 <= i && i == EscapeCount(Point(x0, y0), Max(maxIter, 0))
  {
    ghost var c := Point(x0, y0);
    ghost var n: nat := Max(maxIter, 0);
    var x, y := 0.0, 0.0;
    i := 0;
    while i < maxIter
      invariant 0 <= i <= n
      invariant Point(x, y) == Orbit(c, i)
      invariant forall j :: 1 <= j <= i ==> !Escaped(Orbit(c, j))
    {
      var xx := x * x - y * y + x0;
      var yy := 2.0 * x * y + y0;
      OrbitStep(c, i, x, y);
      x := xx;
      y := yy;
      if Escaped(Point(x, y)) {
        break;
      }
      i := i + 1;
    }
    EscapeCountUnique(c, n, i);
  }

  /** The colour the renderer gives pixel `(px, py)`. */
  function Pixels(provider: ColorProvider.ClassicColormapProvider, camera: CameraState, maxIter: I32,
                  widthPx: I32, heightPx: I32): (nat, nat) -> U32
    requires provider.Valid() && camera.zoom > 0
  {
    (px: nat, py: nat) =>
      var c := PixelToWorld(camera.centerWorld.x, camera.centerWorld.y, camera.zoom, widthPx, heightPx, px, py);
      ColorProvider.GetColor(provider, EscapeCount(c, Max(maxIter, 0)) as I32, maxIter)
  }

  /** The argument checks of `Render`: true when it returns without writing. */
  predicate Rejects(camera: CameraState, widthPx: I32, heightPx: I32, dstLength: nat)
  {
    widthPx <= 0 || heightPx <= 0 || camera.zoom == 0 || dstLength < widthPx * heightPx
  }

  class MandelbrotBaselineRenderer {
    const colorProvider: ColorProvider.ClassicColormapProvider
    const name: string

    constructor(colorProvider: ColorProvider.ClassicColormapProvider)
      requires colorProvider.Valid()
      ensures this.colorProvider == colorProvider && name == "C# Baseline"
    {
      this.colorProvider := colorProvider;
      name := "C# Baseline";
    }

    /** `Render`. A rejected call leaves `dst` untouched; an accepted one makes the first
        `widthPx * heightPx` slots the row-major image of the pixel colours and leaves the
        slots after them as they were. `widthPx * heightPx` is assumed to fit an int. */
    method Render(camera: CameraState, settings: RenderSettings, widthPx: I32, heightPx: I32, dst: array<U32>)
      requires colorProvider.Valid()
      requires I32_MIN <= widthPx * heightPx <= I32_MAX
      modifies dst
      ensures Rejects(camera, widthPx, heightPx, dst.Length) ==> dst[..] == old(dst[..])
      ensures !Rejects(camera, widthPx, heightPx, dst.Length) ==>
                && camera.zoom > 0 && 0 < widthPx * heightPx <= dst.Length
                && dst[..widthPx * heightPx]
                   == Image(widthPx as nat, heightPx as nat,
                            Pixels(colorProvider, camera, settings.maxIterations, widthPx, heightPx))
                && dst[widthPx * heightPx..] == old(dst[widthPx * heightPx..])
    {
      if widthPx <= 0 || heightPx <= 0 {
        return;
      }
      if camera.zoom <= 0 {
        return;
      }
      if dst.Length < widthPx * heightPx {
        return;
      }
      var maxIter := settings.maxIterations;
      FillRows(colorProvider, camera, maxIter, widthPx, heightPx, dst);
    }
  }


  /** `Parallel.For(0, heightPx, ..)`, one row after another: the first `widthPx * heightPx`
      slots become the image, the rest stay as they were. */
  method FillRows(colorProvider: ColorProvider.ClassicColormapProvider, camera: CameraState, maxIter: I32, widthPx: I32, heightPx: I32, dst: array<U32>)
    requires colorProvider.Valid() && camera.zoom > 0 && 0 < widthPx && 0 < heightPx
    requires widthPx * heightPx <= I32_MAX && widthPx * heightPx <= dst.Length
    modifies dst
    ensures dst[..widthPx * heightPx]
            == Image(widthPx as nat, heightPx as nat, Pixels(colorProvider, camera, maxIter, widthPx, heightPx))
    ensures dst[widthPx * heightPx..] == old(dst[widthPx * heightPx..])
  {
    ghost var f := Pixels(colorProvider, camera, maxIter, widthPx, heightPx);
    ghost var width: nat, height: nat := widthPx as nat, heightPx as nat;
    ghost var filled: nat := 0;
    var py: I32 := 0;
    while py < heightPx
      invariant 0 <= py <= heightPx && filled == py * width <= width * height
      invariant dst[..filled] == Image(width, py as nat, f)
      invariant dst[filled..] == old(dst[filled..])
    {
      RowEnd(width, height, py as nat);
      var row: I32 := py * widthPx;
      RenderRow(colorProvider, camera, maxIter, widthPx, heightPx, py, row, dst);
      assert dst[..row + width] == dst[..row] + dst[row..row + width];
      py, filled := py + 1, filled + width;
    }
  }

  /** The body of the per-row lambda: row `py` goes to the `widthPx` slots from
      `row = py * widthPx` on, and nothing else in `dst` changes. */
  method RenderRow(colorProvider: ColorProvider.ClassicColormapProvider, camera: CameraState, maxIter: I32, widthPx: I32, heightPx: I32, py: I32, row: nat, dst: array<U32>)
    requires colorProvider.Valid() && camera.zoom > 0 && 0 < widthPx && 0 <= py
    requires row + widthPx <= dst.Length
    modifies dst
    ensures dst[..row] == old(dst[..row])
    ensures dst[row..row + widthPx] == Row(widthPx as nat, py as nat, Pixels(colorProvider, camera, maxIter, widthPx, heightPx))
    ensures dst[row + widthPx..] == old(dst[row + widthPx..])
  {
    ghost var f := Pixels(colorProvider, camera, maxIter, widthPx, heightPx);
    // yWorld = center.Y + (-(py - halfH) * invZoom), with invZoom = 1 / Zoom and halfH = heightPx / 2
    var yWorld := WorldY(camera.centerWorld.y, camera.zoom, heightPx, py as nat);
    var px: I32 := 0;
    while px < widthPx
      invariant 0 <= px <= widthPx
      invariant dst[..row] == old(dst[..row])
      invariant dst[row..row + px] == Row(widthPx as nat, py as nat, f)[..px]
      invariant dst[row + px..] == old(dst[row + px..])
    {
      ShadePixel(colorProvider, camera, maxIter, widthPx, heightPx, px as nat, py as nat, yWorld, dst, row);
      assert dst[row..row + px + 1] == dst[row..row + px] + [f(px as nat, py as nat)];
      px := px + 1;
    }
  }

  /** One pixel of the lambda: its world x, its escape count and the provider's colour for it,
      which is pixel `(px, py)`'s entry of `Pixels`, written to slot `row + px`. */
  method ShadePixel(colorProvider: ColorProvider.ClassicColormapProvider, camera: CameraState, maxIter: I32,
                    widthPx: I32, heightPx: I32, px: nat, py: nat, yWorld: real, dst: array<U32>, row: nat)
    requires colorProvider.Valid() && camera.zoom > 0 && row + px < dst.Length
    requires yWorld == WorldY(camera.centerWorld.y, camera.zoom, heightPx, py)
    modifies dst
    ensures dst[..] == old(dst[..])[row + px := Pixels(colorProvider, camera, maxIter, widthPx, heightPx)(px, py)]
  {
    // xWorld = center.X + ((px - halfW) * invZoom)
    var xWorld := WorldX(camera.centerWorld.x, camera.zoom, widthPx, px);
    var iter := Iterate(xWorld, yWorld, maxIter);
    var colour := ColorProvider.GetColor(colorProvider, iter, maxIter);
    PixelColour(colorProvider, camera, maxIter, widthPx, heightPx, px, py, iter);
    dst[row + px] := colour;
  }

  /** The colour computed from the escape count of pixel `(px, py)`'s world point is that
      pixel's entry of `Pixels`. */
  lemma PixelColour(provider: ColorProvider.ClassicColormapProvider, camera: CameraState, maxIter: I32,
                    widthPx: I32, heightPx: I32, px: nat, py: nat, iter: I32)
    requires provider.Valid() && camera.zoom > 0
    requires iter == EscapeCount(Point(WorldX(camera.centerWorld.x, camera.zoom, widthPx, px),
                                       WorldY(camera.centerWorld.y, camera.zoom, heightPx, py)), Max(maxIter, 0))
    ensures ColorProvider.GetColor(provider, iter, maxIter) == Pixels(provider, camera, maxIter, widthPx, heightPx)(px, py)
  {
  }

  /** Unlike the native kernel, a non-positive cap is not replaced by its magnitude: every
      written slot is then black. */
  lemma NonPositiveCapIsBlack(provider: ColorProvider.ClassicColormapProvider, camera: CameraState, maxIter: I32,
                              widthPx: I32, heightPx: I32)
    requires provider.Valid() && camera.zoom > 0 && 0 < widthPx && 0 < heightPx && maxIter <= 0
    ensures var img := Image(widthPx as nat, heightPx as nat, Pixels(provider, camera, maxIter, widthPx, heightPx));
            |img| == widthPx * heightPx && forall k :: 0 <= k < |img| ==> img[k] == ColorProvider.BLACK
  {
    var f := Pixels(provider, camera, maxIter, widthPx, heightPx);
    forall px: nat, py: nat | px < widthPx && py < heightPx ensures f(px, py) == ColorProvider.BLACK {
      var c := PixelToWorld(camera.centerWorld.x, camera.centerWorld.y, camera.zoom, widthPx, heightPx, px, py);
      ColorProvider.InSetIsBlack(provider, EscapeCount(c, 0) as I32, maxIter);
    }
    UniformImage(widthPx as nat, heightPx as nat, f, ColorProvider.BLACK);
  }

  /** Pixel `(px, py)` of an accepted call lands in slot `py * widthPx + px`. */
  lemma PixelSlot(provider: ColorProvider.ClassicColormapProvider, camera: CameraState, maxIter: I32,
                  widthPx: I32, heightPx: I32, px: nat, py: nat)
    requires provider.Valid() && camera.zoom > 0 && px < widthPx && py < heightPx
    ensures var img := Image(widthPx as nat, heightPx as nat, Pixels(provider, camera, maxIter, widthPx, heightPx));
            var c := PixelToWorld(camera.centerWorld.x, camera.centerWorld.y, camera.zoom, widthPx, heightPx, px, py);
            && py * widthPx + px < |img|
            && img[py * widthPx + px] == ColorProvider.GetColor(provider, EscapeCount(c, Max(maxIter, 0)) as I32, maxIter)
  {
    ImagePixel(widthPx as nat, heightPx as nat, Pixels(provider, camera, maxIter, widthPx, heightPx), px, py);
  }
}
