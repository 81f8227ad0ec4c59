/**
 * The native render entry point `mandelbrot_baseline_render_u32` and its escape loop.
 *
 * The entry point checks its arguments and silently returns when one is unusable; otherwise it
 * fills the first `width * height` slots of the caller's buffer, row by row, with the colour of
 * each pixel's escape count. The raw output pointer is an `array?`: `null` is the null pointer,
 * and `dstLen` is the length the caller claims for it. Rows are filled one after another here;
 * the original hands them to parallel workers, which is the same result because each row is a
 * disjoint chunk (see `Raster.ImageRow`).
 */
module RustKernel {
  import opened Wrappers
  import opened Ints
  import opened Mandelbrot
  import opened Raster
  import Colormap

  /** The FFI smoke test entry point. */
  function Test(): (r: U32)
    ensures r == 6
  {
    6
  }

  /** `i32::unsigned_abs`: the magnitude, which for `i32::MIN` is 2^31 and still fits a u32. */
  function UnsignedAbs(m: I32): (r: U32)
    ensures r as int == m || r as int == -(m as int)
    ensures m == I32_MIN ==> r == 0x8000_0000
    ensures r <= 0x8000_0000
  {
    if m < 0 then -(m as int) else m
  }

  /** Why the entry point returned without writing. */
  datatype Rejection = NonPositiveSize | ZeroZoom | NullOutput | SizeOverflow | OutputTooShort

  /** The argument checks, in the order the entry point makes them; `None` means it renders.
      `usizeMax` is the largest `usize` of the target, the bound of `checked_mul`. */
  function Guard(widthPx: I32, heightPx: I32, zoom: U64, dstIsNull: bool, dstLen: nat, usizeMax: nat)
    : (r: Option<Rejection>)
    ensures r == None <==>
              && 0 < widthPx && 0 < heightPx && zoom != 0 && !dstIsNull
              && widthPx * heightPx <= usizeMax && widthPx * heightPx <= dstLen
    ensures r == Some(NonPositiveSize) <==> widthPx <= 0 || heightPx <= 0
    ensures r == Some(ZeroZoom) <==> 0 < widthPx && 0 < heightPx && zoom == 0
    ensures r == Some(NullOutput) <==> 0 < widthPx && 0 < heightPx && zoom != 0 && dstIsNull
    ensures r == Some(SizeOverflow) <==>
              0 < widthPx && 0 < heightPx && zoom != 0 && !dstIsNull && widthPx * heightPx > usizeMax
    ensures r == Some(OutputTooShort) <==>
              && 0 < widthPx && 0 < heightPx && zoom != 0 && !dstIsNull
              && widthPx * heightPx <= usizeMax && widthPx * heightPx > dstLen
  {
    if widthPx <= 0 || heightPx <= 0 then Some(NonPositiveSize)
    else if zoom == 0 then Some(ZeroZoom)
    else if dstIsNull then Some(NullOutput)
    else if widthPx * heightPx > usizeMax then Some(SizeOverflow)
    else if dstLen < widthPx * heightPx then Some(OutputTooShort)
    else None
  }

  /** `iterate_mandelbrot`: iterate from the origin until an iterate leaves the radius-2 disc
      or the budget is used up; the result is the escape count. */
  method IterateMandelbrot(x0: real, y0: real, maxIter: U32) returns (i: U32)
    ensures i == EscapeCount(Point(x0, y0), maxIter)
  {
    ghost var c := Point(x0, y0);
    var x, y := 0.0, 0.0;
    i := 0;
    while i < maxIter
      invariant i <= maxIter
      invariant Point(x, y) == Orbit(c, i)
      invariant forall j :: 1 <= j <= i ==> !Escaped(Orbit(c, j))
    {
      var xx := x * x - y * y + x0;
      var yy := 2.0 * x * y + y0;
      OrbitStep(c, i, x, y);
      x := xx;
      y := yy;
      // escape radius: x * x + y * y > 4
      if Escaped(Point(x, y)) {
        break;
      }
      i := i + 1;
    }
    EscapeCountUnique(c, maxIter, i);
  }

  /** The colour the kernel gives pixel `(px, py)` with the iteration cap `n`. */
  function Pixels(cx: real, cy: real, zoom: U64, widthPx: I32, heightPx: I32, n: U32): (nat, nat) -> U32
    requires zoom > 0
  {
    (px: nat, py: nat) =>
      var c := PixelToWorld(cx, cy, zoom, widthPx, heightPx, px, py);
      Colormap.Color(EscapeCount(c, n), n)
  }

  /** `mandelbrot_baseline_render_u32`. A rejected call leaves the buffer untouched; an
      accepted one makes the first `width * height` slots the row-major image of the pixel
      colours for the cap `|maxIter|`, and leaves the slots after them as they were. */
  method MandelbrotBaselineRenderU32(centerX: real, centerY: real, zoom: U64, widthPx: I32, heightPx: I32,
                                     maxIter: I32, dst: array?<U32>, dstLen: nat, usizeMax: nat)
    requires usizeMax >= I32_MAX
    requires dst != null ==> dstLen <= dst.Length
    modifies dst
    ensures Guard(widthPx, heightPx, zoom, dst == null, dstLen, usizeMax).Some? ==>
              dst != null ==> dst[..] == old(dst[..])
    ensures Guard(widthPx, heightPx, zoom, dst == null, dstLen, usizeMax).None? ==>
              && dst != null && zoom > 0 && 0 <= widthPx * heightPx <= dst.Length
              && dst[..widthPx * heightPx]
                 == Image(widthPx as nat, heightPx as nat, Pixels(centerX, centerY, zoom, widthPx, heightPx, UnsignedAbs(maxIter)))
              && dst[widthPx * heightPx..] == old(dst[widthPx * heightPx..])
  {
    if widthPx <= 0 || heightPx <= 0 {
      return;
    }
    if zoom == 0 {
      return;
    }
    if dst == null {
      return;
    }
    var width: nat := widthPx as nat;
    var height: nat := heightPx as nat;
    var n := UnsignedAbs(maxIter);
    if width * height > usizeMax {
      return;
    }
    var expected := width * height;
    if dstLen < expected {
      return;
    }

    FillRows(centerX, centerY, zoom, widthPx, heightPx, n, dst);
  }

  /** `par_chunks_mut(width).enumerate().for_each(..)`, one row after another: the first
      `width * height` slots become the image, the rest stay as they were. */
  method FillRows(centerX: real, centerY: real, zoom: U64, widthPx: I32, heightPx: I32, n: U32, dst: array<U32>)
    requires zoom > 0 && 0 < widthPx && 0 < heightPx && widthPx * heightPx <= dst.Length
    modifies dst
    ensures dst[..widthPx * heightPx]
            == Image(widthPx as nat, heightPx as nat, Pixels(centerX, centerY, zoom, widthPx, heightPx, n))
    ensures dst[widthPx * heightPx..] == old(dst[widthPx * heightPx..])
  {
    var width: nat := widthPx as nat;
    var height: nat := heightPx as nat;
    ghost var f := Pixels(centerX, centerY, zoom, widthPx, heightPx, n);
    var py: nat, row: nat := 0, 0;
    while py < height
      invariant py <= height && row == py * width <= width * height
      invariant dst[..row] == Image(width, py, f)
      invariant dst[row..] == old(dst[row..])
    {
      RowEnd(width, height, py);
      RenderRow(centerX, centerY, zoom, widthPx, heightPx, n, py, dst, row);
      assert dst[..row + width] == dst[..row] + dst[row..row + width];
      py, row := py + 1, row + width;
    }
  }

  /** The body of the per-row closure: row `py` goes to the `widthPx` slots from `row` on, and
      nothing else in the buffer changes. */
  method RenderRow(centerX: real, centerY: real, zoom: U64, widthPx: I32, heightPx: I32, n: U32, py: nat,
                   dst: array<U32>, row: nat)
    requires zoom > 0 && 0 < widthPx && row + widthPx <= dst.Length
    modifies dst
    ensures dst[..row] == old(dst[..row])
    ensures dst[row..row + widthPx] == Row(widthPx as nat, py, Pixels(centerX, centerY, zoom, widthPx, heightPx, n))
    ensures dst[row + widthPx..] == old(dst[row + widthPx..])
  {
    ghost var f := Pixels(centerX, centerY, zoom, widthPx, heightPx, n);
    // y_world = cy + (-(py - half_h) * inv_zoom), with inv_zoom = 1 / zoom and half_h = height / 2
    var yWorld := WorldY(centerY, zoom, heightPx, py);
    var px: nat := 0;
    while px < widthPx
      invariant px <= widthPx
      invariant dst[..row] == old(dst[..row])
      invariant dst[row..row + px] == Row(widthPx as nat, py, f)[..px]
      invariant dst[row + px..] == old(dst[row + px..])
    {
      ShadePixel(centerX, centerY, zoom, widthPx, heightPx, n, px, py, yWorld, dst, row);
      assert dst[row..row + px + 1] == dst[row..row + px] + [f(px, py)];
      px := px + 1;
    }
  }

  /** One pixel of the closure: its world x, its escape count and that count's colour, which
      is pixel `(px, py)`'s entry of `Pixels`, written to slot `px` of the row. */
  method ShadePixel(centerX: real, centerY: real, zoom: U64, widthPx: I32, heightPx: I32, n: U32, px: nat, py: nat,
                    yWorld: real, dst: array<U32>, row: nat)
    requires zoom > 0 && yWorld == WorldY(centerY, zoom, heightPx, py) && row + px < dst.Length
    modifies dst
    ensures dst[..] == old(dst[..])[row + px := Pixels(centerX, centerY, zoom, widthPx, heightPx, n)(px, py)]
  {
    // x_world = cx + ((px - half_w) * inv_zoom)
    var xWorld := WorldX(centerX, zoom, widthPx, px);
    var iter := IterateMandelbrot(xWorld, yWorld, n);
    var colour := Colormap.GetColor(iter, n);
    PixelColour(centerX, centerY, zoom, widthPx, heightPx, n, px, py, iter);
    dst[row + px] := colour;
  }

  /** The colour computed from the escape count of pixel `(px, py)`'s world point is that
      pixel's entry of `Pixels`. */
  lemma PixelColour(cx: real, cy: real, zoom: U64, widthPx: I32, heightPx: I32, n: U32, px: nat, py: nat, iter: U32)
    requires zoom > 0
    requires iter == EscapeCount(Point(WorldX(cx, zoom, widthPx, px), WorldY(cy, zoom, heightPx, py)), n)
    ensures Colormap.Color(iter, n) == Pixels(cx, cy, zoom, widthPx, heightPx, n)(px, py)
  {
  }

  /** With a zero cap (`maxIter` 0) every written slot is the in-set black. */
  lemma ZeroCapIsBlack(cx: real, cy: real, zoom: U64, widthPx: I32, heightPx: I32, maxIter: I32)
    requires zoom > 0 && 0 < widthPx && 0 < heightPx && maxIter == 0
    ensures var img := Image(widthPx as nat, heightPx as nat, Pixels(cx, cy, zoom, widthPx, heightPx, UnsignedAbs(maxIter)));
            |img| == widthPx * heightPx && forall k :: 0 <= k < |img| ==> img[k] == Colormap.BLACK
  {
    var f := Pixels(cx, cy, zoom, widthPx, heightPx, UnsignedAbs(maxIter));
    forall px: nat, py: nat | px < widthPx && py < heightPx ensures f(px, py) == Colormap.BLACK {
      Colormap.InSetIsBlack(EscapeCount(PixelToWorld(cx, cy, zoom, widthPx, heightPx, px, py), 0), 0);
    }
    UniformImage(widthPx as nat, heightPx as nat, f, Colormap.BLACK);
  }

  /** A negative cap renders exactly like its magnitude: the sign of `maxIter` is dropped. */
  lemma NegativeCapIsMagnitude(cx: real, cy: real, zoom: U64, widthPx: I32, heightPx: I32, maxIter: I32)
    requires zoom > 0 && I32_MIN < maxIter
    ensures Pixels(cx, cy, zoom, widthPx, heightPx, UnsignedAbs(maxIter))
         == Pixels(cx, cy, zoom, widthPx, heightPx, UnsignedAbs(-maxIter))
  {
  }

  /** Pixel `(px, py)` of an accepted call lands in slot `py * width + px`. */
  lemma PixelSlot(cx: real, cy: real, zoom: U64, widthPx: I32, heightPx: I32, n: U32, px: nat, py: nat)
    requires zoom > 0 && px < widthPx && py < heightPx
    ensures var img := Image(widthPx as nat, heightPx as nat, Pixels(cx, cy, zoom, widthPx, heightPx, n));
            && py * widthPx + px < |img|
            && img[py * widthPx + px]
               == Colormap.Color(EscapeCount(PixelToWorld(cx, cy, zoom, widthPx, heightPx, px, py), n), n)
  {
    ImagePixel(widthPx as nat, heightPx as nat, Pixels(cx, cy, zoom, widthPx, heightPx, n), px, py);
  }
}
