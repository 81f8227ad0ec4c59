/**
 * The camera view model: it owns the current `CameraState` and changes it in response to
 * viewport changes, drags and zoom steps, keeping the zoom inside the `[minZoom, maxZoom]`
 * range it was built with.
 *
 * Zoom is an unsigned 64-bit count of pixels per world unit; its arithmetic saturates. The
 * single-precision vector arithmetic of the pixel/world conversions is idealised as exact
 * `real` arithmetic.
 */
module Camera {
  import opened Wrappers
  import opened Ints
  import opened Model

  /** The exceptions the view model throws. */
  datatype Fault =
    | MinZoomOutOfRange   // `minZoom` is 0
    | MaxZoomOutOfRange   // `maxZoom <= minZoom`
    | AbsOverflow         // `Math.Abs(int.MinValue)`

  const DEFAULT_MIN_ZOOM: U64 := 1
  const DEFAULT_MAX_ZOOM: U64 := U64_MAX

  /** `Clamp(v, min, max)`: `min` below the range, `max` above it, `v` inside it. */
  function Clamp(v: U64, min: U64, max: U64): (r: U64)
    ensures v < min ==> r == min
    ensures min <= v <= max ==> r == v
    ensures min <= v && max < v ==> r == max
    ensures min <= max ==> min <= r <= max
  {
    if v < min then min else if v > max then max else v
  }

  /** Clamping is idempotent, and a value already in range is left alone. */
  lemma ClampIdempotent(v: U64, min: U64, max: U64)
    requires min <= max
    ensures Clamp(Clamp(v, min, max), min, max) == Clamp(v, min, max)
    ensures Clamp(v, min, max) == v <==> min <= v <= max
  {
  }

  /** `Delta(current, delta)`: the zoom stepped by `delta`, saturating at both ends of the
      `ulong` range; `int.MinValue` has no magnitude and throws. */
  function Delta(current: U64, delta: I32): (r: Result<U64, Fault>)
    ensures r.Failure? <==> delta == I32_MIN
    ensures r.Failure? ==> r.error == AbsOverflow
    ensures 0 < delta ==> r == Success(Min(current + delta, U64_MAX))
    ensures I32_MIN < delta <= 0 ==> r == Success(Max(current + delta, 0))
  {
    if delta > 0 then
      var abs: U64 := delta;
      if U64_MAX - current <= abs then Success(U64_MAX) else Success(current + abs)
    else if delta == I32_MIN then
      Failure(AbsOverflow)
    else
      var abs: U64 := -(delta as int);
      if abs > current then Success(0) else Success(current - abs)
  }

  /** A zero step leaves the zoom as it is, and the step is monotone in `delta`. */
  lemma DeltaProperties(current: U64, d: I32, e: I32)
    requires I32_MIN < d <= e
    ensures Delta(current, 0) == Success(current)
    ensures Delta(current, d).value <= Delta(current, e).value
  {
  }

  /** A viewport both of whose sides are positive. */
  predicate IsViewportValid(s: PixelSize)
  {
    s.width > 0 && s.height > 0
  }

  /** The static `ScreenToWorld`: pixel `px` relative to the viewport centre, divided by the
      zoom, with the y axis flipped (screen y grows down, world y up). */
  function ToWorld(px: PixelPoint, s: CameraState): WorldPoint
    requires s.zoom > 0
  {
    var halfW := s.viewportPx.width as real * 0.5;
    var halfH := s.viewportPx.height as real * 0.5;
    var dxWorld := (px.x - halfW) / s.zoom as real;
    var dyWorld := -(px.y - halfH) / s.zoom as real;
    WorldPoint(s.centerWorld.x + dxWorld, s.centerWorld.y + dyWorld)
  }

  /** The static `WorldToScreen`: the offset from the centre, scaled by the zoom, flipped
      back and moved to the viewport centre. */
  function ToScreen(world: WorldPoint, s: CameraState): PixelPoint
  {
    var halfW := s.viewportPx.width as real * 0.5;
    var halfH := s.viewportPx.height as real * 0.5;
    var relX := world.x - s.centerWorld.x;
    var relY := world.y - s.centerWorld.y;
    PixelPoint(halfW + relX * s.zoom as real, halfH + -relY * s.zoom as real)
  }

  /** `q / z * z == q` for a positive `z`. */
  lemma DivMul(q: real, z: real)
    requires z > 0.0
    ensures q / z * z == q
  {
  }

  /** `q * z / z == q` for a positive `z`. */
  lemma MulDiv(q: real, z: real)
    requires z > 0.0
    ensures q * z / z == q
  {
  }

  /** The two conversions are inverse to each other, in both directions. */
  lemma ConversionsRoundTrip(px: PixelPoint, world: WorldPoint, s: CameraState)
    requires s.zoom > 0
    ensures ToScreen(ToWorld(px, s), s) == px
    ensures ToWorld(ToScreen(world, s), s) == world
  {
    var z := s.zoom as real;
    var halfW := s.viewportPx.width as real * 0.5;
    var halfH := s.viewportPx.height as real * 0.5;
    var w := ToWorld(px, s);
    DivMul(px.x - halfW, z);
    DivMul(-(px.y - halfH), z);
    assert (w.x - s.centerWorld.x) * z == px.x - halfW;
    assert -(w.y - s.centerWorld.y) * z == px.y - halfH;
    var sc := ToScreen(world, s);
    MulDiv(world.x - s.centerWorld.x, z);
    MulDiv(world.y - s.centerWorld.y, z);
    assert (sc.x - halfW) / z == world.x - s.centerWorld.x;
    assert -(sc.y - halfH) / z == world.y - s.centerWorld.y;
  }

  /** The state after a drag by `deltaPx`: the centre moves by the drag, in world units,
      against the drag horizontally and along it vertically. */
  function Panned(s: CameraState, deltaPx: PixelDelta): CameraState
    requires s.zoom > 0
  {
    var invZoom := 1.0 / s.zoom as real;
    var dxWorld := -deltaPx.x * invZoom;
    var dyWorld := deltaPx.y * invZoom;
    s.(centerWorld := WorldPoint(s.centerWorld.x + dxWorld, s.centerWorld.y + dyWorld))
  }

  /** Dragging moves the content with the pointer: the world point under pixel `p` before a
      drag is under pixel `p + deltaPx` after it. */
  lemma PanDragsContent(s: CameraState, deltaPx: PixelDelta, p: PixelPoint)
    requires s.zoom > 0
    ensures ToWorld(PixelPoint(p.x + deltaPx.x, p.y + deltaPx.y), Panned(s, deltaPx)) == ToWorld(p, s)
  {
    var z := s.zoom as real;
    var halfW := s.viewportPx.width as real * 0.5;
    var halfH := s.viewportPx.height as real * 0.5;
    assert (p.x + deltaPx.x - halfW) / z == (p.x - halfW) / z + deltaPx.x * (1.0 / z);
    assert -(p.y + deltaPx.y - halfH) / z == -(p.y - halfH) / z - deltaPx.y * (1.0 / z);
  }

  /** The state after zooming to `newZoom` about pixel `anchorPx`: the centre is shifted by
      the world distance the anchor would otherwise have moved. */
  function Zoomed(s: CameraState, anchorPx: PixelPoint, newZoom: U64): CameraState
    requires s.zoom > 0 && newZoom > 0
  {
    var worldBefore := ToWorld(anchorPx, s);
    var s2 := s.(zoom := newZoom);
    var worldAfter := ToWorld(anchorPx, s2);
    s2.(centerWorld := WorldPoint(s2.centerWorld.x + (worldBefore.x - worldAfter.x),
                                  s2.centerWorld.y + (worldBefore.y - worldAfter.y)))
  }

  /** Zooming keeps the world point under the anchor pixel where it was. */
  lemma ZoomKeepsAnchor(s: CameraState, anchorPx: PixelPoint, newZoom: U64)
    requires s.zoom > 0 && newZoom > 0
    ensures Zoomed(s, anchorPx, newZoom).zoom == newZoom
    ensures Zoomed(s, anchorPx, newZoom).viewportPx == s.viewportPx
    ensures ToWorld(anchorPx, Zoomed(s, anchorPx, newZoom)) == ToWorld(anchorPx, s)
  {
  }

  /** `CameraState.Magnification`, the zoom relative to the initial zoom; the division by a
      zero initial zoom has no real value. */
  function Magnification(s: CameraState): (r: Option<real>)
    ensures r.Some? <==> s.initialZoom > 0
    ensures r.Some? ==> r.value * s.initialZoom as real == s.zoom as real
  {
    if s.initialZoom == 0 then None else Some(s.zoom as real / s.initialZoom as real)
  }

  /** The constructor's argument checks, in order. */
  function CheckZoomRange(minZoom: U64, maxZoom: U64): (r: Option<Fault>)
    ensures r == None <==> 0 < minZoom < maxZoom
    ensures r == Some(MinZoomOutOfRange) <==> minZoom == 0
    ensures r == Some(MaxZoomOutOfRange) <==> 0 < minZoom && maxZoom <= minZoom
  {
    if minZoom <= 0 then Some(MinZoomOutOfRange)
    else if maxZoom <= minZoom then Some(MaxZoomOutOfRange)
    else None
  }

  class CameraViewModel {
    var state: CameraState
    const minZoom: U64
    const maxZoom: U64

    /** The zoom range is proper and the current zoom lies in it. */
    ghost predicate Valid()
      reads this
    {
      0 < minZoom < maxZoom && minZoom <= state.zoom <= maxZoom
    }

    /** The constructor once its checks have passed: the initial state with its zoom clamped
        into the range. */
    constructor(initial: CameraState, minZoom: U64, maxZoom: U64)
      requires CheckZoomRange(minZoom, maxZoom) == None
      ensures Valid()
      ensures this.minZoom == minZoom && this.maxZoom == maxZoom
      ensures state == initial.(zoom := Clamp(initial.zoom, minZoom, maxZoom))
    {
      this.minZoom := minZoom;
      this.maxZoom := maxZoom;
      state := initial.(zoom := Clamp(initial.zoom, minZoom, maxZoom));
    }

    /** `Snapshot`: the current state, whose zoom is inside the range. */
    method Snapshot() returns (s: CameraState)
      requires Valid()
      ensures s == state
      ensures minZoom <= s.zoom <= maxZoom
    {
      s := state;
    }

    /** `SetViewport`: a viewport with a non-positive side is ignored; otherwise only the
        viewport changes. */
    method SetViewport(sizePx: PixelSize)
      requires Valid()
      modifies this
      ensures Valid()
      ensures !IsViewportValid(sizePx) ==> state == old(state)
      ensures IsViewportValid(sizePx) ==> state == old(state).(viewportPx := sizePx)
    {
      if sizePx.width <= 0 || sizePx.height <= 0 {
        return;
      }
      state := state.(viewportPx := sizePx);
    }

    /** `PanByPixels`: ignored on an unusable viewport; otherwise the centre moves with the
        drag and the zoom and viewport stay. */
    method PanByPixels(deltaPx: PixelDelta)
      requires Valid()
      modifies this
      ensures Valid()
      ensures !IsViewportValid(old(state).viewportPx) ==> state == old(state)
      ensures IsViewportValid(old(state).viewportPx) ==> state == Panned(old(state), deltaPx)
    {
      var s := state;
      if !IsViewportValid(s.viewportPx) {
        return;
      }
      var invZoom := 1.0 / s.zoom as real;
      var dxWorld := -deltaPx.x * invZoom;
      var dyWorld := deltaPx.y * invZoom;
      state := s.(centerWorld := WorldPoint(s.centerWorld.x + dxWorld, s.centerWorld.y + dyWorld));
    }

    /** `ZoomAtPixel`: the zoom step is taken first and throws for `int.MinValue` even on an
        unusable viewport; an unusable viewport is then ignored; otherwise the zoom becomes
        the clamped step and the centre moves so that the anchor stays put. */
    method ZoomAtPixel(anchorPx: PixelPoint, delta: I32) returns (r: Outcome<Fault>)
      requires Valid()
      modifies this
      ensures Valid()
      ensures r.Fail? <==> delta == I32_MIN
      ensures r.Fail? ==> r.error == AbsOverflow && state == old(state)
      ensures r.Pass? && !IsViewportValid(old(state).viewportPx) ==> state == old(state)
      ensures r.Pass? && IsViewportValid(old(state).viewportPx) ==>
                state == Zoomed(old(state), anchorPx, Clamp(Delta(old(state).zoom, delta).value, minZoom, maxZoom))
    {
      var s := state;
      var zoom := Delta(s.zoom, delta);
      if zoom.Failure? {
        return Fail(zoom.error);
      }
      if !IsViewportValid(s.viewportPx) {
        return Pass;
      }
      var worldBefore := ToWorld(anchorPx, s);
      var newZoom := Clamp(zoom.value, minZoom, maxZoom);
      var s2 := s.(zoom := newZoom);
      var worldAfter := ToWorld(anchorPx, s2);
      var deltaX, deltaY := worldBefore.x - worldAfter.x, worldBefore.y - worldAfter.y;
      state := s2.(centerWorld := WorldPoint(s2.centerWorld.x + deltaX, s2.centerWorld.y + deltaY));
      return Pass;
    }

    /** The instance `ScreenToWorld`, through the current state: `WorldToScreen` maps the
        result back to `px`. */
    function ScreenToWorld(px: PixelPoint): (world: WorldPoint)
      requires Valid()
      reads this
      ensures ToScreen(world, state) == px
    {
      ConversionsRoundTrip(px, ToWorld(px, state), state);
      ToWorld(px, state)
    }

    /** The instance `WorldToScreen`, through the current state: `ScreenToWorld` maps the
        result back to `world`. */
    function WorldToScreen(world: WorldPoint): (px: PixelPoint)
      requires Valid()
      reads this
      ensures ToWorld(px, state) == world
    {
      ConversionsRoundTrip(PixelPoint(0.0, 0.0), world, state);
      ToScreen(world, state)
    }
  }

  /** `new CameraViewModel(initial, minZoom, maxZoom)`: the checks throw, or the view model
      starts valid with the clamped initial state. */
  method Create(initial: CameraState, minZoom: U64, maxZoom: U64) returns (r: Result<CameraViewModel, Fault>)
    ensures CheckZoomRange(minZoom, maxZoom).Some? ==> r == Failure(CheckZoomRange(minZoom, maxZoom).value)
    ensures CheckZoomRange(minZoom, maxZoom).None? ==>
              && r.Success? && fresh(r.value) && r.value.Valid()
              && r.value.minZoom == minZoom && r.value.maxZoom == maxZoom
              && r.value.state == initial.(zoom := Clamp(initial.zoom, minZoom, maxZoom))
  {
    var fault := CheckZoomRange(minZoom, maxZoom);
    if fault.Some? {
      return Failure(fault.value);
    }
    var vm := new CameraViewModel(initial, minZoom, maxZoom);
    return Success(vm);
  }
}
