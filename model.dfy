/**
 * The plain records the managed application passes around. Single-precision vectors are
 * idealised as pairs of reals.
 */
module Model {
  import opened Ints

  datatype WorldPoint = WorldPoint(x: real, y: real)
  datatype PixelPoint = PixelPoint(x: real, y: real)
  datatype PixelDelta = PixelDelta(x: real, y: real)
  datatype PixelSize = PixelSize(width: I32, height: I32)

  /** What the camera looks at: the world point at the centre of the view, the zoom the view
      started with, the current zoom in pixels per world unit, and the viewport size. */
  datatype CameraState = CameraState(centerWorld: WorldPoint, initialZoom: U64, zoom: U64, viewportPx: PixelSize)

  datatype RenderSettings = RenderSettings(maxIterations: I32)

  const DEFAULT_RENDER_SETTINGS: RenderSettings := RenderSettings(256)
}
