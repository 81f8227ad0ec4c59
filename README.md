# Mandelbrot explorer: core model

A Dafny model of the computational core of the Mandelbrot explorer. The explorer is a .NET MAUI
application with a Rust rendering library and a Rust build tool. The model covers:

- **Native colour map** (`colormap.dfy`, module `Colormap`). This is `get_color` of the Rust
  library. The iteration count is divided into bands of 50. Each band blends one entry of an
  8-entry RGB palette into the next, cycling over all 8 entries. Channels are truncated to bytes,
  and a count at or above the cap is opaque black.
- **Managed colour provider** (`colorprovider.dfy`, module `ColorProvider`). This is
  `ClassicColormapProvider`. It uses the same palette with a different scheme.
  - The first band blends entry 0 into entry 1.
  - After that the bands cycle over entries 1..7.
  - Channels are rounded half to even.
  - `colorprovider.dfy` also holds the constructor's error path.
  - `contrast.dfy` (module `ColormapContrast`) states where the two colour schemes agree and
    where they differ.
- **Escape-time iteration** (`mandelbrot.dfy`, module `Mandelbrot`). Both kernels share it. The
  orbit of `c` under z := z² + c is stated exactly. The escape count is the number of steps
  before the first iterate with |z|² > 4, capped at the budget. The module also holds the
  pixel-to-world mapping, which is a scaling by 1/zoom about the image centre with y flipped.
- **Row-major raster** (`raster.dfy`, module `Raster`). An image is the concatenation of its
  rows. Both kernels fill this layout.
- **Native render entry point** (`rustkernel.dfy`, module `RustKernel`). This is
  `mandelbrot_baseline_render_u32`.
  - The argument checks are an `Option` of the reason for returning early.
  - |max_iter| is taken as an unsigned magnitude.
  - The width × height product is checked against a `usize` bound.
  - The row loop, the pixel loop and the iteration loop are methods, each proved to fill exactly
    the slots of the image specification.
- **Managed reference renderer** (`baselinerenderer.dfy`, module `BaselineRenderer`). This is
  `MandelbrotBaselineRenderer`: the same fill as the native kernel, with its own checks and the
  managed colour provider.
- **Camera view model** (`camera.dfy`, module `Camera`). This is `CameraViewModel`:
  - zoom clamping and saturating zoom steps;
  - panning with "grab and drag" content;
  - zooming about an anchor pixel that stays fixed on screen;
  - the two coordinate conversions, proved inverse to each other.
- **Render target** (`rendertarget.dfy`, module `RenderTargets`).
  - `RenderTarget` is a double buffer. Its published word packs a frame id and the front buffer
    index into one 64-bit value.
  - `PinnedU32Buffer` is the pixel buffer.
  - `RetiredTargets` is the disposal queue.
- **Frame-time averager** (`frametimes.dfy`, module `FrameTimes`). A circular buffer of the last
  N frame times. Its invariant ties the buffer to the whole history of pushed samples, so the
  average is proved to be the mean of the most recent min(pushes, N) samples.
- **Native-library naming rules** (`nativepaths.dfy`, module `NativePaths`). These are the build
  tool's maps from platform, architecture and .NET version to:
  - runtime directory names;
  - library file names;
  - target framework monikers;
  - .NET runtime identifiers;
  - the staging path below the bindings project.

Shared modules:

- `wrappers.dfy` holds `Option`, `Result` and `Outcome`. They stand in for thrown exceptions and
  panics.
- `ints.dfy` holds the machine integer ranges (`U8`, `U32`, `U64`, `I32`, `I64`), 64-bit
  wrap-around and the ARGB channel decoders.
- `model.dfy` holds the plain records of the application (`CameraState`, `PixelSize` and so on).

Numbers:

- Doubles and singles are idealised as `real`.
- Every integer conversion of the source is written out:
  - Rust's saturating `as u32` truncation;
  - `Math.Round`'s half-to-even rounding;
  - `(int)` of a non-negative quotient as its floor;
  - two's-complement wrap-around of `long` shifts.

Concurrency:

- Both kernels fill rows in parallel in the source. The model fills them one after another.
- Each row writes only its own slots, and `Raster.ImageRow` shows the rows are disjoint parts of
  the image.

Palette entry 0 is black (0, 0, 0), the same colour as the in-set black. So some points
outside the set render exactly like points inside it:

- In the native colour map, count 0 and every multiple of 400 below the cap do
  (`Colormap.CycleStartLooksInSet`, `ColormapContrast.CycleRestartDiffers`).
- In the managed provider, count 0 does (`ColorProvider.ZeroIsBlack`).

## Model

| member | source | states |
|---|---|---|
| Ints.WrapI64 | mandelbrot/Model/RenderTarget.cs:58-61 | a value in the `long` range is kept, and any value is reduced to the `long` congruent to it modulo 2^64 |
| Colormap.PackArgbChannels | rust_fractal/src/colormap.rs:7-9 | the packed word decodes to alpha 0xFF and the given red, green and blue bytes |
| Colormap.PackArgb | rust_fractal/src/colormap.rs:7-9 | no contract of its own; `Colormap.PackArgbChannels` states that the word decodes to alpha 0xFF and the three channels |
| Colormap.TruncToU32 | rust_fractal/src/colormap.rs:46 | within the `u32` range the result is the floor of the value (the `as u32` truncation) |
| Colormap.ClampToU8 | rust_fractal/src/colormap.rs:47 | a value up to 255 is kept |
| Colormap.ClampedInterpolation | rust_fractal/src/colormap.rs:38-48 | at or below 0 the lower end, at or above 1 the higher end, always between the two ends, and strictly inside (0, 1) the floor of the linear blend |
| Colormap.StartIndex | rust_fractal/src/colormap.rs:20-29 | the band's first palette index is a palette index |
| Colormap.EndIndex | rust_fractal/src/colormap.rs:28 | the band's second palette index is a palette index |
| Colormap.BandColor | rust_fractal/src/colormap.rs:30-34 | no contract of its own; `Colormap.ChannelsWithinBand` and `Colormap.ChannelsAreTruncated` state that each channel lies between the two entries and is the floor of their blend |
| Colormap.Color | rust_fractal/src/colormap.rs:15-35 | the closed form of `get_color`, with no contract of its own; `Colormap.GetColor` is proved equal to it, and `Colormap.InSetIsBlack`, `Colormap.ColorIsOpaque` and `Colormap.Periodic` state its properties |
| Colormap.GetColor | rust_fractal/src/colormap.rs:15-35 | the subtraction loop ends with the quotient and remainder of the count by 50, so the result is the colour-map specification `Color` |
| Colormap.ColorIsOpaque | rust_fractal/src/colormap.rs:15-35 | every colour has alpha 0xFF |
| Colormap.InSetIsBlack | rust_fractal/src/colormap.rs:16-18 | a zero cap or a count at or above the cap gives opaque black |
| Colormap.BandFractionRange | rust_fractal/src/colormap.rs:20-26 | the fraction into the band is in [0, 1), and is 0 exactly at multiples of 50 |
| Colormap.PaletteCycle | rust_fractal/src/colormap.rs:28-29 | the second index is the first plus one modulo 8, entry 7 blends into entry 0, and band k of the first cycle starts at entry k |
| Colormap.BandStartIsExact | rust_fractal/src/colormap.rs:26-34 | at a multiple of 50 below the cap the channels are exactly the palette entry (count / 50) mod 8 |
| Colormap.ChannelsWithinBand | rust_fractal/src/colormap.rs:30-34 | below the cap each channel lies between the band's two palette entries |
| Colormap.ChannelsAreTruncated | rust_fractal/src/colormap.rs:30-47 | inside a band each channel is the floor of the blend of its two palette entries |
| Colormap.SameBandSameColor | rust_fractal/src/colormap.rs:26-34 | two counts with the same band indices and fraction get the same colour |
| Colormap.BandShift | rust_fractal/src/colormap.rs:20-29 | adding a full cycle of 400 counts keeps the band indices and the fraction |
| Colormap.Periodic | rust_fractal/src/colormap.rs:15-35 | below the cap, colours repeat every 400 counts |
| Colormap.CycleStartLooksInSet | rust_fractal/src/colormap.rs:1-3 | a count that is a multiple of 400 below the cap renders exactly as the in-set black |
| Colormap.ColorSampleEnds | rust_fractal/src/colormap.rs:16-18 | with cap 100, counts 100 and 0 both give opaque black |
| Colormap.ColorSampleBand | rust_fractal/src/colormap.rs:20-34 | count 49 with cap 100 blends entry 0 into entry 1 at 49/50 |
| Colormap.ColorSampleInside | rust_fractal/src/colormap.rs:38-48 | that blend is the colour (0, 0, 249), since 255·49/50 = 249.9 is truncated |
| ColorProvider.New | mandelbrot/Render/ColorProvider.cs:21-25 | a band width is accepted exactly when positive, and stored; otherwise the error names `cwidth` |
| ColorProvider.Default | mandelbrot/Render/ColorProvider.cs:21 | the default provider is the one built with band width 50 |
| ColorProvider.RoundHalfEven | mandelbrot/Render/ColorProvider.cs:75 | the result is the nearest integer, ties going to the even one |
| ColorProvider.RoundHalfEvenUnique | mandelbrot/Render/ColorProvider.cs:75 | that rounding property determines the rounded value |
| ColorProvider.RoundWithin | mandelbrot/Render/ColorProvider.cs:75-76 | rounding a value between two integers stays between them |
| ColorProvider.ClampToByte | mandelbrot/Render/ColorProvider.cs:76 | a value in 0..255 is kept |
| ColorProvider.LerpByte | mandelbrot/Render/ColorProvider.cs:71-77 | at or below 0 the first byte, at or above 1 the second, always between them, and inside (0, 1) the half-to-even rounding of the blend |
| ColorProvider.PackArgb | mandelbrot/Render/ColorProvider.cs:80-81 | no contract of its own; `ColorProvider.PackArgbChannels` states that the word decodes to the four bytes, including when the alpha shift overflows into the sign bit |
| ColorProvider.Bands | mandelbrot/Render/ColorProvider.cs:53-59 | `(int)(val / cwidth)`, with no contract of its own; `ColorProvider.Bounds` states that it is the integer quotient (count − w) / w |
| ColorProvider.Segment | mandelbrot/Render/ColorProvider.cs:56 | no contract of its own; `ColorProvider.Bounds` states that it is in 1..7 and equals ((count − w) / w) mod 7 + 1 |
| ColorProvider.Top | mandelbrot/Render/ColorProvider.cs:61-62 | no contract of its own; `ColorProvider.Bounds` states that it is in 1..7 and is the segment's cyclic successor among 1..7 |
| ColorProvider.Fraction | mandelbrot/Render/ColorProvider.cs:59 | no contract of its own; `ColorProvider.Bounds` states that it is ((count − w) mod w) / w, in [0, 1) |
| ColorProvider.GetColor | mandelbrot/Render/ColorProvider.cs:27-69 | no contract of its own. Its branches are stated by: `ColorProvider.InSetIsBlack` (non-positive cap, or count at or above it); `ColorProvider.NegativeIsZero`; `ColorProvider.FirstBandIsBlueRamp`; `ColorProvider.CyclicBandsAvoidEntryZero`; `ColorProvider.GetColorIsOpaque`; `ColorProvider.CyclicPeriod` |
| ColorProvider.PackArgbChannels | mandelbrot/Render/ColorProvider.cs:80-81 | the packed word decodes to the given alpha, red, green and blue bytes |
| ColorProvider.Bounds | mandelbrot/Render/ColorProvider.cs:52-62 | after the first band the segment is ((count − w) / w) mod 7 + 1, in 1..7; the next entry is 1 after 7; and the fraction is ((count − w) mod w) / w, in [0, 1) |
| ColorProvider.GetColorIsOpaque | mandelbrot/Render/ColorProvider.cs:27-69 | every colour has alpha 0xFF |
| ColorProvider.InSetIsBlack | mandelbrot/Render/ColorProvider.cs:29-33 | a non-positive cap, or a count (negative raised to 0) at or above the cap, gives opaque black |
| ColorProvider.NegativeIsZero | mandelbrot/Render/ColorProvider.cs:30 | a negative count is coloured as 0 |
| ColorProvider.ZeroIsBlack | mandelbrot/Render/ColorProvider.cs:43-49 | count 0 gives opaque black, like the in-set colour |
| ColorProvider.FirstBandIsBlueRamp | mandelbrot/Render/ColorProvider.cs:43-50 | in the first band red and green are 0 and blue is 255·count/w rounded half to even |
| ColorProvider.CyclicBandsAvoidEntryZero | mandelbrot/Render/ColorProvider.cs:52-68 | after the first band the two entries blended are in 1..7, the second follows the first cyclically, and every channel lies between them |
| ColorProvider.SameBandSameColor | mandelbrot/Render/ColorProvider.cs:56-68 | two counts after the first band with the same segment and fraction get the same colour |
| ColorProvider.CyclicBandShift | mandelbrot/Render/ColorProvider.cs:55-59 | adding 7 band widths keeps the segment and the fraction |
| ColorProvider.CyclicPeriod | mandelbrot/Render/ColorProvider.cs:52-68 | after the first band, colours repeat every 7 band widths |
| ColorProvider.RoundingSample | mandelbrot/Render/ColorProvider.cs:43-49 | count 49 with cap 100 gives (0, 0, 250), 249.9 rounded |
| ColormapContrast.SamePacking | mandelbrot/Render/ColorProvider.cs:80-81 | both packings give the same word for an opaque colour |
| ColormapContrast.SameInSetBlack | mandelbrot/Render/ColorProvider.cs:29-33 | for a count at or above a positive cap both schemes give the same opaque black |
| ColormapContrast.MiddleBandsAgree | mandelbrot/Render/ColorProvider.cs:52-62 | for counts 50..349 both schemes blend the same two entries at the same fraction |
| ColormapContrast.SeventhBandEndsDiffer | mandelbrot/Render/ColorProvider.cs:61-62 | for counts 350..399 the native map blends into entry 0 and the managed one into entry 1 |
| ColormapContrast.CycleRestartDiffers | mandelbrot/Render/ColorProvider.cs:55-56 | at count 400 with cap 1000 the native map gives black and the managed one gives (0, 0, 255) |
| ColormapContrast.RoundingDiffers | mandelbrot/Render/ColorProvider.cs:75 | at count 49 with cap 100 truncation gives blue 249 and rounding gives 250 |
| Mandelbrot.OrbitStep | rust_fractal/src/lib.rs:86-89 | the kernels' coordinate update takes the k-th iterate to the (k+1)-th |
| Mandelbrot.Step | rust_fractal/src/lib.rs:86-89 | one step z := z² + c on the two coordinates, with no contract of its own; `Mandelbrot.OrbitStep` states that the kernels' update is this step |
| Mandelbrot.Orbit | rust_fractal/src/lib.rs:81-96 | the k-th iterate from z = 0, with no contract of its own; `Mandelbrot.OriginOrbit`, `Mandelbrot.EscapeFromSpec` and `Mandelbrot.EscapeCountIsCap` state what the escape count says about it |
| Mandelbrot.EscapeFrom | rust_fractal/src/lib.rs:85-96 | the search from step k ends between k and the cap |
| Mandelbrot.EscapeFromSpec | rust_fractal/src/lib.rs:85-96 | no iterate after k up to the result escapes, and below the cap the next one does |
| Mandelbrot.EscapeCount | rust_fractal/src/lib.rs:80-98 | the count never exceeds the budget |
| Mandelbrot.EscapeCountIsCap | rust_fractal/src/lib.rs:85-97 | the count is the budget exactly when none of the first n iterates escaped |
| Mandelbrot.EscapeCountUnique | rust_fractal/src/lib.rs:85-97 | any i with no escape up to i, and an escape at i + 1 unless i is the budget, is the count |
| Mandelbrot.OriginOrbit | rust_fractal/src/lib.rs:86-89 | the origin's orbit under c = 0 stays at the origin |
| Mandelbrot.OriginNeverEscapes | rust_fractal/src/lib.rs:80-98 | the origin uses the whole budget, so it is coloured as in the set |
| Mandelbrot.FarPointEscapesAtOnce | rust_fractal/src/lib.rs:92-94 | a point with |c|² > 4 escapes at count 0 |
| Mandelbrot.EscapeFromMonotone | rust_fractal/src/lib.rs:85-96 | a bigger budget never lowers the count, and a count below the old budget stays |
| Mandelbrot.WorldX | rust_fractal/src/lib.rs:53-71 | no contract of its own; `Mandelbrot.PixelMapping` states that it steps by 1/zoom per column and is the centre x at half the width |
| Mandelbrot.WorldY | rust_fractal/src/lib.rs:53-67 | no contract of its own; `Mandelbrot.PixelMapping` states that it steps by −1/zoom per row and is the centre y at half the height |
| Mandelbrot.PixelToWorld | rust_fractal/src/lib.rs:67-71 | the pair of `Mandelbrot.WorldX` and `Mandelbrot.WorldY`; `RustKernel.PixelSlot` and `BaselineRenderer.PixelSlot` state that each slot is coloured from this point |
| Mandelbrot.PixelMapping | rust_fractal/src/lib.rs:53-71 | one pixel right adds 1/zoom to x, one pixel down subtracts 1/zoom from y, and the centre pixel is the camera centre |
| Raster.Row | rust_fractal/src/lib.rs:69-75 | a row has `width` pixels, pixel px holding the colour of (px, py) |
| Raster.ImageLength | rust_fractal/src/lib.rs:42-51 | the image has width × height slots |
| Raster.ImageSlot | mandelbrot/Render/MandelbrotBaseLine.cs:31-39 | slot k holds pixel (k mod width, k / width) |
| Raster.ImagePixel | mandelbrot/Render/MandelbrotBaseLine.cs:31-39 | pixel (px, py) is in slot py·width + px |
| Raster.ImageRow | rust_fractal/src/lib.rs:61-64 | the chunk py·width .. (py + 1)·width is row py, so rows are disjoint chunks |
| Raster.ImageDependsOnPixels | rust_fractal/src/lib.rs:61-76 | two colourings that agree on every pixel give the same image |
| Raster.UniformImage | rust_fractal/src/lib.rs:61-76 | a colouring that is constant on the image gives that colour in every slot |
| RustKernel.Test | rust_fractal/src/lib.rs:9-11 | the smoke test returns 6 |
| RustKernel.UnsignedAbs | rust_fractal/src/lib.rs:40 | the result is the magnitude of the cap, 2^31 for the minimum `i32` |
| RustKernel.Guard | rust_fractal/src/lib.rs:28-48 | the call goes ahead exactly when the sizes are positive, the zoom is non-zero, the pointer is not null, and width × height neither overflows `usize` nor exceeds the given length; otherwise it names the first check that fails, in source order |
| RustKernel.IterateMandelbrot | rust_fractal/src/lib.rs:80-98 | the loop returns the escape count of (x0, y0) with the given budget |
| RustKernel.MandelbrotBaselineRenderU32 | rust_fractal/src/lib.rs:18-77 | a rejected call writes nothing; an accepted one makes the first width × height slots exactly the image (pixel colour of the escape count at \|max_iter\|) and leaves the rest |
| RustKernel.FillRows | rust_fractal/src/lib.rs:61-76 | the row-by-row fill leaves the image in the first width × height slots and the rest untouched |
| RustKernel.RenderRow | rust_fractal/src/lib.rs:64-76 | one chunk becomes row py of the image and nothing outside it changes |
| RustKernel.ShadePixel | rust_fractal/src/lib.rs:69-75 | one slot gets its pixel's colour and no other slot changes |
| RustKernel.PixelColour | rust_fractal/src/lib.rs:71-74 | the colour of the escape count at the pixel's world point is the pixel's image colour |
| RustKernel.ZeroCapIsBlack | rust_fractal/src/lib.rs:40 | with a cap of 0 every slot of the image is opaque black |
| RustKernel.NegativeCapIsMagnitude | rust_fractal/src/lib.rs:40 | a cap and its negation render the same image |
| RustKernel.PixelSlot | rust_fractal/src/lib.rs:61-75 | slot py·width + px holds the colour of the escape count of pixel (px, py)'s world point |
| BaselineRenderer.Iterate | mandelbrot/Render/MandelbrotBaseLine.cs:44-61 | the loop returns the escape count with budget max(maxIter, 0) |
| BaselineRenderer.MandelbrotBaselineRenderer.constructor | mandelbrot/Render/MandelbrotBaseLine.cs:6-10 | the renderer keeps its colour provider and is named "C# Baseline" |
| BaselineRenderer.MandelbrotBaselineRenderer.Render | mandelbrot/Render/MandelbrotBaseLine.cs:12-42 | a rejected call writes nothing; otherwise the first width × height slots become the image coloured by the provider, and the rest are unchanged |
| BaselineRenderer.FillRows | mandelbrot/Render/MandelbrotBaseLine.cs:27-41 | the row loop leaves the image in the first width × height slots and the rest untouched |
| BaselineRenderer.RenderRow | mandelbrot/Render/MandelbrotBaseLine.cs:29-40 | slots row .. row + width become row py and nothing else changes |
| BaselineRenderer.ShadePixel | mandelbrot/Render/MandelbrotBaseLine.cs:35-39 | slot row + px gets its pixel's colour and no other slot changes |
| BaselineRenderer.PixelColour | mandelbrot/Render/MandelbrotBaseLine.cs:35-39 | the provider colour of the pixel's escape count is the pixel's image colour |
| BaselineRenderer.NonPositiveCapIsBlack | mandelbrot/Render/MandelbrotBaseLine.cs:25-39 | with a non-positive cap every slot is opaque black |
| BaselineRenderer.PixelSlot | mandelbrot/Render/MandelbrotBaseLine.cs:31-39 | slot py·width + px holds the provider colour of pixel (px, py)'s escape count |
| Camera.Clamp | mandelbrot/ViewModel/CameraViewModel.cs:129-130 | below the range gives min, above gives max, inside keeps the value, and with min ≤ max the result is in range |
| Camera.ClampIdempotent | mandelbrot/ViewModel/CameraViewModel.cs:129-130 | clamping twice is clamping once, and clamping keeps a value exactly when it is in range |
| Camera.Delta | mandelbrot/ViewModel/CameraViewModel.cs:132-153 | a positive step saturates at 2^64 − 1, a non-positive one at 0, and only the minimum `int` step fails (`Math.Abs` overflows) |
| Camera.DeltaProperties | mandelbrot/ViewModel/CameraViewModel.cs:132-153 | a zero step keeps the zoom, and a step no bigger gives a zoom no bigger |
| Camera.IsViewportValid | mandelbrot/ViewModel/CameraViewModel.cs:127 | both sides positive, with no contract of its own; `Camera.CameraViewModel.SetViewport`, `PanByPixels` and `ZoomAtPixel` state that they do nothing when it fails |
| Camera.ToWorld | mandelbrot/ViewModel/CameraViewModel.cs:100-112 | no contract of its own; `Camera.ConversionsRoundTrip` states that it is the inverse of `Camera.ToScreen` |
| Camera.ToScreen | mandelbrot/ViewModel/CameraViewModel.cs:114-125 | no contract of its own; `Camera.ConversionsRoundTrip` states that it is the inverse of `Camera.ToWorld` |
| Camera.ConversionsRoundTrip | mandelbrot/ViewModel/CameraViewModel.cs:100-125 | screen-to-world and world-to-screen undo each other, in both orders |
| Camera.Panned | mandelbrot/ViewModel/CameraViewModel.cs:53-60 | the state after a drag, with no contract of its own; `Camera.PanDragsContent` states that the content moves with the pointer |
| Camera.Zoomed | mandelbrot/ViewModel/CameraViewModel.cs:77-91 | the state after a zoom, with no contract of its own; `Camera.ZoomKeepsAnchor` states that the zoom is set, the viewport kept and the anchor's world point kept |
| Camera.PanDragsContent | mandelbrot/ViewModel/CameraViewModel.cs:46-61 | after a drag, the pixel moved by the drag shows the world point that was under it before |
| Camera.ZoomKeepsAnchor | mandelbrot/ViewModel/CameraViewModel.cs:77-91 | zooming sets the new zoom, keeps the viewport, and the anchor pixel shows the same world point before and after |
| Camera.Magnification | mandelbrot/Model/CameraState.cs:12-15 | defined exactly when the initial zoom is non-zero, and then the current zoom is that many times the initial one |
| Camera.CheckZoomRange | mandelbrot/ViewModel/CameraViewModel.cs:19-20 | accepts exactly 0 < min < max, and otherwise names the first bound that fails |
| Camera.CameraViewModel.constructor | mandelbrot/ViewModel/CameraViewModel.cs:14-26 | keeps the bounds and the initial state with its zoom clamped into them |
| Camera.CameraViewModel.Snapshot | mandelbrot/ViewModel/CameraViewModel.cs:28 | returns the state, whose zoom is within the bounds |
| Camera.CameraViewModel.SetViewport | mandelbrot/ViewModel/CameraViewModel.cs:30-37 | a non-positive size is ignored and a positive one replaces only the viewport |
| Camera.CameraViewModel.PanByPixels | mandelbrot/ViewModel/CameraViewModel.cs:46-61 | with an invalid viewport nothing changes, otherwise the state becomes the panned state |
| Camera.CameraViewModel.ZoomAtPixel | mandelbrot/ViewModel/CameraViewModel.cs:69-92 | the minimum `int` step fails before anything changes, even with an invalid viewport; otherwise an invalid viewport changes nothing and a valid one zooms about the anchor to the clamped step |
| Camera.CameraViewModel.ScreenToWorld | mandelbrot/ViewModel/CameraViewModel.cs:96 | the world point maps back to the given pixel |
| Camera.CameraViewModel.WorldToScreen | mandelbrot/ViewModel/CameraViewModel.cs:98 | the pixel maps back to the given world point |
| Camera.Create | mandelbrot/ViewModel/CameraViewModel.cs:14-26 | bad zoom bounds give the constructor's exception, good ones a view model with the clamped initial state |
| RenderTargets.FrontIndex | mandelbrot/Model/RenderTarget.cs:35 | the low bit is 0 or 1 |
| RenderTargets.FrameId | mandelbrot/Model/RenderTarget.cs:36 | the arithmetic shift is the floor of half the word |
| RenderTargets.Encode | mandelbrot/Model/RenderTarget.cs:11-12 | `(frameId << 1) \| front` with the 64-bit wrap, and no contract of its own; `RenderTargets.EncodeRoundTrip` states that it is the inverse of `FrameId` and `FrontIndex` |
| RenderTargets.Published | mandelbrot/Model/RenderTarget.cs:55-61 | the word `TryPublish` stores, with no contract of its own; `RenderTargets.PublishedFlips` states that the front flips and the frame id rises by one |
| RenderTargets.EncodeRoundTrip | mandelbrot/Model/RenderTarget.cs:11-12 | re-packing an unpacked word gives the word back, and unpacking a packed frame id in range gives back the frame id and the front index |
| RenderTargets.PublishedFlips | mandelbrot/Model/RenderTarget.cs:53-61 | publishing flips the front index, and below the top of the range it raises the frame id by one |
| RenderTargets.PinnedU32Buffer.constructor | mandelbrot/Model/RenderTarget.cs:86-92 | a fresh buffer of width × height pixels, pinned |
| RenderTargets.PinnedU32Buffer.RowBytes | mandelbrot/Model/RenderTarget.cs:82 | 4 × width when that fits an `int`, otherwise the overflow exception |
| RenderTargets.PinnedU32Buffer.Dispose | mandelbrot/Model/RenderTarget.cs:94-97 | the buffer is no longer pinned |
| RenderTargets.CheckSize | mandelbrot/Model/RenderTarget.cs:20-21 | accepts exactly positive sizes whose product fits an `int`, and otherwise names the first check that fails |
| RenderTargets.RenderTarget.Buffer | mandelbrot/Model/RenderTarget.cs:38 | index 0 and 1 name the two buffers |
| RenderTargets.RenderTarget.constructor | mandelbrot/Model/RenderTarget.cs:18-30 | two fresh pinned buffers of the given size, and frame 0 with buffer 0 in front |
| RenderTargets.RenderTarget.RowBytes | mandelbrot/Model/RenderTarget.cs:16 | the row stride of the buffers, 4 × width when it fits |
| RenderTargets.RenderTarget.GetFrontSnapshot | mandelbrot/Model/RenderTarget.cs:32-40 | returns the buffer the published word names as front, the sizes, its stride and the frame id |
| RenderTargets.RenderTarget.GetBackForRender | mandelbrot/Model/RenderTarget.cs:42-50 | returns the other buffer's pixels, never the front ones, with the published word |
| RenderTargets.RenderTarget.TryPublish | mandelbrot/Model/RenderTarget.cs:53-65 | succeeds exactly when nothing was published since the given word; it then publishes the next frame with the old back buffer in front, and otherwise nothing changes |
| RenderTargets.RenderTarget.Dispose | mandelbrot/Model/RenderTarget.cs:67-71 | both buffers are unpinned |
| RenderTargets.Create | mandelbrot/Model/RenderTarget.cs:18-30 | bad sizes give the constructor's exception, good ones a target at frame 0 |
| RenderTargets.RetiredTargets.constructor | mandelbrot/Model/RenderTarget.cs:102 | an empty queue |
| RenderTargets.RetiredTargets.Retire | mandelbrot/Model/RenderTarget.cs:104 | the target joins the back of the queue |
| RenderTargets.RetiredTargets.DisposeAll | mandelbrot/Model/RenderTarget.cs:106-110 | the queue is drained in order and every target that was in it has both buffers unpinned |
| FrameTimes.Window | mandelbrot/Services/FrameTimeAverager.cs:15-24 | the window is the last min(pushes, N) samples |
| FrameTimes.FrameTimeAverager.constructor | mandelbrot/Services/FrameTimeAverager.cs:9-13 | a zeroed window of N slots and no samples |
| FrameTimes.FrameTimeAverager.Push | mandelbrot/Services/FrameTimeAverager.cs:26-31 | the sample goes into the current slot and nothing else in the buffer changes; the index moves on circularly; the count grows up to N; and the buffer still holds the newest samples |
| FrameTimes.FrameTimeAverager.AverageMs | mandelbrot/Services/FrameTimeAverager.cs:15-24 | 0 before any push, otherwise the mean of the filled slots, which is the mean of the last min(pushes, N) samples |
| FrameTimes.WindowMean | mandelbrot/Services/FrameTimeAverager.cs:21-23 | the filled slots are a rotation of the window, so they have its mean |
| FrameTimes.PushKeepsWindow | mandelbrot/Services/FrameTimeAverager.cs:28-30 | one push keeps the buffer holding the window, whether or not the index wraps and whether or not the buffer was full |
| FrameTimes.NextIndex | mandelbrot/Services/FrameTimeAverager.cs:29 | the index moves to the next slot, and from the last slot back to 0 |
| FrameTimes.Create | mandelbrot/Services/FrameTimeAverager.cs:9-13 | a non-positive window gives the constructor's exception, a positive one an empty averager |
| NativePaths.PlatformName | xtask/src/paths.rs:37-44 | platform names are 3 or 7 characters |
| NativePaths.ArchName | xtask/src/paths.rs:56-61 | architecture names have no '-' |
| NativePaths.VersionName | xtask/src/paths.rs:28-35 | each version name starts with "net" and ends with ".0" |
| NativePaths.NamesInjective | xtask/src/paths.rs:28-61 | distinct platforms, architectures and versions have distinct names |
| NativePaths.RequiresMacos | xtask/src/paths.rs:46-48 | Ios or Osx, with no contract of its own; `NativePaths.HostRequirements` and `NativePaths.NativeLibExt` relate it to the other host and to the "dylib" extension |
| NativePaths.RequiresWindows | xtask/src/paths.rs:50-52 | Windows only, with no contract of its own; `NativePaths.HostRequirements` states that it never overlaps `RequiresMacos` |
| NativePaths.HostRequirements | xtask/src/paths.rs:46-52 | no platform needs both a macOS and a Windows host, and only Android needs neither |
| NativePaths.RuntimeDirName | xtask/src/paths.rs:126-128 | the name's length is the platform's, plus one, plus the architecture's, and it starts with the platform name's first character |
| NativePaths.RuntimeDirNameParts | xtask/src/paths.rs:126-128 | the name is the platform name, a '-', then the architecture name |
| NativePaths.RuntimeDirNameInjective | xtask/src/paths.rs:126-128 | the directory name is the same exactly when platform and architecture are |
| NativePaths.NativeLibPrefix | xtask/src/paths.rs:135-140 | the prefix is empty exactly on Windows, and is three characters elsewhere |
| NativePaths.NativeLibExt | xtask/src/paths.rs:142-148 | the extension is "dylib" exactly for the platforms that need a macOS host |
| NativePaths.NativeLibFilename | xtask/src/paths.rs:183-190 | prefix, stem `rust_fractal`, '.', extension, with no contract of its own; `NativePaths.NativeLibFilenames` gives all four names, and `NativePaths.NativeLibFilenameByExt` states that two names agree exactly when the extensions do |
| NativePaths.NativeLibFilenames | xtask/src/paths.rs:183-190 | the file names are rust_fractal.dll, librust_fractal.so and librust_fractal.dylib (Osx and Ios) |
| NativePaths.NativeLibFilenameByExt | xtask/src/paths.rs:183-190 | two platforms share the file name exactly when they share the extension |
| NativePaths.TfmSuffix | xtask/src/paths.rs:153-161 | the platform part starts with '-' |
| NativePaths.DotnetTfm | xtask/src/paths.rs:150-162 | the moniker's length is the version name's plus the platform part's |
| NativePaths.DotnetTfmParts | xtask/src/paths.rs:150-162 | the moniker starts with the version's framework name and ends with the platform part |
| NativePaths.DotnetTfms | xtask/src/paths.rs:150-162 | the Windows monikers are net10.0-windows10.0.19041.0 and net8.0-windows10.0.19041.0 |
| NativePaths.DotnetTfmsMacos | xtask/src/paths.rs:150-162 | Osx maps to Mac Catalyst: net10.0-maccatalyst and net8.0-maccatalyst |
| NativePaths.DotnetTfmsIos | xtask/src/paths.rs:150-162 | the iOS monikers are net10.0-ios and net8.0-ios |
| NativePaths.DotnetTfmsAndroid | xtask/src/paths.rs:150-162 | the Android monikers are net10.0-android and net8.0-android |
| NativePaths.DotnetTfmInjective | xtask/src/paths.rs:150-162 | distinct (version, platform) pairs have distinct monikers |
| NativePaths.DotnetRid | xtask/src/paths.rs:164-181 | there is a RID for every pair except (Ios, X64), where the tool aborts |
| NativePaths.RidVersusRuntimeDir | xtask/src/paths.rs:164-181 | for Windows, Android and Ios the RID is the runtime directory name; Osx gets "maccatalyst-{arch}" instead |
| NativePaths.RidInjective | xtask/src/paths.rs:164-181 | distinct pairs have distinct RIDs |
| NativePaths.Join | xtask/src/paths.rs:194-199 | joining adds one component at the end and keeps the rest |
| NativePaths.RustFractalRoot | xtask/src/paths.rs:106-108 | the Rust library is the one component `rust_fractal` below the project root |
| NativePaths.BindingsRoot | xtask/src/paths.rs:86-95 | the bindings project is three components down, inside the Rust library |
| NativePaths.BindingsRuntimeDir | xtask/src/paths.rs:110-113 | `runtimes` below the bindings project, with no contract of its own; `NativePaths.DestinationLayout` states where it sits in the staging path |
| NativePaths.DestinationNativeLibPath | xtask/src/paths.rs:192-199 | no contract of its own; `NativePaths.DestinationLayout` states its seven components, and `NativePaths.DestinationInjective` states that it is distinct for each pair |
| NativePaths.DestinationLayout | xtask/src/paths.rs:192-199 | below the bindings project, the staging path is runtimes / {platform}-{arch} / native / file name |
| NativePaths.DestinationInjective | xtask/src/paths.rs:192-199 | each (platform, architecture) pair has its own staging path |

## Left out

- Floating point.
  - f64 and f32 arithmetic is idealised as exact `real` arithmetic.
  - The escape test, the pixel mapping, the colour blends and the camera transforms are exact in
    the model.
  - The f32 camera centre handed to the native kernel and the `Vector2` single-precision
    components are not rounded.
  - So `Camera.ConversionsRoundTrip` holds exactly here. The source only approximates it.
- `ColorProvider.GetColor`: `(int)(val / cwidth)` is modelled as the exact floor of the quotient
  of the integer count by the band width. In f64 this quotient is close enough for counts below
  2^31 to truncate to the same integer.
- Concurrency.
  - The `Parallel.For` and rayon row workers run one after another.
  - `Volatile.Read` and `Interlocked.CompareExchange` are plain reads and a compare-and-set.
  - `ConcurrentQueue` is a sequence.
  - Interleavings between a renderer and the UI thread are not modelled.
- Foreign calls and memory.
  - The raw output pointer of the native entry point is an `array?`. The caller vouches for
    `dst_len` (a `requires`).
  - `GCHandle` pinning is a boolean, and `Ptr` is the buffer itself.
  - `GC.AllocateUninitializedArray` is a zero-initialised array. Running out of memory is not
    modelled.
- `RustKernel.MandelbrotBaselineRenderU32`: requires that `usize` is at least as wide as
  `i32`, and that a non-null pointer really holds `dst_len` slots. These are the entry point's
  safety contract, not checks it makes.
- `BaselineRenderer.MandelbrotBaselineRenderer.Render`: requires `widthPx * heightPx` to fit an
  `int`. The C# product is unchecked and could wrap negative. That case and the `py * widthPx`
  row offset wrapping are not modelled.
- `BaselineRenderer.MandelbrotBaselineRenderer.Render`: the colour provider behind the
  `IColorProvider` interface is fixed to `ClassicColormapProvider`.
- `Camera.CameraViewModel.constructor`: requires valid zoom bounds. The throwing path is
  `Camera.Create`.
- `RenderTargets.RenderTarget.constructor`: requires valid sizes. The throwing paths are in
  `RenderTargets.Create`. The same goes for `FrameTimes.FrameTimeAverager.constructor` and
  `FrameTimes.Create`.
- `RenderTargets.PinnedU32Buffer.constructor`: requires width × height to fit an `int`, instead
  of the `checked` overflow exception. Every caller goes through `RenderTargets.Create`, which
  makes that check first.
- `Camera.ToWorld`, `Camera.Panned` and `Camera.Zoomed` require a positive zoom.
  - In the source a zero zoom divides by zero and gives infinities.
  - The view model never holds a zero zoom, because the minimum bound is positive.
- `Camera.Magnification`: in C#, `(double)Zoom / InitialZoom` with a zero initial zoom gives
  +Infinity, or NaN when the zoom is also 0. The model, which has no infinities, returns `None`
  there.
- `RenderTargets.RenderTarget.TryPublish`: the `|` of the shifted frame id and the front index is addition,
  since the shifted value's low bit is 0.
- `FrameTimes.FrameTimeAverager.Push`: the invariant says the index equals the count until the
  buffer fills. It does not say the index is the number of pushes modulo N. That fact is not
  needed: `FrameTimes.HoldsWindow` already fixes what every slot holds, and the mean does not
  depend on where the window starts.
- `RenderViewModel`, the pages and settings screens, `AppState`, `RendererRegistry`, the naive
  renderer wrapper and the native import helper are not part of this model. They are UI and
  wiring around the core.
- Build tooling. `bindings_root_project_file` and `bindings_nupkgs` (two more joins that nothing here uses) are not modelled. Process spawning, file copying, the stale-file sync and the `env!`-based roots
  of the build tool (`xtask_root`, `project_root`, `maui_root`, `maui_project_file`,
  `assert_rust_fractal_exists`) are I/O. Paths here are relative to the project root.
- The `clap` command-line parsing of platforms, architectures and versions is not modelled. The
  default .NET version is the constant `NativePaths.DEFAULT_DOTNET_VERSION` (.NET 10).
