# Viewfinder overlay (`WXViewfinderView`) in Dafny

This project models the scanning-viewfinder overlay of zxing-android-embedded: the view
that sits on top of the camera preview, darkens everything outside a target frame, strokes
the frame's border and four corner accents, sweeps a laser strip down the frame, writes a
caption under it and asks to be redrawn a few milliseconds later.

- `wrappers.dfy` — `Option`, standing for Java's nullable references.
- `geometry.dfy` (module `Geometry`) — the per-frame rectangle and path arithmetic of
  `onDraw`: the four mask rectangles, the border, the corner polylines, the laser strip and
  the caption's x, as pure functions of the frame, the surface size and the offset. The mask
  treats the frame as inclusive of `right` and `bottom` (`FrameCells`).
- `animation.dfy` (module `Animation`) — the laser offset's update (`Tick`), its n-fold
  iteration (`Ticks`) and the sawtooth lemmas: the offset restarts at 0 after exactly
  `Period` draws, and after `q` periods and `r` more draws it is `r * Speed`.
- `viewfinder.dfy` (module `Viewfinder`) — class `ViewfinderView` with the fields the Java
  class updates in place (`framingRect`, `previewFramingRect`, `offset`, `statusText`) and
  the methods `RefreshSizes`, `SetStatusText` and `OnDraw`. The camera preview is a
  parameter: `None` when no preview is attached, otherwise what its two getters return.
  `OnDraw` returns the draw commands it would issue, in order, instead of painting.

Facts about the code that the model keeps exactly:

- The laser strip starts one pixel right of `left + laserPadding` and one pixel below
  `top + offset` (lines 238-239). For the frame (100, 200, 300, 400) it is
  (111, 201 + offset, 290, 204 + offset).
- The offset restarts when it reaches the frame height exactly (line 234): with a frame
  200 pixels high that is the 40th draw from 0 (`Animation.WrapAtFrameHeight`).
- For a frame at least one row high, a reachable offset can push the 3-row strip up to
  two rows past the frame's bottom edge, and no further (`Geometry.LaserOverhangBound`,
  `Viewfinder.LaserOverhangsFrame`). For a frame of zero height the offset stays 0 and the
  strip lies wholly below the frame.
- The default caption is the text of line 111.
- A surface of zero or negative size is drawn like any other: the model issues the same
  commands.
- The corner accents are reflections of one another across the frame's mid-lines.

## Model

| member | source | states |
|---|---|---|
| `Geometry.FrameCells` | zxing-android-embedded/src/com/journeyapps/barcodescanner/WXViewfinderView.java:189-192 | The unmasked block is the frame with its right column and bottom row included. |
| `Geometry.TruncDiv` | zxing-android-embedded/src/com/journeyapps/barcodescanner/WXViewfinderView.java:249 | Java int division by a positive divisor: the remainder has the sign of the dividend and is smaller than the divisor (truncation toward zero). |
| `Geometry.MaskRects` | zxing-android-embedded/src/com/journeyapps/barcodescanner/WXViewfinderView.java:188-192 | Four masks; when the frame lies on the surface they are pairwise disjoint, disjoint from the frame's cells and inside the surface. |
| `Geometry.MaskTiling` | zxing-android-embedded/src/com/journeyapps/barcodescanner/WXViewfinderView.java:189-192 | A cell is on the surface exactly when it is a frame cell or under some mask: masks and frame tile the surface. |
| `Geometry.BorderRect` | zxing-android-embedded/src/com/journeyapps/barcodescanner/WXViewfinderView.java:194 | The border is the frame pulled in by one pixel on the top and left only; its outline lies in the unmasked frame cells. |
| `Geometry.CornerPaths` | zxing-android-embedded/src/com/journeyapps/barcodescanner/WXViewfinderView.java:195-231 | Four three-point paths, each an L of one horizontal and one vertical leg of `cornerLength`, bending at the frame-cell corner moved `halfWidth` inward on both axes. |
| `Geometry.CornersInsideFrame` | zxing-android-embedded/src/com/journeyapps/barcodescanner/WXViewfinderView.java:195-231 | When `halfWidth + cornerLength` fits in the frame's width and height, every point of every accent lies in the frame's cell block: the legs run along the frame's edges, inside it, never out over the mask. |
| `Geometry.BottomLeftMirrorsTopLeft` | zxing-android-embedded/src/com/journeyapps/barcodescanner/WXViewfinderView.java:197-222 | The bottom-left accent is the top-left one reflected across `y == (top + bottom + 1) / 2`, point for point. |
| `Geometry.RightMirrorsLeft` | zxing-android-embedded/src/com/journeyapps/barcodescanner/WXViewfinderView.java:197-231 | The right-hand accents are the left-hand ones reflected across `x == (left + right + 1) / 2`, with the point order reversed. |
| `Geometry.LaserRect` | zxing-android-embedded/src/com/journeyapps/barcodescanner/WXViewfinderView.java:237-241 | The strip is inset `1 + laserPadding` from the left and `laserPadding` from the right, starts `1 + offset` below the top, is 3 rows high; for an offset below the frame height it starts inside the frame, and when 3 rows fit below it lies in the frame cells. |
| `Geometry.LaserOverhangBound` | zxing-android-embedded/src/com/journeyapps/barcodescanner/WXViewfinderView.java:233-241 | For a frame at least one row high and an offset of 0 or below the frame height, the strip ends at most two rows below the frame's cells. |
| `Geometry.LaserForSampleFrame` | zxing-android-embedded/src/com/journeyapps/barcodescanner/WXViewfinderView.java:238-241 | For the frame (100, 200, 300, 400) the strip is (111, 201 + offset, 290, 204 + offset). |
| `Geometry.TextAnchorX` | zxing-android-embedded/src/com/journeyapps/barcodescanner/WXViewfinderView.java:249 | The caption's x is the frame's horizontal midpoint within one half pixel, between `left` and `right`, rounded toward zero for both signs of `left + right`. |
| `Animation.Tick` | zxing-android-embedded/src/com/journeyapps/barcodescanner/WXViewfinderView.java:233-236 | One draw advances the offset by `speed` or restarts it at 0; reaching the frame height exactly restarts; a non-negative offset stays non-negative and is 0 or below the height. |
| `Animation.Period` | zxing-android-embedded/src/com/journeyapps/barcodescanner/WXViewfinderView.java:233-236 | The least number of steps of `speed` that reach the frame height. |
| `Animation.TicksAdd` | zxing-android-embedded/src/com/journeyapps/barcodescanner/WXViewfinderView.java:233-236 | `m` draws followed by `n` draws are `m + n` draws. |
| `Animation.TicksStayInRange` | zxing-android-embedded/src/com/journeyapps/barcodescanner/WXViewfinderView.java:233-236 | From a non-negative offset, any number of draws keeps it non-negative and, after at least one, 0 or below the frame height. |
| `Animation.TicksAdvance` | zxing-android-embedded/src/com/journeyapps/barcodescanner/WXViewfinderView.java:233-236 | While the sweep stays below the frame height, `n` draws move the offset by `n * speed`. |
| `Animation.TicksWrap` | zxing-android-embedded/src/com/journeyapps/barcodescanner/WXViewfinderView.java:233-236 | From 0 the offset is back at 0 after exactly `Period` draws and positive at every draw in between. |
| `Animation.TicksPeriodic` | zxing-android-embedded/src/com/journeyapps/barcodescanner/WXViewfinderView.java:233-236 | The sweep from 0 repeats with period `Period`. |
| `Animation.TicksFromZero` | zxing-android-embedded/src/com/journeyapps/barcodescanner/WXViewfinderView.java:233-236 | After `q` periods and `r < Period` more draws from 0, the offset is `r * speed`. |
| `Animation.WrapAtFrameHeight` | zxing-android-embedded/src/com/journeyapps/barcodescanner/WXViewfinderView.java:233-236 | For a frame 200 high: 195 after 39 draws, 0 after the 40th. |
| `Viewfinder.HalfWidth` | zxing-android-embedded/src/com/journeyapps/barcodescanner/WXViewfinderView.java:195 | `(int) (cornerWidth / 2)`: for a non-negative width, the truncated half, no more than the other half and at most one less. |
| `Viewfinder.Scene` | zxing-android-embedded/src/com/journeyapps/barcodescanner/WXViewfinderView.java:188-251 | Twelve commands in canvas order: the four masks, the border, the four corner accents, exactly one laser strip (tenth, for the advanced offset), every caption carrying the current status text at the frame's midpoint, and last the 5 ms redraw of exactly the frame. |
| `Viewfinder.LaserOverhangsFrame` | zxing-android-embedded/src/com/journeyapps/barcodescanner/WXViewfinderView.java:233-241 | For a frame 201 high the offset reaches 200 after 40 draws, and the strip then ends two rows below the frame's cells. |
| `Viewfinder.ViewfinderView.constructor` | zxing-android-embedded/src/com/journeyapps/barcodescanner/WXViewfinderView.java:109-112 | Nothing cached, offset 0, caption from the layout attribute or else the default text. |
| `Viewfinder.ViewfinderView.RefreshSizes` | zxing-android-embedded/src/com/journeyapps/barcodescanner/WXViewfinderView.java:155-165 | Both cached rectangles are replaced when the preview supplies both; otherwise (no preview, or either rectangle null) both are kept: never only one. |
| `Viewfinder.ViewfinderView.SetStatusText` | zxing-android-embedded/src/com/journeyapps/barcodescanner/WXViewfinderView.java:168-171 | Only the caption changes; the rectangles and the offset stay; a full redraw is requested. |
| `Viewfinder.ViewfinderView.OnDraw` | zxing-android-embedded/src/com/journeyapps/barcodescanner/WXViewfinderView.java:176-253 | Keeps the invariant that the offset is non-negative and both rectangles are cached together or not at all. Refreshes first; without both rectangles nothing is issued and the offset stays; otherwise the offset takes one `Tick` over the frame height (ending 0 or below it, never negative) and the commands are the scene for the new offset and the current caption. |

## Left out

- Rendering itself: `Canvas`, `Paint`, `Path`, `Matrix`, colours, stroke widths and anti-aliasing. Each canvas call is a `DrawCommand`; paths are lists of points already moved by the translation matrix.
- Constructor attribute loading (lines 93-126) apart from the caption fallback: the colours and dimensions come from platform resources; the corner length and width are fixed at their defaults, 12 and 3.
- `setCameraPreview` and the `StateListener` callbacks (lines 129-153): listener wiring; `previewSized` is `RefreshSizes` followed by a redraw request.
- The laser bitmap lookup and `drawBitmap` (lines 244-245): a resource call; only the target rectangle is modelled.
- Redraw scheduling: `postInvalidateDelayed` and `invalidate` are recorded as requests (`InvalidateDelayed`, `Invalidate`), not executed; cancelling a pending redraw on detach is not something this class does.
- Float fields: `speed`, `cornerLength`, `cornerWidth` and `statusTextPadding` are integers here. Rounding of `offset += speed` in float arithmetic (beyond 2^24) and dimensions that are not whole pixels are not modelled.
- The caption's float baseline y (`bottom + statusTextPadding + statusTextSize`, line 249) is not modelled: `Text` carries only its x.
- 32-bit overflow of Java `int` coordinate arithmetic (`frame.right + 1`, `frame.top + 1 + offset`): screen coordinates are far below 2^31, so coordinates are unbounded integers.
- Aliasing: the cached rectangles are the preview's own `Rect` objects in Java; here they are values, so later changes by the preview to those objects are not seen.
- A null caption (`setStatusText(null)`, which makes `drawText` throw) is not modelled: captions are strings.
- The canvas's width and height are parameters of `OnDraw`.
