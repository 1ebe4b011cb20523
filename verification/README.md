# UnityPaint stroke engine, modelled in Dafny

UnityPaint paints on a Unity render texture by compositing a brush stamp at
each sampled mouse position. Two near-identical components do this:
`PaintViewTest` (a canvas of configurable size, 300 x 300 by default) and `PaintView` (a screen-sized
canvas). Both share one engine:

- `Paint` drops points outside the canvas rectangle and maps the others to a
  UV coordinate.
- `LerpPaint` is keyed on the last sampled point, with `Vector2.zero` meaning
  "no stroke". It stamps each sample and fills gaps wider than the stamp
  spacing (`_brushLerpSize`) with evenly spaced intermediate stamps. The
  sample then becomes the last point.
- `Remap` maps a 1..100 slider value affinely onto a brush size.
- The spacing is `(texture width + texture height) / 2 / brush size`.

The model uses exact reals. A compositor call is an emitted UV, and the render
texture is the sequence of UVs composited since it was last cleared.
`Vector2.Distance` becomes a parameter `d` with `IsDistance(p, last, d)`,
meaning `d >= 0` and `d * d` is the squared length of `p - last`.
`normalized` divides by that `d`.

Files:

- `real_arith.dfy` (module `RealArith`): small facts about real
  multiplication and division.
- `geometry.dfy` (module `Geometry`): vectors, distance, normalisation and
  points along a direction.
- `coords.dfy` (module `Coords`): the bounds check, the UV mapping, `Paint`,
  and `Emit`, the compositor calls of a sequence of attempts.
- `brush.dfy` (module `Brush`): `Remap` and the spacing derivation.
- `stroke.dfy` (module `Stroke`): the interpolator. It contains `LerpPaint`
  as written, with its loop, and its specification `Attempts`.
- `paint_view_test.dfy` and `paint_view.dfy` (modules `PaintViewTest` and
  `PaintView`): each component's state and public operations.

## Behaviour worth knowing

- The "no stroke" marker is the ordinary point `(0, 0)`. A sample that lands
  exactly on the origin becomes the last point, so the stroke is cut there
  and the next sample is stamped on its own (PaintViewTest.cs:252-256, 269;
  `PaintViewTest.SampleAtOriginCutsStroke`, `PaintView.SampleAtOriginCutsStroke`).
- An off-canvas sample still becomes the last point, so the next sample
  interpolates from it (PaintViewTest.cs:250-254, 269;
  `PaintViewTest.OffCanvasSampleStillAdvances`).
- `SetBrushTexture` never recomputes the spacing, in either component
  (PaintViewTest.cs:145-149, PaintView.cs:131-136). In `PaintView`,
  `SetBrushSize` does not recompute it either (PaintView.cs:121-125), so the
  spacing keeps its `InitData` value for brush size 300
  (`PaintView.SpacingFixedAfterInit`, `PaintViewTest.TextureChangeLeavesSpacingStale`).
- `SetBrushSize` has no guard on its argument (PaintViewTest.cs:134-139).
  `PaintViewTest.SetBrushSize` is modelled for the slider range 1..100 that
  its documentation comment names (PaintViewTest.cs:133).

## Model

| member | source | states |
|---|---|---|
| Coords.Rejects | Assets/Test/PaintViewTest.cs:278 | No contract: the four-way bounds test. `Coords.AcceptedIffUvInUnitSquare` and `Stroke.RayInBounds` characterise it. |
| Coords.ToUv | Assets/Test/PaintViewTest.cs:282 | No contract: the division by canvas width and height. `Coords.UvRoundTrip` and `Coords.AcceptedIffUvInUnitSquare` characterise it. |
| Coords.Paint | Assets/Test/PaintViewTest.cs:276-285 | At most one stamp. There is none exactly when x < 0, x > W, y < 0 or y > H. An emitted UV lies in the unit square and maps back to the point. |
| Coords.AcceptedIffUvInUnitSquare | Assets/Test/PaintViewTest.cs:278-282 | A point passes the bounds check exactly when its UV (x/W, y/H) lies in [0,1] x [0,1]. |
| Coords.UvRoundTrip | Assets/Test/PaintViewTest.cs:282 | The UV mapping is lossless: scaling the UV by (W, H) gives back the point. |
| Coords.Emit | Assets/Test/PaintViewTest.cs:250-266 | A sequence of stamp attempts never makes more compositor calls than there are attempts. Which calls it makes is stated by `Coords.AcceptedIsEmitted`, `Coords.EmitOrderPreserved` and `Coords.EmittedComeFromAttempts`. |
| Coords.EmittedInUnitSquare | Assets/Test/PaintViewTest.cs:276-285 | Every UV handed to the compositor lies in the unit square. |
| Coords.EmittedComeFromAttempts | Assets/Test/PaintViewTest.cs:276-285 | Every composited UV comes from an attempted point that passed the bounds check. |
| Coords.AcceptedIsEmitted | Assets/Test/PaintViewTest.cs:263-266 | Every attempt that passes the bounds check is composited, even when others are dropped. The attempt at index i is the call whose index is the number of calls made by the attempts before i, and it stamps the attempt's UV. |
| Coords.EmitOrderPreserved | Assets/Test/PaintViewTest.cs:263-266 | Calls keep the attempts' order: an accepted attempt's call comes before every call of a later attempt. |
| Coords.EmitAppend | Assets/Test/PaintViewTest.cs:250-266 | The calls of two batches of attempts are the calls of the first followed by those of the second. |
| Coords.EmitInBounds | Assets/Test/PaintViewTest.cs:276-285 | When no attempt is out of bounds, the k-th call stamps the UV of the k-th attempt. |
| Brush.Remap | Assets/Test/PaintViewTest.cs:294-299 | Slider value 1 maps to the start value and value 100 to the end value. |
| Brush.RemapAffine | Assets/GameSoul/Scripts/PaintView.cs:300-305 | Remap is affine with slope (end - start) / 99. |
| Brush.RemapWithinEndpoints | Assets/Test/PaintViewTest.cs:294-299 | Slider values in [1, 100] land between the two endpoints, whichever is larger. |
| Brush.RemapRoundTrip | Assets/GameSoul/Scripts/PaintView.cs:300-305 | With distinct endpoints, Remap is inverted by Unremap in both directions. |
| Brush.Footprint | Assets/Test/PaintViewTest.cs:137 | No contract: the texture's mean side `(width + height) / 2`. `Brush.Spacing` relates it to the spacing. |
| Brush.Spacing | Assets/Test/PaintViewTest.cs:137 | The spacing is positive, and spacing times brush size is the texture's mean side. |
| Brush.SpacingAntitone | Assets/Test/PaintViewTest.cs:137 | A larger brush never gets a larger spacing. |
| Brush.SpacingExample | Assets/GameSoul/Scripts/PaintView.cs:217 | A 64 x 64 texture at size 32 is stamped every 2 units. |
| Geometry.IsDistance | Assets/Test/PaintViewTest.cs:258 | No contract: `Vector2.Distance` characterised by `d >= 0` and `d * d` equal to the squared length of the difference. `Geometry.DistanceUnique` and `Geometry.DistanceSymmetric` characterise it. |
| Geometry.Normalized | Assets/Test/PaintViewTest.cs:261 | No contract: `.normalized`, the vector divided by its known positive length. `Geometry.NormalizedIsUnit` and `Geometry.NormalizedRayArrives` characterise it. |
| Geometry.DistanceUnique | Assets/Test/PaintViewTest.cs:258 | At most one value satisfies the distance characterisation, so `d` is determined by the two points. |
| Geometry.DistanceSymmetric | Assets/Test/PaintViewTest.cs:258 | Distance is symmetric. |
| Geometry.NormalizedIsUnit | Assets/Test/PaintViewTest.cs:261 | Dividing p - last by its length gives a unit vector. |
| Geometry.RayDistance | Assets/Test/PaintViewTest.cs:265 | Moving from g1 to g2 along a unit direction covers distance g2 - g1. |
| Stroke.InStroke | Assets/Test/PaintViewTest.cs:252 | No contract: a stroke is in progress unless the last point equals `Vector2.zero`. `Stroke.AttemptCount`, `Stroke.ResetNeverInterpolates` and the views' `SampleAtOriginCutsStroke` characterise it. |
| Stroke.Reset | Assets/Test/PaintViewTest.cs:182 | No contract: the last point is set to `Vector2.zero`, as on button release and in `InitData`. `Stroke.ResetNeverInterpolates` characterises it. |
| Stroke.Direction | Assets/Test/PaintViewTest.cs:261 | No contract: `(point - _lastPoint).normalized`. `Stroke.SampleOnRay` characterises it: a unit vector that reaches the sample after the full distance. |
| Stroke.Intermediate | Assets/Test/PaintViewTest.cs:265 | No contract: `newPoint = _lastPoint + dir * (i + 1) * _brushLerpSize`. `Stroke.IntermediateOnRay` and `Stroke.IntermediateOnSegment` characterise it. |
| Stroke.IntermediateCount | Assets/Test/PaintViewTest.cs:262 | (int)(d / spacing) is at least 1 when d > spacing. The last intermediate stays within d, and one more would overshoot. |
| Stroke.Intermediates | Assets/Test/PaintViewTest.cs:263-266 | No contract: the points `last + dir * (i + 1) * spacing` for i below `(int)(d / spacing)`. `Stroke.IntermediateOnSegment`, `Stroke.IntermediatesEvenlySpaced`, `Stroke.FinalGapBelowSpacing` and `Stroke.TrailGapFree` characterise them. |
| Stroke.Attempts | Assets/Test/PaintViewTest.cs:250-268 | No contract: the points one sample tries to stamp, in order. `Stroke.AttemptCount`, `Stroke.AttemptsInBounds`, `Stroke.LongGapStamps` and `Stroke.ResetNeverInterpolates` characterise it, and `Stroke.LerpPaint` is proved to emit exactly its stamps. |
| Stroke.AttemptCount | Assets/Test/PaintViewTest.cs:250-268 | The sample is attempted first. With no stroke, or a gap of at most the spacing, it is the only attempt. Otherwise there are 1 + floor(d / spacing) attempts, with floor(d / spacing) >= 1. |
| Stroke.LerpPaint | Assets/Test/PaintViewTest.cs:248-270 | The loop as written makes exactly the compositor calls of the specified attempts. The last point becomes the sample and the spacing is kept. |
| Stroke.StampIntermediates | Assets/GameSoul/Scripts/PaintView.cs:267-273 | The interpolation loop stamps the intermediates in index order. |
| Stroke.IntermediateOnRay | Assets/Test/PaintViewTest.cs:265 | last + dir * (i + 1) * spacing lies (i + 1) * spacing along the unit direction from last. |
| Stroke.SampleOnRay | Assets/Test/PaintViewTest.cs:261 | The direction is a unit vector, and going the full distance along it reaches the sample. |
| Stroke.IntermediateOnSegment | Assets/Test/PaintViewTest.cs:261-266 | The i-th intermediate lies on the segment from last to the sample, at distance (i + 1) * spacing, with 0 < (i + 1) * spacing <= d. |
| Stroke.FirstIntermediateOneSpacing | Assets/Test/PaintViewTest.cs:265 | The first intermediate is exactly one spacing from the last point. |
| Stroke.IntermediatesEvenlySpaced | Assets/Test/PaintViewTest.cs:263-266 | Consecutive intermediates are exactly one spacing apart. |
| Stroke.FinalGapBelowSpacing | Assets/Test/PaintViewTest.cs:262-266 | The sample lies less than one spacing beyond the last intermediate. |
| Stroke.TrailGapFree | Assets/Test/PaintViewTest.cs:258-268 | Within a stroke, no two consecutive points of last, the intermediates and the sample are more than one spacing apart. |
| Stroke.AttemptsInBounds | Assets/Test/PaintViewTest.cs:263-266 | When last and the sample are on the canvas, so is every intermediate, and each attempt is composited at its own UV. |
| Stroke.RayInBounds | Assets/Test/PaintViewTest.cs:278 | A point between two accepted points is accepted. |
| Stroke.LongGapStamps | Assets/Test/PaintViewTest.cs:258-266 | Across a long gap with both ends on the surface, the calls are the sample's UV and then, for each i below floor(d / spacing), the UV of the point (i + 1) * spacing along the unit direction from last. |
| Stroke.ResetNeverInterpolates | Assets/Test/PaintViewTest.cs:252-256 | After the last point is reset to zero, the next sample is a single attempt with no interpolation. |
| Stroke.StrokeIntoOrigin | Assets/Test/PaintViewTest.cs:258-266 | Going from (4, 0) to the origin at spacing 2 makes three attempts: the origin is interpolated towards like any other point. |
| Stroke.StrokeExample | Assets/Test/PaintViewTest.cs:248-285 | On a 300 x 300 canvas at spacing 2, a stroke start at (10, 10) followed by (10, 100) makes 47 compositor calls. |
| PaintViewTest.SetBrushSize | Assets/Test/PaintViewTest.cs:134-139 | The size is `Remap(size, 150, 15)`, so sliders 1..100 give sizes 15..150. Spacing times size is the texture footprint, and the stroke, texture and canvas are unchanged. |
| PaintViewTest.SetBrushSizeEndpoints | Assets/Test/PaintViewTest.cs:136 | Slider 1 gives size 150 and slider 100 gives size 15, each with its spacing. |
| PaintViewTest.SetBrushSizeSpacingRange | Assets/Test/PaintViewTest.cs:136-137 | Over the slider range, the spacing lies between its values at sizes 150 and 15. |
| PaintViewTest.SetBrushSizeLastWins | Assets/Test/PaintViewTest.cs:134-139 | Setting the size twice is the same as setting only the second size. |
| PaintViewTest.SetBrushTexture | Assets/Test/PaintViewTest.cs:145-149 | Only the texture changes; spacing, size and stroke are kept. |
| PaintViewTest.TextureChangeLeavesSpacingStale | Assets/Test/PaintViewTest.cs:145-149 | After a texture change with a different footprint, the spacing no longer matches texture and size. |
| PaintViewTest.TextureTakesEffectOnResize | Assets/Test/PaintViewTest.cs:134-149 | The next size change computes the spacing from the new texture. |
| PaintViewTest.InitData | Assets/Test/PaintViewTest.cs:202-220 | No stroke is in progress, the canvas is cleared and sized as configured, the brush size is `Remap(defaultSize, 150, 15)`, and spacing times that size is the texture footprint. |
| PaintViewTest.InitDataDefaults | Assets/Test/PaintViewTest.cs:23-72 | With a 300 x 300 canvas and default slider 1, the brush size is 150 and a 64 x 64 texture gets spacing 64/150. |
| PaintViewTest.Paint | Assets/Test/PaintViewTest.cs:276-285 | An off-canvas point adds nothing. Otherwise the point's UV, inside the unit square, is added. |
| PaintViewTest.LerpPaint | Assets/Test/PaintViewTest.cs:248-270 | New stamps are appended after the old ones, at most one per attempt, all in the unit square. The sample becomes the last point and the state stays valid. |
| PaintViewTest.LerpPaintStamps | Assets/Test/PaintViewTest.cs:258-269 | Within a stroke, with last and sample on the canvas: a short gap appends only the sample's UV. A long gap appends the sample's UV and then, in order, the UV of each point (i + 1) * spacing along the segment, floor(d / spacing) of them. |
| PaintViewTest.SampleAtOriginCutsStroke | Assets/Test/PaintViewTest.cs:252-269 | A sample exactly at the origin becomes the last point and leaves no stroke in progress, so the next sample appends only its own stamp. |
| PaintViewTest.OffCanvasSampleStillAdvances | Assets/Test/PaintViewTest.cs:250-256 | A rejected stroke-start sample adds nothing but still becomes the last point. |
| PaintViewTest.DragEnd | Assets/Test/PaintViewTest.cs:178-184 | On button release the stroke is forgotten. Otherwise nothing changes. |
| PaintViewTest.ReleaseThenSample | Assets/Test/PaintViewTest.cs:178-184 | After a release, the next sample adds only its own stamp, however far away it is. |
| PaintViewTest.InitThenSample | Assets/Test/PaintViewTest.cs:204 | The first sample after InitData adds only its own stamp to a clear canvas. |
| PaintViewTest.StrokeStampCount | Assets/Test/PaintViewTest.cs:258-268 | Within a stroke, on the canvas, a gap wider than the spacing adds 1 + floor(d / spacing) stamps, and a shorter gap adds one. |
| PaintView.InitData | Assets/GameSoul/Scripts/PaintView.cs:214-237 | Brush size is 300, spacing times 300 is the texture footprint, no stroke is in progress, and the canvas is cleared at screen size. |
| PaintView.SetBrushSize | Assets/GameSoul/Scripts/PaintView.cs:121-125 | Only the brush size changes; the spacing is not recomputed. |
| PaintView.SetBrushTexture | Assets/GameSoul/Scripts/PaintView.cs:131-136 | Only the texture changes; the spacing is not recomputed. |
| PaintView.BrushSizeChanged | Assets/GameSoul/Scripts/PaintView.cs:171-180 | Slider 1 gives size 300 and slider 100 gives size 30. The engine and canvas are unchanged. |
| PaintView.BrushSizeSliderRange | Assets/GameSoul/Scripts/PaintView.cs:174 | Slider values in [1, 100] give sizes in [30, 300]. |
| PaintView.BrushSizeSlope | Assets/GameSoul/Scripts/PaintView.cs:174 | Each slider unit shrinks the brush by 270/99. |
| PaintView.BrushSizeFromSlider | Assets/GameSoul/Scripts/PaintView.cs:174 | Each size in [30, 300] comes from exactly one slider value, and that value lies in [1, 100]. |
| PaintView.Paint | Assets/GameSoul/Scripts/PaintView.cs:282-291 | A point off the screen rectangle adds nothing. Otherwise its UV (x/screenW, y/screenH), inside the unit square, is added. |
| PaintView.LerpPaint | Assets/GameSoul/Scripts/PaintView.cs:254-276 | New stamps are appended after the old ones, at most one per attempt, all in the unit square. The sample becomes the last point. |
| PaintView.LerpPaintStamps | Assets/GameSoul/Scripts/PaintView.cs:264-275 | Within a stroke, with last and sample on the screen: a short gap appends only the sample's UV. A long gap appends the sample's UV and then, in order, the UV of each point (i + 1) * spacing along the segment, floor(d / spacing) of them. |
| PaintView.SampleAtOriginCutsStroke | Assets/GameSoul/Scripts/PaintView.cs:258-275 | A sample exactly at the origin becomes the last point and leaves no stroke in progress, so the next sample appends only its own stamp. |
| PaintView.DragEnd | Assets/GameSoul/Scripts/PaintView.cs:199-205 | On button release the stroke is forgotten. Otherwise nothing changes. |
| PaintView.ReleaseThenSample | Assets/GameSoul/Scripts/PaintView.cs:199-205 | After a release, the next sample adds only its own stamp. |
| PaintView.Apply | Assets/GameSoul/Scripts/PaintView.cs:121-205 | No size, slider, texture or release event touches the spacing or the canvas. Texture events carry loaded textures only. |
| PaintView.SpacingFixedAfterInit | Assets/GameSoul/Scripts/PaintView.cs:121-136 | Across any sequence of such events, the spacing, the canvas and validity are preserved. |
| PaintView.SpacingAfterInit | Assets/GameSoul/Scripts/PaintView.cs:216-217 | After InitData, the spacing stays at the initial texture's footprint over 300, whatever events follow. |
| PaintView.StaleSpacingExample | Assets/GameSoul/Scripts/PaintView.cs:171-180 | With slider 100 the size is 30, but stamps stay 64/300 apart for a 64 x 64 texture. |
| PaintView.InitThenSample | Assets/GameSoul/Scripts/PaintView.cs:218 | The first sample after InitData adds only its own stamp to a clear canvas. |
| PaintView.StrokeStampCount | Assets/GameSoul/Scripts/PaintView.cs:264-274 | Within a stroke, on screen, a gap wider than the spacing adds 1 + floor(d / spacing) stamps, and a shorter gap adds one. |

## Left out

- GPU compositing is not modelled: `Graphics.Blit`, materials, shaders, `RenderTexture` handling and `UpdateBrushMaterial`. A stamp is its UV appended to the canvas log, and clearing empties the log.
- Brush colour is not modelled: `SetBrushColor`, `SelectColor` and the space-key colour change in `Update`. The colour never affects where stamps land.
- `SelectBrush` only forwards to `SetBrushTexture`, which is modelled. `ResetAttr` is an editor context-menu action combining the setters.
- Input polling is replaced by parameters:
  - the `DragUpdate` gate (render texture, material, mouse button held), `Input.mousePosition` and `PosMouse2PainCanvas` (an identity) give the sample point;
  - `Input.GetMouseButtonUp` gives the `buttonReleased` flag;
  - `Screen.width` and `Screen.height` give the screen surface.
- `Vector2.Distance` (a square root) is a parameter characterised by its square, and `Vector2 ==` is exact equality rather than Unity's approximate comparison.
- IEEE single-precision rounding is not modelled. All arithmetic is on exact reals, and the `(int)` cast is the floor of the non-negative quotient.
- PaintViewTest.SetBrushSize: requires a slider value in 1..100, as documented. Above about 111 the source produces a zero or negative size, and so an infinite or negative spacing. That is IEEE behaviour and not modelled.
- PaintView.InitData: models the first call, from `Start`. A repeated call keeps the earlier screen size and existing materials.
- Texture dimensions are assumed positive, as for any loaded texture. The 32-bit sum `width + height` is not wrapped.
- Not modelled because they do not affect the stroke engine:
  - `Update`'s image rotation;
  - the canvas and background `sizeDelta` updates in `InitData`;
  - the brush size label;
  - `SaveToPng`, `GetPersistentDataPath`, `LoadPng`, `DownloadEnumerator` and `LoadByIO` (file and network I/O, PNG encoding).
