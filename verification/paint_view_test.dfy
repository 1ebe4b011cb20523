/**
  The `PaintViewTest` component: a paint canvas of configurable size (300 x 300
  by default), a brush whose size comes from a 1..100 slider value and whose
  spacing is derived from the brush texture at every size change, and the
  stroke engine.

  The render texture is modelled by `stamps`, the UVs composited since the
  canvas was last cleared; materials, colours and the UI are not modelled.
 */
module PaintViewTest {
  import opened Geometry
  import opened Coords
  import opened Brush
  import opened Stroke

  /** `Remap` endpoints of `SetBrushSize`: slider 1 is size 150, slider 100 is size 15. */
  const SizeAtSliderMin: real := 150.0
  const SizeAtSliderMax: real := 15.0

  /** Serialised defaults of the component: a 300 x 300 canvas and brush slider value 1. */
  const DefaultCanvas: Surface := Surface(300, 300)
  const DefaultBrushSize: real := 1.0

  /**
    The component's state: canvas size, brush texture, brush size, the stroke
    engine (`_brushLerpSize`, `_lastPoint`) and the composited stamps.
   */
  datatype View = View(canvas: Surface, texture: Texture, brushSize: real, engine: Engine, stamps: seq<Vec>) {
    /** What every reachable state satisfies: the engine can interpolate. */
    predicate Valid() {
      canvas.Valid() && texture.Valid() && brushSize > 0.0 && engine.spacing > 0.0
    }
  }

  /**
    `SetBrushSize(size)` for a slider value `size` in 1..100: the brush size
    lands between 15 and 150 and the spacing is recomputed from the current
    texture so that spacing times size is the texture's footprint. The stroke,
    the texture and the canvas are untouched.
   */
  function SetBrushSize(v: View, size: real): (r: View)
    requires v.texture.Valid() && SliderMin <= size <= SliderMax
    ensures r.brushSize == Remap(size, SizeAtSliderMin, SizeAtSliderMax)
    ensures SizeAtSliderMax <= r.brushSize <= SizeAtSliderMin
    ensures r.engine.spacing > 0.0
    ensures r.engine.spacing * r.brushSize == Footprint(v.texture)
    ensures r.engine.last == v.engine.last
    ensures r.canvas == v.canvas && r.texture == v.texture && r.stamps == v.stamps
  {
    var b := Remap(size, SizeAtSliderMin, SizeAtSliderMax);
    RemapWithinEndpoints(size, SizeAtSliderMin, SizeAtSliderMax);
    v.(brushSize := b, engine := v.engine.(spacing := Spacing(v.texture, b)))
  }

  /** Slider value 1 gives the largest brush and the smallest spacing, 100 the reverse. */
  lemma SetBrushSizeEndpoints(v: View)
    requires v.texture.Valid()
    ensures SetBrushSize(v, SliderMin).brushSize == 150.0
    ensures SetBrushSize(v, SliderMax).brushSize == 15.0
    ensures SetBrushSize(v, SliderMin).engine.spacing * 150.0 == Footprint(v.texture)
    ensures SetBrushSize(v, SliderMax).engine.spacing * 15.0 == Footprint(v.texture)
  {
  }

  /** Over the slider range the spacing stays between its values at size 150 and size 15. */
  lemma SetBrushSizeSpacingRange(v: View, size: real)
    requires v.texture.Valid() && SliderMin <= size <= SliderMax
    ensures Spacing(v.texture, SizeAtSliderMin) <= SetBrushSize(v, size).engine.spacing
    ensures SetBrushSize(v, size).engine.spacing <= Spacing(v.texture, SizeAtSliderMax)
  {
    var r := SetBrushSize(v, size);
    SpacingAntitone(v.texture, r.brushSize, SizeAtSliderMin);
    SpacingAntitone(v.texture, SizeAtSliderMax, r.brushSize);
  }

  /** Only the last size set matters. */
  lemma SetBrushSizeLastWins(v: View, a: real, b: real)
    requires v.texture.Valid() && SliderMin <= a <= SliderMax && SliderMin <= b <= SliderMax
    ensures SetBrushSize(SetBrushSize(v, a), b) == SetBrushSize(v, b)
  {
  }

  /**
    `SetBrushTexture(t)` swaps the texture only: brush size, spacing and the
    stroke in progress stay as they were. A loaded texture has positive
    dimensions.
   */
  function SetBrushTexture(v: View, t: Texture): (r: View)
    requires t.Valid()
    ensures r.texture == t
    ensures r.engine == v.engine && r.brushSize == v.brushSize
    ensures r.canvas == v.canvas && r.stamps == v.stamps
    ensures v.Valid() ==> r.Valid()
  {
    v.(texture := t)
  }

  /**
    The spacing goes stale on a texture change: when the new texture's
    footprint differs, the spacing no longer matches the texture and brush
    size until the next `SetBrushSize`.
   */
  lemma TextureChangeLeavesSpacingStale(v: View, t: Texture)
    requires v.Valid() && t.Valid()
    requires v.engine.spacing == Spacing(v.texture, v.brushSize)
    requires Footprint(t) != Footprint(v.texture)
    ensures SetBrushTexture(v, t).engine.spacing != Spacing(t, v.brushSize)
  {
  }

  /** ... and the next size change brings the new texture into effect. */
  lemma TextureTakesEffectOnResize(v: View, t: Texture, size: real)
    requires t.Valid() && SliderMin <= size <= SliderMax
    ensures var r := SetBrushSize(SetBrushTexture(v, t), size);
      r.engine.spacing == Spacing(t, r.brushSize)
  {
  }

  /**
    `InitData`: forget the stroke, set the brush to the default slider value,
    and create and clear a canvas of the configured size. The serialised
    default slider value is restricted to 1..100.
   */
  function InitData(canvas: Surface, texture: Texture, defaultSize: real): (r: View)
    requires canvas.Valid() && texture.Valid() && SliderMin <= defaultSize <= SliderMax
    ensures r.Valid()
    ensures !InStroke(r.engine)
    ensures r.stamps == []
    ensures r.canvas == canvas && r.texture == texture
    ensures r.brushSize == Remap(defaultSize, SizeAtSliderMin, SizeAtSliderMax)
    ensures r.engine.spacing * r.brushSize == Footprint(texture)
  {
    var v := View(canvas, texture, 0.0, Engine(0.0, Zero), []);
    SetBrushSize(v, defaultSize)
  }

  /** With the serialised defaults the brush size is 150 and a 64 x 64 texture is stamped every 64/150. */
  lemma InitDataDefaults()
    ensures InitData(DefaultCanvas, Texture(64, 64), DefaultBrushSize).brushSize == 150.0
    ensures InitData(DefaultCanvas, Texture(64, 64), DefaultBrushSize).engine.spacing == 64.0 / 150.0
  {
    var r := InitData(DefaultCanvas, Texture(64, 64), DefaultBrushSize);
    assert r.engine.spacing * 150.0 == 64.0;
  }

  /**
    `Paint(point)` on the canvas: nothing outside `[0, W] x [0, H]`, otherwise
    one stamp at the point's UV, inside the unit square.
   */
  function Paint(v: View, p: Vec): (r: View)
    requires v.canvas.Valid()
    ensures Rejects(v.canvas, p) ==> r.stamps == v.stamps
    ensures !Rejects(v.canvas, p) ==> r.stamps == v.stamps + [ToUv(v.canvas, p)]
    ensures !Rejects(v.canvas, p) ==> InUnitSquare(ToUv(v.canvas, p))
    ensures r.engine == v.engine
    ensures r.canvas == v.canvas && r.texture == v.texture && r.brushSize == v.brushSize
  {
    AcceptedIffUvInUnitSquare(v.canvas, p);
    v.(stamps := v.stamps + Coords.Paint(v.canvas, p))
  }

  /**
    `LerpPaint(point)` with `d` the distance from the last point: the stamps of
    the sample's attempts are appended, in order, after the existing ones, and
    the sample becomes the last point whether or not its stamp landed.
   */
  function LerpPaint(v: View, p: Vec, d: real): (r: View)
    requires v.Valid() && IsDistance(p, v.engine.last, d)
    ensures r.Valid()
    ensures r.engine.last == p && r.engine.spacing == v.engine.spacing
    ensures |v.stamps| <= |r.stamps| && r.stamps[..|v.stamps|] == v.stamps
    ensures |r.stamps| - |v.stamps| <= |Attempts(v.engine, p, d)|
    ensures forall k | |v.stamps| <= k < |r.stamps| :: InUnitSquare(r.stamps[k])
    ensures r.canvas == v.canvas && r.texture == v.texture && r.brushSize == v.brushSize
  {
    var uvs := Emit(v.canvas, Attempts(v.engine, p, d));
    EmittedInUnitSquare(v.canvas, Attempts(v.engine, p, d));
    assert (v.stamps + uvs)[..|v.stamps|] == v.stamps;
    v.(stamps := v.stamps + uvs, engine := v.engine.(last := p))
  }

  /**
    Inside a stroke, with the last point and the sample on the canvas, the new
    stamps are the sample's UV alone across a short gap; across a long one they
    are the sample's UV followed by the UV of each point `(i + 1)` spacings
    along the segment towards the sample, `floor(d / spacing)` of them.
   */
  lemma LerpPaintStamps(v: View, p: Vec, d: real)
    requires v.Valid() && IsDistance(p, v.engine.last, d) && InStroke(v.engine)
    requires !Rejects(v.canvas, v.engine.last) && !Rejects(v.canvas, p)
    ensures d <= v.engine.spacing ==> LerpPaint(v, p, d).stamps == v.stamps + [ToUv(v.canvas, p)]
    ensures d > v.engine.spacing ==>
      var r := LerpPaint(v, p, d);
      |r.stamps| == |v.stamps| + 1 + (d / v.engine.spacing).Floor && r.stamps[|v.stamps|] == ToUv(v.canvas, p)
    ensures d > v.engine.spacing ==>
      var r := LerpPaint(v, p, d);
      forall i | 0 <= i < (d / v.engine.spacing).Floor ::
        r.stamps[|v.stamps| + 1 + i] ==
          ToUv(v.canvas, Ray(v.engine.last, Direction(v.engine.last, p, d), Offset(i, v.engine.spacing)))
  {
    if d > v.engine.spacing {
      LongGapStamps(v.engine, v.canvas, p, d);
    } else {
      EmitSingle(v.canvas, p);
    }
  }

  /**
    A sample off the canvas at the start of a stroke composites nothing, yet it
    still becomes the last point, so the next sample interpolates from it.
   */
  lemma OffCanvasSampleStillAdvances(v: View, p: Vec, d: real)
    requires v.Valid() && IsDistance(p, v.engine.last, d)
    requires !InStroke(v.engine) && Rejects(v.canvas, p)
    ensures LerpPaint(v, p, d).stamps == v.stamps
    ensures LerpPaint(v, p, d).engine.last == p
  {
    EmitSingle(v.canvas, p);
  }

  /**
    The zero sentinel is also an ordinary position: a sample that lands exactly
    on the origin becomes the last point, so the stroke is cut there and the
    next sample is stamped on its own, however far away it is.
   */
  lemma SampleAtOriginCutsStroke(v: View, d: real, q: Vec, d2: real)
    requires v.Valid() && IsDistance(Zero, v.engine.last, d) && IsDistance(q, Zero, d2)
    ensures !InStroke(LerpPaint(v, Zero, d).engine)
    ensures LerpPaint(LerpPaint(v, Zero, d), q, d2).stamps == LerpPaint(v, Zero, d).stamps + Coords.Paint(v.canvas, q)
  {
    EmitSingle(v.canvas, q);
  }

  /**
    `DragEnd`: on release of the button the stroke is forgotten; otherwise
    nothing happens.
   */
  function DragEnd(v: View, buttonReleased: bool): (r: View)
    ensures buttonReleased ==> !InStroke(r.engine)
    ensures !buttonReleased ==> r == v
    ensures r.engine.spacing == v.engine.spacing && r.stamps == v.stamps
    ensures r.canvas == v.canvas && r.texture == v.texture && r.brushSize == v.brushSize
    ensures v.Valid() ==> r.Valid()
  {
    if buttonReleased then v.(engine := Reset(v.engine)) else v
  }

  /** A sample right after a release is a stroke start: only its own stamp, however far it is. */
  lemma ReleaseThenSample(v: View, p: Vec, d: real)
    requires v.Valid() && IsDistance(p, Zero, d)
    ensures LerpPaint(DragEnd(v, true), p, d).stamps == v.stamps + Coords.Paint(v.canvas, p)
  {
    EmitSingle(v.canvas, p);
  }

  /** The first sample after `InitData` is a stroke start on a clear canvas. */
  lemma InitThenSample(canvas: Surface, texture: Texture, defaultSize: real, p: Vec, d: real)
    requires canvas.Valid() && texture.Valid() && SliderMin <= defaultSize <= SliderMax
    requires IsDistance(p, Zero, d)
    ensures LerpPaint(InitData(canvas, texture, defaultSize), p, d).stamps == Coords.Paint(canvas, p)
  {
    EmitSingle(canvas, p);
  }

  /**
    Inside a stroke, with the last point and the sample on the canvas, a gap
    wider than the spacing adds `1 + floor(d / spacing)` stamps and a shorter
    one adds a single stamp.
   */
  lemma StrokeStampCount(v: View, p: Vec, d: real)
    requires v.Valid() && IsDistance(p, v.engine.last, d) && InStroke(v.engine)
    requires !Rejects(v.canvas, v.engine.last) && !Rejects(v.canvas, p)
    ensures d > v.engine.spacing ==>
      |LerpPaint(v, p, d).stamps| == |v.stamps| + 1 + (d / v.engine.spacing).Floor
    ensures d <= v.engine.spacing ==> |LerpPaint(v, p, d).stamps| == |v.stamps| + 1
  {
    AttemptCount(v.engine, p, d);
    AttemptsInBounds(v.engine, v.canvas, p, d);
  }
}
