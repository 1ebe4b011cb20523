/**
  The `PaintView` component: a screen-sized paint canvas, a brush whose size
  comes from a slider through `BrushSizeChanged`, and the stroke engine. Unlike
  `PaintViewTest`, the spacing is computed once, in `InitData`, for brush size
  300, and no later brush change touches it.

  The render texture is modelled by `stamps`, the UVs composited since the
  canvas was last cleared; materials, colours and the UI are not modelled.
 */
module PaintView {
  import opened Geometry
  import opened Coords
  import opened Brush
  import opened Stroke

  /** The brush size `InitData` starts from, and for which it computes the spacing. */
  const InitialBrushSize: real := 300.0

  /** `Remap` endpoints of `BrushSizeChanged`: slider 1 is size 300, slider 100 is size 30. */
  const SizeAtSliderMin: real := 300.0
  const SizeAtSliderMax: real := 30.0

  /**
    The component's state: screen size, brush texture, brush size, the stroke
    engine (`_brushLerpSize`, `_lastPoint`) and the composited stamps.
   */
  datatype View = View(screen: Surface, texture: Texture, brushSize: real, engine: Engine, stamps: seq<Vec>) {
    /** What every reachable state satisfies: the engine can interpolate. */
    predicate Valid() {
      screen.Valid() && texture.Valid() && engine.spacing > 0.0
    }
  }

  /**
    `InitData`: brush size 300, the spacing for the current texture at that
    size, no stroke, and a cleared canvas of the screen's size.
   */
  function InitData(screen: Surface, texture: Texture): (r: View)
    requires screen.Valid() && texture.Valid()
    ensures r.Valid()
    ensures r.brushSize == InitialBrushSize
    ensures r.engine.spacing * InitialBrushSize == Footprint(texture)
    ensures !InStroke(r.engine)
    ensures r.stamps == [] && r.screen == screen && r.texture == texture
  {
    View(screen, texture, InitialBrushSize, Engine(Spacing(texture, InitialBrushSize), Zero), [])
  }

  /** `SetBrushSize(size)` records the size and nothing else: the spacing is not recomputed. */
  function SetBrushSize(v: View, size: real): (r: View)
    ensures r.brushSize == size
    ensures r.engine == v.engine && r.texture == v.texture
    ensures r.screen == v.screen && r.stamps == v.stamps
    ensures v.Valid() ==> r.Valid()
  {
    v.(brushSize := size)
  }

  /** `SetBrushTexture(texture)` records the texture and nothing else. A loaded texture has positive dimensions. */
  function SetBrushTexture(v: View, t: Texture): (r: View)
    requires t.Valid()
    ensures r.texture == t
    ensures r.engine == v.engine && r.brushSize == v.brushSize
    ensures r.screen == v.screen && r.stamps == v.stamps
    ensures v.Valid() ==> r.Valid()
  {
    v.(texture := t)
  }

  /**
    `BrushSizeChanged(slider)`: the slider value is remapped onto sizes 300
    (value 1) down to 30 (value 100) and passed to `SetBrushSize`.
   */
  function BrushSizeChanged(v: View, value: real): (r: View)
    ensures value == SliderMin ==> r.brushSize == 300.0
    ensures value == SliderMax ==> r.brushSize == 30.0
    ensures r.engine == v.engine && r.texture == v.texture
    ensures r.screen == v.screen && r.stamps == v.stamps
  {
    SetBrushSize(v, Remap(value, SizeAtSliderMin, SizeAtSliderMax))
  }

  /** Slider values in [1, 100] give brush sizes in [30, 300]. */
  lemma BrushSizeSliderRange(v: View, value: real)
    requires SliderMin <= value <= SliderMax
    ensures SizeAtSliderMax <= BrushSizeChanged(v, value).brushSize <= SizeAtSliderMin
  {
    RemapWithinEndpoints(value, SizeAtSliderMin, SizeAtSliderMax);
  }

  /** Moving the slider by one unit shrinks the brush by 270/99. */
  lemma BrushSizeSlope(v: View, value: real)
    ensures BrushSizeChanged(v, value).brushSize - BrushSizeChanged(v, value + 1.0).brushSize == 270.0 / 99.0
  {
    RemapAffine(value, value + 1.0, SizeAtSliderMin, SizeAtSliderMax);
  }

  /** Each brush size in [30, 300] is reached from exactly one slider value, which lies in [1, 100]. */
  lemma BrushSizeFromSlider(v: View, size: real)
    requires SizeAtSliderMax <= size <= SizeAtSliderMin
    ensures var value := Unremap(size, SizeAtSliderMin, SizeAtSliderMax);
      SliderMin <= value <= SliderMax && BrushSizeChanged(v, value).brushSize == size
    ensures forall value :: BrushSizeChanged(v, value).brushSize == size ==>
      value == Unremap(size, SizeAtSliderMin, SizeAtSliderMax)
  {
    RemapRoundTrip(SliderMin, size, SizeAtSliderMin, SizeAtSliderMax);
    var value := Unremap(size, SizeAtSliderMin, SizeAtSliderMax);
    assert value == 1.0 + 99.0 * (size - 300.0) / -270.0;
    forall value' | BrushSizeChanged(v, value').brushSize == size
      ensures value' == Unremap(size, SizeAtSliderMin, SizeAtSliderMax)
    {
      RemapRoundTrip(value', size, SizeAtSliderMin, SizeAtSliderMax);
    }
  }

  /**
    `Paint(point)` on the screen-sized canvas: nothing outside
    `[0, screenW] x [0, screenH]`, otherwise one stamp at the point's UV,
    inside the unit square.
   */
  function Paint(v: View, p: Vec): (r: View)
    requires v.screen.Valid()
    ensures Rejects(v.screen, p) ==> r.stamps == v.stamps
    ensures !Rejects(v.screen, p) ==> r.stamps == v.stamps + [ToUv(v.screen, p)]
    ensures !Rejects(v.screen, p) ==> InUnitSquare(ToUv(v.screen, p))
    ensures r.engine == v.engine
    ensures r.screen == v.screen && r.texture == v.texture && r.brushSize == v.brushSize
  {
    AcceptedIffUvInUnitSquare(v.screen, p);
    v.(stamps := v.stamps + Coords.Paint(v.screen, p))
  }

  /**
    `LerpPaint(point)` with `d` the distance from the last point: the stamps of
    the sample's attempts are appended, in order, after the existing ones, and
    the sample becomes the last point whether or not its stamp landed.
   */
  function LerpPaint(v: View, p: Vec, d: real): (r: View)
    requires v.Valid() && IsDistance(p, v.engine.last, d)
    ensures r.Valid()
    ensures r.engine.last == p && r.engine.spacing == v.engine.spacing
    ensures |v.stamps| <= |r.stamps| && r.stamps[..|v.stamps|] == v.stamps
    ensures |r.stamps| - |v.stamps| <= |Attempts(v.engine, p, d)|
    ensures forall k | |v.stamps| <= k < |r.stamps| :: InUnitSquare(r.stamps[k])
    ensures r.screen == v.screen && r.texture == v.texture && r.brushSize == v.brushSize
  {
    var uvs := Emit(v.screen, Attempts(v.engine, p, d));
    EmittedInUnitSquare(v.screen, Attempts(v.engine, p, d));
    assert (v.stamps + uvs)[..|v.stamps|] == v.stamps;
    v.(stamps := v.stamps + uvs, engine := v.engine.(last := p))
  }

  /**
    Inside a stroke, with the last point and the sample on the screen, the new
    stamps are the sample's UV alone across a short gap; across a long one they
    are the sample's UV followed by the UV of each point `(i + 1)` spacings
    along the segment towards the sample, `floor(d / spacing)` of them.
   */
  lemma LerpPaintStamps(v: View, p: Vec, d: real)
    requires v.Valid() && IsDistance(p, v.engine.last, d) && InStroke(v.engine)
    requires !Rejects(v.screen, v.engine.last) && !Rejects(v.screen, p)
    ensures d <= v.engine.spacing ==> LerpPaint(v, p, d).stamps == v.stamps + [ToUv(v.screen, p)]
    ensures d > v.engine.spacing ==>
      var r := LerpPaint(v, p, d);
      |r.stamps| == |v.stamps| + 1 + (d / v.engine.spacing).Floor && r.stamps[|v.stamps|] == ToUv(v.screen, p)
    ensures d > v.engine.spacing ==>
      var r := LerpPaint(v, p, d);
      forall i | 0 <= i < (d / v.engine.spacing).Floor ::
        r.stamps[|v.stamps| + 1 + i] ==
          ToUv(v.screen, Ray(v.engine.last, Direction(v.engine.last, p, d), Offset(i, v.engine.spacing)))
  {
    if d > v.engine.spacing {
      LongGapStamps(v.engine, v.screen, p, d);
    } else {
      EmitSingle(v.screen, p);
    }
  }

  /**
    A sample that lands exactly on the origin becomes the last point, which is
    the "no stroke" sentinel: the next sample is stamped on its own.
   */
  lemma SampleAtOriginCutsStroke(v: View, d: real, q: Vec, d2: real)
    requires v.Valid() && IsDistance(Zero, v.engine.last, d) && IsDistance(q, Zero, d2)
    ensures !InStroke(LerpPaint(v, Zero, d).engine)
    ensures LerpPaint(LerpPaint(v, Zero, d), q, d2).stamps == LerpPaint(v, Zero, d).stamps + Coords.Paint(v.screen, q)
  {
    EmitSingle(v.screen, q);
  }

  /** `DragEnd`: on release of the button the stroke is forgotten; otherwise nothing happens. */
  function DragEnd(v: View, buttonReleased: bool): (r: View)
    ensures buttonReleased ==> !InStroke(r.engine)
    ensures !buttonReleased ==> r == v
    ensures r.engine.spacing == v.engine.spacing && r.stamps == v.stamps
    ensures r.screen == v.screen && r.texture == v.texture && r.brushSize == v.brushSize
    ensures v.Valid() ==> r.Valid()
  {
    if buttonReleased then v.(engine := Reset(v.engine)) else v
  }

  /** A sample right after a release is a stroke start: only its own stamp, however far it is. */
  lemma ReleaseThenSample(v: View, p: Vec, d: real)
    requires v.Valid() && IsDistance(p, Zero, d)
    ensures LerpPaint(DragEnd(v, true), p, d).stamps == v.stamps + Coords.Paint(v.screen, p)
  {
    EmitSingle(v.screen, p);
  }

  /** A texture as the engine receives it: loaded, so with positive dimensions. */
  type LoadedTexture = t: Texture | t.Valid() witness Texture(1, 1)

  /** The configuration and input events that can reach the component between samples. */
  datatype Event =
    | SizeSet(size: real)
    | SliderMoved(value: real)
    | TextureSet(texture: LoadedTexture)
    | Released(buttonUp: bool)

  /**
    One event, applied by the operation it stands for. No event touches the
    spacing, the canvas or the screen size.
   */
  function Apply(v: View, ev: Event): (r: View)
    ensures r.engine.spacing == v.engine.spacing
    ensures r.stamps == v.stamps && r.screen == v.screen
    ensures v.Valid() ==> r.Valid()
  {
    match ev
    case SizeSet(size) => SetBrushSize(v, size)
    case SliderMoved(value) => BrushSizeChanged(v, value)
    case TextureSet(t) => SetBrushTexture(v, t)
    case Released(up) => DragEnd(v, up)
  }

  /** Applies events in order. */
  function Replay(v: View, events: seq<Event>): View
    decreases |events|
  {
    if events == [] then v else Replay(Apply(v, events[0]), events[1..])
  }

  /**
    The spacing never leaves its `InitData` value: whatever brush sizes,
    slider moves, textures and releases follow, the stamps stay spaced as
    before, and the canvas is untouched.
   */
  lemma {:induction false} SpacingFixedAfterInit(v: View, events: seq<Event>)
    requires v.Valid()
    decreases |events|
    ensures Replay(v, events).Valid()
    ensures Replay(v, events).engine.spacing == v.engine.spacing
    ensures Replay(v, events).stamps == v.stamps && Replay(v, events).screen == v.screen
  {
    if events != [] {
      SpacingFixedAfterInit(Apply(v, events[0]), events[1..]);
    }
  }

  /** In particular, starting from `InitData` the spacing is the footprint of the initial texture over 300. */
  lemma SpacingAfterInit(screen: Surface, texture: Texture, events: seq<Event>)
    requires screen.Valid() && texture.Valid()
    ensures Replay(InitData(screen, texture), events).engine.spacing == Spacing(texture, InitialBrushSize)
  {
    SpacingFixedAfterInit(InitData(screen, texture), events);
  }

  /**
    The spacing goes stale: after `InitData` with a 64 x 64 texture and the
    slider at 100 (size 30), stamps are still 64/300 apart although a spacing
    for the new size would be 64/30.
   */
  lemma StaleSpacingExample(screen: Surface)
    requires screen.Valid()
    ensures var r := BrushSizeChanged(InitData(screen, Texture(64, 64)), SliderMax);
      r.brushSize == 30.0 && r.engine.spacing == 64.0 / 300.0 && r.engine.spacing != Spacing(Texture(64, 64), r.brushSize)
  {
    var r := BrushSizeChanged(InitData(screen, Texture(64, 64)), SliderMax);
    assert r.engine.spacing * 300.0 == 64.0;
    assert Spacing(Texture(64, 64), 30.0) * 30.0 == 64.0;
  }

  /** The first sample after `InitData` is a stroke start on a clear canvas. */
  lemma InitThenSample(screen: Surface, texture: Texture, p: Vec, d: real)
    requires screen.Valid() && texture.Valid() && IsDistance(p, Zero, d)
    ensures LerpPaint(InitData(screen, texture), p, d).stamps == Coords.Paint(screen, p)
  {
    EmitSingle(screen, p);
  }

  /**
    Inside a stroke, with the last point and the sample on the screen, a gap
    wider than the spacing adds `1 + floor(d / spacing)` stamps and a shorter
    one adds a single stamp.
   */
  lemma StrokeStampCount(v: View, p: Vec, d: real)
    requires v.Valid() && IsDistance(p, v.engine.last, d) && InStroke(v.engine)
    requires !Rejects(v.screen, v.engine.last) && !Rejects(v.screen, p)
    ensures d > v.engine.spacing ==>
      |LerpPaint(v, p, d).stamps| == |v.stamps| + 1 + (d / v.engine.spacing).Floor
    ensures d <= v.engine.spacing ==> |LerpPaint(v, p, d).stamps| == |v.stamps| + 1
  {
    AttemptCount(v.engine, p, d);
    AttemptsInBounds(v.engine, v.screen, p, d);
  }
}
