/**
  The stroke interpolator (`LerpPaint`), shared by both painting views.

  The engine remembers the last sampled point; `Vector2.zero` stands for "no
  stroke in progress". Each new sample is stamped, and when a stroke is in
  progress and the sample lies more than one spacing away from the last one,
  `floor(distance / spacing)` evenly spaced intermediate stamps are inserted
  along the segment. The last point then becomes the new sample, whether or
  not its stamp was dropped by the bounds check.
 */
module Stroke {
  import opened RealArith
  import opened Geometry
  import opened Coords

  /** `_brushLerpSize` and `_lastPoint`. */
  datatype Engine = Engine(spacing: real, last: Vec)

  /** A stroke is in progress unless the last point is the zero sentinel. */
  predicate InStroke(e: Engine) {
    e.last != Zero
  }

  /** Forgetting the last point, as on button release or initialisation. */
  function Reset(e: Engine): Engine {
    e.(last := Zero)
  }

  /** How far the i-th intermediate lies from the last point: `(i + 1)` spacings. */
  function Offset(i: int, spacing: real): real {
    (i + 1) as real * spacing
  }

  /** Consecutive offsets differ by one spacing. */
  lemma OffsetStep(i: int, spacing: real)
    ensures Offset(i + 1, spacing) == Offset(i, spacing) + spacing
  {
    var k := (i + 1) as real;
    assert (i + 2) as real == k + 1.0;
    NextMultiple(k, spacing);
  }

  /** Offsets grow with the index. */
  lemma OffsetBounds(i: int, j: int, spacing: real)
    requires 0 <= i <= j && spacing > 0.0
    ensures 0.0 < Offset(i, spacing) <= Offset(j, spacing)
  {
    var a, b := (i + 1) as real, (j + 1) as real;
    var e := b - a;
    assert e * spacing >= 0.0;
    assert a * spacing > 0.0;
  }

  /**
    The number of intermediate stamps, `(int)(dis / _brushLerpSize)`; the cast
    truncates, which is the floor for the positive quotient. It is the number
    of whole spacings that fit into the distance: the last intermediate stays
    within the gap and one more would overshoot it.
   */
  function IntermediateCount(d: real, spacing: real): (n: nat)
    requires 0.0 < spacing < d
    ensures n >= 1
    ensures Offset(n - 1, spacing) <= d < Offset(n, spacing)
  {
    var q := d / spacing;
    DivMulCancel(d, spacing);
    Bracket(q.Floor as real, q, spacing, d);
    OffsetStep(q.Floor - 1, spacing);
    assert q > 1.0;
    q.Floor
  }

  /** The unit direction from the last point towards the sample, `(p - last).normalized`. */
  function Direction(last: Vec, p: Vec, d: real): Vec
    requires d > 0.0
  {
    Normalized(Sub(p, last), d)
  }

  /** The i-th intermediate point, `last + dir * (i + 1) * spacing`. */
  function Intermediate(last: Vec, p: Vec, d: real, spacing: real, i: int): Vec
    requires d > 0.0
  {
    Add(last, Scale(Scale(Direction(last, p, d), (i + 1) as real), spacing))
  }

  /** The intermediate points of one long gap, in the order they are stamped. */
  function Intermediates(last: Vec, p: Vec, d: real, spacing: real): (r: seq<Vec>)
    requires 0.0 < spacing < d
  {
    seq(IntermediateCount(d, spacing), i => Intermediate(last, p, d, spacing, i))
  }

  /**
    The points one sample tries to stamp, in order: the sample itself, then,
    inside a stroke and across a gap wider than the spacing, the
    intermediates. Each attempt still goes through the bounds check of `Paint`.
   */
  function Attempts(e: Engine, p: Vec, d: real): seq<Vec>
    requires e.spacing > 0.0
  {
    if e.last == Zero then
      [p]
    else if d > e.spacing then
      [p] + Intermediates(e.last, p, d, e.spacing)
    else
      [p]
  }

  /**
    `LerpPaint` as the source writes it, one `Paint` per loop iteration. It
    emits exactly the compositor calls of `Attempts` and always moves the
    last point to the sample, keeping the spacing. The loop relies only on `d`,
    the distance from the last point, being non-negative.
   */
  method LerpPaint(e: Engine, s: Surface, p: Vec, d: real) returns (uvs: seq<Vec>, next: Engine)
    requires s.Valid() && e.spacing > 0.0 && d >= 0.0
    ensures uvs == Emit(s, Attempts(e, p, d))
    ensures next.last == p && next.spacing == e.spacing
  {
    uvs := Paint(s, p);
    EmitSingle(s, p);
    if e.last != Zero && d > e.spacing {
      var more := StampIntermediates(s, e.last, p, d, e.spacing);
      EmitAppend(s, [p], Intermediates(e.last, p, d, e.spacing));
      uvs := uvs + more;
    }
    next := e.(last := p);
  }

  /** The loop of `LerpPaint`: one `Paint` per intermediate point, in order. */
  method StampIntermediates(s: Surface, last: Vec, p: Vec, d: real, spacing: real) returns (uvs: seq<Vec>)
    requires s.Valid() && 0.0 < spacing < d
    ensures uvs == Emit(s, Intermediates(last, p, d, spacing))
  {
    var dir := Normalized(Sub(p, last), d);
    var num := IntermediateCount(d, spacing);
    ghost var mids := Intermediates(last, p, d, spacing);
    uvs := [];
    var i := 0;
    while i < num
      invariant 0 <= i <= num
      invariant uvs == Emit(s, mids[..i])
    {
      var newPoint := Add(last, Scale(Scale(dir, (i + 1) as real), spacing));
      assert newPoint == mids[i];
      assert mids[..i + 1] == mids[..i] + [mids[i]];
      EmitSnoc(s, mids[..i], mids[i]);
      uvs := uvs + Paint(s, newPoint);
      i := i + 1;
    }
    assert mids[..num] == mids;
  }

  lemma EmitSingle(s: Surface, p: Vec)
    requires s.Valid()
    ensures Emit(s, [p]) == Paint(s, p)
  {
    assert [p][1..] == [];
  }

  /**
    One attempt for the sample, plus `floor(d / spacing) >= 1` more exactly
    when a stroke is in progress and the gap is wider than the spacing.
   */
  lemma AttemptCount(e: Engine, p: Vec, d: real)
    requires e.spacing > 0.0 && IsDistance(p, e.last, d)
    ensures Attempts(e, p, d)[0] == p
    ensures !InStroke(e) ==> Attempts(e, p, d) == [p]
    ensures InStroke(e) && d <= e.spacing ==> Attempts(e, p, d) == [p]
    ensures InStroke(e) && d > e.spacing ==>
      (d / e.spacing).Floor >= 1 && |Attempts(e, p, d)| == 1 + (d / e.spacing).Floor
  {
  }

  /** The i-th intermediate lies `Offset(i)` along the direction from the last point. */
  lemma IntermediateOnRay(last: Vec, p: Vec, d: real, spacing: real, i: int)
    requires d > 0.0
    ensures Intermediate(last, p, d, spacing, i) == Ray(last, Direction(last, p, d), Offset(i, spacing))
  {
    ScaleScale(Direction(last, p, d), (i + 1) as real, spacing);
  }

  /** The direction is a unit vector, and going the whole gap along it reaches the sample. */
  lemma SampleOnRay(last: Vec, p: Vec, d: real)
    requires IsDistance(p, last, d) && d > 0.0
    ensures SqLen(Direction(last, p, d)) == 1.0
    ensures Ray(last, Direction(last, p, d), d) == p
  {
    NormalizedIsUnit(Sub(p, last), d);
    NormalizedRayArrives(last, p, d);
  }

  /** A point `g` along the direction towards the sample is `g` away from the last point. */
  lemma RayFromLast(last: Vec, p: Vec, d: real, g: real)
    requires IsDistance(p, last, d) && d > 0.0 && g >= 0.0
    ensures IsDistance(Ray(last, Direction(last, p, d), g), last, g)
  {
    var dir := Direction(last, p, d);
    SampleOnRay(last, p, d);
    RayDistance(last, dir, 0.0, g, g);
    RayStart(last, dir);
  }

  /**
    Every intermediate lies on the segment from the last point to the sample:
    `Offset(i)` along the direction towards the sample, more than 0 and at
    most the gap `d`, and exactly that far from the last point.
   */
  lemma IntermediateOnSegment(last: Vec, p: Vec, d: real, spacing: real, i: nat)
    requires IsDistance(p, last, d) && 0.0 < spacing < d
    requires i < IntermediateCount(d, spacing)
    ensures 0.0 < Offset(i, spacing) <= d
    ensures Intermediates(last, p, d, spacing)[i] == Ray(last, Direction(last, p, d), Offset(i, spacing))
    ensures IsDistance(Intermediates(last, p, d, spacing)[i], last, Offset(i, spacing))
  {
    var n := IntermediateCount(d, spacing);
    OffsetBounds(i, n - 1, spacing);
    IntermediateOnRay(last, p, d, spacing, i);
    RayFromLast(last, p, d, Offset(i, spacing));
  }

  /** The first intermediate is one spacing from the last point. */
  lemma FirstIntermediateOneSpacing(last: Vec, p: Vec, d: real, spacing: real)
    requires IsDistance(p, last, d) && 0.0 < spacing < d
    ensures IsDistance(Intermediates(last, p, d, spacing)[0], last, spacing)
  {
    IntermediateOnSegment(last, p, d, spacing, 0);
  }

  /** Each intermediate is one spacing further on than the one before. */
  lemma IntermediatesEvenlySpaced(last: Vec, p: Vec, d: real, spacing: real, i: nat)
    requires IsDistance(p, last, d) && 0.0 < spacing < d
    requires i + 1 < IntermediateCount(d, spacing)
    ensures var mids := Intermediates(last, p, d, spacing);
      IsDistance(mids[i + 1], mids[i], spacing)
  {
    OffsetStep(i, spacing);
    IntermediateOnRay(last, p, d, spacing, i);
    IntermediateOnRay(last, p, d, spacing, i + 1);
    SampleOnRay(last, p, d);
    RayDistance(last, Direction(last, p, d), Offset(i, spacing), Offset(i + 1, spacing), spacing);
  }

  /**
    The last intermediate sits `n` spacings from the last point; what remains
    from there to the sample is shorter than one spacing.
   */
  lemma FinalGapBelowSpacing(last: Vec, p: Vec, d: real, spacing: real, n: nat)
    requires IsDistance(p, last, d) && 0.0 < spacing < d
    requires n == IntermediateCount(d, spacing)
    ensures 0.0 <= d - Offset(n - 1, spacing) < spacing
    ensures IsDistance(p, Intermediates(last, p, d, spacing)[n - 1], d - Offset(n - 1, spacing))
  {
    var g := Offset(n - 1, spacing);
    OffsetStep(n - 1, spacing);
    IntermediateOnRay(last, p, d, spacing, n - 1);
    SampleOnRay(last, p, d);
    RayDistance(last, Direction(last, p, d), g, d, d - g);
  }

  /**
    The points a stroke passes through on one sample, in spatial order: the
    previous point, the intermediates and the sample.
   */
  function Trail(e: Engine, p: Vec, d: real): seq<Vec>
    requires e.spacing > 0.0
  {
    if d > e.spacing then [e.last] + Intermediates(e.last, p, d, e.spacing) + [p]
    else [e.last, p]
  }

  /**
    Inside a stroke, no two consecutive points of the trail are more than one
    spacing apart: the interpolation leaves no gap wider than the spacing.
   */
  lemma TrailGapFree(e: Engine, p: Vec, d: real)
    requires e.spacing > 0.0 && IsDistance(p, e.last, d) && InStroke(e)
    ensures var trail := Trail(e, p, d);
      forall k | 0 <= k < |trail| - 1 :: SqLen(Sub(trail[k + 1], trail[k])) <= e.spacing * e.spacing
  {
    var trail := Trail(e, p, d);
    var L := e.spacing;
    if d > L {
      var mids := Intermediates(e.last, p, d, L);
      var n := |mids|;
      assert n == IntermediateCount(d, L);
      forall k | 0 <= k < |trail| - 1
        ensures SqLen(Sub(trail[k + 1], trail[k])) <= L * L
      {
        if k == 0 {
          FirstGap(e.last, p, d, L);
          assert trail[0] == e.last && trail[1] == mids[0];
        } else if k < n {
          MiddleGap(e.last, p, d, L, k - 1);
          assert trail[k] == mids[k - 1] && trail[k + 1] == mids[k];
        } else {
          LastGap(e.last, p, d, L, n);
          assert trail[k] == mids[n - 1] && trail[k + 1] == p;
        }
      }
    } else {
      WithinSpacing(p, e.last, d, L);
    }
  }

  lemma FirstGap(last: Vec, p: Vec, d: real, spacing: real)
    requires IsDistance(p, last, d) && 0.0 < spacing < d
    ensures SqLen(Sub(Intermediates(last, p, d, spacing)[0], last)) <= spacing * spacing
  {
    FirstIntermediateOneSpacing(last, p, d, spacing);
    WithinSpacing(Intermediates(last, p, d, spacing)[0], last, spacing, spacing);
  }

  lemma MiddleGap(last: Vec, p: Vec, d: real, spacing: real, i: nat)
    requires IsDistance(p, last, d) && 0.0 < spacing < d
    requires i + 1 < IntermediateCount(d, spacing)
    ensures var mids := Intermediates(last, p, d, spacing);
      SqLen(Sub(mids[i + 1], mids[i])) <= spacing * spacing
  {
    var mids := Intermediates(last, p, d, spacing);
    IntermediatesEvenlySpaced(last, p, d, spacing, i);
    WithinSpacing(mids[i + 1], mids[i], spacing, spacing);
  }

  lemma LastGap(last: Vec, p: Vec, d: real, spacing: real, n: nat)
    requires IsDistance(p, last, d) && 0.0 < spacing < d
    requires n == IntermediateCount(d, spacing)
    ensures SqLen(Sub(p, Intermediates(last, p, d, spacing)[n - 1])) <= spacing * spacing
  {
    FinalGapBelowSpacing(last, p, d, spacing, n);
    WithinSpacing(p, Intermediates(last, p, d, spacing)[n - 1], d - Offset(n - 1, spacing), spacing);
  }

  lemma WithinSpacing(a: Vec, b: Vec, g: real, spacing: real)
    requires IsDistance(a, b, g) && g <= spacing
    ensures SqLen(Sub(a, b)) <= spacing * spacing
  {
    SquareLe(g, spacing);
  }

  /** A rectangle is convex: a point on the way between two accepted points is accepted. */
  lemma RayInBounds(s: Surface, a: Vec, u: Vec, g: real, d: real)
    requires !Rejects(s, a) && !Rejects(s, Ray(a, u, d)) && 0.0 <= g <= d
    ensures !Rejects(s, Ray(a, u, g))
  {
    Between(a.x, u.x, g, d, 0.0, s.width as real);
    Between(a.y, u.y, g, d, 0.0, s.height as real);
  }

  /**
    When the last point and the sample both lie on the surface, none of the
    sample's attempts is dropped: every one becomes a compositor call, at the
    attempt's own UV.
   */
  lemma AttemptsInBounds(e: Engine, s: Surface, p: Vec, d: real)
    requires s.Valid() && e.spacing > 0.0 && IsDistance(p, e.last, d)
    requires !Rejects(s, e.last) && !Rejects(s, p)
    ensures |Emit(s, Attempts(e, p, d))| == |Attempts(e, p, d)|
    ensures forall k | 0 <= k < |Attempts(e, p, d)| ::
      Emit(s, Attempts(e, p, d))[k] == ToUv(s, Attempts(e, p, d)[k])
  {
    var att := Attempts(e, p, d);
    forall j | 0 <= j < |att|
      ensures !Rejects(s, att[j])
    {
      if j > 0 {
        var i := j - 1;
        IntermediateOnSegment(e.last, p, d, e.spacing, i);
        SampleOnRay(e.last, p, d);
        RayInBounds(s, e.last, Direction(e.last, p, d), Offset(i, e.spacing), d);
      }
    }
    EmitInBounds(s, att);
  }

  /**
    Across a long gap inside a stroke, with both ends on the surface, the
    compositor calls are the sample's UV followed, in order, by the UV of the
    point `(i + 1)` spacings along the direction towards the sample, for each
    of the `floor(d / spacing)` intermediates.
   */
  lemma LongGapStamps(e: Engine, s: Surface, p: Vec, d: real)
    requires s.Valid() && IsDistance(p, e.last, d) && InStroke(e) && 0.0 < e.spacing < d
    requires !Rejects(s, e.last) && !Rejects(s, p)
    ensures var uvs := Emit(s, Attempts(e, p, d));
      |uvs| == 1 + (d / e.spacing).Floor && uvs[0] == ToUv(s, p)
    ensures var uvs := Emit(s, Attempts(e, p, d));
      forall i | 0 <= i < (d / e.spacing).Floor ::
        uvs[1 + i] == ToUv(s, Ray(e.last, Direction(e.last, p, d), Offset(i, e.spacing)))
  {
    var att := Attempts(e, p, d);
    var mids := Intermediates(e.last, p, d, e.spacing);
    AttemptCount(e, p, d);
    AttemptsInBounds(e, s, p, d);
    forall i | 0 <= i < (d / e.spacing).Floor
      ensures Emit(s, att)[1 + i] == ToUv(s, Ray(e.last, Direction(e.last, p, d), Offset(i, e.spacing)))
    {
      assert att[1 + i] == mids[i];
      IntermediateOnRay(e.last, p, d, e.spacing, i);
    }
  }

  /** After a reset the next sample is a stroke start: a single attempt, no interpolation. */
  lemma ResetNeverInterpolates(e: Engine, p: Vec, d: real)
    requires e.spacing > 0.0
    ensures Attempts(Reset(e), p, d) == [p]
    ensures !InStroke(Reset(e)) && Reset(e).spacing == e.spacing
  {
  }

  /**
    The sentinel is an ordinary point as a sample: going from (4, 0) to the
    origin with spacing 2 makes the sample's attempt and two intermediates.
    The engine's last point is then the sentinel, so the stroke is cut there
    and the next sample is not interpolated (`SampleAtOriginCutsStroke` in
    each view).
   */
  lemma StrokeIntoOrigin()
    ensures |Attempts(Engine(2.0, Vec(4.0, 0.0)), Zero, 4.0)| == 3
  {
    var n := IntermediateCount(4.0, 2.0);
    assert 4.0 / 2.0 == 2.0;
    assert n == 2;
    assert |Intermediates(Vec(4.0, 0.0), Zero, 4.0, 2.0)| == 2;
  }

  /**
    A worked stroke on a 300 x 300 surface with spacing 2: a fresh stroke at
    (10, 10), then a sample at (10, 100), 90 units away, makes 1 + (1 + 45)
    compositor calls.
   */
  lemma StrokeExample(d0: real)
    requires d0 >= 0.0
    ensures var s := Surface(300, 300);
      var e0 := Engine(2.0, Zero);
      var a := Vec(10.0, 10.0);
      var b := Vec(10.0, 100.0);
      var e1 := e0.(last := a);
      IsDistance(b, a, 90.0) &&
      |Emit(s, Attempts(e0, a, d0))| + |Emit(s, Attempts(e1, b, 90.0))| == 47
  {
    var s := Surface(300, 300);
    var a := Vec(10.0, 10.0);
    var b := Vec(10.0, 100.0);
    var e1 := Engine(2.0, a);
    assert IsDistance(b, a, 90.0);
    assert (90.0 / 2.0).Floor == 45;
    AttemptsInBounds(e1, s, b, 90.0);
    assert |Attempts(e1, b, 90.0)| == 46;
  }
}
