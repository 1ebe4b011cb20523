/**
  The coordinate mapper and the single-stamp operation `Paint`.

  A `Surface` is the rectangle stamps may land on: the paint canvas
  (`_paintCanvasWidth` x `_paintCanvasHeight`) in `PaintViewTest`, the screen
  (`_screenWidth` x `_screenHeight`) in `PaintView`. Compositing a stamp onto
  the render texture is modelled by emitting the stamp's UV coordinate; a
  sequence of emitted UVs is the log of compositor calls.
 */
module Coords {
  import opened Geometry

  datatype Surface = Surface(width: int, height: int) {
    /** A render texture always has positive dimensions. */
    predicate Valid() {
      width > 0 && height > 0
    }
  }

  /** The hard bounds check at the top of `Paint`: such a point is dropped. */
  predicate Rejects(s: Surface, p: Vec) {
    p.x < 0.0 || p.x > s.width as real || p.y < 0.0 || p.y > s.height as real
  }

  predicate InUnitSquare(uv: Vec) {
    0.0 <= uv.x <= 1.0 && 0.0 <= uv.y <= 1.0
  }

  /** Surface coordinates to UV coordinates. */
  function ToUv(s: Surface, p: Vec): Vec
    requires s.Valid()
  {
    Vec(p.x / s.width as real, p.y / s.height as real)
  }

  /** UV coordinates back to surface coordinates. */
  function FromUv(s: Surface, uv: Vec): Vec {
    Vec(uv.x * s.width as real, uv.y * s.height as real)
  }

  /** The UV mapping loses nothing: mapping back recovers the point. */
  lemma UvRoundTrip(s: Surface, p: Vec)
    requires s.Valid()
    ensures FromUv(s, ToUv(s, p)) == p
  {
  }

  /** A point passes the bounds check exactly when its UV lies in the unit square. */
  lemma AcceptedIffUvInUnitSquare(s: Surface, p: Vec)
    requires s.Valid()
    ensures !Rejects(s, p) <==> InUnitSquare(ToUv(s, p))
  {
    var w, h := s.width as real, s.height as real;
    assert p.x / w <= 1.0 <==> p.x <= w;
    assert p.y / h <= 1.0 <==> p.y <= h;
  }

  /**
    One stamp attempt: nothing for a rejected point, otherwise the UV of the
    point, which lies in the unit square and maps back to the point.
   */
  function Paint(s: Surface, p: Vec): (r: seq<Vec>)
    requires s.Valid()
    ensures |r| <= 1
    ensures |r| == 0 <==> Rejects(s, p)
    ensures |r| == 1 ==> InUnitSquare(r[0]) && FromUv(s, r[0]) == p
  {
    if Rejects(s, p) then
      []
    else
      AcceptedIffUvInUnitSquare(s, p);
      UvRoundTrip(s, p);
      [ToUv(s, p)]
  }

  /**
    The compositor calls made by a sequence of stamp attempts, in order: the
    UV of each attempt that passes the bounds check (`AcceptedIsEmitted`,
    `EmitOrderPreserved`, `EmittedComeFromAttempts`).
   */
  function Emit(s: Surface, pts: seq<Vec>): (r: seq<Vec>)
    requires s.Valid()
    ensures |r| <= |pts|
  {
    if pts == [] then [] else Paint(s, pts[0]) + Emit(s, pts[1..])
  }

  /** Every compositor call stamps at a UV inside the unit square. */
  lemma {:induction false} EmittedInUnitSquare(s: Surface, pts: seq<Vec>)
    requires s.Valid()
    ensures forall k | 0 <= k < |Emit(s, pts)| :: InUnitSquare(Emit(s, pts)[k])
  {
    if pts != [] {
      EmittedInUnitSquare(s, pts[1..]);
      var head := Paint(s, pts[0]);
      var tail := Emit(s, pts[1..]);
      assert Emit(s, pts) == head + tail;
      forall k | 0 <= k < |head + tail|
        ensures InUnitSquare((head + tail)[k])
      {
        if k >= |head| {
          assert (head + tail)[k] == tail[k - |head|];
        }
      }
    }
  }

  /** Each emitted UV comes from one of the attempted points. */
  lemma {:induction false} EmittedComeFromAttempts(s: Surface, pts: seq<Vec>)
    requires s.Valid()
    ensures forall uv | uv in Emit(s, pts) ::
      exists i :: 0 <= i < |pts| && pts[i] == FromUv(s, uv) && !Rejects(s, pts[i])
  {
    if pts != [] {
      EmittedComeFromAttempts(s, pts[1..]);
      forall uv | uv in Emit(s, pts)
        ensures exists i :: 0 <= i < |pts| && pts[i] == FromUv(s, uv) && !Rejects(s, pts[i])
      {
        if uv in Paint(s, pts[0]) {
          assert pts[0] == FromUv(s, uv);
        } else {
          assert uv in Emit(s, pts[1..]);
          var j :| 0 <= j < |pts[1..]| && pts[1..][j] == FromUv(s, uv) && !Rejects(s, pts[1..][j]);
          assert pts[j + 1] == FromUv(s, uv);
        }
      }
    }
  }

  /** Emitting two batches in turn is emitting their concatenation. */
  lemma {:induction false} EmitAppend(s: Surface, a: seq<Vec>, b: seq<Vec>)
    requires s.Valid()
    ensures Emit(s, a + b) == Emit(s, a) + Emit(s, b)
  {
    if a == [] {
      assert a + b == b;
    } else {
      assert (a + b)[1..] == a[1..] + b;
      EmitAppend(s, a[1..], b);
    }
  }

  /** Emitting one more attempt appends that attempt's `Paint`. */
  lemma EmitSnoc(s: Surface, pts: seq<Vec>, q: Vec)
    requires s.Valid()
    ensures Emit(s, pts + [q]) == Emit(s, pts) + Paint(s, q)
  {
    EmitAppend(s, pts, [q]);
    assert [q][1..] == [];
  }

  /**
    Every attempt that passes the bounds check is composited, whatever the
    other attempts do: the attempt at index `i` is the call right after those
    of the attempts before it.
   */
  lemma AcceptedIsEmitted(s: Surface, pts: seq<Vec>, i: int)
    requires s.Valid() && 0 <= i < |pts| && !Rejects(s, pts[i])
    ensures |Emit(s, pts[..i])| < |Emit(s, pts)|
    ensures Emit(s, pts)[|Emit(s, pts[..i])|] == ToUv(s, pts[i])
  {
    assert pts == pts[..i + 1] + pts[i + 1..];
    assert pts[..i + 1] == pts[..i] + [pts[i]];
    EmitAppend(s, pts[..i + 1], pts[i + 1..]);
    EmitSnoc(s, pts[..i], pts[i]);
  }

  /**
    The calls keep the order of the attempts: an accepted attempt is
    composited before anything an attempt after it contributes.
   */
  lemma EmitOrderPreserved(s: Surface, pts: seq<Vec>, i: int, j: int)
    requires s.Valid() && 0 <= i < j <= |pts| && !Rejects(s, pts[i])
    ensures |Emit(s, pts[..i])| < |Emit(s, pts[..j])|
  {
    var q := pts[..j];
    assert q[..i] == pts[..i];
    AcceptedIsEmitted(s, q, i);
  }

  /** When no attempt is rejected, the k-th call stamps the k-th point's UV. */
  lemma {:induction false} EmitInBounds(s: Surface, pts: seq<Vec>)
    requires s.Valid()
    requires forall i | 0 <= i < |pts| :: !Rejects(s, pts[i])
    ensures |Emit(s, pts)| == |pts|
    ensures forall k | 0 <= k < |pts| :: Emit(s, pts)[k] == ToUv(s, pts[k])
  {
    if pts != [] {
      EmitInBounds(s, pts[1..]);
    }
  }
}
