/**
  Plane geometry over exact reals, standing in for Unity's `Vector2`.

  Euclidean distance needs a square root, which the reals of this model do not
  have; instead `IsDistance(a, b, d)` characterises `d` as the distance from
  `a` to `b` (non-negative, and its square is the squared length of `a - b`).
  Every operation that needs `Vector2.Distance` receives such a `d`.
 */
module Geometry {
  import opened RealArith

  datatype Vec = Vec(x: real, y: real)

  /** `Vector2.zero`; the stroke engine also uses it as its "no stroke" sentinel. */
  const Zero: Vec := Vec(0.0, 0.0)

  function Add(a: Vec, b: Vec): Vec {
    Vec(a.x + b.x, a.y + b.y)
  }

  function Sub(a: Vec, b: Vec): Vec {
    Vec(a.x - b.x, a.y - b.y)
  }

  function Scale(v: Vec, k: real): Vec {
    Vec(v.x * k, v.y * k)
  }

  function SqLen(v: Vec): real {
    v.x * v.x + v.y * v.y
  }

  /** `d` is the Euclidean distance between `a` and `b`. */
  ghost predicate IsDistance(a: Vec, b: Vec, d: real) {
    d >= 0.0 && d * d == SqLen(Sub(a, b))
  }

  /** `v.normalized` for a vector whose length `len` is known to be positive. */
  function Normalized(v: Vec, len: real): Vec
    requires len > 0.0
  {
    Scale(v, 1.0 / len)
  }

  /** The point reached from `a` after going `g` units along the unit vector `u`. */
  function Ray(a: Vec, u: Vec, g: real): Vec {
    Add(a, Scale(u, g))
  }

  /** The distance is symmetric. */
  lemma DistanceSymmetric(a: Vec, b: Vec, d: real)
    ensures IsDistance(a, b, d) <==> IsDistance(b, a, d)
  {
    assert SqLen(Sub(a, b)) == SqLen(Sub(b, a));
  }

  /** The characterisation pins the distance down: at most one `d` fits. */
  lemma DistanceUnique(a: Vec, b: Vec, d1: real, d2: real)
    requires IsDistance(a, b, d1) && IsDistance(a, b, d2)
    ensures d1 == d2
  {
    SquareMonotone(d1, d2);
    SquareMonotone(d2, d1);
  }

  lemma SqLenScale(v: Vec, k: real)
    ensures SqLen(Scale(v, k)) == k * k * SqLen(v)
  {
    calc {
      SqLen(Scale(v, k));
      (v.x * k) * (v.x * k) + (v.y * k) * (v.y * k);
      k * k * (v.x * v.x + v.y * v.y);
    }
  }

  /** Dividing a vector by its length yields a unit vector. */
  lemma NormalizedIsUnit(v: Vec, len: real)
    requires len > 0.0 && len * len == SqLen(v)
    ensures SqLen(Normalized(v, len)) == 1.0
  {
    SqLenScale(v, 1.0 / len);
    assert (1.0 / len) * (1.0 / len) * (len * len) == 1.0;
  }

  /** Scaling twice is scaling by the product. */
  lemma ScaleScale(v: Vec, k: real, l: real)
    ensures Scale(Scale(v, k), l) == Scale(v, k * l)
  {
    assert (v.x * k) * l == v.x * (k * l);
    assert (v.y * k) * l == v.y * (k * l);
  }

  /** Walking the normalised direction for the full length arrives at `b`. */
  lemma NormalizedRayArrives(a: Vec, b: Vec, d: real)
    requires d > 0.0
    ensures Ray(a, Normalized(Sub(b, a), d), d) == b
  {
    var v := Sub(b, a);
    var k := 1.0 / d;
    assert k * d == 1.0;
    ScaleScale(v, k, d);
    assert Scale(v, 1.0) == v;
  }

  lemma RayDifference(a: Vec, u: Vec, g1: real, g2: real)
    ensures Sub(Ray(a, u, g2), Ray(a, u, g1)) == Scale(u, g2 - g1)
  {
    var e := g2 - g1;
    assert u.x * g2 == u.x * g1 + u.x * e;
    assert u.y * g2 == u.y * g1 + u.y * e;
  }

  /** Along a unit vector, going from `g1` to `g2 >= g1` covers the distance `g2 - g1`. */
  lemma RayDistance(a: Vec, u: Vec, g1: real, g2: real, g: real)
    requires SqLen(u) == 1.0 && g1 <= g2 && g == g2 - g1
    ensures IsDistance(Ray(a, u, g2), Ray(a, u, g1), g)
  {
    RayDifference(a, u, g1, g2);
    SqLenScale(u, g);
  }

  lemma RayStart(a: Vec, u: Vec)
    ensures Ray(a, u, 0.0) == a
  {
  }
}
