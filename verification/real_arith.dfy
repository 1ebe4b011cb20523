/**
  Small facts about real multiplication and division, each proved on its own
  so that the geometric proofs only need to combine them linearly.
 */
module RealArith {

  lemma SquareMonotone(a: real, b: real)
    requires 0.0 <= a && 0.0 <= b
    ensures a < b ==> a * a < b * b
  {
    if a < b {
      SquareLt(a, b);
    }
  }

  /** Squaring is monotone on the non-negative reals. */
  lemma SquareLe(a: real, b: real)
    requires 0.0 <= a <= b
    ensures a * a <= b * b
  {
    var e := b - a;
    assert b * b == a * a + e * (a + b);
    assert e * (a + b) >= 0.0;
  }

  lemma SquareLt(a: real, b: real)
    requires 0.0 <= a < b
    ensures a * a < b * b
  {
    var e := b - a;
    assert b * b == a * a + e * (a + b);
    assert e * (a + b) > 0.0;
  }

  lemma DivMulCancel(a: real, c: real)
    requires c != 0.0
    ensures (a / c) * c == a
  {
  }

  /** `f` copies of `c` fit into `q * c`, and one more copy does not. */
  lemma Bracket(f: real, q: real, c: real, d: real)
    requires f <= q < f + 1.0 && c > 0.0 && q * c == d
    ensures f * c <= d
    ensures d < f * c + c
  {
    var g := q - f;
    assert g * c >= 0.0;
    var e := f + 1.0 - q;
    assert e * c > 0.0;
  }

  /**
    Moving from `a` by `w * g` with `0 <= g <= d` stays inside any interval
    holding both `a` and `a + w * d`.
   */
  lemma Between(a: real, w: real, g: real, d: real, lo: real, hi: real)
    requires 0.0 <= g <= d
    requires lo <= a <= hi && lo <= a + w * d <= hi
    ensures lo <= a + w * g <= hi
  {
    var e := d - g;
    assert w * d == w * g + w * e;
    if w >= 0.0 {
      assert w * e >= 0.0;
      assert w * g >= 0.0;
    } else {
      assert w * e <= 0.0;
      assert w * g <= 0.0;
    }
  }

  /** One more copy of `c`. */
  lemma NextMultiple(k: real, c: real)
    ensures (k + 1.0) * c == k * c + c
  {
  }
}
