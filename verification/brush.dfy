/**
  Brush configuration arithmetic shared by both painting views: the slider
  remapping `Remap` and the derivation of the stamp spacing
  (`_brushLerpSize`) from the brush texture and the brush size.
 */
module Brush {

  /** A brush texture, of which only the pixel dimensions matter here. */
  datatype Texture = Texture(width: int, height: int) {
    /** A loaded texture always has positive dimensions. */
    predicate Valid() {
      width > 0 && height > 0
    }
  }

  /** The slider range that `Remap` expects for its input. */
  const SliderMin: real := 1.0
  const SliderMax: real := 100.0

  /**
    The affine map sending slider value 1 to `startValue` and 100 to
    `endValue`; the endpoints are the caller's choice and may be decreasing.
   */
  function Remap(value: real, startValue: real, endValue: real): (r: real)
    ensures value == SliderMin ==> r == startValue
    ensures value == SliderMax ==> r == endValue
  {
    var t := (value - 1.0) / (100.0 - 1.0);
    (endValue - startValue) * t + startValue
  }

  /** The slider value that `Remap` sends to `r`, when the endpoints differ. */
  function Unremap(r: real, startValue: real, endValue: real): real
    requires startValue != endValue
  {
    SliderMin + (SliderMax - SliderMin) * (r - startValue) / (endValue - startValue)
  }

  /** `Remap` changes by `(endValue - startValue) / 99` per slider unit. */
  lemma RemapAffine(v1: real, v2: real, startValue: real, endValue: real)
    ensures Remap(v2, startValue, endValue) - Remap(v1, startValue, endValue)
         == (endValue - startValue) / 99.0 * (v2 - v1)
  {
    var k := endValue - startValue;
    assert k * ((v2 - 1.0) / 99.0) - k * ((v1 - 1.0) / 99.0) == k / 99.0 * (v2 - v1);
  }

  /** Slider values in [1, 100] are sent between the two endpoints. */
  lemma RemapWithinEndpoints(value: real, startValue: real, endValue: real)
    requires SliderMin <= value <= SliderMax
    ensures var r := Remap(value, startValue, endValue);
      (startValue <= endValue ==> startValue <= r <= endValue) &&
      (endValue <= startValue ==> endValue <= r <= startValue)
  {
    var t := (value - 1.0) / 99.0;
    assert 0.0 <= t <= 1.0;
    var k := endValue - startValue;
    if k >= 0.0 {
      assert 0.0 <= k * t <= k;
    } else {
      assert k <= k * t <= 0.0;
    }
  }

  /** With distinct endpoints `Remap` is invertible, in both directions. */
  lemma RemapRoundTrip(value: real, r: real, startValue: real, endValue: real)
    requires startValue != endValue
    ensures Unremap(Remap(value, startValue, endValue), startValue, endValue) == value
    ensures Remap(Unremap(r, startValue, endValue), startValue, endValue) == r
  {
    var k := endValue - startValue;
    var t := (value - 1.0) / 99.0;
    var rv := Remap(value, startValue, endValue);
    assert rv - startValue == k * t;
    assert 99.0 * (rv - startValue) / k == 99.0 * t == value - 1.0;
    var u := (r - startValue) / k;
    assert 99.0 * (r - startValue) / k == 99.0 * u;
    assert k * u == r - startValue;
  }

  /** The texture's mean side, `(width + height) / 2`. */
  function Footprint(t: Texture): real {
    (t.width + t.height) as real / 2.0
  }

  /**
    The stamp spacing `(width + height) / 2 / brushSize`: the footprint
    divided by the brush size, so spacing times size gives back the footprint.
   */
  function Spacing(t: Texture, brushSize: real): (r: real)
    requires t.Valid() && brushSize > 0.0
    ensures r > 0.0
    ensures r * brushSize == Footprint(t)
  {
    Footprint(t) / brushSize
  }

  /** A larger brush size never gives a larger spacing. */
  lemma SpacingAntitone(t: Texture, s1: real, s2: real)
    requires t.Valid() && 0.0 < s1 <= s2
    ensures Spacing(t, s2) <= Spacing(t, s1)
  {
    var f := Footprint(t);
    var a, b := Spacing(t, s1), Spacing(t, s2);
    assert a * s1 == b * s2 == f;
    if b > a {
      assert b * s2 > a * s2 >= a * s1;
    }
  }

  /** A 64 x 64 texture at brush size 32 is stamped every 2 units. */
  lemma SpacingExample()
    ensures Spacing(Texture(64, 64), 32.0) == 2.0
  {
  }
}
