/**
 * Two-dimensional vectors and the two interpolation helpers the player code
 * relies on: Phaser's `Math.Linear` and the project's `ExtensionFunctions.map`.
 * Engine floating point is modelled by `real`.
 */
module Geometry {

  /** A value-typed 2D vector (position, velocity, acceleration or scale). */
  datatype Vec2 = Vec2(x: real, y: real)

  /** The neutral scale (1, 1). */
  const One: Vec2 := Vec2(1.0, 1.0)

  function Abs(v: real): (r: real)
    ensures r >= 0.0 && (r == v || r == -v)
  {
    if v < 0.0 then -v else v
  }

  /** `v` lies on the closed segment between `a` and `b`, in either order. */
  predicate Between(a: real, v: real, b: real)
  {
    (a <= v <= b) || (b <= v <= a)
  }

  /** Phaser's `Math.Linear(a, b, t)`: `a + (b - a) * t`, not clamped. */
  function Linear(a: real, b: real, t: real): real
  {
    a + (b - a) * t
  }

  /** Component-wise `Linear`, as `Vector2.lerp` computes it. */
  function Lerp(from: Vec2, to: Vec2, t: real): Vec2
  {
    Vec2(Linear(from.x, to.x, t), Linear(from.y, to.y, t))
  }

  /**
   * `ExtensionFunctions.map(v, inMin, inMax, outMin, outMax)`: the unclamped
   * linear remapping of `[inMin, inMax]` onto `[outMin, outMax]`.
   */
  function Remap(v: real, inMin: real, inMax: real, outMin: real, outMax: real): (r: real)
    requires inMin != inMax
    ensures v == inMin ==> r == outMin
    ensures v == inMax ==> r == outMax
    ensures (inMin <= v <= inMax || inMax <= v <= inMin) ==> Between(outMin, r, outMax)
  {
    var t := (v - inMin) / (inMax - inMin);
    RemapFraction(v, inMin, inMax);
    if 0.0 <= t <= 1.0 then
      LinearBetween(outMin, outMax, t);
      Linear(outMin, outMax, t)
    else
      Linear(outMin, outMax, t)
  }

  /** The interpolation fraction of a point inside the input range lies in [0, 1]. */
  lemma RemapFraction(v: real, inMin: real, inMax: real)
    requires inMin != inMax
    ensures (inMin <= v <= inMax || inMax <= v <= inMin) ==> 0.0 <= (v - inMin) / (inMax - inMin) <= 1.0
  {
    if inMin < inMax && inMin <= v <= inMax {
      DivideWithin(v - inMin, inMax - inMin);
    } else if inMax < inMin && inMax <= v <= inMin {
      var x, k := inMin - v, inMin - inMax;
      DivideWithin(x, k);
      assert (x / k) * (-k) == -x;
      assert (v - inMin) / (inMax - inMin) == x / k;
    }
  }

  /** A quantity between zero and a positive bound, divided by that bound, lies in [0, 1]. */
  lemma DivideWithin(x: real, k: real)
    requires 0.0 <= x <= k && k > 0.0
    ensures 0.0 <= x / k <= 1.0
  {
  }

  /** Interpolating with a fraction in [0, 1] stays between the two end points. */
  lemma LinearBetween(a: real, b: real, t: real)
    requires 0.0 <= t <= 1.0
    ensures Between(a, Linear(a, b, t), b)
  {
    var d := b - a;
    assert Linear(a, b, t) == a + d * t;
    if d >= 0.0 {
      assert d * t <= d * 1.0;
      assert a <= Linear(a, b, t) <= b;
    } else {
      assert (-d) * t <= (-d) * 1.0;
      assert b <= Linear(a, b, t) <= a;
    }
  }
}
