/** The per-frame interpolation StickyCamera2D applies to its position and
    its zoom: Godot's `Lerp` with weight `delta * 4`. The weight is not
    clamped, so a frame longer than a quarter of a second overshoots. */
module Smoothing {
  import opened Vectors

  const FollowSpeed: real := 4.0
  const ZoomSpeed: real := 4.0

  /** Godot's scalar `Mathf.Lerp`: `from + (to - from) * weight`. */
  function LerpReal(from: real, to: real, weight: real): (r: real)
    ensures r - to == (from - to) * (1.0 - weight)
  {
    from + (to - from) * weight
  }

  /** Godot's `Vector2.Lerp`, component by component. */
  function Lerp(from: Vector2, to: Vector2, weight: real): (r: Vector2)
    ensures Sub(r, to) == Scale(Sub(from, to), 1.0 - weight)
    ensures weight == 0.0 ==> r == from
    ensures weight == 1.0 ==> r == to
  {
    var x := LerpReal(from.x, to.x, weight);
    var y := LerpReal(from.y, to.y, weight);
    assert Scale(Sub(from, to), 1.0 - weight)
           == Vector2((from.x - to.x) * (1.0 - weight), (from.y - to.y) * (1.0 - weight));
    Vector2(x, y)
  }

  /** Whether x lies between the two ends, in either order. */
  predicate Between(a: real, x: real, b: real) {
    (a <= x <= b) || (b <= x <= a)
  }

  lemma MulNonNegative(a: real, b: real)
    requires 0.0 <= a && 0.0 <= b
    ensures 0.0 <= a * b
  {
    if 0.0 < a && 0.0 < b {
      MulPositive(a, b);
    }
  }

  /** With a weight in [0, 1] the result lies between the two ends. */
  lemma LerpRealBetween(from: real, to: real, weight: real)
    requires 0.0 <= weight <= 1.0
    ensures Between(from, LerpReal(from, to, weight), to)
  {
    var d := to - from;
    var m := if d < 0.0 then -d else d;
    var step := d * weight;
    MulNonNegative(m, weight);
    MulNonNegative(m, 1.0 - weight);
    assert m * weight + m * (1.0 - weight) == m;
    if d < 0.0 {
      assert step == -(m * weight);
    } else {
      assert step == m * weight;
    }
  }

  /** With a weight in [0, 1] each component of the result lies between
      the current value and the desired one. */
  lemma LerpBetween(from: Vector2, to: Vector2, weight: real)
    requires 0.0 <= weight <= 1.0
    ensures Between(from.x, Lerp(from, to, weight).x, to.x)
    ensures Between(from.y, Lerp(from, to, weight).y, to.y)
  {
    LerpRealBetween(from.x, to.x, weight);
    LerpRealBetween(from.y, to.y, weight);
  }

  /** With a weight above 1 the result passes the desired value: it ends up
      on the far side of it, as seen from where it started. */
  lemma LerpRealOvershoots(from: real, to: real, weight: real)
    requires 1.0 < weight && from != to
    ensures from < to ==> to < LerpReal(from, to, weight)
    ensures to < from ==> LerpReal(from, to, weight) < to
  {
    var r := LerpReal(from, to, weight);
    if from < to {
      MulPositive(to - from, weight - 1.0);
      assert r - to == (to - from) * (weight - 1.0);
    } else {
      MulPositive(from - to, weight - 1.0);
      assert to - r == (from - to) * (weight - 1.0);
    }
  }

  /** The distance left to the desired value shrinks by the factor
      |1 - weight| each time. */
  lemma LerpDistance(from: Vector2, to: Vector2, weight: real)
    ensures LengthSquared(Sub(Lerp(from, to, weight), to))
            == Sq(1.0 - weight) * LengthSquared(Sub(from, to))
  {
    ScaleLengthSquared(Sub(from, to), 1.0 - weight);
  }

  /** A weight strictly between 0 and 2 brings a value that is not yet at
      its destination strictly closer to it. */
  lemma LerpCloser(from: Vector2, to: Vector2, weight: real)
    requires 0.0 < weight < 2.0 && from != to
    ensures LengthSquared(Sub(Lerp(from, to, weight), to)) < LengthSquared(Sub(from, to))
  {
    LerpDistance(from, to, weight);
    var c := 1.0 - weight;
    var m := if c < 0.0 then -c else c;
    assert Sq(c) == Sq(m);
    SqMonotone(m, 1.0);
    assert Sub(from, to) != Zero;
    LengthSquaredPositive(Sub(from, to));
    var d := LengthSquared(Sub(from, to));
    MulPositive(1.0 - Sq(m), d);
    assert d - Sq(m) * d == (1.0 - Sq(m)) * d;
  }

  /** A weight above 2 (a frame longer than half a second at speed 4) moves
      a value that is not yet at its destination further away from it. */
  lemma LerpDiverges(from: Vector2, to: Vector2, weight: real)
    requires 2.0 < weight && from != to
    ensures LengthSquared(Sub(Lerp(from, to, weight), to)) > LengthSquared(Sub(from, to))
  {
    LerpDistance(from, to, weight);
    var m := weight - 1.0;
    assert Sq(1.0 - weight) == Sq(m);
    SqMonotone(1.0, m);
    assert Sub(from, to) != Zero;
    LengthSquaredPositive(Sub(from, to));
    var d := LengthSquared(Sub(from, to));
    MulPositive(Sq(m) - 1.0, d);
    assert Sq(m) * d - d == (Sq(m) - 1.0) * d;
  }

  /** One frame of `if (!current.IsEqualApprox(desired)) current =
      current.Lerp(desired, weight)`, with the approximate comparison read
      as exact equality. */
  function Follow(current: Vector2, desired: Vector2, weight: real): (r: Vector2)
    ensures desired == current ==> r == current
    ensures weight == 1.0 ==> r == desired
  {
    if desired == current then current else Lerp(current, desired, weight)
  }

  /** With a weight in [0, 1], one frame never passes the desired value. */
  lemma FollowBetween(current: Vector2, desired: Vector2, weight: real)
    requires 0.0 <= weight <= 1.0
    ensures var r := Follow(current, desired, weight);
            Between(current.x, r.x, desired.x) && Between(current.y, r.y, desired.y)
  {
    if desired != current {
      LerpBetween(current, desired, weight);
    }
  }

  /** Read with exact equality, the guard changes nothing: a value already
      at its destination is a fixed point of the interpolation anyway. */
  lemma FollowIsLerp(current: Vector2, desired: Vector2, weight: real)
    ensures Follow(current, desired, weight) == Lerp(current, desired, weight)
  {
    if desired == current {
      assert Sub(Lerp(current, desired, weight), desired) == Zero;
    }
  }

  /** Interpolating between two uniform vectors gives a uniform vector. */
  lemma LerpKeepsUniform(from: Vector2, to: Vector2, weight: real)
    requires from.x == from.y && to.x == to.y
    ensures Lerp(from, to, weight).x == Lerp(from, to, weight).y
  {
  }

  /** `n` frames of interpolation toward a fixed destination with a fixed
      weight. */
  function Repeat(from: Vector2, to: Vector2, weight: real, n: nat): Vector2
    decreases n
  {
    if n == 0 then from else Repeat(Lerp(from, to, weight), to, weight, n - 1)
  }

  function Pow(a: real, n: nat): real
    decreases n
  {
    if n == 0 then 1.0 else a * Pow(a, n - 1)
  }

  /** After n frames toward a fixed destination, the remaining offset is
      the initial one scaled by (1 - weight)^n: exponential smoothing. */
  lemma {:induction false} RepeatRemaining(from: Vector2, to: Vector2, weight: real, n: nat)
    ensures Sub(Repeat(from, to, weight, n), to) == Scale(Sub(from, to), Pow(1.0 - weight, n))
    decreases n
  {
    if n == 0 {
      assert Scale(Sub(from, to), 1.0) == Sub(from, to);
    } else {
      var next := Lerp(from, to, weight);
      var p := Pow(1.0 - weight, n - 1);
      assert Repeat(from, to, weight, n) == Repeat(next, to, weight, n - 1);
      RepeatRemaining(next, to, weight, n - 1);
      assert Sub(next, to) == Scale(Sub(from, to), 1.0 - weight);
      ScaleTwice(Sub(from, to), 1.0 - weight, p);
      assert Pow(1.0 - weight, n) == (1.0 - weight) * p;
    }
  }
}
