/** What StickyCamera2D derives from the viewport size when it enters the
    scene tree: the centre of the viewport, and the aspect-correction vector
    that stretches the pointer offset along the shorter axis. */
module ViewportMetrics {
  import opened Vectors

  /** The viewport centre, `size / 2`. */
  function ViewportCenter(size: Vector2): (c: Vector2)
    ensures Add(c, c) == size
  {
    Div(size, 2.0)
  }

  /** The aspect-correction vector: 1 on the longer axis (the X axis when
      the viewport is square) and the long/short ratio on the other. */
  function AxisScaling(size: Vector2): (s: Vector2)
    requires 0.0 < size.x && 0.0 < size.y
    ensures 1.0 <= s.x && 1.0 <= s.y
    ensures s.x == 1.0 || s.y == 1.0
  {
    if size.x > size.y then
      RatioAtLeastOne(size.x, size.y);
      Vector2(1.0, size.x / size.y)
    else
      RatioAtLeastOne(size.y, size.x);
      Vector2(size.y / size.x, 1.0)
  }

  lemma RatioAtLeastOne(long: real, short: real)
    requires 0.0 < short <= long
    ensures 1.0 <= long / short
  {
    var q := long / short;
    assert q * short == long;
    if q < 1.0 {
      MulPositive(1.0 - q, short);
      assert false;
    }
  }

  /** The longer of the two sides. */
  function LongSide(size: Vector2): real {
    if size.x > size.y then size.x else size.y
  }

  /** Scaling stretches both sides to the length of the longer one, so the
      pointer at the middle of any screen edge is equally far from the
      centre once scaled. */
  lemma AxisScalingEqualisesSides(size: Vector2)
    requires 0.0 < size.x && 0.0 < size.y
    ensures Mul(size, AxisScaling(size)) == Vector2(LongSide(size), LongSide(size))
    ensures var h := Mul(ViewportCenter(size), AxisScaling(size));
            h.x == h.y == LongSide(size) / 2.0
  {
    var s := AxisScaling(size);
    if size.x > size.y {
      assert size.y * (size.x / size.y) == size.x;
    } else {
      assert size.x * (size.y / size.x) == size.y;
    }
    assert (size.x / 2.0) * s.x == (size.x * s.x) / 2.0;
    assert (size.y / 2.0) * s.y == (size.y * s.y) / 2.0;
  }

  /** The two orientations, as the branch in the source picks them. */
  lemma AxisScalingByOrientation(size: Vector2)
    requires 0.0 < size.x && 0.0 < size.y
    ensures size.x > size.y ==> AxisScaling(size) == Vector2(1.0, size.x / size.y)
    ensures size.x < size.y ==> AxisScaling(size) == Vector2(size.y / size.x, 1.0)
    ensures size.x == size.y ==> AxisScaling(size) == One
  {
  }

  lemma MulAtLeast(a: real, k: real)
    requires 0.0 < a && 1.0 <= k
    ensures a <= a * k
    ensures 1.0 < k ==> a < a * k
  {
    var d := k - 1.0;
    assert a * k == a + a * d;
    if 1.0 < k {
      MulPositive(a, d);
    }
  }

  /** When one side is the longer, the factor that stretches the shorter
      one to it cannot be the one that is 1. */
  lemma StretchesShorterSide(long: real, short: real, kLong: real, kShort: real)
    requires 0.0 < short < long
    requires 1.0 <= kLong && 1.0 <= kShort && (kLong == 1.0 || kShort == 1.0)
    requires long * kLong == short * kShort
    ensures kLong == 1.0
  {
    if kLong != 1.0 {
      MulAtLeast(long, kLong);
      assert false;
    }
  }

  /** The scaling is exactly determined by the two facts that it has a 1 on
      one axis and that it stretches both sides to the same length. */
  lemma AxisScalingUnique(size: Vector2, s: Vector2)
    requires 0.0 < size.x && 0.0 < size.y
    requires s.x == 1.0 || s.y == 1.0
    requires 1.0 <= s.x && 1.0 <= s.y
    requires size.x * s.x == size.y * s.y
    ensures s == AxisScaling(size)
  {
    if size.x > size.y {
      StretchesShorterSide(size.x, size.y, s.x, s.y);
      assert s.y == (size.y * s.y) / size.y;
    } else if size.x < size.y {
      StretchesShorterSide(size.y, size.x, s.y, s.x);
      assert s.x == (size.x * s.x) / size.x;
    } else {
      assert s == One;
    }
  }
}
