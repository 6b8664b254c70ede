/** Godot's Vector2, with each float component read as a real number, and
    the few operators the camera uses. */
module Vectors {

  datatype Vector2 = Vector2(x: real, y: real)

  const Zero := Vector2(0.0, 0.0)
  const One := Vector2(1.0, 1.0)

  function Add(a: Vector2, b: Vector2): Vector2 {
    Vector2(a.x + b.x, a.y + b.y)
  }

  function Sub(a: Vector2, b: Vector2): Vector2 {
    Vector2(a.x - b.x, a.y - b.y)
  }

  /** Component-wise product (Godot's `Vector2 * Vector2`). */
  function Mul(a: Vector2, b: Vector2): Vector2 {
    Vector2(a.x * b.x, a.y * b.y)
  }

  /** Product with a scalar (Godot's `Vector2 * float`). */
  function Scale(v: Vector2, k: real): Vector2 {
    Vector2(v.x * k, v.y * k)
  }

  /** Division by a scalar (Godot's `Vector2 / float`). */
  function Div(v: Vector2, k: real): Vector2
    requires k != 0.0
  {
    Vector2(v.x / k, v.y / k)
  }

  /** The square of a real. Squares are kept behind this function so that
      the solver reasons about them as terms of their own. */
  function Sq(a: real): real {
    a * a
  }

  function LengthSquared(v: Vector2): real {
    Sq(v.x) + Sq(v.y)
  }

  lemma MulPositive(a: real, b: real)
    requires 0.0 < a && 0.0 < b
    ensures 0.0 < a * b
  {
  }

  /** The square of a non-zero real is positive. */
  lemma SqPositive(a: real)
    requires a != 0.0
    ensures 0.0 < Sq(a)
  {
    var m := if a < 0.0 then -a else a;
    var h := m / 2.0;
    MulPositive(m, h);
    assert Sq(a) == 2.0 * (m * h);
  }

  lemma SqNonNegative(a: real)
    ensures 0.0 <= Sq(a)
  {
    if a != 0.0 {
      SqPositive(a);
    }
  }

  /** Squaring is monotone on the non-negative reals. */
  lemma SqMonotone(a: real, b: real)
    requires 0.0 <= a <= b
    ensures Sq(a) <= Sq(b)
    ensures a < b ==> Sq(a) < Sq(b)
  {
    var d, e := b - a, b + a;
    assert Sq(b) - Sq(a) == d * e;
    if a < b {
      MulPositive(d, e);
    }
  }

  /** Squaring is injective on the non-negative reals. */
  lemma SqInjective(a: real, b: real)
    requires 0.0 <= a && 0.0 <= b && Sq(a) == Sq(b)
    ensures a == b
  {
    if a < b {
      SqMonotone(a, b);
    } else if b < a {
      SqMonotone(b, a);
    }
  }

  /** The squared length is never negative and is zero only for the zero
      vector. */
  lemma LengthSquaredPositive(v: Vector2)
    ensures 0.0 <= LengthSquared(v)
    ensures v != Zero ==> 0.0 < LengthSquared(v)
  {
    SqNonNegative(v.x);
    SqNonNegative(v.y);
    if v.x != 0.0 {
      SqPositive(v.x);
    } else if v.y != 0.0 {
      SqPositive(v.y);
    }
  }

  /** Scaling by k multiplies the squared length by k * k. */
  lemma ScaleLengthSquared(v: Vector2, k: real)
    ensures LengthSquared(Scale(v, k)) == Sq(k) * LengthSquared(v)
  {
    assert Sq(v.x * k) == Sq(k) * Sq(v.x);
    assert Sq(v.y * k) == Sq(k) * Sq(v.y);
  }

  /** Scaling twice is scaling by the product. */
  lemma ScaleTwice(v: Vector2, a: real, b: real)
    ensures Scale(Scale(v, a), b) == Scale(v, a * b)
  {
    assert (v.x * a) * b == v.x * (a * b);
    assert (v.y * a) * b == v.y * (a * b);
  }

  /** The host's square root (`MathF.Sqrt`), characterised on the
      non-negative reals by what it returns rather than how. */
  ghost predicate IsSqrt(sqrt: real -> real) {
    forall x: real :: 0.0 <= x ==> 0.0 <= sqrt(x) && Sq(sqrt(x)) == x
  }

  /** sqrt(c * c) == c for every non-negative c. */
  lemma SqrtOfSquare(sqrt: real -> real, c: real)
    requires IsSqrt(sqrt) && 0.0 <= c
    ensures sqrt(Sq(c)) == c
  {
    SqNonNegative(c);
    SqInjective(sqrt(Sq(c)), c);
  }

  /** Godot's `Vector2.Normalized`: the zero vector stays zero, any other
      vector is divided by its length. */
  function Normalized(v: Vector2, sqrt: real -> real): (r: Vector2)
    requires IsSqrt(sqrt)
    ensures v == Zero ==> r == Zero
  {
    var l2 := LengthSquared(v);
    if l2 == 0.0 then v else Div(v, sqrt(l2))
  }

  /** A non-zero vector normalises to a unit vector pointing the same way:
      a positive multiple of it. */
  lemma NormalizedIsUnit(v: Vector2, sqrt: real -> real)
    requires IsSqrt(sqrt) && v != Zero
    ensures 0.0 < sqrt(LengthSquared(v))
    ensures Normalized(v, sqrt) == Scale(v, 1.0 / sqrt(LengthSquared(v)))
    ensures LengthSquared(Normalized(v, sqrt)) == 1.0
  {
    LengthSquaredPositive(v);
    var l2 := LengthSquared(v);
    var l := sqrt(l2);
    assert Sq(l) == l2;
    assert l != 0.0;
    var k := 1.0 / l;
    assert Div(v, l) == Scale(v, k);
    ScaleLengthSquared(v, k);
    assert Sq(k) * Sq(l) == Sq(k * l);
    assert k * l == 1.0;
  }
}
