/** The look-ahead rule of StickyCamera2D: where the camera wants to be,
    given the pointer, the viewport metrics and the target's position. Near
    the viewport centre the camera sits on the target; further out it leads
    toward the pointer by up to a fixed distance. */
module LookAhead {
  import opened Vectors
  import opened ViewportMetrics

  /** Radius of the dead zone around the centre, in scaled pixels. */
  const SnapToCenterThreshold: real := 200.0
  /** The furthest the camera leads away from the target. */
  const MaxTravelDistance: real := 100.0

  /** `MathF.Min`. */
  function Min(a: real, b: real): (r: real)
    ensures r <= a && r <= b
    ensures r == a || r == b
  {
    if a <= b then a else b
  }

  /** The pointer's offset from the viewport centre, stretched along the
      shorter axis. */
  function PointerOffset(mouse: Vector2, center: Vector2, scaling: Vector2): Vector2 {
    Mul(Sub(mouse, center), scaling)
  }

  /** The desired camera position (`CalcCameraPosition`). */
  function CalcCameraPosition(mouse: Vector2, center: Vector2, scaling: Vector2,
                              target: Vector2, sqrt: real -> real): (r: Vector2)
    requires IsSqrt(sqrt)
    ensures LengthSquared(PointerOffset(mouse, center, scaling)) <= Sq(SnapToCenterThreshold)
            ==> r == target
  {
    var offset := PointerOffset(mouse, center, scaling);
    var lengthSquared := LengthSquared(offset);
    if lengthSquared <= SnapToCenterThreshold * SnapToCenterThreshold then target
    else
      var distancePastThreshold := sqrt(lengthSquared) - SnapToCenterThreshold;
      var moveCamDist := Min(distancePastThreshold, MaxTravelDistance);
      Add(target, Scale(Normalized(offset, sqrt), moveCamDist))
  }

  /** Outside the dead zone the camera leads from the target along the
      pointer offset (a positive multiple of it), by the distance the
      pointer is past the dead zone, capped at the maximum travel. So the
      lead is never zero and never longer than 100. */
  lemma LeadTowardPointer(mouse: Vector2, center: Vector2, scaling: Vector2,
                          target: Vector2, sqrt: real -> real)
    requires IsSqrt(sqrt)
    requires LengthSquared(PointerOffset(mouse, center, scaling)) > Sq(SnapToCenterThreshold)
    ensures var offset := PointerOffset(mouse, center, scaling);
            var len := sqrt(LengthSquared(offset));
            var lead := Min(len - SnapToCenterThreshold, MaxTravelDistance);
            var r := CalcCameraPosition(mouse, center, scaling, target, sqrt);
            && SnapToCenterThreshold < len
            && 0.0 < lead <= MaxTravelDistance
            && 0.0 < lead / len
            && r == Add(target, Scale(offset, lead / len))
            && Sub(r, target) == Scale(offset, lead / len)
            && LengthSquared(Sub(r, target)) == Sq(lead)
  {
    var offset := PointerOffset(mouse, center, scaling);
    var l2 := LengthSquared(offset);
    var len := sqrt(l2);
    NormalizedIsUnit(offset, sqrt);
    if len <= SnapToCenterThreshold {
      SqMonotone(len, SnapToCenterThreshold);
    }
    var lead := Min(len - SnapToCenterThreshold, MaxTravelDistance);
    var n := Normalized(offset, sqrt);
    var k := 1.0 / len;
    assert n == Scale(offset, k);
    assert k * lead == lead / len;
    ScaleTwice(offset, k, lead);
    MulPositive(lead, k);
    ScaleLengthSquared(n, lead);
  }

  /** Once the pointer is 300 scaled pixels or more from the centre, the lead
      is exactly the maximum travel. */
  lemma LeadSaturates(mouse: Vector2, center: Vector2, scaling: Vector2,
                      target: Vector2, sqrt: real -> real)
    requires IsSqrt(sqrt)
    requires LengthSquared(PointerOffset(mouse, center, scaling))
             >= Sq(SnapToCenterThreshold + MaxTravelDistance)
    ensures var r := CalcCameraPosition(mouse, center, scaling, target, sqrt);
            LengthSquared(Sub(r, target)) == Sq(MaxTravelDistance)
  {
    var offset := PointerOffset(mouse, center, scaling);
    var l2 := LengthSquared(offset);
    LeadTowardPointer(mouse, center, scaling, target, sqrt);
    var len := sqrt(l2);
    if len < SnapToCenterThreshold + MaxTravelDistance {
      SqMonotone(len, SnapToCenterThreshold + MaxTravelDistance);
    }
  }

  /** A pointer 300 scaled pixels right of the centre, with the target at
      the origin: the camera leads to (100, 0). */
  lemma LeadExample(mouse: Vector2, center: Vector2, scaling: Vector2, sqrt: real -> real)
    requires IsSqrt(sqrt)
    requires PointerOffset(mouse, center, scaling) == Vector2(300.0, 0.0)
    ensures CalcCameraPosition(mouse, center, scaling, Zero, sqrt) == Vector2(100.0, 0.0)
  {
    var offset := Vector2(300.0, 0.0);
    assert LengthSquared(offset) == Sq(300.0);
    SqrtOfSquare(sqrt, 300.0);
    SqMonotone(SnapToCenterThreshold, 300.0);
    LeadTowardPointer(mouse, center, scaling, Zero, sqrt);
    var len := sqrt(LengthSquared(offset));
    assert len == 300.0;
    var lead := Min(len - SnapToCenterThreshold, MaxTravelDistance);
    assert lead == 100.0;
    ExampleLeadArithmetic(lead, len);
  }

  /** The last step of the example, kept apart from the facts about sqrt
      so that the solver meets the division on its own. */
  lemma ExampleLeadArithmetic(lead: real, len: real)
    requires lead == 100.0 && len == 300.0
    ensures Add(Zero, Scale(Vector2(300.0, 0.0), lead / len)) == Vector2(100.0, 0.0)
  {
  }

  /** A full-HD viewport, the pointer 300 pixels right of the centre and the
      target at the origin: the camera leads to (100, 0). */
  lemma FullHdExample(sqrt: real -> real)
    requires IsSqrt(sqrt)
    ensures var size := Vector2(1920.0, 1080.0);
            var center := ViewportCenter(size);
            var mouse := Add(center, Vector2(300.0, 0.0));
            CalcCameraPosition(mouse, center, AxisScaling(size), Zero, sqrt) == Vector2(100.0, 0.0)
  {
    var size := Vector2(1920.0, 1080.0);
    var center := ViewportCenter(size);
    var mouse := Add(center, Vector2(300.0, 0.0));
    FullHdOffset(size, mouse);
    LeadExample(mouse, center, AxisScaling(size), sqrt);
  }

  lemma FullHdOffset(size: Vector2, mouse: Vector2)
    requires size == Vector2(1920.0, 1080.0)
    requires mouse == Add(ViewportCenter(size), Vector2(300.0, 0.0))
    ensures PointerOffset(mouse, ViewportCenter(size), AxisScaling(size)) == Vector2(300.0, 0.0)
  {
    assert AxisScaling(size) == Vector2(1.0, 1920.0 / 1080.0);
    assert Sub(mouse, ViewportCenter(size)) == Vector2(300.0, 0.0);
  }
}
