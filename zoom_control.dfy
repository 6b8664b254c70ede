/** The desired zoom level of StickyCamera2D and how pressed input events
    change it: a step of 0.1 up or down, clamped to [0.5, 4], or a reset to
    (1, 1). Both components of the level are always written equal. */
module ZoomControl {
  import opened Vectors

  const MinZoom: real := 0.5
  const MaxZoom: real := 4.0
  const ZoomStep: real := 0.1

  /** The generic `Clamp(val, min, max)` helper, for the one numeric type the
      camera uses it on. */
  function Clamp(val: real, min: real, max: real): (r: real)
    ensures val < min ==> r == min
    ensures min <= val <= max ==> r == val
    ensures max < val && min <= val ==> r == max
    ensures min <= max ==> min <= r <= max
  {
    if val < min then min else if val > max then max else val
  }

  /** The three input actions the camera listens for. */
  datatype ZoomAction = ZoomIn | ZoomOut | ZoomReset

  /** An input event as the handler sees it: whether it is a press, and
      which of the three actions it matches (a non-exact match may hit more
      than one). */
  datatype InputEvent = InputEvent(pressed: bool, actions: set<ZoomAction>)

  /** Whether the event matches at least one of the three actions. */
  predicate MatchesAny(event: InputEvent) {
    ZoomIn in event.actions || ZoomOut in event.actions || ZoomReset in event.actions
  }

  /** A uniform zoom level inside the allowed range. */
  predicate IsZoomLevel(z: Vector2) {
    z.x == z.y && MinZoom <= z.x <= MaxZoom
  }

  /** The zoom level after one event: the specification of
      `StickyCamera2D.UnhandledInput`. */
  function ZoomAfter(zoom: Vector2, event: InputEvent): (r: Vector2)
    ensures !event.pressed ==> r == zoom
    ensures event.pressed && event.actions == {} ==> r == zoom
    ensures event.pressed && MatchesAny(event) ==> IsZoomLevel(r)
  {
    if !event.pressed then zoom
    else if ZoomIn in event.actions then
      var z := Clamp(zoom.x + ZoomStep, MinZoom, MaxZoom);
      Vector2(z, z)
    else if ZoomOut in event.actions then
      var z := Clamp(zoom.x - ZoomStep, MinZoom, MaxZoom);
      Vector2(z, z)
    else if ZoomReset in event.actions then One
    else zoom
  }

  /** The zoom level after a sequence of events, handled in order. */
  function ZoomAfterAll(zoom: Vector2, events: seq<InputEvent>): Vector2
    decreases |events|
  {
    if events == [] then zoom else ZoomAfterAll(ZoomAfter(zoom, events[0]), events[1..])
  }

  /** One event keeps a valid zoom level valid. */
  lemma ZoomAfterKeepsLevel(zoom: Vector2, event: InputEvent)
    requires IsZoomLevel(zoom)
    ensures IsZoomLevel(ZoomAfter(zoom, event))
  {
  }

  /** Starting from the initial (1, 1), any sequence of events leaves the
      level uniform and inside [0.5, 4]. */
  lemma {:induction false} ZoomAfterAllKeepsLevel(zoom: Vector2, events: seq<InputEvent>)
    requires IsZoomLevel(zoom)
    ensures IsZoomLevel(ZoomAfterAll(zoom, events))
    decreases |events|
  {
    if events != [] {
      ZoomAfterKeepsLevel(zoom, events[0]);
      ZoomAfterAllKeepsLevel(ZoomAfter(zoom, events[0]), events[1..]);
    }
  }

  /** A press matching ZoomReset, and neither ZoomIn nor ZoomOut, yields
      (1, 1) whatever the prior level. */
  lemma ZoomResetRestores(zoom: Vector2, event: InputEvent)
    requires event.pressed && ZoomReset in event.actions
    requires ZoomIn !in event.actions && ZoomOut !in event.actions
    ensures ZoomAfter(zoom, event) == One
  {
  }

  /** The if/else-if chain gives ZoomIn precedence over ZoomOut, and ZoomOut
      precedence over ZoomReset. */
  lemma ZoomPrecedence(zoom: Vector2, event: InputEvent)
    requires event.pressed
    ensures ZoomIn in event.actions ==>
      ZoomAfter(zoom, event) == ZoomAfter(zoom, InputEvent(true, {ZoomIn}))
    ensures ZoomIn !in event.actions && ZoomOut in event.actions ==>
      ZoomAfter(zoom, event) == ZoomAfter(zoom, InputEvent(true, {ZoomOut}))
  {
  }

  /** From a valid level, ZoomIn never lowers the level and ZoomOut never
      raises it, and either moves it by at most one step. */
  lemma ZoomStepBounded(zoom: Vector2, event: InputEvent)
    requires IsZoomLevel(zoom) && event.pressed
    requires ZoomIn in event.actions || ZoomOut in event.actions
    ensures ZoomIn in event.actions ==>
      zoom.x <= ZoomAfter(zoom, event).x <= zoom.x + ZoomStep
    ensures ZoomIn !in event.actions ==>
      zoom.x - ZoomStep <= ZoomAfter(zoom, event).x <= zoom.x
  {
  }

  /** From a valid level, a pressed ZoomIn raises the level by exactly one
      step, or to the maximum if the step would pass it. */
  lemma ZoomInStep(zoom: Vector2, event: InputEvent)
    requires IsZoomLevel(zoom) && event.pressed && ZoomIn in event.actions
    ensures var z := if zoom.x + ZoomStep <= MaxZoom then zoom.x + ZoomStep else MaxZoom;
            ZoomAfter(zoom, event) == Vector2(z, z)
  {
  }

  /** From a valid level, a pressed ZoomOut (without ZoomIn) lowers the
      level by exactly one step, or to the minimum if the step would pass
      it. */
  lemma ZoomOutStep(zoom: Vector2, event: InputEvent)
    requires IsZoomLevel(zoom) && event.pressed
    requires ZoomOut in event.actions && ZoomIn !in event.actions
    ensures var z := if MinZoom <= zoom.x - ZoomStep then zoom.x - ZoomStep else MinZoom;
            ZoomAfter(zoom, event) == Vector2(z, z)
  {
  }

  /** A press of ZoomIn alone. */
  const ZoomInPress := InputEvent(true, {ZoomIn})

  /** A press of ZoomOut alone. */
  const ZoomOutPress := InputEvent(true, {ZoomOut})

  /** The zoom after pressing ZoomIn n times from a valid level: the level
      grows by one step per press until it saturates at the maximum. */
  lemma {:induction false} RepeatedZoomIn(zoom: Vector2, n: nat)
    requires IsZoomLevel(zoom)
    ensures var z := if zoom.x + n as real * ZoomStep <= MaxZoom
                     then zoom.x + n as real * ZoomStep else MaxZoom;
            ZoomAfterAll(zoom, seq(n, _ => ZoomInPress)) == Vector2(z, z)
    decreases n
  {
    if n > 0 {
      var presses := seq(n, _ => ZoomInPress);
      assert presses[1..] == seq(n - 1, _ => ZoomInPress);
      var next := ZoomAfter(zoom, ZoomInPress);
      RepeatedZoomIn(next, n - 1);
    }
  }

  /** At the maximum, one more ZoomIn changes nothing. */
  lemma ZoomInSaturates(zoom: Vector2)
    requires zoom == Vector2(MaxZoom, MaxZoom)
    ensures ZoomAfter(zoom, ZoomInPress) == zoom
  {
  }

  /** The zoom after pressing ZoomOut n times from a valid level: the level
      falls by one step per press until it saturates at the minimum. */
  lemma {:induction false} RepeatedZoomOut(zoom: Vector2, n: nat)
    requires IsZoomLevel(zoom)
    ensures var z := if MinZoom <= zoom.x - n as real * ZoomStep
                     then zoom.x - n as real * ZoomStep else MinZoom;
            ZoomAfterAll(zoom, seq(n, _ => ZoomOutPress)) == Vector2(z, z)
    decreases n
  {
    if n > 0 {
      var presses := seq(n, _ => ZoomOutPress);
      assert presses[1..] == seq(n - 1, _ => ZoomOutPress);
      var next := ZoomAfter(zoom, ZoomOutPress);
      ZoomOutStep(zoom, ZoomOutPress);
      RepeatedZoomOut(next, n - 1);
    }
  }

  /** At the minimum, one more ZoomOut changes nothing. */
  lemma ZoomOutSaturates(zoom: Vector2)
    requires zoom == Vector2(MinZoom, MinZoom)
    ensures ZoomAfter(zoom, ZoomOutPress) == zoom
  {
  }

  /** Fifty presses of ZoomIn from (1, 1) stop at (4, 4). */
  lemma FiftyZoomInsFromDefault()
    ensures ZoomAfterAll(One, seq(50, _ => ZoomInPress)) == Vector2(MaxZoom, MaxZoom)
  {
    RepeatedZoomIn(One, 50);
  }

  /** The levels reachable from (1, 1): the multiples of one step from 0.5 to
      4, that is k / 10 for k in [5, 40]. */
  function GridLevel(k: int): real {
    k as real / 10.0
  }

  ghost predicate OnGrid(zoom: Vector2) {
    zoom.x == zoom.y && exists k: int :: 5 <= k <= 40 && zoom.x == GridLevel(k)
  }

  lemma ZoomAfterStaysOnGrid(zoom: Vector2, event: InputEvent)
    requires OnGrid(zoom)
    ensures OnGrid(ZoomAfter(zoom, event))
  {
    var k :| 5 <= k <= 40 && zoom.x == GridLevel(k);
    var r := ZoomAfter(zoom, event);
    if event.pressed && ZoomIn in event.actions {
      var k' := if k < 40 then k + 1 else 40;
      assert r.x == GridLevel(k');
    } else if event.pressed && ZoomOut in event.actions {
      var k' := if k > 5 then k - 1 else 5;
      assert r.x == GridLevel(k');
    } else if event.pressed && ZoomReset in event.actions {
      assert r.x == GridLevel(10);
    }
  }

  /** Every level reached from (1, 1) is one of the 36 grid levels. */
  lemma {:induction false} ReachableLevelsOnGrid(zoom: Vector2, events: seq<InputEvent>)
    requires OnGrid(zoom)
    ensures OnGrid(ZoomAfterAll(zoom, events))
    decreases |events|
  {
    if events != [] {
      ZoomAfterStaysOnGrid(zoom, events[0]);
      ReachableLevelsOnGrid(ZoomAfter(zoom, events[0]), events[1..]);
    }
  }

  lemma InitialZoomOnGrid()
    ensures OnGrid(One)
  {
    assert One.x == GridLevel(10);
  }
}
