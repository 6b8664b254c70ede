/** The StickyCamera2D node itself: the state it keeps between frames and
    the handlers the engine calls on it. The engine's own objects appear
    only through the fields the camera reads from them. */
module StickyCamera {
  import opened Vectors
  import opened ZoomControl
  import opened ViewportMetrics
  import opened LookAhead
  import opened Smoothing

  /** A scene node the camera can follow; only its position is read. */
  class Node2D {
    var GlobalPosition: Vector2

    constructor (position: Vector2)
      ensures GlobalPosition == position
    {
      GlobalPosition := position;
    }
  }

  /** The viewport as the camera sees it: the size of its visible
      rectangle and the pointer position, both kept up to date by the
      engine. */
  class Viewport {
    var VisibleSize: Vector2
    var MousePosition: Vector2

    constructor (size: Vector2, mouse: Vector2)
      ensures VisibleSize == size && MousePosition == mouse
    {
      VisibleSize := size;
      MousePosition := mouse;
    }
  }

  class StickyCamera2D {
    /** Follow the target exactly, ignoring the pointer. */
    var ForceCentered: bool
    var Target: Node2D?
    var viewport: Viewport?
    var viewportCenter: Vector2
    var axisScaling: Vector2
    /** The desired zoom level, which input events change. */
    var zoom: Vector2
    /** Whether the engine calls the per-frame handler (`SetProcess`). */
    var processing: bool
    /** The camera's own position and zoom, inherited from Camera2D. */
    var GlobalPosition: Vector2
    var Zoom: Vector2

    /** The camera only processes frames while it has a target; the desired
        zoom is always a valid level; the applied zoom is always uniform. */
    ghost predicate Valid()
      reads this
    {
      && (processing ==> Target != null)
      && IsZoomLevel(zoom)
      && Zoom.x == Zoom.y
    }

    /** A fresh camera: no target, not processing, desired and applied zoom
        (1, 1). */
    constructor ()
      ensures Valid()
      ensures !ForceCentered && Target == null && viewport == null && !processing
      ensures zoom == One && Zoom == One && GlobalPosition == Zero
    {
      ForceCentered := false;
      Target := null;
      viewport := null;
      viewportCenter := Zero;
      axisScaling := Zero;
      zoom := One;
      processing := false;
      GlobalPosition := Zero;
      Zoom := One;
    }

    /** Records the viewport and derives its centre and aspect correction
        from the size of its visible rectangle. */
    method CalculateCameraAxisScaling(vp: Viewport)
      requires Valid()
      requires 0.0 < vp.VisibleSize.x && 0.0 < vp.VisibleSize.y
      modifies this`viewport, this`viewportCenter, this`axisScaling
      ensures Valid()
      ensures viewport == vp
      ensures Add(viewportCenter, viewportCenter) == vp.VisibleSize
      ensures 1.0 <= axisScaling.x && 1.0 <= axisScaling.y
      ensures axisScaling.x == 1.0 || axisScaling.y == 1.0
      ensures Mul(vp.VisibleSize, axisScaling) == Vector2(LongSide(vp.VisibleSize), LongSide(vp.VisibleSize))
    {
      viewport := vp;
      var viewportSize := vp.VisibleSize;
      viewportCenter := Div(viewportSize, 2.0);
      if viewportSize.x > viewportSize.y {
        axisScaling := Vector2(1.0, viewportSize.x / viewportSize.y);
      } else {
        axisScaling := Vector2(viewportSize.y / viewportSize.x, 1.0);
      }
      assert axisScaling == AxisScaling(viewportSize);
      AxisScalingEqualisesSides(viewportSize);
    }

    /** Follows a new target; processing runs exactly when there is one. */
    method SetTarget(target: Node2D?)
      requires Valid()
      modifies this`Target, this`processing
      ensures Valid()
      ensures Target == target
      ensures processing <==> target != null
    {
      Target := target;
      processing := Target != null;
    }

    /** Where the camera wants to be this frame. */
    function NextCamPos(sqrt: real -> real): (r: Vector2)
      reads this, Target, viewport
      requires Target != null && (ForceCentered || viewport != null)
      requires IsSqrt(sqrt)
      ensures ForceCentered ==> r == Target.GlobalPosition
      ensures !ForceCentered ==>
        r == CalcCameraPosition(viewport.MousePosition, viewportCenter, axisScaling,
                                Target.GlobalPosition, sqrt)
    {
      if ForceCentered then Target.GlobalPosition
      else CalcCameraPosition(viewport.MousePosition, viewportCenter, axisScaling,
                              Target.GlobalPosition, sqrt)
    }

    /** One frame: the position moves toward where the camera wants to be
        and the applied zoom toward the desired one, each by the fraction
        `delta * 4` of the remaining way (`Follow`). */
    method Process(delta: real, sqrt: real -> real)
      requires Valid() && processing
      requires ForceCentered || viewport != null
      requires IsSqrt(sqrt)
      modifies this`GlobalPosition, this`Zoom
      ensures Valid()
      ensures GlobalPosition == Follow(old(GlobalPosition), old(NextCamPos(sqrt)), delta * FollowSpeed)
      ensures Zoom == Follow(old(Zoom), zoom, delta * ZoomSpeed)
      ensures delta * FollowSpeed == 1.0 ==> GlobalPosition == old(NextCamPos(sqrt))
      ensures delta * ZoomSpeed == 1.0 ==> Zoom == zoom
    {
      var nextCamPos := NextCamPos(sqrt);
      if nextCamPos != GlobalPosition {
        GlobalPosition := Lerp(GlobalPosition, nextCamPos, delta * FollowSpeed);
      }
      if Zoom != zoom {
        LerpKeepsUniform(Zoom, zoom, delta * ZoomSpeed);
        Zoom := Lerp(Zoom, zoom, delta * ZoomSpeed);
      }
    }

    /** What the engine does with the camera each frame: call the per-frame
        handler only while processing is on. */
    method Frame(delta: real, sqrt: real -> real)
      requires Valid() && IsSqrt(sqrt)
      requires processing && !ForceCentered ==> viewport != null
      modifies this`GlobalPosition, this`Zoom
      ensures Valid()
      ensures !processing ==> GlobalPosition == old(GlobalPosition) && Zoom == old(Zoom)
      ensures processing ==>
        GlobalPosition == Follow(old(GlobalPosition), old(NextCamPos(sqrt)), delta * FollowSpeed)
      ensures processing ==> Zoom == Follow(old(Zoom), zoom, delta * ZoomSpeed)
    {
      if processing {
        Process(delta, sqrt);
      }
    }

    /** A pressed event matching ZoomIn, ZoomOut or ZoomReset changes the
        desired zoom (`ZoomAfter`); the applied zoom follows it frame by
        frame. */
    method UnhandledInput(event: InputEvent)
      requires Valid()
      modifies this`zoom
      ensures Valid()
      ensures zoom == ZoomAfter(old(zoom), event)
    {
      ZoomAfterKeepsLevel(zoom, event);
      if !event.pressed {
        return;
      }
      if ZoomIn in event.actions {
        var z := Clamp(zoom.x + ZoomStep, MinZoom, MaxZoom);
        zoom := Vector2(z, z);
      } else if ZoomOut in event.actions {
        var z := Clamp(zoom.x - ZoomStep, MinZoom, MaxZoom);
        zoom := Vector2(z, z);
      } else if ZoomReset in event.actions {
        zoom := One;
      }
    }

    /** Releasing the camera: when managed objects may be touched, it stops
        processing and drops its target and viewport; otherwise nothing
        changes. */
    method Dispose(safeToDisposeManagedObjects: bool)
      requires Valid()
      modifies this`processing, this`Target, this`viewport
      ensures Valid()
      ensures safeToDisposeManagedObjects ==> !processing && Target == null && viewport == null
      ensures !safeToDisposeManagedObjects ==>
        processing == old(processing) && Target == old(Target) && viewport == old(viewport)
    {
      if safeToDisposeManagedObjects {
        processing := false;
        Target := null;
        viewport := null;
      }
    }
  }

  /** A camera following a target at the origin on a full-HD viewport, with
      the pointer 300 pixels right of the centre: a frame of a quarter of a
      second lands it exactly on the look-ahead point (100, 0), while the
      applied zoom, already at the desired (1, 1), stays put. */
  method FullHdFirstFrame(sqrt: real -> real) returns (position: Vector2, zoom: Vector2)
    requires IsSqrt(sqrt)
    ensures position == Vector2(100.0, 0.0)
    ensures zoom == One
  {
    var camera := FullHdCamera(sqrt);
    camera.Frame(0.25, sqrt);
    position, zoom := camera.GlobalPosition, camera.Zoom;
  }

  /** The camera of the scenario above, set up as the engine would: created,
      told its viewport, then given its target. */
  method FullHdCamera(sqrt: real -> real) returns (camera: StickyCamera2D)
    requires IsSqrt(sqrt)
    ensures fresh(camera) && camera.Valid() && camera.processing
    ensures !camera.ForceCentered && camera.Target != null && camera.viewport != null
    ensures camera.NextCamPos(sqrt) == Vector2(100.0, 0.0)
    ensures camera.GlobalPosition == Zero && camera.Zoom == One && camera.zoom == One
  {
    var size := Vector2(1920.0, 1080.0);
    var vp := new Viewport(size, Vector2(1260.0, 540.0));
    var target := new Node2D(Zero);
    camera := new StickyCamera2D();
    camera.CalculateCameraAxisScaling(vp);
    SetUpForFullHd(camera, vp, sqrt);
    camera.SetTarget(target);
  }

  lemma SetUpForFullHd(camera: StickyCamera2D, vp: Viewport, sqrt: real -> real)
    requires IsSqrt(sqrt)
    requires vp.VisibleSize == Vector2(1920.0, 1080.0) && vp.MousePosition == Vector2(1260.0, 540.0)
    requires Add(camera.viewportCenter, camera.viewportCenter) == vp.VisibleSize
    requires 1.0 <= camera.axisScaling.x && 1.0 <= camera.axisScaling.y
    requires camera.axisScaling.x == 1.0 || camera.axisScaling.y == 1.0
    requires Mul(vp.VisibleSize, camera.axisScaling) == Vector2(1920.0, 1920.0)
    ensures CalcCameraPosition(vp.MousePosition, camera.viewportCenter, camera.axisScaling, Zero, sqrt)
            == Vector2(100.0, 0.0)
  {
    AxisScalingUnique(vp.VisibleSize, camera.axisScaling);
    assert camera.viewportCenter == ViewportCenter(vp.VisibleSize);
    FullHdOffset(vp.VisibleSize, vp.MousePosition);
    LeadExample(vp.MousePosition, camera.viewportCenter, camera.axisScaling, sqrt);
  }
}
