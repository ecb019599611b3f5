/** The pointer and touch controls of the page: a drag pans or rotates the camera
    depending on a mode that a double-click toggles, and the wheel starts an eased
    zoom toward a clamped target depth. */
module Interaction {
  import opened Scene
  import opened Zoom

  const MinZoom: real := 5.0
  const MaxZoom: real := 15.0
  const ZoomIntensity: real := 0.5
  const RotationSpeed: real := 0.005
  const PanSpeed: real := 0.01

  /** Screen coordinates of a pointer event (clientX, clientY; for touch, those of the first touch). */
  datatype Point = Point(x: real, y: real)

  /** The arguments the wheel handler passes to the zoom animation. */
  datatype ZoomTask = ZoomTask(startZ: real, endZ: real)

  /** The target depth of a wheel event: the current z moved by deltaY * 0.5, clamped to [MinZoom, MaxZoom]. */
  function ZoomTarget(z: real, deltaY: real): (t: real)
    ensures MinZoom <= t <= MaxZoom
    ensures MinZoom <= z - deltaY * ZoomIntensity <= MaxZoom ==> t == z - deltaY * ZoomIntensity
    ensures z - deltaY * ZoomIntensity < MinZoom ==> t == MinZoom
    ensures z - deltaY * ZoomIntensity > MaxZoom ==> t == MaxZoom
  {
    Max(MinZoom, Min(MaxZoom, z - deltaY * ZoomIntensity))
  }

  /** Scrolling further never zooms less far: the target falls as deltaY grows. */
  lemma ZoomTargetMonotone(z: real, deltaY1: real, deltaY2: real)
    requires deltaY1 <= deltaY2
    ensures ZoomTarget(z, deltaY2) <= ZoomTarget(z, deltaY1)
  {
  }

  /** Once z is in range, the zoom target is the nearest in-range depth to z - deltaY * 0.5, so
      applying the same wheel motion from the clamped result with deltaY 0 changes nothing. */
  lemma ZoomTargetIdempotent(z: real, deltaY: real)
    ensures ZoomTarget(ZoomTarget(z, deltaY), 0.0) == ZoomTarget(z, deltaY)
  {
  }

  /** A completed wheel zoom leaves the camera within [MinZoom, MaxZoom], and while it runs z stays
      between the depth it started from and the target. */
  lemma WheelZoomStaysBetween(z: real, deltaY: real, elapsed: real)
    requires 0.0 <= elapsed
    ensures Between(ZoomStep(z, ZoomTarget(z, deltaY), elapsed).z, z, ZoomTarget(z, deltaY))
    ensures elapsed >= Duration ==> MinZoom <= ZoomStep(z, ZoomTarget(z, deltaY), elapsed).z <= MaxZoom
  {
  }

  /** The camera after a drag by (deltaX, deltaY): rotation in rotate mode, panning otherwise. It
      changes the rotation in rotate mode and the position in pan mode, never both, and never the
      depth; any movement of the pointer does change the one it acts on. */
  function Dragged(p: Pose, rotateMode: bool, deltaX: real, deltaY: real): (q: Pose)
    ensures q.posZ == p.posZ
    ensures rotateMode ==> q.posX == p.posX && q.posY == p.posY
    ensures !rotateMode ==> q.rotX == p.rotX && q.rotY == p.rotY
    ensures (deltaX, deltaY) != (0.0, 0.0) ==> q != p
  {
    if rotateMode then
      p.(rotY := p.rotY - deltaX * RotationSpeed, rotX := p.rotX - deltaY * RotationSpeed)
    else
      p.(posX := p.posX - deltaX * PanSpeed, posY := p.posY + deltaY * PanSpeed)
  }

  /** Two drags in the same mode add up to one drag by the summed deltas. */
  lemma DraggedAdditive(p: Pose, rotateMode: bool, dx1: real, dy1: real, dx2: real, dy2: real)
    ensures Dragged(Dragged(p, rotateMode, dx1, dy1), rotateMode, dx2, dy2)
         == Dragged(p, rotateMode, dx1 + dx2, dy1 + dy2)
  {
  }

  /** The camera after a drag handler call for each point of `path` in turn, starting with the
      last recorded pointer position (lastX, lastY). */
  function FollowPath(p: Pose, rotateMode: bool, lastX: real, lastY: real, path: seq<Point>): Pose
    decreases |path|
  {
    if path == [] then p
    else FollowPath(Dragged(p, rotateMode, path[0].x - lastX, path[0].y - lastY),
                    rotateMode, path[0].x, path[0].y, path[1..])
  }

  /** The deltas of a drag session telescope: whatever route the pointer takes, the camera ends
      where one drag straight from the starting point to the last point would put it. */
  lemma {:induction false} FollowPathTelescopes(p: Pose, rotateMode: bool, lastX: real, lastY: real, path: seq<Point>)
    requires path != []
    ensures FollowPath(p, rotateMode, lastX, lastY, path)
         == Dragged(p, rotateMode, path[|path| - 1].x - lastX, path[|path| - 1].y - lastY)
    decreases |path|
  {
    var q := Dragged(p, rotateMode, path[0].x - lastX, path[0].y - lastY);
    if |path| > 1 {
      var last := path[|path| - 1];
      FollowPathTelescopes(q, rotateMode, path[0].x, path[0].y, path[1..]);
      DraggedAdditive(p, rotateMode, path[0].x - lastX, path[0].y - lastY, last.x - path[0].x, last.y - path[0].y);
    }
  }

  /** The state captured by the page's control handlers, and the camera they drive. */
  class Controls {
    const camera: Camera
    var isDragging: bool
    var rotateMode: bool
    var lastX: real
    var lastY: real

    /** Controls start out idle, in pan mode. The last pointer position is undefined in the page
        until the first drag starts; it is never read before then, and starts here at the origin. */
    constructor (camera: Camera)
      ensures this.camera == camera && !isDragging && !rotateMode
      ensures lastX == 0.0 && lastY == 0.0
    {
      this.camera := camera;
      isDragging, rotateMode := false, false;
      lastX, lastY := 0.0, 0.0;
    }

    /** Double-click: switches between pan and rotate mode, whether or not a drag is under way. */
    method ToggleMode()
      modifies this`rotateMode
      ensures rotateMode == !old(rotateMode)
    {
      rotateMode := !rotateMode;
    }

    /** Mouse-down or touch-start: begins a drag at the event's coordinates. */
    method StartDragging(x: real, y: real)
      modifies this`isDragging, this`lastX, this`lastY
      ensures isDragging && lastX == x && lastY == y
    {
      isDragging := true;
      lastX := x;
      lastY := y;
    }

    /** Mouse-move or touch-move: moves the camera by the pointer's motion since the last event, then
        records the event's coordinates. Without a drag under way it does nothing at all. */
    method Drag(x: real, y: real)
      modifies this`lastX, this`lastY, camera
      ensures old(isDragging) ==> camera.State() == Dragged(old(camera.State()), rotateMode, x - old(lastX), y - old(lastY))
      ensures old(isDragging) ==> lastX == x && lastY == y
      ensures !old(isDragging) ==> unchanged(this) && unchanged(camera)
    {
      if !isDragging {
        return;
      }
      var deltaX := x - lastX;
      var deltaY := y - lastY;
      if rotateMode {
        camera.rotY := camera.rotY - deltaX * RotationSpeed;
        camera.rotX := camera.rotX - deltaY * RotationSpeed;
      } else {
        camera.posX := camera.posX - deltaX * PanSpeed;
        camera.posY := camera.posY + deltaY * PanSpeed;
      }
      lastX := x;
      lastY := y;
    }

    /** Mouse-up or touch-end: ends any drag; calling it again, or without a drag, changes nothing more. */
    method EndDragging()
      modifies this`isDragging
      ensures !isDragging
    {
      isDragging := false;
    }

    /** Wheel: the zoom animation to start, from the camera's current z to the clamped target. */
    method Zoom(deltaY: real) returns (task: ZoomTask)
      ensures task.startZ == camera.posZ
      ensures MinZoom <= task.endZ <= MaxZoom
      ensures task.endZ == ZoomTarget(camera.posZ, deltaY)
    {
      var targetZ := camera.posZ - deltaY * ZoomIntensity;
      targetZ := Max(MinZoom, Min(MaxZoom, targetZ));
      task := ZoomTask(camera.posZ, targetZ);
    }
  }

  /** Double-clicking twice restores the mode the controls were in. */
  method ToggleTwice(c: Controls)
    modifies c`rotateMode
    ensures c.rotateMode == old(c.rotateMode)
    ensures c.isDragging == old(c.isDragging) && c.lastX == old(c.lastX) && c.lastY == old(c.lastY)
    ensures unchanged(c.camera)
  {
    c.ToggleMode();
    c.ToggleMode();
  }

  /** Releasing the pointer twice leaves the same state as releasing it once. */
  method EndDraggingIdempotent(c: Controls)
    modifies c
    ensures !c.isDragging
    ensures c.rotateMode == old(c.rotateMode) && c.lastX == old(c.lastX) && c.lastY == old(c.lastY)
  {
    c.EndDragging();
    c.EndDragging();
  }

  /** A whole drag gesture on the controls: press at (x0, y0), then one move event per point of
      `path`. The camera ends up exactly as FollowPath says, which is a single drag from the press
      point to the last point. */
  method DragGesture(c: Controls, x0: real, y0: real, path: seq<Point>)
    modifies c, c.camera
    ensures c.isDragging && c.rotateMode == old(c.rotateMode)
    ensures c.camera.State() == FollowPath(old(c.camera.State()), c.rotateMode, x0, y0, path)
    ensures path != [] ==> c.camera.State() == Dragged(old(c.camera.State()), c.rotateMode,
                                                       path[|path| - 1].x - x0, path[|path| - 1].y - y0)
    ensures path == [] ==> c.lastX == x0 && c.lastY == y0
    ensures path != [] ==> c.lastX == path[|path| - 1].x && c.lastY == path[|path| - 1].y
  {
    ghost var start := c.camera.State();
    c.StartDragging(x0, y0);
    var i := 0;
    while i < |path|
      invariant 0 <= i <= |path|
      invariant c.isDragging && c.rotateMode == old(c.rotateMode)
      invariant i == 0 ==> c.lastX == x0 && c.lastY == y0
      invariant 0 < i ==> c.lastX == path[i - 1].x && c.lastY == path[i - 1].y
      invariant c.camera.State() == Dragged(start, c.rotateMode, c.lastX - x0, c.lastY - y0)
    {
      DraggedAdditive(start, c.rotateMode, c.lastX - x0, c.lastY - y0, path[i].x - c.lastX, path[i].y - c.lastY);
      c.Drag(path[i].x, path[i].y);
      i := i + 1;
    }
    if path != [] {
      FollowPathTelescopes(start, c.rotateMode, x0, y0, path);
    }
  }
}
