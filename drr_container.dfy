/**
 * The DRR ("Drag, Rotate, Resize") container: one element's position, size and rotation,
 * and the three pointer gestures that change them.
 *
 * A drag ends with a pointer delta and is committed only when the moved element stays at
 * least half inside the workspace element. A rotate or resize gesture starts with a
 * mouse-down on a handle, which captures the geometry at that moment; every later
 * mouse-move recomputes from that captured geometry, and a mouse-up ends the gesture.
 */
module DrrContainer {
  import opened Wrappers
  import opened JsMath
  import opened Geometry

  /** What a rotate-handle mouse-down captures: the element centre, the pointer angle and the rotation. */
  datatype RotateGrip = RotateGrip(centerX: real, centerY: real, initialAngle: real, initialRotation: real)

  /** What a resize-handle mouse-down captures: the handle name, the pointer and the element geometry. */
  datatype ResizeGrip = ResizeGrip(handleType: string, startX: real, startY: real, start: Rect)

  /** The result of one resize mouse-move. */
  datatype ResizeOutcome =
    | Unchanged          // no resize gesture, or the candidate has a non-positive side
    | Rejected           // the candidate sticks out of the workspace by more than half
    | Resized(rect: Rect)

  /** A message handed to the optional toast callback. */
  datatype Toast = Toast(title: string, message: string)

  const ToastTitle: string := "For your information"
  const MoveRejectedMessage: string :=
    "It is not allowed to move the text area outside its container area by more than 50%. BTW, only the area within the template+spacing area will be rendered when you download."
  const ResizeRejectedMessage: string :=
    "It is not allowed to extend the text area outside its container area by more than 50%. BTW, only the area within the template+spacing area will be rendered when you download."

  /**
   * `document.getElementById(id)?.getBoundingClientRect()` over a page given as a map from
   * element id to the (width, height) of its bounding box.
   */
  function ElementSize(dom: map<string, (real, real)>, id: string): (size: Option<(real, real)>)
    ensures size.Some? <==> id in dom
    ensures size.Some? ==> size.value == dom[id]
  {
    if id in dom then Some(dom[id]) else None
  }

  /**
   * The rotation a rotate mouse-move sets. `pointerAngle(dy, dx)` stands for
   * `Math.atan2(dy, dx) * (180 / Math.PI)`.
   */
  function RotationAt(g: RotateGrip, clientX: real, clientY: real, pointerAngle: (real, real) -> real): (r: real)
    ensures 0.0 <= r < 360.0
    ensures IsWhole((g.initialRotation + (pointerAngle(clientY - g.centerY, clientX - g.centerX) - g.initialAngle) - r) / 360.0)
  {
    var currentAngle := pointerAngle(clientY - g.centerY, clientX - g.centerX);
    var delta := currentAngle - g.initialAngle;
    NormalizeDegreesSpec(g.initialRotation + delta);
    NormalizeDegrees(g.initialRotation + delta)
  }

  /** Moving the pointer back to where the rotate gesture started restores an in-range rotation. */
  lemma RotationReturnsHome(cx: real, cy: real, startX: real, startY: real, rotation: real,
                            pointerAngle: (real, real) -> real)
    requires 0.0 <= rotation < 360.0
    ensures RotationAt(RotateGrip(cx, cy, pointerAngle(startY - cy, startX - cx), rotation),
                       startX, startY, pointerAngle) == rotation
  {
    NormalizeDegreesSpec(rotation);
    assert rotation + (pointerAngle(startY - cy, startX - cx) - pointerAngle(startY - cy, startX - cx)) == rotation;
  }

  /** The candidate geometry of a resize mouse-move at (clientX, clientY). */
  function ResizeTarget(g: ResizeGrip, clientX: real, clientY: real): (r: Rect)
    ensures r.rotation == g.start.rotation
    ensures !MovesLeft(ParseHandle(g.handleType)) ==> r.x == g.start.x
    ensures !MovesRight(ParseHandle(g.handleType)) ==> r.x + r.width == g.start.x + g.start.width
    ensures !MovesTop(ParseHandle(g.handleType)) ==> r.y == g.start.y
    ensures !MovesBottom(ParseHandle(g.handleType)) ==> r.y + r.height == g.start.y + g.start.height
  {
    ResizeCandidate(ParseHandle(g.handleType), g.start, clientX - g.startX, clientY - g.startY)
  }

  /**
   * The decision of a resize mouse-move: a candidate with a non-positive side is dropped
   * silently, one that fails the containment check is rejected, any other is committed.
   */
  function ResizeDecision(g: ResizeGrip, clientX: real, clientY: real, workspace: Option<(real, real)>): (o: ResizeOutcome)
    ensures o.Resized? <==> ResizeTarget(g, clientX, clientY).width > 0.0
                            && ResizeTarget(g, clientX, clientY).height > 0.0
                            && CheckVisibleAreaValid(ResizeTarget(g, clientX, clientY), workspace)
    ensures o.Rejected? <==> ResizeTarget(g, clientX, clientY).width > 0.0
                             && ResizeTarget(g, clientX, clientY).height > 0.0
                             && !CheckVisibleAreaValid(ResizeTarget(g, clientX, clientY), workspace)
    ensures o.Resized? ==> o.rect == ResizeTarget(g, clientX, clientY)
  {
    var c := ResizeTarget(g, clientX, clientY);
    if c.width > 0.0 && c.height > 0.0 then
      if CheckVisibleAreaValid(c, workspace) then Resized(c) else Rejected
    else Unchanged
  }

  /** A committed resize keeps at least half of the element inside the workspace. */
  lemma ResizedStaysHalfVisible(g: ResizeGrip, clientX: real, clientY: real, ww: real, wh: real)
    requires ResizeDecision(g, clientX, clientY, Some((ww, wh))).Resized?
    ensures var r := ResizeDecision(g, clientX, clientY, Some((ww, wh))).rect;
      r.width > 0.0 && r.height > 0.0 && 2.0 * VisibleArea(r, ww, wh) >= Area(r)
  {
    AcceptedIffHalfVisible(ResizeTarget(g, clientX, clientY), ww, wh);
  }

  /** Without a workspace element every candidate with positive sides is committed. */
  lemma ResizeWithoutWorkspace(g: ResizeGrip, clientX: real, clientY: real)
    ensures ResizeDecision(g, clientX, clientY, None).Resized?
        <==> ResizeTarget(g, clientX, clientY).width > 0.0 && ResizeTarget(g, clientX, clientY).height > 0.0
  {
  }

  /** With the pointer back at the mouse-down point the candidate is the mouse-down geometry. */
  lemma {:induction false} ResizeAtStartPoint(g: ResizeGrip)
    ensures ResizeTarget(g, g.startX, g.startY) == g.start
  {
    var r := ResizeTarget(g, g.startX, g.startY);
    assert r.x == g.start.x && r.y == g.start.y;
    assert r.width == g.start.width && r.height == g.start.height;
  }

  /** The toast sent when a drag is refused. */
  function MoveToast(accepted: bool): (t: Option<Toast>)
    ensures t.None? <==> accepted
  {
    if accepted then None else Some(Toast(ToastTitle, MoveRejectedMessage))
  }

  /** The toast sent when a resize is refused. */
  function ResizeToast(o: ResizeOutcome): (t: Option<Toast>)
    ensures t.Some? <==> o.Rejected?
  {
    if o.Rejected? then Some(Toast(ToastTitle, ResizeRejectedMessage)) else None
  }

  /** The arguments passed to the optional size-change callback. */
  function SizeChange(o: ResizeOutcome): (s: Option<(real, real)>)
    ensures s.Some? <==> o.Resized?
    ensures s.Some? ==> s.value == (o.rect.width, o.rect.height)
  {
    if o.Resized? then Some((o.rect.width, o.rect.height)) else None
  }

  /** The state of one DRR container. */
  class Controller {
    const validAreaId: string
    var x: real
    var y: real
    var width: real
    var height: real
    var rotation: real
    var isRotating: bool
    var rotateGrip: Option<RotateGrip>
    var resizeGrip: Option<ResizeGrip>

    /** The rotate-handle highlight is on exactly while a rotate gesture is in progress. */
    ghost predicate Valid()
      reads this
    {
      isRotating <==> rotateGrip.Some?
    }

    function Position(): Rect
      reads this
    {
      Rect(x, y, width, height, rotation)
    }

    /** The initial state comes from the `initialPosition` prop; no gesture is in progress. */
    constructor (initial: Rect, validAreaId: string)
      ensures this.validAreaId == validAreaId
      ensures Position() == initial
      ensures !isRotating && rotateGrip.None? && resizeGrip.None?
      ensures Valid()
    {
      this.validAreaId := validAreaId;
      x := initial.x;
      y := initial.y;
      width := initial.width;
      height := initial.height;
      rotation := initial.rotation;
      isRotating := false;
      rotateGrip := None;
      resizeGrip := None;
    }

    /**
     * `onDragEnd`: the element moves by the drag delta when the workspace element is missing
     * or the moved element passes the containment check; otherwise it stays where it was.
     */
    method DragEnd(deltaX: real, deltaY: real, dom: map<string, (real, real)>) returns (accepted: bool)
      modifies this`x, this`y
      ensures accepted == CheckVisibleAreaValid(old(Position()).(x := old(x) + deltaX, y := old(y) + deltaY),
                                                ElementSize(dom, validAreaId))
      ensures accepted ==> x == old(x) + deltaX && y == old(y) + deltaY
      ensures !accepted ==> x == old(x) && y == old(y)
    {
      var newX := x + deltaX;
      var newY := y + deltaY;
      var workspace := ElementSize(dom, validAreaId);
      if workspace.Some? {
        if !CheckVisibleAreaValid(Rect(newX, newY, width, height, rotation), workspace) {
          return false;
        }
      }
      x, y := newX, newY;
      accepted := true;
    }

    /** Rotate-handle mouse-down: captures the centre, the pointer angle and the rotation. */
    method BeginRotate(clientX: real, clientY: real, pointerAngle: (real, real) -> real)
      modifies this`isRotating, this`rotateGrip
      ensures isRotating
      ensures rotateGrip == Some(RotateGrip(x + width / 2.0, y + height / 2.0,
                                            pointerAngle(clientY - (y + height / 2.0), clientX - (x + width / 2.0)),
                                            rotation))
      ensures Valid()
    {
      isRotating := true;
      var centerX := x + width / 2.0;
      var centerY := y + height / 2.0;
      var initialAngle := pointerAngle(clientY - centerY, clientX - centerX);
      rotateGrip := Some(RotateGrip(centerX, centerY, initialAngle, rotation));
    }

    /** Resize-handle mouse-down: captures the handle name, the pointer and the geometry. */
    method BeginResize(handleType: string, clientX: real, clientY: real)
      modifies this`resizeGrip
      ensures resizeGrip == Some(ResizeGrip(handleType, clientX, clientY, Position()))
    {
      resizeGrip := Some(ResizeGrip(handleType, clientX, clientY, Rect(x, y, width, height, rotation)));
    }

    /** The rotate gesture's mouse-move listener; the rotation is not checked against the workspace. */
    method RotateMove(clientX: real, clientY: real, pointerAngle: (real, real) -> real)
      modifies this`rotation
      ensures old(rotateGrip).Some? ==> rotation == RotationAt(rotateGrip.value, clientX, clientY, pointerAngle)
      ensures old(rotateGrip).Some? ==> 0.0 <= rotation < 360.0
      ensures old(rotateGrip).None? ==> rotation == old(rotation)
    {
      if rotateGrip.Some? {
        var g := rotateGrip.value;
        var currentAngle := pointerAngle(clientY - g.centerY, clientX - g.centerX);
        var delta := currentAngle - g.initialAngle;
        var newRotation := g.initialRotation + delta;
        newRotation := Rem(Rem(newRotation, 360.0) + 360.0, 360.0);
        rotation := newRotation;
      }
    }

    /**
     * The resize gesture's mouse-move listener: runs the handle switch against the
     * mouse-down geometry and commits the candidate only when `ResizeDecision` accepts it.
     */
    method ResizeMove(clientX: real, clientY: real, dom: map<string, (real, real)>) returns (outcome: ResizeOutcome)
      modifies this`x, this`y, this`width, this`height
      ensures old(resizeGrip).None? ==> outcome == Unchanged
      ensures old(resizeGrip).Some? ==>
        outcome == ResizeDecision(resizeGrip.value, clientX, clientY, ElementSize(dom, validAreaId))
      ensures outcome.Resized? ==> x == outcome.rect.x && y == outcome.rect.y
                                   && width == outcome.rect.width && height == outcome.rect.height
      ensures !outcome.Resized? ==> x == old(x) && y == old(y) && width == old(width) && height == old(height)
    {
      if resizeGrip.None? {
        return Unchanged;
      }
      var g := resizeGrip.value;
      var deltaX := clientX - g.startX;
      var deltaY := clientY - g.startY;
      var newX, newY, newWidth, newHeight := ComputeResize(g.handleType, g.start, deltaX, deltaY);
      assert Rect(newX, newY, newWidth, newHeight, g.start.rotation) == ResizeTarget(g, clientX, clientY);
      if newWidth > 0.0 && newHeight > 0.0 {
        if !CheckVisibleAreaValid(Rect(newX, newY, newWidth, newHeight, g.start.rotation), ElementSize(dom, validAreaId)) {
          return Rejected;
        } else {
          width, height := newWidth, newHeight;
          x, y := newX, newY;
          return Resized(Rect(newX, newY, newWidth, newHeight, g.start.rotation));
        }
      }
      outcome := Unchanged;
    }

    /**
     * A window mouse-move: both gesture listeners run (they write disjoint fields, so the
     * order does not matter).
     */
    method MouseMove(clientX: real, clientY: real, pointerAngle: (real, real) -> real,
                     dom: map<string, (real, real)>) returns (outcome: ResizeOutcome)
      modifies this`rotation, this`x, this`y, this`width, this`height
      ensures rotation == if rotateGrip.Some? then RotationAt(rotateGrip.value, clientX, clientY, pointerAngle)
                          else old(rotation)
      ensures outcome == if resizeGrip.Some?
                         then ResizeDecision(resizeGrip.value, clientX, clientY, ElementSize(dom, validAreaId))
                         else Unchanged
      ensures outcome.Resized? ==> x == outcome.rect.x && y == outcome.rect.y
                                   && width == outcome.rect.width && height == outcome.rect.height
      ensures !outcome.Resized? ==> x == old(x) && y == old(y) && width == old(width) && height == old(height)
    {
      RotateMove(clientX, clientY, pointerAngle);
      outcome := ResizeMove(clientX, clientY, dom);
    }

    /** A window mouse-up removes every gesture listener and clears the rotate highlight. */
    method MouseUp()
      requires Valid()
      modifies this`isRotating, this`rotateGrip, this`resizeGrip
      ensures !isRotating && rotateGrip.None? && resizeGrip.None?
      ensures Valid()
    {
      if rotateGrip.Some? {
        isRotating := false;
      }
      rotateGrip := None;
      resizeGrip := None;
    }
  }
}
