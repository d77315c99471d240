/**
 * The "Two Buttons" prototype page: one text box driven by the same DRR gesture logic as
 * the container component, checked against the fixed workspace id "editor-workspace",
 * reporting refusals on the console instead of a toast, and resizable from two sliders.
 */
module TwoButtons {
  import opened Wrappers
  import opened JsMath
  import opened Geometry
  import opened DrrContainer
  import opened TextArea

  const WorkspaceId: string := "editor-workspace"

  /** The page's initial geometry of the editable button label. */
  const DefaultRect: Rect :=
    Rect(55.10204081632653, 84.48979591836735, 187.3469387755102, 90.61224489795919, 349.0)

  const MoveErrorMessage: string :=
    "It is not allowed to move the text area outside the template area by more than 50%. BTW, only the area within the meme template area will be rendered when you download."
  const ResizeErrorMessage: string :=
    "It is not allowed to extend the text area outside the template area by more than 50%. BTW, only the area within the meme template area will be rendered when you download."

  // The two range inputs: `min`, `max` and `step` of each.
  const HeightMin: real := 50.0
  const HeightMax: real := 200.0
  const WidthMin: real := 100.0
  const WidthMax: real := 300.0

  /** A value a range input with step 1 can deliver. */
  predicate SliderValue(v: real, lo: real, hi: real) {
    lo <= v <= hi && IsWhole(v - lo)
  }

  /** The message logged when a drag is refused. */
  function MoveError(accepted: bool): (e: Option<string>)
    ensures e.None? <==> accepted
  {
    if accepted then None else Some(MoveErrorMessage)
  }

  /** The message logged when a resize is refused; the silent drop of a non-positive side logs nothing. */
  function ResizeError(o: ResizeOutcome): (e: Option<string>)
    ensures e.Some? <==> o.Rejected?
  {
    if o.Rejected? then Some(ResizeErrorMessage) else None
  }

  /** The default geometry starts inside the 600 x 908 template image and passes the check. */
  lemma DefaultRectAccepted(workspaceWidth: real, workspaceHeight: real)
    requires workspaceWidth >= 600.0 && workspaceHeight >= 908.0
    ensures CheckVisibleAreaValid(DefaultRect, Some((workspaceWidth, workspaceHeight)))
  {
    FullyInsideAccepted(DefaultRect, workspaceWidth, workspaceHeight);
  }

  class Page {
    const drr: Controller
    var text: string
    var textFontSize: real

    ghost predicate Valid()
      reads this, drr
    {
      drr.validAreaId == WorkspaceId && drr.Valid()
    }

    /** The initial state: default geometry, text "Edit Me." and font size 0. */
    constructor ()
      ensures Valid()
      ensures fresh(drr)
      ensures drr.Position() == DefaultRect && drr.rotateGrip.None? && drr.resizeGrip.None?
      ensures text == "Edit Me." && textFontSize == 0.0
    {
      drr := new Controller(DefaultRect, WorkspaceId);
      text := "Edit Me.";
      textFontSize := 0.0;
    }

    /** `onDragEnd`, checked against "editor-workspace"; a refusal logs an error. */
    method DragEnd(deltaX: real, deltaY: real, dom: map<string, (real, real)>) returns (error: Option<string>)
      requires Valid()
      modifies drr`x, drr`y
      ensures Valid()
      ensures var moved := old(drr.Position()).(x := old(drr.x) + deltaX, y := old(drr.y) + deltaY);
        var ok := CheckVisibleAreaValid(moved, ElementSize(dom, WorkspaceId));
        && error == MoveError(ok)
        && (ok ==> drr.x == old(drr.x) + deltaX && drr.y == old(drr.y) + deltaY)
        && (!ok ==> drr.x == old(drr.x) && drr.y == old(drr.y))
    {
      var accepted := drr.DragEnd(deltaX, deltaY, dom);
      error := MoveError(accepted);
    }

    /** A window mouse-move during the page's rotate or resize gesture. */
    method MouseMove(clientX: real, clientY: real, pointerAngle: (real, real) -> real,
                     dom: map<string, (real, real)>) returns (error: Option<string>)
      requires Valid()
      modifies drr`rotation, drr`x, drr`y, drr`width, drr`height
      ensures Valid()
      ensures drr.rotation == if drr.rotateGrip.Some? then RotationAt(drr.rotateGrip.value, clientX, clientY, pointerAngle)
                              else old(drr.rotation)
      ensures var o := if drr.resizeGrip.Some?
                       then ResizeDecision(drr.resizeGrip.value, clientX, clientY, ElementSize(dom, WorkspaceId))
                       else Unchanged;
        && error == ResizeError(o)
        && (o.Resized? ==> drr.x == o.rect.x && drr.y == o.rect.y && drr.width == o.rect.width && drr.height == o.rect.height)
        && (!o.Resized? ==> drr.x == old(drr.x) && drr.y == old(drr.y)
                            && drr.width == old(drr.width) && drr.height == old(drr.height))
    {
      var outcome := drr.MouseMove(clientX, clientY, pointerAngle, dom);
      error := ResizeError(outcome);
    }

    /** The height slider writes the height directly, with no containment check. */
    method SetHeightFromSlider(v: real)
      requires Valid() && SliderValue(v, HeightMin, HeightMax)
      modifies drr`height
      ensures Valid()
      ensures drr.height == v && HeightMin <= drr.height <= HeightMax
    {
      drr.height := v;
    }

    /** The width slider writes the width directly, with no containment check. */
    method SetWidthFromSlider(v: real)
      requires Valid() && SliderValue(v, WidthMin, WidthMax)
      modifies drr`width
      ensures Valid()
      ensures drr.width == v && WidthMin <= drr.width <= WidthMax
    {
      drr.width := v;
    }

    /**
     * `Textfit.onReady`: the fitted font size replaces the state only when it differs;
     * `updated` says whether the setter ran.
     */
    method OnReady(fitted: real) returns (updated: bool)
      modifies this`textFontSize
      ensures updated <==> FontSizeUpdate(old(textFontSize), fitted).Some?
      ensures textFontSize == fitted
    {
      updated := false;
      if fitted != textFontSize {
        textFontSize := fitted;
        updated := true;
      }
    }

    /** `onInput`: the editor's text content, or "" when it has none. */
    method OnInput(textContent: Option<string>)
      modifies this`text
      ensures text == InputText(textContent)
    {
      text := InputText(textContent);
    }
  }
}
