/**
 * The draggable wrapper: the activation handler that refuses to start a drag on a
 * "no drag" zone, the two sensors that share it, and the element's position style.
 */
module Draggable {
  import opened Wrappers

  /**
   * An element on the path from the event target to the root, with its `dataset`
   * (absent on nodes that have none).
   */
  datatype Element = Element(dataset: Option<map<string, string>>)

  /**
   * `cur.dataset && cur.dataset.noDnd`: the `data-no-dnd` attribute is present with a
   * non-empty (truthy) value.
   */
  predicate Marked(e: Element)
    ensures e.dataset.None? ==> !Marked(e)
    ensures e.dataset.Some? && "noDnd" !in e.dataset.value ==> !Marked(e)
    ensures e.dataset == Some(map["noDnd" := ""]) ==> !Marked(e)
    ensures e.dataset == Some(map["noDnd" := "true"]) ==> Marked(e)
  {
    e.dataset.Some? && "noDnd" in e.dataset.value && e.dataset.value["noDnd"] != ""
  }

  /** The position of the first marked element on the path, if any. */
  function FirstMarked(path: seq<Element>): (r: Option<nat>)
    ensures r.Some? ==> r.value < |path| && Marked(path[r.value])
    ensures r.Some? ==> forall k :: 0 <= k < r.value ==> !Marked(path[k])
    ensures r.None? ==> forall k :: 0 <= k < |path| ==> !Marked(path[k])
  {
    if |path| == 0 then None
    else if Marked(path[0]) then Some(0)
    else match FirstMarked(path[1..])
      case None => None
      case Some(i) => Some(i + 1)
  }

  /**
   * The activation handler. `path[0]` is the event target and `path[i + 1]` is the parent
   * of `path[i]`; the walk stops at the first marked element, or allows the drag once it
   * has passed the root.
   */
  method Handler(path: seq<Element>) returns (allowed: bool)
    ensures allowed <==> forall k :: 0 <= k < |path| ==> !Marked(path[k])
    ensures allowed <==> FirstMarked(path).None?
  {
    var i := 0;
    while i < |path|
      invariant 0 <= i <= |path|
      invariant forall k :: 0 <= k < i ==> !Marked(path[k])
    {
      if Marked(path[i]) {
        return false;
      }
      i := i + 1;
    }
    return true;
  }

  /** The walk over a path split into a lower part and the ancestors above it. */
  lemma {:induction false} FirstMarkedAppend(lower: seq<Element>, upper: seq<Element>)
    ensures FirstMarked(lower + upper) ==
      match FirstMarked(lower)
      case Some(i) => Some(i)
      case None => match FirstMarked(upper)
        case Some(j) => Some(|lower| + j)
        case None => None
  {
    if |lower| == 0 {
      assert lower + upper == upper;
    } else {
      assert (lower + upper)[0] == lower[0];
      assert (lower + upper)[1..] == lower[1..] + upper;
      FirstMarkedAppend(lower[1..], upper);
    }
  }

  /** A marked target refuses the drag whatever lies above it. */
  lemma MarkedTargetRefuses(target: Element, ancestors: seq<Element>)
    requires Marked(target)
    ensures FirstMarked([target] + ancestors) == Some(0)
  {
  }

  datatype Sensor = MouseSensor | TouchSensor

  /** The DOM event each sensor activates on. */
  function ActivatorEvent(s: Sensor): (name: string)
    ensures name == (if s == MouseSensor then "onMouseDown" else "onTouchStart")
  {
    match s
    case MouseSensor => "onMouseDown"
    case TouchSensor => "onTouchStart"
  }

  /** Both sensors run the same handler, so they agree on every event path. */
  method Activate(s: Sensor, path: seq<Element>) returns (allowed: bool)
    ensures allowed <==> FirstMarked(path).None?
  {
    allowed := Handler(path);
  }

  /** The inline style of the draggable element. */
  datatype Style = Style(top: real, left: real, width: real, height: real,
                         rotateDegrees: real, translateX: real, translateY: real)

  /**
   * The style for the given props and dnd-kit's current transform (absent when no drag
   * is in progress).
   */
  function DraggableStyle(top: real, left: real, width: real, height: real, rotation: real,
                          transform: Option<(real, real)>): (s: Style)
    ensures s.top == top && s.left == left && s.width == width && s.height == height
    ensures s.rotateDegrees == rotation
    ensures transform.None? ==> s.translateX == 0.0 && s.translateY == 0.0
    ensures transform.Some? ==> s.translateX == transform.value.0 && s.translateY == transform.value.1
  {
    var (tx, ty) := if transform.Some? then transform.value else (0.0, 0.0);
    Style(top, left, width, height, rotation, tx, ty)
  }
}
