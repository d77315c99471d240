/**
 * Pure geometry of the Drag-Rotate-Resize (DRR) controller: the rectangle of one element,
 * the eight resize handles and their edge rules, the "at least half visible" containment
 * check against the workspace, and the normalisation of a rotation to [0, 360).
 */
module Geometry {
  import opened Wrappers
  import opened JsMath

  /** An element's geometry: top-left corner, size and rotation in degrees. */
  datatype Rect = Rect(x: real, y: real, width: real, height: real, rotation: real)

  /** The handle names the resize handles pass to the mouse-down handler; anything else is Unmatched. */
  datatype Handle = Top | Bottom | Left | Right | TopLeft | TopRight | BottomLeft | BottomRight | Unmatched

  const HandleNames: set<string> :=
    {"top", "bottom", "left", "right", "top-left", "top-right", "bottom-left", "bottom-right"}

  function HandleName(h: Handle): (s: string)
    ensures h != Unmatched ==> s in HandleNames
    ensures h == Unmatched ==> s !in HandleNames
  {
    match h
    case Top => "top"
    case Bottom => "bottom"
    case Left => "left"
    case Right => "right"
    case TopLeft => "top-left"
    case TopRight => "top-right"
    case BottomLeft => "bottom-left"
    case BottomRight => "bottom-right"
    case Unmatched => ""
  }

  /** Which switch case a handle name selects. */
  function ParseHandle(s: string): (h: Handle)
    ensures h == Unmatched <==> s !in HandleNames
    ensures h != Unmatched ==> HandleName(h) == s
  {
    if s == "top" then Top
    else if s == "bottom" then Bottom
    else if s == "left" then Left
    else if s == "right" then Right
    else if s == "top-left" then TopLeft
    else if s == "top-right" then TopRight
    else if s == "bottom-left" then BottomLeft
    else if s == "bottom-right" then BottomRight
    else Unmatched
  }

  /** Naming a handle and reading the name back gives the same handle. */
  lemma {:induction false} HandleNameRoundTrip(h: Handle)
    requires h != Unmatched
    ensures ParseHandle(HandleName(h)) == h
  {
    match h
    case Top =>
    case Bottom =>
    case Left =>
    case Right =>
    case TopLeft =>
    case TopRight =>
    case BottomLeft =>
    case BottomRight =>
  }

  // Which edges of the rectangle a handle drags along with the pointer.
  predicate MovesTop(h: Handle) { h == Top || h == TopLeft || h == TopRight }
  predicate MovesBottom(h: Handle) { h == Bottom || h == BottomLeft || h == BottomRight }
  predicate MovesLeft(h: Handle) { h == Left || h == TopLeft || h == BottomLeft }
  predicate MovesRight(h: Handle) { h == Right || h == TopRight || h == BottomRight }

  /**
   * The candidate rectangle for a resize move, stated edge by edge: each edge a handle
   * owns follows the pointer delta, every other edge stays where it was at mouse-down.
   */
  function ResizeCandidate(h: Handle, start: Rect, dx: real, dy: real): (r: Rect)
    ensures r.rotation == start.rotation
    ensures r.x == start.x + (if MovesLeft(h) then dx else 0.0)
    ensures r.x + r.width == start.x + start.width + (if MovesRight(h) then dx else 0.0)
    ensures r.y == start.y + (if MovesTop(h) then dy else 0.0)
    ensures r.y + r.height == start.y + start.height + (if MovesBottom(h) then dy else 0.0)
  {
    var left := start.x + (if MovesLeft(h) then dx else 0.0);
    var right := start.x + start.width + (if MovesRight(h) then dx else 0.0);
    var top := start.y + (if MovesTop(h) then dy else 0.0);
    var bottom := start.y + start.height + (if MovesBottom(h) then dy else 0.0);
    Rect(left, top, right - left, bottom - top, start.rotation)
  }

  /** No handle owns two opposite edges, so the opposite edge of a dragged one stays anchored. */
  lemma {:induction false} ResizeAnchorsOppositeEdge(h: Handle, start: Rect, dx: real, dy: real)
    ensures var r := ResizeCandidate(h, start, dx, dy);
      && (MovesTop(h) ==> r.y + r.height == start.y + start.height && r.height == start.height - dy)
      && (MovesBottom(h) ==> r.y == start.y && r.height == start.height + dy)
      && (MovesLeft(h) ==> r.x + r.width == start.x + start.width && r.width == start.width - dx)
      && (MovesRight(h) ==> r.x == start.x && r.width == start.width + dx)
      && (!MovesLeft(h) && !MovesRight(h) ==> r.x == start.x && r.width == start.width)
      && (!MovesTop(h) && !MovesBottom(h) ==> r.y == start.y && r.height == start.height)
  {
    assert !(MovesTop(h) && MovesBottom(h));
    assert !(MovesLeft(h) && MovesRight(h));
  }

  /** An unmatched handle name leaves the mouse-down geometry as it was. */
  lemma UnmatchedHandleKeepsStart(start: Rect, dx: real, dy: real)
    ensures ResizeCandidate(Unmatched, start, dx, dy) == start
  {
  }

  /**
   * The resize switch of the mouse-move handler: starts from the mouse-down geometry and
   * reassigns the locals the matched case names.
   */
  method ComputeResize(handleType: string, start: Rect, deltaX: real, deltaY: real)
    returns (newX: real, newY: real, newWidth: real, newHeight: real)
    ensures Rect(newX, newY, newWidth, newHeight, start.rotation)
         == ResizeCandidate(ParseHandle(handleType), start, deltaX, deltaY)
  {
    newWidth := start.width;
    newHeight := start.height;
    newX := start.x;
    newY := start.y;
    if handleType == "top" {
      newHeight := start.height - deltaY;
      newY := start.y + deltaY;
      newWidth := start.width;
    } else if handleType == "bottom" {
      newHeight := start.height + deltaY;
      newWidth := start.width;
    } else if handleType == "left" {
      newWidth := start.width - deltaX;
      newX := start.x + deltaX;
      newHeight := start.height;
    } else if handleType == "right" {
      newWidth := start.width + deltaX;
      newHeight := start.height;
    } else if handleType == "top-left" {
      newWidth := start.width - deltaX;
      newHeight := start.height - deltaY;
      newX := start.x + deltaX;
      newY := start.y + deltaY;
    } else if handleType == "top-right" {
      newWidth := start.width + deltaX;
      newHeight := start.height - deltaY;
      newY := start.y + deltaY;
    } else if handleType == "bottom-left" {
      newWidth := start.width - deltaX;
      newHeight := start.height + deltaY;
      newX := start.x + deltaX;
    } else if handleType == "bottom-right" {
      newWidth := start.width + deltaX;
      newHeight := start.height + deltaY;
    }
  }

  /** The two worked resize examples: bottom-right and top-left from (0,0,100,100) by (20,-10). */
  lemma ResizeExamples()
    ensures ResizeCandidate(BottomRight, Rect(0.0, 0.0, 100.0, 100.0, 0.0), 20.0, -10.0)
         == Rect(0.0, 0.0, 120.0, 90.0, 0.0)
    ensures ResizeCandidate(TopLeft, Rect(0.0, 0.0, 100.0, 100.0, 0.0), 20.0, -10.0)
         == Rect(20.0, -10.0, 80.0, 110.0, 0.0)
  {
  }

  // ---------------------------------------------------------------------------------------
  // Containment

  /** The default share of the element that must stay inside the workspace. */
  const DefaultThreshold: real := 0.5

  /** Length of [start, start + length] that falls inside [0, limit]. */
  function VisibleSpan(start: real, length: real, limit: real): (v: real)
    ensures v >= 0.0
    ensures length >= 0.0 ==> v <= length
    ensures 0.0 <= start && start + length <= limit && length >= 0.0 ==> v == length
    ensures start >= limit || start + length <= 0.0 ==> v == 0.0
  {
    Max(0.0, Min(start + length, limit) - Max(start, 0.0))
  }

  /** Area of the unrotated rectangle that lies inside the workspace [0, w] x [0, h]. */
  function VisibleArea(r: Rect, workspaceWidth: real, workspaceHeight: real): (v: real)
    ensures (&& r.width >= 0.0 && r.height >= 0.0
             && 0.0 <= r.x && r.x + r.width <= workspaceWidth
             && 0.0 <= r.y && r.y + r.height <= workspaceHeight) ==> v == Area(r)
    ensures (|| r.x >= workspaceWidth || r.x + r.width <= 0.0
             || r.y >= workspaceHeight || r.y + r.height <= 0.0) ==> v == 0.0
  {
    var sx, sy := VisibleSpan(r.x, r.width, workspaceWidth), VisibleSpan(r.y, r.height, workspaceHeight);
    ProductOfSpans(sx, sy, r.width, r.height);
    sx * sy
  }

  /** The product of two spans: full spans give the full area, a zero span gives nothing. */
  lemma ProductOfSpans(sx: real, sy: real, w: real, h: real)
    ensures sx == w && sy == h ==> sx * sy == w * h
    ensures sx == 0.0 || sy == 0.0 ==> sx * sy == 0.0
  {
  }

  /**
   * `visibleArea / draggableArea >= threshold` as JavaScript evaluates it: a zero area
   * gives 0 / 0 = NaN, and every comparison with NaN is false.
   */
  function WithinThreshold(r: Rect, workspaceWidth: real, workspaceHeight: real, threshold: real): bool {
    RatioAtLeast(VisibleArea(r, workspaceWidth, workspaceHeight), Area(r), threshold)
  }

  /** `draggableArea`: width times height of the element. */
  function Area(r: Rect): real { r.width * r.height }

  /** `v / area >= threshold`, false when area is zero (the quotient is NaN there). */
  predicate RatioAtLeast(v: real, area: real, threshold: real) {
    area != 0.0 && v / area >= threshold
  }

  /** `checkVisibleAreaValid`: passes when the workspace element is missing. */
  function CheckVisibleAreaValid(r: Rect, workspace: Option<(real, real)>, threshold: real := DefaultThreshold): (ok: bool)
    ensures workspace.None? ==> ok
    ensures workspace.Some? ==> (ok <==> WithinThreshold(r, workspace.value.0, workspace.value.1, threshold))
  {
    match workspace
    case None => true
    case Some((w, h)) => WithinThreshold(r, w, h, threshold)
  }

  lemma MulMono(a: real, b: real, c: real, d: real)
    requires 0.0 <= a <= c && 0.0 <= b <= d
    ensures 0.0 <= a * b <= c * d
  {
    assert a * b <= c * b;
    assert c * b <= c * d;
  }

  /** For a rectangle of non-negative size, 0 <= visible area <= total area. */
  lemma VisibleAreaBounded(r: Rect, workspaceWidth: real, workspaceHeight: real)
    requires r.width >= 0.0 && r.height >= 0.0
    ensures 0.0 <= VisibleArea(r, workspaceWidth, workspaceHeight) <= Area(r)
  {
    VisibleAreaNonNeg(r, workspaceWidth, workspaceHeight);
    SpansBelowArea(VisibleSpan(r.x, r.width, workspaceWidth), VisibleSpan(r.y, r.height, workspaceHeight), r);
  }

  /** A degenerate rectangle has nothing visible, so the check never evaluates a non-zero / 0. */
  lemma ZeroAreaHasNoVisibleArea(r: Rect, workspaceWidth: real, workspaceHeight: real)
    requires Area(r) == 0.0
    ensures VisibleArea(r, workspaceWidth, workspaceHeight) == 0.0
    ensures !WithinThreshold(r, workspaceWidth, workspaceHeight, DefaultThreshold)
  {
    var vw := VisibleSpan(r.x, r.width, workspaceWidth);
    var vh := VisibleSpan(r.y, r.height, workspaceHeight);
    ZeroProduct(r.width, r.height);
    if r.width == 0.0 {
      assert vw == 0.0;
    } else {
      assert vh == 0.0;
    }
  }

  lemma ZeroProduct(a: real, b: real)
    requires a * b == 0.0
    ensures a == 0.0 || b == 0.0
  {
  }

  lemma DivAtLeast(v: real, a: real, t: real)
    requires a > 0.0
    ensures v / a >= t <==> v >= t * a
  {
    var q := v / a;
    assert q * a == v;
    if q >= t {
      assert q * a >= t * a;
    } else {
      assert q * a < t * a;
    }
  }

  lemma DivNegative(v: real, a: real)
    requires a < 0.0 && v >= 0.0
    ensures v / a <= 0.0
  {
    var q := v / a;
    assert q * a == v;
  }

  /**
   * With the default threshold a candidate passes exactly when its area is positive and at
   * least half of it lies inside the workspace.
   */
  lemma AcceptedIffHalfVisible(r: Rect, workspaceWidth: real, workspaceHeight: real)
    ensures WithinThreshold(r, workspaceWidth, workspaceHeight, DefaultThreshold)
        <==> Area(r) > 0.0
             && 2.0 * VisibleArea(r, workspaceWidth, workspaceHeight) >= Area(r)
  {
    WithinThresholdAsRatio(r, workspaceWidth, workspaceHeight, DefaultThreshold);
    VisibleAreaNonNeg(r, workspaceWidth, workspaceHeight);
    HalfRule(VisibleArea(r, workspaceWidth, workspaceHeight), Area(r));
  }

  lemma WithinThresholdAsRatio(r: Rect, workspaceWidth: real, workspaceHeight: real, threshold: real)
    ensures WithinThreshold(r, workspaceWidth, workspaceHeight, threshold)
        == RatioAtLeast(VisibleArea(r, workspaceWidth, workspaceHeight), Area(r), threshold)
  {
  }

  /** Spans no longer than the sides give at most the area. */
  lemma SpansBelowArea(sx: real, sy: real, r: Rect)
    requires 0.0 <= sx <= r.width && 0.0 <= sy <= r.height
    ensures sx * sy <= Area(r)
  {
    MulMono(sx, sy, r.width, r.height);
  }

  lemma VisibleAreaNonNeg(r: Rect, workspaceWidth: real, workspaceHeight: real)
    ensures VisibleArea(r, workspaceWidth, workspaceHeight) >= 0.0
  {
    NonNegProduct(VisibleSpan(r.x, r.width, workspaceWidth), VisibleSpan(r.y, r.height, workspaceHeight));
  }

  lemma NonNegProduct(a: real, b: real)
    requires a >= 0.0 && b >= 0.0
    ensures a * b >= 0.0
  {
    MulMono(a, b, a, b);
  }

  /** With a non-negative visible area v, "v / area >= 0.5 and area != 0" is "area > 0 and 2v >= area". */
  lemma HalfRule(v: real, area: real)
    requires v >= 0.0
    ensures RatioAtLeast(v, area, 0.5) <==> (area > 0.0 && 2.0 * v >= area)
  {
    if area > 0.0 {
      DivAtLeast(v, area, 0.5);
    } else if area < 0.0 {
      DivNegative(v, area);
    }
  }

  /** A positive-size rectangle entirely inside the workspace is accepted. */
  lemma FullyInsideAccepted(r: Rect, workspaceWidth: real, workspaceHeight: real)
    requires r.width > 0.0 && r.height > 0.0
    requires 0.0 <= r.x && r.x + r.width <= workspaceWidth
    requires 0.0 <= r.y && r.y + r.height <= workspaceHeight
    ensures CheckVisibleAreaValid(r, Some((workspaceWidth, workspaceHeight)))
  {
    assert VisibleArea(r, workspaceWidth, workspaceHeight) == Area(r);
    assert Area(r) > 0.0;
    AcceptedIffHalfVisible(r, workspaceWidth, workspaceHeight);
  }

  /** A rectangle entirely outside the workspace (left, right, above or below it) is rejected. */
  lemma FullyOutsideRejected(r: Rect, workspaceWidth: real, workspaceHeight: real)
    requires r.width >= 0.0 && r.height >= 0.0
    requires r.x >= workspaceWidth || r.x + r.width <= 0.0
          || r.y >= workspaceHeight || r.y + r.height <= 0.0
    ensures !CheckVisibleAreaValid(r, Some((workspaceWidth, workspaceHeight)))
  {
    assert VisibleArea(r, workspaceWidth, workspaceHeight) == 0.0;
    AcceptedIffHalfVisible(r, workspaceWidth, workspaceHeight);
  }

  /** A 400 x 300 workspace rejects (380, 0, 100, 100) (10% visible) and accepts (-10, 0, 100, 100) (90%). */
  lemma ContainmentExamples()
    ensures !CheckVisibleAreaValid(Rect(380.0, 0.0, 100.0, 100.0, 0.0), Some((400.0, 300.0)))
    ensures CheckVisibleAreaValid(Rect(-10.0, 0.0, 100.0, 100.0, 0.0), Some((400.0, 300.0)))
  {
    assert VisibleArea(Rect(380.0, 0.0, 100.0, 100.0, 0.0), 400.0, 300.0) == 2000.0;
    AcceptedIffHalfVisible(Rect(380.0, 0.0, 100.0, 100.0, 0.0), 400.0, 300.0);
    assert VisibleArea(Rect(-10.0, 0.0, 100.0, 100.0, 0.0), 400.0, 300.0) == 9000.0;
    AcceptedIffHalfVisible(Rect(-10.0, 0.0, 100.0, 100.0, 0.0), 400.0, 300.0);
  }

  // ---------------------------------------------------------------------------------------
  // Rotation

  /** `((r % 360) + 360) % 360` with JavaScript's truncating `%`. */
  function NormalizeDegrees(r: real): (d: real)
    ensures 0.0 <= d < 360.0
  {
    RemRange(r, 360.0);
    RemRange(Rem(r, 360.0) + 360.0, 360.0);
    Rem(Rem(r, 360.0) + 360.0, 360.0)
  }

  lemma WholeSumLessOne(p: real, q: real)
    requires IsWhole(p) && IsWhole(q)
    ensures IsWhole(p + q - 1.0)
  {
    var m, n := p.Floor, q.Floor;
    assert p + q - 1.0 == (m + n - 1) as real;
  }

  /**
   * The normalised rotation lies in [0, 360), differs from the raw angle by a whole number of
   * turns, and leaves an angle already in range unchanged.
   */
  lemma NormalizeDegreesSpec(r: real)
    ensures 0.0 <= NormalizeDegrees(r) < 360.0
    ensures IsWhole((r - NormalizeDegrees(r)) / 360.0)
    ensures 0.0 <= r < 360.0 ==> NormalizeDegrees(r) == r
  {
    var t := Rem(r, 360.0);
    RemRange(r, 360.0);
    var u := t + 360.0;
    var n := Rem(u, 360.0);
    RemRange(u, 360.0);
    RemCongruent(r, 360.0);
    RemCongruent(u, 360.0);
    assert (r - n) / 360.0 == (r - t) / 360.0 + (u - n) / 360.0 - 1.0;
    WholeSumLessOne((r - t) / 360.0, (u - n) / 360.0);
    if 0.0 <= r < 360.0 {
      assert Trunc(r / 360.0) == 0;
      assert t == r;
      assert Trunc(u / 360.0) == 1;
    }
  }

  /** Starting at 10 degrees, a delta of -30 degrees gives 340. */
  lemma RotationExample()
    ensures NormalizeDegrees(10.0 + -30.0) == 340.0
  {
    assert Trunc(-20.0 / 360.0) == 0;
    assert Trunc(340.0 / 360.0) == 0;
  }
}
