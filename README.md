# Meme editor core, modelled in Dafny

This project models the editing core of a web meme editor, written in TypeScript and React.
It covers two parts.

**The DRR ("Drag, Rotate, Resize") container.** It holds one element: its position, size and
rotation.
- A drag is committed only when the moved element stays at least half inside the workspace
  element.
- A rotate or resize gesture starts with a mouse-down on a handle, which captures the geometry
  at that moment. Every later mouse-move recomputes from the captured geometry. A resize is
  committed only when both sides stay positive and the element stays half inside.
- The draggable wrapper refuses to start a drag from a node marked `data-no-dnd`, or from
  anything under such a node.
- The text area builds its CSS from a text configuration, and keeps the fitted font size and
  the last committed size.
- The "Two Buttons" page drives one such box against the workspace `editor-workspace`, and
  adds two size sliders.

**The two canvas editor pages.** Each keeps a Fabric canvas of objects with ids, the active
selection, a history of deleted groups and the text toolbar state.
- Deleting moves the active objects to the history as one group. Ctrl/Cmd+Z re-adds the last
  group.
- A selection that mixes object types is narrowed to the object that triggered it, and the
  toolbar follows the type.
- On the main page Delete or Backspace deletes; the archived page has those keys commented
  out and deletes through the toolbar's delete button.
- Property updates go to every selected text object and are merged into the toolbar state.
- The archived page also has:
  - a style-copy mode;
  - the Two Buttons template, scaled to the window;
  - top and bottom spacing bands around the template.

Files:
- `wrappers.dfy` holds `Option`.
- `js_math.dfy` holds `Math.max`/`min`/`trunc` and JavaScript's truncating `%` over reals.
- `geometry.dfy` holds the rectangle, the handles, the containment check and rotation
  normalisation.
- `drr_container.dfy` holds `Controller`, the container state.
- `two_buttons.dfy`, `draggable.dfy` and `text_area.dfy` hold the other components.
- `editor_core.dfy` holds the canvas bookkeeping shared by both pages.
- `archive_editor.dfy` and `app_editor.dfy` hold the two page classes.

Modelling choices:
- **Canvas and selection.** The canvas is a sequence of object records with unique ids. The
  active selection is a sequence of ids, so `getActiveObjects()` is `Active(objects,
  selection)`, in selection order.
- **Canvas invariant.** `CanvasValid` says:
  - ids are unique;
  - ids are fresh below `nextId`;
  - deleted groups are disjoint from the canvas and from each other;
  - the selection names selectable objects on the canvas;
  - the spacer bands stay on the canvas and cannot be selected.

  Every operation that changes the canvas preserves it.
- **Outside inputs become parameters.** The DOM lookup `document.getElementById(id)` is a map
  from element id to bounding-box size. `Math.atan2` in degrees is a function parameter. The
  window size, the fitted font size and the text content are plain parameters.

Three behaviours of the code that the model keeps as they are:
- The rotate and resize listeners can coexist; a mouse-move runs both.
- Gesture listeners are removed only on mouse-up.
- The Two Buttons sliders write the width and height directly, with no containment check. Their
  ranges keep the sides positive.

## Model

| member | source | states |
|---|---|---|
| JsMath.Max | apps/web/src/components/drr-container.tsx:182-185 | `Math.max` is an upper bound of both arguments and equals one of them |
| JsMath.Min | apps/web/src/components/drr-container.tsx:184-188 | `Math.min` is a lower bound of both arguments and equals one of them |
| JsMath.Trunc | apps/web/src/components/drr-container.tsx:213 | truncation toward zero: within 1 of the quotient, on the side of zero |
| JsMath.Rem | apps/web/src/components/drr-container.tsx:213 | JavaScript `a % b` leaves a dividend already in [0, b) unchanged |
| JsMath.RemRange | apps/web/src/components/drr-container.tsx:213 | JavaScript `a % b` for b > 0 lies in (-b, b) and takes the sign of a |
| JsMath.RemCongruent | apps/web/src/components/drr-container.tsx:213 | `a % b` differs from a by a whole multiple of b |
| Geometry.HandleName | apps/web/src/components/drr-container.tsx:56-114 | each handle passes one of the eight handle names |
| Geometry.ParseHandle | apps/web/src/components/drr-container.tsx:248-288 | a name selects a switch case exactly when it is one of the eight handle names, and that case's name is the input |
| Geometry.HandleNameRoundTrip | apps/web/src/components/drr-container.tsx:248-288 | parsing a handle's name gives the handle back |
| Geometry.ResizeCandidate | apps/web/src/components/drr-container.tsx:243-288 | edge by edge: the edges the handle owns follow the pointer delta, the others stay at their mouse-down place |
| Geometry.ResizeAnchorsOppositeEdge | apps/web/src/components/drr-container.tsx:250-287 | dragging one edge keeps the opposite edge fixed and changes the size by the delta; an axis with no dragged edge is unchanged |
| Geometry.UnmatchedHandleKeepsStart | apps/web/src/components/drr-container.tsx:243-248 | an unknown handle name leaves the mouse-down geometry as it was |
| Geometry.ComputeResize | apps/web/src/components/drr-container.tsx:243-288 | the switch's assignments equal the edge-rule candidate for the parsed handle |
| Geometry.ResizeExamples | apps/web/src/components/drr-container.tsx:268-287 | bottom-right and top-left resizes of 100 x 100 by (20, -10) give 120 x 90 at the origin and 80 x 110 at (20, -10) |
| Geometry.VisibleSpan | apps/web/src/components/drr-container.tsx:182-189 | the visible length is between 0 and the length; it is the whole length when inside and 0 when outside |
| Geometry.CheckVisibleAreaValid | apps/web/src/components/drr-container.tsx:168-193 | a missing workspace passes; otherwise the visible-area ratio decides |
| Geometry.VisibleArea | apps/web/src/components/drr-container.tsx:180-190 | a rectangle wholly inside the workspace is visible over its whole area; one wholly to the left, right, above or below it has no visible area |
| Geometry.VisibleAreaBounded | apps/web/src/components/drr-container.tsx:180-190 | the visible area lies between 0 and the element's area |
| Geometry.ZeroAreaHasNoVisibleArea | apps/web/src/components/drr-container.tsx:180-192 | a zero-area element has no visible area and fails the check (0 / 0 is NaN) |
| Geometry.AcceptedIffHalfVisible | apps/web/src/components/drr-container.tsx:173-192 | at threshold 0.5 the check passes iff the area is positive and at least half of it is visible |
| Geometry.HalfRule | apps/web/src/components/drr-container.tsx:192 | `v / area >= 0.5` with `area != 0` is "area > 0 and 2v >= area", including negative areas |
| Geometry.FullyInsideAccepted | apps/web/src/components/drr-container.tsx:168-193 | a positive-size element wholly inside the workspace passes |
| Geometry.FullyOutsideRejected | apps/web/src/components/drr-container.tsx:168-193 | an element wholly left of, right of, above or below the workspace fails |
| Geometry.ContainmentExamples | apps/web/src/components/drr-container.tsx:168-193 | in a 400 x 300 workspace, 10% visible fails and 90% visible passes |
| Geometry.NormalizeDegrees | apps/web/src/components/drr-container.tsx:213 | `((r % 360) + 360) % 360` always lands in [0, 360) |
| Geometry.NormalizeDegreesSpec | apps/web/src/components/drr-container.tsx:213 | the normalised rotation is in [0, 360), differs from the raw angle by whole turns, and is the identity on [0, 360) |
| Geometry.RotationExample | apps/web/src/components/drr-container.tsx:211-213 | 10 degrees plus a delta of -30 normalises to 340 |
| DrrContainer.ElementSize | apps/web/src/components/drr-container.tsx:175-179 | the workspace size is present exactly when the element id exists, and is that element's box |
| DrrContainer.RotationAt | apps/web/src/components/drr-container.tsx:206-215 | the rotation set by a rotate move is in [0, 360) and is start rotation plus angle delta, up to whole turns |
| DrrContainer.RotationReturnsHome | apps/web/src/components/drr-container.tsx:195-213 | a pointer at the mouse-down point restores an in-range starting rotation |
| DrrContainer.ResizeTarget | apps/web/src/components/drr-container.tsx:236-288 | the candidate keeps the rotation, and every edge the grabbed handle does not own stays where it was at mouse-down |
| DrrContainer.ResizeDecision | apps/web/src/components/drr-container.tsx:290-304 | commit iff both sides are positive and the check passes; reject iff both are positive and it fails; otherwise drop silently |
| DrrContainer.ResizedStaysHalfVisible | apps/web/src/components/drr-container.tsx:290-303 | a committed resize has positive sides and at least half its area inside the workspace |
| DrrContainer.ResizeWithoutWorkspace | apps/web/src/components/drr-container.tsx:175-176 | without a workspace element every candidate with positive sides is committed |
| DrrContainer.ResizeAtStartPoint | apps/web/src/components/drr-container.tsx:237-288 | with the pointer back at the mouse-down point the candidate is the mouse-down geometry, for every handle |
| DrrContainer.MoveToast | apps/web/src/components/drr-container.tsx:325-333 | a toast is sent exactly when the drag is refused |
| DrrContainer.ResizeToast | apps/web/src/components/drr-container.tsx:291-297 | a toast is sent exactly when the resize is rejected, not when it is dropped |
| DrrContainer.SizeChange | apps/web/src/components/drr-container.tsx:299-302 | the size callback runs exactly on a committed resize, with the new width and height |
| DrrContainer.Controller.constructor | apps/web/src/components/drr-container.tsx:158-166 | the state starts from the initial position, with no gesture in progress |
| DrrContainer.Controller.DragEnd | apps/web/src/components/drr-container.tsx:319-337 | the element moves by the delta iff the moved element passes the check (or there is no workspace); otherwise it stays |
| DrrContainer.Controller.BeginRotate | apps/web/src/components/drr-container.tsx:195-204 | sets the rotating flag and captures the centre, the pointer angle and the rotation |
| DrrContainer.Controller.BeginResize | apps/web/src/components/drr-container.tsx:228-235 | captures the handle name, the pointer and the current geometry |
| DrrContainer.Controller.RotateMove | apps/web/src/components/drr-container.tsx:206-216 | during a rotate gesture the rotation becomes `RotationAt`, in [0, 360); otherwise it is unchanged |
| DrrContainer.Controller.ResizeMove | apps/web/src/components/drr-container.tsx:237-305 | the outcome is `ResizeDecision` on the captured geometry; the geometry changes only on a commit, to the candidate |
| DrrContainer.Controller.MouseMove | apps/web/src/components/drr-container.tsx:206-305 | both gesture listeners run: rotation as in `RotateMove`, geometry as in `ResizeMove` |
| DrrContainer.Controller.MouseUp | apps/web/src/components/drr-container.tsx:218-222 | every gesture ends and the rotate highlight is cleared |
| TwoButtons.MoveError | apps/web/src/app/two-buttons/page.tsx:354-360 | an error is logged exactly when the drag is refused |
| TwoButtons.ResizeError | apps/web/src/app/two-buttons/page.tsx:310-317 | an error is logged exactly when the resize is rejected |
| TwoButtons.DefaultRectAccepted | apps/web/src/app/two-buttons/page.tsx:176-183 | the default geometry passes the check in any workspace at least 600 x 908 |
| TwoButtons.Page.constructor | apps/web/src/app/two-buttons/page.tsx:152-183 | default geometry, text "Edit Me.", font size 0, workspace "editor-workspace" |
| TwoButtons.Page.DragEnd | apps/web/src/app/two-buttons/page.tsx:348-367 | the drag is checked against "editor-workspace": moved iff accepted, error iff refused |
| TwoButtons.Page.MouseMove | apps/web/src/app/two-buttons/page.tsx:310-321 | rotation and resize as in the container; an error iff the resize is rejected |
| TwoButtons.Page.SetHeightFromSlider | apps/web/src/app/two-buttons/page.tsx:837-845 | the height slider sets the height, within [50, 200], unchecked |
| TwoButtons.Page.SetWidthFromSlider | apps/web/src/app/two-buttons/page.tsx:851-859 | the width slider sets the width, within [100, 300], unchecked |
| TwoButtons.Page.OnReady | apps/web/src/app/two-buttons/page.tsx:409-412 | the setter runs iff the fitted size differs; afterwards the state is the fitted size |
| TwoButtons.Page.OnInput | apps/web/src/app/two-buttons/page.tsx:484-486 | the text becomes the editor's content, or "" when it has none |
| Draggable.Marked | apps/web/src/components/draggable.tsx:14 | a node without a dataset, without `noDnd` or with an empty `noDnd` is not marked; `data-no-dnd="true"` is |
| Draggable.FirstMarked | apps/web/src/components/draggable.tsx:10-21 | the first marked node on the path: marked, with no marked node before it; none iff no node is marked |
| Draggable.Handler | apps/web/src/components/draggable.tsx:10-21 | the drag is allowed iff no node from the target up to the root is marked `data-no-dnd` |
| Draggable.FirstMarkedAppend | apps/web/src/components/draggable.tsx:13-18 | the walk over a lower path then its ancestors finds the lower hit first, else the ancestor hit shifted by the lower length |
| Draggable.MarkedTargetRefuses | apps/web/src/components/draggable.tsx:14-16 | a marked target stops the walk at once, whatever lies above |
| Draggable.ActivatorEvent | apps/web/src/components/draggable.tsx:23-33 | the mouse sensor activates on mouse-down and the touch sensor on touch-start |
| Draggable.Activate | apps/web/src/components/draggable.tsx:23-33 | both sensors allow a drag iff the path has no marked node |
| Draggable.DraggableStyle | apps/web/src/components/draggable.tsx:59-66 | position, size and rotation come from the props; translation is dnd-kit's transform, or 0 without one |
| TextArea.VerticalAlignClass | apps/web/src/components/text-area.tsx:108-114 | top, center and bottom map to items-start, items-center and items-end |
| TextArea.Keep | apps/web/src/components/text-area.tsx:144-148 | `flag && name` after `filter(Boolean)` leaves at most one part, every part kept is the name, and the name is kept iff the flag is set and the name is non-empty |
| TextArea.Join | apps/web/src/components/text-area.tsx:148-149 | joining no parts gives "", one part gives that part, and two parts give the first, the separator and the second |
| TextArea.HorizontalAlignCss | apps/web/src/components/text-area.tsx:152-155 | left, center and right map to the CSS `text-align` values "left", "center" and "right" |
| TextArea.TextDecoration | apps/web/src/components/text-area.tsx:143-149 | the four flag combinations give none, underline, line-through and "underline line-through" |
| TextArea.TextDecorationInjective | apps/web/src/components/text-area.tsx:143-149 | equal decorations imply equal underline and line-through flags |
| TextArea.TextTransform | apps/web/src/components/text-area.tsx:150 | uppercase iff the flag is set, none otherwise |
| TextArea.FontStyleCss | apps/web/src/components/text-area.tsx:160-161 | italic iff the style is exactly "italic", normal otherwise |
| TextArea.FontWeightCss | apps/web/src/components/text-area.tsx:162 | bold iff the weight is exactly "bold", normal otherwise |
| TextArea.FitterStyle | apps/web/src/components/text-area.tsx:141-166 | the hidden copy has no font size, and uses the derived decoration, transform, style and weight |
| TextArea.EditorStyle | apps/web/src/components/text-area.tsx:189-216 | the visible editor's style is the hidden copy's style plus the fitted font size |
| TextArea.DefaultStyle | apps/web/src/components/text-area.tsx:8-33 | the default configuration renders undecorated, untransformed, normal-style, normal-weight text |
| TextArea.FontSizeUpdate | apps/web/src/components/text-area.tsx:134-137 | the setter runs, with the fitted size, iff the size differs |
| TextArea.FontSizeUpdateSettles | apps/web/src/components/text-area.tsx:134-137 | after one update the state is the fitted size, and reporting it again changes nothing |
| TextArea.InputText | apps/web/src/components/text-area.tsx:229-231 | the content when present, "" when absent |
| TextArea.TextBox.constructor | apps/web/src/components/text-area.tsx:85-88 | the initial text from the configuration, font size 0, sizes from the initial position |
| TextArea.TextBox.SizeChanged | apps/web/src/components/text-area.tsx:95-98 | the size callback stores the committed width and height |
| TextArea.TextBox.MouseMove | apps/web/src/components/text-area.tsx:91-99 | the rotation becomes the captured rotation gesture's `RotationAt` (else unchanged); the position follows exactly the committed resizes; a toast iff the resize is rejected; the stored size follows the committed resizes, and the size state keeps mirroring the container |
| TextArea.TextBox.DragEnd | apps/web/src/components/text-area.tsx:91-101 | a drag of the box moves it iff accepted, toasts iff refused, and leaves the size state as it was |
| TextArea.TextBox.OnReady | apps/web/src/components/text-area.tsx:115-138 | the setter runs iff the fitted size differs; afterwards the state is the fitted size |
| TextArea.TextBox.OnInput | apps/web/src/components/text-area.tsx:229-231 | the text becomes the editor's content, or "" |
| EditorCore.Truthy | apps/web/src/archive/page.tsx:330-336 | `if (value)`: the falsy values are exactly false, 0, "" and undefined |
| EditorCore.IsText | apps/web/src/archive/page.tsx:22 | `FABRIC_TEXT_TYPE_ARRAY.includes(type)`: the types textbox, i-text and text |
| EditorCore.IsImage | apps/web/src/archive/page.tsx:23 | `FABRIC_IMAGE_TYPE_ARRAY.includes(type)`: the type image, which is never a text type |
| EditorCore.IsUndoKey | apps/web/src/archive/page.tsx:115 | only "z" with Meta or Ctrl undoes; neither modifier, or "Z", never does |
| EditorCore.IsDeleteKey | apps/web/src/app/page.tsx:66 | Delete and Backspace delete, and no delete key is the undo key |
| EditorCore.Get | apps/web/src/archive/page.tsx:262-278 | `get(key)` is the stored property, or undefined |
| EditorCore.Find | apps/web/src/archive/page.tsx:147-152 | the object with an id is found iff the id is on the canvas |
| EditorCore.Active | apps/web/src/archive/page.tsx:211 | the active objects are canvas objects in the selection; with every id on the canvas, one per id, in selection order |
| EditorCore.Without | apps/web/src/archive/page.tsx:190 | `remove` keeps exactly the canvas objects whose id is not removed |
| EditorCore.DeleteThenRestore | apps/web/src/app/page.tsx:66-100 | deleting the active group and re-adding it gives a permutation of the original canvas |
| EditorCore.DeletePreservesCanvas | apps/web/src/app/page.tsx:78-83 | deletion keeps the canvas invariant, with the group appended to the history and the selection emptied |
| EditorCore.UndoPreservesCanvas | apps/web/src/app/page.tsx:91-100 | re-adding the last group and dropping it from the history keeps the invariant |
| EditorCore.AddPreservesCanvas | apps/web/src/archive/page.tsx:597-634 | adding objects with fresh ids keeps the invariant |
| EditorCore.LayoutPreservesCanvas | apps/web/src/archive/page.tsx:695-709 | changing properties without touching ids or selectability keeps the invariant |
| EditorCore.SelectPreservesCanvas | apps/web/src/archive/page.tsx:85-91 | a new selection of distinct, selectable canvas objects keeps the invariant |
| EditorCore.ToolbarFor | apps/web/src/archive/page.tsx:233-245 | text types show the text toolbar only, the image type the image toolbar only, other types change nothing; never both |
| EditorCore.AnyTextboxEditing | apps/web/src/archive/page.tsx:175-181 | a blocking selection is non-empty; a selection with no editing object or no textbox never blocks |
| EditorCore.MixedTypes | apps/web/src/archive/page.tsx:226-229 | a mixed selection has at least two objects; a selection whose types all equal the first one's is not mixed |
| EditorCore.ReducedSelection | apps/web/src/archive/page.tsx:231-235 | the kept selection is the whole selection or the target alone; it only shrinks when the target was selected; a single object is never narrowed |
| EditorCore.SelectionToolbars | apps/web/src/archive/page.tsx:227-247 | the chosen toolbars never show both the text and the image toolbar |
| EditorCore.ReducedSelectionUniform | apps/web/src/archive/page.tsx:221-231 | after narrowing, the selection never mixes types, still holds the target and only shrinks |
| EditorCore.ReducedSelectionPreservesCanvas | apps/web/src/archive/page.tsx:227-231 | narrowing a mixed selection to its target keeps the invariant |
| EditorCore.FirstText | apps/web/src/archive/page.tsx:253-258 | `textObjects[0]`: a text object of the selection with no text object before it; present iff some object has a text type |
| EditorCore.Snapshot | apps/web/src/archive/page.tsx:262-279 | one entry per snapshot key, each the object's `get` of that key |
| EditorCore.TextPropsFor | apps/web/src/archive/page.tsx:253-280 | the defaults when no text object is selected, else the first text object's snapshot |
| EditorCore.Upper | apps/web/src/archive/page.tsx:331-332 | upper-casing keeps the length and maps each character |
| EditorCore.Lower | apps/web/src/archive/page.tsx:333-336 | lower-casing keeps the length and maps each character |
| EditorCore.CaseMappingsAbsorb | apps/web/src/archive/page.tsx:329-337 | the last case mapping decides the result, and each mapping is idempotent |
| EditorCore.CaseToggleLosesOriginal | apps/web/src/archive/page.tsx:335 | upper-casing then lower-casing "Edit me" gives "edit me", not the original |
| EditorCore.ApplySet | apps/web/src/archive/page.tsx:330-337 | one `set` stores the value; for `uppercase` it also re-cases the text by truthiness; nothing else changes |
| EditorCore.MergeProps | apps/web/src/archive/page.tsx:342-345 | `{...prev, ...updates}`: the keys of both, update values winning |
| EditorCore.ApplyUpdates | apps/web/src/archive/page.tsx:327-345 | updating an object changes only its properties and text, and the text only when some entry is `uppercase` |
| EditorCore.ApplyUpdatesProps | apps/web/src/archive/page.tsx:327-345 | applying the entries to an object merges them into its properties exactly as the toolbar state merges them; only properties and text change |
| EditorCore.ApplyUpdatesText | apps/web/src/archive/page.tsx:329-337 | the text is unchanged without an `uppercase` entry, else upper- or lower-cased by the last one |
| EditorCore.UpdatedObjectAgreesWithToolbar | apps/web/src/archive/page.tsx:327-345 | after an update every updated object and the toolbar state agree on each updated key |
| EditorCore.ApplyEntries | apps/web/src/archive/page.tsx:329-337 | the entries loop on one object computes the left fold of `set`s |
| EditorCore.UpdatedCanvas | apps/web/src/archive/page.tsx:327-340 | each selected text object becomes `ApplyUpdates` of itself, every other object stays as it was; no entries, or no selected id, leave the canvas as it is |
| EditorCore.UpdatedCanvasIds | apps/web/src/archive/page.tsx:327-340 | updating keeps each object's id, type, top and selectability in place |
| EditorCore.ApplyTextUpdates | apps/web/src/archive/page.tsx:327-340 | the loop updates exactly the selected text objects and leaves every other object as it was |
| EditorCore.ShiftAllExcept | apps/web/src/archive/page.tsx:695-701 | every object but the excepted one moves down by the difference; nothing else changes |
| EditorCore.Shifted | apps/web/src/archive/page.tsx:695-701 | shifting keeps the length, every id and every selectability in place, and a zero difference changes nothing |
| EditorCore.ShiftedCompose | apps/web/src/archive/page.tsx:686-701 | two shifts compose into one by the sum, and a shift and its opposite cancel out |
| EditorCore.ShiftedKeepsDistances | apps/web/src/archive/page.tsx:695-701 | the vertical distance between any two moved objects is kept |
| ArchiveEditor.SnapshotMatchesDefaults | apps/web/src/archive/page.tsx:262-279 | the snapshot reads back exactly the keys of the toolbar defaults |
| ArchiveEditor.PlaceSpacer | apps/web/src/archive/page.tsx:703-709 | the band takes left 0, the given top, width and height, and a gray fill; every other object stays as it was |
| ArchiveEditor.TopSpacingLayout | apps/web/src/archive/page.tsx:683-709 | every object other than the top band moves down by the height difference, and the top band spans from 0 to the new height across the template width |
| ArchiveEditor.PlaceSpacerKeepsLayout | apps/web/src/archive/page.tsx:703-709 | redrawing a band changes no id and no selectability |
| ArchiveEditor.TopSpacingObjects | apps/web/src/archive/page.tsx:695-709 | the object loop plus the band redraw give `TopSpacingLayout`, with the layout kept |
| ArchiveEditor.TopSpacingPathIndependent | apps/web/src/archive/page.tsx:683-713 | two top-band changes equal one change to the final height; returning to the old height restores every other object |
| ArchiveEditor.TopSpacerSpansBand | apps/web/src/archive/page.tsx:703-709 | the top band runs from 0 to its height across the template width, in gray |
| ArchiveEditor.BottomSpacerFollowsTopBand | apps/web/src/archive/page.tsx:695-701 | a bottom band sitting under the template and the top band keeps sitting there when the top band changes |
| ArchiveEditor.ScaleRatio | apps/web/src/archive/page.tsx:579-589 | the scale never enlarges and fits 90% of each window side; it equals one of the three candidates |
| ArchiveEditor.LargeWindowKeepsFullSize | apps/web/src/archive/page.tsx:584-588 | a window at least 10/9 of the template on both sides shows it at scale 1 |
| ArchiveEditor.PlaceTextBox | apps/web/src/archive/page.tsx:601-604 | offset from the image origin and size are the box's, times the scale |
| ArchiveEditor.TemplateBoxesInside | apps/web/src/archive/page.tsx:540-565 | the three boxes of the template lie inside the 600 x 908 image |
| ArchiveEditor.PlacedInsideCanvas | apps/web/src/archive/page.tsx:591-604 | a box inside the template lands inside the scaled canvas |
| ArchiveEditor.PlacementKeepsLayout | apps/web/src/archive/page.tsx:601-604 | distances between boxes scale by the same factor |
| ArchiveEditor.BoxObjects | apps/web/src/archive/page.tsx:600-634 | two objects per box, with consecutive ids |
| ArchiveEditor.TemplateImage | apps/web/src/archive/page.tsx:568-596 | the template image is an unselectable image at the origin, scaled by the same factor both ways |
| ArchiveEditor.Placeholder | apps/web/src/archive/page.tsx:605-617 | the gray placeholder is unselectable and lies under its text box: same left, top, width and rotation (left and top as set before the rotation) |
| ArchiveEditor.TemplateText | apps/web/src/archive/page.tsx:619-634 | the text box is a selectable, non-editing "Edit me" textbox at the scaled box position and width |
| ArchiveEditor.BoxPair | apps/web/src/archive/page.tsx:605-634 | a placeholder then a text box, with consecutive ids |
| ArchiveEditor.BoxObjectsPlaced | apps/web/src/archive/page.tsx:618-634 | every loaded text box is a selectable "Edit me" textbox at its box's scaled position |
| ArchiveEditor.TemplateLayout | apps/web/src/archive/page.tsx:591-634 | the template adds 1 + 2n objects: the scaled image first, then consecutive ids from the first one |
| ArchiveEditor.TemplateObjects | apps/web/src/archive/page.tsx:597-634 | the loader's loop builds `TemplateLayout`: the image, then a placeholder and text box per box, with distinct consecutive fresh ids |
| ArchiveEditor.TemplateLayoutIds | apps/web/src/archive/page.tsx:597-634 | the template objects take distinct consecutive ids from the first free one |
| ArchiveEditor.SpacerAtStart | apps/web/src/archive/page.tsx:62-79 | each spacer band starts as an unselectable transparent 0 x 0 rectangle at the origin without controls |
| ArchiveEditor.ClickApplies | apps/web/src/archive/page.tsx:148-153 | a click applies only in copy mode, with a stored style and a target, and only when the target is a text object on the canvas |
| ArchiveEditor.Editor.SelectedObjects | apps/web/src/archive/page.tsx:173 | `getActiveObjects()`: canvas objects whose ids are selected; when every selected id is on the canvas, one object per id in selection order |
| ArchiveEditor.Editor.constructor | apps/web/src/archive/page.tsx:54-80 | the canvas set up on mount: 800 x 600, holding only the two empty unselectable bands; defaults elsewhere (the template that mounting also loads is `LoadTemplate`) |
| ArchiveEditor.Editor.Select | apps/web/src/archive/page.tsx:85-91 | a selection of distinct, selectable canvas objects becomes active, keeping the invariant |
| ArchiveEditor.Editor.KeyDown | apps/web/src/archive/page.tsx:105-131 | only Ctrl/Cmd+Z acts: re-adds and pops the last group, or toasts "Nothing to undo" on an empty history |
| ArchiveEditor.Editor.Delete | apps/web/src/archive/page.tsx:171-196 | no selection: nothing; an editing textbox selected: refusal toast; else the group goes to the history, leaves the canvas, and both toolbars close |
| ArchiveEditor.Editor.RemoveSelection | apps/web/src/archive/page.tsx:188-193 | the active objects become one history group and leave the canvas, the selection empties and both toolbars close, keeping the invariant |
| ArchiveEditor.Editor.HandleSelection | apps/web/src/archive/page.tsx:208-281 | empty selection resets toolbars, text props and copy mode; no target returns; else narrows, picks the toolbar, reads the text props, and leaves no mixed types |
| ArchiveEditor.Editor.SelectTarget | apps/web/src/archive/page.tsx:221-280 | narrowing and toolbar choice for the target, then text props from the final selection |
| ArchiveEditor.Editor.ResetSelectionState | apps/web/src/archive/page.tsx:212-218 | both toolbars hidden, default text props, copy mode off |
| ArchiveEditor.Editor.ShowSelectionToolbar | apps/web/src/archive/page.tsx:221-247 | the selection is narrowed to the target when mixed; the toolbar follows the target or the common type |
| ArchiveEditor.Editor.SelectionCleared | apps/web/src/archive/page.tsx:318-321 | both toolbars hidden |
| ArchiveEditor.Editor.UpdateTextProperties | apps/web/src/archive/page.tsx:324-348 | the canvas becomes `UpdatedCanvas` of the selection, so exactly the selected text objects change, each to `ApplyUpdates` of itself; the toolbar state becomes the merge |
| ArchiveEditor.Editor.CopyAllTextStyle | apps/web/src/archive/page.tsx:877-880 | copy mode and the stored style are set from the toolbar callback |
| ArchiveEditor.Editor.ObjectClick | apps/web/src/archive/page.tsx:147-161 | a click on a text object in copy mode with a stored style applies it and leaves copy mode; any other click changes nothing |
| ArchiveEditor.Editor.ApplyCopiedStyle | apps/web/src/archive/page.tsx:154-160 | the copied style updates the selection as `UpdatedCanvas` and the toolbar state by merging, and copy mode ends |
| ArchiveEditor.Editor.TopSpacingChange | apps/web/src/archive/page.tsx:683-713 | objects become `TopSpacingLayout`; canvas is template width by template plus both bands |
| ArchiveEditor.Editor.BottomSpacingChange | apps/web/src/archive/page.tsx:715-733 | only the bottom band changes, placed under template and top band; canvas grows likewise |
| ArchiveEditor.Editor.Add | apps/web/src/archive/page.tsx:597-598 | new objects with fresh ids are appended and `nextId` advances past them |
| ArchiveEditor.Editor.LoadTemplate | apps/web/src/archive/page.tsx:539-676 | the template objects are appended with fresh ids; canvas and template size become the scaled template size |
| ArchiveEditor.Editor.PlaceBand | apps/web/src/archive/page.tsx:723-729 | the canvas becomes `PlaceSpacer` of the old canvas for that band, and the canvas invariant holds |
| ArchiveEditor.Editor.Relayout | apps/web/src/archive/page.tsx:695-709 | the canvas objects become the relaid copy, which keeps every id and selectability, so the canvas invariant holds |
| ArchiveEditor.Editor.SetCanvasSize | apps/web/src/archive/page.tsx:689-692 | `setDimensions`: the canvas takes the given width and height |
| ArchiveEditor.Editor.FitToTemplate | apps/web/src/archive/page.tsx:591-594 | canvas and recorded template size take the scaled size |
| AppEditor.SnapshotMatchesDefaults | apps/web/src/app/page.tsx:184-197 | the snapshot reads back exactly the keys of the toolbar defaults |
| AppEditor.Editor.constructor | apps/web/src/app/page.tsx:31-37 | an empty 800 x 600 canvas, no history, no toolbar, default text props |
| AppEditor.Editor.SelectedObjects | apps/web/src/app/page.tsx:67 | `getActiveObjects()`: canvas objects whose ids are selected; when every selected id is on the canvas, one object per id in selection order |
| AppEditor.Editor.Select | apps/web/src/app/page.tsx:41-48 | a selection of distinct, selectable canvas objects becomes active, keeping the invariant |
| AppEditor.Editor.Add | apps/web/src/app/page.tsx:306 | new objects with fresh ids are appended and `nextId` advances past them |
| AppEditor.Editor.KeyDown | apps/web/src/app/page.tsx:62-117 | Delete/Backspace deletes as `DeleteSelection`; Ctrl/Cmd+Z undoes as `Undo`; any other key changes nothing |
| AppEditor.Editor.DeleteSelection | apps/web/src/app/page.tsx:66-86 | no selection or an editing textbox: silently nothing; else the group goes to the history, leaves the canvas, toolbars close |
| AppEditor.Editor.Undo | apps/web/src/app/page.tsx:91-110 | re-adds and pops the last group; with none, toasts "Nothing to undo" and raises the hint |
| AppEditor.Editor.HideUndoHint | apps/web/src/app/page.tsx:109 | the timer hides the undo hint |
| AppEditor.Editor.ShowTextToolbar | apps/web/src/app/page.tsx:122-125 | text toolbar shown, image toolbar hidden |
| AppEditor.Editor.ShowImageToolbar | apps/web/src/app/page.tsx:127-130 | image toolbar shown, text toolbar hidden |
| AppEditor.Editor.HandleSelection | apps/web/src/app/page.tsx:132-199 | empty selection resets toolbars and text props; no target returns; else narrows, picks the toolbar, reads the text props, and leaves no mixed types |
| AppEditor.Editor.SelectTarget | apps/web/src/app/page.tsx:143-198 | narrowing and toolbar choice for the target, then text props from the final selection |
| AppEditor.Editor.ShowSelectionToolbar | apps/web/src/app/page.tsx:147-171 | the selection is narrowed to the target when mixed; the toolbar follows the target or the common type |
| AppEditor.Editor.SelectionCleared | apps/web/src/app/page.tsx:236-239 | both toolbars hidden |
| AppEditor.Editor.UpdateTextProperties | apps/web/src/app/page.tsx:242-266 | the canvas becomes `UpdatedCanvas` of the selection, so exactly the selected text objects change, each to `ApplyUpdates` of itself; the toolbar state becomes the merge |

## Left out

- `Math.atan2` and the conversion to degrees: a function parameter, since the model has no trigonometry. The real-number results are exact, not floating point.
- Stacked gesture listeners: a second mouse-down before a mouse-up adds a second listener in the code. The model keeps one captured gesture per kind, which the newer mouse-down replaces.
- CSS rendering:
  - number-to-string formatting of CSS lengths (`${n}px`) is not modelled; lengths are kept as numbers, with their unit named by the field;
  - class-name strings and the handle visibility classes are not modelled.
- The font-fitting search of the Textfit library is outside this code. The fitted size is a parameter, and its oscillation is not replicated.
- Focus, blur and paste handling of the text editor: DOM behaviour with no state in the core beyond `onInput`.
- Export, image upload, `handleAddText`/`handleAddTextInside`, the image toolbar's property updates and the page layout: outside the named core. `Add` covers the `canvas.add` they end in.
- The undo hint's 3-second timer is the separate `HideUndoHint` step. Time is not modelled.
- Fabric's own behaviour:
  - the selection events it re-fires while `handleSelection` narrows a selection;
  - the shift of left and top that Fabric's centred `rotate()` applies to the rotated
    placeholders and text boxes: the modelled left and top are the values before the rotation;
  - its computed text-box height;
  - hover rendering.
- The guards on a missing canvas or missing spacer refs are not modelled: after mount these references are always present.
- `Object.entries(updates)` is a sequence of entries. The model assumes the caller's order is the enumeration order.
- `toUpperCase`/`toLowerCase` are modelled on ASCII letters only.
- The template image's origin is taken as (0, 0), where Fabric places a freshly loaded image.
- The image fetch is not modelled. `LoadTemplate` starts once the image has loaded, with the window size as parameters.
- The spacing sliders' `parseInt` is not modelled: the handler receives the slider's integer value, a multiple of 20 in [0, 400].
