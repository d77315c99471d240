/**
 * The archived canvas editor page: undo of deletions, style copying between text objects,
 * the Two Buttons template and the top/bottom spacing bands around it.
 */
module ArchiveEditor {
  import opened Wrappers
  import opened JsMath
  import opened Geometry
  import opened EditorCore

  const TopSpacerId: nat := 0
  const BottomSpacerId: nat := 1
  const Spacers: set<nat> := {TopSpacerId, BottomSpacerId}

  const DefaultFontFamily: Value := VStr("Impact")
  const DefaultShadow: Value := VShadow("transparent", 0.0, 0.0, 0.0)

  /** The text properties the toolbar starts from. */
  const DefaultTextProps: map<string, Value> := map[
    "fontFamily" := DefaultFontFamily,
    "fontSize" := VNum(48.0),
    "fill" := VStr("white"),
    "stroke" := VStr("black"),
    "strokeWidth" := VNum(2.0),
    "shadow" := DefaultShadow,
    "backgroundColor" := VStr("transparent"),
    "fontWeight" := VStr("normal"),
    "fontStyle" := VStr("normal"),
    "underline" := VBool(false),
    "linethrough" := VBool(false),
    "uppercase" := VBool(false),
    "textAlign" := VStr("left"),
    "charSpacing" := VNum(0.0),
    "lineHeight" := VNum(1.2),
    "opacity" := VNum(1.0)
  ]

  /** The properties read back from the first selected text object. */
  const SnapshotKeys: seq<string> := [
    "fontFamily", "fontSize", "fill", "fontWeight", "underline", "linethrough", "uppercase",
    "textAlign", "charSpacing", "lineHeight", "opacity", "fontStyle", "stroke", "strokeWidth",
    "shadow", "backgroundColor"
  ]

  /** The snapshot reads back exactly the keys the defaults have. */
  lemma SnapshotMatchesDefaults()
    ensures forall k :: k in SnapshotKeys <==> k in DefaultTextProps
  {
    assert SnapshotKeys[0] in SnapshotKeys && SnapshotKeys[1] in SnapshotKeys && SnapshotKeys[2] in SnapshotKeys;
    assert SnapshotKeys[3] in SnapshotKeys && SnapshotKeys[4] in SnapshotKeys && SnapshotKeys[5] in SnapshotKeys;
    assert SnapshotKeys[6] in SnapshotKeys && SnapshotKeys[7] in SnapshotKeys && SnapshotKeys[8] in SnapshotKeys;
    assert SnapshotKeys[9] in SnapshotKeys && SnapshotKeys[10] in SnapshotKeys && SnapshotKeys[11] in SnapshotKeys;
    assert SnapshotKeys[12] in SnapshotKeys && SnapshotKeys[13] in SnapshotKeys && SnapshotKeys[14] in SnapshotKeys;
    assert SnapshotKeys[15] in SnapshotKeys;
  }

  const NothingToUndo: Notice :=
    Notice("Nothing to undo", Some("Currently, only support undoing deletion operations"))
  const CannotDeleteEditing: Notice :=
    Notice("Cannot delete text object that is being edited", None)

  /** An invisible spacer band: an unselectable empty rectangle at the origin. */
  function SpacerAtStart(id: nat): (r: Obj)
    ensures r.id == id && r.kind == "rect" && !r.selectable && r.left == 0.0 && r.top == 0.0
    ensures Get(r, "width") == Get(r, "height") == VNum(0.0)
    ensures Get(r, "fill") == VStr("transparent") && Get(r, "hasControls") == VBool(false)
  {
    Obj(id, "rect", false, false, 0.0, 0.0, "",
        map["width" := VNum(0.0), "height" := VNum(0.0), "fill" := VStr("transparent"),
            "hasControls" := VBool(false)])
  }

  // ---------------------------------------------------------------------------------------
  // Spacing bands

  /** A value the spacing range inputs deliver: 0 to 400 in steps of 20. */
  predicate SpacingSliderValue(h: int) {
    0 <= h <= 400 && h % 20 == 0
  }

  /** The spacer `id` resized to a gray band of the given geometry; nothing else changes. */
  function PlaceSpacer(objs: seq<Obj>, id: nat, top: real, width: real, height: real): (r: seq<Obj>)
    ensures |r| == |objs|
    ensures forall i | 0 <= i < |objs| && objs[i].id != id :: r[i] == objs[i]
    ensures forall i | 0 <= i < |r| && objs[i].id == id ::
      r[i].left == 0.0 && r[i].top == top
      && Get(r[i], "width") == VNum(width) && Get(r[i], "height") == VNum(height) && Get(r[i], "fill") == VStr("gray")
  {
    seq(|objs|, i requires 0 <= i < |objs| =>
      if objs[i].id == id
      then objs[i].(left := 0.0, top := top,
                    props := objs[i].props["width" := VNum(width)]["height" := VNum(height)]["fill" := VStr("gray")])
      else objs[i])
  }

  /** The canvas after the top band changes from `oldHeight` to `height`. */
  function TopSpacingLayout(objs: seq<Obj>, oldHeight: real, height: real, templateWidth: real): (r: seq<Obj>)
    ensures |r| == |objs|
    ensures forall i | 0 <= i < |objs| && objs[i].id != TopSpacerId :: r[i] == objs[i].(top := objs[i].top + (height - oldHeight))
    ensures forall i | 0 <= i < |objs| && objs[i].id == TopSpacerId ::
      r[i].top == 0.0 && Get(r[i], "height") == VNum(height) && Get(r[i], "width") == VNum(templateWidth)
  {
    PlaceSpacer(Shifted(objs, TopSpacerId, height - oldHeight), TopSpacerId, 0.0, templateWidth, height)
  }

  /** Resizing a band changes no id and no selectability. */
  lemma PlaceSpacerKeepsLayout(objs: seq<Obj>, id: nat, top: real, width: real, height: real)
    ensures SameLayout(objs, PlaceSpacer(objs, id, top, width, height))
  {
  }

  /**
   * The object loop of the top-spacing handler: every object but the top band moves by the
   * change in height, then the band is redrawn.
   */
  method TopSpacingObjects(objs: seq<Obj>, oldHeight: real, height: real, templateWidth: real) returns (r: seq<Obj>)
    ensures r == TopSpacingLayout(objs, oldHeight, height, templateWidth)
    ensures SameLayout(objs, r)
  {
    var diffHeight := height - oldHeight;
    var shifted := ShiftAllExcept(objs, TopSpacerId, diffHeight);
    PlaceSpacerKeepsLayout(shifted, TopSpacerId, 0.0, templateWidth, height);
    r := PlaceSpacer(shifted, TopSpacerId, 0.0, templateWidth, height);
  }

  /**
   * The top band is path independent: two changes in a row equal one change straight to
   * the final height, so returning to the old height puts every other object back.
   */
  lemma TopSpacingPathIndependent(objs: seq<Obj>, h0: real, h1: real, h2: real, templateWidth: real)
    ensures TopSpacingLayout(TopSpacingLayout(objs, h0, h1, templateWidth), h1, h2, templateWidth)
         == TopSpacingLayout(objs, h0, h2, templateWidth)
    ensures forall i | 0 <= i < |objs| && objs[i].id != TopSpacerId ::
              TopSpacingLayout(TopSpacingLayout(objs, h0, h1, templateWidth), h1, h0, templateWidth)[i] == objs[i]
  {
    var a := TopSpacingLayout(TopSpacingLayout(objs, h0, h1, templateWidth), h1, h2, templateWidth);
    var b := TopSpacingLayout(objs, h0, h2, templateWidth);
    forall i | 0 <= i < |objs| ensures a[i] == b[i] {
      if objs[i].id != TopSpacerId {
        assert a[i].top == objs[i].top + (h1 - h0) + (h2 - h1);
      }
    }
  }

  /** The top band always spans from 0 to its height across the template width. */
  lemma TopSpacerSpansBand(objs: seq<Obj>, oldHeight: real, height: real, templateWidth: real, i: nat)
    requires i < |objs| && objs[i].id == TopSpacerId
    ensures var s := TopSpacingLayout(objs, oldHeight, height, templateWidth)[i];
      s.left == 0.0 && s.top == 0.0 && s.props["width"] == VNum(templateWidth)
      && s.props["height"] == VNum(height) && s.props["fill"] == VStr("gray")
  {
  }

  /** A bottom band placed under the template keeps sitting right under it when the top band changes. */
  lemma BottomSpacerFollowsTopBand(objs: seq<Obj>, oldHeight: real, height: real,
                                   templateWidth: real, templateHeight: real, i: nat)
    requires i < |objs| && objs[i].id == BottomSpacerId
    requires objs[i].top == templateHeight + oldHeight
    ensures TopSpacingLayout(objs, oldHeight, height, templateWidth)[i].top == templateHeight + height
  {
  }

  // ---------------------------------------------------------------------------------------
  // The Two Buttons template

  const TemplateWidth: real := 600.0
  const TemplateHeight: real := 908.0

  datatype TemplateBox = TemplateBox(height: real, width: real, left: real, top: real, rotation: real)

  const TemplateBoxes: seq<TemplateBox> := [
    TemplateBox(90.61224489795919, 187.3469387755102, 55.10204081632653, 84.48979591836735, 349.0),
    TemplateBox(80.81632653061224, 143.26530612244898, 273.0612244897959, 55.10204081632653, 352.0),
    TemplateBox(121.6938775510204, 559.5918367346939, 19.591836734693878, 753.1530612244899, 0.0)
  ]

  /** A freshly loaded Fabric image sits at left 0, top 0. */
  const ImageLeft: real := 0.0
  const ImageTop: real := 0.0

  /** `getScaleRatio`: fit 90% of the window, never enlarge. */
  function ScaleRatio(innerWidth: real, innerHeight: real): (s: real)
    ensures s <= 1.0
    ensures s <= innerWidth * 0.9 / TemplateWidth && s <= innerHeight * 0.9 / TemplateHeight
    ensures s == 1.0 || s == innerWidth * 0.9 / TemplateWidth || s == innerHeight * 0.9 / TemplateHeight
  {
    Min(Min(innerWidth * 0.9 / TemplateWidth, innerHeight * 0.9 / TemplateHeight), 1.0)
  }

  /** A window at least 10/9 of the template on both sides shows it at full size. */
  lemma LargeWindowKeepsFullSize(innerWidth: real, innerHeight: real)
    requires innerWidth * 0.9 >= TemplateWidth && innerHeight * 0.9 >= TemplateHeight
    ensures ScaleRatio(innerWidth, innerHeight) == 1.0
  {
  }

  /** The scaled geometry of a template box: image origin plus offset times scale, size times scale. */
  datatype Placement = Placement(left: real, top: real, width: real, height: real)

  function PlaceTextBox(box: TemplateBox, scale: real): (p: Placement)
    ensures p.left - ImageLeft == box.left * scale && p.top - ImageTop == box.top * scale
    ensures p.width == box.width * scale && p.height == box.height * scale
  {
    Placement(ImageLeft + box.left * scale, ImageTop + box.top * scale, box.width * scale, box.height * scale)
  }

  predicate InsideTemplate(box: TemplateBox) {
    0.0 <= box.left && 0.0 <= box.width && box.left + box.width <= TemplateWidth
    && 0.0 <= box.top && 0.0 <= box.height && box.top + box.height <= TemplateHeight
  }

  lemma TemplateBoxesInside()
    ensures forall b | b in TemplateBoxes :: InsideTemplate(b)
  {
  }

  /** A box inside the template lands inside the scaled canvas. */
  lemma PlacedInsideCanvas(box: TemplateBox, scale: real)
    requires InsideTemplate(box) && 0.0 <= scale
    ensures var p := PlaceTextBox(box, scale);
      0.0 <= p.left && p.left + p.width <= TemplateWidth * scale
      && 0.0 <= p.top && p.top + p.height <= TemplateHeight * scale
  {
    MulMono(box.left, scale, box.left, scale);
    MulMono(box.top, scale, box.top, scale);
    MulMono(box.left + box.width, scale, TemplateWidth, scale);
    MulMono(box.top + box.height, scale, TemplateHeight, scale);
    assert box.left * scale + box.width * scale == (box.left + box.width) * scale;
    assert box.top * scale + box.height * scale == (box.top + box.height) * scale;
  }

  /** Scaling keeps the relative layout: distances between boxes scale by the same factor. */
  lemma PlacementKeepsLayout(a: TemplateBox, b: TemplateBox, scale: real)
    ensures PlaceTextBox(a, scale).left - PlaceTextBox(b, scale).left == (a.left - b.left) * scale
    ensures PlaceTextBox(a, scale).top - PlaceTextBox(b, scale).top == (a.top - b.top) * scale
  {
  }

  /** The template image, unselectable and scaled. */
  function TemplateImage(id: nat, scale: real): (r: Obj)
    ensures r.id == id && r.kind == "image" && !r.selectable
    ensures r.left == ImageLeft && r.top == ImageTop
    ensures Get(r, "scaleX") == Get(r, "scaleY") == VNum(scale)
  {
    Obj(id, "image", false, false, ImageLeft, ImageTop, "",
        map["scaleX" := VNum(scale), "scaleY" := VNum(scale)])
  }

  /** The gray placeholder rectangle behind a text box. */
  function Placeholder(id: nat, box: TemplateBox, scale: real): (r: Obj)
    ensures r.id == id && r.kind == "rect" && !r.selectable
    ensures r.left == TemplateText(id + 1, box, scale).left && r.top == TemplateText(id + 1, box, scale).top
    ensures Get(r, "width") == Get(TemplateText(id + 1, box, scale), "width")
    ensures Get(r, "angle") == Get(TemplateText(id + 1, box, scale), "angle") == VNum(box.rotation)
  {
    var p := PlaceTextBox(box, scale);
    Obj(id, "rect", false, false, p.left, p.top, "",
        map["width" := VNum(p.width), "height" := VNum(p.height), "fill" := VStr("gray"),
            "angle" := VNum(box.rotation)])
  }

  /** The editable text box placed on a template box. */
  function TemplateText(id: nat, box: TemplateBox, scale: real): (r: Obj)
    ensures r.id == id && r.kind == "textbox" && r.selectable && !r.isEditing && r.text == "Edit me"
    ensures r.left == PlaceTextBox(box, scale).left && r.top == PlaceTextBox(box, scale).top
    ensures Get(r, "width") == VNum(PlaceTextBox(box, scale).width)
  {
    var p := PlaceTextBox(box, scale);
    Obj(id, "textbox", true, false, p.left, p.top, "Edit me",
        map["width" := VNum(p.width), "shadow" := DefaultShadow, "fontSize" := VNum(30.0),
            "fill" := VStr("white"), "backgroundColor" := VStr("green"),
            "fontFamily" := DefaultFontFamily, "padding" := VNum(0.0),
            "angle" := VNum(box.rotation)])
  }

  /** A placeholder and a text box per template box, with consecutive ids from `firstId`. */
  function BoxObjects(boxes: seq<TemplateBox>, firstId: nat, scale: real): (r: seq<Obj>)
    ensures |r| == 2 * |boxes|
    ensures forall i | 0 <= i < |r| :: r[i].id == firstId + i
    decreases |boxes|
  {
    if |boxes| == 0 then []
    else
      var n := |boxes| - 1;
      BoxObjects(boxes[..n], firstId, scale) + BoxPair(firstId + 2 * n, boxes[n], scale)
  }

  /** The placeholder and the text box for one template box. */
  function BoxPair(id: nat, box: TemplateBox, scale: real): (r: seq<Obj>)
    ensures |r| == 2 && r[0].id == id && r[1].id == id + 1
  {
    [Placeholder(id, box, scale), TemplateText(id + 1, box, scale)]
  }

  /** Every loaded text box is placed on its template box and can be selected. */
  lemma BoxObjectsPlaced(boxes: seq<TemplateBox>, firstId: nat, scale: real, k: nat)
    requires k < |boxes|
    ensures var t := BoxObjects(boxes, firstId, scale)[2 * k + 1];
      t.kind == "textbox" && t.selectable && t.text == "Edit me"
      && t.left == PlaceTextBox(boxes[k], scale).left && t.top == PlaceTextBox(boxes[k], scale).top
    decreases |boxes|
  {
    if k < |boxes| - 1 {
      BoxObjectsPlaced(boxes[..|boxes| - 1], firstId, scale, k);
    }
  }

  /**
   * The objects the template adds, built as the loader does: the image, then the
   * placeholder and the text box of each template box in turn.
   */
  method TemplateObjects(boxes: seq<TemplateBox>, firstId: nat, scale: real) returns (added: seq<Obj>)
    ensures added == TemplateLayout(boxes, firstId, scale)
    ensures |added| == 1 + 2 * |boxes|
    ensures DistinctIds(added) && forall o | o in added :: firstId <= o.id < firstId + |added|
  {
    var pairs: seq<Obj> := [];
    var k := 0;
    while k < |boxes|
      invariant 0 <= k <= |boxes|
      invariant pairs == BoxObjects(boxes[..k], firstId + 1, scale)
    {
      var textBox := boxes[k];
      BoxObjectsSnoc(boxes, k, firstId + 1, scale);
      pairs := pairs + BoxPair(firstId + 1 + 2 * k, textBox, scale);
      k := k + 1;
    }
    assert boxes[..k] == boxes;
    added := [TemplateImage(firstId, scale)] + pairs;
    TemplateLayoutIds(boxes, firstId, scale);
  }

  /** One more template box adds its placeholder and text box at the end. */
  lemma BoxObjectsSnoc(boxes: seq<TemplateBox>, k: nat, firstId: nat, scale: real)
    requires k < |boxes|
    ensures BoxObjects(boxes[..k + 1], firstId, scale)
         == BoxObjects(boxes[..k], firstId, scale) + BoxPair(firstId + 2 * k, boxes[k], scale)
  {
    assert boxes[..k + 1][..k] == boxes[..k];
  }

  /** The template objects take consecutive ids from `firstId`. */
  lemma TemplateLayoutIds(boxes: seq<TemplateBox>, firstId: nat, scale: real)
    ensures var added := TemplateLayout(boxes, firstId, scale);
      && |added| == 1 + 2 * |boxes| && DistinctIds(added)
      && forall o | o in added :: firstId <= o.id < firstId + |added|
  {
    var added := TemplateLayout(boxes, firstId, scale);
    var pairs := BoxObjects(boxes, firstId + 1, scale);
    assert forall i | 0 < i < |added| :: added[i] == pairs[i - 1];
    assert forall i | 0 <= i < |added| :: added[i].id == firstId + i;
  }

  /** The objects the template adds: the image, then a placeholder and a text box per box. */
  function TemplateLayout(boxes: seq<TemplateBox>, firstId: nat, scale: real): (r: seq<Obj>)
    ensures |r| == 1 + 2 * |boxes|
    ensures r[0] == TemplateImage(firstId, scale)
    ensures forall i | 0 <= i < |r| :: r[i].id == firstId + i
  {
    [TemplateImage(firstId, scale)] + BoxObjects(boxes, firstId + 1, scale)
  }

  /** `e.target && FABRIC_TEXT_TYPE_ARRAY.includes(e.target.type) && isOtherTextCopyMode && otherTextCopiedStyle` */
  predicate ClickApplies(objects: seq<Obj>, target: Option<nat>, copyMode: bool,
                         copiedStyle: Option<seq<(string, Value)>>)
    ensures !copyMode || copiedStyle.None? || target.None? ==> !ClickApplies(objects, target, copyMode, copiedStyle)
    ensures ClickApplies(objects, target, copyMode, copiedStyle) ==>
              target.value in IdsOf(objects) && IsText(Find(objects, target.value).value)
  {
    target.Some? && Find(objects, target.value).Some? && IsText(Find(objects, target.value).value)
    && copyMode && copiedStyle.Some?
  }

  class Editor {
    var objects: seq<Obj>
    var selection: seq<nat>
    var deleted: seq<seq<Obj>>
    var toolbars: Toolbars
    var textProps: map<string, Value>
    var copyMode: bool
    var copiedStyle: Option<seq<(string, Value)>>
    var templateWidth: real
    var templateHeight: real
    var topSpacing: real
    var bottomSpacing: real
    var canvasWidth: real
    var canvasHeight: real
    var nextId: nat

    ghost predicate Valid()
      reads this`objects, this`selection, this`deleted, this`nextId, this`toolbars
    {
      CanvasValid(objects, selection, deleted, nextId, Spacers) && !(toolbars.text && toolbars.image)
    }

    /** `canvas.getActiveObjects()`: the selected objects, in selection order. */
    function SelectedObjects(): (r: seq<Obj>)
      reads this`objects, this`selection
      ensures forall o | o in r :: o in objects && o.id in selection
      ensures (forall id | id in selection :: id in IdsOf(objects)) ==>
                |r| == |selection| && forall i | 0 <= i < |r| :: r[i].id == selection[i]
    {
      Active(objects, selection)
    }

    /**
     * The canvas set up on mount: 800 x 600, holding only the two empty spacer bands. Mounting
     * also starts loading the template; once the image arrives the page is this state
     * followed by `LoadTemplate`.
     */
    constructor ()
      ensures Valid()
      ensures objects == [SpacerAtStart(TopSpacerId), SpacerAtStart(BottomSpacerId)]
      ensures selection == [] && deleted == [] && toolbars == Toolbars(false, false)
      ensures textProps == DefaultTextProps && !copyMode && copiedStyle.None?
      ensures canvasWidth == 800.0 && canvasHeight == 600.0
      ensures templateWidth == 0.0 && templateHeight == 0.0 && topSpacing == 0.0 && bottomSpacing == 0.0
    {
      var spacers := [SpacerAtStart(TopSpacerId), SpacerAtStart(BottomSpacerId)];
      assert IdsOf(spacers) == {0, 1} by {
        assert spacers[0] in spacers && spacers[1] in spacers;
      }
      objects := spacers;
      selection := [];
      deleted := [];
      toolbars := Toolbars(false, false);
      textProps := DefaultTextProps;
      copyMode := false;
      copiedStyle := None;
      templateWidth := 0.0;
      templateHeight := 0.0;
      topSpacing := 0.0;
      bottomSpacing := 0.0;
      canvasWidth := 800.0;
      canvasHeight := 600.0;
      nextId := 2;
    }

    /** The user (or Fabric) makes `ids` the active selection. */
    method Select(ids: seq<nat>)
      requires Valid()
      requires Distinct(ids) && forall id | id in ids :: id in IdsOf(objects)
      requires forall o | o in objects && o.id in ids :: o.selectable
      modifies this`selection
      ensures Valid() && selection == ids
    {
      selection := ids;
    }

    /** The keyboard handler: only Ctrl/Cmd+Z is handled, undoing the last deletion. */
    method KeyDown(key: string, metaKey: bool, ctrlKey: bool) returns (toast: Option<Notice>)
      requires Valid()
      modifies this`objects, this`deleted
      ensures Valid()
      ensures !IsUndoKey(key, metaKey, ctrlKey) ==>
        objects == old(objects) && deleted == old(deleted) && toast.None?
      ensures IsUndoKey(key, metaKey, ctrlKey) && |old(deleted)| > 0 ==>
        && objects == old(objects) + old(deleted)[|old(deleted)| - 1]
        && deleted == old(deleted)[..|old(deleted)| - 1]
        && toast.None?
      ensures IsUndoKey(key, metaKey, ctrlKey) && |old(deleted)| == 0 ==>
        objects == old(objects) && deleted == old(deleted) && toast == Some(NothingToUndo)
    {
      toast := None;
      if key == "z" && (metaKey || ctrlKey) {
        if |deleted| > 0 {
          UndoPreservesCanvas(objects, selection, deleted, nextId, Spacers);
          var objectsToRestore := deleted[|deleted| - 1];
          deleted := deleted[..|deleted| - 1];
          objects := objects + objectsToRestore;
        } else {
          toast := Some(NothingToUndo);
        }
      }
    }

    /**
     * `handleDelete`: nothing without a selection; a refusal while a selected textbox is
     * being edited; otherwise the selection goes to the history as one group, leaves the
     * canvas and both toolbars close.
     */
    method Delete() returns (toast: Option<Notice>)
      requires Valid()
      modifies this`objects, this`selection, this`deleted, this`toolbars
      ensures Valid()
      ensures old(SelectedObjects()) == [] ==>
        && objects == old(objects) && selection == old(selection) && deleted == old(deleted)
        && toolbars == old(toolbars) && toast.None?
      ensures old(SelectedObjects()) != [] && AnyTextboxEditing(old(SelectedObjects())) ==>
        && objects == old(objects) && selection == old(selection) && deleted == old(deleted)
        && toolbars == old(toolbars) && toast == Some(CannotDeleteEditing)
      ensures old(SelectedObjects()) != [] && !AnyTextboxEditing(old(SelectedObjects())) ==>
        && deleted == old(deleted) + [old(SelectedObjects())]
        && objects == Without(old(objects), SetOf(old(selection)))
        && selection == [] && toolbars == Toolbars(false, false) && toast.None?
    {
      toast := None;
      var activeObjects := SelectedObjects();
      if activeObjects != [] {
        if AnyTextboxEditing(activeObjects) {
          toast := Some(CannotDeleteEditing);
        } else {
          RemoveSelection();
        }
      }
    }

    /** The selection becomes one history group and leaves the canvas, and both toolbars close. */
    method RemoveSelection()
      requires Valid()
      modifies this`objects, this`selection, this`deleted, this`toolbars
      ensures Valid()
      ensures deleted == old(deleted) + [old(SelectedObjects())]
      ensures objects == Without(old(objects), SetOf(old(selection)))
      ensures selection == [] && toolbars == Toolbars(false, false)
    {
      toolbars := Toolbars(false, false);
      DeletePreservesCanvas(objects, selection, deleted, nextId, Spacers);
      deleted := deleted + [Active(objects, selection)];
      objects := Without(objects, SetOf(selection));
      selection := [];
    }

    /**
     * `handleSelection`, run after Fabric has set the active selection; `eventSelected`
     * lists the objects the event reports as newly selected.
     */
    method HandleSelection(eventSelected: seq<nat>)
      requires Valid()
      requires forall id | id in eventSelected :: id in selection
      modifies this`selection, this`toolbars, this`textProps, this`copyMode, this`copiedStyle
      ensures Valid()
      ensures old(SelectedObjects()) == [] ==>
        && selection == old(selection) && toolbars == Toolbars(false, false)
        && textProps == DefaultTextProps && !copyMode && copiedStyle.None?
      ensures old(SelectedObjects()) != [] && eventSelected == [] ==>
        && selection == old(selection) && toolbars == old(toolbars) && textProps == old(textProps)
        && copyMode == old(copyMode) && copiedStyle == old(copiedStyle)
      ensures old(SelectedObjects()) != [] && eventSelected != [] ==>
        && selection == ReducedSelection(old(SelectedObjects()), old(selection),
                                         Find(objects, eventSelected[|eventSelected| - 1]).value)
        && toolbars == SelectionToolbars(old(SelectedObjects()),
                                         Find(objects, eventSelected[|eventSelected| - 1]).value, old(toolbars))
        && textProps == TextPropsFor(Active(objects, selection), SnapshotKeys, DefaultTextProps)
        && !MixedTypes(Active(objects, selection))
        && copyMode == old(copyMode) && copiedStyle == old(copiedStyle)
    {
      var selectedObjects := SelectedObjects();
      if selectedObjects == [] {
        ResetSelectionState();
        return;
      }
      if eventSelected == [] {
        return;
      }
      SelectTarget(eventSelected[|eventSelected| - 1]);
    }

    /**
     * The non-empty case of `handleSelection` for the target `targetId`: the toolbar is
     * shown, then the toolbar state is read back from the (possibly narrowed) selection.
     */
    method SelectTarget(targetId: nat)
      requires Valid() && SelectedObjects() != [] && targetId in selection
      modifies this`selection, this`toolbars, this`textProps
      ensures Valid()
      ensures selection == ReducedSelection(old(SelectedObjects()), old(selection), Find(objects, targetId).value)
      ensures toolbars == SelectionToolbars(old(SelectedObjects()), Find(objects, targetId).value, old(toolbars))
      ensures textProps == TextPropsFor(Active(objects, selection), SnapshotKeys, DefaultTextProps)
      ensures !MixedTypes(Active(objects, selection))
    {
      ShowSelectionToolbar(SelectedObjects(), targetId);
      textProps := TextPropsFor(SelectedObjects(), SnapshotKeys, DefaultTextProps);
    }

    /** An empty selection hides both toolbars, restores the defaults and leaves copy mode. */
    method ResetSelectionState()
      requires Valid()
      modifies this`toolbars, this`textProps, this`copyMode, this`copiedStyle
      ensures Valid()
      ensures toolbars == Toolbars(false, false) && textProps == DefaultTextProps
      ensures !copyMode && copiedStyle.None?
    {
      toolbars := Toolbars(false, false);
      textProps := DefaultTextProps;
      copiedStyle := None;
      copyMode := false;
    }

    /**
     * The middle of `handleSelection`: a mixed-type selection is narrowed to the target,
     * and the toolbar is chosen by the target's type, or by the common type.
     */
    method ShowSelectionToolbar(selectedObjects: seq<Obj>, targetId: nat)
      requires Valid() && |selectedObjects| > 0 && selectedObjects == SelectedObjects()
      requires targetId in selection
      modifies this`selection, this`toolbars
      ensures Valid()
      ensures selection == ReducedSelection(selectedObjects, old(selection), Find(objects, targetId).value)
      ensures toolbars == SelectionToolbars(selectedObjects, Find(objects, targetId).value, old(toolbars))
      ensures !MixedTypes(SelectedObjects())
    {
      var targetObject := Find(objects, targetId).value;
      ReducedSelectionUniform(objects, selection, targetObject);
      ReducedSelectionPreservesCanvas(objects, selection, deleted, nextId, Spacers, targetObject);
      var reduced := ReducedSelection(selectedObjects, selection, targetObject);
      toolbars := SelectionToolbars(selectedObjects, targetObject, toolbars);
      selection := reduced;
    }

    /** `handleSelectionCleared` */
    method SelectionCleared()
      requires Valid()
      modifies this`toolbars
      ensures Valid() && toolbars == Toolbars(false, false)
    {
      toolbars := Toolbars(false, false);
    }

    /**
     * `updateTextProperties`: every selected text object gets the updates, and the toolbar
     * state merges them over its previous values.
     */
    method UpdateTextProperties(updates: seq<(string, Value)>)
      requires Valid()
      modifies this`objects, this`textProps
      ensures Valid()
      ensures objects == UpdatedCanvas(old(objects), SetOf(selection), updates)
      ensures textProps == MergeProps(old(textProps), updates)
    {
      textProps := MergeProps(textProps, updates);
      var updated := UpdatedCanvas(objects, SetOf(selection), updates);
      UpdatedCanvasIds(objects, SetOf(selection), updates);
      LayoutPreservesCanvas(objects, updated, selection, deleted, nextId, Spacers);
      objects := ApplyTextUpdates(objects, selection, updates);
    }

    /** The toolbar's copy-style button: enter or leave copy mode with the style to copy. */
    method CopyAllTextStyle(updates: Option<seq<(string, Value)>>, latestCopyMode: bool)
      requires Valid()
      modifies this`copyMode, this`copiedStyle
      ensures Valid() && copyMode == latestCopyMode && copiedStyle == updates
    {
      copyMode := latestCopyMode;
      copiedStyle := updates;
    }

    /**
     * `handleObjectClick`: in copy mode with a stored style, clicking a text object applies
     * the style to the selection and leaves copy mode; any other click changes nothing.
     */
    method ObjectClick(target: Option<nat>)
      requires Valid()
      modifies this`objects, this`textProps, this`copyMode, this`copiedStyle
      ensures Valid()
      ensures ClickApplies(old(objects), target, old(copyMode), old(copiedStyle)) ==>
        && objects == UpdatedCanvas(old(objects), SetOf(selection), old(copiedStyle).value)
        && textProps == MergeProps(old(textProps), old(copiedStyle).value)
        && !copyMode && copiedStyle.None?
      ensures !ClickApplies(old(objects), target, old(copyMode), old(copiedStyle)) ==>
        objects == old(objects) && textProps == old(textProps)
        && copyMode == old(copyMode) && copiedStyle == old(copiedStyle)
    {
      if target.Some? {
        var clicked := Find(objects, target.value);
        if clicked.Some? && IsText(clicked.value) && copyMode && copiedStyle.Some? {
          ApplyCopiedStyle(copiedStyle.value);
        }
      }
    }

    /** The copied style goes to every selected text object, and copy mode ends. */
    method ApplyCopiedStyle(style: seq<(string, Value)>)
      requires Valid()
      modifies this`objects, this`textProps, this`copyMode, this`copiedStyle
      ensures Valid()
      ensures objects == UpdatedCanvas(old(objects), SetOf(selection), style)
      ensures textProps == MergeProps(old(textProps), style)
      ensures !copyMode && copiedStyle.None?
    {
      copyMode, copiedStyle := false, None;
      UpdateTextProperties(style);
    }

    /**
     * `handleTopSpacingChange`: every object but the top band moves by the change in
     * height, the band is redrawn and the canvas grows to template plus both bands.
     */
    method TopSpacingChange(height: int)
      requires Valid() && SpacingSliderValue(height)
      modifies this`objects, this`canvasWidth, this`canvasHeight, this`topSpacing
      ensures Valid()
      ensures objects == TopSpacingLayout(old(objects), old(topSpacing), height as real, templateWidth)
      ensures canvasWidth == templateWidth
      ensures canvasHeight == templateHeight + height as real + bottomSpacing
      ensures topSpacing == height as real
    {
      var placed := TopSpacingObjects(objects, topSpacing, height as real, templateWidth);
      SetCanvasSize(templateWidth, templateHeight + height as real + bottomSpacing);
      topSpacing := height as real;
      Relayout(placed);
    }

    /**
     * `handleBottomSpacingChange`: no object moves; the bottom band is placed under the
     * template and the top band, and the canvas grows to template plus both bands.
     */
    method BottomSpacingChange(height: int)
      requires Valid() && SpacingSliderValue(height)
      modifies this`objects, this`canvasWidth, this`canvasHeight, this`bottomSpacing
      ensures Valid()
      ensures objects == PlaceSpacer(old(objects), BottomSpacerId, old(templateHeight + topSpacing), old(templateWidth), height as real)
      ensures canvasWidth == templateWidth
      ensures canvasHeight == templateHeight + topSpacing + height as real
      ensures bottomSpacing == height as real
    {
      var band, top := height as real, templateHeight + topSpacing;
      SetCanvasSize(templateWidth, top + band);
      bottomSpacing := band;
      PlaceBand(BottomSpacerId, top, templateWidth, band);
    }

    /** One spacer band is redrawn with the given geometry; every other object stays. */
    method PlaceBand(id: nat, top: real, width: real, band: real)
      requires Valid()
      modifies this`objects
      ensures Valid() && objects == PlaceSpacer(old(objects), id, top, width, band)
    {
      var placed := PlaceSpacer(objects, id, top, width, band);
      PlaceSpacerKeepsLayout(objects, id, top, width, band);
      Relayout(placed);
    }

    /** The canvas objects are replaced by a copy with the same ids and selectability, in the same order. */
    method Relayout(placed: seq<Obj>)
      requires Valid() && SameLayout(objects, placed)
      modifies this`objects
      ensures Valid() && objects == placed
    {
      LayoutPreservesCanvas(objects, placed, selection, deleted, nextId, Spacers);
      objects := placed;
    }

    /** `canvas.setDimensions(...)` */
    method SetCanvasSize(width: real, height: real)
      modifies this`canvasWidth, this`canvasHeight
      ensures canvasWidth == width && canvasHeight == height
    {
      canvasWidth := width;
      canvasHeight := height;
    }

    /** `canvas.add(...)` of new objects, which take the next free ids. */
    method Add(added: seq<Obj>)
      requires Valid()
      requires DistinctIds(added) && forall o | o in added :: nextId <= o.id < nextId + |added|
      modifies this`objects, this`nextId
      ensures Valid()
      ensures objects == old(objects) + added && nextId == old(nextId) + |added|
    {
      AddPreservesCanvas(objects, selection, deleted, nextId, Spacers, added, nextId + |added|);
      objects := objects + added;
      nextId := nextId + |added|;
    }

    /**
     * `handleSelectTemplate` once the image has loaded: the canvas takes the scaled
     * template size, and the image, then a placeholder and a text box per template box, are
     * added in that order.
     */
    method LoadTemplate(innerWidth: real, innerHeight: real)
      requires Valid()
      modifies this`objects, this`nextId, this`canvasWidth, this`canvasHeight,
               this`templateWidth, this`templateHeight
      ensures Valid()
      ensures objects == old(objects) + TemplateLayout(TemplateBoxes, old(nextId), ScaleRatio(innerWidth, innerHeight))
      ensures nextId == old(nextId) + 1 + 2 * |TemplateBoxes|
      ensures canvasWidth == TemplateWidth * ScaleRatio(innerWidth, innerHeight)
      ensures canvasHeight == TemplateHeight * ScaleRatio(innerWidth, innerHeight)
      ensures templateWidth == canvasWidth && templateHeight == canvasHeight
    {
      var scale := ScaleRatio(innerWidth, innerHeight);
      var added := TemplateObjects(TemplateBoxes, nextId, scale);
      FitToTemplate(TemplateWidth * scale, TemplateHeight * scale);
      Add(added);
    }

    /** The canvas and the recorded template size both take the scaled template size. */
    method FitToTemplate(width: real, height: real)
      modifies this`canvasWidth, this`canvasHeight, this`templateWidth, this`templateHeight
      ensures canvasWidth == width && canvasHeight == height
      ensures templateWidth == width && templateHeight == height
    {
      SetCanvasSize(width, height);
      templateWidth := canvasWidth;
      templateHeight := canvasHeight;
    }
  }
}
