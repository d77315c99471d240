/**
 * The main editor page: a plain 800 x 600 canvas with deletion and its undo on the
 * keyboard, type-uniform selections and the text toolbar's property updates.
 */
module AppEditor {
  import opened Wrappers
  import opened EditorCore

  /** `defaultTextProps` of the main page's text toolbar. */
  const DefaultTextProps: map<string, Value> := map[
    "fontFamily" := VStr("Impact"),
    "fontSize" := VNum(48.0),
    "fill" := VStr("#ffffff"),
    "fontWeight" := VStr("normal"),
    "fontStyle" := VStr("normal"),
    "underline" := VBool(false),
    "linethrough" := VBool(false),
    "uppercase" := VBool(false),
    "textAlign" := VStr("left"),
    "charSpacing" := VNum(0.0),
    "lineHeight" := VNum(1.2),
    "opacity" := VNum(1.0)
  ]

  /** The properties read back from the first selected text object. */
  const SnapshotKeys: seq<string> := [
    "fontFamily", "fontSize", "fill", "fontWeight", "underline", "linethrough", "uppercase",
    "textAlign", "charSpacing", "lineHeight", "opacity", "fontStyle"
  ]

  const NothingToUndo: Notice := Notice("Nothing to undo", Some("Only deletion undo supported currently"))

  /** The snapshot reads back exactly the keys the defaults have. */
  lemma SnapshotMatchesDefaults()
    ensures forall k :: k in SnapshotKeys <==> k in DefaultTextProps
  {
    assert SnapshotKeys[0] in SnapshotKeys && SnapshotKeys[1] in SnapshotKeys && SnapshotKeys[2] in SnapshotKeys;
    assert SnapshotKeys[3] in SnapshotKeys && SnapshotKeys[4] in SnapshotKeys && SnapshotKeys[5] in SnapshotKeys;
    assert SnapshotKeys[6] in SnapshotKeys && SnapshotKeys[7] in SnapshotKeys && SnapshotKeys[8] in SnapshotKeys;
    assert SnapshotKeys[9] in SnapshotKeys && SnapshotKeys[10] in SnapshotKeys && SnapshotKeys[11] in SnapshotKeys;
  }

  class Editor {
    var objects: seq<Obj>
    var selection: seq<nat>
    var deleted: seq<seq<Obj>>
    var toolbars: Toolbars
    var textProps: map<string, Value>
    var showUndoHint: bool
    var nextId: nat
    const canvasWidth: real
    const canvasHeight: real

    ghost predicate Valid()
      reads this`objects, this`selection, this`deleted, this`nextId, this`toolbars
    {
      CanvasValid(objects, selection, deleted, nextId, {}) && !(toolbars.text && toolbars.image)
    }

    /** `canvas.getActiveObjects()`: the selected objects, in selection order. */
    function SelectedObjects(): (r: seq<Obj>)
      reads this`objects, this`selection
      ensures forall o | o in r :: o in objects && o.id in selection
      ensures (forall id | id in selection :: id in IdsOf(objects)) ==>
                |r| == |selection| && forall i | 0 <= i < |r| :: r[i].id == selection[i]
    {
      Active(objects, selection)
    }

    /** The mounted page: an empty 800 x 600 canvas, no history, no toolbar. */
    constructor ()
      ensures Valid()
      ensures objects == [] && selection == [] && deleted == [] && toolbars == Toolbars(false, false)
      ensures textProps == DefaultTextProps && !showUndoHint
      ensures canvasWidth == 800.0 && canvasHeight == 600.0
    {
      objects := [];
      selection := [];
      deleted := [];
      toolbars := Toolbars(false, false);
      textProps := DefaultTextProps;
      showUndoHint := false;
      nextId := 0;
      canvasWidth := 800.0;
      canvasHeight := 600.0;
    }

    /** The user (or Fabric) makes `ids` the active selection. */
    method Select(ids: seq<nat>)
      requires Valid()
      requires Distinct(ids) && forall id | id in ids :: id in IdsOf(objects)
      requires forall o | o in objects && o.id in ids :: o.selectable
      modifies this`selection
      ensures Valid() && selection == ids
    {
      SelectPreservesCanvas(objects, selection, ids, deleted, nextId, {});
      selection := ids;
    }

    /** `canvas.add(...)` of new objects, which take the next free ids. */
    method Add(added: seq<Obj>)
      requires Valid()
      requires DistinctIds(added) && forall o | o in added :: nextId <= o.id < nextId + |added|
      modifies this`objects, this`nextId
      ensures Valid()
      ensures objects == old(objects) + added && nextId == old(nextId) + |added|
    {
      AddPreservesCanvas(objects, selection, deleted, nextId, {}, added, nextId + |added|);
      objects := objects + added;
      nextId := nextId + |added|;
    }

    /**
     * The keyboard handler. Delete or Backspace removes the selection as one history group
     * unless a selected textbox is being edited; Ctrl/Cmd+Z restores the last group, or
     * toasts and raises the undo hint when there is none.
     */
    method KeyDown(key: string, metaKey: bool, ctrlKey: bool) returns (toast: Option<Notice>)
      requires Valid()
      modifies this`objects, this`selection, this`deleted, this`toolbars, this`showUndoHint
      ensures Valid()
      ensures IsDeleteKey(key) ==>
        && toast.None? && showUndoHint == old(showUndoHint)
        && (old(SelectedObjects()) == [] || AnyTextboxEditing(old(SelectedObjects())) ==>
              && objects == old(objects) && selection == old(selection) && deleted == old(deleted)
              && toolbars == old(toolbars))
        && (old(SelectedObjects()) != [] && !AnyTextboxEditing(old(SelectedObjects())) ==>
              && deleted == old(deleted) + [old(SelectedObjects())]
              && objects == Without(old(objects), SetOf(old(selection)))
              && selection == [] && toolbars == Toolbars(false, false))
      ensures IsUndoKey(key, metaKey, ctrlKey) && old(deleted) != [] ==>
        && objects == old(objects) + old(deleted)[|old(deleted)| - 1]
        && deleted == old(deleted)[..|old(deleted)| - 1]
        && selection == old(selection) && toolbars == old(toolbars)
        && toast.None? && showUndoHint == old(showUndoHint)
      ensures IsUndoKey(key, metaKey, ctrlKey) && old(deleted) == [] ==>
        && objects == old(objects) && deleted == old(deleted)
        && selection == old(selection) && toolbars == old(toolbars)
        && toast == Some(NothingToUndo) && showUndoHint
      ensures !IsDeleteKey(key) && !IsUndoKey(key, metaKey, ctrlKey) ==>
        && objects == old(objects) && selection == old(selection) && deleted == old(deleted)
        && toolbars == old(toolbars) && toast.None? && showUndoHint == old(showUndoHint)
    {
      toast := None;
      if key == "Delete" || key == "Backspace" {
        DeleteSelection();
      }
      if key == "z" && (metaKey || ctrlKey) {
        toast := Undo();
      }
    }

    /** The Delete/Backspace branch: a silent refusal while a selected textbox is being edited. */
    method DeleteSelection()
      requires Valid()
      modifies this`objects, this`selection, this`deleted, this`toolbars
      ensures Valid()
      ensures old(SelectedObjects()) == [] || AnyTextboxEditing(old(SelectedObjects())) ==>
        && objects == old(objects) && selection == old(selection) && deleted == old(deleted)
        && toolbars == old(toolbars)
      ensures old(SelectedObjects()) != [] && !AnyTextboxEditing(old(SelectedObjects())) ==>
        && deleted == old(deleted) + [old(SelectedObjects())]
        && objects == Without(old(objects), SetOf(old(selection)))
        && selection == [] && toolbars == Toolbars(false, false)
    {
      var activeObjects := SelectedObjects();
      if activeObjects != [] && !AnyTextboxEditing(activeObjects) {
        DeletePreservesCanvas(objects, selection, deleted, nextId, {});
        deleted := deleted + [activeObjects];
        objects := Without(objects, SetOf(selection));
        selection := [];
        toolbars := Toolbars(false, false);
      }
    }

    /** The Ctrl/Cmd+Z branch. */
    method Undo() returns (toast: Option<Notice>)
      requires Valid()
      modifies this`objects, this`deleted, this`showUndoHint
      ensures Valid()
      ensures old(deleted) != [] ==>
        && objects == old(objects) + old(deleted)[|old(deleted)| - 1]
        && deleted == old(deleted)[..|old(deleted)| - 1]
        && toast.None? && showUndoHint == old(showUndoHint)
      ensures old(deleted) == [] ==>
        && objects == old(objects) && deleted == old(deleted)
        && toast == Some(NothingToUndo) && showUndoHint
    {
      if |deleted| > 0 {
        UndoPreservesCanvas(objects, selection, deleted, nextId, {});
        var objectsToRestore := deleted[|deleted| - 1];
        deleted := deleted[..|deleted| - 1];
        objects := objects + objectsToRestore;
        toast := None;
      } else {
        toast := Some(NothingToUndo);
        showUndoHint := true;
      }
    }

    /** The hint timer firing: the undo hint is hidden again. */
    method HideUndoHint()
      modifies this`showUndoHint
      ensures !showUndoHint
    {
      showUndoHint := false;
    }

    /** `showTextToolbarFun` */
    method ShowTextToolbar()
      modifies this`toolbars
      ensures toolbars == Toolbars(true, false)
    {
      toolbars := Toolbars(true, false);
    }

    /** `showImageToolbarFun` */
    method ShowImageToolbar()
      modifies this`toolbars
      ensures toolbars == Toolbars(false, true)
    {
      toolbars := Toolbars(false, true);
    }

    /**
     * `handleSelection`, run after Fabric has set the active selection; `eventSelected`
     * lists the objects the event reports as newly selected.
     */
    method HandleSelection(eventSelected: seq<nat>)
      requires Valid()
      requires forall id | id in eventSelected :: id in selection
      modifies this`selection, this`toolbars, this`textProps
      ensures Valid()
      ensures old(SelectedObjects()) == [] ==>
        selection == old(selection) && toolbars == Toolbars(false, false) && textProps == DefaultTextProps
      ensures old(SelectedObjects()) != [] && eventSelected == [] ==>
        selection == old(selection) && toolbars == old(toolbars) && textProps == old(textProps)
      ensures old(SelectedObjects()) != [] && eventSelected != [] ==>
        && selection == ReducedSelection(old(SelectedObjects()), old(selection),
                                         Find(objects, eventSelected[|eventSelected| - 1]).value)
        && toolbars == SelectionToolbars(old(SelectedObjects()),
                                         Find(objects, eventSelected[|eventSelected| - 1]).value, old(toolbars))
        && textProps == TextPropsFor(Active(objects, selection), SnapshotKeys, DefaultTextProps)
        && !MixedTypes(Active(objects, selection))
    {
      var selectedObjects := SelectedObjects();
      if selectedObjects == [] {
        toolbars := Toolbars(false, false);
        textProps := DefaultTextProps;
        return;
      }
      if eventSelected == [] {
        return;
      }
      SelectTarget(eventSelected[|eventSelected| - 1]);
    }

    /**
     * The non-empty case of `handleSelection` for the target `targetId`: the toolbar is
     * shown, then the toolbar state is read back from the (possibly narrowed) selection.
     */
    method SelectTarget(targetId: nat)
      requires Valid() && SelectedObjects() != [] && targetId in selection
      modifies this`selection, this`toolbars, this`textProps
      ensures Valid()
      ensures selection == ReducedSelection(old(SelectedObjects()), old(selection), Find(objects, targetId).value)
      ensures toolbars == SelectionToolbars(old(SelectedObjects()), Find(objects, targetId).value, old(toolbars))
      ensures textProps == TextPropsFor(Active(objects, selection), SnapshotKeys, DefaultTextProps)
      ensures !MixedTypes(Active(objects, selection))
    {
      ShowSelectionToolbar(SelectedObjects(), targetId);
      textProps := TextPropsFor(SelectedObjects(), SnapshotKeys, DefaultTextProps);
    }

    /**
     * The middle of `handleSelection`: a mixed-type selection is narrowed to the target,
     * and the toolbar is chosen by the target's type, or by the common type.
     */
    method ShowSelectionToolbar(selectedObjects: seq<Obj>, targetId: nat)
      requires Valid() && |selectedObjects| > 0 && selectedObjects == SelectedObjects()
      requires targetId in selection
      modifies this`selection, this`toolbars
      ensures Valid()
      ensures selection == ReducedSelection(selectedObjects, old(selection), Find(objects, targetId).value)
      ensures toolbars == SelectionToolbars(selectedObjects, Find(objects, targetId).value, old(toolbars))
      ensures !MixedTypes(SelectedObjects())
    {
      var targetObject := Find(objects, targetId).value;
      ReducedSelectionUniform(objects, selection, targetObject);
      ReducedSelectionPreservesCanvas(objects, selection, deleted, nextId, {}, targetObject);
      var reduced := ReducedSelection(selectedObjects, selection, targetObject);
      toolbars := SelectionToolbars(selectedObjects, targetObject, toolbars);
      selection := reduced;
    }

    /** `handleSelectionCleared` */
    method SelectionCleared()
      requires Valid()
      modifies this`toolbars
      ensures Valid() && toolbars == Toolbars(false, false)
    {
      toolbars := Toolbars(false, false);
    }

    /**
     * `updateTextProperties`: every selected text object gets the updates, and the toolbar
     * state merges them over its previous values.
     */
    method UpdateTextProperties(updates: seq<(string, Value)>)
      requires Valid()
      modifies this`objects, this`textProps
      ensures Valid()
      ensures objects == UpdatedCanvas(old(objects), SetOf(selection), updates)
      ensures textProps == MergeProps(old(textProps), updates)
    {
      textProps := MergeProps(textProps, updates);
      var updated := UpdatedCanvas(objects, SetOf(selection), updates);
      UpdatedCanvasIds(objects, SetOf(selection), updates);
      LayoutPreservesCanvas(objects, updated, selection, deleted, nextId, {});
      objects := ApplyTextUpdates(objects, selection, updates);
    }
  }
}
