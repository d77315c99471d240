/**
 * Bookkeeping shared by the two canvas editor pages: canvas objects as records with ids,
 * the active selection, the deletion history, property updates on text objects, the
 * toolbar choice for a selection, and the vertical shift used by the spacing controls.
 */
module EditorCore {
  import opened Wrappers

  /** A property value as the pages pass it around. */
  datatype Value =
    | VBool(b: bool)
    | VNum(n: real)
    | VStr(s: string)
    | VShadow(color: string, blur: real, offsetX: real, offsetY: real)
    | VUndefined

  /** JavaScript truthiness of a value (a shadow object is always truthy). */
  predicate Truthy(v: Value)
    ensures !Truthy(v) <==> v in {VBool(false), VNum(0.0), VStr(""), VUndefined}
  {
    match v
    case VBool(b) => b
    case VNum(n) => n != 0.0
    case VStr(s) => s != ""
    case VShadow(_, _, _, _) => true
    case VUndefined => false
  }

  /**
   * A canvas object: its identity, Fabric type, whether it can be selected, whether it is a
   * textbox in editing mode, its position, its text, and every other property by name.
   */
  datatype Obj = Obj(id: nat, kind: string, selectable: bool, isEditing: bool,
                     left: real, top: real, text: string, props: map<string, Value>)

  const TextTypes: seq<string> := ["textbox", "i-text", "text"]
  const ImageTypes: seq<string> := ["image"]

  /** `FABRIC_TEXT_TYPE_ARRAY.includes(obj.type)` */
  predicate IsText(o: Obj)
    ensures IsText(o) <==> o.kind == "textbox" || o.kind == "i-text" || o.kind == "text"
  {
    o.kind in TextTypes
  }

  /** `FABRIC_IMAGE_TYPE_ARRAY.includes(obj.type)`; no type is both a text and an image type. */
  predicate IsImage(o: Obj)
    ensures IsImage(o) <==> o.kind == "image"
    ensures IsImage(o) ==> !IsText(o)
  {
    o.kind in ImageTypes
  }

  /** `obj.get(key)`: the property, or undefined. */
  function Get(o: Obj, key: string): (v: Value)
    ensures key in o.props ==> v == o.props[key]
    ensures key !in o.props ==> v == VUndefined
  {
    if key in o.props then o.props[key] else VUndefined
  }

  // ---------------------------------------------------------------------------------------
  // Ids, lookup, selection

  function IdsOf(objs: seq<Obj>): set<nat> {
    set o | o in objs :: o.id
  }

  predicate DistinctIds(objs: seq<Obj>) {
    forall i, j | 0 <= i < j < |objs| :: objs[i].id != objs[j].id
  }

  function SetOf(ids: seq<nat>): set<nat> {
    set id | id in ids
  }

  predicate Distinct(ids: seq<nat>) {
    forall i, j | 0 <= i < j < |ids| :: ids[i] != ids[j]
  }

  /** The position of the object with the given id. */
  function IndexOf(objs: seq<Obj>, id: nat): (r: Option<nat>)
    ensures r.Some? ==> r.value < |objs| && objs[r.value].id == id
    ensures r.None? ==> id !in IdsOf(objs)
  {
    if |objs| == 0 then None
    else if objs[0].id == id then Some(0)
    else match IndexOf(objs[1..], id)
      case None => (assert forall o | o in objs :: o == objs[0] || o in objs[1..]; None)
      case Some(i) => Some(i + 1)
  }

  lemma IndexOfDistinct(objs: seq<Obj>, i: nat)
    requires DistinctIds(objs) && i < |objs|
    ensures IndexOf(objs, objs[i].id) == Some(i)
  {
    assert objs[i] in objs;
  }

  /** The object with the given id. */
  function Find(objs: seq<Obj>, id: nat): (r: Option<Obj>)
    ensures r.Some? ==> r.value in objs && r.value.id == id
    ensures r.None? <==> id !in IdsOf(objs)
  {
    match IndexOf(objs, id)
    case None => None
    case Some(i) => (assert objs[i] in objs; Some(objs[i]))
  }

  /** `getActiveObjects()`: the selected objects in selection order. */
  function Active(objs: seq<Obj>, selection: seq<nat>): (r: seq<Obj>)
    ensures |r| <= |selection|
    ensures forall o | o in r :: o in objs && o.id in selection
    ensures (forall id | id in selection :: id in IdsOf(objs)) ==>
              |r| == |selection| && forall i | 0 <= i < |r| :: r[i].id == selection[i]
    decreases |selection|
  {
    if |selection| == 0 then []
    else
      var head := IndexOf(objs, selection[0]);
      var rest := Active(objs, selection[1..]);
      assert forall id | id in selection[1..] :: id in selection;
      if head.Some? then [objs[head.value]] + rest else rest
  }

  /** `canvas.remove(...)`: the objects whose id is not in `ids`, in canvas order. */
  function Without(objs: seq<Obj>, ids: set<nat>): (r: seq<Obj>)
    ensures forall o :: o in r <==> o in objs && o.id !in ids
    ensures |r| <= |objs|
  {
    if |objs| == 0 then []
    else if objs[0].id in ids then Without(objs[1..], ids)
    else [objs[0]] + Without(objs[1..], ids)
  }

  /** The objects whose id is in `ids`, in canvas order. */
  function Keep(objs: seq<Obj>, ids: set<nat>): (r: seq<Obj>)
    ensures forall o :: o in r <==> o in objs && o.id in ids
  {
    if |objs| == 0 then []
    else if objs[0].id in ids then [objs[0]] + Keep(objs[1..], ids)
    else Keep(objs[1..], ids)
  }

  lemma {:induction false} WithoutKeepPartition(objs: seq<Obj>, ids: set<nat>)
    ensures multiset(Without(objs, ids)) + multiset(Keep(objs, ids)) == multiset(objs)
  {
    if |objs| > 0 {
      WithoutKeepPartition(objs[1..], ids);
      assert objs == [objs[0]] + objs[1..];
    }
  }

  predicate NoDuplicates<T(==)>(s: seq<T>) {
    forall i, j | 0 <= i < j < |s| :: s[i] != s[j]
  }

  lemma {:induction false} NoDuplicatesCount<T>(s: seq<T>, x: T)
    requires NoDuplicates(s)
    ensures multiset(s)[x] == if x in s then 1 else 0
  {
    if |s| > 0 {
      assert s == [s[0]] + s[1..];
      NoDuplicatesCount(s[1..], x);
      if x == s[0] {
        assert x !in s[1..];
      }
    }
  }

  lemma SameElementsSameMultiset<T>(a: seq<T>, b: seq<T>)
    requires NoDuplicates(a) && NoDuplicates(b)
    requires forall x :: x in a <==> x in b
    ensures multiset(a) == multiset(b)
  {
    forall x ensures multiset(a)[x] == multiset(b)[x] {
      NoDuplicatesCount(a, x);
      NoDuplicatesCount(b, x);
    }
  }

  lemma {:induction false} KeepDistinct(objs: seq<Obj>, ids: set<nat>)
    requires DistinctIds(objs)
    ensures NoDuplicates(Keep(objs, ids))
  {
    if |objs| > 0 {
      KeepDistinct(objs[1..], ids);
      if objs[0].id in ids {
        assert objs[0] !in objs[1..];
      }
    }
  }

  /**
   * Deleting the active objects and adding them back restores the canvas up to order: the
   * remaining objects plus the removed group is a permutation of the original canvas.
   */
  lemma DeleteThenRestore(objs: seq<Obj>, selection: seq<nat>)
    requires DistinctIds(objs) && Distinct(selection)
    requires forall id | id in selection :: id in IdsOf(objs)
    ensures multiset(Without(objs, SetOf(selection)) + Active(objs, selection)) == multiset(objs)
  {
    var s := SetOf(selection);
    var group := Active(objs, selection);
    var kept := Keep(objs, s);
    KeepDistinct(objs, s);
    assert NoDuplicates(group) by {
      forall i, j | 0 <= i < j < |group| ensures group[i] != group[j] {
        assert group[i].id == selection[i] && group[j].id == selection[j];
      }
    }
    forall o ensures o in group <==> o in kept {
      if o in kept {
        assert o in objs && o.id in selection;
        var k :| 0 <= k < |selection| && selection[k] == o.id;
        var p :| 0 <= p < |objs| && objs[p] == o;
        IndexOfDistinct(objs, p);
        assert group[k] in objs && group[k].id == o.id;
        var q :| 0 <= q < |objs| && objs[q] == group[k];
        assert p == q;
      }
    }
    SameElementsSameMultiset(group, kept);
    WithoutKeepPartition(objs, s);
  }

  /** `activeObjects.some(obj => obj.type === 'textbox' && obj.isEditing === true)` */
  predicate AnyTextboxEditing(active: seq<Obj>)
    ensures AnyTextboxEditing(active) ==> |active| > 0
    ensures (forall i | 0 <= i < |active| :: !active[i].isEditing) ==> !AnyTextboxEditing(active)
    ensures (forall i | 0 <= i < |active| :: active[i].kind != "textbox") ==> !AnyTextboxEditing(active)
  {
    exists o | o in active :: o.kind == "textbox" && o.isEditing
  }

  /** A toast: a title and an optional description. */
  datatype Notice = Notice(title: string, description: Option<string>)

  /** `e.key === 'z' && (e.metaKey || e.ctrlKey)` */
  predicate IsUndoKey(key: string, metaKey: bool, ctrlKey: bool)
    ensures IsUndoKey(key, metaKey, ctrlKey) ==> key == "z"
    ensures !metaKey && !ctrlKey ==> !IsUndoKey(key, metaKey, ctrlKey)
    ensures key == "Z" ==> !IsUndoKey(key, metaKey, ctrlKey)
  {
    key == "z" && (metaKey || ctrlKey)
  }

  /** `e.key === 'Delete' || e.key === 'Backspace'` */
  predicate IsDeleteKey(key: string)
    ensures IsDeleteKey(key) ==> !IsUndoKey(key, true, true)
    ensures key == "Delete" || key == "Backspace" ==> IsDeleteKey(key)
  {
    key == "Delete" || key == "Backspace"
  }

  // ---------------------------------------------------------------------------------------
  // The canvas invariant

  /**
   * The canvas, the active selection and the deletion history are consistent:
   * - ids are unique on the canvas and within each deleted group;
   * - the selection names distinct, selectable objects of the canvas;
   * - the `fixed` objects (spacers) stay on the canvas and cannot be selected;
   * - each deleted group is off the canvas and disjoint from every other group;
   * - every id is below `nextId`, so new objects get fresh ids.
   */
  predicate CanvasValid(objects: seq<Obj>, selection: seq<nat>, deleted: seq<seq<Obj>>,
                        nextId: nat, fixed: set<nat>) {
    && DistinctIds(objects)
    && Distinct(selection)
    && (forall id | id in selection :: id in IdsOf(objects))
    && (forall o | o in objects && o.id in selection :: o.selectable)
    && fixed <= IdsOf(objects)
    && (forall o | o in objects && o.id in fixed :: !o.selectable)
    && (forall o | o in objects :: o.id < nextId)
    && (forall k | 0 <= k < |deleted| ::
          DistinctIds(deleted[k]) && IdsOf(deleted[k]) !! IdsOf(objects)
          && forall o | o in deleted[k] :: o.id < nextId)
    && (forall k, l | 0 <= k < l < |deleted| :: IdsOf(deleted[k]) !! IdsOf(deleted[l]))
  }

  lemma {:induction false} WithoutDistinct(objs: seq<Obj>, ids: set<nat>)
    requires DistinctIds(objs)
    ensures DistinctIds(Without(objs, ids))
  {
    if |objs| > 0 {
      WithoutDistinct(objs[1..], ids);
      if objs[0].id !in ids {
        var rest := Without(objs[1..], ids);
        forall j | 0 <= j < |rest| ensures rest[j].id != objs[0].id {
          assert rest[j] in objs[1..];
        }
      }
    }
  }

  lemma DistinctAppend(a: seq<Obj>, b: seq<Obj>)
    requires DistinctIds(a) && DistinctIds(b) && IdsOf(a) !! IdsOf(b)
    ensures DistinctIds(a + b)
  {
    forall i, j | 0 <= i < j < |a + b| ensures (a + b)[i].id != (a + b)[j].id {
      if j < |a| {
        assert (a + b)[i] == a[i] && (a + b)[j] == a[j];
      } else if i >= |a| {
        assert (a + b)[i] == b[i - |a|] && (a + b)[j] == b[j - |a|];
      } else {
        assert (a + b)[i] == a[i] && (a + b)[j] == b[j - |a|];
        assert a[i] in a && b[j - |a|] in b;
        assert a[i].id in IdsOf(a) && b[j - |a|].id in IdsOf(b);
      }
    }
  }

  lemma ActiveIds(objs: seq<Obj>, selection: seq<nat>)
    requires Distinct(selection) && forall id | id in selection :: id in IdsOf(objs)
    ensures DistinctIds(Active(objs, selection))
    ensures IdsOf(Active(objs, selection)) == SetOf(selection)
  {
    var g := Active(objs, selection);
    forall id | id in selection ensures id in IdsOf(g) {
      var k :| 0 <= k < |selection| && selection[k] == id;
      assert g[k] in g;
    }
  }

  /** Deleting the selection keeps the invariant; the selection becomes empty. */
  lemma DeletePreservesCanvas(objects: seq<Obj>, selection: seq<nat>, deleted: seq<seq<Obj>>,
                              nextId: nat, fixed: set<nat>)
    requires CanvasValid(objects, selection, deleted, nextId, fixed)
    ensures CanvasValid(Without(objects, SetOf(selection)), [], deleted + [Active(objects, selection)], nextId, fixed)
  {
    var rest := Without(objects, SetOf(selection));
    var group := Active(objects, selection);
    var hist := deleted + [group];
    WithoutDistinct(objects, SetOf(selection));
    ActiveIds(objects, selection);
    forall f | f in fixed ensures f in IdsOf(rest) {
      var o :| o in objects && o.id == f;
      assert o in rest;
    }
    forall k | 0 <= k < |hist| ensures IdsOf(hist[k]) !! IdsOf(rest) {
      if k < |deleted| {
        assert hist[k] == deleted[k];
        forall o | o in rest ensures o.id in IdsOf(objects) {
          assert o in objects;
        }
      }
    }
    forall k | 0 <= k < |hist| ensures forall o: Obj | o in hist[k] :: o.id < nextId {
      if k == |deleted| {
        forall o | o in group ensures o.id < nextId {
          assert o in objects;
        }
      }
    }
    forall k, l | 0 <= k < l < |hist| ensures IdsOf(hist[k]) !! IdsOf(hist[l]) {
      if l == |deleted| {
        assert hist[k] == deleted[k];
        forall o | o in group ensures o.id in IdsOf(objects) {
          assert o in objects;
        }
      } else {
        assert hist[k] == deleted[k] && hist[l] == deleted[l];
      }
    }
  }

  /** Re-adding the last deleted group keeps the invariant; the selection is kept. */
  lemma UndoPreservesCanvas(objects: seq<Obj>, selection: seq<nat>, deleted: seq<seq<Obj>>,
                            nextId: nat, fixed: set<nat>)
    requires CanvasValid(objects, selection, deleted, nextId, fixed) && |deleted| > 0
    ensures CanvasValid(objects + deleted[|deleted| - 1], selection, deleted[..|deleted| - 1], nextId, fixed)
  {
    var n := |deleted|;
    var group := deleted[n - 1];
    var restored := objects + group;
    DistinctAppend(objects, group);
    assert IdsOf(restored) == IdsOf(objects) + IdsOf(group);
    assert forall o | o in group :: o.id in IdsOf(group);
    forall k | 0 <= k < n - 1 ensures IdsOf(deleted[k]) !! IdsOf(restored) {
      assert IdsOf(deleted[k]) !! IdsOf(deleted[n - 1]);
    }
  }

  /** Appending objects with fresh ids keeps the invariant. */
  lemma AddPreservesCanvas(objects: seq<Obj>, selection: seq<nat>, deleted: seq<seq<Obj>>,
                           nextId: nat, fixed: set<nat>, added: seq<Obj>, nextId': nat)
    requires CanvasValid(objects, selection, deleted, nextId, fixed)
    requires DistinctIds(added) && forall o | o in added :: nextId <= o.id < nextId'
    requires nextId <= nextId'
    ensures CanvasValid(objects + added, selection, deleted, nextId', fixed)
  {
    assert forall id | id in IdsOf(objects) :: id < nextId;
    assert forall k, id | 0 <= k < |deleted| && id in IdsOf(deleted[k]) :: id < nextId;
    DistinctAppend(objects, added);
    assert IdsOf(objects + added) == IdsOf(objects) + IdsOf(added);
  }

  /** Ids, types and selectability in canvas order: what the invariant depends on. */
  predicate SameLayout(a: seq<Obj>, b: seq<Obj>) {
    |a| == |b| && forall i | 0 <= i < |a| :: a[i].id == b[i].id && a[i].selectable == b[i].selectable
  }

  /** Changing object properties in place keeps the invariant. */
  lemma LayoutPreservesCanvas(objects: seq<Obj>, objects': seq<Obj>, selection: seq<nat>,
                              deleted: seq<seq<Obj>>, nextId: nat, fixed: set<nat>)
    requires CanvasValid(objects, selection, deleted, nextId, fixed)
    requires SameLayout(objects, objects')
    ensures CanvasValid(objects', selection, deleted, nextId, fixed)
  {
    forall o | o in objects' ensures exists p | p in objects :: p.id == o.id && p.selectable == o.selectable {
      var i :| 0 <= i < |objects'| && objects'[i] == o;
      assert objects[i] in objects;
    }
    forall o | o in objects ensures o.id in IdsOf(objects') {
      var i :| 0 <= i < |objects| && objects[i] == o;
      assert objects'[i] in objects';
    }
    assert IdsOf(objects') == IdsOf(objects);
  }

  /** A new active selection of distinct, selectable canvas objects keeps the invariant. */
  lemma SelectPreservesCanvas(objects: seq<Obj>, selection: seq<nat>, selection': seq<nat>,
                              deleted: seq<seq<Obj>>, nextId: nat, fixed: set<nat>)
    requires CanvasValid(objects, selection, deleted, nextId, fixed)
    requires Distinct(selection') && forall id | id in selection' :: id in IdsOf(objects)
    requires forall o | o in objects && o.id in selection' :: o.selectable
    ensures CanvasValid(objects, selection', deleted, nextId, fixed)
  {
  }

  // ---------------------------------------------------------------------------------------
  // Toolbars and selection

  /** Which formatting toolbars are shown. */
  datatype Toolbars = Toolbars(text: bool, image: bool)

  /** `showTextToolbarFun`, `showImageToolbarFun`, or no change for any other type. */
  function ToolbarFor(kind: string, current: Toolbars): (t: Toolbars)
    ensures kind in TextTypes ==> t == Toolbars(true, false)
    ensures kind !in TextTypes && kind in ImageTypes ==> t == Toolbars(false, true)
    ensures kind !in TextTypes && kind !in ImageTypes ==> t == current
    ensures !(current.text && current.image) ==> !(t.text && t.image)
  {
    if kind in TextTypes then Toolbars(true, false)
    else if kind in ImageTypes then Toolbars(false, true)
    else current
  }

  /** Some selected object has a different type from the first one. */
  predicate MixedTypes(selected: seq<Obj>)
    ensures MixedTypes(selected) ==> |selected| >= 2
    ensures (forall i | 0 <= i < |selected| :: selected[i].kind == selected[0].kind) ==> !MixedTypes(selected)
  {
    |selected| > 0 && exists o | o in selected :: o.kind != selected[0].kind
  }

  /** The selection kept by `handleSelection`: the target alone when the types are mixed. */
  function ReducedSelection(selected: seq<Obj>, selection: seq<nat>, target: Obj): (r: seq<nat>)
    ensures r == selection || r == [target.id]
    ensures target.id in selection ==> forall id | id in r :: id in selection
    ensures |selected| <= 1 ==> r == selection
  {
    if MixedTypes(selected) then [target.id] else selection
  }

  /** The toolbars chosen by `handleSelection`: by the target's type when mixed, else by the common type. */
  function SelectionToolbars(selected: seq<Obj>, target: Obj, current: Toolbars): (t: Toolbars)
    requires |selected| > 0
    ensures !(current.text && current.image) ==> !(t.text && t.image)
  {
    if MixedTypes(selected) then ToolbarFor(target.kind, current) else ToolbarFor(selected[0].kind, current)
  }

  /**
   * After the reduction the active selection never mixes types, it still holds the target,
   * and it only shrinks.
   */
  lemma ReducedSelectionUniform(objects: seq<Obj>, selection: seq<nat>, target: Obj)
    requires DistinctIds(objects) && forall id | id in selection :: id in IdsOf(objects)
    requires target in objects && target.id in selection
    ensures !MixedTypes(Active(objects, ReducedSelection(Active(objects, selection), selection, target)))
    ensures target.id in ReducedSelection(Active(objects, selection), selection, target)
    ensures forall id | id in ReducedSelection(Active(objects, selection), selection, target) :: id in selection
  {
    var selected := Active(objects, selection);
    if MixedTypes(selected) {
      var p :| 0 <= p < |objects| && objects[p] == target;
      IndexOfDistinct(objects, p);
      assert Active(objects, [target.id]) == [target];
    }
  }

  /** Narrowing a mixed selection to its target keeps the canvas invariant. */
  lemma ReducedSelectionPreservesCanvas(objects: seq<Obj>, selection: seq<nat>, deleted: seq<seq<Obj>>,
                                        nextId: nat, fixed: set<nat>, target: Obj)
    requires CanvasValid(objects, selection, deleted, nextId, fixed)
    requires target in objects && target.id in selection
    ensures CanvasValid(objects, ReducedSelection(Active(objects, selection), selection, target), deleted, nextId, fixed)
  {
    if MixedTypes(Active(objects, selection)) {
      SelectPreservesCanvas(objects, selection, [target.id], deleted, nextId, fixed);
    }
  }

  /** The first text-typed object, i.e. `filter(isText)[0]`. */
  function FirstText(objs: seq<Obj>): (r: Option<Obj>)
    ensures r.Some? ==> r.value in objs && IsText(r.value)
    ensures r.Some? ==> exists i | 0 <= i < |objs| :: objs[i] == r.value && forall j | 0 <= j < i :: !IsText(objs[j])
    ensures r.None? <==> forall o | o in objs :: !IsText(o)
  {
    if |objs| == 0 then None
    else if IsText(objs[0]) then Some(objs[0])
    else
      assert forall o | o in objs :: o == objs[0] || o in objs[1..];
      var rest := FirstText(objs[1..]);
      assert rest.Some? ==> exists i | 0 <= i < |objs| :: objs[i] == rest.value && forall j | 0 <= j < i :: !IsText(objs[j]) by {
        if rest.Some? {
          var k :| 0 <= k < |objs[1..]| && objs[1..][k] == rest.value && forall j | 0 <= j < k :: !IsText(objs[1..][j]);
          assert objs[k + 1] == rest.value;
          assert forall j | 0 <= j < k + 1 :: !IsText(objs[j]) by {
            forall j | 0 <= j < k + 1 ensures !IsText(objs[j]) {
              if j > 0 {
                assert objs[j] == objs[1..][j - 1];
              }
            }
          }
        }
      }
      rest
  }

  /** The text properties read back from a text object, one `get` per key. */
  function Snapshot(o: Obj, keys: seq<string>): (m: map<string, Value>)
    ensures forall k :: k in m <==> k in keys
    ensures forall k | k in m :: m[k] == Get(o, k)
  {
    map k | k in keys :: Get(o, k)
  }

  /** The text properties after a selection: defaults unless the selection holds a text object. */
  function TextPropsFor(selected: seq<Obj>, keys: seq<string>, defaults: map<string, Value>): (m: map<string, Value>)
    ensures FirstText(selected).None? ==> m == defaults
    ensures FirstText(selected).Some? ==> m == Snapshot(FirstText(selected).value, keys)
  {
    match FirstText(selected)
    case None => defaults
    case Some(t) => Snapshot(t, keys)
  }

  // ---------------------------------------------------------------------------------------
  // Property updates

  function UpperChar(c: char): char {
    if 'a' <= c <= 'z' then (c as int - 32) as char else c
  }

  function LowerChar(c: char): char {
    if 'A' <= c <= 'Z' then (c as int + 32) as char else c
  }

  /** `toUpperCase()` on ASCII letters. */
  function Upper(s: string): (r: string)
    ensures |r| == |s|
    ensures forall i | 0 <= i < |s| :: r[i] == UpperChar(s[i])
  {
    seq(|s|, i requires 0 <= i < |s| => UpperChar(s[i]))
  }

  /** `toLowerCase()` on ASCII letters. */
  function Lower(s: string): (r: string)
    ensures |r| == |s|
    ensures forall i | 0 <= i < |s| :: r[i] == LowerChar(s[i])
  {
    seq(|s|, i requires 0 <= i < |s| => LowerChar(s[i]))
  }

  /** The last case mapping wins: lower-casing after upper-casing equals lower-casing, and back. */
  lemma CaseMappingsAbsorb(s: string)
    ensures Lower(Upper(s)) == Lower(s)
    ensures Upper(Lower(s)) == Upper(s)
    ensures Upper(Upper(s)) == Upper(s)
    ensures Lower(Lower(s)) == Lower(s)
  {
  }

  /** Upper-casing and then lower-casing does not give the original text back. */
  lemma CaseToggleLosesOriginal()
    ensures Lower(Upper("Edit me")) == "edit me"
    ensures Lower(Upper("Edit me")) != "Edit me"
  {
    assert Lower(Upper("Edit me"))[0] == 'e';
  }

  /** One `obj.set({[property]: value})`, followed by the case rewrite for `uppercase`. */
  function ApplySet(o: Obj, key: string, value: Value): (r: Obj)
    ensures r.props == o.props[key := value]
    ensures r.text == if key == "uppercase" then (if Truthy(value) then Upper(o.text) else Lower(o.text)) else o.text
    ensures r.(props := o.props, text := o.text) == o
  {
    var o1 := o.(props := o.props[key := value]);
    if key == "uppercase" then
      if Truthy(value) then o1.(text := Upper(o.text)) else o1.(text := Lower(o.text))
    else o1
  }

  /** `Object.entries(updates).forEach(...)` on one object, as a left fold. */
  function ApplyUpdates(o: Obj, updates: seq<(string, Value)>): (r: Obj)
    ensures r.(props := o.props, text := o.text) == o
    ensures (forall k | 0 <= k < |updates| :: updates[k].0 != "uppercase") ==> r.text == o.text
    decreases |updates|
  {
    if |updates| == 0 then o
    else
      var last := updates[|updates| - 1];
      ApplySet(ApplyUpdates(o, updates[..|updates| - 1]), last.0, last.1)
  }

  /** The updates as one map, later entries overriding earlier ones. */
  function UpdatesMap(updates: seq<(string, Value)>): map<string, Value>
    decreases |updates|
  {
    if |updates| == 0 then map[]
    else
      var last := updates[|updates| - 1];
      UpdatesMap(updates[..|updates| - 1])[last.0 := last.1]
  }

  /** A key is in the update map iff some entry names it, and its value is that of the last such entry. */
  lemma {:induction false} UpdatesMapLookup(updates: seq<(string, Value)>, i: nat)
    requires i < |updates|
    requires forall j | i < j < |updates| :: updates[j].0 != updates[i].0
    ensures updates[i].0 in UpdatesMap(updates) && UpdatesMap(updates)[updates[i].0] == updates[i].1
    decreases |updates|
  {
    if i < |updates| - 1 {
      var init := updates[..|updates| - 1];
      assert init[i] == updates[i];
      UpdatesMapLookup(init, i);
    }
  }

  lemma {:induction false} UpdatesMapKeys(updates: seq<(string, Value)>)
    ensures forall k :: k in UpdatesMap(updates) <==> exists i | 0 <= i < |updates| :: updates[i].0 == k
    decreases |updates|
  {
    if |updates| > 0 {
      var init := updates[..|updates| - 1];
      UpdatesMapKeys(init);
      forall k ensures k in UpdatesMap(updates) <==> exists i | 0 <= i < |updates| :: updates[i].0 == k {
        if k in UpdatesMap(init) {
          var i :| 0 <= i < |init| && init[i].0 == k;
          assert updates[i].0 == k;
        }
        if exists i | 0 <= i < |updates| :: updates[i].0 == k {
          var i :| 0 <= i < |updates| && updates[i].0 == k;
          if i < |init| {
            assert init[i].0 == k;
          }
        }
      }
    }
  }

  /** `{...prev, ...updates}` */
  function MergeProps(prev: map<string, Value>, updates: seq<(string, Value)>): (m: map<string, Value>)
    ensures forall k :: k in m <==> k in prev || k in UpdatesMap(updates)
    ensures forall k | k in UpdatesMap(updates) :: m[k] == UpdatesMap(updates)[k]
    ensures forall k | k in prev && k !in UpdatesMap(updates) :: m[k] == prev[k]
  {
    prev + UpdatesMap(updates)
  }

  /**
   * Applying the updates to a text object merges them into its properties exactly as the
   * toolbar state merges them, and changes nothing but the properties and the text.
   */
  lemma {:induction false} ApplyUpdatesProps(o: Obj, updates: seq<(string, Value)>)
    ensures ApplyUpdates(o, updates).props == MergeProps(o.props, updates)
    ensures ApplyUpdates(o, updates).(props := o.props, text := o.text) == o
    decreases |updates|
  {
    if |updates| > 0 {
      var init := updates[..|updates| - 1];
      var last := updates[|updates| - 1];
      ApplyUpdatesProps(o, init);
      MapUnionUpdate(o.props, UpdatesMap(init), last.0, last.1);
    }
  }

  /**
   * After an update the toolbar state and every updated text object agree on each updated
   * key, whatever either held before.
   */
  lemma UpdatedObjectAgreesWithToolbar(o: Obj, prev: map<string, Value>, updates: seq<(string, Value)>, key: string)
    requires key in UpdatesMap(updates)
    ensures Get(ApplyUpdates(o, updates), key) == MergeProps(prev, updates)[key]
  {
    ApplyUpdatesProps(o, updates);
  }

  /** Overriding one key after a merge is the same as merging the overridden map. */
  lemma MapUnionUpdate<K, V>(a: map<K, V>, b: map<K, V>, k: K, v: V)
    ensures (a + b)[k := v] == a + b[k := v]
  {
  }

  /**
   * The text of an updated object: the last `uppercase` entry decides between upper- and
   * lower-casing the original; without one the text is unchanged.
   */
  lemma {:induction false} ApplyUpdatesText(o: Obj, updates: seq<(string, Value)>)
    ensures "uppercase" !in UpdatesMap(updates) ==> ApplyUpdates(o, updates).text == o.text
    ensures "uppercase" in UpdatesMap(updates) ==>
      ApplyUpdates(o, updates).text
        == if Truthy(UpdatesMap(updates)["uppercase"]) then Upper(o.text) else Lower(o.text)
    decreases |updates|
  {
    if |updates| > 0 {
      var init := updates[..|updates| - 1];
      ApplyUpdatesText(o, init);
      CaseMappingsAbsorb(o.text);
    }
  }

  /** The `updateTextProperties` loop over the entries of `updates` for one object. */
  method ApplyEntries(o: Obj, updates: seq<(string, Value)>) returns (r: Obj)
    ensures r == ApplyUpdates(o, updates)
  {
    r := o;
    var i := 0;
    while i < |updates|
      invariant 0 <= i <= |updates|
      invariant r == ApplyUpdates(o, updates[..i])
    {
      var (property, value) := updates[i];
      r := r.(props := r.props[property := value]);
      if property == "uppercase" {
        if Truthy(value) {
          r := r.(text := Upper(r.text));
        } else {
          r := r.(text := Lower(r.text));
        }
      }
      assert updates[..i + 1][..i] == updates[..i];
      i := i + 1;
    }
    assert updates[..i] == updates;
  }

  /** The canvas after updating every selected text object; other objects are untouched. */
  function UpdatedCanvas(objs: seq<Obj>, ids: set<nat>, updates: seq<(string, Value)>): (r: seq<Obj>)
    ensures |r| == |objs|
    ensures |updates| == 0 ==> r == objs
    ensures (forall i | 0 <= i < |objs| :: objs[i].id !in ids) ==> r == objs
    ensures forall i | 0 <= i < |objs| && (objs[i].id !in ids || !IsText(objs[i])) :: r[i] == objs[i]
    ensures forall i | 0 <= i < |objs| && objs[i].id in ids && IsText(objs[i]) :: r[i] == ApplyUpdates(objs[i], updates)
  {
    seq(|objs|, i requires 0 <= i < |objs| =>
      if objs[i].id in ids && IsText(objs[i]) then ApplyUpdates(objs[i], updates) else objs[i])
  }

  /** Updating text objects keeps the ids in place, so the canvas stays well formed. */
  lemma UpdatedCanvasIds(objs: seq<Obj>, ids: set<nat>, updates: seq<(string, Value)>)
    ensures forall i | 0 <= i < |objs| :: UpdatedCanvas(objs, ids, updates)[i].id == objs[i].id
    ensures forall i | 0 <= i < |objs| :: UpdatedCanvas(objs, ids, updates)[i].kind == objs[i].kind
    ensures forall i | 0 <= i < |objs| :: UpdatedCanvas(objs, ids, updates)[i].top == objs[i].top
    ensures forall i | 0 <= i < |objs| :: UpdatedCanvas(objs, ids, updates)[i].selectable == objs[i].selectable
  {
    forall i | 0 <= i < |objs| {
      ApplyUpdatesProps(objs[i], updates);
    }
  }

  /** The ids of a longer prefix of a distinct selection: one new id. */
  lemma SetOfNext(ids: seq<nat>, k: nat)
    requires Distinct(ids) && k < |ids|
    ensures ids[k] !in SetOf(ids[..k])
    ensures SetOf(ids[..k + 1]) == SetOf(ids[..k]) + {ids[k]}
  {
    assert ids[..k + 1] == ids[..k] + [ids[k]];
  }

  /** Adding one more selected id updates only the object carrying it, if it is a text object. */
  lemma UpdatedCanvasStep(objs: seq<Obj>, done: set<nat>, s: nat, updates: seq<(string, Value)>)
    requires DistinctIds(objs) && s !in done
    ensures var pos := IndexOf(objs, s);
      UpdatedCanvas(objs, done + {s}, updates)
        == if pos.Some? && IsText(objs[pos.value])
           then UpdatedCanvas(objs, done, updates)[pos.value := ApplyUpdates(objs[pos.value], updates)]
           else UpdatedCanvas(objs, done, updates)
  {
    var pos := IndexOf(objs, s);
    var after, before := UpdatedCanvas(objs, done + {s}, updates), UpdatedCanvas(objs, done, updates);
    var expected := if pos.Some? && IsText(objs[pos.value])
                    then before[pos.value := ApplyUpdates(objs[pos.value], updates)]
                    else before;
    forall i | 0 <= i < |objs| ensures after[i] == expected[i] {
      if pos.None? || i != pos.value {
        assert objs[i].id != s by {
          assert objs[i] in objs;
          if pos.Some? {
            IndexOfDistinct(objs, i);
          }
        }
      }
    }
    assert |after| == |expected|;
  }

  /**
   * The `updateTextProperties` loop over the active objects: each selected object of a
   * text type gets every entry of `updates`; objects of other types are skipped.
   */
  method ApplyTextUpdates(objs: seq<Obj>, selection: seq<nat>, updates: seq<(string, Value)>)
    returns (r: seq<Obj>)
    requires DistinctIds(objs) && Distinct(selection)
    ensures r == UpdatedCanvas(objs, SetOf(selection), updates)
  {
    r := objs;
    var k := 0;
    while k < |selection|
      invariant 0 <= k <= |selection|
      invariant r == UpdatedCanvas(objs, SetOf(selection[..k]), updates)
    {
      var s := selection[k];
      var pos := IndexOf(objs, s);
      SetOfNext(selection, k);
      UpdatedCanvasStep(objs, SetOf(selection[..k]), s, updates);
      if pos.Some? && IsText(objs[pos.value]) {
        var updated := ApplyEntries(objs[pos.value], updates);
        r := r[pos.value := updated];
      }
      k := k + 1;
    }
    assert selection[..k] == selection;
  }

  // ---------------------------------------------------------------------------------------
  // Vertical shift for the spacing controls

  /** Every object except `exceptId` moved down by `diff`. */
  function Shifted(objs: seq<Obj>, exceptId: nat, diff: real): (r: seq<Obj>)
    ensures |r| == |objs|
    ensures SameLayout(objs, r)
    ensures diff == 0.0 ==> r == objs
  {
    seq(|objs|, i requires 0 <= i < |objs| =>
      if objs[i].id != exceptId then objs[i].(top := objs[i].top + diff) else objs[i])
  }

  /** The `forEachObject` loop of the top-spacing handler. */
  method ShiftAllExcept(objs: seq<Obj>, exceptId: nat, diff: real) returns (r: seq<Obj>)
    ensures r == Shifted(objs, exceptId, diff)
    ensures forall i | 0 <= i < |objs| && objs[i].id != exceptId :: r[i].top == objs[i].top + diff
    ensures forall i | 0 <= i < |objs| :: r[i].(top := objs[i].top) == objs[i]
  {
    r := objs;
    var i := 0;
    while i < |objs|
      invariant 0 <= i <= |objs| && |r| == |objs|
      invariant forall j | 0 <= j < i :: r[j] == Shifted(objs, exceptId, diff)[j]
      invariant forall j | i <= j < |objs| :: r[j] == objs[j]
    {
      if objs[i].id != exceptId {
        r := r[i := objs[i].(top := objs[i].top + diff)];
      }
      i := i + 1;
    }
  }

  /** Two shifts compose into one by the sum, so a shift and its opposite cancel out. */
  lemma ShiftedCompose(objs: seq<Obj>, exceptId: nat, d1: real, d2: real)
    ensures Shifted(Shifted(objs, exceptId, d1), exceptId, d2) == Shifted(objs, exceptId, d1 + d2)
    ensures Shifted(Shifted(objs, exceptId, d1), exceptId, -d1) == objs
  {
    var a := Shifted(Shifted(objs, exceptId, d1), exceptId, d2);
    var b := Shifted(objs, exceptId, d1 + d2);
    assert forall i | 0 <= i < |objs| :: a[i] == b[i];
    var c := Shifted(Shifted(objs, exceptId, d1), exceptId, -d1);
    assert forall i | 0 <= i < |objs| :: c[i] == objs[i];
  }

  /** Shifting keeps the vertical distance between any two moved objects. */
  lemma ShiftedKeepsDistances(objs: seq<Obj>, exceptId: nat, diff: real, i: nat, j: nat)
    requires i < |objs| && j < |objs| && objs[i].id != exceptId && objs[j].id != exceptId
    ensures Shifted(objs, exceptId, diff)[i].top - Shifted(objs, exceptId, diff)[j].top
         == objs[i].top - objs[j].top
  {
  }
}
