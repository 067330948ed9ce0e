/**
 * The scene store: the live scene, the non-undoable selection and the undo
 * history, with the editing operations as pure transitions. Fresh ids and
 * the clock's reading (`now`) are parameters.
 */
module SceneStore {
  import opened Wrappers
  import opened Strings
  import opened FloorplanTypes
  import UndoManager

  datatype Editor = Editor(scene: Scene, selectedId: Option<string>, history: UndoManager.History<Scene>)

  /** JavaScript truthiness of a selection: `null` and the empty string are false. */
  predicate Truthy(sel: Option<string>) {
    sel.Some? && sel.value != ""
  }

  /** The store's invariant: a valid, non-empty history whose current entry is the live scene. */
  ghost predicate EditorInv(e: Editor) {
    && UndoManager.Valid(e.history)
    && |e.history.entries| > 0
    && e.history.entries[e.history.currentIndex] == e.scene
  }

  /**
   * `createEmptyScene()`, with the generated id passed in. The source reads
   * the clock once for each timestamp, so the two readings are separate.
   */
  function CreateEmptyScene(id: string, createdAt: string, updatedAt: string): (s: Scene)
    ensures |s.objects| == 0 && s.id == id && s.name == "Untitled Floorplan"
    ensures s.createdAt == createdAt && s.updatedAt == updatedAt
  {
    Scene(id, "Untitled Floorplan", [], createdAt, updatedAt)
  }

  /** The hook's first render: an initial scene, no selection, and that scene pushed once. */
  function Init(initial: Scene): (e: Editor)
    ensures EditorInv(e)
    ensures e.scene == initial && e.selectedId.None?
    ensures !UndoManager.CanUndo(e.history) && !UndoManager.CanRedo(e.history)
  {
    Editor(initial, None, UndoManager.PushState(UndoManager.Empty(), initial))
  }

  /**
   * `updateScene(updater)`: applies the updater to the live scene, stamps
   * `updatedAt`, pushes the result as one history entry and adopts it.
   */
  function UpdateScene(e: Editor, updater: Scene -> Scene, now: string): (r: Editor)
    requires EditorInv(e)
    ensures EditorInv(r)
    ensures r.scene == updater(e.scene).(updatedAt := now)
    ensures r.history == UndoManager.PushState(e.history, r.scene)
    ensures r.selectedId == e.selectedId
  {
    var next := updater(e.scene).(updatedAt := now);
    Editor(next, e.selectedId, UndoManager.PushState(e.history, next))
  }

  /** `prev` with its object list replaced. */
  function WithObjects(prev: Scene, objects: seq<FloorplanObject>): Scene {
    prev.(objects := objects)
  }

  /** The label `<prefix> <n>` given to the `n`-th object of a kind. */
  function Label(prefix: string, n: nat): string {
    prefix + " " + NatToString(n)
  }

  function NewWall(objects: seq<FloorplanObject>, id: string, x: real, y: real, width: real, height: real): FloorplanObject {
    WallFrom(DEFAULT_WALL, id, Label("Wall", CountKind(objects, WallKind) + 1), x, y, width, height)
  }

  function NewDoor(objects: seq<FloorplanObject>, id: string, x: real, y: real): FloorplanObject {
    DoorFrom(DEFAULT_DOOR, id, Label("Door", CountKind(objects, DoorKind) + 1), x, y)
  }

  function NewFurniture(objects: seq<FloorplanObject>, id: string, x: real, y: real, kind: FurnitureType): FloorplanObject {
    FurnitureFrom(FURNITURE_DEFAULTS(kind), kind, id,
                  Label(Capitalize(FurnitureTypeName(kind)), CountKind(objects, FurnitureKind) + 1), x, y)
  }

  function NewText(objects: seq<FloorplanObject>, id: string, x: real, y: real): FloorplanObject {
    TextFrom(DEFAULT_TEXT, id, Label("Note", CountKind(objects, TextKind) + 1), x, y)
  }

  /** The scene after one edit: only `objects` and `updatedAt` may differ from `prev`. */
  ghost predicate EditedFrom(prev: Scene, next: Scene, now: string) {
    next.id == prev.id && next.name == prev.name && next.createdAt == prev.createdAt && next.updatedAt == now
  }

  /** One edit, recorded: the new scene is exactly one history push beyond the old state. */
  ghost predicate Recorded(e: Editor, r: Editor) {
    UndoManager.Valid(e.history) && r.history == UndoManager.PushState(e.history, r.scene)
  }

  /** Appends `o` to the object list, keeping everything before it. */
  ghost predicate AppendedOne(prev: seq<FloorplanObject>, next: seq<FloorplanObject>, o: FloorplanObject) {
    |next| == |prev| + 1 && next[..|prev|] == prev && next[|prev|] == o
  }

  function AddWall(e: Editor, id: string, now: string, x: real, y: real, width: real, height: real): (r: Editor)
    requires EditorInv(e)
    ensures EditorInv(r) && Recorded(e, r) && EditedFrom(e.scene, r.scene, now)
    ensures r.selectedId == e.selectedId
    ensures |r.scene.objects| == |e.scene.objects| + 1
    ensures var w := r.scene.objects[|e.scene.objects|];
            && AppendedOne(e.scene.objects, r.scene.objects, w)
            && w.Wall? && w.id == id && w.x == x && w.y == y && w.width == width && w.height == height
            && w.name == "Wall " + NatToString(CountKind(e.scene.objects, WallKind) + 1)
            && w.thickness == DEFAULT_WALL.thickness && w.fillColor == DEFAULT_WALL.fillColor
            && w.rotation == DEFAULT_WALL.rotation && !w.isLocked && w.isVisible
  {
    UpdateScene(e, (prev: Scene) => WithObjects(prev, prev.objects + [NewWall(prev.objects, id, x, y, width, height)]), now)
  }

  function AddDoor(e: Editor, id: string, now: string, x: real, y: real): (r: Editor)
    requires EditorInv(e)
    ensures EditorInv(r) && Recorded(e, r) && EditedFrom(e.scene, r.scene, now)
    ensures r.selectedId == e.selectedId
    ensures |r.scene.objects| == |e.scene.objects| + 1
    ensures var d := r.scene.objects[|e.scene.objects|];
            && AppendedOne(e.scene.objects, r.scene.objects, d)
            && d.Door? && d.id == id && d.x == x && d.y == y
            && d.width == 80.0 && d.height == 10.0 && d.swingDirection == Right && d.doorType == Single
            && d.name == "Door " + NatToString(CountKind(e.scene.objects, DoorKind) + 1)
            && d.rotation == 0.0 && !d.isLocked && d.isVisible
  {
    UpdateScene(e, (prev: Scene) => WithObjects(prev, prev.objects + [NewDoor(prev.objects, id, x, y)]), now)
  }

  function AddFurniture(e: Editor, id: string, now: string, x: real, y: real, kind: FurnitureType): (r: Editor)
    requires EditorInv(e)
    ensures EditorInv(r) && Recorded(e, r) && EditedFrom(e.scene, r.scene, now)
    ensures r.selectedId == e.selectedId
    ensures |r.scene.objects| == |e.scene.objects| + 1
    ensures var f := r.scene.objects[|e.scene.objects|];
            && AppendedOne(e.scene.objects, r.scene.objects, f)
            && f.Furniture? && f.id == id && f.x == x && f.y == y && f.furnitureType == kind
            && f.width == FURNITURE_DEFAULTS(kind).width && f.height == FURNITURE_DEFAULTS(kind).height
            && f.fillColor == FURNITURE_DEFAULTS(kind).fillColor
            && f.name == Capitalize(FurnitureTypeName(kind)) + " " + NatToString(CountKind(e.scene.objects, FurnitureKind) + 1)
            && f.rotation == 0.0 && !f.isLocked && f.isVisible
  {
    UpdateScene(e, (prev: Scene) => WithObjects(prev, prev.objects + [NewFurniture(prev.objects, id, x, y, kind)]), now)
  }

  function AddText(e: Editor, id: string, now: string, x: real, y: real): (r: Editor)
    requires EditorInv(e)
    ensures EditorInv(r) && Recorded(e, r) && EditedFrom(e.scene, r.scene, now)
    ensures r.selectedId == e.selectedId
    ensures |r.scene.objects| == |e.scene.objects| + 1
    ensures var t := r.scene.objects[|e.scene.objects|];
            && AppendedOne(e.scene.objects, r.scene.objects, t)
            && t.Text? && t.id == id && t.x == x && t.y == y
            && t.text == "New note" && t.fontSize == 16.0 && t.fontStyle == Normal && t.textColor == "#2F2A28"
            && t.name == "Note " + NatToString(CountKind(e.scene.objects, TextKind) + 1)
            && t.rotation == 0.0 && !t.isLocked && t.isVisible
  {
    UpdateScene(e, (prev: Scene) => WithObjects(prev, prev.objects + [NewText(prev.objects, id, x, y)]), now)
  }

  /** `objects.map(o => o.id === id ? { ...o, ...patch } : o)`. */
  function MapUpdate(objects: seq<FloorplanObject>, id: string, p: Patch): (r: seq<FloorplanObject>)
    ensures |r| == |objects|
    ensures forall i :: 0 <= i < |objects| ==> r[i] == if objects[i].id == id then Overlay(objects[i], p) else objects[i]
    ensures !HasId(objects, id) ==> r == objects
    ensures forall i :: 0 <= i < |r| ==> r[i].id == objects[i].id && r[i].Kind() == objects[i].Kind()
  {
    seq(|objects|, i requires 0 <= i < |objects| => if objects[i].id == id then Overlay(objects[i], p) else objects[i])
  }

  function UpdateObject(e: Editor, id: string, p: Patch, now: string): (r: Editor)
    requires EditorInv(e)
    ensures EditorInv(r) && Recorded(e, r) && EditedFrom(e.scene, r.scene, now)
    ensures r.selectedId == e.selectedId
    ensures |r.scene.objects| == |e.scene.objects|
    ensures forall i :: 0 <= i < |e.scene.objects| && e.scene.objects[i].id != id ==> r.scene.objects[i] == e.scene.objects[i]
    ensures forall i :: 0 <= i < |e.scene.objects| && e.scene.objects[i].id == id ==> r.scene.objects[i] == Overlay(e.scene.objects[i], p)
    ensures !HasId(e.scene.objects, id) ==> r.scene.objects == e.scene.objects
  {
    UpdateScene(e, (prev: Scene) => WithObjects(prev, MapUpdate(prev.objects, id, p)), now)
  }

  /** `objects.filter(o => o.id !== id)`. */
  function RemoveId(objects: seq<FloorplanObject>, id: string): (r: seq<FloorplanObject>)
    ensures forall o :: o in r <==> o in objects && o.id != id
    ensures |r| <= |objects|
    ensures !HasId(objects, id) ==> r == objects
  {
    if |objects| == 0 then []
    else (if objects[0].id == id then [] else [objects[0]]) + RemoveId(objects[1..], id)
  }

  /** Removing an id keeps the survivors in their original order: it distributes over concatenation. */
  lemma {:induction false} RemoveIdAppend(a: seq<FloorplanObject>, b: seq<FloorplanObject>, id: string)
    ensures RemoveId(a + b, id) == RemoveId(a, id) + RemoveId(b, id)
    decreases |a|
  {
    if |a| == 0 {
      assert a + b == b;
    } else {
      var head := if a[0].id == id then [] else [a[0]];
      assert (a + b)[0] == a[0];
      assert (a + b)[1..] == a[1..] + b;
      assert RemoveId(a + b, id) == head + RemoveId(a[1..] + b, id);
      assert RemoveId(a, id) == head + RemoveId(a[1..], id);
      RemoveIdAppend(a[1..], b, id);
      ConcatAssoc(head, RemoveId(a[1..], id), RemoveId(b, id));
    }
  }

  function DeleteObject(e: Editor, id: string, now: string): (r: Editor)
    requires EditorInv(e)
    ensures EditorInv(r) && Recorded(e, r) && EditedFrom(e.scene, r.scene, now)
    ensures r.scene.objects == RemoveId(e.scene.objects, id)
    ensures !HasId(r.scene.objects, id)
    ensures r.selectedId.None? <==> (e.selectedId == Some(id) || e.selectedId.None?)
    ensures e.selectedId != Some(id) ==> r.selectedId == e.selectedId
  {
    var r := UpdateScene(e, (prev: Scene) => WithObjects(prev, RemoveId(prev.objects, id)), now);
    r.(selectedId := if e.selectedId == Some(id) then None else e.selectedId)
  }

  /** Deletes the selected object unless nothing is selected, it is missing, or it is locked. */
  function DeleteSelected(e: Editor, now: string): (r: Editor)
    requires EditorInv(e)
    ensures EditorInv(r)
    ensures r == e <==> !(Truthy(e.selectedId) && Find(e.scene.objects, e.selectedId.value).Some?
                           && !Find(e.scene.objects, e.selectedId.value).value.isLocked)
    ensures r != e ==> r == DeleteObject(e, e.selectedId.value, now)
  {
    if Truthy(e.selectedId) then
      var obj := Find(e.scene.objects, e.selectedId.value);
      if obj.Some? && !obj.value.isLocked then
        var r := DeleteObject(e, e.selectedId.value, now);
        assert HasId(e.scene.objects, e.selectedId.value);
        assert r.scene != e.scene;
        r
      else e
    else e
  }

  function ReorderObjects(e: Editor, newOrder: seq<FloorplanObject>, now: string): (r: Editor)
    requires EditorInv(e)
    ensures EditorInv(r) && Recorded(e, r) && EditedFrom(e.scene, r.scene, now)
    ensures r.scene.objects == newOrder && r.selectedId == e.selectedId
  {
    UpdateScene(e, (prev: Scene) => WithObjects(prev, newOrder), now)
  }

  /** Adopts the previous snapshot; drops a selection the snapshot no longer contains. */
  function Undo(e: Editor): (r: Editor)
    requires EditorInv(e)
    ensures EditorInv(r)
    ensures r.history == UndoManager.Undo(e.history).0
    ensures r.history.entries == e.history.entries
    ensures !UndoManager.CanUndo(e.history) ==> r == e
    ensures UndoManager.CanUndo(e.history) ==>
              && r.scene == e.history.entries[e.history.currentIndex - 1]
              && (r.selectedId.None? <==> (e.selectedId.None? || (Truthy(e.selectedId) && !HasId(r.scene.objects, e.selectedId.value))))
              && (r.selectedId.Some? ==> r.selectedId == e.selectedId)
  {
    var (h, prev) := UndoManager.Undo(e.history);
    if prev.Some? then
      var sel := if Truthy(e.selectedId) && Find(prev.value.objects, e.selectedId.value).None? then None else e.selectedId;
      Editor(prev.value, sel, h)
    else e
  }

  /** Adopts the next snapshot; the selection is left alone. */
  function Redo(e: Editor): (r: Editor)
    requires EditorInv(e)
    ensures EditorInv(r)
    ensures r.history == UndoManager.Redo(e.history).0
    ensures r.history.entries == e.history.entries && r.selectedId == e.selectedId
    ensures !UndoManager.CanRedo(e.history) ==> r == e
    ensures UndoManager.CanRedo(e.history) ==> r.scene == e.history.entries[e.history.currentIndex + 1]
  {
    var (h, next) := UndoManager.Redo(e.history);
    if next.Some? then Editor(next.value, e.selectedId, h) else e
  }

  /** Starts over: a fresh empty scene as the only history entry, nothing selected. */
  function NewScene(e: Editor, id: string, createdAt: string, updatedAt: string): (r: Editor)
    ensures EditorInv(r)
    ensures r.scene == CreateEmptyScene(id, createdAt, updatedAt) && r.selectedId.None?
    ensures |r.history.entries| == 1
    ensures !UndoManager.CanUndo(r.history) && !UndoManager.CanRedo(r.history)
  {
    var empty := CreateEmptyScene(id, createdAt, updatedAt);
    Editor(empty, None, UndoManager.PushState(UndoManager.Clear(e.history), empty))
  }

  /**
   * `loadFromLocalStorage`: `saved` is what storage held and parsed (`None`
   * when absent or unreadable). A loaded scene resets history the way
   * `NewScene` does.
   */
  function LoadScene(e: Editor, saved: Option<Scene>): (r: (Editor, bool))
    ensures r.1 <==> saved.Some?
    ensures !r.1 ==> r.0 == e
    ensures r.1 ==> EditorInv(r.0) && r.0.scene == saved.value && r.0.selectedId.None?
                    && |r.0.history.entries| == 1
  {
    if saved.Some? then
      (Editor(saved.value, None, UndoManager.PushState(UndoManager.Clear(e.history), saved.value)), true)
    else (e, false)
  }

  /** The selected object, when the selection is truthy and names an object in the scene. */
  function SelectedObject(e: Editor): (r: Option<FloorplanObject>)
    ensures r.Some? <==> Truthy(e.selectedId) && HasId(e.scene.objects, e.selectedId.value)
    ensures r.Some? ==> r.value in e.scene.objects && r.value.id == e.selectedId.value
    ensures r.Some? ==> exists k :: 0 <= k < |e.scene.objects| && e.scene.objects[k] == r.value
                                    && forall j :: 0 <= j < k ==> e.scene.objects[j].id != e.selectedId.value
  {
    if Truthy(e.selectedId) then Find(e.scene.objects, e.selectedId.value) else None
  }

  /** `setSelectedId`: selection never touches the scene or its history. */
  function SetSelectedId(e: Editor, sel: Option<string>): (r: Editor)
    ensures r.scene == e.scene && r.history == e.history && r.selectedId == sel
  {
    e.(selectedId := sel)
  }

  // -------------------------------------------------------------------
  // Properties relating several operations.
  // -------------------------------------------------------------------

  /** Undo right after any recorded edit restores the scene from before the edit, even when the push evicted the oldest entry. */
  lemma UndoAfterEdit(e: Editor, r: Editor)
    requires EditorInv(e) && EditorInv(r) && Recorded(e, r)
    ensures UndoManager.CanUndo(r.history)
    ensures Undo(r).scene == e.scene
  {
  }

  /** Redo after that undo brings the edit back. */
  lemma RedoAfterUndoAfterEdit(e: Editor, r: Editor)
    requires EditorInv(e) && EditorInv(r) && Recorded(e, r)
    ensures Redo(Undo(r)).scene == r.scene
  {
    UndoAfterEdit(e, r);
  }

  /** The name given to a new wall reads back as one more than the number of walls before it. */
  lemma WallNameCountsWalls(e: Editor, id: string, now: string, x: real, y: real, w: real, h: real)
    requires EditorInv(e)
    ensures var name := AddWall(e, id, now, x, y, w, h).scene.objects[|e.scene.objects|].name;
            && |name| > 5 && name[..5] == "Wall " && AllDigits(name[5..])
            && DigitsValue(name[5..]) == CountKind(e.scene.objects, WallKind) + 1
  {
    var name := AddWall(e, id, now, x, y, w, h).scene.objects[|e.scene.objects|].name;
    assert name[5..] == NatToString(CountKind(e.scene.objects, WallKind) + 1);
    NatToStringRoundTrip(CountKind(e.scene.objects, WallKind) + 1);
  }

  /** Adding a wall adds one to the wall count and leaves every other kind's count alone. */
  lemma AddWallCounts(e: Editor, id: string, now: string, x: real, y: real, w: real, h: real, k: ObjectKind)
    requires EditorInv(e)
    ensures CountKind(AddWall(e, id, now, x, y, w, h).scene.objects, k)
            == CountKind(e.scene.objects, k) + (if k == WallKind then 1 else 0)
  {
    var r := AddWall(e, id, now, x, y, w, h);
    CountKindAppend(e.scene.objects, [r.scene.objects[|e.scene.objects|]], k);
    assert r.scene.objects == e.scene.objects + [r.scene.objects[|e.scene.objects|]];
  }

  /** Furniture is numbered across all kinds: a sofa after a bed is `Sofa 2`. */
  lemma FurnitureNumberedAcrossKinds(e: Editor, now: string)
    requires EditorInv(e) && |e.scene.objects| == 0
    ensures var e1 := AddFurniture(e, "a", now, 0.0, 0.0, Bed);
            var e2 := AddFurniture(e1, "b", now, 0.0, 0.0, Sofa);
            e1.scene.objects[0].name == "Bed 1" && e2.scene.objects[1].name == "Sofa 2"
  {
    var e1 := AddFurniture(e, "a", now, 0.0, 0.0, Bed);
    assert CountKind(e.scene.objects, FurnitureKind) == 0;
    assert e1.scene.objects == [e1.scene.objects[0]];
    assert CountKind(e1.scene.objects, FurnitureKind) == 1 by {
      assert e1.scene.objects[..0] == [];
    }
  }

  /** Two recorded edits from a fresh history: two undos go back to the start, two redos forward to the end. */
  lemma TwoEditsUndoRedo(e0: Editor, e1: Editor, e2: Editor)
    requires EditorInv(e0) && EditorInv(e1) && EditorInv(e2)
    requires e0.history.entries == [e0.scene] && e0.history.currentIndex == 0
    requires Recorded(e0, e1) && Recorded(e1, e2)
    ensures Undo(e2).scene == e1.scene
    ensures Undo(Undo(e2)).scene == e0.scene && !UndoManager.CanUndo(Undo(Undo(e2)).history)
    ensures Redo(Redo(Undo(Undo(e2)))).scene == e2.scene
  {
    var h := e2.history;
    assert e1.history.entries == [e0.scene, e1.scene] && e1.history.currentIndex == 1;
    assert h.entries == [e0.scene, e1.scene, e2.scene] && h.currentIndex == 2;
    var u1 := Undo(e2);
    assert u1.history == UndoManager.History(h.entries, 1);
    var u2 := Undo(u1);
    assert u2.history == UndoManager.History(h.entries, 0);
    var r1 := Redo(u2);
    assert r1.history == UndoManager.History(h.entries, 1);
  }

  /**
   * A session from an empty scene: a wall, then a door, then two undos back
   * to the empty scene and two redos forward to the same two objects.
   */
  lemma WallDoorUndoRedoSession(sceneId: string, now: string)
    ensures var e0 := Init(CreateEmptyScene(sceneId, now, now));
            var e1 := AddWall(e0, "w", now, 0.0, 0.0, 100.0, 20.0);
            var e2 := AddDoor(e1, "d", now, 50.0, 50.0);
            && |e2.scene.objects| == 2
            && e2.scene.objects[0].name == "Wall 1" && e2.scene.objects[1].name == "Door 1"
            && Undo(e2).scene.objects == e1.scene.objects && |e1.scene.objects| == 1
            && Undo(Undo(e2)).scene == e0.scene && |e0.scene.objects| == 0
            && !UndoManager.CanUndo(Undo(Undo(e2)).history)
            && Redo(Redo(Undo(Undo(e2)))).scene == e2.scene
  {
    var e0 := Init(CreateEmptyScene(sceneId, now, now));
    var e1 := AddWall(e0, "w", now, 0.0, 0.0, 100.0, 20.0);
    var e2 := AddDoor(e1, "d", now, 50.0, 50.0);
    TwoEditsUndoRedo(e0, e1, e2);
    assert NatToString(1) == "1";
    assert e2.scene.objects[0] == e1.scene.objects[0];
    assert CountKind(e1.scene.objects, DoorKind) == 0 by {
      assert e1.scene.objects == [e1.scene.objects[0]];
      assert e1.scene.objects[..0] == [];
    }
  }
}
