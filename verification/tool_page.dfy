/**
 * The editor page: keyboard shortcut dispatch, the layer panel's
 * visibility and lock toggles, the "new plan" flow, and the wiring of
 * canvas callbacks into the scene store.
 */
module ToolPage {
  import opened Wrappers
  import opened Strings
  import opened FloorplanTypes
  import opened SceneStore
  import opened CanvasStage

  /** A key press: `KeyboardEvent.key`, its modifiers, and the tag name of the focused element. */
  datatype KeyEvent = KeyEvent(key: string, ctrlKey: bool, metaKey: bool, shiftKey: bool, focusTag: Option<string>)

  /** What a key press asks for. The grid shortcuts are dispatched but their effect is not modelled. */
  datatype Shortcut =
    | OpenPalette | Save | UndoShortcut | RedoShortcut | DeleteSelectedShortcut
    | ToggleGrid | OpenEditSize | GridOpacityUp | GridOpacityDown
    | SetTool(tool: ToolType)
    | NoShortcut

  /** Focus is in a text field, where plain keys belong to the field. */
  predicate Typing(e: KeyEvent) {
    e.focusTag == Some("INPUT") || e.focusTag == Some("TEXTAREA")
  }

  predicate Modified(e: KeyEvent) {
    e.ctrlKey || e.metaKey
  }

  predicate IsDeleteKey(key: string) {
    key == "Delete" || key == "Backspace"
  }

  /** The tool a (lower-cased) letter selects. */
  function ToolLetter(k: string): Option<ToolType> {
    if k == "v" then Some(SelectTool)
    else if k == "w" then Some(WallTool)
    else if k == "d" then Some(DoorTool)
    else if k == "f" then Some(FurnitureTool)
    else if k == "t" then Some(TextTool)
    else None
  }

  /**
   * `handleKeyDown`: modifier shortcuts first, whatever has focus; then
   * Delete / Backspace, which stops there even when typing; then, only
   * outside text fields, the grid keys and the tool letters.
   */
  function Dispatch(e: KeyEvent, hasSelection: bool): (r: Shortcut)
    ensures Modified(e) && e.key == "k" ==> r == OpenPalette
    ensures Modified(e) && e.key == "s" ==> r == Save
    ensures Modified(e) && e.key == "z" ==> r == (if e.shiftKey then RedoShortcut else UndoShortcut)
    ensures r in {OpenPalette, Save, UndoShortcut, RedoShortcut} ==> Modified(e) && e.key in {"k", "s", "z"}
    ensures IsDeleteKey(e.key) ==> r == (if Typing(e) then NoShortcut else DeleteSelectedShortcut)
    ensures r == DeleteSelectedShortcut ==> IsDeleteKey(e.key) && !Typing(e)
    ensures r.SetTool? <==> !Typing(e) && ToolLetter(ToLower(e.key)).Some?
    ensures r.SetTool? ==> r.tool == ToolLetter(ToLower(e.key)).value
    ensures r == OpenEditSize <==> !Typing(e) && ToLower(e.key) == "g" && e.shiftKey && hasSelection
    ensures r == ToggleGrid <==> !Typing(e) && ToLower(e.key) == "g" && !e.shiftKey
    ensures r == GridOpacityUp <==> !Typing(e) && e.key in {"+", "="}
    ensures r == GridOpacityDown <==> !Typing(e) && e.key in {"-", "_"}
    ensures Typing(e) && !(Modified(e) && e.key in {"k", "s", "z"}) ==> r == NoShortcut
  {
    if Modified(e) && e.key == "k" then OpenPalette
    else if Modified(e) && e.key == "s" then Save
    else if Modified(e) && e.key == "z" && !e.shiftKey then UndoShortcut
    else if Modified(e) && e.key == "z" && e.shiftKey then RedoShortcut
    else if IsDeleteKey(e.key) then (if !Typing(e) then DeleteSelectedShortcut else NoShortcut)
    else if Typing(e) then NoShortcut
    else
      var k := ToLower(e.key);
      if k == "g" && !e.shiftKey then ToggleGrid
      else if k == "g" && e.shiftKey then (if hasSelection then OpenEditSize else NoShortcut)
      else if e.key == "+" || e.key == "=" then GridOpacityUp
      else if e.key == "-" || e.key == "_" then GridOpacityDown
      else
        var t := ToolLetter(k);
        if t.Some? then SetTool(t.value) else NoShortcut
  }

  /** Tool letters are matched in either case: each capital selects the same tool as its lower-case letter. */
  lemma ToolLettersIgnoreCase(e: KeyEvent, hasSelection: bool)
    requires !Typing(e) && e.key in {"V", "W", "D", "F", "T"}
    ensures Dispatch(e, hasSelection) == Dispatch(e.(key := ToLower(e.key)), hasSelection)
    ensures Dispatch(e, hasSelection) == SetTool(ToolLetter(ToLower(e.key)).value)
  {
    if e.key == "V" {
      assert ToLower(e.key) == "v";
    } else if e.key == "W" {
      assert ToLower(e.key) == "w";
    } else if e.key == "D" {
      assert ToLower(e.key) == "d";
    } else if e.key == "F" {
      assert ToLower(e.key) == "f";
    } else {
      assert ToLower(e.key) == "t";
    }
  }

  /** The page state the shortcuts act on. */
  datatype Page = Page(editor: Editor, tool: ToolType, paletteOpen: bool, editSizeOpen: bool)

  /** Carries out a shortcut. Saving is storage I/O and the grid keys act on state outside this model: both leave the page as it is. */
  function Perform(p: Page, s: Shortcut, now: string): (r: Page)
    requires EditorInv(p.editor)
    ensures EditorInv(r.editor)
    ensures s == UndoShortcut ==> r.editor == SceneStore.Undo(p.editor)
    ensures s == RedoShortcut ==> r.editor == SceneStore.Redo(p.editor)
    ensures s == DeleteSelectedShortcut ==> r.editor == DeleteSelected(p.editor, now)
    ensures !(s in {UndoShortcut, RedoShortcut, DeleteSelectedShortcut}) ==> r.editor == p.editor
    ensures r.tool == if s.SetTool? then s.tool else p.tool
    ensures r.paletteOpen == (p.paletteOpen || s == OpenPalette)
    ensures r.editSizeOpen == (p.editSizeOpen || s == OpenEditSize)
  {
    match s
    case OpenPalette => p.(paletteOpen := true)
    case UndoShortcut => p.(editor := SceneStore.Undo(p.editor))
    case RedoShortcut => p.(editor := SceneStore.Redo(p.editor))
    case DeleteSelectedShortcut => p.(editor := DeleteSelected(p.editor, now))
    case OpenEditSize => p.(editSizeOpen := true)
    case SetTool(t) => p.(tool := t)
    case _ => p
  }

  /** A key press on the page: dispatch with the current selection, then perform. */
  function KeyDown(p: Page, e: KeyEvent, now: string): (r: Page)
    requires EditorInv(p.editor)
    ensures EditorInv(r.editor)
    ensures Typing(e) && !Modified(e) ==> r == p
  {
    Perform(p, Dispatch(e, Truthy(p.editor.selectedId)), now)
  }

  /** Delete or Backspace while a text field has focus never deletes anything. */
  lemma DeleteWhileTypingIsIgnored(p: Page, e: KeyEvent, now: string)
    requires EditorInv(p.editor)
    requires Typing(e) && IsDeleteKey(e.key)
    ensures KeyDown(p, e, now) == p
  {
  }

  /** The objects after setting `isVisible` to `b` on every object with that id. */
  ghost predicate VisibleSetOn(os: seq<FloorplanObject>, os1: seq<FloorplanObject>, id: string, b: bool) {
    |os1| == |os| && forall j :: 0 <= j < |os| ==> os1[j] == if os[j].id == id then os[j].(isVisible := b) else os[j]
  }

  /** The objects after setting `isLocked` to `b` on every object with that id. */
  ghost predicate LockSetOn(os: seq<FloorplanObject>, os1: seq<FloorplanObject>, id: string, b: bool) {
    |os1| == |os| && forall j :: 0 <= j < |os| ==> os1[j] == if os[j].id == id then os[j].(isLocked := b) else os[j]
  }

  /** The layer panel's eye toggle: flips `isVisible` of the object with that id, or does nothing when there is none. */
  function ToggleVisibility(e: Editor, id: string, now: string): (r: Editor)
    requires EditorInv(e)
    ensures EditorInv(r)
    ensures !HasId(e.scene.objects, id) ==> r == e
    ensures HasId(e.scene.objects, id) ==>
              && Recorded(e, r) && EditedFrom(e.scene, r.scene, now) && r.selectedId == e.selectedId
              && VisibleSetOn(e.scene.objects, r.scene.objects, id, !Find(e.scene.objects, id).value.isVisible)
  {
    var obj := Find(e.scene.objects, id);
    if obj.Some? then UpdateObject(e, id, EmptyPatch.(isVisible := Some(!obj.value.isVisible)), now) else e
  }

  /** The layer panel's lock toggle: flips `isLocked` of the object with that id, or does nothing when there is none. */
  function ToggleLock(e: Editor, id: string, now: string): (r: Editor)
    requires EditorInv(e)
    ensures EditorInv(r)
    ensures !HasId(e.scene.objects, id) ==> r == e
    ensures HasId(e.scene.objects, id) ==>
              && Recorded(e, r) && EditedFrom(e.scene, r.scene, now) && r.selectedId == e.selectedId
              && LockSetOn(e.scene.objects, r.scene.objects, id, !Find(e.scene.objects, id).value.isLocked)
  {
    var obj := Find(e.scene.objects, id);
    if obj.Some? then UpdateObject(e, id, EmptyPatch.(isLocked := Some(!obj.value.isLocked)), now) else e
  }

  /** No two objects share an id. */
  ghost predicate UniqueIds(objects: seq<FloorplanObject>) {
    forall i, j :: 0 <= i < |objects| && 0 <= j < |objects| && objects[i].id == objects[j].id ==> i == j
  }

  /** With unique ids, the object carrying an id is the one `find` returns. */
  lemma FindUnique(os: seq<FloorplanObject>, id: string, i: int)
    requires UniqueIds(os) && 0 <= i < |os| && os[i].id == id
    ensures Find(os, id) == Some(os[i])
  {
    assert Find(os, id).Some?;
    var k :| 0 <= k < |os| && os[k] == Find(os, id).value;
    assert os[k].id == id;
  }

  lemma LockSetKeepsIds(os: seq<FloorplanObject>, os1: seq<FloorplanObject>, id: string, b: bool)
    requires LockSetOn(os, os1, id, b)
    ensures forall j :: 0 <= j < |os1| ==> os1[j].id == os[j].id
  {
    forall j | 0 <= j < |os1|
      ensures os1[j].id == os[j].id
    {
      if os[j].id == id {
        assert os1[j] == os[j].(isLocked := b);
      }
    }
  }

  /** Setting the flag to the negation of the found object's value, twice, with unique ids. */
  lemma LockSetTwice(os: seq<FloorplanObject>, os1: seq<FloorplanObject>, os2: seq<FloorplanObject>, id: string, i: int)
    requires UniqueIds(os) && 0 <= i < |os| && os[i].id == id
    requires LockSetOn(os, os1, id, !Find(os, id).value.isLocked)
    requires HasId(os1, id) ==> LockSetOn(os1, os2, id, !Find(os1, id).value.isLocked)
    requires !HasId(os1, id) ==> os2 == os1
    ensures os2 == os
  {
    FindUnique(os, id, i);
    LockSetKeepsIds(os, os1, id, !os[i].isLocked);
    assert os1[i].id == id;
    assert UniqueIds(os1);
    FindUnique(os1, id, i);
    forall j | 0 <= j < |os|
      ensures os2[j] == os[j]
    {
      if os[j].id == id {
        assert j == i;
      }
    }
  }

  /** With unique ids, locking twice gives back the same objects (as two history entries). */
  lemma ToggleLockTwice(e: Editor, id: string, now1: string, now2: string)
    requires EditorInv(e) && UniqueIds(e.scene.objects)
    ensures ToggleLock(ToggleLock(e, id, now1), id, now2).scene.objects == e.scene.objects
  {
    var e1 := ToggleLock(e, id, now1);
    var e2 := ToggleLock(e1, id, now2);
    if HasId(e.scene.objects, id) {
      var i :| 0 <= i < |e.scene.objects| && e.scene.objects[i].id == id;
      LockSetTwice(e.scene.objects, e1.scene.objects, e2.scene.objects, id, i);
    }
  }

  /** The "new plan" button: asks for confirmation only when the scene has objects. */
  function HandleNew(e: Editor, confirmed: bool, id: string, createdAt: string, updatedAt: string): (r: Editor)
    ensures |e.scene.objects| == 0 || confirmed ==> r == NewScene(e, id, createdAt, updatedAt)
    ensures |e.scene.objects| > 0 && !confirmed ==> r == e
  {
    if |e.scene.objects| > 0 then (if confirmed then NewScene(e, id, createdAt, updatedAt) else e)
    else NewScene(e, id, createdAt, updatedAt)
  }

  /**
   * Routes one canvas callback to the store. `addDoor` takes only a
   * position, so the drawn door size is dropped here; furniture uses the
   * page's chosen kind. `id` is the fresh id an add uses.
   */
  function ApplyCanvasCall(e: Editor, c: CanvasCall, furniture: FurnitureType, id: string, now: string): (r: Editor)
    requires EditorInv(e)
    ensures EditorInv(r)
    ensures c.SelectCall? ==> r == SetSelectedId(e, c.selection)
    ensures c.IsAdd() ==> Recorded(e, r) && |r.scene.objects| == |e.scene.objects| + 1
                          && r.scene.objects[..|e.scene.objects|] == e.scene.objects
  {
    match c
    case SelectCall(sel) => SetSelectedId(e, sel)
    case AddWallCall(x, y, w, h) => AddWall(e, id, now, x, y, w, h)
    case AddDoorCall(x, y, _, _) => AddDoor(e, id, now, x, y)
    case AddFurnitureCall(x, y) => AddFurniture(e, id, now, x, y, furniture)
    case AddTextCall(x, y) => AddText(e, id, now, x, y)
  }

  function ApplyCanvasCalls(e: Editor, calls: seq<CanvasCall>, furniture: FurnitureType, id: string, now: string): (r: Editor)
    requires EditorInv(e)
    ensures EditorInv(r)
    ensures calls == [] ==> r == e
    decreases |calls|
  {
    if |calls| == 0 then e
    else ApplyCanvasCalls(ApplyCanvasCall(e, calls[0], furniture, id, now), calls[1..], furniture, id, now)
  }

  /** A draw whose width or height comes to zero grid units adds nothing and records no history entry. */
  lemma DegenerateDrawAddsNothing(e: Editor, d: Draft, end: Point, gridSize: real, u: Units,
                                  furniture: FurnitureType, id: string, now: string)
    requires EditorInv(e)
    requires var rect := Normalize(d.start, end);
             u.pxToUnits(rect.width, gridSize) <= 0.0 || u.pxToUnits(rect.height, gridSize) <= 0.0
    ensures var st := PointerState(false, Some(d));
            ApplyCanvasCalls(e, MouseUp(st, Some(end), gridSize, u).calls, furniture, id, now) == e
  {
  }

  /**
   * A wall draw with positive unit counts adds exactly one wall, at the
   * rectangle's origin, with the size converted to units and back, as one
   * history entry.
   */
  lemma WallDrawAddsOneWall(e: Editor, start: Point, end: Point, gridSize: real, u: Units,
                            furniture: FurnitureType, id: string, now: string)
    requires EditorInv(e)
    requires var rect := Normalize(start, end);
             u.pxToUnits(rect.width, gridSize) > 0.0 && u.pxToUnits(rect.height, gridSize) > 0.0
    ensures var rect := Normalize(start, end);
            var st := PointerState(false, Some(Draft(start, DraftWall)));
            var r := ApplyCanvasCalls(e, MouseUp(st, Some(end), gridSize, u).calls, furniture, id, now);
            && Recorded(e, r)
            && |r.scene.objects| == |e.scene.objects| + 1
            && r.scene.objects[..|e.scene.objects|] == e.scene.objects
            && var w := r.scene.objects[|e.scene.objects|];
               w.Wall? && w.x == rect.x && w.y == rect.y
               && w.width == u.unitsToPx(u.pxToUnits(rect.width, gridSize), gridSize)
               && w.height == u.unitsToPx(u.pxToUnits(rect.height, gridSize), gridSize)
  {
    var st := PointerState(false, Some(Draft(start, DraftWall)));
    var calls := MouseUp(st, Some(end), gridSize, u).calls;
    assert |calls| == 1;
    var e1 := ApplyCanvasCall(e, calls[0], furniture, id, now);
    assert ApplyCanvasCalls(e, calls, furniture, id, now) == ApplyCanvasCalls(e1, calls[1..], furniture, id, now);
    assert calls[1..] == [];
  }

  /** A drawn door always gets the default 80 by 10 size, whatever rectangle was drawn. */
  lemma DoorDrawKeepsDefaultSize(e: Editor, start: Point, end: Point, gridSize: real, u: Units,
                                 furniture: FurnitureType, id: string, now: string)
    requires EditorInv(e)
    requires var rect := Normalize(start, end);
             u.pxToUnits(rect.width, gridSize) > 0.0 && u.pxToUnits(rect.height, gridSize) > 0.0
    ensures var st := PointerState(false, Some(Draft(start, DraftDoor)));
            var r := ApplyCanvasCalls(e, MouseUp(st, Some(end), gridSize, u).calls, furniture, id, now);
            && |r.scene.objects| == |e.scene.objects| + 1
            && var d := r.scene.objects[|e.scene.objects|];
               d.Door? && d.width == DEFAULT_DOOR.width && d.height == DEFAULT_DOOR.height
  {
    var st := PointerState(false, Some(Draft(start, DraftDoor)));
    var calls := MouseUp(st, Some(end), gridSize, u).calls;
    assert |calls| == 1;
    var e1 := ApplyCanvasCall(e, calls[0], furniture, id, now);
    assert ApplyCanvasCalls(e, calls, furniture, id, now) == ApplyCanvasCalls(e1, calls[1..], furniture, id, now);
    assert calls[1..] == [];
  }
}
