/**
 * The canvas's pointer handling: the press / release state machine that
 * draws walls, doors and furniture, the text tool's immediate placement,
 * the per-object render flags, and the size clamp after a resize.
 * Pointer positions are already in canvas coordinates (the viewport's
 * screen-to-canvas transform is not modelled), and every callback the
 * canvas would invoke is returned as a `CanvasCall` value.
 */
module CanvasStage {
  import opened Wrappers
  import opened FloorplanTypes

  datatype Point = Point(x: real, y: real)

  /**
   * The grid conversions `pxToUnits(px, gridSize)` and `unitsToPx(units, gridSize)`.
   * Their definitions are not part of this model, so they are parameters and
   * nothing is assumed about them.
   */
  datatype Units = Units(pxToUnits: (real, real) -> real, unitsToPx: (real, real) -> real)

  /** What a draw in progress will create; furniture remembers the kind chosen at the press. */
  datatype DraftKind = DraftWall | DraftDoor | DraftFurniture(furnitureType: FurnitureType)

  /** `isDrawing`, `drawStart` and `previewObject` are always set and cleared together: one optional draft. */
  datatype Draft = Draft(start: Point, kind: DraftKind)

  datatype PointerState = PointerState(isPanning: bool, draft: Option<Draft>)

  const Idle := PointerState(false, None)

  /** A callback the canvas invokes on its owner. */
  datatype CanvasCall =
    | SelectCall(selection: Option<string>)
    | AddWallCall(x: real, y: real, width: real, height: real)
    | AddDoorCall(x: real, y: real, width: real, height: real)
    | AddFurnitureCall(x: real, y: real)
    | AddTextCall(x: real, y: real)
  {
    predicate IsAdd() {
      !SelectCall?
    }
  }

  datatype Step = Step(state: PointerState, calls: seq<CanvasCall>)

  /** `MouseEvent.button` of the middle button. */
  const MIDDLE_BUTTON: int := 1

  predicate StartsPan(tool: ToolType, button: int) {
    tool == PanTool || button == MIDDLE_BUTTON
  }

  /** The draft a drawing tool starts, if the tool draws at all. */
  function DraftFor(tool: ToolType, start: Point, selectedFurniture: FurnitureType): (r: Option<Draft>)
    ensures r.Some? <==> tool in {WallTool, DoorTool, FurnitureTool}
    ensures r.Some? ==> r.value.start == start
    ensures r.Some? ==> (r.value.kind == DraftWall <==> tool == WallTool)
    ensures r.Some? ==> (r.value.kind == DraftDoor <==> tool == DoorTool)
    ensures r.Some? && r.value.kind.DraftFurniture? ==> r.value.kind.furnitureType == selectedFurniture
  {
    match tool
    case WallTool => Some(Draft(start, DraftWall))
    case DoorTool => Some(Draft(start, DraftDoor))
    case FurnitureTool => Some(Draft(start, DraftFurniture(selectedFurniture)))
    case _ => None
  }

  /**
   * `handleMouseDown`. Panning wins over everything; otherwise only a press
   * on the empty stage does anything: it clears the selection, then starts a
   * draft for the drawing tools or places text at once for the text tool.
   */
  function MouseDown(st: PointerState, tool: ToolType, button: int, onEmptyStage: bool,
                     pointer: Option<Point>, selectedFurniture: FurnitureType): (r: Step)
    ensures StartsPan(tool, button) ==> r.state == st.(isPanning := true) && r.calls == []
    ensures !StartsPan(tool, button) ==> r.state.isPanning == st.isPanning
    ensures r.state.draft != st.draft ==>
              && !StartsPan(tool, button) && onEmptyStage && pointer.Some?
              && tool in {WallTool, DoorTool, FurnitureTool}
              && r.state.draft.Some? && r.state.draft.value.start == pointer.value
    ensures !StartsPan(tool, button) && onEmptyStage && pointer.Some? && DraftFor(tool, pointer.value, selectedFurniture).Some? ==>
              r.state.draft == DraftFor(tool, pointer.value, selectedFurniture)
    ensures |r.calls| > 0 <==> !StartsPan(tool, button) && onEmptyStage
    ensures |r.calls| == (if StartsPan(tool, button) || !onEmptyStage then 0
                          else if pointer.Some? && tool == TextTool then 2 else 1)
    ensures |r.calls| > 0 ==> r.calls[0] == SelectCall(None)
    ensures (exists i :: 0 <= i < |r.calls| && r.calls[i].IsAdd()) <==>
              !StartsPan(tool, button) && onEmptyStage && pointer.Some? && tool == TextTool
    ensures forall i :: 0 <= i < |r.calls| && r.calls[i].IsAdd() ==>
              r.calls[i] == AddTextCall(pointer.value.x, pointer.value.y)
  {
    if StartsPan(tool, button) then Step(st.(isPanning := true), [])
    else if !onEmptyStage then Step(st, [])
    else if pointer.None? then Step(st, [SelectCall(None)])
    else
      var pos := pointer.value;
      if tool == TextTool then
        var r := Step(st, [SelectCall(None), AddTextCall(pos.x, pos.y)]);
        assert r.calls[1].IsAdd();
        r
      else
        var d := DraftFor(tool, pos, selectedFurniture);
        if d.Some? then Step(st.(draft := d), [SelectCall(None)]) else Step(st, [SelectCall(None)])
  }

  datatype Rect = Rect(x: real, y: real, width: real, height: real)

  function Min(a: real, b: real): real { if a <= b then a else b }
  function Abs(a: real): real { if a < 0.0 then -a else a }

  /**
   * The rectangle between the press and release points: its origin is the
   * component-wise minimum and its extent the absolute difference, so its
   * two horizontal edges are exactly the two x coordinates (and likewise y).
   */
  function Normalize(a: Point, b: Point): (r: Rect)
    ensures r.width >= 0.0 && r.height >= 0.0
    ensures r.x <= a.x && r.x <= b.x && r.y <= a.y && r.y <= b.y
    ensures (r.x == a.x && r.x + r.width == b.x) || (r.x == b.x && r.x + r.width == a.x)
    ensures (r.y == a.y && r.y + r.height == b.y) || (r.y == b.y && r.y + r.height == a.y)
  {
    Rect(Min(a.x, b.x), Min(a.y, b.y), Abs(b.x - a.x), Abs(b.y - a.y))
  }

  /** Which way the press and release were made does not matter. */
  lemma NormalizeSymmetric(a: Point, b: Point)
    ensures Normalize(a, b) == Normalize(b, a)
  {
  }

  /**
   * The add call a finished draft makes: the raw extent is converted to
   * grid units and back; nothing is added unless both unit counts are
   * positive. Furniture passes only its origin, so the drawn size is dropped.
   */
  function CommitDraft(d: Draft, end: Point, gridSize: real, u: Units): (calls: seq<CanvasCall>)
    ensures |calls| <= 1
    ensures var rect := Normalize(d.start, end);
            var wu := u.pxToUnits(rect.width, gridSize);
            var hu := u.pxToUnits(rect.height, gridSize);
            && (|calls| == 1 <==> wu > 0.0 && hu > 0.0)
            && (|calls| == 1 ==> match d.kind
                  case DraftWall => calls[0] == AddWallCall(rect.x, rect.y, u.unitsToPx(wu, gridSize), u.unitsToPx(hu, gridSize))
                  case DraftDoor => calls[0] == AddDoorCall(rect.x, rect.y, u.unitsToPx(wu, gridSize), u.unitsToPx(hu, gridSize))
                  case DraftFurniture(_) => calls[0] == AddFurnitureCall(rect.x, rect.y))
  {
    var rect := Normalize(d.start, end);
    var widthUnits := u.pxToUnits(rect.width, gridSize);
    var heightUnits := u.pxToUnits(rect.height, gridSize);
    var width := u.unitsToPx(widthUnits, gridSize);
    var height := u.unitsToPx(heightUnits, gridSize);
    if widthUnits > 0.0 && heightUnits > 0.0 then
      match d.kind
      case DraftWall => [AddWallCall(rect.x, rect.y, width, height)]
      case DraftDoor => [AddDoorCall(rect.x, rect.y, width, height)]
      case DraftFurniture(_) => [AddFurnitureCall(rect.x, rect.y)]
    else []
  }

  /**
   * `handleMouseUp`: ends any pan, and ends any draft, committing it when a
   * pointer position is available.
   */
  function MouseUp(st: PointerState, pointer: Option<Point>, gridSize: real, u: Units): (r: Step)
    ensures r.state == Idle
    ensures st.draft.None? || pointer.None? ==> r.calls == []
    ensures st.draft.Some? && pointer.Some? ==> r.calls == CommitDraft(st.draft.value, pointer.value, gridSize, u)
  {
    if st.draft.Some? then
      var calls := if pointer.Some? then CommitDraft(st.draft.value, pointer.value, gridSize, u) else [];
      Step(Idle, calls)
    else Step(st.(isPanning := false), [])
  }

  /** A press with no drawing tool active never leads to an add on release. */
  lemma OnlyDrawingToolsCommit(st: PointerState, tool: ToolType, button: int, onEmpty: bool,
                               down: Option<Point>, up: Option<Point>, furniture: FurnitureType,
                               gridSize: real, u: Units)
    requires st == Idle
    requires tool !in {WallTool, DoorTool, FurnitureTool}
    ensures MouseUp(MouseDown(st, tool, button, onEmpty, down, furniture).state, up, gridSize, u).calls == []
  {
  }

  /**
   * A wall drawn from `a` to `b` with the primary button: the press only
   * clears the selection, and the release adds one wall over the normalized
   * rectangle, snapped through grid units, when both unit counts are positive.
   */
  lemma WallPressRelease(a: Point, b: Point, button: int, furniture: FurnitureType, gridSize: real, u: Units)
    requires button != MIDDLE_BUTTON
    ensures var down := MouseDown(Idle, WallTool, button, true, Some(a), furniture);
            var up := MouseUp(down.state, Some(b), gridSize, u);
            var rect := Normalize(a, b);
            var wu := u.pxToUnits(rect.width, gridSize);
            var hu := u.pxToUnits(rect.height, gridSize);
            && down.calls == [SelectCall(None)]
            && down.state.draft == Some(Draft(a, DraftWall))
            && up.state == Idle
            && (wu > 0.0 && hu > 0.0 ==>
                  up.calls == [AddWallCall(rect.x, rect.y, u.unitsToPx(wu, gridSize), u.unitsToPx(hu, gridSize))])
            && (!(wu > 0.0 && hu > 0.0) ==> up.calls == [])
  {
    var down := MouseDown(Idle, WallTool, button, true, Some(a), furniture);
    assert down.state.draft == Some(Draft(a, DraftWall));
    var calls := CommitDraft(Draft(a, DraftWall), b, gridSize, u);
    assert |calls| <= 1;
  }

  /** What the canvas draws for one object: `None` when it is invisible. */
  datatype Rendered = Rendered(id: string, draggable: bool, isSelected: bool, selectsOnClick: bool)

  /** `renderObject`: invisible objects render nothing; dragging needs the select tool and an unlocked object. */
  function RenderObject(o: FloorplanObject, tool: ToolType, selectedId: Option<string>): (r: Option<Rendered>)
    ensures r.Some? <==> o.isVisible
    ensures r.Some? ==> r.value.id == o.id
    ensures r.Some? ==> (r.value.draggable <==> tool == SelectTool && !o.isLocked)
    ensures r.Some? ==> (r.value.isSelected <==> selectedId == Some(o.id))
    ensures r.Some? ==> (r.value.selectsOnClick <==> tool == SelectTool)
  {
    if !o.isVisible then None
    else Some(Rendered(o.id, tool == SelectTool && !o.isLocked, selectedId == Some(o.id), tool == SelectTool))
  }

  /** `objects.map(renderObject)`, keeping only what renders, in paint order. */
  function RenderObjects(objects: seq<FloorplanObject>, tool: ToolType, selectedId: Option<string>): (r: seq<Rendered>)
    ensures |r| <= |objects|
    ensures forall x :: x in r ==> exists o :: o in objects && RenderObject(o, tool, selectedId) == Some(x)
    ensures forall o :: o in objects && o.isVisible ==> RenderObject(o, tool, selectedId).value in r
    decreases |objects|
  {
    if |objects| == 0 then []
    else
      var head := RenderObject(objects[0], tool, selectedId);
      var rest := RenderObjects(objects[1..], tool, selectedId);
      assert forall o :: o in objects[1..] ==> o in objects;
      assert forall o :: o in objects ==> o == objects[0] || o in objects[1..];
      if head.Some? then [head.value] + rest else rest
  }

  /** One object renders as itself when visible and as nothing otherwise. */
  lemma RenderObjectsSingle(o: FloorplanObject, tool: ToolType, selectedId: Option<string>)
    ensures RenderObjects([o], tool, selectedId) == (if o.isVisible then [RenderObject(o, tool, selectedId).value] else [])
  {
    assert [o][1..] == [];
  }

  /**
   * Rendering distributes over concatenation, so the rendered list keeps the
   * objects' array order, which is the order the canvas paints in.
   */
  lemma {:induction false} RenderObjectsAppend(a: seq<FloorplanObject>, b: seq<FloorplanObject>,
                                              tool: ToolType, selectedId: Option<string>)
    ensures RenderObjects(a + b, tool, selectedId) == RenderObjects(a, tool, selectedId) + RenderObjects(b, tool, selectedId)
    decreases |a|
  {
    if |a| == 0 {
      assert a + b == b;
    } else {
      var r := RenderObject(a[0], tool, selectedId);
      var head := if r.Some? then [r.value] else [];
      assert (a + b)[0] == a[0];
      assert (a + b)[1..] == a[1..] + b;
      assert RenderObjects(a + b, tool, selectedId) == head + RenderObjects(a[1..] + b, tool, selectedId);
      assert RenderObjects(a, tool, selectedId) == head + RenderObjects(a[1..], tool, selectedId);
      RenderObjectsAppend(a[1..], b, tool, selectedId);
      ConcatAssoc(head, RenderObjects(a[1..], tool, selectedId), RenderObjects(b, tool, selectedId));
    }
  }

  /** With any tool but select, nothing on the canvas can be dragged; a locked object never can. */
  lemma NothingDraggableOutsideSelect(objects: seq<FloorplanObject>, tool: ToolType, selectedId: Option<string>)
    ensures forall r :: r in RenderObjects(objects, tool, selectedId) && r.draggable ==>
              tool == SelectTool && exists o :: o in objects && o.id == r.id && !o.isLocked && o.isVisible
  {
    var rs := RenderObjects(objects, tool, selectedId);
    forall r | r in rs && r.draggable
      ensures tool == SelectTool && exists o :: o in objects && o.id == r.id && !o.isLocked && o.isVisible
    {
      var o :| o in objects && RenderObject(o, tool, selectedId) == Some(r);
    }
  }

  /** The smallest width or height a resize can leave. */
  const MIN_TRANSFORM_SIZE: real := 5.0

  /** `Math.max(5, v)`. */
  function ClampSize(v: real): (r: real)
    ensures r >= MIN_TRANSFORM_SIZE
    ensures r == v || r == MIN_TRANSFORM_SIZE
    ensures v >= MIN_TRANSFORM_SIZE ==> r == v
  {
    if v >= MIN_TRANSFORM_SIZE then v else MIN_TRANSFORM_SIZE
  }

  /** The transformed node's geometry as the canvas library reports it at the end of a resize. */
  datatype Node = Node(x: real, y: real, width: real, height: real, scaleX: real, scaleY: real, rotation: real)

  /**
   * `onTransformEnd`: the update sent for object `o`. Walls scale the node's
   * own size, doors and furniture scale the object's stored size, and both
   * are clamped to at least 5; text only moves and rotates.
   */
  function OnTransformEnd(o: FloorplanObject, n: Node): (r: (string, Patch))
    ensures r.0 == o.id
    ensures r.1.x == Some(n.x) && r.1.y == Some(n.y) && r.1.rotation == Some(n.rotation)
    ensures o.HasSize() <==> r.1.width.Some? && r.1.height.Some?
    ensures o.HasSize() ==> r.1.width.value >= MIN_TRANSFORM_SIZE && r.1.height.value >= MIN_TRANSFORM_SIZE
    ensures o.Wall? ==> r.1.width == Some(ClampSize(n.width * n.scaleX)) && r.1.height == Some(ClampSize(n.height * n.scaleY))
    ensures (o.Door? || o.Furniture?) ==>
              r.1.width == Some(ClampSize(o.width * n.scaleX)) && r.1.height == Some(ClampSize(o.height * n.scaleY))
    ensures r.1.(x := None, y := None, rotation := None, width := None, height := None) == EmptyPatch
  {
    var moved := EmptyPatch.(x := Some(n.x), y := Some(n.y), rotation := Some(n.rotation));
    match o
    case Wall(_, _, _, _, _, _, _, _, _, _, _) =>
      (o.id, moved.(width := Some(ClampSize(n.width * n.scaleX)), height := Some(ClampSize(n.height * n.scaleY))))
    case Text(_, _, _, _, _, _, _, _, _, _, _) => (o.id, moved)
    case _ =>
      (o.id, moved.(width := Some(ClampSize(o.width * n.scaleX)), height := Some(ClampSize(o.height * n.scaleY))))
  }

  /** After the resize update is applied, a sized object is at least 5 by 5. */
  lemma TransformedSizeAtLeastFive(o: FloorplanObject, n: Node)
    requires o.HasSize()
    ensures Overlay(o, OnTransformEnd(o, n).1).width >= MIN_TRANSFORM_SIZE
    ensures Overlay(o, OnTransformEnd(o, n).1).height >= MIN_TRANSFORM_SIZE
  {
  }

  /** `onDragEnd`: the update sent when a drag ends only moves the object. */
  function OnDragEnd(o: FloorplanObject, x: real, y: real): (r: (string, Patch))
    ensures r.0 == o.id
    ensures r.1 == EmptyPatch.(x := Some(x), y := Some(y))
    ensures Overlay(o, r.1) == o.(x := x, y := y)
  {
    (o.id, EmptyPatch.(x := Some(x), y := Some(y)))
  }
}
