/**
 * The floorplan object model: the four-variant tagged union, the scene that
 * holds an ordered list of objects, partial updates, and the default tables
 * new objects are copied from.
 */
module FloorplanTypes {
  import opened Wrappers

  datatype ToolType = SelectTool | WallTool | DoorTool | FurnitureTool | TextTool | PanTool

  datatype FurnitureType = Bed | Sofa | Table | Desk | Chair

  datatype SwingDirection = Left | Right | Top | Bottom

  datatype DoorType = Single | Double

  datatype FontStyle = Normal | Bold | Italic

  /** The `type` discriminant of a floorplan object. */
  datatype ObjectKind = WallKind | DoorKind | FurnitureKind | TextKind

  /**
   * A drawable object. The shared fields (id, name, position, rotation in
   * degrees, lock and visibility flags) appear in every variant under the same
   * names; the rest belong to one variant.
   */
  datatype FloorplanObject =
    | Wall(id: string, name: string, x: real, y: real, rotation: real,
           isLocked: bool, isVisible: bool,
           width: real, height: real, thickness: real, fillColor: string)
    | Door(id: string, name: string, x: real, y: real, rotation: real,
           isLocked: bool, isVisible: bool,
           width: real, height: real, swingDirection: SwingDirection, doorType: DoorType)
    | Furniture(id: string, name: string, x: real, y: real, rotation: real,
                isLocked: bool, isVisible: bool,
                furnitureType: FurnitureType, width: real, height: real, fillColor: string)
    | Text(id: string, name: string, x: real, y: real, rotation: real,
           isLocked: bool, isVisible: bool,
           text: string, fontSize: real, fontStyle: FontStyle, textColor: string)
  {
    function Kind(): ObjectKind {
      match this
      case Wall(_, _, _, _, _, _, _, _, _, _, _) => WallKind
      case Door(_, _, _, _, _, _, _, _, _, _, _) => DoorKind
      case Furniture(_, _, _, _, _, _, _, _, _, _, _) => FurnitureKind
      case Text(_, _, _, _, _, _, _, _, _, _, _) => TextKind
    }

    /** Walls, doors and furniture carry a width and a height; text does not. */
    predicate HasSize() {
      !Text?
    }
  }

  /** A document: timestamps are opaque ISO-8601 strings supplied by the caller. */
  datatype Scene = Scene(id: string, name: string, objects: seq<FloorplanObject>,
                         createdAt: string, updatedAt: string)

  /**
   * `Partial<FloorplanObject>`: every field an update may carry. It has no
   * `id` or `type` entry because no caller ever changes either.
   */
  datatype Patch = Patch(
    name: Option<string>, x: Option<real>, y: Option<real>, rotation: Option<real>,
    isLocked: Option<bool>, isVisible: Option<bool>,
    width: Option<real>, height: Option<real>, thickness: Option<real>, fillColor: Option<string>,
    swingDirection: Option<SwingDirection>, doorType: Option<DoorType>,
    furnitureType: Option<FurnitureType>,
    text: Option<string>, fontSize: Option<real>, fontStyle: Option<FontStyle>, textColor: Option<string>)

  const EmptyPatch := Patch(None, None, None, None, None, None, None, None, None, None,
                            None, None, None, None, None, None, None)

  /**
   * `{ ...obj, ...patch }`: every field the patch carries and the variant
   * has replaces the object's own; everything else is kept.
   */
  function Overlay(o: FloorplanObject, p: Patch): (r: FloorplanObject)
    ensures r.Kind() == o.Kind() && r.id == o.id
    ensures r.name == p.name.GetOr(o.name)
    ensures r.x == p.x.GetOr(o.x) && r.y == p.y.GetOr(o.y)
    ensures r.rotation == p.rotation.GetOr(o.rotation)
    ensures r.isLocked == p.isLocked.GetOr(o.isLocked)
    ensures r.isVisible == p.isVisible.GetOr(o.isVisible)
    ensures o.HasSize() ==> r.width == p.width.GetOr(o.width) && r.height == p.height.GetOr(o.height)
    ensures r.Wall? ==> r.thickness == p.thickness.GetOr(o.thickness) && r.fillColor == p.fillColor.GetOr(o.fillColor)
    ensures r.Door? ==> r.swingDirection == p.swingDirection.GetOr(o.swingDirection)
                        && r.doorType == p.doorType.GetOr(o.doorType)
    ensures r.Furniture? ==> r.furnitureType == p.furnitureType.GetOr(o.furnitureType)
                             && r.fillColor == p.fillColor.GetOr(o.fillColor)
    ensures r.Text? ==> && r.text == p.text.GetOr(o.text) && r.fontSize == p.fontSize.GetOr(o.fontSize)
                        && r.fontStyle == p.fontStyle.GetOr(o.fontStyle) && r.textColor == p.textColor.GetOr(o.textColor)
  {
    var b := o.(name := p.name.GetOr(o.name), x := p.x.GetOr(o.x), y := p.y.GetOr(o.y),
                rotation := p.rotation.GetOr(o.rotation),
                isLocked := p.isLocked.GetOr(o.isLocked), isVisible := p.isVisible.GetOr(o.isVisible));
    match b
    case Wall(_, _, _, _, _, _, _, w, h, t, c) =>
      b.(width := p.width.GetOr(w), height := p.height.GetOr(h),
         thickness := p.thickness.GetOr(t), fillColor := p.fillColor.GetOr(c))
    case Door(_, _, _, _, _, _, _, w, h, s, d) =>
      b.(width := p.width.GetOr(w), height := p.height.GetOr(h),
         swingDirection := p.swingDirection.GetOr(s), doorType := p.doorType.GetOr(d))
    case Furniture(_, _, _, _, _, _, _, f, w, h, c) =>
      b.(furnitureType := p.furnitureType.GetOr(f), width := p.width.GetOr(w),
         height := p.height.GetOr(h), fillColor := p.fillColor.GetOr(c))
    case Text(_, _, _, _, _, _, _, s, z, st, c) =>
      b.(text := p.text.GetOr(s), fontSize := p.fontSize.GetOr(z),
         fontStyle := p.fontStyle.GetOr(st), textColor := p.textColor.GetOr(c))
  }

  /** An empty update changes nothing. */
  lemma OverlayEmpty(o: FloorplanObject)
    ensures Overlay(o, EmptyPatch) == o
  {
  }

  /** Applying the same update twice is the same as applying it once. */
  lemma OverlayIdempotent(o: FloorplanObject, p: Patch)
    ensures Overlay(Overlay(o, p), p) == Overlay(o, p)
  {
  }

  // ---------------------------------------------------------------------
  // Default tables: every field of a variant except id, name and position
  // (the source's `Omit<…, 'id' | 'name' | 'x' | 'y'>` types), so the
  // discriminant is fixed by the record's own type.
  // ---------------------------------------------------------------------

  datatype WallDefaults = WallDefaults(width: real, height: real, thickness: real, rotation: real,
                                       fillColor: string, isLocked: bool, isVisible: bool)

  datatype DoorDefaults = DoorDefaults(width: real, height: real, rotation: real,
                                       swingDirection: SwingDirection, doorType: DoorType,
                                       isLocked: bool, isVisible: bool)

  /** A furniture entry: the kind itself is the table's key, not part of the entry. */
  datatype FurnitureDefaults = FurnitureDefaults(width: real, height: real, rotation: real,
                                                 fillColor: string, isLocked: bool, isVisible: bool)

  datatype TextDefaults = TextDefaults(text: string, fontSize: real, fontStyle: FontStyle, rotation: real,
                                       textColor: string, isLocked: bool, isVisible: bool)

  const DEFAULT_WALL := WallDefaults(100.0, 20.0, 20.0, 0.0, "#9E9E9E", false, true)

  const DEFAULT_DOOR := DoorDefaults(80.0, 10.0, 0.0, Right, Single, false, true)

  const DEFAULT_TEXT := TextDefaults("New note", 16.0, Normal, 0.0, "#2F2A28", false, true)

  /** `FURNITURE_DEFAULTS[kind]`: a total table over the five kinds. */
  function FURNITURE_DEFAULTS(kind: FurnitureType): FurnitureDefaults {
    match kind
    case Bed => FurnitureDefaults(150.0, 180.0, 0.0, "#8BC34A", false, true)
    case Sofa => FurnitureDefaults(180.0, 80.0, 0.0, "#2196F3", false, true)
    case Table => FurnitureDefaults(120.0, 80.0, 0.0, "#FF9800", false, true)
    case Desk => FurnitureDefaults(140.0, 70.0, 0.0, "#9C27B0", false, true)
    case Chair => FurnitureDefaults(50.0, 50.0, 0.0, "#F44336", false, true)
  }

  /** A wall built from the defaults at the given place, size, id and name. */
  function WallFrom(d: WallDefaults, id: string, name: string, x: real, y: real, width: real, height: real): FloorplanObject {
    Wall(id, name, x, y, d.rotation, d.isLocked, d.isVisible, width, height, d.thickness, d.fillColor)
  }

  function DoorFrom(d: DoorDefaults, id: string, name: string, x: real, y: real): FloorplanObject {
    Door(id, name, x, y, d.rotation, d.isLocked, d.isVisible, d.width, d.height, d.swingDirection, d.doorType)
  }

  function FurnitureFrom(d: FurnitureDefaults, kind: FurnitureType, id: string, name: string, x: real, y: real): FloorplanObject {
    Furniture(id, name, x, y, d.rotation, d.isLocked, d.isVisible, kind, d.width, d.height, d.fillColor)
  }

  function TextFrom(d: TextDefaults, id: string, name: string, x: real, y: real): FloorplanObject {
    Text(id, name, x, y, d.rotation, d.isLocked, d.isVisible, d.text, d.fontSize, d.fontStyle, d.textColor)
  }

  /** The furniture kind's identifier as the source spells it. */
  function FurnitureTypeName(kind: FurnitureType): string {
    match kind
    case Bed => "bed"
    case Sofa => "sofa"
    case Table => "table"
    case Desk => "desk"
    case Chair => "chair"
  }

  /** A door width choice: the source's `label` field is `caption` here, since `label` is a keyword. */
  datatype DoorWidthPreset = DoorWidthPreset(caption: string, value: real)

  const DOOR_WIDTH_PRESETS: seq<DoorWidthPreset> := [
    DoorWidthPreset("28\"", 70.0),
    DoorWidthPreset("30\"", 75.0),
    DoorWidthPreset("32\"", 80.0),
    DoorWidthPreset("36\"", 90.0)
  ]

  /** Every default table entry starts unlocked, visible and unrotated. */
  lemma DefaultsAreFresh()
    ensures !DEFAULT_WALL.isLocked && DEFAULT_WALL.isVisible && DEFAULT_WALL.rotation == 0.0
    ensures !DEFAULT_DOOR.isLocked && DEFAULT_DOOR.isVisible && DEFAULT_DOOR.rotation == 0.0
    ensures !DEFAULT_TEXT.isLocked && DEFAULT_TEXT.isVisible && DEFAULT_TEXT.rotation == 0.0
    ensures forall k: FurnitureType ::
              !FURNITURE_DEFAULTS(k).isLocked && FURNITURE_DEFAULTS(k).isVisible && FURNITURE_DEFAULTS(k).rotation == 0.0
  {
  }

  /** Every furniture entry has a positive width and height. */
  lemma FurnitureDefaultsPositive(k: FurnitureType)
    ensures FURNITURE_DEFAULTS(k).width > 0.0 && FURNITURE_DEFAULTS(k).height > 0.0
  {
  }

  /** A real value that is a whole multiple of 4. */
  predicate MultipleOf4(v: real) {
    v.Floor as real == v && v.Floor % 4 == 0
  }

  /** The default wall is 100 by 20 with a thickness of 20, a multiple of 4. */
  lemma DefaultWallShape()
    ensures DEFAULT_WALL.width == 100.0 && DEFAULT_WALL.height == 20.0
    ensures DEFAULT_WALL.thickness == 20.0 && MultipleOf4(DEFAULT_WALL.thickness)
  {
  }

  /** The default door width is one of the door width presets. */
  lemma DefaultDoorWidthIsPreset()
    ensures exists i :: 0 <= i < |DOOR_WIDTH_PRESETS| && DOOR_WIDTH_PRESETS[i].value == DEFAULT_DOOR.width
  {
    assert DOOR_WIDTH_PRESETS[2].value == DEFAULT_DOOR.width;
  }

  /** Number of objects of kind `k`: `objects.filter(o => o.type === k).length`. */
  function CountKind(objects: seq<FloorplanObject>, k: ObjectKind): (n: nat)
    ensures n <= |objects|
  {
    if |objects| == 0 then 0
    else CountKind(objects[..|objects| - 1], k) + (if objects[|objects| - 1].Kind() == k then 1 else 0)
  }

  /** Counting distributes over concatenation. */
  lemma {:induction false} CountKindAppend(a: seq<FloorplanObject>, b: seq<FloorplanObject>, k: ObjectKind)
    ensures CountKind(a + b, k) == CountKind(a, k) + CountKind(b, k)
    decreases |b|
  {
    if |b| > 0 {
      assert (a + b)[..|a + b| - 1] == a + b[..|b| - 1];
      CountKindAppend(a, b[..|b| - 1], k);
    } else {
      assert a + b == a;
    }
  }

  /** `objects.find(o => o.id === id)`: the first object with that id. */
  function Find(objects: seq<FloorplanObject>, id: string): (r: Option<FloorplanObject>)
    ensures r.None? <==> forall i :: 0 <= i < |objects| ==> objects[i].id != id
    ensures r.Some? ==> r.value in objects && r.value.id == id
    ensures r.Some? ==> exists i :: 0 <= i < |objects| && objects[i] == r.value
                                    && forall j :: 0 <= j < i ==> objects[j].id != id
  {
    if |objects| == 0 then None
    else if objects[0].id == id then Some(objects[0])
    else
      var r := Find(objects[1..], id);
      assert forall i :: 1 <= i < |objects| ==> objects[i] == objects[1..][i - 1];
      r
  }

  predicate HasId(objects: seq<FloorplanObject>, id: string) {
    exists i :: 0 <= i < |objects| && objects[i].id == id
  }
}
