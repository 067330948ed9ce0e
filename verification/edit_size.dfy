/**
 * The edit-size dialog: the unit fields it loads from the selected object
 * and the partial update its Apply button sends.
 */
module EditSize {
  import opened Wrappers
  import opened FloorplanTypes
  import opened CanvasStage

  /** The dialog's editable fields: width and height in grid units, rotation in degrees, thickness in pixels. */
  datatype SizeFields = SizeFields(widthUnits: real, heightUnits: real, rotation: real, thickness: real)

  /** `Math.round(x)`: the nearest integer, halves rounding up. */
  function Round(x: real): (n: int)
    ensures x - 0.5 < n as real <= x + 0.5
  {
    (x + 0.5).Floor
  }

  /**
   * `Math.round(t / 4) * 4`: the wall thickness Apply sends. It is a
   * multiple of 4 within 2 of `t`; a tie (t exactly between two multiples)
   * goes to the larger one.
   */
  function SnapThickness(t: real): (r: int)
    ensures r % 4 == 0
    ensures t - 2.0 < r as real <= t + 2.0
  {
    Round(t / 4.0) * 4
  }

  /** A value already on a multiple of 4 is left where it is, so snapping twice is snapping once. */
  lemma SnapThicknessIdempotent(t: real)
    ensures SnapThickness(SnapThickness(t) as real) == SnapThickness(t)
  {
    var r := SnapThickness(t);
    var k := r / 4;
    assert r == 4 * k;
    assert (r as real) / 4.0 == k as real;
    assert Round(k as real) == k;
  }

  /** Ties round up: halfway between two multiples of 4, the larger one is chosen. */
  lemma SnapThicknessTiesUp(k: int)
    ensures SnapThickness((4 * k + 2) as real) == 4 * k + 4
  {
    assert ((4 * k + 2) as real) / 4.0 + 0.5 == (k + 1) as real;
  }

  /** On whole numbers the snap agrees with integer arithmetic: `4 * floor((t + 2) / 4)`. */
  lemma SnapThicknessOnIntegers(t: int)
    ensures SnapThickness(t as real) == ((t + 2) / 4) * 4
  {
    var q := (t + 2) / 4;
    var m := (t + 2) % 4;
    assert t + 2 == 4 * q + m && 0 <= m < 4;
    assert (t as real) / 4.0 + 0.5 == q as real + (m as real) / 4.0;
    assert Round((t as real) / 4.0) == q;
  }

  /**
   * The `useEffect` that loads an object into the fields: unit sizes via
   * `pxToUnits` for sized kinds, the rotation always, the thickness for
   * walls; fields the object lacks keep their previous values.
   */
  function LoadFields(f: SizeFields, obj: Option<FloorplanObject>, gridSize: real, u: Units): (r: SizeFields)
    ensures obj.None? ==> r == f
    ensures obj.Some? ==> r.rotation == obj.value.rotation
    ensures obj.Some? && obj.value.HasSize() ==>
              r.widthUnits == u.pxToUnits(obj.value.width, gridSize) && r.heightUnits == u.pxToUnits(obj.value.height, gridSize)
    ensures obj.Some? && !obj.value.HasSize() ==> r.widthUnits == f.widthUnits && r.heightUnits == f.heightUnits
    ensures obj.Some? && obj.value.Wall? ==> r.thickness == obj.value.thickness
    ensures obj.Some? && !obj.value.Wall? ==> r.thickness == f.thickness
  {
    if obj.None? then f
    else
      var o := obj.value;
      var sized := if o.HasSize() then f.(widthUnits := u.pxToUnits(o.width, gridSize), heightUnits := u.pxToUnits(o.height, gridSize)) else f;
      var turned := sized.(rotation := o.rotation);
      if o.Wall? then turned.(thickness := o.thickness) else turned
  }

  /** What Apply does: at most one `onUpdate(id, patch)` call, and whether the dialog closes. */
  datatype ApplyOutcome = ApplyOutcome(update: Option<(string, Patch)>, closes: bool)

  /**
   * `handleApply`: with no object nothing happens. Otherwise one update for
   * the object's id carrying the rotation, the size for sized kinds and the
   * snapped thickness for walls, and then the dialog closes.
   */
  function HandleApply(f: SizeFields, obj: Option<FloorplanObject>, gridSize: real, u: Units): (r: ApplyOutcome)
    ensures obj.None? <==> r.update.None?
    ensures r.closes <==> obj.Some?
    ensures obj.Some? ==> r.update.value.0 == obj.value.id
    ensures obj.Some? ==> r.update.value.1.rotation == Some(f.rotation)
    ensures obj.Some? ==> (r.update.value.1.width.Some? <==> obj.value.HasSize())
    ensures obj.Some? ==> (r.update.value.1.height.Some? <==> obj.value.HasSize())
    ensures obj.Some? && obj.value.HasSize() ==>
              r.update.value.1.width == Some(u.unitsToPx(f.widthUnits, gridSize))
              && r.update.value.1.height == Some(u.unitsToPx(f.heightUnits, gridSize))
    ensures obj.Some? ==> (r.update.value.1.thickness.Some? <==> obj.value.Wall?)
    ensures obj.Some? && obj.value.Wall? ==> r.update.value.1.thickness == Some(SnapThickness(f.thickness) as real)
    ensures obj.Some? && obj.value.Wall? ==> MultipleOf4(r.update.value.1.thickness.value)
    ensures obj.Some? ==>
              r.update.value.1.(rotation := None, width := None, height := None, thickness := None) == EmptyPatch
  {
    if obj.None? then ApplyOutcome(None, false)
    else
      var o := obj.value;
      var p := EmptyPatch.(rotation := Some(f.rotation));
      var sized := if o.HasSize() then p.(width := Some(u.unitsToPx(f.widthUnits, gridSize)), height := Some(u.unitsToPx(f.heightUnits, gridSize))) else p;
      var t := SnapThickness(f.thickness);
      assert MultipleOf4(t as real);
      var full := if o.Wall? then sized.(thickness := Some(t as real)) else sized;
      ApplyOutcome(Some((o.id, full)), true)
  }

  /**
   * Opening the dialog on an object and applying at once keeps its rotation
   * and a thickness already on a multiple of 4, and re-derives its size
   * through a units round trip.
   */
  lemma LoadThenApply(f: SizeFields, o: FloorplanObject, gridSize: real, u: Units)
    requires o.Wall? ==> MultipleOf4(o.thickness)
    ensures var p := HandleApply(LoadFields(f, Some(o), gridSize, u), Some(o), gridSize, u).update.value.1;
            var o' := Overlay(o, p);
            && o'.rotation == o.rotation
            && (o.Wall? ==> o'.thickness == o.thickness)
            && (o.HasSize() ==> o'.width == u.unitsToPx(u.pxToUnits(o.width, gridSize), gridSize)
                                && o'.height == u.unitsToPx(u.pxToUnits(o.height, gridSize), gridSize))
            && (!o.HasSize() ==> o' == o)
  {
    if o.Wall? {
      var k := o.thickness.Floor / 4;
      assert o.thickness == (4 * k) as real;
      SnapThicknessOnIntegers(4 * k);
    }
  }
}
