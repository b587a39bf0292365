/**
 * `Cell`: one spreadsheet cell. The location is fixed at construction (there
 * is no setter for it); formula, seen value and color are private fields that
 * the setters replace in place.
 */
module Cells {
  import opened Values

  /** The default color, `Cell.WHITE`. */
  const White: string := "#ffffff"

  class Cell {
    const location: Location
    var formula: string
    var seen: SeenValue
    var color: string

    /** `Cell(location, formula='', seen_value='', color=WHITE)` */
    constructor (location: Location, formula: string := "", seen: SeenValue := Blank, color: string := White)
      ensures this.location == location
      ensures this.formula == formula && this.seen == seen && this.color == color
    {
      this.location := location;
      this.formula := formula;
      this.seen := seen;
      this.color := color;
    }

    /** The formula, seen value and color, as `to_json` lists them. */
    function Record(): (r: CellRecord)
      reads this
    {
      CellRecord(formula, seen, color)
    }

    /** `copy_cell`: a new cell equal to this one in all four attributes. */
    method CopyCell() returns (c: Cell)
      ensures fresh(c)
      ensures c.location == location && c.Record() == Record()
    {
      c := new Cell(location, formula, seen, color);
    }

    /** `set_seen_value`: only the seen value changes. */
    method SetSeenValue(v: SeenValue)
      modifies this
      ensures seen == v
      ensures formula == old(formula) && color == old(color)
    {
      seen := v;
    }

    /** `set_formula`: only the formula changes. */
    method SetFormula(f: string)
      modifies this
      ensures formula == f
      ensures seen == old(seen) && color == old(color)
    {
      formula := f;
    }

    /** `set_color`: only the color changes. */
    method SetColor(c: string)
      modifies this
      ensures color == c
      ensures formula == old(formula) && seen == old(seen)
    {
      color := c;
    }
  }

  /** A new cell given only its location is blank and white. */
  method NewCellDefaults(loc: Location) returns (c: Cell)
    ensures c.location == loc
    ensures c.Record() == CellRecord("", Blank, White)
  {
    c := new Cell(loc);
  }

  /**
   * A copy and its original are separate objects: setting the original's
   * formula leaves the copy with the old formula, and setting the copy's color
   * leaves the original's color alone.
   */
  method CopyIsIndependent(original: Cell, f: string, c: string) returns (copy: Cell)
    modifies original
    ensures fresh(copy)
    ensures original.formula == f && copy.formula == old(original.formula)
    ensures copy.color == c && original.color == old(original.color)
    ensures copy.location == original.location && copy.seen == original.seen
  {
    copy := original.CopyCell();
    original.SetFormula(f);
    copy.SetColor(c);
  }
}
