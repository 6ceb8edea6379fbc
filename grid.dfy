/**
 * The grid painter (src/gridpainter.ts): a `rows` x `cols` matrix of cell
 * colours, all set to the background colour when the grid is created, with a
 * `paintCell` operation that checks its arguments before changing one cell.
 * Colours are opaque strings; the cell matrix stands for the cells' CSS
 * background colours.
 */
module Grid {
  import opened Wrappers

  const DefaultCols: int := 10
  const DefaultRows: int := 25
  const DefaultInitialColor: string := "#ffffff"

  /** The options passed to the constructor; a missing option takes its default. */
  datatype GridOptions = GridOptions(cols: Option<int>, rows: Option<int>, initialColor: Option<string>)

  /** The options after the defaults have been applied. */
  datatype Dimensions = Dimensions(cols: int, rows: int, initialColor: string)

  /** The constructor's merge of the options over the defaults: supplied options win. */
  function WithDefaults(options: GridOptions): (d: Dimensions)
    ensures options.cols.None? ==> d.cols == DefaultCols
    ensures options.rows.None? ==> d.rows == DefaultRows
    ensures options.initialColor.None? ==> d.initialColor == DefaultInitialColor
    ensures options.cols.Some? ==> d.cols == options.cols.value
    ensures options.rows.Some? ==> d.rows == options.rows.value
    ensures options.initialColor.Some? ==> d.initialColor == options.initialColor.value
  {
    Dimensions(options.cols.GetOr(DefaultCols), options.rows.GetOr(DefaultRows),
               options.initialColor.GetOr(DefaultInitialColor))
  }

  /** One more than the greatest array length JavaScript allows (2^32 - 1). */
  const ArrayLengthLimit: int := 0x1_0000_0000

  /**
   * Whether building the cell matrix succeeds: `Array(rows)` throws a range
   * error for a length that is negative or at least 2^32, and so does
   * `Array(cols)`, which is only evaluated when there is a row.
   */
  predicate Buildable(d: Dimensions) {
    0 <= d.rows < ArrayLengthLimit && (0 < d.rows ==> 0 <= d.cols < ArrayLengthLimit)
  }

  /** The width of the cell matrix: `cols`, or no cells at all for a negative `cols` with no rows. */
  function Width(cols: int): nat {
    if cols < 0 then 0 else cols
  }

  /** The error the constructor throws. */
  datatype CreateError = InvalidArrayLength

  /** The value passed as `color`, as JavaScript distinguishes it. */
  datatype ColorArg = Str(s: string) | Null | Undefined | NotAString

  /** The errors `paintCell` throws, in the order it checks for them. */
  datatype PaintError =
    | XBelowZero(x: int)
    | XOverMax(x: int, max: int)
    | YBelowZero(y: int)
    | YOverMax(y: int, max: int)
    | ColorNotString

  /**
   * The checks of `paintCell`, made before anything changes: either the colour
   * to write into cell (x, y) or the error thrown.
   */
  function PaintTarget(d: Dimensions, x: int, y: int, color: ColorArg): (r: Result<string, PaintError>)
    ensures r.Ok? <==> 0 <= x < d.cols && 0 <= y < d.rows && !color.NotAString?
    ensures x < 0 ==> r == Err(XBelowZero(x))
    ensures 0 <= x && d.cols <= x ==> r == Err(XOverMax(x, d.cols - 1))
    ensures 0 <= x < d.cols && y < 0 ==> r == Err(YBelowZero(y))
    ensures 0 <= x < d.cols && 0 <= y && d.rows <= y ==> r == Err(YOverMax(y, d.rows - 1))
    ensures 0 <= x < d.cols && 0 <= y < d.rows && color.NotAString? ==> r == Err(ColorNotString)
    ensures r.Ok? && color.Str? && color.s != "" ==> r.value == color.s
    ensures r.Ok? && (color.Null? || color.Undefined? || color == Str("")) ==> r.value == d.initialColor
  {
    if x < 0 then Err(XBelowZero(x))
    else if x >= d.cols then Err(XOverMax(x, d.cols - 1))
    else if y < 0 then Err(YBelowZero(y))
    else if y >= d.rows then Err(YOverMax(y, d.rows - 1))
    else match color
      case Str(s) => Ok(if s != "" then s else d.initialColor)
      case Null => Ok(d.initialColor)
      case Undefined => Ok(d.initialColor)
      case NotAString => Err(ColorNotString)
  }

  /** The grid after cell (x, y) is set to `c`. */
  function Painted(g: seq<seq<string>>, x: int, y: int, c: string): (h: seq<seq<string>>)
    requires 0 <= y < |g| && 0 <= x < |g[y]|
    ensures |h| == |g|
    ensures forall i :: 0 <= i < |g| ==> |h[i]| == |g[i]|
    ensures h[y][x] == c
    ensures forall i, j :: 0 <= i < |g| && 0 <= j < |g[i]| && (i != y || j != x) ==> h[i][j] == g[i][j]
  {
    g[y := g[y][x := c]]
  }

  /** Painting a cell twice with the same colour is the same as painting it once. */
  lemma {:induction false} PaintIdempotent(g: seq<seq<string>>, x: int, y: int, c: string)
    requires 0 <= y < |g| && 0 <= x < |g[y]|
    ensures Painted(Painted(g, x, y, c), x, y, c) == Painted(g, x, y, c)
  {
    var once := Painted(g, x, y, c);
    var twice := Painted(once, x, y, c);
    forall i | 0 <= i < |g| ensures twice[i] == once[i] {
      assert |twice[i]| == |once[i]|;
    }
  }

  class GridPainter {
    const cols: int
    const rows: int
    const initialColor: string
    /** `cells[y, x]` is the background colour of the cell in row y, column x. */
    const cells: array2<string>

    function Dims(): Dimensions {
      Dimensions(cols, rows, initialColor)
    }

    ghost predicate Valid() {
      Buildable(Dims()) && cells.Length0 == rows && cells.Length1 == Width(cols)
    }

    /** The cell colours, row by row. */
    ghost function Colors(): (g: seq<seq<string>>)
      reads cells
      ensures |g| == cells.Length0
      ensures forall y :: 0 <= y < |g| ==> |g[y]| == cells.Length1
      ensures forall y, x :: 0 <= y < cells.Length0 && 0 <= x < cells.Length1 ==> g[y][x] == cells[y, x]
    {
      seq(cells.Length0, y requires 0 <= y < cells.Length0 reads cells =>
        seq(cells.Length1, x requires 0 <= x < cells.Length1 reads cells => cells[y, x]))
    }

    /**
     * The constructor with `gpCreator`: applies the defaults, allocates the
     * `rows` x `cols` matrix and sets every cell to the background colour.
     */
    constructor (options: GridOptions)
      requires Buildable(WithDefaults(options))
      ensures Dims() == WithDefaults(options)
      ensures Valid() && fresh(cells)
      ensures forall y, x :: 0 <= y < rows && 0 <= x < cols ==> cells[y, x] == initialColor
    {
      var d := WithDefaults(options);
      cols, rows, initialColor := d.cols, d.rows, d.initialColor;
      cells := new string[d.rows, Width(d.cols)];
      new;
      var y := 0;
      while y < rows
        invariant 0 <= y <= rows
        invariant forall i, j :: 0 <= i < y && 0 <= j < cols ==> cells[i, j] == initialColor
      {
        var x := 0;
        while x < cols
          invariant 0 <= x <= cols
          invariant forall i, j :: 0 <= i < y && 0 <= j < cols ==> cells[i, j] == initialColor
          invariant forall j :: 0 <= j < x ==> cells[y, j] == initialColor
        {
          cells[y, x] := initialColor;
          x := x + 1;
        }
        y := y + 1;
      }
    }

    /** `new GridPainter(parent, options)`, including the range error thrown for a negative length. */
    static method Create(options: GridOptions) returns (r: Result<GridPainter, CreateError>)
      ensures r.Err? <==> !Buildable(WithDefaults(options))
      ensures r.Ok? ==> fresh(r.value) && fresh(r.value.cells) && r.value.Valid()
      ensures r.Ok? ==> r.value.Dims() == WithDefaults(options)
      ensures r.Ok? ==> forall y, x :: 0 <= y < r.value.rows && 0 <= x < r.value.cols ==>
                          r.value.cells[y, x] == r.value.initialColor
    {
      if Buildable(WithDefaults(options)) {
        var g := new GridPainter(options);
        r := Ok(g);
      } else {
        r := Err(InvalidArrayLength);
      }
    }

    /**
     * `paintCell(x, y, color)`: on success cell (x, y) takes the colour (the
     * background colour for a null, undefined or empty colour) and no other
     * cell changes; on failure nothing changes.
     */
    method PaintCell(x: int, y: int, color: ColorArg) returns (r: Outcome<PaintError>)
      requires Valid()
      modifies cells
      ensures PaintTarget(Dims(), x, y, color).Err? ==>
                r == Fail(PaintTarget(Dims(), x, y, color).error) && Colors() == old(Colors())
      ensures PaintTarget(Dims(), x, y, color).Ok? ==>
                r == Pass && Colors() == Painted(old(Colors()), x, y, PaintTarget(Dims(), x, y, color).value)
    {
      var target := PaintTarget(Dims(), x, y, color);
      match target
      case Err(e) =>
        r := Fail(e);
      case Ok(c) =>
        ghost var before := Colors();
        cells[y, x] := c;
        r := Pass;
        assert Colors() == Painted(before, x, y, c) by {
          var after := Colors();
          var expected := Painted(before, x, y, c);
          forall i | 0 <= i < |after| ensures after[i] == expected[i] {
            assert |after[i]| == |expected[i]|;
          }
        }
    }
  }
}
