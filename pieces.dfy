/**
 * The piece catalog `PIECES` (src/constants/pieces.ts): seven constant records,
 * each with a 4x4 bitmap, a colour, an orientation count and `maxLines`.
 */
module Pieces {

  /** The arguments of the `rgb(r, g, b)` helper that builds each piece's colour string. */
  datatype Rgb = Rgb(r: int, g: int, b: int)

  /** The `Piece` record. */
  datatype Piece = Piece(shape: seq<seq<int>>, color: Rgb, orientations: int, maxLines: int)

  const O: Piece := Piece([[0, 0, 0, 0], [0, 1, 1, 0], [0, 1, 1, 0], [0, 0, 0, 0]], Rgb(255, 255, 0), 1, 2)
  const I: Piece := Piece([[0, 0, 0, 0], [1, 1, 1, 1], [0, 0, 0, 0], [0, 0, 0, 0]], Rgb(0, 255, 255), 2, 4)
  const S: Piece := Piece([[0, 0, 0, 0], [0, 0, 1, 1], [0, 1, 1, 0], [0, 0, 0, 0]], Rgb(0, 255, 0), 2, 2)
  const Z: Piece := Piece([[0, 0, 0, 0], [0, 1, 1, 0], [0, 0, 1, 1], [0, 0, 0, 0]], Rgb(255, 0, 0), 2, 2)
  const L: Piece := Piece([[0, 0, 0, 0], [0, 1, 1, 1], [0, 1, 0, 0], [0, 0, 0, 0]], Rgb(255, 165, 0), 4, 3)
  const J: Piece := Piece([[0, 0, 0, 0], [0, 1, 1, 1], [0, 0, 0, 1], [0, 0, 0, 0]], Rgb(81, 81, 255), 4, 3)
  const T: Piece := Piece([[0, 0, 0, 0], [0, 1, 1, 1], [0, 0, 1, 0], [0, 0, 0, 0]], Rgb(208, 28, 208), 4, 2)

  /** `PIECES`: the catalog, keyed by the piece's letter. */
  const Catalog: map<string, Piece> :=
    map["O" := O, "I" := I, "S" := S, "Z" := Z, "L" := L, "J" := J, "T" := T]

  /** A 4x4 matrix whose entries are all 0 or 1. */
  predicate IsBitmap(shape: seq<seq<int>>) {
    |shape| == 4 &&
    forall r :: 0 <= r < 4 ==> |shape[r]| == 4 && forall c :: 0 <= c < 4 ==> shape[r][c] in {0, 1}
  }

  /** The number of occupied cells of a bitmap: the sum of all its entries. */
  function CellCount(shape: seq<seq<int>>): (n: int)
    requires IsBitmap(shape)
    ensures 0 <= n <= 16
  {
    RowSum(shape[0]) + RowSum(shape[1]) + RowSum(shape[2]) + RowSum(shape[3])
  }

  /** The number of occupied cells of one 0/1 row of four. */
  function RowSum(row: seq<int>): (n: int)
    requires |row| == 4 && forall c :: 0 <= c < 4 ==> row[c] in {0, 1}
    ensures 0 <= n <= 4
  {
    row[0] + row[1] + row[2] + row[3]
  }

  /** Whether row `r` of the bitmap has an occupied cell. */
  predicate RowOccupied(shape: seq<seq<int>>, r: int)
    requires IsBitmap(shape)
  {
    0 <= r < 4 && 1 in shape[r]
  }

  /** Whether column `c` of the bitmap has an occupied cell. */
  predicate ColumnOccupied(shape: seq<seq<int>>, c: int)
    requires IsBitmap(shape)
  {
    0 <= c < 4 && (shape[0][c] == 1 || shape[1][c] == 1 || shape[2][c] == 1 || shape[3][c] == 1)
  }

  /**
   * The extent of a set of occupied indices within 0..3: last occupied
   * index minus first occupied index, plus one, or 0 when none is occupied.
   */
  function Extent(occupied: seq<bool>): (e: int)
    requires |occupied| == 4
    ensures 0 <= e <= 4
    ensures e == 0 <==> forall i :: 0 <= i < 4 ==> !occupied[i]
  {
    var first := FirstTrue(occupied, 0);
    var last := LastTrue(occupied, 4);
    if first == 4 then 0 else assert occupied[first]; last - first
  }

  /** The least index at or after `from` that holds true, or 4 when there is none. */
  function FirstTrue(occupied: seq<bool>, from: nat): (i: nat)
    requires |occupied| == 4 && from <= 4
    ensures from <= i <= 4
    ensures i < 4 ==> occupied[i]
    ensures forall j :: from <= j < i ==> !occupied[j]
    decreases 4 - from
  {
    if from == 4 || occupied[from] then from else FirstTrue(occupied, from + 1)
  }

  /** One more than the greatest index before `upto` that holds true, or 0 when there is none. */
  function LastTrue(occupied: seq<bool>, upto: nat): (i: nat)
    requires |occupied| == 4 && upto <= 4
    ensures i <= upto
    ensures 0 < i ==> occupied[i - 1]
    ensures forall j :: i <= j < upto ==> !occupied[j]
  {
    if upto == 0 || occupied[upto - 1] then upto else LastTrue(occupied, upto - 1)
  }

  /** The height and the width of the bitmap's occupied bounding box. */
  function BoxHeight(shape: seq<seq<int>>): int
    requires IsBitmap(shape)
  {
    Extent(seq(4, r requires 0 <= r < 4 => RowOccupied(shape, r)))
  }

  function BoxWidth(shape: seq<seq<int>>): int
    requires IsBitmap(shape)
  {
    Extent(seq(4, c requires 0 <= c < 4 => ColumnOccupied(shape, c)))
  }

  /** The longer side of the bitmap's occupied bounding box. */
  function LongerSide(shape: seq<seq<int>>): int
    requires IsBitmap(shape)
  {
    var h, w := BoxHeight(shape), BoxWidth(shape);
    if h >= w then h else w
  }

  /** The (row, column) positions of the occupied cells of a bitmap. */
  function Cells(shape: seq<seq<int>>): set<(int, int)>
    requires IsBitmap(shape)
  {
    set r, c | 0 <= r < 4 && 0 <= c < 4 && shape[r][c] == 1 :: (r, c)
  }

  /** The cells that the bitmap literal `shape` occupies, given by its rows. */
  lemma CellsOf(shape: seq<seq<int>>, cells: set<(int, int)>)
    requires IsBitmap(shape)
    requires forall r, c :: 0 <= r < 4 && 0 <= c < 4 ==> (shape[r][c] == 1 <==> (r, c) in cells)
    requires forall p :: p in cells ==> 0 <= p.0 < 4 && 0 <= p.1 < 4
    ensures Cells(shape) == cells
  {
  }

  lemma CellsO() ensures Cells(O.shape) == {(1, 1), (1, 2), (2, 1), (2, 2)} { CellsOf(O.shape, {(1, 1), (1, 2), (2, 1), (2, 2)}); }
  lemma CellsI() ensures Cells(I.shape) == {(1, 0), (1, 1), (1, 2), (1, 3)} { CellsOf(I.shape, {(1, 0), (1, 1), (1, 2), (1, 3)}); }
  lemma CellsS() ensures Cells(S.shape) == {(1, 2), (1, 3), (2, 1), (2, 2)} { CellsOf(S.shape, {(1, 2), (1, 3), (2, 1), (2, 2)}); }
  lemma CellsZ() ensures Cells(Z.shape) == {(1, 1), (1, 2), (2, 2), (2, 3)} { CellsOf(Z.shape, {(1, 1), (1, 2), (2, 2), (2, 3)}); }
  lemma CellsL() ensures Cells(L.shape) == {(1, 1), (1, 2), (1, 3), (2, 1)} { CellsOf(L.shape, {(1, 1), (1, 2), (1, 3), (2, 1)}); }
  lemma CellsJ() ensures Cells(J.shape) == {(1, 1), (1, 2), (1, 3), (2, 3)} { CellsOf(J.shape, {(1, 1), (1, 2), (1, 3), (2, 3)}); }
  lemma CellsT() ensures Cells(T.shape) == {(1, 1), (1, 2), (1, 3), (2, 2)} { CellsOf(T.shape, {(1, 1), (1, 2), (1, 3), (2, 2)}); }

  /**
   * The occupied cells of each catalog piece, as (row, column) pairs: O the
   * 2x2 square in the middle, I the whole of row 1, S and Z two cells in each
   * of rows 1 and 2, and L, J and T three cells of row 1 and one of row 2.
   */
  lemma CatalogCells()
    ensures Cells(Catalog["O"].shape) == {(1, 1), (1, 2), (2, 1), (2, 2)}
    ensures Cells(Catalog["I"].shape) == {(1, 0), (1, 1), (1, 2), (1, 3)}
    ensures Cells(Catalog["S"].shape) == {(1, 2), (1, 3), (2, 1), (2, 2)}
    ensures Cells(Catalog["Z"].shape) == {(1, 1), (1, 2), (2, 2), (2, 3)}
    ensures Cells(Catalog["L"].shape) == {(1, 1), (1, 2), (1, 3), (2, 1)}
    ensures Cells(Catalog["J"].shape) == {(1, 1), (1, 2), (1, 3), (2, 3)}
    ensures Cells(Catalog["T"].shape) == {(1, 1), (1, 2), (1, 3), (2, 2)}
  {
    CellsO(); CellsI(); CellsS(); CellsZ(); CellsL(); CellsJ(); CellsT();
  }

  /** The catalog has exactly the seven letters O, I, S, Z, L, J and T as keys. */
  lemma CatalogKeys()
    ensures Catalog.Keys == {"O", "I", "S", "Z", "L", "J", "T"}
    ensures |Catalog| == 7
  {
  }

  /** Every shape is a 4x4 matrix of zeros and ones. */
  lemma ShapesAreBitmaps()
    ensures forall k :: k in Catalog ==> IsBitmap(Catalog[k].shape)
  {
  }

  /** Every shape has exactly four occupied cells. */
  lemma FourCellsEach()
    ensures forall k :: k in Catalog ==> IsBitmap(Catalog[k].shape) && CellCount(Catalog[k].shape) == 4
  {
  }

  /** The first and the last row of every shape are empty. */
  lemma EdgeRowsEmpty()
    ensures forall k :: k in Catalog ==>
              |Catalog[k].shape| == 4 && Catalog[k].shape[0] == [0, 0, 0, 0] && Catalog[k].shape[3] == [0, 0, 0, 0]
  {
  }

  /** O has one orientation; I, S and Z have two; L, J and T have four. */
  lemma OrientationCounts()
    ensures Catalog["O"].orientations == 1
    ensures Catalog["I"].orientations == 2 && Catalog["S"].orientations == 2 && Catalog["Z"].orientations == 2
    ensures Catalog["L"].orientations == 4 && Catalog["J"].orientations == 4 && Catalog["T"].orientations == 4
  {
  }

  /** `maxLines` lies in 1..4, and I is the only piece with 4. */
  lemma MaxLinesRange()
    ensures forall k :: k in Catalog ==> 1 <= Catalog[k].maxLines <= 4
    ensures forall k :: k in Catalog ==> (Catalog[k].maxLines == 4 <==> k == "I")
  {
  }

  /** The bounding box of a bitmap, from the occupancy of its rows and columns. */
  lemma BoxOf(shape: seq<seq<int>>, rows: seq<bool>, cols: seq<bool>)
    requires IsBitmap(shape) && |rows| == 4 && |cols| == 4
    requires forall r :: 0 <= r < 4 ==> (rows[r] <==> RowOccupied(shape, r))
    requires forall c :: 0 <= c < 4 ==> (cols[c] <==> ColumnOccupied(shape, c))
    ensures BoxHeight(shape) == Extent(rows) && BoxWidth(shape) == Extent(cols)
  {
    assert seq(4, r requires 0 <= r < 4 => RowOccupied(shape, r)) == rows;
    assert seq(4, c requires 0 <= c < 4 => ColumnOccupied(shape, c)) == cols;
  }

  /** The occupancy of rows 1 and 2 only, and of columns 1 to 3 only. */
  const MiddleTwo: seq<bool> := [false, true, true, false]
  const RightThree: seq<bool> := [false, true, true, true]

  lemma MiddleTwoExtent() ensures Extent(MiddleTwo) == 2 {}
  lemma RightThreeExtent() ensures Extent(RightThree) == 3 {}

  /** O spans 2 rows and 2 columns. */
  lemma BoxO() ensures LongerSide(O.shape) == 2 { MiddleTwoExtent(); BoxOf(O.shape, MiddleTwo, MiddleTwo); }

  /** I spans 1 row and 4 columns. */
  lemma BoxI()
    ensures LongerSide(I.shape) == 4
  {
    assert Extent([false, true, false, false]) == 1;
    assert Extent([true, true, true, true]) == 4;
    BoxOf(I.shape, [false, true, false, false], [true, true, true, true]);
  }

  /** S, Z, L, J and T each span 2 rows and 3 columns. */
  lemma BoxS() ensures LongerSide(S.shape) == 3 { MiddleTwoExtent(); RightThreeExtent(); BoxOf(S.shape, MiddleTwo, RightThree); }
  lemma BoxZ() ensures LongerSide(Z.shape) == 3 { MiddleTwoExtent(); RightThreeExtent(); BoxOf(Z.shape, MiddleTwo, RightThree); }
  lemma BoxL() ensures LongerSide(L.shape) == 3 { MiddleTwoExtent(); RightThreeExtent(); BoxOf(L.shape, MiddleTwo, RightThree); }
  lemma BoxJ() ensures LongerSide(J.shape) == 3 { MiddleTwoExtent(); RightThreeExtent(); BoxOf(J.shape, MiddleTwo, RightThree); }
  lemma BoxT() ensures LongerSide(T.shape) == 3 { MiddleTwoExtent(); RightThreeExtent(); BoxOf(T.shape, MiddleTwo, RightThree); }

  /** As written, no piece's `maxLines` exceeds the longer side of its occupied bounding box. */
  lemma MaxLinesWithinBoundingBox()
    ensures forall k :: k in Catalog ==>
              IsBitmap(Catalog[k].shape) && Catalog[k].maxLines <= LongerSide(Catalog[k].shape)
  {
    ShapesAreBitmaps();
    forall k | k in Catalog
      ensures IsBitmap(Catalog[k].shape) && Catalog[k].maxLines <= LongerSide(Catalog[k].shape)
    {
      if k == "O" { BoxO(); }
      else if k == "I" { BoxI(); }
      else if k == "S" { BoxS(); }
      else if k == "Z" { BoxZ(); }
      else if k == "L" { BoxL(); }
      else if k == "J" { BoxJ(); }
      else { assert k == "T"; BoxT(); }
    }
  }
}
