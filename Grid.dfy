/**
 * Grid addressing of the word clock: the 10 x 12 letter grid is wired as one
 * LED strip that snakes from the bottom-left corner (position 0) back and
 * forth up to the top-left corner (position 119).  `LedMap` is the lookup
 * table the firmware uses to turn a (row, column) cell into a strip position.
 */
module Grid {

  const Rows: nat := 10
  const Cols: nat := 12
  const GridSize: nat := Rows * Cols

  /** A cell of the letter grid: row 0 is the top line, column 0 the left edge. */
  datatype Cell = Cell(row: nat, col: nat)

  predicate InGrid(c: Cell) {
    c.row < Rows && c.col < Cols
  }

  /** The firmware's `ledMap` table, row by row. */
  const LedMapTable: seq<seq<nat>> := [
    [119, 118, 117, 116, 115, 114, 113, 112, 111, 110, 109, 108],
    [96, 97, 98, 99, 100, 101, 102, 103, 104, 105, 106, 107],
    [95, 94, 93, 92, 91, 90, 89, 88, 87, 86, 85, 84],
    [72, 73, 74, 75, 76, 77, 78, 79, 80, 81, 82, 83],
    [71, 70, 69, 68, 67, 66, 65, 64, 63, 62, 61, 60],
    [48, 49, 50, 51, 52, 53, 54, 55, 56, 57, 58, 59],
    [47, 46, 45, 44, 43, 42, 41, 40, 39, 38, 37, 36],
    [24, 25, 26, 27, 28, 29, 30, 31, 32, 33, 34, 35],
    [23, 22, 21, 20, 19, 18, 17, 16, 15, 14, 13, 12],
    [0, 1, 2, 3, 4, 5, 6, 7, 8, 9, 10, 11]]

  /** Strip position of a grid cell, read from the table. */
  function LedMap(c: Cell): (i: nat)
    requires InGrid(c)
    ensures i < GridSize
  {
    LedMapTable[c.row][c.col]
  }

  /**
   * The wiring the table encodes: rows are numbered from the bottom of the
   * strip, even rows (counting from the top) run right to left, odd rows left
   * to right, so the bottom row runs left to right from position 0.
   */
  function Serpentine(c: Cell): (i: nat)
    requires InGrid(c)
    ensures i < GridSize
  {
    (Rows - 1 - c.row) * Cols + (if c.row % 2 == 0 then Cols - 1 - c.col else c.col)
  }

  /** The cell that the strip position `i` lights: the inverse of the wiring. */
  function CellAt(i: nat): (c: Cell)
    requires i < GridSize
    ensures InGrid(c)
  {
    var row := Rows - 1 - i / Cols;
    Cell(row, if row % 2 == 0 then Cols - 1 - i % Cols else i % Cols)
  }

  /** The table agrees with the closed-form serpentine wiring in every cell. */
  lemma LedMapIsSerpentine(c: Cell)
    requires InGrid(c)
    ensures LedMap(c) == Serpentine(c)
  {
    // Enumerate the 120 cells: the disjunctions make the solver split cases.
    assert c.row == 0 || c.row == 1 || c.row == 2 || c.row == 3 || c.row == 4
      || c.row == 5 || c.row == 6 || c.row == 7 || c.row == 8 || c.row == 9;
    assert c.col == 0 || c.col == 1 || c.col == 2 || c.col == 3 || c.col == 4 || c.col == 5
      || c.col == 6 || c.col == 7 || c.col == 8 || c.col == 9 || c.col == 10 || c.col == 11;
  }

  /** Decoding the serpentine (table) position of a cell gives the cell back. */
  lemma SerpentineRoundTrip(c: Cell)
    requires InGrid(c)
    ensures CellAt(Serpentine(c)) == c
  {
    var q := Rows - 1 - c.row;
    var off := if c.row % 2 == 0 then Cols - 1 - c.col else c.col;
    assert Serpentine(c) == q * Cols + off;
    DivModOfRow(q, off);
  }

  /** Row-major split of a strip position into its row from the bottom and its offset. */
  lemma DivModOfRow(q: nat, off: nat)
    requires off < Cols
    ensures (q * Cols + off) / Cols == q && (q * Cols + off) % Cols == off
  {
  }

  /** Every cell lands on the strip, and decoding its position gives the cell back. */
  lemma LedMapRoundTrip(c: Cell)
    requires InGrid(c)
    ensures LedMap(c) < GridSize && CellAt(LedMap(c)) == c
  {
    LedMapIsSerpentine(c);
    SerpentineRoundTrip(c);
  }

  /** Every strip position 0..119 is the image of exactly the cell `CellAt(i)`. */
  lemma LedMapOnto(i: nat)
    requires i < GridSize
    ensures LedMap(CellAt(i)) == i
  {
    LedMapIsSerpentine(CellAt(i));
  }

  /** No two cells share an LED: the table is injective, hence a bijection onto 0..119. */
  lemma LedMapInjective(c1: Cell, c2: Cell)
    requires InGrid(c1) && InGrid(c2)
    ensures LedMap(c1) == LedMap(c2) ==> c1 == c2
  {
    LedMapRoundTrip(c1);
    LedMapRoundTrip(c2);
  }
}
