/** The spreadsheet as the converters see it through openpyxl: a worksheet is a
    rectangular grid of cells, as tall as its lowest written row and as wide as
    its rightmost written column; writing a cell outside the grid grows it and
    fills the new places with blank cells. */
module Spreadsheet {

  /** A cell value: empty (`None`), text, or an integer. */
  datatype Cell = Blank | Text(s: string) | Number(n: int)

  /** One spreadsheet row, column 1 first. */
  type Line = seq<Cell>

  /** All rows of a worksheet, row 1 first. */
  type Grid = seq<Line>

  function Max(a: nat, b: nat): nat
  {
    if a >= b then a else b
  }

  function Blanks(n: nat): (l: Line)
    ensures |l| == n
    ensures forall i :: 0 <= i < n ==> l[i] == Blank
  {
    seq(n, _ => Blank)
  }

  function BlankRows(count: nat, width: nat): (g: Grid)
    ensures |g| == count
    ensures forall i :: 0 <= i < count ==> g[i] == Blanks(width)
  {
    seq(count, _ => Blanks(width))
  }

  ghost predicate Rect(g: Grid, width: nat)
  {
    forall r :: 0 <= r < |g| ==> |g[r]| == width
  }

  /** The cells of a worksheet as openpyxl keeps them: a dictionary from
      (row, column), both 1-based, to value, with the largest row and column
      written so far. */
  datatype CellStore = CellStore(cells: map<(nat, nat), Cell>, maxRow: nat, maxColumn: nat)

  /** Every stored cell lies within the maxima. */
  ghost predicate Bounded(s: CellStore)
  {
    forall p :: p in s.cells ==> 1 <= p.0 <= s.maxRow && 1 <= p.1 <= s.maxColumn
  }

  /** The contents after `sheet.cell(row=row, column=column, value=v)`. */
  function Put(s: CellStore, row: nat, column: nat, v: Cell): CellStore
    requires row >= 1 && column >= 1
  {
    CellStore(s.cells[(row, column) := v], Max(s.maxRow, row), Max(s.maxColumn, column))
  }

  /** Writing a cell keeps every stored cell within the maxima. */
  lemma {:induction false} PutBounded(s: CellStore, row: nat, column: nat, v: Cell)
    requires Bounded(s) && row >= 1 && column >= 1
    ensures Bounded(Put(s, row, column, v))
  {
  }

  /** The value at (row, column); never-written cells are blank. */
  function CellAt(s: CellStore, row: nat, column: nat): Cell
  {
    if (row, column) in s.cells then s.cells[(row, column)] else Blank
  }

  /** `sheet.iter_rows(values_only=True)`: every row from 1 to the largest row
      written, each with every column from 1 to the largest column written. */
  function Values(s: CellStore): (g: Grid)
    ensures |g| == s.maxRow && Rect(g, s.maxColumn)
    ensures forall r, c :: 0 <= r < s.maxRow && 0 <= c < s.maxColumn ==> g[r][c] == CellAt(s, r + 1, c + 1)
  {
    seq(s.maxRow, r requires 0 <= r < s.maxRow =>
      seq(s.maxColumn, c requires 0 <= c < s.maxColumn => CellAt(s, r + 1, c + 1)))
  }

  /** A workbook as read: its sheet titles in order and each sheet's values. */
  datatype Workbook = Workbook(names: seq<string>, sheets: map<string, Grid>)

  /** An openpyxl worksheet: its title and its cells. */
  class Worksheet {
    const title: string
    var cells: map<(nat, nat), Cell>
    var maxRow: nat
    var maxColumn: nat

    function Contents(): CellStore
      reads this
    {
      CellStore(cells, maxRow, maxColumn)
    }

    ghost predicate Valid()
      reads this
    {
      Bounded(Contents())
    }

    /** `wb.create_sheet(title)`: a new, empty worksheet. */
    constructor (title: string)
      ensures Valid() && this.title == title && Contents() == CellStore(map[], 0, 0)
    {
      this.title := title;
      cells := map[];
      maxRow := 0;
      maxColumn := 0;
    }

    /** `sheet.cell(row=row, column=column, value=value)`. */
    method SetCell(row: nat, column: nat, value: string)
      requires Valid() && row >= 1 && column >= 1
      modifies this
      ensures Valid()
      ensures Contents() == Put(old(Contents()), row, column, Text(value))
    {
      PutBounded(Contents(), row, column, Text(value));
      cells := cells[(row, column) := Text(value)];
      maxRow := Max(maxRow, row);
      maxColumn := Max(maxColumn, column);
    }
  }
}
