/** Row helpers of yxf/xlsform.py: trimming trailing empty cells and splitting a
    sheet into its header row and its content rows. */
module XlsForm {
  import opened Wrappers
  import opened Spreadsheet
  import opened Errors
  import opened Strings

  /** The row without its trailing blank cells. The three ensures pin the
      result down: a prefix of the row, ending in a non-blank cell (or empty),
      and everything cut off is blank. */
  function Truncated(row: Line): (r: Line)
    ensures |r| <= |row| && r == row[..|r|]
    ensures r == [] || r[|r| - 1] != Blank
    ensures forall i :: |r| <= i < |row| ==> row[i] == Blank
  {
    if row == [] || row[|row| - 1] != Blank then row else Truncated(row[..|row| - 1])
  }

  /** Any prefix with those properties is the truncated row. */
  lemma {:induction false} TruncatedUnique(row: Line, p: Line)
    requires |p| <= |row| && p == row[..|p|]
    requires p == [] || p[|p| - 1] != Blank
    requires forall i :: |p| <= i < |row| ==> row[i] == Blank
    ensures Truncated(row) == p
  {
    if |row| > |p| {
      assert row[..|row| - 1][..|p|] == p;
      TruncatedUnique(row[..|row| - 1], p);
    }
  }

  /** Truncating twice is truncating once. */
  lemma {:induction false} TruncatedIdempotent(row: Line)
    ensures Truncated(Truncated(row)) == Truncated(row)
  {
    var t := Truncated(row);
    assert t[..|t|] == t;
    TruncatedUnique(t, t);
  }

  /** Blank cells followed by a filled one are kept. */
  lemma {:induction false} TruncatedKeepsInterior(row: Line, i: nat)
    requires i < |row| && exists j :: i < j < |row| && row[j] != Blank
    ensures i < |Truncated(row)| && Truncated(row)[i] == row[i]
  {
  }

  /** `truncate_row`: pop blank cells off the end while there are any. */
  method TruncateRow(row: Line) returns (r: Line)
    ensures r == Truncated(row)
  {
    r := row;
    while r != [] && r[|r| - 1] == Blank
      invariant |r| <= |row| && r == row[..|r|]
      invariant forall i :: |r| <= i < |row| ==> row[i] == Blank
      decreases |r|
    {
      r := r[..|r| - 1];
    }
    TruncatedUnique(row, r);
  }

  /** `headers(sheet)`: the truncated first row; `next()` raises on a sheet with
      no rows at all. */
  function Headers(sheet: Grid): (r: Result<Line, Error>)
    ensures r.Ok? <==> |sheet| > 0
    ensures r.Ok? ==> r.value == Truncated(sheet[0])
    ensures r.Err? ==> r.error == StopIteration
  {
    if sheet == [] then Err(StopIteration) else Ok(Truncated(sheet[0]))
  }

  /** `content_rows(sheet)`: every row after the first, in order. */
  function ContentRows(sheet: Grid): (r: Result<Grid, Error>)
    ensures r.Ok? <==> |sheet| > 0
    ensures r.Ok? ==> |r.value| == |sheet| - 1
    ensures r.Ok? ==> forall i :: 0 <= i < |r.value| ==> r.value[i] == sheet[i + 1]
    ensures r.Err? ==> r.error == StopIteration
  {
    if sheet == [] then Err(StopIteration) else Ok(sheet[1..])
  }

  /** The text a cell is read as: every falsy value (`None`, `""`, `0`) is the
      empty string, any other value its `str()`. excel.py:62 calls this as
      `xlsform.stringify_value`, a name this file does not define; the
      definition is the one of `_stringify_value` in yxf/__main__.py. */
  function StringifyValue(c: Cell): (r: string)
    ensures r == "" <==> c == Blank || c == Text("") || c == Number(0)
    ensures c.Text? ==> r == c.s
    ensures c.Number? && c.n != 0 ==> r == IntToString(c.n)
  {
    match c
    case Blank => ""
    case Text(s) => s
    case Number(n) => if n == 0 then "" else IntToString(n)
  }
}
