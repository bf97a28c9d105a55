/** The sheet layout `_convert_to_sheet` produces (yxf/excel.py:69-111) and
    the round trip through `_convert_sheet` (yxf/excel.py:49-66): which cell
    holds what once every write has happened, where each row lands, and what
    reading the sheet back returns. */
module ExcelLayout {
  import opened Wrappers
  import opened Rows
  import opened Spreadsheet
  import opened XlsForm
  import opened Excel
  import opened Errors
  import opened Strings

  /* ---------------------------------------------------------------- */
  /* Cells after a sequence of writes                                 */
  /* ---------------------------------------------------------------- */

  /** The value of the last write to (row, column), if there is one. */
  function LastWrite(ws: seq<Write>, row: nat, column: nat): Option<string>
  {
    if ws == [] then None
    else
      var w := ws[|ws| - 1];
      if w.row == row && w.column == column then Some(w.value)
      else LastWrite(ws[..|ws| - 1], row, column)
  }

  /** A cell holds the last value written to it, or what it held before. */
  lemma {:induction false} ApplyWritesCell(s: CellStore, ws: seq<Write>, row: nat, column: nat)
    ensures CellAt(ApplyWrites(s, ws), row, column)
         == if LastWrite(ws, row, column).Some? then Text(LastWrite(ws, row, column).value) else CellAt(s, row, column)
  {
    if ws != [] {
      ApplyWritesCell(s, ws[..|ws| - 1], row, column);
    }
  }

  /** Writes keep every stored cell within the maxima. */
  lemma {:induction false} ApplyWritesBounded(s: CellStore, ws: seq<Write>)
    requires Bounded(s)
    ensures Bounded(ApplyWrites(s, ws))
  {
    if ws != [] {
      var w := ws[|ws| - 1];
      ApplyWritesBounded(s, ws[..|ws| - 1]);
      PutBounded(ApplyWrites(s, ws[..|ws| - 1]), w.row, w.column, Text(w.value));
    }
  }

  lemma {:induction false} LastWriteConcat(a: seq<Write>, b: seq<Write>, row: nat, column: nat)
    ensures LastWrite(a + b, row, column)
         == if LastWrite(b, row, column).Some? then LastWrite(b, row, column) else LastWrite(a, row, column)
  {
    if b == [] {
      assert a + b == a;
    } else {
      assert (a + b)[..|a + b| - 1] == a + b[..|b| - 1];
      LastWriteConcat(a, b[..|b| - 1], row, column);
    }
  }

  /** The header writes put `keys[c - 1]` in column `c` of row 1 and nothing else. */
  lemma {:induction false} HeaderWritesAt(keys: seq<string>, n: nat, row: nat, column: nat)
    requires n <= |keys|
    ensures LastWrite(HeaderWrites(keys)[..n], row, column)
         == if row == 1 && 1 <= column <= n then Some(keys[column - 1]) else None
  {
    if n > 0 {
      var h := HeaderWrites(keys);
      assert h[..n][..n - 1] == h[..n - 1];
      HeaderWritesAt(keys, n - 1, row, column);
    }
  }

  /** A row's writes put its value for `keys[c - 1]`, if any, in column `c`
      of the target row and nothing else. */
  lemma {:induction false} RowWritesAt(r: Row, keys: seq<string>, target: Index1, n: nat, row: nat, column: nat)
    requires n <= |keys|
    ensures LastWrite(RowWrites(r, keys, target, n), row, column)
         == if row == target && 1 <= column <= n then Get(r, keys[column - 1]) else None
  {
    if n > 0 {
      RowWritesAt(r, keys, target, n - 1, row, column);
      var value := Get(r, keys[n - 1]);
      if value.Some? {
        LastWriteConcat(RowWrites(r, keys, target, n - 1), [Write(target, n, value.value)], row, column);
      } else {
        assert RowWrites(r, keys, target, n) == RowWrites(r, keys, target, n - 1) + [];
        assert RowWrites(r, keys, target, n - 1) + [] == RowWrites(r, keys, target, n - 1);
      }
    }
  }

  /* ---------------------------------------------------------------- */
  /* Target rows                                                      */
  /* ---------------------------------------------------------------- */

  /** Later rows land strictly lower. */
  lemma {:induction false} TargetRowIncreasing(rows: seq<Row>, j: nat, k: nat)
    requires j < k < |rows|
    ensures TargetRow(rows, j) < TargetRow(rows, k)
  {
    if j < k - 1 {
      TargetRowIncreasing(rows, j, k - 1);
    }
  }

  /** The number of `begin_group` rows among the first `n`. */
  function Groups(rows: seq<Row>, n: nat): nat
    requires n <= |rows|
  {
    if n == 0 then 0 else Groups(rows, n - 1) + (if BeginsGroup(rows[n - 1]) then 1 else 0)
  }

  /** The number of rows among the first `n` whose `list_name` differs from
      the row before. */
  function Changes(rows: seq<Row>, n: nat): nat
    requires n <= |rows|
  {
    if n <= 1 then 0
    else Changes(rows, n - 1) + (if ListName(rows[n - 1]) != ListName(rows[n - 2]) then 1 else 0)
  }

  /** Row `k` lands two rows down (below the header row), one row further per
      earlier row, and one more per group start and per list-name change up
      to and including it. */
  lemma {:induction false} TargetRowCounts(rows: seq<Row>, k: nat)
    requires k < |rows|
    ensures TargetRow(rows, k) == 2 + k + Groups(rows, k + 1) + Changes(rows, k + 1)
  {
    if k > 0 {
      TargetRowCounts(rows, k - 1);
    }
  }

  /** The target row of every row, in order. */
  function Targets(rows: seq<Row>): (ts: seq<nat>)
    ensures |ts| == |rows|
    ensures forall k {:trigger ts[k]} :: 0 <= k < |rows| ==> ts[k] == TargetRow(rows, k)
  {
    seq(|rows|, k requires 0 <= k < |rows| => TargetRow(rows, k))
  }

  /** Sheet rows, strictly increasing and below the header row. */
  ghost predicate Increasing(ts: seq<nat>)
  {
    && (forall k :: 0 <= k < |ts| ==> ts[k] >= 2)
    && (forall j, k :: 0 <= j < k < |ts| ==> ts[j] < ts[k])
  }

  lemma {:induction false} TargetsIncreasing(rows: seq<Row>)
    ensures Increasing(Targets(rows))
  {
    forall j, k | 0 <= j < k < |rows| ensures Targets(rows)[j] < Targets(rows)[k] {
      TargetRowIncreasing(rows, j, k);
    }
  }

  /** The row among the first `n` that lands on sheet row `row`, if any. */
  function RowAt(ts: seq<nat>, n: nat, row: nat): (k: Option<nat>)
    requires n <= |ts|
    ensures k.Some? ==> k.value < n && ts[k.value] == row
  {
    if n == 0 then None
    else if ts[n - 1] == row then Some(n - 1)
    else RowAt(ts, n - 1, row)
  }

  /** No row among the first `n` lands on `row` exactly when `RowAt` finds none. */
  lemma {:induction false} RowAtNone(ts: seq<nat>, n: nat, row: nat)
    requires n <= |ts|
    ensures RowAt(ts, n, row).None? <==> forall k :: 0 <= k < n ==> ts[k] != row
  {
    if n > 0 {
      RowAtNone(ts, n - 1, row);
      assert RowAt(ts, n, row) == if ts[n - 1] == row then Some(n - 1) else RowAt(ts, n - 1, row);
    }
  }

  /** Each row is found on its own target row. */
  lemma {:induction false} RowAtTarget(ts: seq<nat>, n: nat, k: nat)
    requires Increasing(ts) && k < n <= |ts|
    ensures RowAt(ts, n, ts[k]) == Some(k)
  {
    if k < n - 1 {
      RowAtTarget(ts, n - 1, k);
    }
  }

  /* ---------------------------------------------------------------- */
  /* The written sheet                                                */
  /* ---------------------------------------------------------------- */

  /** The cells of the first `n` rows: on the target row of one of them, its
      value for the column's key; nowhere else. */
  lemma {:induction false} DataWritesAt(rows: seq<Row>, keys: seq<string>, n: nat, row: nat, column: nat)
    requires n <= |rows|
    ensures LastWrite(DataWrites(rows, keys, n), row, column) == RowValueAt(rows, keys, RowAt(Targets(rows), n, row), column)
  {
    if n > 0 {
      DataWritesAt(rows, keys, n - 1, row, column);
      if row == TargetRow(rows, n - 1) {
        DataWritesOnTarget(rows, keys, n, column);
      } else {
        DataWritesOffTarget(rows, keys, n, row, column);
      }
    }
  }

  /** The cells of the sheet row of row n - 1 hold that row's values. */
  lemma {:induction false} DataWritesOnTarget(rows: seq<Row>, keys: seq<string>, n: nat, column: nat)
    requires 0 < n <= |rows|
    requires LastWrite(DataWrites(rows, keys, n - 1), TargetRow(rows, n - 1), column)
      == RowValueAt(rows, keys, RowAt(Targets(rows), n - 1, TargetRow(rows, n - 1)), column)
    ensures LastWrite(DataWrites(rows, keys, n), TargetRow(rows, n - 1), column)
      == RowValueAt(rows, keys, Some(n - 1), column)
    ensures RowAt(Targets(rows), n, TargetRow(rows, n - 1)) == Some(n - 1)
  {
    assert Targets(rows)[n - 1] == TargetRow(rows, n - 1);
    TargetNotEarlier(rows, n);
    OnTargetWrites(rows, keys, n, column);
  }

  /** With nothing written there before, the cells of the sheet row of row
      n - 1 hold that row's values. */
  lemma {:induction false} OnTargetWrites(rows: seq<Row>, keys: seq<string>, n: nat, column: nat)
    requires 0 < n <= |rows|
    requires LastWrite(DataWrites(rows, keys, n - 1), TargetRow(rows, n - 1), column) == None
    ensures LastWrite(DataWrites(rows, keys, n), TargetRow(rows, n - 1), column)
      == RowValueAt(rows, keys, Some(n - 1), column)
  {
    var target := TargetRow(rows, n - 1);
    var before := DataWrites(rows, keys, n - 1);
    assert DataWrites(rows, keys, n) == before + RowWrites(rows[n - 1], keys, target, |keys|);
    RowWritesAfter(before, rows[n - 1], keys, target, column);
  }

  /** A row's writes, appended to writes that left a cell of its sheet row
      alone, leave there the row's value for that column. */
  lemma {:induction false} RowWritesAfter(before: seq<Write>, r: Row, keys: seq<string>, target: Index1, column: nat)
    requires LastWrite(before, target, column) == None
    ensures LastWrite(before + RowWrites(r, keys, target, |keys|), target, column)
      == if 1 <= column <= |keys| then Get(r, keys[column - 1]) else None
  {
    var written := RowWrites(r, keys, target, |keys|);
    RowWritesAt(r, keys, target, |keys|, target, column);
    LastWriteConcat(before, written, target, column);
  }

  /** Row n - 1 writes nothing outside its own sheet row. */
  lemma {:induction false} DataWritesOffTarget(rows: seq<Row>, keys: seq<string>, n: nat, row: nat, column: nat)
    requires 0 < n <= |rows| && row != TargetRow(rows, n - 1)
    ensures LastWrite(DataWrites(rows, keys, n), row, column) == LastWrite(DataWrites(rows, keys, n - 1), row, column)
    ensures RowAt(Targets(rows), n, row) == RowAt(Targets(rows), n - 1, row)
  {
    var target := TargetRow(rows, n - 1);
    var before := DataWrites(rows, keys, n - 1);
    var written := RowWrites(rows[n - 1], keys, target, |keys|);
    assert DataWrites(rows, keys, n) == before + written;
    assert Targets(rows)[n - 1] == target;
    RowWritesAt(rows[n - 1], keys, target, |keys|, row, column);
    LastWriteConcat(before, written, row, column);
  }

  /** The value a cell holds when it lies on the sheet row of row `at`, in column `column`. */
  function RowValueAt(rows: seq<Row>, keys: seq<string>, at: Option<nat>, column: nat): Option<string>
    requires at.Some? ==> at.value < |rows|
  {
    match at
    case Some(k) => if 1 <= column <= |keys| then Get(rows[k], keys[column - 1]) else None
    case None => None
  }

  /** No earlier row lands on the sheet row of row n - 1. */
  lemma {:induction false} TargetNotEarlier(rows: seq<Row>, n: nat)
    requires 0 < n <= |rows|
    ensures RowAt(Targets(rows), n - 1, TargetRow(rows, n - 1)).None?
  {
    TargetsIncreasing(rows);
    RowAtNone(Targets(rows), n - 1, TargetRow(rows, n - 1));
  }

  /** A cell value written as text, or a blank cell. */
  function CellOf(v: Option<string>): Cell
  {
    if v.Some? then Text(v.value) else Blank
  }

  /** The worksheet `_convert_to_sheet` leaves behind in a new, empty sheet. */
  function Written(rows: seq<Row>, keys: seq<string>): CellStore
  {
    ApplyWrites(CellStore(map[], 0, 0), SheetWrites(rows, keys))
  }

  /** The layout of the written sheet, cell by cell: row 1 holds the keys in
      order; the target row of each row before the first one with a stray key
      holds that row's value for each key in the key's column; every other
      cell is blank. */
  lemma {:induction false} WrittenCell(rows: seq<Row>, keys: seq<string>, row: nat, column: nat)
    ensures CellAt(Written(rows, keys), row, column)
         == if column < 1 || column > |keys| then Blank
            else if row == 1 then Text(keys[column - 1])
            else match RowAt(Targets(rows), FirstStray(rows, keys), row)
              case Some(k) => CellOf(Get(rows[k], keys[column - 1]))
              case None => Blank
  {
    var header := HeaderWrites(keys);
    var data := DataWrites(rows, keys, FirstStray(rows, keys));
    ApplyWritesCell(CellStore(map[], 0, 0), header + data, row, column);
    LastWriteConcat(header, data, row, column);
    assert header[..|keys|] == header;
    HeaderWritesAt(keys, |keys|, row, column);
    DataWritesAt(rows, keys, FirstStray(rows, keys), row, column);
  }

  /** Every stored cell of the written sheet lies within its maxima. */
  lemma {:induction false} WrittenBounded(rows: seq<Row>, keys: seq<string>)
    ensures Bounded(Written(rows, keys))
  {
    ApplyWritesBounded(CellStore(map[], 0, 0), SheetWrites(rows, keys));
  }

  /* ---------------------------------------------------------------- */
  /* Reading the written sheet back                                   */
  /* ---------------------------------------------------------------- */

  /** The row's entries in column order: for each of `keys[..n]` in turn, the
      row's value for it, if it has one; a key repeated in `keys` keeps the
      place of its first column. */
  function InColumnOrder(r: Row, keys: seq<string>, n: nat): Row
    requires n <= |keys|
  {
    if n == 0 then []
    else
      var value := Get(r, keys[n - 1]);
      InColumnOrder(r, keys, n - 1)
        + (if value.Some? && keys[n - 1] !in keys[..n - 1] then [Entry(keys[n - 1], value.value)] else [])
  }

  /** Putting a row in column order keeps its value for every column key and
      drops every other key. */
  lemma {:induction false} InColumnOrderGet(r: Row, keys: seq<string>, n: nat, k: string)
    requires n <= |keys|
    ensures Get(InColumnOrder(r, keys, n), k) == if k in keys[..n] then Get(r, k) else None
  {
    if n > 0 {
      InColumnOrderGet(r, keys, n - 1, k);
      var value := Get(r, keys[n - 1]);
      assert keys[..n] == keys[..n - 1] + [keys[n - 1]];
      if value.Some? && keys[n - 1] !in keys[..n - 1] {
        GetSnoc(InColumnOrder(r, keys, n - 1), Entry(keys[n - 1], value.value), k);
      } else {
        assert InColumnOrder(r, keys, n) == InColumnOrder(r, keys, n - 1) + [];
        assert InColumnOrder(r, keys, n - 1) + [] == InColumnOrder(r, keys, n - 1);
      }
    }
  }

  /** A row whose keys are all columns has, in column order, the same value
      for every key. */
  lemma {:induction false} InColumnOrderSameValues(r: Row, keys: seq<string>, k: string)
    requires forall e :: e in r ==> e.key in keys
    ensures Get(InColumnOrder(r, keys, |keys|), k) == Get(r, k)
  {
    InColumnOrderGet(r, keys, |keys|, k);
    assert keys[..|keys|] == keys;
    if Get(r, k).Some? {
      GetIn(r, k);
    }
  }

  /** Column order is a fixed point: ordering an ordered row changes nothing. */
  lemma {:induction false} InColumnOrderIdempotent(r: Row, keys: seq<string>, n: nat)
    requires n <= |keys|
    ensures InColumnOrder(InColumnOrder(r, keys, |keys|), keys, n) == InColumnOrder(r, keys, n)
  {
    if n > 0 {
      InColumnOrderIdempotent(r, keys, n - 1);
      InColumnOrderGet(r, keys, |keys|, keys[n - 1]);
      assert keys[..|keys|] == keys;
    }
  }

  /** A row with a value in one of the first `n` columns has a non-empty
      column-ordered form. */
  lemma {:induction false} InColumnOrderNonEmpty(r: Row, keys: seq<string>, n: nat, i: nat)
    requires i < n <= |keys| && Get(r, keys[i]).Some?
    ensures InColumnOrder(r, keys, n) != []
  {
    if i < n - 1 {
      InColumnOrderNonEmpty(r, keys, n - 1, i);
    } else if keys[i] in keys[..i] {
      var j :| 0 <= j < i && keys[..i][j] == keys[i];
      InColumnOrderNonEmpty(r, keys, n - 1, j);
    }
  }

  /** Columns past `m` without a value add nothing. */
  lemma {:induction false} InColumnOrderStops(r: Row, keys: seq<string>, m: nat, n: nat)
    requires m <= n <= |keys|
    requires forall j :: m <= j < n ==> Get(r, keys[j]).None?
    ensures InColumnOrder(r, keys, n) == InColumnOrder(r, keys, m)
  {
    if m < n {
      InColumnOrderStops(r, keys, m, n - 1);
      assert InColumnOrder(r, keys, n) == InColumnOrder(r, keys, n - 1) + [];
    }
  }

  /** The dictionary the zip builds over `j` columns of a line that holds a
      row's values in column order is the row in column order: a repeated
      column assigns its key the value it already holds. */
  lemma {:induction false} RowDictInColumnOrder(keys: seq<string>, r: Row, values: seq<Option<string>>, j: nat)
    requires j <= |keys| && j <= |values|
    requires forall e :: e in r ==> e.value != ""
    requires forall i :: 0 <= i < j ==> values[i] == Some(StringifyValue(CellOf(Get(r, keys[i]))))
    ensures RowDictUpTo(TextKeys(keys), values, j) == Ok(InColumnOrder(r, keys, j))
  {
    if j > 0 {
      RowDictInColumnOrder(keys, r, values, j - 1);
      var value := Get(r, keys[j - 1]);
      if value.Some? {
        GetIn(r, keys[j - 1]);
        ColumnStepFilled(keys, r, values, j, value.value);
      } else {
        ColumnStepBlank(keys, r, values, j);
      }
    }
  }

  /** A column whose key the row holds assigns that key, which appends it on
      its first column and changes nothing on a repeated one. */
  lemma {:induction false} ColumnStepFilled(keys: seq<string>, r: Row, values: seq<Option<string>>, j: nat, v: string)
    requires 0 < j <= |keys| && j <= |values| && v != ""
    requires Get(r, keys[j - 1]) == Some(v) && values[j - 1] == Some(v)
    requires RowDictUpTo(TextKeys(keys), values, j - 1) == Ok(InColumnOrder(r, keys, j - 1))
    ensures RowDictUpTo(TextKeys(keys), values, j) == Ok(InColumnOrder(r, keys, j))
  {
    var d := InColumnOrder(r, keys, j - 1);
    var k := keys[j - 1];
    assert TextKeys(keys)[j - 1] == Some(k);
    assert RowDictUpTo(TextKeys(keys), values, j) == Ok(Set(d, k, v));
    InColumnOrderGet(r, keys, j - 1, k);
    if k in keys[..j - 1] {
      SetSame(d, k, v);
      assert InColumnOrder(r, keys, j) == d + [] == d;
    } else {
      GetSome(d, k);
      SetAppends(d, k, v);
    }
  }

  /** A column whose key the row lacks holds a blank and adds nothing. */
  lemma {:induction false} ColumnStepBlank(keys: seq<string>, r: Row, values: seq<Option<string>>, j: nat)
    requires 0 < j <= |keys| && j <= |values|
    requires Get(r, keys[j - 1]).None? && values[j - 1] == Some("")
    requires RowDictUpTo(TextKeys(keys), values, j - 1) == Ok(InColumnOrder(r, keys, j - 1))
    ensures RowDictUpTo(TextKeys(keys), values, j) == Ok(InColumnOrder(r, keys, j))
  {
    var d := InColumnOrder(r, keys, j - 1);
    assert InColumnOrder(r, keys, j) == d + [] == d;
  }

  /** A line with no cell left after truncation reads as an empty dictionary. */
  lemma {:induction false} ReadBlankLine(headers: seq<Option<string>>, line: Line)
    requires forall c :: 0 <= c < |line| ==> line[c] == Blank
    ensures ReadLine(headers, line) == Ok([])
  {
    TruncatedUnique(line, []);
    assert Stringified(Truncated(line)) == [];
  }

  /** A line holding a row's values under the columns of `keys` (and blanks
      further right) reads back as the row in column order. */
  lemma {:induction false} ReadRowLine(keys: seq<string>, r: Row, line: Line)
    requires |line| >= |keys|
    requires forall e :: e in r ==> e.value != ""
    requires forall c :: 0 <= c < |line| ==> line[c] == if c < |keys| then CellOf(Get(r, keys[c])) else Blank
    ensures ReadLine(TextKeys(keys), line) == Ok(InColumnOrder(r, keys, |keys|))
  {
    var headers := TextKeys(keys);
    var t := Truncated(line);
    var values := Stringified(t);
    var q := MinLen(headers, values);
    RowDictInColumnOrder(keys, r, values, q);
    forall j | q <= j < |keys| ensures Get(r, keys[j]).None? {
      assert line[j] == Blank;
    }
    InColumnOrderStops(r, keys, q, |keys|);
  }

  /** What the round trip needs: at least one column, and rows that are
      non-empty, use only column keys and have no empty value. */
  ghost predicate CleanRows(rows: seq<Row>, keys: seq<string>)
  {
    && |keys| > 0
    && (forall k :: 0 <= k < |rows| ==> rows[k] != [])
    && (forall k, e :: 0 <= k < |rows| && e in rows[k] ==> e.key in keys && e.value != "")
  }

  /** Rows with no stray key are all written. */
  lemma {:induction false} FirstStrayNone(rows: seq<Row>, keys: seq<string>)
    requires forall k :: 0 <= k < |rows| ==> StrayKey(rows[k], keys).None?
    ensures FirstStray(rows, keys) == |rows|
  {
    if rows != [] {
      FirstStrayNone(rows[1..], keys);
    }
  }

  lemma {:induction false} CleanRowsWritten(rows: seq<Row>, keys: seq<string>)
    requires CleanRows(rows, keys)
    ensures FirstStray(rows, keys) == |rows|
  {
    forall k | 0 <= k < |rows| ensures StrayKey(rows[k], keys).None? {
      StrayKeyNone(rows[k], keys);
    }
    FirstStrayNone(rows, keys);
  }

  /** The written sheet is as wide as the keys and reaches every target row. */
  lemma {:induction false} WrittenReach(rows: seq<Row>, keys: seq<string>)
    requires CleanRows(rows, keys)
    ensures Written(rows, keys).maxColumn >= |keys| && Written(rows, keys).maxRow >= 1
    ensures forall k :: 0 <= k < |rows| ==> Targets(rows)[k] <= Written(rows, keys).maxRow
  {
    WrittenBounded(rows, keys);
    WrittenCell(rows, keys, 1, |keys|);
    assert (1, |keys|) in Written(rows, keys).cells;
    forall k | 0 <= k < |rows| ensures Targets(rows)[k] <= Written(rows, keys).maxRow {
      TargetReached(rows, keys, k);
    }
  }

  /** The written sheet reaches the target row of row `k`, which holds a
      value of that row. */
  lemma {:induction false} TargetReached(rows: seq<Row>, keys: seq<string>, k: nat)
    requires CleanRows(rows, keys) && k < |rows|
    ensures Targets(rows)[k] <= Written(rows, keys).maxRow
  {
    var ts := Targets(rows);
    WrittenBounded(rows, keys);
    CleanRowsWritten(rows, keys);
    TargetsIncreasing(rows);
    var e := rows[k][0];
    var i :| 0 <= i < |keys| && keys[i] == e.key;
    assert Keys(rows[k])[0] == e.key;
    GetSome(rows[k], keys[i]);
    RowAtTarget(ts, |rows|, k);
    WrittenCell(rows, keys, ts[k], i + 1);
    assert (ts[k], i + 1) in Written(rows, keys).cells;
  }

  /** The keys as the text cells of a header row. */
  function TextCells(keys: seq<string>): (l: Line)
    ensures |l| == |keys|
    ensures forall i :: 0 <= i < |keys| ==> l[i] == Text(keys[i])
  {
    seq(|keys|, i requires 0 <= i < |keys| => Text(keys[i]))
  }

  /** The first line of the written sheet holds the keys and reads as them. */
  lemma {:induction false} WrittenHeaderLine(rows: seq<Row>, keys: seq<string>)
    requires CleanRows(rows, keys)
    ensures |Values(Written(rows, keys))| > 0
    ensures Truncated(Values(Written(rows, keys))[0]) == TextCells(keys)
    ensures HeaderKeys(Truncated(Values(Written(rows, keys))[0])) == TextKeys(keys)
  {
    WrittenReach(rows, keys);
    var line := Values(Written(rows, keys))[0];
    forall c | 0 <= c < |line| ensures line[c] == if c < |keys| then Text(keys[c]) else Blank {
      WrittenCell(rows, keys, 1, c + 1);
    }
    TruncatedUnique(line, line[..|keys|]);
  }

  /** What sheet row `row` reads as: the row that landed there, in column
      order, or an empty dictionary. */
  function LineRows(rows: seq<Row>, keys: seq<string>, ts: seq<nat>, row: nat): Result<Row, Error>
    requires |ts| == |rows|
  {
    match RowAt(ts, |ts|, row)
    case Some(k) => Ok(InColumnOrder(rows[k], keys, |keys|))
    case None => Ok([])
  }

  /** Line `i` (sheet row `i + 1`) below the header reads as the row that
      landed there, in column order, or as an empty dictionary. */
  lemma {:induction false} WrittenContentLine(rows: seq<Row>, keys: seq<string>, i: nat)
    requires CleanRows(rows, keys) && 1 <= i < Written(rows, keys).maxRow
    ensures ReadLine(TextKeys(keys), Values(Written(rows, keys))[i]) == LineRows(rows, keys, Targets(rows), i + 1)
  {
    WrittenReach(rows, keys);
    CleanRowsWritten(rows, keys);
    var line := Values(Written(rows, keys))[i];
    var ts := Targets(rows);
    forall c | 0 <= c < |line|
      ensures line[c] == if c >= |keys| then Blank
        else match RowAt(ts, |rows|, i + 1)
          case Some(k) => CellOf(Get(rows[k], keys[c]))
          case None => Blank
    {
      WrittenCell(rows, keys, i + 1, c + 1);
    }
    match RowAt(ts, |rows|, i + 1)
    case Some(k) => ReadRowLine(keys, rows[k], line);
    case None => ReadBlankLine(TextKeys(keys), line);
  }

  /** Every row in column order. */
  function Ordered(rows: seq<Row>, keys: seq<string>): seq<Row>
  {
    if rows == [] then []
    else Ordered(rows[..|rows| - 1], keys) + [InColumnOrder(rows[|rows| - 1], keys, |keys|)]
  }

  lemma {:induction false} OrderedAt(rows: seq<Row>, keys: seq<string>, k: nat)
    requires k < |rows|
    ensures |Ordered(rows, keys)| == |rows|
    ensures Ordered(rows, keys)[k] == InColumnOrder(rows[k], keys, |keys|)
  {
    if k < |rows| - 1 {
      OrderedAt(rows[..|rows| - 1], keys, k);
    } else if |rows| > 1 {
      OrderedAt(rows[..|rows| - 1], keys, 0);
    }
  }

  /** The sheet row of the last of the first `n` rows, or the header row. */
  function Reached(ts: seq<nat>, n: nat): nat
    requires n <= |ts|
  {
    if n == 0 then 1 else ts[n - 1]
  }

  /** No row lands strictly between the `n`-th row's place and the next row's. */
  lemma {:induction false} NoRowBetween(ts: seq<nat>, n: nat, row: nat)
    requires Increasing(ts) && n <= |ts| && Reached(ts, n) < row
    requires n < |ts| ==> row < ts[n]
    ensures RowAt(ts, |ts|, row).None?
  {
    RowAtNone(ts, |ts|, row);
  }

  /** What reading sheet rows 2 to `m + 1` collects, when each reads as
      `LineRows` says: the non-empty dictionaries, in order. */
  function ReadUpTo(rows: seq<Row>, keys: seq<string>, ts: seq<nat>, m: nat): Result<seq<Row>, Error>
    requires |ts| == |rows|
  {
    if m == 0 then Ok([])
    else match ReadUpTo(rows, keys, ts, m - 1)
      case Err(e) => Err(e)
      case Ok(acc) =>
        match LineRows(rows, keys, ts, m + 1)
        case Err(e) => Err(e)
        case Ok(d) => Ok(if d == [] then acc else acc + [d])
  }

  /** Content lines that each read as `LineRows` says are read as `ReadUpTo` says. */
  lemma {:induction false} ReadLinesUpTo(headers: seq<Option<string>>, rows: seq<Row>, keys: seq<string>, ts: seq<nat>,
                                         lines: seq<Line>, m: nat)
    requires |ts| == |rows| && m <= |lines|
    requires forall i {:trigger ReadLine(headers, lines[i])} :: 0 <= i < |lines| ==>
      ReadLine(headers, lines[i]) == LineRows(rows, keys, ts, i + 2)
    ensures ReadLines(headers, lines[..m]) == ReadUpTo(rows, keys, ts, m)
  {
    if m > 0 {
      ReadLinesUpTo(headers, rows, keys, ts, lines, m - 1);
      assert lines[..m][..m - 1] == lines[..m - 1];
      assert lines[..m][m - 1] == lines[m - 1];
      assert ReadLine(headers, lines[m - 1]) == LineRows(rows, keys, ts, m + 1);
    }
  }

  /** Sheet rows on which no row landed add nothing. */
  lemma {:induction false} ReadUpToEmptyTail(rows: seq<Row>, keys: seq<string>, ts: seq<nat>, a: nat, b: nat)
    requires |ts| == |rows| && a <= b
    requires forall row :: a + 2 <= row < b + 2 ==> RowAt(ts, |ts|, row).None?
    ensures ReadUpTo(rows, keys, ts, b) == ReadUpTo(rows, keys, ts, a)
  {
    if a < b {
      ReadUpToEmptyTail(rows, keys, ts, a, b - 1);
      assert RowAt(ts, |ts|, b + 1).None?;
    }
  }

  /** Reading down to the `n`-th row's place gives the first `n` rows in
      column order. */
  lemma {:induction false} ReadUpToPrefix(rows: seq<Row>, keys: seq<string>, ts: seq<nat>, n: nat)
    requires |ts| == |rows| && Increasing(ts) && n <= |rows|
    requires forall k {:trigger InColumnOrder(rows[k], keys, |keys|)} :: 0 <= k < |rows| ==> InColumnOrder(rows[k], keys, |keys|) != []
    ensures ReadUpTo(rows, keys, ts, Reached(ts, n) - 1) == Ok(Ordered(rows[..n], keys))
  {
    if n > 0 {
      ReadUpToPrefix(rows, keys, ts, n - 1);
      PrefixExtends(rows, keys, ts, n);
    }
  }

  /** Reading up to the line of row n - 1 gives the first n rows, given that
      reading up to the line of row n - 2 gives the first n - 1. */
  lemma {:induction false} PrefixExtends(rows: seq<Row>, keys: seq<string>, ts: seq<nat>, n: nat)
    requires |ts| == |rows| && Increasing(ts) && 0 < n <= |rows|
    requires InColumnOrder(rows[n - 1], keys, |keys|) != []
    requires ReadUpTo(rows, keys, ts, Reached(ts, n - 1) - 1) == Ok(Ordered(rows[..n - 1], keys))
    ensures ReadUpTo(rows, keys, ts, Reached(ts, n) - 1) == Ok(Ordered(rows[..n], keys))
  {
    GapBeforeRow(rows, keys, ts, n);
    PrefixStep(rows, keys, ts, n);
  }

  /** Reading through the line of row n - 1 extends the rows read before it. */
  lemma {:induction false} PrefixStep(rows: seq<Row>, keys: seq<string>, ts: seq<nat>, n: nat)
    requires |ts| == |rows| && 0 < n <= |rows| && 2 <= ts[n - 1]
    requires ReadUpTo(rows, keys, ts, ts[n - 1] - 2) == Ok(Ordered(rows[..n - 1], keys))
    requires RowAt(ts, |ts|, ts[n - 1]) == Some(n - 1) && InColumnOrder(rows[n - 1], keys, |keys|) != []
    ensures ReadUpTo(rows, keys, ts, ts[n - 1] - 1) == Ok(Ordered(rows[..n], keys))
  {
    var m := ts[n - 1] - 1;
    var prev := Ordered(rows[..n - 1], keys);
    var d := InColumnOrder(rows[n - 1], keys, |keys|);
    ReadUpToAppend(rows, keys, ts, m, prev, n - 1);
    OrderedAppend(rows, keys, n);
    assert ReadUpTo(rows, keys, ts, m) == Ok(prev + [d]) == Ok(Ordered(rows[..n], keys));
  }

  /** The lines between two data rows read as nothing, and the next line is row n - 1. */
  lemma {:induction false} GapBeforeRow(rows: seq<Row>, keys: seq<string>, ts: seq<nat>, n: nat)
    requires |ts| == |rows| && Increasing(ts) && 0 < n <= |rows|
    ensures 2 <= Reached(ts, n - 1) + 1 <= ts[n - 1]
    ensures ReadUpTo(rows, keys, ts, ts[n - 1] - 2) == ReadUpTo(rows, keys, ts, Reached(ts, n - 1) - 1)
    ensures RowAt(ts, |ts|, ts[n - 1]) == Some(n - 1)
  {
    var t := ts[n - 1];
    forall row | Reached(ts, n - 1) + 1 <= row < t ensures RowAt(ts, |ts|, row).None? {
      NoRowBetween(ts, n - 1, row);
    }
    ReadUpToEmptyTail(rows, keys, ts, Reached(ts, n - 1) - 1, t - 2);
    RowAtTarget(ts, |ts|, n - 1);
  }

  /** The line of a row carrying data adds that row to what was read before it. */
  lemma {:induction false} ReadUpToAppend(rows: seq<Row>, keys: seq<string>, ts: seq<nat>, m: nat, prev: seq<Row>, k: nat)
    requires |ts| == |rows| && m >= 1 && k < |rows|
    requires ReadUpTo(rows, keys, ts, m - 1) == Ok(prev)
    requires RowAt(ts, |ts|, m + 1) == Some(k) && InColumnOrder(rows[k], keys, |keys|) != []
    ensures ReadUpTo(rows, keys, ts, m) == Ok(prev + [InColumnOrder(rows[k], keys, |keys|)])
  {
  }

  lemma {:induction false} OrderedAppend(rows: seq<Row>, keys: seq<string>, n: nat)
    requires 0 < n <= |rows|
    ensures Ordered(rows[..n], keys) == Ordered(rows[..n - 1], keys) + [InColumnOrder(rows[n - 1], keys, |keys|)]
  {
    assert rows[..n][..n - 1] == rows[..n - 1];
  }

  /** Reading any number of lines past the last row's place gives every row. */
  lemma {:induction false} ReadUpToAll(rows: seq<Row>, keys: seq<string>, ts: seq<nat>, m: nat)
    requires |ts| == |rows| && Increasing(ts) && Reached(ts, |ts|) - 1 <= m
    requires forall k {:trigger InColumnOrder(rows[k], keys, |keys|)} :: 0 <= k < |rows| ==> InColumnOrder(rows[k], keys, |keys|) != []
    ensures ReadUpTo(rows, keys, ts, m) == Ok(Ordered(rows, keys))
  {
    ReadUpToPrefix(rows, keys, ts, |rows|);
    forall row | Reached(ts, |ts|) + 1 <= row < m + 2 ensures RowAt(ts, |ts|, row).None? {
      NoRowBetween(ts, |ts|, row);
    }
    ReadUpToEmptyTail(rows, keys, ts, Reached(ts, |ts|) - 1, m);
    assert rows[..|rows|] == rows;
  }

  /** Every row of clean rows is non-empty in column order. */
  lemma {:induction false} CleanRowsNonEmpty(rows: seq<Row>, keys: seq<string>)
    requires CleanRows(rows, keys)
    ensures forall k {:trigger InColumnOrder(rows[k], keys, |keys|)} :: 0 <= k < |rows| ==> InColumnOrder(rows[k], keys, |keys|) != []
  {
    forall k | 0 <= k < |rows| ensures InColumnOrder(rows[k], keys, |keys|) != [] {
      var e := rows[k][0];
      var i :| 0 <= i < |keys| && keys[i] == e.key;
      assert Keys(rows[k])[0] == e.key;
      GetSome(rows[k], keys[i]);
      InColumnOrderNonEmpty(rows[k], keys, |keys|, i);
    }
  }

  /** The written sheet's content lines read as `ReadUpTo` says, and reach
      past the last row's place. */
  lemma {:induction false} WrittenLines(rows: seq<Row>, keys: seq<string>)
    requires CleanRows(rows, keys)
    ensures |Values(Written(rows, keys))| > 0
    ensures Reached(Targets(rows), |rows|) <= |Values(Written(rows, keys))|
    ensures ReadLines(TextKeys(keys), Values(Written(rows, keys))[1..])
         == ReadUpTo(rows, keys, Targets(rows), |Values(Written(rows, keys))| - 1)
  {
    WrittenReached(rows, keys);
    WrittenLinesRead(rows, keys);
    GridLinesRead(TextKeys(keys), rows, keys, Targets(rows), Values(Written(rows, keys)));
  }

  /** A grid whose lines below the first each read as the row on that sheet row
      reads, as a whole, as the rows up to its last line. */
  lemma {:induction false} GridLinesRead(headers: seq<Option<string>>, rows: seq<Row>, keys: seq<string>, ts: seq<nat>, g: Grid)
    requires |ts| == |rows| && |g| > 0
    requires forall i {:trigger g[i]} :: 1 <= i < |g| ==> ReadLine(headers, g[i]) == LineRows(rows, keys, ts, i + 1)
    ensures ReadLines(headers, g[1..]) == ReadUpTo(rows, keys, ts, |g| - 1)
  {
    var lines := g[1..];
    forall i | 0 <= i < |lines| ensures ReadLine(headers, lines[i]) == LineRows(rows, keys, ts, i + 2) {
      assert lines[i] == g[i + 1];
    }
    ReadLinesUpTo(headers, rows, keys, ts, lines, |lines|);
    assert lines[..|lines|] == lines;
  }

  /** The sheet has a line for the header and reaches the last row's sheet row. */
  lemma {:induction false} WrittenReached(rows: seq<Row>, keys: seq<string>)
    requires CleanRows(rows, keys)
    ensures |Values(Written(rows, keys))| > 0
    ensures Reached(Targets(rows), |rows|) <= |Values(Written(rows, keys))|
  {
    WrittenReach(rows, keys);
    if |rows| > 0 {
      assert Targets(rows)[|rows| - 1] <= Written(rows, keys).maxRow;
    }
  }

  /** Each line below the header reads as the row written on it, if any. */
  lemma {:induction false} WrittenLinesRead(rows: seq<Row>, keys: seq<string>)
    requires CleanRows(rows, keys)
    ensures forall i {:trigger Values(Written(rows, keys))[i]} :: 1 <= i < |Values(Written(rows, keys))| ==>
      ReadLine(TextKeys(keys), Values(Written(rows, keys))[i]) == LineRows(rows, keys, Targets(rows), i + 1)
  {
    forall i | 1 <= i < |Values(Written(rows, keys))|
      ensures ReadLine(TextKeys(keys), Values(Written(rows, keys))[i]) == LineRows(rows, keys, Targets(rows), i + 1)
    {
      WrittenContentLine(rows, keys, i);
    }
  }

  /** Reading back the sheet `_convert_to_sheet` wrote gives every row, in
      order, with its entries in column order: the blank rows inserted before
      groups and list-name changes read as empty and are dropped. */
  lemma {:induction false} ReadBack(rows: seq<Row>, keys: seq<string>)
    requires CleanRows(rows, keys)
    ensures SheetRows(Values(Written(rows, keys))) == Ok(Ordered(rows, keys))
  {
    WrittenHeaderLine(rows, keys);
    WrittenLines(rows, keys);
    TargetsIncreasing(rows);
    CleanRowsNonEmpty(rows, keys);
    ReadUpToAll(rows, keys, Targets(rows), |Values(Written(rows, keys))| - 1);
  }

  /** Rows already in column order are read back exactly. */
  lemma {:induction false} OrderedFixed(rows: seq<Row>, keys: seq<string>)
    requires forall k :: 0 <= k < |rows| ==> rows[k] == InColumnOrder(rows[k], keys, |keys|)
    ensures Ordered(rows, keys) == rows
  {
    if rows != [] {
      OrderedFixed(rows[..|rows| - 1], keys);
    }
  }

  /** The round trip of `_convert_to_sheet` and `_convert_sheet`: clean rows
      whose entries are in column order come back unchanged. */
  lemma {:induction false} RoundTrip(rows: seq<Row>, keys: seq<string>)
    requires CleanRows(rows, keys)
    requires forall k :: 0 <= k < |rows| ==> rows[k] == InColumnOrder(rows[k], keys, |keys|)
    ensures SheetRows(Values(Written(rows, keys))) == Ok(rows)
  {
    ReadBack(rows, keys);
    OrderedFixed(rows, keys);
  }

  /** Two columns with the same key: the row's value is written under both and
      the dictionary read back holds it once. */
  lemma {:induction false} RepeatedColumnRoundTrip()
    ensures SheetRows(Values(Written([[Entry("name", "q1")]], ["name", "name"]))) == Ok([[Entry("name", "q1")]])
  {
    var r := [Entry("name", "q1")];
    var keys := ["name", "name"];
    assert Get(r, "name") == Some("q1");
    assert InColumnOrder(r, keys, 1) == r;
    assert keys[1] in keys[..1];
    assert InColumnOrder(r, keys, 2) == r;
    assert CleanRows([r], keys);
    RoundTrip([r], keys);
  }

  /** Any clean row comes back with the same value under every key. */
  lemma {:induction false} ReadBackValues(rows: seq<Row>, keys: seq<string>, k: nat, key: string)
    requires CleanRows(rows, keys) && k < |rows|
    ensures SheetRows(Values(Written(rows, keys))).Ok?
    ensures |SheetRows(Values(Written(rows, keys))).value| == |rows|
    ensures Get(SheetRows(Values(Written(rows, keys))).value[k], key) == Get(rows[k], key)
  {
    ReadBack(rows, keys);
    OrderedAt(rows, keys, k);
    InColumnOrderSameValues(rows[k], keys, key);
  }

  /** Every entry of a row in column order is an entry of the row under a column key. */
  lemma {:induction false} InColumnOrderEntries(r: Row, keys: seq<string>, n: nat)
    requires n <= |keys|
    ensures forall e :: e in InColumnOrder(r, keys, n) ==> e in r && e.key in keys
  {
    if n > 0 {
      InColumnOrderEntries(r, keys, n - 1);
      if Get(r, keys[n - 1]).Some? {
        GetIn(r, keys[n - 1]);
      }
    }
  }

  /** Ordering twice is ordering once. */
  lemma {:induction false} OrderedIdempotent(rows: seq<Row>, keys: seq<string>)
    ensures Ordered(Ordered(rows, keys), keys) == Ordered(rows, keys)
  {
    if rows != [] {
      var init := rows[..|rows| - 1];
      OrderedIdempotent(init, keys);
      InColumnOrderIdempotent(rows[|rows| - 1], keys, |keys|);
      var o := Ordered(rows, keys);
      assert o[..|o| - 1] == Ordered(init, keys);
    }
  }

  /** What one write and read returns is clean again. */
  lemma {:induction false} OrderedClean(rows: seq<Row>, keys: seq<string>)
    requires CleanRows(rows, keys)
    ensures CleanRows(Ordered(rows, keys), keys)
  {
    var o := Ordered(rows, keys);
    CleanRowsNonEmpty(rows, keys);
    if rows != [] {
      OrderedAt(rows, keys, 0);
    }
    forall k | 0 <= k < |o| ensures o[k] != [] && forall e: Entry :: e in o[k] ==> e.key in keys && e.value != "" {
      OrderedAt(rows, keys, k);
      InColumnOrderEntries(rows[k], keys, |keys|);
    }
  }

  /** Writing and reading again what one write and read returned gives it
      back exactly: after one round the rows are stable. */
  lemma {:induction false} SecondRoundTrip(rows: seq<Row>, keys: seq<string>)
    requires CleanRows(rows, keys)
    ensures SheetRows(Values(Written(Ordered(rows, keys), keys))) == Ok(Ordered(rows, keys))
  {
    OrderedClean(rows, keys);
    ReadBack(Ordered(rows, keys), keys);
    OrderedIdempotent(rows, keys);
  }
}
