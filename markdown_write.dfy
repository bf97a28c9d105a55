/** The Markdown writer (`write_markdown`, yxf/markdown.py:80-153). For each
    of the three sheets the form holds, in the fixed order, it writes a level-2
    heading, the sheet's comments as paragraphs, and a padded table. It
    changes the form as it goes: it deletes the `#` key of every row, pops a
    leading `#` header and replaces every value by its escaped cell text, and
    those changes stay even when a later step raises. */
module MarkdownWrite {
  import opened Wrappers
  import opened Strings
  import opened Errors
  import opened Rows
  import opened Forms
  import opened MarkdownCells
  import Spreadsheet

  /** A logged warning: a multi-line value in `column`, at table line `line`. */
  datatype Warning = MultiLine(source: string, line: nat, column: string)

  /* ---------------------------------------------------------------- */
  /* Comments                                                         */
  /* ---------------------------------------------------------------- */

  /** The paragraph lines one row's comment gives: its `#` value and a blank
      line, or nothing when the value is missing or empty. */
  function CommentOf(row: Row): (lines: seq<string>)
    ensures lines == [] || (|lines| == 2 && Get(row, "#") == Some(lines[0]) && lines[0] != "" && lines[1] == "")
    ensures lines == [] <==> Get(row, "#").None? || Get(row, "#") == Some("")
  {
    match Get(row, "#")
    case Some(c) => if c != "" then [c, ""] else []
    case None => []
  }

  /** The comment paragraphs of the rows, in row order. */
  function CommentLines(rows: seq<Row>): seq<string>
  {
    if rows == [] then [] else CommentLines(rows[..|rows| - 1]) + CommentOf(rows[|rows| - 1])
  }

  /** The rows once `del row["#"]` has run on each. */
  function Uncommented(rows: seq<Row>): (r: seq<Row>)
    ensures |r| == |rows|
    ensures forall i :: 0 <= i < |rows| ==> r[i] == Remove(rows[i], "#")
  {
    seq(|rows|, i requires 0 <= i < |rows| => Remove(rows[i], "#"))
  }

  /** No row keeps a `#` key, and every other key keeps its value. */
  lemma {:induction false} UncommentedRows(rows: seq<Row>)
    ensures forall i :: 0 <= i < |rows| ==> !HasKey(Uncommented(rows)[i], "#")
    ensures forall i, k :: 0 <= i < |rows| && k != "#" ==> Get(Uncommented(rows)[i], k) == Get(rows[i], k)
  {
    forall i | 0 <= i < |rows| ensures !HasKey(Uncommented(rows)[i], "#") {
      RemoveGet(rows[i], "#", "#");
      GetSome(Uncommented(rows)[i], "#");
    }
    forall i, k | 0 <= i < |rows| && k != "#" ensures Get(Uncommented(rows)[i], k) == Get(rows[i], k) {
      RemoveGet(rows[i], "#", k);
    }
  }

  /** The first loop over the sheet: collect the comment paragraphs and delete
      the `#` key of each row. */
  method ExtractComments(rows: seq<Row>) returns (lines: seq<string>, stripped: seq<Row>)
    ensures lines == CommentLines(rows)
    ensures stripped == Uncommented(rows)
  {
    lines, stripped := [], [];
    for j := 0 to |rows|
      invariant lines == CommentLines(rows[..j])
      invariant |stripped| == j
      invariant forall i :: 0 <= i < j ==> stripped[i] == Remove(rows[i], "#")
    {
      CommentLinesStep(rows, j);
      var comment, row := StripComment(rows[j]);
      lines := lines + comment;
      stripped := stripped + [row];
    }
    assert rows[..|rows|] == rows;
  }

  /** The body of the first loop for one row: its comment paragraph, and the
      row after `del row["#"]` when it has that key. */
  method StripComment(row: Row) returns (comment: seq<string>, stripped: Row)
    ensures comment == CommentOf(row) && stripped == Remove(row, "#")
  {
    comment, stripped := [], row;
    var value := Get(row, "#");
    if value.Some? {
      if value.value != "" {
        comment := [value.value, ""];
      }
      stripped := Remove(row, "#");
    } else {
      GetSome(row, "#");
      RemoveAbsent(row, "#");
    }
  }

  /** The comment paragraphs are the non-empty `#` values of the rows, each
      followed by a blank line, in row order. */
  lemma {:induction false} CommentLinesSpec(rows: seq<Row>)
    ensures |CommentLines(rows)| % 2 == 0
    ensures forall n :: 0 <= n < |CommentLines(rows)| / 2 ==>
      CommentLines(rows)[2 * n + 1] == "" &&
      exists i :: 0 <= i < |rows| && Get(rows[i], "#") == Some(CommentLines(rows)[2 * n]) && CommentLines(rows)[2 * n] != ""
    ensures forall i :: 0 <= i < |rows| && Get(rows[i], "#").Some? && Get(rows[i], "#").value != "" ==>
      Get(rows[i], "#").value in CommentLines(rows)
  {
    if rows != [] {
      var front := rows[..|rows| - 1];
      CommentLinesSpec(front);
      var lines := CommentLines(rows);
      assert lines == CommentLines(front) + CommentOf(rows[|rows| - 1]);
      forall n | 0 <= n < |lines| / 2
        ensures lines[2 * n + 1] == "" &&
          exists i :: 0 <= i < |rows| && Get(rows[i], "#") == Some(lines[2 * n]) && lines[2 * n] != ""
      {
        if 2 * n < |CommentLines(front)| {
          var i :| 0 <= i < |front| && Get(front[i], "#") == Some(CommentLines(front)[2 * n]) && CommentLines(front)[2 * n] != "";
          assert rows[i] == front[i];
        } else {
          assert Get(rows[|rows| - 1], "#") == Some(lines[2 * n]);
        }
      }
      forall i | 0 <= i < |rows| && Get(rows[i], "#").Some? && Get(rows[i], "#").value != ""
        ensures Get(rows[i], "#").value in lines
      {
        if i < |front| {
          assert rows[i] == front[i];
        } else {
          assert lines[|CommentLines(front)|] == Get(rows[i], "#").value;
        }
      }
    }
  }

  lemma {:induction false} CommentLinesStep(rows: seq<Row>, j: nat)
    requires j < |rows|
    ensures CommentLines(rows[..j + 1]) == CommentLines(rows[..j]) + CommentOf(rows[j])
  {
    assert rows[..j + 1][..j] == rows[..j];
  }

  /* ---------------------------------------------------------------- */
  /* Escaping and multi-line warnings                                 */
  /* ---------------------------------------------------------------- */

  /** A row with each value replaced by its cell text, keys in place. */
  function EscapedRow(row: Row): (r: Row)
    ensures |r| == |row|
    ensures forall i :: 0 <= i < |row| ==> r[i] == Entry(row[i].key, CellText(row[i].value))
  {
    seq(|row|, i requires 0 <= i < |row| => Entry(row[i].key, CellText(row[i].value)))
  }

  function EscapedRows(rows: seq<Row>): (r: seq<Row>)
    ensures |r| == |rows|
    ensures forall i :: 0 <= i < |rows| ==> r[i] == EscapedRow(rows[i])
  {
    seq(|rows|, i requires 0 <= i < |rows| => EscapedRow(rows[i]))
  }

  /** The warnings for the first `n` entries of the row at index `i` of the
      sheet; the table line it is reported at is `i + 2`. */
  function EntryWarnings(source: string, i: nat, row: Row, n: nat): seq<Warning>
    requires n <= |row|
  {
    if n == 0 then []
    else
      var warning := if '\n' in row[n - 1].value then [MultiLine(source, i + 2, row[n - 1].key)] else [];
      EntryWarnings(source, i, row, n - 1) + warning
  }

  /** The warnings for the first `m` rows, in order. */
  function SheetWarnings(source: string, rows: seq<Row>, m: nat): seq<Warning>
    requires m <= |rows|
  {
    if m == 0 then []
    else SheetWarnings(source, rows, m - 1) + EntryWarnings(source, m - 1, rows[m - 1], |rows[m - 1]|)
  }

  /** One warning for each multi-line value among the first `n` entries,
      naming its column, and no other. */
  lemma {:induction false} EntryWarningsSpec(source: string, i: nat, row: Row, n: nat)
    requires n <= |row|
    ensures forall w :: w in EntryWarnings(source, i, row, n) <==>
      exists k :: 0 <= k < n && '\n' in row[k].value && w == MultiLine(source, i + 2, row[k].key)
    ensures |EntryWarnings(source, i, row, n)| <= n
  {
    if n > 0 {
      EntryWarningsSpec(source, i, row, n - 1);
    }
  }

  /** Every warning of a sheet is for a multi-line value at the table line of
      its row, and every multi-line value has one. */
  lemma {:induction false} SheetWarningsSpec(source: string, rows: seq<Row>, m: nat)
    requires m <= |rows|
    ensures forall w :: w in SheetWarnings(source, rows, m) <==>
      exists i, k :: 0 <= i < m && 0 <= k < |rows[i]| && '\n' in rows[i][k].value
        && w == MultiLine(source, i + 2, rows[i][k].key)
  {
    if m > 0 {
      SheetWarningsSpec(source, rows, m - 1);
      EntryWarningsSpec(source, m - 1, rows[m - 1], |rows[m - 1]|);
    }
  }

  /** The inner loop of the second pass, over the entries of the row at index
      `j`. Keys are unique in a dictionary, so `row[k] = ...` overwrites the
      entry being visited. */
  method EscapeRow(row: Row, j: nat, source: string) returns (escaped: Row, warnings: seq<Warning>)
    ensures escaped == EscapedRow(row)
    ensures warnings == EntryWarnings(source, j, row, |row|)
  {
    escaped, warnings := row, [];
    for n := 0 to |row|
      invariant |escaped| == |row|
      invariant forall i :: 0 <= i < n ==> escaped[i] == EscapedRow(row)[i]
      invariant forall i :: n <= i < |row| ==> escaped[i] == row[i]
      invariant warnings == EntryWarnings(source, j, row, n)
    {
      var k, v := escaped[n].key, escaped[n].value;
      if '\n' in v {
        warnings := warnings + [MultiLine(source, j + 2, k)];
        v := Fold(v);
      } else {
        FoldLine(v);
      }
      escaped := escaped[n := Entry(k, Escape(v))];
    }
  }

  /** The second loop over the sheet: fold and escape every value, with a
      warning for each value that had a line break. */
  method EscapeCells(rows: seq<Row>, source: string) returns (escaped: seq<Row>, warnings: seq<Warning>)
    ensures escaped == EscapedRows(rows)
    ensures warnings == SheetWarnings(source, rows, |rows|)
  {
    escaped, warnings := [], [];
    for j := 0 to |rows|
      invariant |escaped| == j
      invariant forall i :: 0 <= i < j ==> escaped[i] == EscapedRow(rows[i])
      invariant warnings == SheetWarnings(source, rows, j)
    {
      var row, more := EscapeRow(rows[j], j, source);
      escaped := escaped + [row];
      warnings := warnings + more;
    }
    EscapedRowsAll(rows, escaped);
  }

  lemma {:induction false} EscapedRowsAll(rows: seq<Row>, escaped: seq<Row>)
    requires |escaped| == |rows|
    requires forall i :: 0 <= i < |rows| ==> escaped[i] == EscapedRow(rows[i])
    ensures escaped == EscapedRows(rows)
  {
  }

  /* ---------------------------------------------------------------- */
  /* Column positions and widths                                      */
  /* ---------------------------------------------------------------- */

  /** `dict(zip(headers, range(len(headers))))[k]`: a repeated header maps to
      its last position. */
  function LastIndex(headers: seq<string>, k: string): (r: Option<nat>)
    ensures r.None? <==> k !in headers
    ensures r.Some? ==> r.value < |headers| && headers[r.value] == k
    ensures r.Some? ==> forall j :: r.value < j < |headers| ==> headers[j] != k
  {
    if headers == [] then None
    else if headers[|headers| - 1] == k then Some(|headers| - 1)
    else
      assert headers == headers[..|headers| - 1] + [headers[|headers| - 1]];
      LastIndex(headers[..|headers| - 1], k)
  }

  /** The header list once a leading `#` has been popped. */
  function Popped(original: seq<string>): seq<string>
    requires original != []
  {
    if original[0] == "#" then original[1..] else original
  }

  /** The column a key's value is measured in: its position among the popped
      headers. With the pop, the index of `#` is deleted and every other
      index moves down by one. */
  function ColumnIndex(original: seq<string>, k: string): (r: Option<nat>)
    requires original != []
    ensures r.Some? ==> r.value < |Popped(original)| && Popped(original)[r.value] == k
    ensures r.None? <==> k !in original || (original[0] == "#" && k == "#")
  {
    if original[0] == "#" && k == "#" then None
    else match LastIndex(original, k)
      case None => None
      case Some(x) => if original[0] == "#" then Some(x - 1) else Some(x)
  }

  /** With no repeated header, each column is found at its own position. */
  lemma {:induction false} DistinctColumns(original: seq<string>, j: nat)
    requires original != [] && Distinct(original) && j < |Popped(original)|
    ensures ColumnIndex(original, Popped(original)[j]) == Some(j)
  {
    var k := Popped(original)[j];
    var at := if original[0] == "#" then j + 1 else j;
    assert original[at] == k;
    assert LastIndex(original, k) == Some(at);
  }

  /** `[len(h) for h in headers]`. */
  function HeaderWidths(cols: seq<string>): (w: seq<nat>)
    ensures |w| == |cols|
  {
    seq(|cols|, j requires 0 <= j < |cols| => |cols[j]|)
  }

  /** The widths once the first `n` entries of a row have been measured, or
      the `KeyError` of the first key without a column. */
  function EntryWidths(widths: seq<nat>, original: seq<string>, row: Row, n: nat): (r: Result<seq<nat>, Error>)
    requires original != [] && |widths| == |Popped(original)| && n <= |row|
    ensures r.Ok? ==> |r.value| == |widths|
  {
    if n == 0 then Ok(widths)
    else
      match EntryWidths(widths, original, row, n - 1)
      case Err(e) => Err(e)
      case Ok(w) =>
        match ColumnIndex(original, row[n - 1].key)
        case None => Err(KeyError(row[n - 1].key))
        case Some(j) => Ok(w[j := Spreadsheet.Max(w[j], |row[n - 1].value|)])
  }

  /** The widths once the first `m` rows have been measured. */
  function SheetWidths(original: seq<string>, rows: seq<Row>, m: nat): (r: Result<seq<nat>, Error>)
    requires original != [] && m <= |rows|
    ensures r.Ok? ==> |r.value| == |Popped(original)|
  {
    if m == 0 then Ok(HeaderWidths(Popped(original)))
    else
      match SheetWidths(original, rows, m - 1)
      case Err(e) => Err(e)
      case Ok(w) => EntryWidths(w, original, rows[m - 1], |rows[m - 1]|)
  }

  /** Measuring a row fails exactly when one of its keys has no column, and
      then with that key. */
  lemma {:induction false} EntryWidthsFails(widths: seq<nat>, original: seq<string>, row: Row, n: nat)
    requires original != [] && |widths| == |Popped(original)| && n <= |row|
    ensures EntryWidths(widths, original, row, n).Ok? <==>
      forall k :: 0 <= k < n ==> ColumnIndex(original, row[k].key).Some?
    ensures EntryWidths(widths, original, row, n).Err? ==>
      exists k :: 0 <= k < n && ColumnIndex(original, row[k].key).None?
        && EntryWidths(widths, original, row, n).error == KeyError(row[k].key)
  {
    if n > 0 {
      EntryWidthsFails(widths, original, row, n - 1);
    }
  }

  /** Measuring only widens columns. */
  lemma {:induction false} EntryWidthsGrow(widths: seq<nat>, original: seq<string>, row: Row, n: nat)
    requires original != [] && |widths| == |Popped(original)| && n <= |row|
    requires EntryWidths(widths, original, row, n).Ok?
    ensures var w := EntryWidths(widths, original, row, n).value;
      forall j :: 0 <= j < |w| ==> w[j] >= widths[j]
  {
    if n > 0 {
      EntryWidthsGrow(widths, original, row, n - 1);
    }
  }

  /** Every measured value fits in its column. */
  lemma {:induction false} EntryWidthsFit(widths: seq<nat>, original: seq<string>, row: Row, n: nat)
    requires original != [] && |widths| == |Popped(original)| && n <= |row|
    requires EntryWidths(widths, original, row, n).Ok?
    ensures var w := EntryWidths(widths, original, row, n).value;
      forall k :: 0 <= k < n ==>
        (ColumnIndex(original, row[k].key).Some? && w[ColumnIndex(original, row[k].key).value] >= |row[k].value|)
  {
    if n > 0 {
      EntryWidthsFit(widths, original, row, n - 1);
      EntryWidthsGrow(widths, original, row, n);
      EntryWidthsGrow(EntryWidths(widths, original, row, n - 1).value, original, row, 0);
    }
  }

  /** A measured width is the width before or the length of a value in that
      column. */
  lemma {:induction false} EntryWidthsAttained(widths: seq<nat>, original: seq<string>, row: Row, n: nat)
    requires original != [] && |widths| == |Popped(original)| && n <= |row|
    requires EntryWidths(widths, original, row, n).Ok?
    ensures var w := EntryWidths(widths, original, row, n).value;
      forall j :: 0 <= j < |w| ==>
        (w[j] == widths[j] || exists k :: 0 <= k < n && ColumnIndex(original, row[k].key) == Some(j) && w[j] == |row[k].value|)
  {
    if n > 0 {
      EntryWidthsAttained(widths, original, row, n - 1);
      var before := EntryWidths(widths, original, row, n - 1).value;
      var j := ColumnIndex(original, row[n - 1].key).value;
      assert EntryWidths(widths, original, row, n).value == before[j := Spreadsheet.Max(before[j], |row[n - 1].value|)];
    }
  }

  /** Measuring the sheet fails exactly when some key of some row has no
      column, and then with that key. */
  lemma {:induction false} SheetWidthsFails(original: seq<string>, rows: seq<Row>, m: nat)
    requires original != [] && m <= |rows|
    ensures SheetWidths(original, rows, m).Ok? <==>
      forall i, e :: 0 <= i < m && e in rows[i] ==> ColumnIndex(original, e.key).Some?
    ensures SheetWidths(original, rows, m).Err? ==>
      exists i, e :: 0 <= i < m && e in rows[i] && ColumnIndex(original, e.key).None?
        && SheetWidths(original, rows, m).error == KeyError(e.key)
  {
    if m > 0 {
      SheetWidthsFails(original, rows, m - 1);
      if SheetWidths(original, rows, m - 1).Ok? {
        var row := rows[m - 1];
        var measured := EntryWidths(SheetWidths(original, rows, m - 1).value, original, row, |row|);
        assert SheetWidths(original, rows, m) == measured;
        EntryWidthsFails(SheetWidths(original, rows, m - 1).value, original, row, |row|);
        if measured.Err? {
          var k :| 0 <= k < |row| && ColumnIndex(original, row[k].key).None? && measured.error == KeyError(row[k].key);
          assert row[k] in rows[m - 1];
        } else {
          forall i, e | 0 <= i < m && e in rows[i] ensures ColumnIndex(original, e.key).Some? {
            if i == m - 1 {
              var k :| 0 <= k < |row| && row[k] == e;
            }
          }
        }
      }
    }
  }

  /** Every column is at least as wide as its header. */
  lemma {:induction false} SheetWidthsGrow(original: seq<string>, rows: seq<Row>, m: nat)
    requires original != [] && m <= |rows|
    requires SheetWidths(original, rows, m).Ok?
    ensures var w := SheetWidths(original, rows, m).value;
      forall j :: 0 <= j < |w| ==> w[j] >= |Popped(original)[j]|
  {
    if m > 0 {
      SheetWidthsGrow(original, rows, m - 1);
      EntryWidthsGrow(SheetWidths(original, rows, m - 1).value, original, rows[m - 1], |rows[m - 1]|);
    }
  }

  /** Every value of every measured row fits in its column. */
  lemma {:induction false} SheetWidthsFit(original: seq<string>, rows: seq<Row>, m: nat)
    requires original != [] && m <= |rows|
    requires SheetWidths(original, rows, m).Ok?
    ensures var w := SheetWidths(original, rows, m).value;
      forall i, e :: 0 <= i < m && e in rows[i] ==>
        (ColumnIndex(original, e.key).Some? && w[ColumnIndex(original, e.key).value] >= |e.value|)
  {
    forall i, e | 0 <= i < m && e in rows[i]
      ensures ColumnIndex(original, e.key).Some?
        && SheetWidths(original, rows, m).value[ColumnIndex(original, e.key).value] >= |e.value|
    {
      EntryFits(original, rows, m, i, e);
    }
  }

  /** One entry of an earlier row fits the widths measured up to row m. */
  lemma {:induction false} EntryFits(original: seq<string>, rows: seq<Row>, m: nat, i: nat, e: Entry)
    requires original != [] && i < m <= |rows| && e in rows[i]
    requires SheetWidths(original, rows, m).Ok?
    ensures ColumnIndex(original, e.key).Some?
    ensures SheetWidths(original, rows, m).value[ColumnIndex(original, e.key).value] >= |e.value|
    decreases m
  {
    var before := SheetWidths(original, rows, m - 1).value;
    if i == m - 1 {
      RowFits(before, original, rows[m - 1], e);
    } else {
      EntryFits(original, rows, m - 1, i, e);
      RowKeeps(before, original, rows[m - 1], e);
    }
  }

  /** Every entry of a measured row fits the widths it produced. */
  lemma {:induction false} RowFits(before: seq<nat>, original: seq<string>, row: Row, e: Entry)
    requires original != [] && |before| == |Popped(original)| && e in row
    requires EntryWidths(before, original, row, |row|).Ok?
    ensures ColumnIndex(original, e.key).Some?
    ensures EntryWidths(before, original, row, |row|).value[ColumnIndex(original, e.key).value] >= |e.value|
  {
    EntryWidthsFit(before, original, row, |row|);
    var k :| 0 <= k < |row| && row[k] == e;
  }

  /** Measuring a row never shrinks a width an entry already fitted. */
  lemma {:induction false} RowKeeps(before: seq<nat>, original: seq<string>, row: Row, e: Entry)
    requires original != [] && |before| == |Popped(original)|
    requires EntryWidths(before, original, row, |row|).Ok?
    requires ColumnIndex(original, e.key).Some? && before[ColumnIndex(original, e.key).value] >= |e.value|
    ensures EntryWidths(before, original, row, |row|).value[ColumnIndex(original, e.key).value] >= |e.value|
  {
    EntryWidthsGrow(before, original, row, |row|);
  }

  /** Every column is exactly as wide as its header or as one of its values. */
  lemma {:induction false} SheetWidthsAttained(original: seq<string>, rows: seq<Row>, m: nat)
    requires original != [] && m <= |rows|
    requires SheetWidths(original, rows, m).Ok?
    ensures var w := SheetWidths(original, rows, m).value;
      forall j :: 0 <= j < |w| ==>
        (w[j] == |Popped(original)[j]| ||
         exists i, e :: 0 <= i < m && e in rows[i] && ColumnIndex(original, e.key) == Some(j) && w[j] == |e.value|)
  {
    if m > 0 {
      SheetWidthsAttained(original, rows, m - 1);
      var before := SheetWidths(original, rows, m - 1).value;
      var row := rows[m - 1];
      EntryWidthsAttained(before, original, row, |row|);
      var w := SheetWidths(original, rows, m).value;
      forall j | 0 <= j < |w| && w[j] != |Popped(original)[j]|
        ensures exists i, e :: 0 <= i < m && e in rows[i] && ColumnIndex(original, e.key) == Some(j) && w[j] == |e.value|
      {
        if w[j] == before[j] {
          var i, e :| 0 <= i < m - 1 && e in rows[i] && ColumnIndex(original, e.key) == Some(j) && before[j] == |e.value|;
        } else {
          var k :| 0 <= k < |row| && ColumnIndex(original, row[k].key) == Some(j) && w[j] == |row[k].value|;
          assert row[k] in rows[m - 1];
        }
      }
    }
  }

  /** Once a key has raised, measuring more entries keeps that error. */
  lemma {:induction false} EntryErrSticks(widths: seq<nat>, original: seq<string>, row: Row, n: nat)
    requires original != [] && |widths| == |Popped(original)| && n <= |row|
    requires EntryWidths(widths, original, row, n).Err?
    ensures EntryWidths(widths, original, row, |row|) == EntryWidths(widths, original, row, n)
    decreases |row| - n
  {
    if n < |row| {
      assert EntryWidths(widths, original, row, n + 1) == EntryWidths(widths, original, row, n);
      EntryErrSticks(widths, original, row, n + 1);
    }
  }

  /** Once a row has raised, measuring more rows keeps that error. */
  lemma {:induction false} SheetErrSticks(original: seq<string>, rows: seq<Row>, m: nat)
    requires original != [] && m <= |rows|
    requires SheetWidths(original, rows, m).Err?
    ensures SheetWidths(original, rows, |rows|) == SheetWidths(original, rows, m)
    decreases |rows| - m
  {
    if m < |rows| {
      assert SheetWidths(original, rows, m + 1) == SheetWidths(original, rows, m);
      SheetErrSticks(original, rows, m + 1);
    }
  }

  /** The inner loop of the width pass, over the entries of one row; a key
      without a column raises `KeyError`. */
  method MeasureRow(widths: seq<nat>, original: seq<string>, row: Row) returns (r: Result<seq<nat>, Error>)
    requires original != [] && |widths| == |Popped(original)|
    ensures r == EntryWidths(widths, original, row, |row|)
  {
    var w := widths;
    for n := 0 to |row|
      invariant EntryWidths(widths, original, row, n) == Ok(w)
    {
      var k, v := row[n].key, row[n].value;
      var i := ColumnIndex(original, k);
      if i.None? {
        r := Err(KeyError(k));
        EntryErrSticks(widths, original, row, n + 1);
        return;
      }
      w := w[i.value := Spreadsheet.Max(w[i.value], |v|)];
    }
    r := Ok(w);
  }

  /** The width pass: start from the header lengths and widen each column to
      its longest value. */
  method ColumnWidths(original: seq<string>, rows: seq<Row>) returns (r: Result<seq<nat>, Error>)
    requires original != []
    ensures r == SheetWidths(original, rows, |rows|)
  {
    var cols := Popped(original);
    var w := seq(|cols|, j requires 0 <= j < |cols| => |cols[j]|);
    for m := 0 to |rows|
      invariant SheetWidths(original, rows, m) == Ok(w)
    {
      var measured := MeasureRow(w, original, rows[m]);
      if measured.Err? {
        r := measured;
        SheetErrSticks(original, rows, m + 1);
        return;
      }
      w := measured.value;
    }
    r := Ok(w);
  }

  /* ---------------------------------------------------------------- */
  /* Rendering                                                        */
  /* ---------------------------------------------------------------- */

  /** `f"| {' | '.join(cells)} |"`. */
  function TableLine(cells: seq<string>): string
  {
    "| " + Join(cells, " | ") + " |"
  }

  /** Each header left-justified to its column's width. */
  function HeaderCells(cols: seq<string>, widths: seq<nat>): (cells: seq<string>)
    requires |widths| == |cols|
    ensures |cells| == |cols|
  {
    seq(|cols|, j requires 0 <= j < |cols| => LJust(cols[j], widths[j]))
  }

  /** A run of dashes as wide as each column. */
  function SeparatorCells(widths: seq<nat>): (cells: seq<string>)
    ensures |cells| == |widths|
    ensures forall j :: 0 <= j < |widths| ==> |cells[j]| == widths[j]
  {
    seq(|widths|, j requires 0 <= j < |widths| => Repeat('-', widths[j]))
  }

  /** The row's value under each header, or the empty text where it has none,
      left-justified to the column's width. */
  function RowCells(cols: seq<string>, widths: seq<nat>, row: Row): (cells: seq<string>)
    requires |widths| == |cols|
    ensures |cells| == |cols|
  {
    seq(|cols|, j requires 0 <= j < |cols| => LJust(Get(row, cols[j]).GetOr(""), widths[j]))
  }

  /** The table lines of the first rows; a row left empty is skipped. */
  function BodyLines(cols: seq<string>, widths: seq<nat>, rows: seq<Row>): seq<string>
    requires |widths| == |cols|
  {
    if rows == [] then []
    else
      var last := rows[|rows| - 1];
      BodyLines(cols, widths, rows[..|rows| - 1]) + (if last == [] then [] else [TableLine(RowCells(cols, widths, last))])
  }

  /** The rendered table: header line, separator line, one line per non-empty
      row, and a blank line. */
  function TableLines(cols: seq<string>, widths: seq<nat>, rows: seq<Row>): seq<string>
    requires |widths| == |cols|
  {
    [TableLine(HeaderCells(cols, widths)), TableLine(SeparatorCells(widths))] + BodyLines(cols, widths, rows) + [""]
  }

  /** The body has a line for each non-empty row and for nothing else. */
  lemma {:induction false} BodyLinesRows(cols: seq<string>, widths: seq<nat>, rows: seq<Row>)
    requires |widths| == |cols|
    ensures forall line :: line in BodyLines(cols, widths, rows) <==>
      exists row :: row in rows && row != [] && line == TableLine(RowCells(cols, widths, row))
    ensures |BodyLines(cols, widths, rows)| <= |rows|
  {
    if rows != [] {
      var front := rows[..|rows| - 1];
      BodyLinesRows(cols, widths, front);
      assert rows == front + [rows[|rows| - 1]];
    }
  }

  /** With no repeated header and the widths the width pass measured, every
      cell is exactly as wide as its column. */
  lemma {:induction false} CellsFit(original: seq<string>, rows: seq<Row>, widths: seq<nat>)
    requires original != [] && Distinct(original)
    requires SheetWidths(original, rows, |rows|) == Ok(widths)
    ensures var cols := Popped(original);
      forall j :: 0 <= j < |cols| ==> |HeaderCells(cols, widths)[j]| == widths[j]
    ensures var cols := Popped(original);
      forall row, j :: row in rows && 0 <= j < |cols| ==> |RowCells(cols, widths, row)[j]| == widths[j]
  {
    var cols := Popped(original);
    SheetWidthsGrow(original, rows, |rows|);
    SheetWidthsFit(original, rows, |rows|);
    forall row, j | row in rows && 0 <= j < |cols| ensures |RowCells(cols, widths, row)[j]| == widths[j] {
      var v := Get(row, cols[j]);
      if v.Some? {
        GetIn(row, cols[j]);
        DistinctColumns(original, j);
        var i :| 0 <= i < |rows| && rows[i] == row;
        assert Entry(cols[j], v.value) in rows[i];
      }
    }
  }

  /** When every cell is as wide as its column, every body line is as long
      as the header line. */
  lemma {:induction false} BodyAligned(cols: seq<string>, widths: seq<nat>, rows: seq<Row>)
    requires |widths| == |cols|
    requires forall j :: 0 <= j < |cols| ==> |HeaderCells(cols, widths)[j]| == widths[j]
    requires forall row, j :: row in rows && 0 <= j < |cols| ==> |RowCells(cols, widths, row)[j]| == widths[j]
    ensures forall line :: line in BodyLines(cols, widths, rows) ==> |line| == |TableLine(HeaderCells(cols, widths))|
  {
    var header := HeaderCells(cols, widths);
    BodyLinesRows(cols, widths, rows);
    forall line | line in BodyLines(cols, widths, rows) ensures |line| == |TableLine(header)| {
      var row :| row in rows && row != [] && line == TableLine(RowCells(cols, widths, row));
      JoinSameLength(RowCells(cols, widths, row), header, " | ");
    }
  }

  /** With no repeated header, all lines of the table but the closing blank
      one have the same length, so the columns line up. */
  lemma {:induction false} TableAligned(original: seq<string>, rows: seq<Row>, widths: seq<nat>)
    requires original != [] && Distinct(original)
    requires SheetWidths(original, rows, |rows|) == Ok(widths)
    ensures var cols := Popped(original);
      var lines := TableLines(cols, widths, rows);
      forall n :: 0 <= n < |lines| - 1 ==> |lines[n]| == |lines[0]|
  {
    var cols := Popped(original);
    var header := HeaderCells(cols, widths);
    var body := BodyLines(cols, widths, rows);
    CellsFit(original, rows, widths);
    JoinSameLength(SeparatorCells(widths), header, " | ");
    BodyAligned(cols, widths, rows);
    var lines := TableLines(cols, widths, rows);
    assert lines == [TableLine(header), TableLine(SeparatorCells(widths))] + body + [""];
    forall n | 0 <= n < |lines| - 1 ensures |lines[n]| == |lines[0]| {
      if n >= 2 {
        assert lines[n] == body[n - 2];
      }
    }
  }

  /** The rendering loop. */
  method RenderTable(cols: seq<string>, widths: seq<nat>, rows: seq<Row>) returns (lines: seq<string>)
    requires |widths| == |cols|
    ensures lines == TableLines(cols, widths, rows)
  {
    lines := [TableLine(HeaderCells(cols, widths)), TableLine(SeparatorCells(widths))];
    for m := 0 to |rows|
      invariant lines == [TableLine(HeaderCells(cols, widths)), TableLine(SeparatorCells(widths))] + BodyLines(cols, widths, rows[..m])
    {
      assert rows[..m + 1][..m] == rows[..m];
      if rows[m] != [] {
        lines := lines + [TableLine(RowCells(cols, widths, rows[m]))];
      }
    }
    assert rows[..|rows|] == rows;
    lines := lines + [""];
  }

  /* ---------------------------------------------------------------- */
  /* Writing a sheet and the form                                     */
  /* ---------------------------------------------------------------- */

  /** What writing one present sheet does: the rows and header list it leaves
      in the form, the lines and warnings it adds, and the error it raises. */
  datatype SheetOut = SheetOut(rows: Sheet, headers: seq<string>, lines: seq<string>, warnings: seq<Warning>, error: Option<Error>)

  /** Writing a sheet whose header list is `original`: the heading, the
      comments, then, unless the header list is empty, the escaped rows and
      the table. */
  function WriteSheetRows(name: string, rows: Sheet, original: seq<string>, source: string): SheetOut
  {
    var lines := ["## " + name, ""] + CommentLines(rows);
    var stripped := Uncommented(rows);
    if original == [] then SheetOut(stripped, original, lines, [], Some(IndexError))
    else
      var escaped := EscapedRows(stripped);
      var warnings := SheetWarnings(source, stripped, |stripped|);
      match SheetWidths(original, escaped, |escaped|)
      case Err(e) => SheetOut(escaped, Popped(original), lines, warnings, Some(e))
      case Ok(widths) => SheetOut(escaped, Popped(original), lines + TableLines(Popped(original), widths, escaped), warnings, None)
  }

  /** Writing the sheet `name` of the form: `KeyError` when the form has no
      header list for it. */
  function SheetResult(f: FormValue, name: string, source: string): SheetOut
    requires name in f.sheets
  {
    if name !in f.headers then SheetOut(f.sheets[name], [], ["## " + name, ""], [], Some(KeyError(name)))
    else WriteSheetRows(name, f.sheets[name], f.headers[name], source)
  }

  /** The form once the sheet `name` has been written. */
  function Apply(f: FormValue, name: string, out: SheetOut): FormValue
  {
    f.(sheets := f.sheets[name := out.rows],
       headers := if name in f.headers then f.headers[name := out.headers] else f.headers)
  }

  /** The state of the writer: the form as mutated so far, the lines, the
      logged warnings and the error raised, if any. */
  datatype Writing = Writing(form: FormValue, lines: seq<string>, warnings: seq<Warning>, error: Option<Error>)

  /** One turn of the loop over the sheet names: a sheet the form does not
      have is skipped, and an error stops the writer. */
  function WriteSheet(w: Writing, name: string, source: string): Writing
  {
    if w.error.Some? || name !in w.form.sheets then w
    else
      var out := SheetResult(w.form, name, source);
      Writing(Apply(w.form, name, out), w.lines + out.lines, w.warnings + out.warnings, out.error)
  }

  /** The writer after visiting the first `n` sheet names. */
  function WriteUpTo(f: FormValue, source: string, n: nat): (w: Writing)
    requires n <= |SheetNames|
    ensures w.form.order == f.order && w.form.sheets.Keys == f.sheets.Keys && w.form.headers.Keys == f.headers.Keys
  {
    if n == 0 then Writing(f, [], [], None)
    else WriteSheet(WriteUpTo(f, source, n - 1), SheetNames[n - 1], source)
  }

  /** `write_markdown(form)`: the lines joined by newlines, or the error. */
  function MarkdownWritten(f: FormValue, source: string): Result<string, Error>
  {
    var w := WriteUpTo(f, source, |SheetNames|);
    if w.error.Some? then Err(w.error.value) else Ok(Join(w.lines, "\n"))
  }

  /** Once a sheet has raised, the later sheet names change nothing. */
  lemma {:induction false} WriteErrSticks(f: FormValue, source: string, n: nat)
    requires n <= |SheetNames| && WriteUpTo(f, source, n).error.Some?
    ensures WriteUpTo(f, source, |SheetNames|) == WriteUpTo(f, source, n)
    decreases |SheetNames| - n
  {
    if n < |SheetNames| {
      WriteStopped(f, source, n);
      WriteErrSticks(f, source, n + 1);
    }
  }

  lemma {:induction false} WriteStopped(f: FormValue, source: string, n: nat)
    requires n < |SheetNames| && WriteUpTo(f, source, n).error.Some?
    ensures WriteUpTo(f, source, n + 1) == WriteUpTo(f, source, n)
  {
  }

  /** Escaping a row keeps each key's value, as its cell text. */
  lemma {:induction false} GetEscaped(row: Row, k: string)
    ensures Get(EscapedRow(row), k) == if Get(row, k).Some? then Some(CellText(Get(row, k).value)) else None
  {
    if row != [] {
      assert EscapedRow(row)[1..] == EscapedRow(row[1..]);
      GetEscaped(row[1..], k);
    }
  }

  /** The entries of an escaped row are the entries of the row, each with its
      value escaped. */
  lemma {:induction false} EscapedEntries(row: Row)
    ensures forall e :: e in EscapedRow(row) <==> exists d :: d in row && e == Entry(d.key, CellText(d.value))
  {
    forall e | e in EscapedRow(row) ensures exists d :: d in row && e == Entry(d.key, CellText(d.value)) {
      var i :| 0 <= i < |row| && EscapedRow(row)[i] == e;
      assert row[i] in row;
    }
    forall d | d in row ensures Entry(d.key, CellText(d.value)) in EscapedRow(row) {
      var i :| 0 <= i < |row| && row[i] == d;
      assert EscapedRow(row)[i] == Entry(d.key, CellText(d.value));
    }
  }

  /** Once a sheet with a non-empty header list is written, its rows have no
      `#` key, every value is one line with its pipes escaped, and every other
      key keeps its value in a form that unescapes to the value with its line
      breaks folded; a leading `#` header is popped. */
  lemma {:induction false} SheetResultShape(f: FormValue, name: string, source: string)
    requires name in f.sheets && name in f.headers && f.headers[name] != []
    ensures var out := SheetResult(f, name, source);
      out.headers == Popped(f.headers[name]) && |out.rows| == |f.sheets[name]|
    ensures var out := SheetResult(f, name, source);
      forall i :: 0 <= i < |out.rows| ==> !HasKey(out.rows[i], "#")
    ensures var out := SheetResult(f, name, source);
      forall i, e :: 0 <= i < |out.rows| && e in out.rows[i] ==> '\n' !in e.value && PipesEscaped(e.value)
    ensures var out := SheetResult(f, name, source);
      forall i, k :: 0 <= i < |out.rows| && k != "#" ==>
        (Get(out.rows[i], k).Some? <==> Get(f.sheets[name][i], k).Some?)
    ensures var out := SheetResult(f, name, source);
      forall i, k :: 0 <= i < |out.rows| && k != "#" && Get(out.rows[i], k).Some? ==>
        Unescape(Get(out.rows[i], k).value) == Fold(Get(f.sheets[name][i], k).value)
  {
    var rows := f.sheets[name];
    var out := SheetResult(f, name, source);
    var stripped := Uncommented(rows);
    assert out.rows == EscapedRows(stripped);
    UncommentedRows(rows);
    forall i | 0 <= i < |out.rows| ensures !HasKey(out.rows[i], "#") {
      GetEscaped(stripped[i], "#");
      GetSome(out.rows[i], "#");
      GetSome(stripped[i], "#");
    }
    forall i, e | 0 <= i < |out.rows| && e in out.rows[i] ensures '\n' !in e.value && PipesEscaped(e.value) {
      EscapedEntries(stripped[i]);
      var d: Entry :| d in stripped[i] && e == Entry(d.key, CellText(d.value));
      CellTextOneLine(d.value);
    }
    forall i, k | 0 <= i < |out.rows| && k != "#"
      ensures Get(out.rows[i], k).Some? <==> Get(rows[i], k).Some?
      ensures Get(out.rows[i], k).Some? ==> Unescape(Get(out.rows[i], k).value) == Fold(Get(rows[i], k).value)
    {
      GetEscaped(stripped[i], k);
      if Get(rows[i], k).Some? {
        UnescapeEscape(Fold(Get(rows[i], k).value));
      }
    }
  }

  /** The rows once comments are deleted and values escaped: each entry comes
      from an entry of the row under a key other than `#`, and each such entry
      is there. */
  lemma {:induction false} EscapedKeys(rows: seq<Row>)
    ensures forall i, e :: 0 <= i < |rows| && e in EscapedRows(Uncommented(rows))[i] ==>
      e.key != "#" && exists d :: d in rows[i] && e == Entry(d.key, CellText(d.value))
    ensures forall i, d :: 0 <= i < |rows| && d in rows[i] && d.key != "#" ==>
      Entry(d.key, CellText(d.value)) in EscapedRows(Uncommented(rows))[i]
  {
    var stripped: seq<Row> := Uncommented(rows);
    forall i: nat, e: Entry | i < |rows| && e in EscapedRows(stripped)[i]
      ensures e.key != "#" && exists d :: d in rows[i] && e == Entry(d.key, CellText(d.value))
    {
      EscapedEntries(stripped[i]);
      var d: Entry :| d in stripped[i] && e == Entry(d.key, CellText(d.value));
      var j :| 0 <= j < |stripped[i]| && stripped[i][j] == d;
    }
    forall i: nat, d: Entry | i < |rows| && d in rows[i] && d.key != "#"
      ensures Entry(d.key, CellText(d.value)) in EscapedRows(stripped)[i]
    {
      RemoveKeeps(rows[i], "#", d);
      EscapedEntries(stripped[i]);
    }
  }

  /** Writing a sheet fails when the form has no header list for it, or when
      that list is empty. */
  lemma {:induction false} SheetResultNoHeaders(f: FormValue, name: string, source: string)
    requires name in f.sheets
    ensures name !in f.headers ==> SheetResult(f, name, source).error == Some(KeyError(name))
    ensures name in f.headers && f.headers[name] == [] ==> SheetResult(f, name, source).error == Some(IndexError)
  {
  }

  /** With a non-empty header list, writing a sheet succeeds exactly when every
      key of every row other than `#` has a column. */
  lemma {:induction false} SheetResultOk(f: FormValue, name: string, source: string)
    requires name in f.sheets && name in f.headers && f.headers[name] != []
    ensures SheetResult(f, name, source).error.None? <==>
      forall i, e :: 0 <= i < |f.sheets[name]| && e in f.sheets[name][i] && e.key != "#" ==>
        ColumnIndex(f.headers[name], e.key).Some?
  {
    var rows: seq<Row> := f.sheets[name];
    var escaped := EscapedRows(Uncommented(rows));
    SheetWidthsFails(f.headers[name], escaped, |escaped|);
    EscapedKeys(rows);
  }

  /** Otherwise it fails with the `KeyError` of such a key. */
  lemma {:induction false} SheetResultKeyError(f: FormValue, name: string, source: string)
    requires name in f.sheets && name in f.headers && f.headers[name] != []
    requires SheetResult(f, name, source).error.Some?
    ensures exists i, e ::
      (0 <= i < |f.sheets[name]| && e in f.sheets[name][i] && e.key != "#"
       && ColumnIndex(f.headers[name], e.key).None? && SheetResult(f, name, source).error == Some(KeyError(e.key)))
  {
    var rows: seq<Row> := f.sheets[name];
    var escaped := EscapedRows(Uncommented(rows));
    SheetWidthsFails(f.headers[name], escaped, |escaped|);
    EscapedKeys(rows);
    var i: nat, e: Entry :| i < |escaped| && e in escaped[i] && ColumnIndex(f.headers[name], e.key).None?
      && SheetWidths(f.headers[name], escaped, |escaped|).error == KeyError(e.key);
    var d: Entry :| d in rows[i] && e == Entry(d.key, CellText(d.value));
  }

  /** The writer leaves the sheets it has not visited yet as given. */
  lemma {:induction false} WriteUpToUntouched(f: FormValue, source: string, n: nat)
    requires n <= |SheetNames|
    ensures var w := WriteUpTo(f, source, n);
      forall i :: n <= i < |SheetNames| && SheetNames[i] in f.sheets ==> w.form.sheets[SheetNames[i]] == f.sheets[SheetNames[i]]
    ensures var w := WriteUpTo(f, source, n);
      forall i :: n <= i < |SheetNames| && SheetNames[i] in f.headers ==> w.form.headers[SheetNames[i]] == f.headers[SheetNames[i]]
  {
    if n > 0 {
      WriteUpToUntouched(f, source, n - 1);
      WriteSheetOthers(WriteUpTo(f, source, n - 1), SheetNames[n - 1], source);
    }
  }

  /** Writing a sheet changes no other sheet and no other header list. */
  lemma {:induction false} WriteSheetOthers(w: Writing, name: string, source: string)
    ensures var w' := WriteSheet(w, name, source);
      forall other :: other != name && other in w.form.sheets ==> other in w'.form.sheets && w'.form.sheets[other] == w.form.sheets[other]
    ensures var w' := WriteSheet(w, name, source);
      forall other :: other != name && other in w.form.headers ==> other in w'.form.headers && w'.form.headers[other] == w.form.headers[other]
  {
  }

  /** The writer as if each sheet were written from the form as given rather
      than from the form as mutated so far. */
  function FromGiven(f: FormValue, source: string, n: nat): (w: Writing)
    requires n <= |SheetNames|
    ensures w.form.order == f.order && w.form.sheets.Keys == f.sheets.Keys && w.form.headers.Keys == f.headers.Keys
  {
    if n == 0 then Writing(f, [], [], None)
    else GivenSheet(FromGiven(f, source, n - 1), f, SheetNames[n - 1], source)
  }

  /** One turn of `FromGiven`: the sheet `name` written from `f`. */
  function GivenSheet(w: Writing, f: FormValue, name: string, source: string): Writing
  {
    if w.error.Some? || name !in f.sheets then w
    else
      var out := SheetResult(f, name, source);
      Writing(Apply(w.form, name, out), w.lines + out.lines, w.warnings + out.warnings, out.error)
  }

  /** Writing one sheet never affects how another is written, in spite of the
      in-place changes. */
  lemma {:induction false} SheetsIndependent(f: FormValue, source: string, n: nat)
    requires n <= |SheetNames|
    ensures WriteUpTo(f, source, n) == FromGiven(f, source, n)
  {
    if n > 0 {
      SheetsIndependent(f, source, n - 1);
      WriteUpToUntouched(f, source, n - 1);
      var w := WriteUpTo(f, source, n - 1);
      var name := SheetNames[n - 1];
      StepSame(w, f, name, source);
    }
  }

  /** A sheet is written the same way from any form holding the same rows
      and header list for it. */
  lemma {:induction false} StepSame(w: Writing, f: FormValue, name: string, source: string)
    requires name in w.form.sheets <==> name in f.sheets
    requires name in f.sheets ==> w.form.sheets[name] == f.sheets[name]
    requires name in w.form.headers <==> name in f.headers
    requires name in f.headers ==> w.form.headers[name] == f.headers[name]
    ensures WriteSheet(w, name, source) == GivenSheet(w, f, name, source)
  {
    if w.error.None? && name in f.sheets {
      assert SheetResult(w.form, name, source) == SheetResult(f, name, source);
    }
  }

  /** The writer stops at the first sheet that fails, with that sheet's error,
      and succeeds when no visited sheet fails. */
  lemma {:induction false} FromGivenError(f: FormValue, source: string, n: nat)
    requires n <= |SheetNames|
    ensures FromGiven(f, source, n).error.None? <==>
      forall i :: 0 <= i < n && SheetNames[i] in f.sheets ==> SheetResult(f, SheetNames[i], source).error.None?
    ensures FromGiven(f, source, n).error.Some? ==>
      exists i :: 0 <= i < n && SheetNames[i] in f.sheets
        && SheetResult(f, SheetNames[i], source).error == FromGiven(f, source, n).error
        && forall j :: 0 <= j < i && SheetNames[j] in f.sheets ==> SheetResult(f, SheetNames[j], source).error.None?
  {
    if n > 0 {
      FromGivenError(f, source, n - 1);
    }
  }

  /** After a successful write, each sheet holds exactly the rows and header
      list its own writing leaves. */
  lemma {:induction false} FromGivenForm(f: FormValue, source: string, n: nat)
    requires n <= |SheetNames| && FromGiven(f, source, n).error.None?
    ensures var w := FromGiven(f, source, n);
      forall i :: 0 <= i < n && SheetNames[i] in f.sheets ==>
        w.form.sheets[SheetNames[i]] == SheetResult(f, SheetNames[i], source).rows
        && (SheetNames[i] in f.headers ==> w.form.headers[SheetNames[i]] == SheetResult(f, SheetNames[i], source).headers)
  {
    if n > 0 {
      FromGivenForm(f, source, n - 1);
    }
  }

  /** A sheet the writer does not visit is left as given. */
  lemma {:induction false} FromGivenOthers(f: FormValue, source: string, n: nat)
    requires n <= |SheetNames|
    ensures var w := FromGiven(f, source, n);
      forall name :: name in f.sheets && name !in SheetNames[..n] ==> w.form.sheets[name] == f.sheets[name]
  {
    if n > 0 {
      FromGivenOthers(f, source, n - 1);
      assert SheetNames[..n] == SheetNames[..n - 1] + [SheetNames[n - 1]];
    }
  }

  /** `write_markdown` succeeds exactly when each of the form's sheets can be
      written; its text is the lines of the sheets, each written from the
      form as given, joined by newlines; and it fails with the error of the
      first sheet that fails. */
  lemma {:induction false} MarkdownWrittenSpec(f: FormValue, source: string)
    ensures MarkdownWritten(f, source).Ok? <==>
      forall i :: 0 <= i < |SheetNames| && SheetNames[i] in f.sheets ==> SheetResult(f, SheetNames[i], source).error.None?
    ensures MarkdownWritten(f, source).Ok? ==> MarkdownWritten(f, source).value == Join(FromGiven(f, source, |SheetNames|).lines, "\n")
    ensures MarkdownWritten(f, source).Err? ==>
      exists i :: 0 <= i < |SheetNames| && SheetNames[i] in f.sheets
        && SheetResult(f, SheetNames[i], source).error == Some(MarkdownWritten(f, source).error)
        && forall j :: 0 <= j < i && SheetNames[j] in f.sheets ==> SheetResult(f, SheetNames[j], source).error.None?
  {
    SheetsIndependent(f, source, |SheetNames|);
    FromGivenError(f, source, |SheetNames|);
  }

  /** After a successful write every sheet of the form has lost its comments
      and holds escaped, single-line values, and every header list has lost
      its leading `#`. */
  lemma {:induction false} WrittenForm(f: FormValue, source: string)
    requires MarkdownWritten(f, source).Ok?
    ensures var w := WriteUpTo(f, source, |SheetNames|);
      forall i :: 0 <= i < |SheetNames| && SheetNames[i] in f.sheets ==>
        SheetNames[i] in f.headers && f.headers[SheetNames[i]] != []
        && w.form.headers[SheetNames[i]] == Popped(f.headers[SheetNames[i]])
        && forall row :: row in w.form.sheets[SheetNames[i]] ==> !HasKey(row, "#")
    ensures var w := WriteUpTo(f, source, |SheetNames|);
      forall i :: 0 <= i < |SheetNames| && SheetNames[i] in f.sheets ==>
        forall row, e :: row in w.form.sheets[SheetNames[i]] && e in row ==> '\n' !in e.value && PipesEscaped(e.value)
  {
    SheetsIndependent(f, source, |SheetNames|);
    FromGivenError(f, source, |SheetNames|);
    FromGivenForm(f, source, |SheetNames|);
    forall i | 0 <= i < |SheetNames| && SheetNames[i] in f.sheets
      ensures SheetNames[i] in f.headers && f.headers[SheetNames[i]] != []
    {
      SheetResultNoHeaders(f, SheetNames[i], source);
    }
    forall i | 0 <= i < |SheetNames| && SheetNames[i] in f.sheets && SheetNames[i] in f.headers && f.headers[SheetNames[i]] != [] {
      SheetResultShape(f, SheetNames[i], source);
    }
  }

  /* ---------------------------------------------------------------- */
  /* The writer over the form object                                  */
  /* ---------------------------------------------------------------- */

  /** The body of the loop of `write_markdown` for a sheet the form has: it
      changes the form as it goes, so a step that raises leaves the changes
      of the steps before it. */
  method WriteSheetInPlace(form: Form, name: string, source: string) returns (lines: seq<string>, warnings: seq<Warning>, error: Option<Error>)
    requires name in form.sheets
    modifies form
    ensures var out := SheetResult(old(form.Value()), name, source);
      form.Value() == Apply(old(form.Value()), name, out)
      && lines == out.lines && warnings == out.warnings && error == out.error
  {
    if name !in form.headers {
      return ["## " + name, ""], [], Some(KeyError(name));
    }
    var out := WriteRows(name, form.sheets[name], form.headers[name], source);
    form.sheets := form.sheets[name := out.rows];
    form.headers := form.headers[name := out.headers];
    return out.lines, out.warnings, out.error;
  }

  /** The passes over one sheet's rows with the header list `original`:
      comments, popping `#`, escaping, widths and rendering. A pass that
      raises leaves the rows and header list as the passes before it made
      them. */
  method WriteRows(name: string, rows: Sheet, original: seq<string>, source: string) returns (out: SheetOut)
    ensures out == WriteSheetRows(name, rows, original, source)
  {
    var lines := ["## " + name, ""];
    var comments, stripped := ExtractComments(rows);
    lines := lines + comments;
    if original == [] {
      return SheetOut(stripped, original, lines, [], Some(IndexError));
    }
    var headers := original;
    if original[0] == "#" {
      headers := original[1..];
    }
    var escaped, warnings := EscapeCells(stripped, source);
    var widths := ColumnWidths(original, escaped);
    if widths.Err? {
      return SheetOut(escaped, headers, lines, warnings, Some(widths.error));
    }
    var table := RenderTable(headers, widths.value, escaped);
    return SheetOut(escaped, headers, lines + table, warnings, None);
  }

  /** `write_markdown(form)` on the form object: the Markdown text or the
      error raised, and the warnings logged on the way. */
  method WriteMarkdown(form: Form, source: string) returns (r: Result<string, Error>, warnings: seq<Warning>)
    modifies form
    ensures r == MarkdownWritten(old(form.Value()), source)
    ensures form.Value() == WriteUpTo(old(form.Value()), source, |SheetNames|).form
    ensures warnings == WriteUpTo(old(form.Value()), source, |SheetNames|).warnings
  {
    ghost var f := form.Value();
    var md: seq<string> := [];
    warnings := [];
    for n := 0 to |SheetNames|
      invariant WriteUpTo(f, source, n) == Writing(form.Value(), md, warnings, None)
    {
      var name := SheetNames[n];
      ghost var w := Writing(form.Value(), md, warnings, None);
      assert WriteUpTo(f, source, n + 1) == WriteSheet(w, name, source);
      if name in form.sheets {
        var lines, more, error := WriteSheetInPlace(form, name, source);
        md := md + lines;
        warnings := warnings + more;
        assert WriteSheet(w, name, source) == Writing(form.Value(), md, warnings, error);
        if error.Some? {
          WriteErrSticks(f, source, n + 1);
          r := Err(error.value);
          return;
        }
      }
    }
    r := Ok(Join(md, "\n"));
  }
}
