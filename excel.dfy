/** yxf/excel.py: reading an XLSForm workbook into the canonical form and
    writing the form back out as a workbook. */
module Excel {
  import opened Wrappers
  import opened Strings
  import opened Errors
  import opened Rows
  import opened Spreadsheet
  import opened XlsForm
  import opened Forms

  /* ---------------------------------------------------------------- */
  /* validate_sheet_name                                              */
  /* ---------------------------------------------------------------- */

  /** Only survey, choices and settings are sheet names; any other name fails
      with an error located at `source:line`. */
  function ValidateSheetName(name: string, source: string, line: nat): (r: Outcome<Error>)
    ensures r.Pass? <==> name in SheetNames
    ensures r.Fail? ==> r.error == InvalidSheetName(source, line, name)
  {
    if name in SheetNames then Pass else Fail(InvalidSheetName(source, line, name))
  }

  lemma {:induction false} ValidateSheetNameMessage(name: string, source: string, line: nat)
    requires name !in SheetNames
    ensures StartsWith(Message(ValidateSheetName(name, source, line).error), Location(source, line))
  {
    var rest := " Invalid sheet name (must be survey, choices, or settings): " + name;
    assert Message(InvalidSheetName(source, line, name)) == Location(source, line) + rest;
    StartsWithAppend(Location(source, line), rest);
  }

  /* ---------------------------------------------------------------- */
  /* row_to_dict                                                      */
  /* ---------------------------------------------------------------- */

  /** A value row_to_dict keeps: neither `None` nor the empty string. */
  predicate Filled(v: Option<string>)
  {
    v.Some? && v.value != ""
  }

  function MinLen<A, B>(a: seq<A>, b: seq<B>): nat
  {
    if |a| <= |b| then |a| else |b|
  }

  /** The dictionary after the first `n` (header, value) pairs of the zip. */
  function RowDictUpTo(headers: seq<Option<string>>, values: seq<Option<string>>, n: nat): Result<Row, Error>
    requires n <= |headers| && n <= |values|
  {
    if n == 0 then Ok([])
    else match RowDictUpTo(headers, values, n - 1)
      case Err(e) => Err(e)
      case Ok(d) =>
        if !Filled(values[n - 1]) then Ok(d)
        else if headers[n - 1].None? then Err(MissingHeader(values[n - 1].value))
        else Ok(Set(d, headers[n - 1].value, values[n - 1].value))
  }

  /** What `row_to_dict(headers, values)` returns or raises. */
  function RowDict(headers: seq<Option<string>>, values: seq<Option<string>>): Result<Row, Error>
  {
    RowDictUpTo(headers, values, MinLen(headers, values))
  }

  /** A pair the zip skips over or fails on. */
  predicate Orphan(headers: seq<Option<string>>, values: seq<Option<string>>, i: nat)
    requires i < |headers| && i < |values|
  {
    Filled(values[i]) && headers[i].None?
  }

  method RowToDict(headers: seq<Option<string>>, values: seq<Option<string>>) returns (r: Result<Row, Error>)
    ensures r == RowDict(headers, values)
  {
    var d: Row := [];
    var n := MinLen(headers, values);
    for i := 0 to n
      invariant RowDictUpTo(headers, values, i) == Ok(d)
    {
      var v := values[i];
      if v.None? || v.value == "" {
        continue;
      }
      if headers[i].None? {
        RowDictErrSticks(headers, values, i + 1, n);
        return Err(MissingHeader(v.value));
      }
      d := Set(d, headers[i].value, v.value);
    }
    return Ok(d);
  }

  lemma {:induction false} RowDictErrSticks(headers: seq<Option<string>>, values: seq<Option<string>>, k: nat, n: nat)
    requires k <= n <= |headers| && n <= |values|
    requires RowDictUpTo(headers, values, k).Err?
    ensures RowDictUpTo(headers, values, n) == RowDictUpTo(headers, values, k)
    decreases n - k
  {
    if k < n {
      RowDictErrSticks(headers, values, k, n - 1);
    }
  }

  /** row_to_dict fails exactly when some non-empty value sits under a `None`
      header, and then with the first such value. */
  lemma {:induction false} RowDictUpToFails(headers: seq<Option<string>>, values: seq<Option<string>>, n: nat)
    requires n <= |headers| && n <= |values|
    ensures RowDictUpTo(headers, values, n).Err? <==> exists i :: 0 <= i < n && Orphan(headers, values, i)
    ensures RowDictUpTo(headers, values, n).Err? ==>
      exists i :: 0 <= i < n && Orphan(headers, values, i)
        && RowDictUpTo(headers, values, n).error == MissingHeader(values[i].value)
        && forall j :: 0 <= j < i ==> !Orphan(headers, values, j)
  {
    if n > 0 {
      RowDictUpToFails(headers, values, n - 1);
      forall i | 0 <= i < n && Orphan(headers, values, i)
        ensures RowDictUpTo(headers, values, n).Err?
      {
        if i < n - 1 {
          assert RowDictUpTo(headers, values, n - 1).Err?;
        }
      }
      if RowDictUpTo(headers, values, n).Err? {
        if RowDictUpTo(headers, values, n - 1).Err? {
          var i :| 0 <= i < n - 1 && Orphan(headers, values, i)
            && RowDictUpTo(headers, values, n - 1).error == MissingHeader(values[i].value)
            && forall j :: 0 <= j < i ==> !Orphan(headers, values, j);
          assert RowDictUpTo(headers, values, n).error == MissingHeader(values[i].value);
        } else {
          assert Orphan(headers, values, n - 1);
        }
      }
    }
  }

  lemma {:induction false} RowDictFails(headers: seq<Option<string>>, values: seq<Option<string>>)
    ensures RowDict(headers, values).Err? <==>
      exists i :: 0 <= i < |headers| && i < |values| && Orphan(headers, values, i)
    ensures RowDict(headers, values).Err? ==>
      exists i :: 0 <= i < |headers| && i < |values| && Orphan(headers, values, i)
        && RowDict(headers, values).error == MissingHeader(values[i].value)
  {
    RowDictUpToFails(headers, values, MinLen(headers, values));
  }

  /** The value of the last kept cell under header `k` among the first `n`
      pairs: a later column with the same header overwrites an earlier one. */
  function LastValue(headers: seq<Option<string>>, values: seq<Option<string>>, n: nat, k: string): Option<string>
    requires n <= |headers| && n <= |values|
  {
    if n == 0 then None
    else if Filled(values[n - 1]) && headers[n - 1] == Some(k) then Some(values[n - 1].value)
    else LastValue(headers, values, n - 1, k)
  }

  /** A successful row_to_dict maps every header to the last non-empty value
      under it, has no duplicate keys and holds no empty value. */
  lemma {:induction false} RowDictUpToContents(headers: seq<Option<string>>, values: seq<Option<string>>, n: nat)
    requires n <= |headers| && n <= |values|
    requires RowDictUpTo(headers, values, n).Ok?
    ensures var d := RowDictUpTo(headers, values, n).value;
      && UniqueKeys(d)
      && (forall e :: e in d ==> e.value != "")
      && (forall k :: Get(d, k) == LastValue(headers, values, n, k))
  {
    if n > 0 {
      RowDictUpToContents(headers, values, n - 1);
      var d := RowDictUpTo(headers, values, n - 1).value;
      if Filled(values[n - 1]) {
        var h, v := headers[n - 1].value, values[n - 1].value;
        SetUnique(d, h, v);
        SetEntries(d, h, v);
        forall k ensures Get(Set(d, h, v), k) == LastValue(headers, values, n, k) {
          SetGet(d, h, v, k);
        }
      }
    }
  }

  lemma {:induction false} RowDictContents(headers: seq<Option<string>>, values: seq<Option<string>>)
    requires RowDict(headers, values).Ok?
    ensures var d := RowDict(headers, values).value;
      && UniqueKeys(d)
      && (forall e :: e in d ==> e.value != "")
      && (forall k :: Get(d, k) == LastValue(headers, values, MinLen(headers, values), k))
  {
    RowDictUpToContents(headers, values, MinLen(headers, values));
  }

  /** Only the first `n` pairs matter. */
  lemma {:induction false} RowDictUpToPrefix(h: seq<Option<string>>, v: seq<Option<string>>,
                                             h': seq<Option<string>>, v': seq<Option<string>>, n: nat)
    requires n <= |h| && n <= |v| && n <= |h'| && n <= |v'|
    requires h[..n] == h'[..n] && v[..n] == v'[..n]
    ensures RowDictUpTo(h, v, n) == RowDictUpTo(h', v', n)
  {
    if n > 0 {
      assert h[..n - 1] == h[..n][..n - 1] && h'[..n - 1] == h'[..n][..n - 1];
      assert v[..n - 1] == v[..n][..n - 1] && v'[..n - 1] == v'[..n][..n - 1];
      assert h[n - 1] == h[..n][n - 1] && h'[n - 1] == h'[..n][n - 1];
      assert v[n - 1] == v[..n][n - 1] && v'[n - 1] == v'[..n][n - 1];
      RowDictUpToPrefix(h, v, h', v', n - 1);
    }
  }

  /** Empty values past position `k` change nothing. */
  lemma {:induction false} RowDictUpToSkips(h: seq<Option<string>>, v: seq<Option<string>>, k: nat, n: nat)
    requires k <= n <= |h| && n <= |v|
    requires forall i :: k <= i < n ==> !Filled(v[i])
    ensures RowDictUpTo(h, v, n) == RowDictUpTo(h, v, k)
    decreases n - k
  {
    if k < n {
      RowDictUpToSkips(h, v, k, n - 1);
    }
  }

  /** No header names two columns. */
  predicate DistinctHeaders(headers: seq<Option<string>>)
  {
    forall i, j :: 0 <= i < j < |headers| && headers[i].Some? ==> headers[i] != headers[j]
  }

  /** The kept (header, value) pairs among the first `n`, in column order. */
  function Kept(headers: seq<Option<string>>, values: seq<Option<string>>, n: nat): (r: Row)
    requires n <= |headers| && n <= |values|
    ensures |r| <= n
  {
    if n == 0 then []
    else
      var kept := if Filled(values[n - 1]) && headers[n - 1].Some?
        then [Entry(headers[n - 1].value, values[n - 1].value)] else [];
      Kept(headers, values, n - 1) + kept
  }

  /** A header further right is not yet a key among the first `n` kept pairs. */
  lemma {:induction false} KeptFresh(headers: seq<Option<string>>, values: seq<Option<string>>, n: nat, m: nat)
    requires n <= m < |headers| && n <= |values|
    requires DistinctHeaders(headers) && headers[m].Some?
    ensures !HasKey(Kept(headers, values, n), headers[m].value)
  {
    if n > 0 {
      KeptFresh(headers, values, n - 1, m);
      var d := Kept(headers, values, n - 1);
      if Filled(values[n - 1]) && headers[n - 1].Some? {
        KeysSnoc(d, Entry(headers[n - 1].value, values[n - 1].value));
      } else {
        assert Kept(headers, values, n) == d;
      }
    }
  }

  /** With distinct headers every kept pair is a new key, so the dictionary
      lists the non-empty cells in column order. */
  lemma {:induction false} RowDictUpToKept(headers: seq<Option<string>>, values: seq<Option<string>>, n: nat)
    requires n <= |headers| && n <= |values|
    requires DistinctHeaders(headers)
    requires forall i :: 0 <= i < n ==> !Orphan(headers, values, i)
    ensures RowDictUpTo(headers, values, n) == Ok(Kept(headers, values, n))
  {
    if n > 0 {
      RowDictUpToKept(headers, values, n - 1);
      var d := Kept(headers, values, n - 1);
      assert !Orphan(headers, values, n - 1);
      if Filled(values[n - 1]) {
        var k := headers[n - 1].value;
        KeptFresh(headers, values, n - 1, n - 1);
        SetAppends(d, k, values[n - 1].value);
      } else {
        assert d + [] == d;
      }
    }
  }

  /* ---------------------------------------------------------------- */
  /* _convert_sheet                                                   */
  /* ---------------------------------------------------------------- */

  /** A header cell as a dictionary key: a blank header is `None`. Keys are
      text here, so a numeric header becomes its decimal digits where the
      source would key the dictionary by the int itself. */
  function HeaderKey(c: Cell): (r: Option<string>)
    ensures r.None? <==> c == Blank
  {
    match c
    case Blank => None
    case Text(s) => Some(s)
    case Number(n) => Some(IntToString(n))
  }

  function HeaderKeys(line: Line): (r: seq<Option<string>>)
    ensures |r| == |line|
    ensures forall i :: 0 <= i < |line| ==> r[i] == HeaderKey(line[i])
  {
    seq(|line|, i requires 0 <= i < |line| => HeaderKey(line[i]))
  }

  /** Text headers as `row_to_dict` sees them: every one a key, never `None`.
      The Markdown reader, the older module's reader and the written sheet
      all give it text headers. */
  function TextKeys(texts: seq<string>): (r: seq<Option<string>>)
    ensures |r| == |texts|
    ensures forall i :: 0 <= i < |texts| ==> r[i] == Some(texts[i])
  {
    seq(|texts|, i requires 0 <= i < |texts| => Some(texts[i]))
  }

  /** `[stringify_value(v) for v in values]`. */
  function Stringified(line: Line): (r: seq<Option<string>>)
    ensures |r| == |line|
    ensures forall i :: 0 <= i < |line| ==> r[i] == Some(StringifyValue(line[i]))
  {
    seq(|line|, i requires 0 <= i < |line| => Some(StringifyValue(line[i])))
  }

  /** One content row as a dictionary. */
  function ReadLine(headers: seq<Option<string>>, line: Line): Result<Row, Error>
  {
    RowDict(headers, Stringified(Truncated(line)))
  }

  /** The dictionaries of the content rows, empty ones dropped, or the first error. */
  function ReadLines(headers: seq<Option<string>>, lines: seq<Line>): Result<seq<Row>, Error>
  {
    if lines == [] then Ok([])
    else match ReadLines(headers, lines[..|lines| - 1])
      case Err(e) => Err(e)
      case Ok(acc) =>
        match ReadLine(headers, lines[|lines| - 1])
        case Err(e) => Err(e)
        case Ok(d) => Ok(if d == [] then acc else acc + [d])
  }

  /** What `_convert_sheet(sheet)` returns or raises, with the stringifier defined. */
  function SheetRows(sheet: Grid): Result<seq<Row>, Error>
  {
    if sheet == [] then Err(StopIteration)
    else ReadLines(HeaderKeys(Truncated(sheet[0])), sheet[1..])
  }

  method ConvertSheet(sheet: Grid) returns (r: Result<seq<Row>, Error>)
    ensures r == SheetRows(sheet)
  {
    var headerLine :- Headers(sheet);
    var content := ContentRows(sheet).value;
    assert content == sheet[1..];
    r := ReadContent(HeaderKeys(headerLine), content);
  }

  /** The loop of `_convert_sheet` over the content rows: each row truncated,
      stringified and zipped with the headers, empty dictionaries dropped. */
  method ReadContent(headers: seq<Option<string>>, content: seq<Line>) returns (r: Result<seq<Row>, Error>)
    ensures r == ReadLines(headers, content)
  {
    var result: seq<Row> := [];
    for k := 0 to |content|
      invariant ReadLines(headers, content[..k]) == Ok(result)
    {
      assert content[..k + 1][..k] == content[..k];
      var values := TruncateRow(content[k]);
      var d := RowToDict(headers, Stringified(values));
      if d.Err? {
        ReadLinesErrSticks(headers, content, k + 1);
        return Err(d.error);
      }
      if d.value != [] {
        result := result + [d.value];
      }
    }
    assert content[..|content|] == content;
    return Ok(result);
  }

  lemma {:induction false} ReadLinesErrSticks(headers: seq<Option<string>>, lines: seq<Line>, k: nat)
    requires k <= |lines|
    requires ReadLines(headers, lines[..k]).Err?
    ensures ReadLines(headers, lines) == ReadLines(headers, lines[..k])
    decreases |lines| - k
  {
    if k < |lines| {
      var prefix := lines[..|lines| - 1];
      assert prefix[..k] == lines[..k];
      ReadLinesErrSticks(headers, prefix, k);
      assert ReadLines(headers, prefix).Err?;
    } else {
      assert lines[..k] == lines;
    }
  }

  /** Every row read is non-empty, has distinct keys and no empty value. */
  lemma {:induction false} ReadLinesShape(headers: seq<Option<string>>, lines: seq<Line>)
    requires ReadLines(headers, lines).Ok?
    ensures forall d :: d in ReadLines(headers, lines).value ==>
      d != [] && UniqueKeys(d) && forall e :: e in d ==> e.value != ""
    ensures |ReadLines(headers, lines).value| <= |lines|
  {
    if lines != [] {
      ReadLinesShape(headers, lines[..|lines| - 1]);
      var last := Stringified(Truncated(lines[|lines| - 1]));
      RowDictContents(headers, last);
    }
  }

  /** Reading fails exactly when some content row fails. */
  lemma {:induction false} ReadLinesFails(headers: seq<Option<string>>, lines: seq<Line>)
    ensures ReadLines(headers, lines).Err? <==> exists k :: 0 <= k < |lines| && ReadLine(headers, lines[k]).Err?
  {
    if ReadLines(headers, lines).Err? {
      ReadLinesFailWitness(headers, lines);
    }
    if k :| 0 <= k < |lines| && ReadLine(headers, lines[k]).Err? {
      ReadLineFailsAll(headers, lines, k);
    }
  }

  /** One failing line makes the whole read fail. */
  lemma {:induction false} ReadLineFailsAll(headers: seq<Option<string>>, lines: seq<Line>, k: nat)
    requires k < |lines| && ReadLine(headers, lines[k]).Err?
    ensures ReadLines(headers, lines).Err?
  {
    if k < |lines| - 1 {
      var prefix := lines[..|lines| - 1];
      assert prefix[k] == lines[k];
      ReadLineFailsAll(headers, prefix, k);
    }
  }

  /** A failing read has a failing line. */
  lemma {:induction false} ReadLinesFailWitness(headers: seq<Option<string>>, lines: seq<Line>)
    requires ReadLines(headers, lines).Err?
    ensures exists k :: 0 <= k < |lines| && ReadLine(headers, lines[k]).Err?
  {
    var prefix := lines[..|lines| - 1];
    if ReadLines(headers, prefix).Err? {
      ReadLinesFailWitness(headers, prefix);
      var k :| 0 <= k < |prefix| && ReadLine(headers, prefix[k]).Err?;
      assert lines[k] == prefix[k];
    } else {
      assert ReadLine(headers, lines[|lines| - 1]).Err?;
    }
  }

  /** `line` has a cell that is not blank, empty or zero under a blank cell of
      the truncated header row. */
  predicate UnlabelledCell(header: Line, line: Line)
  {
    exists i :: 0 <= i < |Truncated(header)| && i < |line|
      && Truncated(header)[i] == Blank && StringifyValue(line[i]) != ""
  }

  /** One content row fails exactly when it has an unlabelled cell. */
  lemma {:induction false} ReadLineFails(header: Line, line: Line)
    ensures ReadLine(HeaderKeys(Truncated(header)), line).Err? <==> UnlabelledCell(header, line)
  {
    var headers := HeaderKeys(Truncated(header));
    var values := Stringified(Truncated(line));
    RowDictFails(headers, values);
    if ReadLine(headers, line).Err? {
      var i :| 0 <= i < |headers| && i < |values| && Orphan(headers, values, i);
      assert Truncated(line)[i] == line[i];
    }
    forall i | 0 <= i < |Truncated(header)| && i < |line|
        && Truncated(header)[i] == Blank && StringifyValue(line[i]) != ""
      ensures ReadLine(headers, line).Err?
    {
      assert i < |Truncated(line)|;
      assert Truncated(line)[i] == line[i];
      assert Orphan(headers, values, i);
    }
  }

  /** A sheet with a header row fails to read exactly when one of its content
      rows has an unlabelled cell. */
  lemma {:induction false} SheetRowsFails(sheet: Grid)
    requires sheet != []
    ensures SheetRows(sheet).Err? <==> exists k :: 1 <= k < |sheet| && UnlabelledCell(sheet[0], sheet[k])
  {
    var headers := HeaderKeys(Truncated(sheet[0]));
    var lines := sheet[1..];
    ReadLinesFails(headers, lines);
    forall k | 0 <= k < |lines|
      ensures ReadLine(headers, lines[k]).Err? <==> UnlabelledCell(sheet[0], sheet[k + 1])
    {
      ReadLineFails(sheet[0], lines[k]);
    }
    if exists k :: 1 <= k < |sheet| && UnlabelledCell(sheet[0], sheet[k]) {
      var k :| 1 <= k < |sheet| && UnlabelledCell(sheet[0], sheet[k]);
      assert ReadLine(headers, lines[k - 1]).Err?;
    }
  }

  /** `_convert_sheet` as excel.py:58-66 writes it: `xlsform.stringify_value`
      is not defined, so the first content row that still has a cell after
      truncation raises AttributeError; rows without cells read as empty
      dictionaries and are dropped. */
  function SheetRowsAsWritten(sheet: Grid): Result<seq<Row>, Error>
  {
    if sheet == [] then Err(StopIteration)
    else if exists k :: 1 <= k < |sheet| && Truncated(sheet[k]) != [] then Err(AttributeError("stringify_value"))
    else Ok([])
  }

  /** Content rows with no cells contribute nothing. */
  lemma {:induction false} ReadLinesOfEmpty(headers: seq<Option<string>>, lines: seq<Line>)
    requires forall k :: 0 <= k < |lines| ==> Truncated(lines[k]) == []
    ensures ReadLines(headers, lines) == Ok([])
  {
    if lines != [] {
      ReadLinesOfEmpty(headers, lines[..|lines| - 1]);
      assert Stringified(Truncated(lines[|lines| - 1])) == [];
    }
  }

  /** The sheet reader as written agrees with the corrected one only on sheets
      without data: it never returns a row, and it fails whenever the corrected
      reader returns one. */
  lemma {:induction false} AsWrittenLosesData(sheet: Grid)
    ensures SheetRowsAsWritten(sheet).Ok? ==> SheetRows(sheet) == Ok([])
    ensures SheetRows(sheet).Ok? && SheetRows(sheet).value != [] ==>
      SheetRowsAsWritten(sheet) == Err(AttributeError("stringify_value"))
  {
    if sheet != [] && !exists k :: 1 <= k < |sheet| && Truncated(sheet[k]) != [] {
      forall k | 0 <= k < |sheet[1..]| ensures Truncated(sheet[1..][k]) == [] {
        assert sheet[1..][k] == sheet[k + 1];
      }
      ReadLinesOfEmpty(HeaderKeys(Truncated(sheet[0])), sheet[1..]);
    }
  }

  /** A one-question survey read both ways. */
  lemma {:induction false} AsWrittenExample()
    ensures var sheet := [[Text("type"), Text("name")], [Text("text"), Text("q1")]];
      && SheetRowsAsWritten(sheet) == Err(AttributeError("stringify_value"))
      && SheetRows(sheet) == Ok([[Entry("type", "text"), Entry("name", "q1")]])
  {
    var sheet := [[Text("type"), Text("name")], [Text("text"), Text("q1")]];
    assert Truncated(sheet[1]) != [];
    TruncatedUnique(sheet[0], sheet[0]);
    TruncatedUnique(sheet[1], sheet[1]);
    var headers := HeaderKeys(sheet[0]);
    var values := Stringified(sheet[1]);
    assert headers == [Some("type"), Some("name")];
    assert values == [Some("text"), Some("q1")];
    assert RowDictUpTo(headers, values, 1) == Ok([Entry("type", "text")]);
    assert Set([Entry("type", "text")], "name", "q1") == [Entry("type", "text"), Entry("name", "q1")];
    assert RowDict(headers, values) == Ok([Entry("type", "text"), Entry("name", "q1")]);
    assert ReadLine(headers, sheet[1]) == Ok([Entry("type", "text"), Entry("name", "q1")]);
    assert sheet[1..] == [sheet[1]];
    var lines := [sheet[1]];
    assert lines[..|lines| - 1] == [];
    assert ReadLines(headers, lines[..|lines| - 1]) == Ok([]);
    assert [] + [[Entry("type", "text"), Entry("name", "q1")]] == [[Entry("type", "text"), Entry("name", "q1")]];
    assert ReadLines(headers, [sheet[1]]) == Ok([[Entry("type", "text"), Entry("name", "q1")]]);
    assert HeaderKeys(Truncated(sheet[0])) == headers;
  }

  /* ---------------------------------------------------------------- */
  /* _convert_to_sheet                                                */
  /* ---------------------------------------------------------------- */

  function ListName(row: Row): Option<string>
  {
    Get(row, "list_name")
  }

  predicate BeginsGroup(row: Row)
  {
    Get(row, "type") == Some("begin_group")
  }

  /** The sheet row `rows[k]` is written to: one row further down per row, plus
      a blank row before each `begin_group` and before each change of
      `list_name` (the first row counts as no change). */
  function TargetRow(rows: seq<Row>, k: nat): (t: nat)
    requires k < |rows|
    ensures t >= k + 2
  {
    var group := if BeginsGroup(rows[k]) then 1 else 0;
    if k == 0 then 2 + group
    else
      var change := if ListName(rows[k]) != ListName(rows[k - 1]) then 1 else 0;
      TargetRow(rows, k - 1) + 1 + group + change
  }

  /** `next_row` when the loop reaches `rows[k]`. */
  function NextRowBefore(rows: seq<Row>, k: nat): nat
    requires k <= |rows|
  {
    if k == 0 then 2 else TargetRow(rows, k - 1) + 1
  }

  /** `previous_list_name` when the loop reaches `rows[k]`. */
  function PreviousListName(rows: seq<Row>, k: nat): Option<string>
    requires k <= |rows|
  {
    if k == 0 then (if |rows| > 0 then ListName(rows[0]) else None) else ListName(rows[k - 1])
  }

  lemma {:induction false} TargetRowStep(rows: seq<Row>, k: nat)
    requires k < |rows|
    ensures TargetRow(rows, k) == NextRowBefore(rows, k) + (if BeginsGroup(rows[k]) then 1 else 0)
      + (if ListName(rows[k]) != PreviousListName(rows, k) then 1 else 0)
  {
  }

  /** The counter updates of `_convert_to_sheet` on reaching `rows[k]`: a
      group start and a change of list name each skip one row. */
  method AdvanceRow(rows: seq<Row>, k: nat, nextRow: nat, previousListName: Option<string>)
    returns (target: Index1, listName: Option<string>)
    requires k < |rows|
    requires nextRow == NextRowBefore(rows, k) && previousListName == PreviousListName(rows, k)
    ensures target == TargetRow(rows, k) && listName == ListName(rows[k])
  {
    TargetRowStep(rows, k);
    target, listName := nextRow, previousListName;
    if BeginsGroup(rows[k]) {
      target := target + 1;
    }
    if ListName(rows[k]) != listName {
      listName := ListName(rows[k]);
      target := target + 1;
    }
  }

  /** One `sheet.cell(row=…, column=…, value=…)` call. */
  datatype Write = Write(row: Index1, column: Index1, value: string)

  type Index1 = n: int | 1 <= n witness 1

  /** The header row: `keys[i]` in column `i + 1` of row 1, left to right. */
  function HeaderWrites(keys: seq<string>): (ws: seq<Write>)
    ensures |ws| == |keys|
  {
    seq(|keys|, i requires 0 <= i < |keys| => Write(1, i + 1, keys[i]))
  }

  /** The cells of one row, for the first `n` columns that the row has a value for. */
  function RowWrites(row: Row, keys: seq<string>, target: Index1, n: nat): seq<Write>
    requires n <= |keys|
  {
    if n == 0 then []
    else
      var value := Get(row, keys[n - 1]);
      var cell := if value.Some? then [Write(target, n, value.value)] else [];
      RowWrites(row, keys, target, n - 1) + cell
  }

  /** The cells of the first `n` rows, each on its target row. */
  function DataWrites(rows: seq<Row>, keys: seq<string>, n: nat): seq<Write>
    requires n <= |rows|
  {
    if n == 0 then []
    else DataWrites(rows, keys, n - 1) + RowWrites(rows[n - 1], keys, TargetRow(rows, n - 1), |keys|)
  }

  /** The first key of the row, in the row's order, that is not a column. */
  function StrayKey(row: Row, keys: seq<string>): (r: Option<string>)
    ensures r.Some? ==> HasKey(row, r.value) && r.value !in keys
  {
    if row == [] then None
    else if row[0].key !in keys then Some(row[0].key)
    else
      KeysCons(row[0], row[1..]);
      assert row == [row[0]] + row[1..];
      StrayKey(row[1..], keys)
  }

  /** A row has no stray key exactly when every one of its keys is a column. */
  lemma {:induction false} StrayKeyNone(row: Row, keys: seq<string>)
    ensures StrayKey(row, keys).None? <==> forall e :: e in row ==> e.key in keys
  {
    if row != [] {
      StrayKeyNone(row[1..], keys);
      assert row == [row[0]] + row[1..];
    }
  }

  /** The index of the first row holding a stray key, or `|rows|`. */
  function FirstStray(rows: seq<Row>, keys: seq<string>): (k: nat)
    ensures k <= |rows|
  {
    if rows == [] then 0
    else if StrayKey(rows[0], keys).Some? then 0
    else 1 + FirstStray(rows[1..], keys)
  }

  /** Up to the first stray row, a row holds a stray key exactly when it is that row. */
  lemma {:induction false} FirstStrayStep(rows: seq<Row>, keys: seq<string>, k: nat)
    requires k <= FirstStray(rows, keys) && k < |rows|
    ensures StrayKey(rows[k], keys).Some? <==> k == FirstStray(rows, keys)
  {
    if k > 0 {
      FirstStrayStep(rows[1..], keys, k - 1);
    }
  }

  /** The cell writes `_convert_to_sheet(sheet, rows, keys)` performs, in
      order: the header row, then every row before the first one with a stray key. */
  function SheetWrites(rows: seq<Row>, keys: seq<string>): seq<Write>
  {
    WritesThrough(rows, keys, FirstStray(rows, keys))
  }

  /** The header row followed by the cells of the first `k` rows. */
  function WritesThrough(rows: seq<Row>, keys: seq<string>, k: nat): seq<Write>
    requires k <= |rows|
  {
    HeaderWrites(keys) + DataWrites(rows, keys, k)
  }

  /** The error `_convert_to_sheet` raises: the first row with a stray key,
      reported by that key and the row's name. */
  function SheetError(rows: seq<Row>, keys: seq<string>, title: string): Option<Error>
  {
    var k := FirstStray(rows, keys);
    if k < |rows|
    then
      FirstStrayStep(rows, keys, k);
      Some(InvalidKey(StrayKey(rows[k], keys).value, Get(rows[k], "name").GetOr("(unnamed)"), title))
    else None
  }

  /** The worksheet contents after the writes, in order. */
  function ApplyWrites(s: CellStore, ws: seq<Write>): CellStore
  {
    if ws == [] then s
    else
      var w := ws[|ws| - 1];
      Put(ApplyWrites(s, ws[..|ws| - 1]), w.row, w.column, Text(w.value))
  }

  lemma {:induction false} ApplyWritesSnoc(s: CellStore, ws: seq<Write>, w: Write)
    ensures ApplyWrites(s, ws + [w]) == Put(ApplyWrites(s, ws), w.row, w.column, Text(w.value))
  {
    assert (ws + [w])[..|ws|] == ws;
  }

  lemma {:induction false} ApplyWritesConcat(s: CellStore, a: seq<Write>, b: seq<Write>)
    ensures ApplyWrites(s, a + b) == ApplyWrites(ApplyWrites(s, a), b)
  {
    if b == [] {
      assert a + b == a;
    } else {
      var b' := b[..|b| - 1];
      ApplyWritesConcat(s, a, b');
      assert (a + b)[..|a + b| - 1] == a + b';
    }
  }

  /** The header loop of `_convert_to_sheet`. */
  method WriteHeader(sheet: Worksheet, keys: seq<string>)
    requires sheet.Valid()
    modifies sheet
    ensures sheet.Valid()
    ensures sheet.Contents() == ApplyWrites(old(sheet.Contents()), HeaderWrites(keys))
  {
    ghost var header := HeaderWrites(keys);
    for i := 0 to |keys|
      invariant sheet.Valid()
      invariant sheet.Contents() == ApplyWrites(old(sheet.Contents()), header[..i])
    {
      ApplyWritesSnoc(old(sheet.Contents()), header[..i], header[i]);
      assert header[..i + 1] == header[..i] + [header[i]];
      sheet.SetCell(1, i + 1, keys[i]);
    }
    assert header[..|keys|] == header;
  }

  /** The cell loop for one row of `_convert_to_sheet`. */
  method WriteRow(sheet: Worksheet, row: Row, keys: seq<string>, target: Index1)
    requires sheet.Valid()
    modifies sheet
    ensures sheet.Valid()
    ensures sheet.Contents() == ApplyWrites(old(sheet.Contents()), RowWrites(row, keys, target, |keys|))
  {
    for i := 0 to |keys|
      invariant sheet.Valid()
      invariant sheet.Contents() == ApplyWrites(old(sheet.Contents()), RowWrites(row, keys, target, i))
    {
      var value := Get(row, keys[i]);
      if value.Some? {
        var w := Write(target, i + 1, value.value);
        assert RowWrites(row, keys, target, i + 1) == RowWrites(row, keys, target, i) + [w];
        ApplyWritesSnoc(old(sheet.Contents()), RowWrites(row, keys, target, i), w);
        sheet.SetCell(target, i + 1, w.value);
      } else {
        assert RowWrites(row, keys, target, i + 1) == RowWrites(row, keys, target, i) + [] == RowWrites(row, keys, target, i);
      }
    }
  }

  /** Writing row `k` on top of the first `k` rows gives the first `k + 1`. */
  lemma {:induction false} WrittenThrough(s: CellStore, rows: seq<Row>, keys: seq<string>, k: nat, mid: CellStore, after: CellStore)
    requires k < |rows|
    requires mid == ApplyWrites(s, WritesThrough(rows, keys, k))
    requires after == ApplyWrites(mid, RowWrites(rows[k], keys, TargetRow(rows, k), |keys|))
    ensures after == ApplyWrites(s, WritesThrough(rows, keys, k + 1))
  {
    var cells := RowWrites(rows[k], keys, TargetRow(rows, k), |keys|);
    assert WritesThrough(rows, keys, k + 1) == WritesThrough(rows, keys, k) + cells;
    ApplyWritesConcat(s, WritesThrough(rows, keys, k), cells);
  }

  /** Row `k` written on top of the first `k` rows gives the first `k + 1`. */
  method WriteDataRow(sheet: Worksheet, rows: seq<Row>, keys: seq<string>, k: nat, target: Index1, ghost s0: CellStore)
    requires sheet.Valid() && k < |rows| && target == TargetRow(rows, k)
    requires sheet.Contents() == ApplyWrites(s0, WritesThrough(rows, keys, k))
    modifies sheet
    ensures sheet.Valid()
    ensures sheet.Contents() == ApplyWrites(s0, WritesThrough(rows, keys, k + 1))
  {
    ghost var mid := sheet.Contents();
    WriteRow(sheet, rows[k], keys, target);
    WrittenThrough(s0, rows, keys, k, mid, sheet.Contents());
  }

  method ConvertToSheet(sheet: Worksheet, rows: seq<Row>, keys: seq<string>) returns (err: Option<Error>)
    requires sheet.Valid()
    modifies sheet
    ensures sheet.Valid()
    ensures sheet.Contents() == ApplyWrites(old(sheet.Contents()), SheetWrites(rows, keys))
    ensures err == SheetError(rows, keys, sheet.title)
  {
    ghost var s0 := sheet.Contents();
    WriteHeader(sheet, keys);
    assert WritesThrough(rows, keys, 0) == HeaderWrites(keys);
    err := WriteDataRows(sheet, rows, keys, s0);
  }

  /** The row loop of `_convert_to_sheet`, run after the header row is
      written: every row up to the first one with a stray key is written on
      its target row, and that row raises. */
  method WriteDataRows(sheet: Worksheet, rows: seq<Row>, keys: seq<string>, ghost s0: CellStore) returns (err: Option<Error>)
    requires sheet.Valid()
    requires sheet.Contents() == ApplyWrites(s0, WritesThrough(rows, keys, 0))
    modifies sheet
    ensures sheet.Valid()
    ensures sheet.Contents() == ApplyWrites(s0, SheetWrites(rows, keys))
    ensures err == SheetError(rows, keys, sheet.title)
  {
    var nextRow := 2;
    var previousListName := if |rows| > 0 then ListName(rows[0]) else None;
    for k := 0 to |rows|
      invariant sheet.Valid()
      invariant k <= FirstStray(rows, keys)
      invariant sheet.Contents() == ApplyWrites(s0, WritesThrough(rows, keys, k))
      invariant nextRow == NextRowBefore(rows, k)
      invariant previousListName == PreviousListName(rows, k)
    {
      var row := rows[k];
      nextRow, previousListName := AdvanceRow(rows, k, nextRow, previousListName);

      var stray := StrayKey(row, keys);
      FirstStrayStep(rows, keys, k);
      if stray.Some? {
        assert k == FirstStray(rows, keys);
        return Some(InvalidKey(stray.value, Get(row, "name").GetOr("(unnamed)"), sheet.title));
      }

      WriteDataRow(sheet, rows, keys, k, nextRow, s0);
      nextRow := nextRow + 1;
    }
    assert FirstStray(rows, keys) == |rows|;
    return None;
  }
}
