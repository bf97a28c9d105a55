/** yxf/__main__.py, the older all-in-one converter. Its row helpers are the
    ones of the package (`_truncate_row`, `_row_to_dict` and
    `_stringify_value` are `XlsForm.TruncateRow`, `Excel.RowToDict` and
    `XlsForm.StringifyValue`); what differs is modelled here: header lists of
    text rather than cells, a sheet reader that never meets a missing header,
    its own provenance-comment step, and the placeholder row that keeps
    empty sheets out of the YAML output. */
module MainVariant {
  import opened Wrappers
  import opened Strings
  import opened Errors
  import opened Rows
  import opened Spreadsheet
  import opened XlsForm
  import opened Forms
  import Excel
  import ExcelForm

  /* ---------------------------------------------------------------- */
  /* _get_headers_from_sheet and _convert_sheet                       */
  /* ---------------------------------------------------------------- */

  /** `_get_headers_from_sheet(sheet)`: the text of each cell of the
      truncated first row, or no headers when the sheet has no row. */
  function SheetHeaders(sheet: Grid): (h: seq<string>)
    ensures Headers(sheet).Err? ==> h == []
    ensures Headers(sheet).Ok? ==>
      |h| == |Headers(sheet).value| && forall i :: 0 <= i < |h| ==> h[i] == StringifyValue(Headers(sheet).value[i])
  {
    if sheet == [] then []
    else
      var first := Truncated(sheet[0]);
      seq(|first|, i requires 0 <= i < |first| => StringifyValue(first[i]))
  }

  /** What this `_convert_sheet(sheet)` returns or raises: `next()` on the
      rows of a sheet without rows raises. */
  function SheetRows(sheet: Grid): Result<seq<Row>, Error>
  {
    if sheet == [] then Err(StopIteration)
    else Excel.ReadLines(Excel.TextKeys(SheetHeaders(sheet)), sheet[1..])
  }

  method ConvertSheet(sheet: Grid) returns (r: Result<seq<Row>, Error>)
    ensures r == SheetRows(sheet)
  {
    var headers := SheetHeaders(sheet);
    if sheet == [] {
      return Err(StopIteration);
    }
    r := Excel.ReadContent(Excel.TextKeys(headers), sheet[1..]);
  }

  /** Every header is text, so no cell is ever without a header: reading
      fails only on a sheet without rows. A cell under a blank header is
      kept under the empty key instead. */
  lemma {:induction false} SheetRowsOk(sheet: Grid)
    ensures SheetRows(sheet).Ok? <==> sheet != []
  {
    if sheet != [] {
      var headers := Excel.TextKeys(SheetHeaders(sheet));
      var lines := sheet[1..];
      Excel.ReadLinesFails(headers, lines);
      forall k | 0 <= k < |lines| ensures Excel.ReadLine(headers, lines[k]).Ok? {
        Excel.RowDictFails(headers, Excel.Stringified(Truncated(lines[k])));
      }
    }
  }

  /** Where the header row has no blank and no zero cell, this reader and the
      one of yxf/excel.py agree. */
  lemma {:induction false} SheetRowsAgree(sheet: Grid)
    requires sheet != []
    requires forall i :: 0 <= i < |Truncated(sheet[0])| ==>
      Truncated(sheet[0])[i] != Blank && Truncated(sheet[0])[i] != Number(0)
    ensures SheetRows(sheet) == Excel.SheetRows(sheet)
  {
    var first := Truncated(sheet[0]);
    forall i | 0 <= i < |first| ensures Excel.TextKeys(SheetHeaders(sheet))[i] == Excel.HeaderKeys(first)[i] {
      assert Excel.HeaderKeys(first)[i] == Excel.HeaderKey(first[i]);
    }
    assert Excel.TextKeys(SheetHeaders(sheet)) == Excel.HeaderKeys(first);
  }

  /* ---------------------------------------------------------------- */
  /* _load_workbook_from_wb                                           */
  /* ---------------------------------------------------------------- */

  /** A header list with `#` somewhere other than first. */
  predicate CommentMisplaced(h: seq<string>)
  {
    |h| > 0 && h[0] != "#" && "#" in h
  }

  /** The sheets of the first `n` sheet names that the workbook has, each
      with its rows and header texts, or the first error. */
  function LoadUpTo(wb: Workbook, n: nat): (r: Result<FormValue, Error>)
    requires n <= |SheetNames|
    ensures r.Ok? ==> r.value.sheets.Keys == r.value.headers.Keys
  {
    if n == 0 then Ok(FormValue([], map[], map[]))
    else
      var acc :- LoadUpTo(wb, n - 1);
      var name := SheetNames[n - 1];
      if name !in wb.sheets then Ok(acc)
      else
        var rows :- SheetRows(wb.sheets[name]);
        var h := SheetHeaders(wb.sheets[name]);
        if CommentMisplaced(h) then Err(CommentColumnNotFirst(name))
        else Ok(FormValue(acc.order + [name], acc.sheets[name := rows], acc.headers[name := h]))
  }

  /** What `_load_workbook_from_wb(wb)` returns or raises. */
  function Load(wb: Workbook): Result<FormValue, Error>
  {
    var f :- LoadUpTo(wb, |SheetNames|);
    if "survey" !in f.sheets then Err(MissingSurveySheet) else Ok(f)
  }

  method LoadWorkbook(wb: Workbook) returns (r: Result<FormValue, Error>)
    ensures r == Load(wb)
  {
    var result := FormValue([], map[], map[]);
    for i := 0 to |SheetNames|
      invariant LoadUpTo(wb, i) == Ok(result)
    {
      var name := SheetNames[i];
      if name in wb.sheets {
        var rows := ConvertSheet(wb.sheets[name]);
        if rows.Err? {
          LoadErrSticks(wb, i + 1);
          return Err(rows.error);
        }
        var h := SheetHeaders(wb.sheets[name]);
        if |h| > 0 && h[0] != "#" {
          if "#" in h {
            LoadErrSticks(wb, i + 1);
            return Err(CommentColumnNotFirst(name));
          }
        }
        result := FormValue(result.order + [name], result.sheets[name := rows.value], result.headers[name := h]);
      }
    }
    if "survey" !in result.sheets {
      return Err(MissingSurveySheet);
    }
    return Ok(result);
  }

  /** An error stops the loading of further sheets. */
  lemma {:induction false} LoadErrSticks(wb: Workbook, k: nat)
    requires k <= |SheetNames| && LoadUpTo(wb, k).Err?
    ensures LoadUpTo(wb, |SheetNames|) == LoadUpTo(wb, k)
    decreases |SheetNames| - k
  {
    if k < |SheetNames| {
      LoadErrSticks(wb, k + 1);
    }
  }

  /** A sheet the loader accepts: it has a row, and a `#` header, if there is
      one, comes first. */
  predicate SheetAccepted(g: Grid)
  {
    g != [] && !CommentMisplaced(SheetHeaders(g))
  }

  /** Loading the first `n` sheet names succeeds exactly when each of those
      sheets the workbook has is accepted. */
  lemma {:induction false} LoadUpToOk(wb: Workbook, n: nat)
    requires n <= |SheetNames|
    ensures LoadUpTo(wb, n).Ok? <==>
      forall i :: 0 <= i < n && SheetNames[i] in wb.sheets ==> SheetAccepted(wb.sheets[SheetNames[i]])
  {
    if n > 0 {
      LoadUpToOk(wb, n - 1);
      var name := SheetNames[n - 1];
      if name in wb.sheets {
        SheetRowsOk(wb.sheets[name]);
      }
    }
  }

  /** `f` holds exactly the sheets among the first `n` sheet names that the
      workbook has, in sheet-name order, each with its rows and header texts. */
  ghost predicate LoadedFrom(wb: Workbook, f: FormValue, n: nat)
    requires n <= |SheetNames|
  {
    && f.order == ExcelForm.PresentSheets(wb.sheets.Keys, n)
    && f.sheets.Keys == f.headers.Keys
    && (forall name :: name in f.sheets <==> name in SheetNames[..n] && name in wb.sheets)
    && (forall name :: name in f.sheets && name in wb.sheets ==>
          && SheetRows(wb.sheets[name]) == Ok(f.sheets[name])
          && f.headers[name] == SheetHeaders(wb.sheets[name]))
  }

  lemma {:induction false} LoadUpToContents(wb: Workbook, n: nat)
    requires n <= |SheetNames| && LoadUpTo(wb, n).Ok?
    ensures LoadedFrom(wb, LoadUpTo(wb, n).value, n)
  {
    if n > 0 {
      LoadUpToContents(wb, n - 1);
      var acc := LoadUpTo(wb, n - 1).value;
      var name := SheetNames[n - 1];
      assert SheetNames[..n] == SheetNames[..n - 1] + [name];
      if name in wb.sheets {
        LoadedAdd(wb, acc, n, SheetRows(wb.sheets[name]).value);
      }
    }
  }

  lemma {:induction false} LoadedAdd(wb: Workbook, acc: FormValue, n: nat, rows: Sheet)
    requires 0 < n <= |SheetNames| && SheetNames[n - 1] in wb.sheets
    requires LoadedFrom(wb, acc, n - 1) && SheetRows(wb.sheets[SheetNames[n - 1]]) == Ok(rows)
    ensures var name := SheetNames[n - 1];
      LoadedFrom(wb, FormValue(acc.order + [name], acc.sheets[name := rows], acc.headers[name := SheetHeaders(wb.sheets[name])]), n)
  {
    var name := SheetNames[n - 1];
    assert acc.order + [name] == ExcelForm.PresentSheets(wb.sheets.Keys, n);
    LoadedAddKeys(wb, acc.sheets, n, rows);
    LoadedAddContents(wb, acc, name, rows);
  }

  lemma {:induction false} LoadedAddKeys(wb: Workbook, sheets: map<string, Sheet>, n: nat, rows: Sheet)
    requires 0 < n <= |SheetNames|
    requires forall m :: m in sheets <==> m in SheetNames[..n - 1] && m in wb.sheets
    requires SheetNames[n - 1] in wb.sheets
    ensures forall m :: m in sheets[SheetNames[n - 1] := rows] <==> m in SheetNames[..n] && m in wb.sheets
  {
    assert SheetNames[..n] == SheetNames[..n - 1] + [SheetNames[n - 1]];
  }

  lemma {:induction false} LoadedAddContents(wb: Workbook, acc: FormValue, name: string, rows: Sheet)
    requires name in wb.sheets && SheetRows(wb.sheets[name]) == Ok(rows)
    requires acc.sheets.Keys == acc.headers.Keys
    requires forall m :: m in acc.sheets && m in wb.sheets ==>
      && SheetRows(wb.sheets[m]) == Ok(acc.sheets[m])
      && acc.headers[m] == SheetHeaders(wb.sheets[m])
    ensures var f := FormValue(acc.order + [name], acc.sheets[name := rows], acc.headers[name := SheetHeaders(wb.sheets[name])]);
      && f.sheets.Keys == f.headers.Keys
      && forall m :: m in f.sheets && m in wb.sheets ==>
        && SheetRows(wb.sheets[m]) == Ok(f.sheets[m])
        && f.headers[m] == SheetHeaders(wb.sheets[m])
  {
  }

  /** `_load_workbook_from_wb` succeeds exactly when the workbook has a
      survey sheet and every sheet it reads is accepted; it rejects a `#`
      header anywhere but first and a workbook without a survey. On success
      it holds the sheets the workbook has, survey first, each with its rows
      and header texts. */
  lemma {:induction false} LoadSpec(wb: Workbook)
    ensures Load(wb).Ok? <==>
      "survey" in wb.sheets
      && forall i :: 0 <= i < |SheetNames| && SheetNames[i] in wb.sheets ==> SheetAccepted(wb.sheets[SheetNames[i]])
    ensures Load(wb).Ok? ==>
      && |Load(wb).value.order| > 0 && Load(wb).value.order[0] == "survey"
      && LoadedFrom(wb, Load(wb).value, |SheetNames|)
      && WellFormed(Load(wb).value)
  {
    LoadUpToOk(wb, |SheetNames|);
    if Load(wb).Ok? {
      LoadUpToContents(wb, |SheetNames|);
      ExcelForm.PresentSheetsSurvey(wb.sheets.Keys, |SheetNames|);
      PresentDistinct(wb.sheets.Keys, |SheetNames|);
    } else if LoadUpTo(wb, |SheetNames|).Ok? {
      LoadUpToContents(wb, |SheetNames|);
      assert SheetNames[..|SheetNames|] == SheetNames;
    }
  }

  /** The present sheet names are distinct. */
  lemma {:induction false} PresentDistinct(has: set<string>, n: nat)
    requires n <= |SheetNames|
    ensures Distinct(ExcelForm.PresentSheets(has, n))
  {
    if n > 0 {
      PresentDistinct(has, n - 1);
      var q := ExcelForm.PresentSheets(has, n - 1);
      var name := SheetNames[n - 1];
      if name in has {
        assert name !in SheetNames[..n - 1];
        DistinctAppend(q, name);
      }
    }
  }

  lemma {:induction false} DistinctAppend(q: seq<string>, name: string)
    requires Distinct(q) && name !in q
    ensures Distinct(q + [name])
  {
    var p := q + [name];
    forall i, j | 0 <= i < j < |p| ensures p[i] != p[j] {
      assert p[i] == q[i];
    }
  }

  /* ---------------------------------------------------------------- */
  /* _ensure_yxf_comment                                              */
  /* ---------------------------------------------------------------- */

  /** What this `_ensure_yxf_comment(form, name, file_format)` leaves
      behind. A missing survey raises; an empty survey is left alone; the
      survey columns are looked up before anything changes. With a `#`
      column, an earlier conversion comment is overwritten and otherwise a
      comment row goes first; without one, `#` goes first in the columns and
      a comment row goes first in the survey. */
  function VariantComment(f: FormValue, name: string, fileFormat: string): (r: ExcelForm.Step)
    ensures "survey" !in f.sheets ==> r == ExcelForm.Step(f, Some(KeyError("survey")))
    ensures "survey" in f.sheets && f.sheets["survey"] == [] ==> r == ExcelForm.Step(f, None)
    ensures "survey" in f.sheets && f.sheets["survey"] != [] && "survey" !in f.headers ==>
      r == ExcelForm.Step(f, Some(KeyError("survey")))
    ensures r.error.None? <==> "survey" in f.sheets && (f.sheets["survey"] == [] || "survey" in f.headers)
    ensures r.error.None? ==>
      && r.form.order == f.order
      && r.form.sheets.Keys == f.sheets.Keys && r.form.headers.Keys == f.headers.Keys
      && (forall n :: n in f.sheets && n != "survey" ==> r.form.sheets[n] == f.sheets[n])
      && (forall n :: n in f.headers && n != "survey" ==> r.form.headers[n] == f.headers[n])
    ensures r.error.None? && f.sheets["survey"] != [] ==>
      && "#" in r.form.headers["survey"]
      && |r.form.sheets["survey"]| > 0
      && Get(r.form.sheets["survey"][0], "#") == Some(ExcelForm.DesiredComment(name, fileFormat))
    ensures r.error.None? && f.sheets["survey"] != [] && "#" !in f.headers["survey"] ==>
      && r.form.headers["survey"] == ["#"] + f.headers["survey"]
      && r.form.sheets["survey"] == [[Entry("#", ExcelForm.DesiredComment(name, fileFormat))]] + f.sheets["survey"]
  {
    var c := ExcelForm.DesiredComment(name, fileFormat);
    if "survey" !in f.sheets then ExcelForm.Step(f, Some(KeyError("survey")))
    else
      var survey := f.sheets["survey"];
      if survey == [] then ExcelForm.Step(f, None)
      else if "survey" !in f.headers then ExcelForm.Step(f, Some(KeyError("survey")))
      else if "#" in f.headers["survey"] then
        ExcelForm.CommentFirst(survey, c);
        ExcelForm.Step(f.(sheets := f.sheets["survey" := ExcelForm.CommentedSurvey(survey, c)]), None)
      else
        ExcelForm.Step(f.(sheets := f.sheets["survey" := [[Entry("#", c)]] + survey],
                          headers := f.headers["survey" := ["#"] + f.headers["survey"]]), None)
  }

  method EnsureYxfComment(form: Form, name: string, fileFormat: string) returns (err: Option<Error>)
    modifies form
    ensures ExcelForm.Step(form.Value(), err) == VariantComment(old(form.Value()), name, fileFormat)
  {
    var desiredComment := ExcelForm.DesiredComment(name, fileFormat);
    if "survey" !in form.sheets {
      return Some(KeyError("survey"));
    }
    var survey := form.sheets["survey"];
    if survey == [] {
      return None;
    }
    if "survey" !in form.headers {
      return Some(KeyError("survey"));
    }
    var hasCommentColumn := "#" in form.headers["survey"];
    var firstLine := survey[0];
    if hasCommentColumn {
      var marker := Get(firstLine, "#");
      if marker.None? || !StartsWith(marker.value, ExcelForm.CommentPrefix) {
        survey := [[Entry("#", desiredComment)]] + survey;
      } else {
        survey := [Set(firstLine, "#", desiredComment)] + survey[1..];
      }
    } else {
      form.headers := form.headers["survey" := ["#"] + form.headers["survey"]];
      survey := [[Entry("#", desiredComment)]] + survey;
    }
    form.sheets := form.sheets["survey" := survey];
    return None;
  }

  /** Adding the comment twice is adding it once. */
  lemma {:induction false} VariantCommentIdempotent(f: FormValue, name: string, fileFormat: string)
    requires VariantComment(f, name, fileFormat).error.None?
    ensures VariantComment(VariantComment(f, name, fileFormat).form, name, fileFormat) == VariantComment(f, name, fileFormat)
  {
    var c := ExcelForm.DesiredComment(name, fileFormat);
    var g := VariantComment(f, name, fileFormat).form;
    var s := f.sheets["survey"];
    if s != [] {
      var t := g.sheets["survey"];
      assert ExcelForm.IsYxfComment(t[0]);
      if "#" in f.headers["survey"] && ExcelForm.IsYxfComment(s[0]) {
        SetSet(s[0], "#", c, c);
      } else {
        SetAppends([], "#", c);
      }
      assert Set(t[0], "#", c) == t[0];
      assert ExcelForm.CommentedSurvey(t, c) == t;
    }
  }

  /** The two comment steps agree on a non-empty survey with recorded
      columns, unless the columns lack `#` while the first row already holds
      a conversion comment: this variant then adds a second comment row where
      the one of yxf/excel.py overwrites. On an empty survey this one does
      nothing where that one raises. */
  lemma {:induction false} CommentStepsCompared(f: FormValue, name: string, fileFormat: string)
    ensures ("survey" in f.sheets && f.sheets["survey"] != [] && "survey" in f.headers
             && ("#" in f.headers["survey"] || !ExcelForm.IsYxfComment(f.sheets["survey"][0]))) ==>
      VariantComment(f, name, fileFormat) == ExcelForm.EnsureComment(f, name, fileFormat)
    ensures "survey" in f.sheets && f.sheets["survey"] == [] ==>
      VariantComment(f, name, fileFormat).error.None? && ExcelForm.EnsureComment(f, name, fileFormat).error == Some(IndexError)
  {
  }

  /* ---------------------------------------------------------------- */
  /* The empty-sheet placeholders                                     */
  /* ---------------------------------------------------------------- */

  /** The row that stands in for an empty sheet. */
  function Placeholder(sheet: string): (row: Row)
    ensures Get(row, "#") == Some("Empty " + sheet + " sheet") && Keys(row) == ["#"]
  {
    [Entry("#", "Empty " + sheet + " sheet")]
  }

  /** One turn of the placeholder loop: an empty sheet gets `#` in its
      columns and the placeholder row; a missing column list raises. */
  function FillSheet(s: ExcelForm.Step, name: string): ExcelForm.Step
  {
    if s.error.Some? || name !in s.form.sheets || s.form.sheets[name] != [] then s
    else if name !in s.form.headers then ExcelForm.Step(s.form, Some(KeyError(name)))
    else
      var h := s.form.headers[name];
      ExcelForm.Step(s.form.(sheets := s.form.sheets[name := [Placeholder(name)]],
                             headers := s.form.headers[name := if "#" in h then h else ["#"] + h]), None)
  }

  /** The placeholder loop over the first `n` sheet names. */
  function FillUpTo(f: FormValue, n: nat): (r: ExcelForm.Step)
    requires n <= |SheetNames|
    ensures r.form.order == f.order && r.form.sheets.Keys == f.sheets.Keys && r.form.headers.Keys == f.headers.Keys
  {
    if n == 0 then ExcelForm.Step(f, None) else FillSheet(FillUpTo(f, n - 1), SheetNames[n - 1])
  }

  method FillEmptySheets(form: Form) returns (err: Option<Error>)
    modifies form
    ensures ExcelForm.Step(form.Value(), err) == FillUpTo(old(form.Value()), |SheetNames|)
  {
    ghost var f := form.Value();
    for n := 0 to |SheetNames|
      invariant FillUpTo(f, n) == ExcelForm.Step(form.Value(), None)
    {
      err := FillOne(form, SheetNames[n]);
      if err.Some? {
        FillErrSticks(f, n + 1);
        return err;
      }
    }
    return None;
  }

  /** One turn of the placeholder loop, in place. */
  method FillOne(form: Form, name: string) returns (err: Option<Error>)
    modifies form
    ensures ExcelForm.Step(form.Value(), err) == FillSheet(ExcelForm.Step(old(form.Value()), None), name)
  {
    if name in form.sheets && form.sheets[name] == [] {
      if name !in form.headers {
        return Some(KeyError(name));
      }
      var columns := form.headers[name];
      if "#" !in columns {
        columns := ["#"] + columns;
      }
      form.headers := form.headers[name := columns];
      form.sheets := form.sheets[name := [Placeholder(name)]];
    }
    return None;
  }

  lemma {:induction false} FillErrSticks(f: FormValue, k: nat)
    requires k <= |SheetNames| && FillUpTo(f, k).error.Some?
    ensures FillUpTo(f, |SheetNames|) == FillUpTo(f, k)
    decreases |SheetNames| - k
  {
    if k < |SheetNames| {
      FillErrSticks(f, k + 1);
    }
  }

  /** The placeholder loop over the first `n` sheet names fails exactly
      when one of those sheets is empty and has no column list. */
  lemma {:induction false} FillUpToOk(f: FormValue, n: nat)
    requires n <= |SheetNames|
    ensures FillUpTo(f, n).error.None? <==>
      forall i :: 0 <= i < n && SheetNames[i] in f.sheets && f.sheets[SheetNames[i]] == [] ==> SheetNames[i] in f.headers
  {
    if n > 0 {
      FillUpToOk(f, n - 1);
      if FillUpTo(f, n - 1).error.None? {
        FillNext(f, n - 1);
      }
    }
  }

  /** The loop reaches each sheet name as the form had it. */
  lemma {:induction false} FillNext(f: FormValue, n: nat)
    requires n < |SheetNames| && FillUpTo(f, n).error.None?
    ensures var g := FillUpTo(f, n).form;
      && (SheetNames[n] in g.sheets <==> SheetNames[n] in f.sheets)
      && (SheetNames[n] in g.headers <==> SheetNames[n] in f.headers)
      && (SheetNames[n] in f.sheets ==> g.sheets[SheetNames[n]] == f.sheets[SheetNames[n]])
  {
    FillUpToContents(f, n);
    FillUnvisited(f, FillUpTo(f, n).form, n);
  }

  /** `g` is `f` after the placeholder loop over the first `n` sheet names:
      each empty one of them holds just its placeholder row and has `#` among
      its columns; every other sheet and column list is unchanged. */
  ghost predicate Filled(f: FormValue, g: FormValue, n: nat)
    requires n <= |SheetNames|
  {
    && g.sheets.Keys == f.sheets.Keys && g.headers.Keys == f.headers.Keys
    && (forall name :: name in f.sheets ==>
          if name in SheetNames[..n] && f.sheets[name] == [] then
            g.sheets[name] == [Placeholder(name)] && name in f.headers && "#" in g.headers[name]
          else
            g.sheets[name] == f.sheets[name])
    && (forall name :: name in f.headers && !(name in SheetNames[..n] && name in f.sheets && f.sheets[name] == []) ==>
          g.headers[name] == f.headers[name])
  }

  lemma {:induction false} FillUnvisited(f: FormValue, g: FormValue, n: nat)
    requires n < |SheetNames| && Filled(f, g, n)
    ensures SheetNames[n] in g.sheets <==> SheetNames[n] in f.sheets
    ensures SheetNames[n] in g.headers <==> SheetNames[n] in f.headers
    ensures SheetNames[n] in f.sheets ==> g.sheets[SheetNames[n]] == f.sheets[SheetNames[n]]
  {
    assert SheetNames[n] !in SheetNames[..n];
  }

  lemma {:induction false} FillUpToContents(f: FormValue, n: nat)
    requires n <= |SheetNames| && FillUpTo(f, n).error.None?
    ensures Filled(f, FillUpTo(f, n).form, n)
  {
    if n == 0 {
      assert SheetNames[..0] == [];
    } else {
      FillUpToContents(f, n - 1);
      var g := FillUpTo(f, n - 1).form;
      FillUnvisited(f, g, n - 1);
      FilledStep(f, g, n);
    }
  }

  lemma {:induction false} FilledStep(f: FormValue, g: FormValue, n: nat)
    requires 0 < n <= |SheetNames| && Filled(f, g, n - 1)
    requires FillSheet(ExcelForm.Step(g, None), SheetNames[n - 1]).error.None?
    requires SheetNames[n - 1] in f.sheets ==> g.sheets[SheetNames[n - 1]] == f.sheets[SheetNames[n - 1]]
    ensures Filled(f, FillSheet(ExcelForm.Step(g, None), SheetNames[n - 1]).form, n)
  {
    assert SheetNames[..n] == SheetNames[..n - 1] + [SheetNames[n - 1]];
  }

  /** The steps `xlsform_bytes_to_yaml_string` runs before serialising:
      after a successful load neither the comment step nor the placeholder
      loop can fail, and no sheet is left empty. */
  lemma {:induction false} PreparedForYaml(wb: Workbook, name: string)
    requires Load(wb).Ok?
    ensures VariantComment(Load(wb).value, name, "YAML").error.None?
    ensures var g := VariantComment(Load(wb).value, name, "YAML").form;
      FillUpTo(g, |SheetNames|).error.None?
      && forall s :: s in FillUpTo(g, |SheetNames|).form.sheets ==> FillUpTo(g, |SheetNames|).form.sheets[s] != []
  {
    LoadedKeys(wb);
    var g := VariantComment(Load(wb).value, name, "YAML").form;
    FillAll(g);
  }

  /** A loaded form has a survey, and column lists for exactly its sheets,
      all among the sheet names. */
  lemma {:induction false} LoadedKeys(wb: Workbook)
    requires Load(wb).Ok?
    ensures var f := Load(wb).value;
      && "survey" in f.sheets && f.sheets.Keys == f.headers.Keys
      && forall s :: s in f.sheets ==> s in SheetNames
  {
    LoadUpToContents(wb, |SheetNames|);
    assert SheetNames[..|SheetNames|] == SheetNames;
  }

  /** When every sheet has a column list and is among the sheet names, the
      placeholder loop succeeds and leaves no sheet empty. */
  lemma {:induction false} FillAll(g: FormValue)
    requires g.sheets.Keys == g.headers.Keys && forall s :: s in g.sheets ==> s in SheetNames
    ensures FillUpTo(g, |SheetNames|).error.None?
    ensures forall s :: s in FillUpTo(g, |SheetNames|).form.sheets ==> FillUpTo(g, |SheetNames|).form.sheets[s] != []
  {
    FillUpToOk(g, |SheetNames|);
    FillUpToContents(g, |SheetNames|);
    assert SheetNames[..|SheetNames|] == SheetNames;
  }
}
