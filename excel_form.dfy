/** yxf/excel.py at the level of whole forms: the provenance comment that
    `ensure_yxf_comment` puts first in the survey, the sheet checks of
    `read_xlsform` and the sheet dispatch of `write_xlsform`. */
module ExcelForm {
  import opened Wrappers
  import opened Strings
  import opened Errors
  import opened Rows
  import opened Spreadsheet
  import opened XlsForm
  import opened Forms
  import opened Excel
  import opened ExcelLayout

  /* ---------------------------------------------------------------- */
  /* ensure_yxf_comment                                               */
  /* ---------------------------------------------------------------- */

  const CommentPrefix: string := "Converted by yxf,"

  /** The comment naming the file the form was converted from. */
  function DesiredComment(name: string, fileFormat: string): (c: string)
    ensures StartsWith(c, CommentPrefix)
  {
    var c := "Converted by yxf, from " + name + ". Edit the " + fileFormat + " file instead of the Excel file.";
    assert c == CommentPrefix + c[|CommentPrefix|..];
    StartsWithAppend(CommentPrefix, c[|CommentPrefix|..]);
    c
  }

  /** A row whose `#` cell is a comment an earlier conversion left. */
  predicate IsYxfComment(row: Row)
  {
    Get(row, "#").Some? && StartsWith(Get(row, "#").value, CommentPrefix)
  }

  /** The survey after the comment step: an earlier comment is overwritten in
      place, otherwise a row holding only the comment goes first. */
  function CommentedSurvey(survey: Sheet, comment: string): Sheet
    requires |survey| > 0
  {
    if IsYxfComment(survey[0]) then [Set(survey[0], "#", comment)] + survey[1..]
    else [[Entry("#", comment)]] + survey
  }

  /** The survey columns with `#` put first when it is missing. */
  function CommentHeaders(h: seq<string>): seq<string>
  {
    if "#" in h then h else ["#"] + h
  }

  /** A form after a step that changes it in place, and the error the step
      raised, if any, after changing what it had changed by then. */
  datatype Step = Step(form: FormValue, error: Option<Error>)

  /** What `ensure_yxf_comment(form, name, file_format)` leaves behind. It
      fails exactly when the survey is missing or empty, or has no recorded
      columns. A missing or empty survey leaves the form as it was; the survey
      is changed before its columns are looked up, so missing columns leave
      the new comment in place and raise. A successful step changes only the
      survey and its columns, and `#` heads the columns when it was missing. */
  function EnsureComment(f: FormValue, name: string, fileFormat: string): (r: Step)
    ensures r.error.None? <==> "survey" in f.sheets && f.sheets["survey"] != [] && "survey" in f.headers
    ensures "survey" !in f.sheets ==> r == Step(f, Some(KeyError("survey")))
    ensures "survey" in f.sheets && f.sheets["survey"] == [] ==> r == Step(f, Some(IndexError))
    ensures "survey" in f.sheets && f.sheets["survey"] != [] && "survey" !in f.headers ==>
      && r.error == Some(KeyError("survey"))
      && r.form.headers == f.headers
      && "survey" in r.form.sheets
      && r.form.sheets["survey"] == CommentedSurvey(f.sheets["survey"], DesiredComment(name, fileFormat))
    ensures r.error.None? ==>
      && r.form.order == f.order
      && r.form.sheets.Keys == f.sheets.Keys && r.form.headers.Keys == f.headers.Keys
      && (forall n :: n in f.sheets && n != "survey" ==> r.form.sheets[n] == f.sheets[n])
      && (forall n :: n in f.headers && n != "survey" ==> r.form.headers[n] == f.headers[n])
      && r.form.sheets["survey"] == CommentedSurvey(f.sheets["survey"], DesiredComment(name, fileFormat))
      && "#" in r.form.headers["survey"]
      && r.form.headers["survey"] == (if "#" in f.headers["survey"] then f.headers["survey"] else ["#"] + f.headers["survey"])
  {
    if "survey" !in f.sheets then Step(f, Some(KeyError("survey")))
    else if f.sheets["survey"] == [] then Step(f, Some(IndexError))
    else
      var g := f.(sheets := f.sheets["survey" := CommentedSurvey(f.sheets["survey"], DesiredComment(name, fileFormat))]);
      if "survey" !in g.headers then Step(g, Some(KeyError("survey")))
      else Step(g.(headers := g.headers["survey" := CommentHeaders(g.headers["survey"])]), None)
  }

  method EnsureYxfComment(form: Form, name: string, fileFormat: string) returns (err: Option<Error>)
    modifies form
    ensures Step(form.Value(), err) == EnsureComment(old(form.Value()), name, fileFormat)
  {
    var desiredComment := DesiredComment(name, fileFormat);
    if "survey" !in form.sheets {
      return Some(KeyError("survey"));
    }
    var survey := form.sheets["survey"];
    if survey == [] {
      return Some(IndexError);
    }
    var firstLine := survey[0];
    var marker := Get(firstLine, "#");
    if marker.None? || !StartsWith(marker.value, CommentPrefix) {
      survey := [[Entry("#", desiredComment)]] + survey;
    } else {
      survey := [Set(firstLine, "#", desiredComment)] + survey[1..];
    }
    form.sheets := form.sheets["survey" := survey];

    if "survey" !in form.headers {
      return Some(KeyError("survey"));
    }
    var headers := form.headers["survey"];
    if "#" !in headers {
      form.headers := form.headers["survey" := ["#"] + headers];
    }
    return None;
  }

  /** After the step the first survey row's `#` cell holds the comment. */
  lemma {:induction false} CommentFirst(survey: Sheet, comment: string)
    requires |survey| > 0
    ensures |CommentedSurvey(survey, comment)| > 0
    ensures Get(CommentedSurvey(survey, comment)[0], "#") == Some(comment)
  {
    if IsYxfComment(survey[0]) {
      SetGet(survey[0], "#", comment, "#");
    }
  }

  /** The survey grows by one comment row ahead of the old rows, unless its
      first row already holds a conversion comment, which is then overwritten
      in place with every other cell of that row and every other row kept. */
  lemma {:induction false} CommentedSurveyShape(survey: Sheet, comment: string)
    requires |survey| > 0
    ensures var s := CommentedSurvey(survey, comment);
      if IsYxfComment(survey[0]) then
        && |s| == |survey| && s[1..] == survey[1..]
        && (forall k :: k != "#" ==> Get(s[0], k) == Get(survey[0], k))
        && Keys(s[0]) == Keys(survey[0])
      else
        |s| == |survey| + 1 && s[1..] == survey && s[0] == [Entry("#", comment)]
  {
    if IsYxfComment(survey[0]) {
      forall k | k != "#" ensures Get(Set(survey[0], "#", comment), k) == Get(survey[0], k) {
        SetGet(survey[0], "#", comment, k);
      }
      GetSome(survey[0], "#");
      SetKeys(survey[0], "#", comment);
    }
  }

  /** Adding the comment twice is adding it once. */
  lemma {:induction false} EnsureCommentIdempotent(f: FormValue, name: string, fileFormat: string)
    requires EnsureComment(f, name, fileFormat).error.None?
    ensures EnsureComment(EnsureComment(f, name, fileFormat).form, name, fileFormat) == EnsureComment(f, name, fileFormat)
  {
    var c := DesiredComment(name, fileFormat);
    var g := EnsureComment(f, name, fileFormat).form;
    var s := f.sheets["survey"];
    var t := g.sheets["survey"];
    CommentFirst(s, c);
    assert IsYxfComment(t[0]);
    if IsYxfComment(s[0]) {
      SetSet(s[0], "#", c, c);
    }
    assert Set(t[0], "#", c) == t[0];
    assert CommentedSurvey(t, c) == t;
  }

  /* ---------------------------------------------------------------- */
  /* read_xlsform                                                     */
  /* ---------------------------------------------------------------- */

  /** A form as `read_xlsform` returns it: the header lists hold the header
      cells as read, not their text. */
  datatype XlsFormValue = XlsFormValue(order: seq<string>, sheets: map<string, Sheet>, headers: map<string, Line>)

  /** A header row with a `#` column that is not the first one. */
  predicate CommentMisplaced(h: Line)
  {
    |h| > 0 && h[0] != Text("#") && Text("#") in h
  }

  /** The sheets of the first `n` sheet names that the workbook has, in
      sheet-name order, or the first error. */
  function WorkbookReadUpTo(wb: Workbook, n: nat): Result<XlsFormValue, Error>
    requires n <= |SheetNames|
  {
    if n == 0 then Ok(XlsFormValue([], map[], map[]))
    else
      var acc :- WorkbookReadUpTo(wb, n - 1);
      var name := SheetNames[n - 1];
      if name !in wb.sheets then Ok(acc)
      else
        var rows :- SheetRows(wb.sheets[name]);
        var h :- Headers(wb.sheets[name]);
        if CommentMisplaced(h) then Err(CommentColumnNotFirst(name))
        else Ok(XlsFormValue(acc.order + [name], acc.sheets[name := rows], acc.headers[name := h]))
  }

  /** What `read_xlsform` returns or raises for a workbook. */
  function WorkbookRead(wb: Workbook): Result<XlsFormValue, Error>
  {
    var f :- WorkbookReadUpTo(wb, |SheetNames|);
    if "survey" !in f.sheets then Err(MissingSurveySheet) else Ok(f)
  }

  method ReadXlsform(wb: Workbook) returns (r: Result<XlsFormValue, Error>)
    ensures r == WorkbookRead(wb)
  {
    var result := XlsFormValue([], map[], map[]);
    for i := 0 to |SheetNames|
      invariant WorkbookReadUpTo(wb, i) == Ok(result)
    {
      var name := SheetNames[i];
      if name in wb.sheets {
        var rows := ConvertSheet(wb.sheets[name]);
        if rows.Err? {
          ReadUpToErrSticks(wb, i + 1);
          return Err(rows.error);
        }
        var h := Headers(wb.sheets[name]).value;
        if |h| > 0 && h[0] != Text("#") {
          if Text("#") in h {
            ReadUpToErrSticks(wb, i + 1);
            return Err(CommentColumnNotFirst(name));
          }
        }
        result := XlsFormValue(result.order + [name], result.sheets[name := rows.value], result.headers[name := h]);
      }
    }
    if "survey" !in result.sheets {
      return Err(MissingSurveySheet);
    }
    return Ok(result);
  }

  /** An error stops the reading of further sheets. */
  lemma {:induction false} ReadUpToErrSticks(wb: Workbook, k: nat)
    requires k <= |SheetNames| && WorkbookReadUpTo(wb, k).Err?
    ensures WorkbookReadUpTo(wb, |SheetNames|) == WorkbookReadUpTo(wb, k)
    decreases |SheetNames| - k
  {
    if k < |SheetNames| {
      ReadUpToErrSticks(wb, k + 1);
    }
  }

  /** A sheet `read_xlsform` accepts: its rows convert and a `#` column, if
      there is one, comes first. */
  predicate SheetAccepted(g: Grid)
  {
    SheetRows(g).Ok? && !CommentMisplaced(Truncated(g[0]))
  }

  /** Every sheet among the first `n` sheet names that the workbook has is accepted. */
  predicate AcceptedUpTo(wb: Workbook, n: nat)
    requires n <= |SheetNames|
  {
    forall i :: 0 <= i < n && SheetNames[i] in wb.sheets ==> SheetAccepted(wb.sheets[SheetNames[i]])
  }

  /** The sheet names among the first `n` that `has` holds, in sheet-name order. */
  function PresentSheets(has: set<string>, n: nat): (names: seq<string>)
    requires n <= |SheetNames|
    ensures forall name :: name in names <==> name in SheetNames[..n] && name in has
  {
    if n == 0 then []
    else
      assert SheetNames[..n] == SheetNames[..n - 1] + [SheetNames[n - 1]];
      PresentSheets(has, n - 1) + (if SheetNames[n - 1] in has then [SheetNames[n - 1]] else [])
  }

  /** Reading the first `n` sheet names succeeds exactly when each of those
      sheets is accepted. */
  lemma {:induction false} WorkbookReadUpToOk(wb: Workbook, n: nat)
    requires n <= |SheetNames|
    ensures WorkbookReadUpTo(wb, n).Ok? <==> AcceptedUpTo(wb, n)
  {
    if n > 0 {
      WorkbookReadUpToOk(wb, n - 1);
      var name := SheetNames[n - 1];
      if WorkbookReadUpTo(wb, n - 1).Ok? && name in wb.sheets && SheetRows(wb.sheets[name]).Ok? {
        assert Headers(wb.sheets[name]) == Ok(Truncated(wb.sheets[name][0]));
      }
    }
  }

  /** What the sheets read so far hold. */
  ghost predicate ReadFrom(wb: Workbook, f: XlsFormValue)
  {
    && (forall name :: name in f.sheets <==> name in f.order)
    && (forall name :: name in f.headers <==> name in f.order)
    && (forall name {:trigger f.sheets[name]} :: name in f.sheets ==>
          && name in wb.sheets && wb.sheets[name] != []
          && SheetRows(wb.sheets[name]) == Ok(f.sheets[name])
          && f.headers[name] == Truncated(wb.sheets[name][0]))
  }

  /** Reading one more sheet keeps what the sheets read so far hold. */
  lemma {:induction false} ReadFromAdd(wb: Workbook, f: XlsFormValue, name: string)
    requires ReadFrom(wb, f) && name in wb.sheets && SheetRows(wb.sheets[name]).Ok?
    ensures wb.sheets[name] != []
    ensures ReadFrom(wb, XlsFormValue(f.order + [name], f.sheets[name := SheetRows(wb.sheets[name]).value],
                                      f.headers[name := Truncated(wb.sheets[name][0])]))
  {
  }

  /** Having read the first `n` sheet names, the form holds those sheets the
      workbook has, in sheet-name order, each with its rows and its header
      cells, and no others. */
  lemma {:induction false} WorkbookReadUpToContents(wb: Workbook, n: nat)
    requires n <= |SheetNames| && WorkbookReadUpTo(wb, n).Ok?
    ensures WorkbookReadUpTo(wb, n).value.order == PresentSheets(wb.sheets.Keys, n)
    ensures ReadFrom(wb, WorkbookReadUpTo(wb, n).value)
  {
    if n > 0 {
      WorkbookReadUpToContents(wb, n - 1);
      var acc := WorkbookReadUpTo(wb, n - 1).value;
      var name := SheetNames[n - 1];
      if name in wb.sheets {
        ReadFromAdd(wb, acc, name);
        assert Headers(wb.sheets[name]) == Ok(Truncated(wb.sheets[name][0]));
        assert WorkbookReadUpTo(wb, n).value == XlsFormValue(acc.order + [name], acc.sheets[name := SheetRows(wb.sheets[name]).value],
                                                              acc.headers[name := Truncated(wb.sheets[name][0])]);
      }
    }
  }

  /** With "survey" present, the present sheets start with it. */
  lemma {:induction false} PresentSheetsSurvey(has: set<string>, n: nat)
    requires 0 < n <= |SheetNames| && "survey" in has
    ensures |PresentSheets(has, n)| > 0 && PresentSheets(has, n)[0] == "survey"
  {
    if n > 1 {
      PresentSheetsSurvey(has, n - 1);
    }
  }

  /** `read_xlsform` succeeds exactly when the workbook has a survey sheet and
      every sheet it reads is accepted. It then returns the survey, choices
      and settings sheets that the workbook has, in that order, each with its
      rows and its header cells, and no other sheet. */
  lemma {:induction false} WorkbookReadSpec(wb: Workbook)
    ensures WorkbookRead(wb).Ok? <==> "survey" in wb.sheets && AcceptedUpTo(wb, |SheetNames|)
    ensures !("survey" in wb.sheets) && AcceptedUpTo(wb, |SheetNames|) ==> WorkbookRead(wb) == Err(MissingSurveySheet)
    ensures WorkbookRead(wb).Ok? ==>
      && WorkbookRead(wb).value.order == PresentSheets(wb.sheets.Keys, |SheetNames|)
      && |WorkbookRead(wb).value.order| > 0 && WorkbookRead(wb).value.order[0] == "survey"
      && ReadFrom(wb, WorkbookRead(wb).value)
  {
    WorkbookReadUpToOk(wb, |SheetNames|);
    if WorkbookReadUpTo(wb, |SheetNames|).Ok? {
      WorkbookReadUpToContents(wb, |SheetNames|);
      if "survey" in wb.sheets {
        PresentSheetsSurvey(wb.sheets.Keys, |SheetNames|);
      }
    }
  }

  /** The first sheet that is not accepted for its `#` column alone stops the
      reading with the comment-column error naming it. */
  lemma {:induction false} WorkbookReadCommentError(wb: Workbook, i: nat)
    requires i < |SheetNames| && AcceptedUpTo(wb, i)
    requires SheetNames[i] in wb.sheets && SheetRows(wb.sheets[SheetNames[i]]).Ok?
    requires CommentMisplaced(Truncated(wb.sheets[SheetNames[i]][0]))
    ensures WorkbookRead(wb) == Err(CommentColumnNotFirst(SheetNames[i]))
  {
    WorkbookReadUpToOk(wb, i);
    ReadUpToErrSticks(wb, i + 1);
  }

  /* ---------------------------------------------------------------- */
  /* write_xlsform                                                    */
  /* ---------------------------------------------------------------- */

  /** The grid `_convert_to_sheet` leaves in a new worksheet. */
  function SheetGrid(rows: seq<Row>, keys: seq<string>): Grid
  {
    Values(Written(rows, keys))
  }

  /** The workbook holding the first `n` sheets of the form, in the form's
      order, or the error that stops the writing: a sheet without recorded
      columns, or a row with a key that is not a column. */
  function WorkbookWrittenUpTo(f: FormValue, n: nat): Result<Workbook, Error>
    requires WellFormed(f) && n <= |f.order|
  {
    if n == 0 then Ok(Workbook([], map[]))
    else
      var wb :- WorkbookWrittenUpTo(f, n - 1);
      var name := f.order[n - 1];
      assert name in f.sheets;
      if name !in f.headers then Err(KeyError(name))
      else match SheetError(f.sheets[name], f.headers[name], name)
        case Some(e) => Err(e)
        case None => Ok(Workbook(wb.names + [name], wb.sheets[name := SheetGrid(f.sheets[name], f.headers[name])]))
  }

  /** The workbook the sheet dispatch of `write_xlsform` builds, before
      `make_pretty`, or the error the dispatch raises instead. */
  function WorkbookWritten(f: FormValue): Result<Workbook, Error>
    requires WellFormed(f)
  {
    WorkbookWrittenUpTo(f, |f.order|)
  }

  /** The sheet loop of `write_xlsform`: one new sheet per form entry, laid
      out by `_convert_to_sheet`. `make_pretty` and the save are not part of
      it. */
  method WriteXlsform(f: FormValue) returns (r: Result<Workbook, Error>)
    requires WellFormed(f)
    ensures r == WorkbookWritten(f)
  {
    var names: seq<string> := [];
    var grids: map<string, Grid> := map[];
    for i := 0 to |f.order|
      invariant WorkbookWrittenUpTo(f, i) == Ok(Workbook(names, grids))
    {
      var name := f.order[i];
      assert name in f.sheets;
      var sheet := new Worksheet(name);
      if name !in f.headers {
        WrittenUpToErrSticks(f, i + 1);
        return Err(KeyError(name));
      }
      var err := ConvertToSheet(sheet, f.sheets[name], f.headers[name]);
      if err.Some? {
        WrittenUpToErrSticks(f, i + 1);
        return Err(err.value);
      }
      assert sheet.Contents() == Written(f.sheets[name], f.headers[name]);
      names := names + [name];
      grids := grids[name := Values(sheet.Contents())];
    }
    return Ok(Workbook(names, grids));
  }

  /** An error stops the writing of further sheets. */
  lemma {:induction false} WrittenUpToErrSticks(f: FormValue, k: nat)
    requires WellFormed(f) && k <= |f.order| && WorkbookWrittenUpTo(f, k).Err?
    ensures WorkbookWritten(f) == WorkbookWrittenUpTo(f, k)
    decreases |f.order| - k
  {
    if k < |f.order| {
      WrittenUpToErrSticks(f, k + 1);
    }
  }

  /** Every key of every row is a column. */
  ghost predicate KeysAreColumns(rows: seq<Row>, keys: seq<string>)
  {
    forall k, e :: 0 <= k < |rows| && e in rows[k] ==> e.key in keys
  }

  /** `_convert_to_sheet` raises exactly when some row has a key that is not a column. */
  lemma {:induction false} SheetErrorNone(rows: seq<Row>, keys: seq<string>, title: string)
    ensures SheetError(rows, keys, title).None? <==> KeysAreColumns(rows, keys)
  {
    if KeysAreColumns(rows, keys) {
      forall k | 0 <= k < |rows| ensures StrayKey(rows[k], keys).None? {
        StrayKeyNone(rows[k], keys);
      }
      FirstStrayNone(rows, keys);
    } else {
      var k, e :| 0 <= k < |rows| && e in rows[k] && e.key !in keys;
      StrayKeyNone(rows[k], keys);
      if FirstStray(rows, keys) == |rows| {
        FirstStrayStep(rows, keys, k);
      }
    }
  }

  /** A sheet `write_xlsform` writes: it has recorded columns and every key
      of its rows is one of them. */
  ghost predicate SheetWritable(f: FormValue, name: string)
  {
    name in f.sheets && name in f.headers && KeysAreColumns(f.sheets[name], f.headers[name])
  }

  /** What the sheets written so far hold. */
  ghost predicate WrittenFrom(f: FormValue, wb: Workbook)
  {
    forall name {:trigger wb.sheets[name]} :: name in wb.sheets ==>
      && SheetWritable(f, name)
      && wb.sheets[name] == SheetGrid(f.sheets[name], f.headers[name])
  }

  /** Writing the first `n` sheets succeeds exactly when each is writable. */
  lemma {:induction false} WorkbookWrittenUpToOk(f: FormValue, n: nat)
    requires WellFormed(f) && n <= |f.order|
    ensures WorkbookWrittenUpTo(f, n).Ok? <==> forall i :: 0 <= i < n ==> SheetWritable(f, f.order[i])
  {
    if n > 0 {
      WorkbookWrittenUpToOk(f, n - 1);
      var name := f.order[n - 1];
      assert name in f.sheets;
      if name in f.headers {
        SheetErrorNone(f.sheets[name], f.headers[name], name);
      }
    }
  }

  /** Writing one more sheet keeps what the sheets written so far hold. */
  lemma {:induction false} WrittenFromAdd(f: FormValue, wb: Workbook, name: string)
    requires WrittenFrom(f, wb) && SheetWritable(f, name)
    ensures WrittenFrom(f, Workbook(wb.names + [name], wb.sheets[name := SheetGrid(f.sheets[name], f.headers[name])]))
  {
  }

  lemma {:induction false} KeysAdd<V>(m: map<string, V>, names: seq<string>, name: string, v: V)
    requires forall x :: x in m <==> x in names
    ensures forall x :: x in m[name := v] <==> x in names + [name]
  {
  }

  lemma {:induction false} PrefixSnoc<T>(s: seq<T>, n: nat)
    requires 0 < n <= |s|
    ensures s[..n] == s[..n - 1] + [s[n - 1]]
  {
  }

  /** One more sheet written: the workbook so far with that sheet added. */
  lemma {:induction false} WrittenStep(f: FormValue, n: nat)
    requires WellFormed(f) && 0 < n <= |f.order| && WorkbookWrittenUpTo(f, n).Ok?
    ensures WorkbookWrittenUpTo(f, n - 1).Ok?
    ensures SheetWritable(f, f.order[n - 1])
    ensures var name := f.order[n - 1]; var wb := WorkbookWrittenUpTo(f, n - 1).value;
      WorkbookWrittenUpTo(f, n).value == Workbook(wb.names + [name], wb.sheets[name := SheetGrid(f.sheets[name], f.headers[name])])
  {
    var name := f.order[n - 1];
    assert name in f.sheets && name in f.headers;
    SheetErrorNone(f.sheets[name], f.headers[name], name);
  }

  /** Having written the first `n` sheets, the workbook holds those sheets,
      in the form's order, each laid out by `_convert_to_sheet`. */
  lemma {:induction false} WorkbookWrittenUpToContents(f: FormValue, n: nat)
    requires WellFormed(f) && n <= |f.order| && WorkbookWrittenUpTo(f, n).Ok?
    ensures WorkbookWrittenUpTo(f, n).value.names == f.order[..n]
    ensures forall name :: name in WorkbookWrittenUpTo(f, n).value.sheets <==> name in WorkbookWrittenUpTo(f, n).value.names
    ensures WrittenFrom(f, WorkbookWrittenUpTo(f, n).value)
  {
    if n > 0 {
      WrittenStep(f, n);
      WorkbookWrittenUpToContents(f, n - 1);
      var wb := WorkbookWrittenUpTo(f, n - 1).value;
      var name := f.order[n - 1];
      PrefixSnoc(f.order, n);
      WrittenFromAdd(f, wb, name);
      KeysAdd(wb.sheets, wb.names, name, SheetGrid(f.sheets[name], f.headers[name]));
    }
  }

  /** The sheet dispatch of `write_xlsform` (before `make_pretty`) succeeds
      exactly when every sheet of the form is writable, and then builds those
      sheets, in the form's order, each laid out by `_convert_to_sheet`. */
  lemma {:induction false} WorkbookWrittenSpec(f: FormValue)
    requires WellFormed(f)
    ensures WorkbookWritten(f).Ok? <==> forall name :: name in f.order ==> SheetWritable(f, name)
    ensures WorkbookWritten(f).Ok? ==>
      && WorkbookWritten(f).value.names == f.order
      && WorkbookWritten(f).value.sheets.Keys == f.sheets.Keys
      && WrittenFrom(f, WorkbookWritten(f).value)
  {
    WorkbookWrittenUpToOk(f, |f.order|);
    assert f.order[..|f.order|] == f.order;
    if WorkbookWritten(f).Ok? {
      WorkbookWrittenUpToContents(f, |f.order|);
    }
  }

  /* ---------------------------------------------------------------- */
  /* write_xlsform then read_xlsform                                  */
  /* ---------------------------------------------------------------- */

  /** A sheet the writer lays out and the reader accepts back: clean rows, and
      a `#` column, if any, first. */
  ghost predicate RoundTripSheet(rows: seq<Row>, keys: seq<string>)
  {
    CleanRows(rows, keys) && ("#" in keys ==> keys[0] == "#")
  }

  /** A written sheet is accepted and reads back as its rows in column order
      under its keys as header cells. */
  lemma {:induction false} SheetRoundTrip(rows: seq<Row>, keys: seq<string>)
    requires RoundTripSheet(rows, keys)
    ensures SheetAccepted(SheetGrid(rows, keys))
    ensures SheetRows(SheetGrid(rows, keys)) == Ok(Ordered(rows, keys))
    ensures Truncated(SheetGrid(rows, keys)[0]) == TextCells(keys)
  {
    ReadBack(rows, keys);
    WrittenHeaderLine(rows, keys);
    if Text("#") in TextCells(keys) {
      var i :| 0 <= i < |keys| && TextCells(keys)[i] == Text("#");
      assert keys[i] == "#";
    }
  }

  /** A form that survives the round trip: the survey and any of choices and
      settings, listed in that order, each a round-trip sheet. */
  ghost predicate RoundTripForm(f: FormValue)
  {
    && WellFormed(f)
    && "survey" in f.sheets
    && f.order == PresentSheets(f.sheets.Keys, |SheetNames|)
    && forall name :: name in f.sheets ==> name in f.headers && RoundTripSheet(f.sheets[name], f.headers[name])
  }

  /** The workbook the sheet dispatch of `write_xlsform` builds for such a
      form (before `make_pretty`) is accepted by the reader. */
  lemma {:induction false} WrittenAccepted(f: FormValue)
    requires RoundTripForm(f)
    ensures WorkbookWritten(f).Ok?
    ensures WorkbookWritten(f).value.sheets.Keys == f.sheets.Keys
    ensures WrittenFrom(f, WorkbookWritten(f).value)
    ensures AcceptedUpTo(WorkbookWritten(f).value, |SheetNames|)
  {
    forall name | name in f.order ensures SheetWritable(f, name) {
      assert name in f.sheets;
    }
    WorkbookWrittenSpec(f);
    var wb := WorkbookWritten(f).value;
    forall i | 0 <= i < |SheetNames| && SheetNames[i] in wb.sheets
      ensures SheetAccepted(wb.sheets[SheetNames[i]])
    {
      var name := SheetNames[i];
      SheetRoundTrip(f.sheets[name], f.headers[name]);
    }
  }

  /** A form read back in the written form's sheet order, whose sheets and
      header lists are exactly the sheets of that order, has the written
      form's sheet names in both. */
  lemma {:induction false} SameSheets(r: XlsFormValue, f: FormValue)
    requires WellFormed(f) && r.order == f.order
    requires forall name :: name in r.sheets <==> name in r.order
    requires forall name :: name in r.headers <==> name in r.order
    ensures r.sheets.Keys == f.sheets.Keys && r.headers.Keys == f.sheets.Keys
  {
  }

  /** The form the reader gives back: each sheet's rows in column order,
      and each sheet's columns as header cells. */
  function ReadBackForm(f: FormValue): XlsFormValue
    requires forall name :: name in f.sheets ==> name in f.headers
  {
    XlsFormValue(f.order,
      map name | name in f.sheets :: Ordered(f.sheets[name], f.headers[name]),
      map name | name in f.sheets :: TextCells(f.headers[name]))
  }

  /** The read form agrees with the read-back form sheet by sheet. */
  ghost predicate ReadsBack(r: XlsFormValue, f: FormValue)
  {
    && r.order == f.order
    && (forall name :: name in r.sheets <==> name in f.sheets)
    && (forall name :: name in r.headers <==> name in f.sheets)
    && (forall name {:trigger r.sheets[name]} :: name in f.sheets ==>
          && name in f.headers
          && r.sheets[name] == Ordered(f.sheets[name], f.headers[name])
          && r.headers[name] == TextCells(f.headers[name]))
  }

  lemma {:induction false} ReadsBackForm(r: XlsFormValue, f: FormValue)
    requires ReadsBack(r, f)
    ensures r == ReadBackForm(f)
  {
    var b := ReadBackForm(f);
    assert r.sheets == b.sheets;
    assert r.headers == b.headers;
  }

  /** Sheet by sheet, what the reader returns for the written workbook. */
  lemma {:induction false} WrittenRead(f: FormValue)
    requires RoundTripForm(f)
    ensures WorkbookWritten(f).Ok?
    ensures WorkbookRead(WorkbookWritten(f).value).Ok?
    ensures ReadsBack(WorkbookRead(WorkbookWritten(f).value).value, f)
  {
    WrittenAccepted(f);
    var wb := WorkbookWritten(f).value;
    WorkbookReadSpec(wb);
    var r := WorkbookRead(wb).value;
    SameSheets(r, f);
    forall name | name in f.sheets
      ensures name in f.headers
      ensures r.sheets[name] == Ordered(f.sheets[name], f.headers[name])
      ensures r.headers[name] == TextCells(f.headers[name])
    {
      SheetRoundTrip(f.sheets[name], f.headers[name]);
    }
  }

  /** `read_xlsform` of the workbook the sheet dispatch of `write_xlsform`
      builds (before `make_pretty`) gives back the form's sheets in their
      order, every row with its entries in column order, and each sheet's
      columns as header cells. */
  lemma {:induction false} FormRoundTrip(f: FormValue)
    requires RoundTripForm(f)
    ensures WorkbookWritten(f).Ok?
    ensures WorkbookRead(WorkbookWritten(f).value) == Ok(ReadBackForm(f))
  {
    WrittenRead(f);
    ReadsBackForm(WorkbookRead(WorkbookWritten(f).value).value, f);
  }

  /** When every row already lists its entries in column order, the round
      trip gives back exactly the form's sheets. */
  lemma {:induction false} FormRoundTripExact(f: FormValue)
    requires RoundTripForm(f)
    requires forall name, k :: name in f.sheets && 0 <= k < |f.sheets[name]| ==>
      f.sheets[name][k] == InColumnOrder(f.sheets[name][k], f.headers[name], |f.headers[name]|)
    ensures WorkbookWritten(f).Ok?
    ensures WorkbookRead(WorkbookWritten(f).value).Ok?
    ensures WorkbookRead(WorkbookWritten(f).value).value.order == f.order
    ensures WorkbookRead(WorkbookWritten(f).value).value.sheets == f.sheets
  {
    FormRoundTrip(f);
    forall name | name in f.sheets ensures Ordered(f.sheets[name], f.headers[name]) == f.sheets[name] {
      OrderedFixed(f.sheets[name], f.headers[name]);
    }
  }
}
