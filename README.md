# yxf, modelled in Dafny

yxf converts XLSForm spreadsheets to and from text formats that are easier to
review: YAML and Markdown. Every converter goes through one canonical form:

- an ordered dictionary from sheet name (`survey`, `choices`, `settings`) to a
  list of rows;
- each row is an insertion-ordered dictionary from column name to text;
- a side table `yxf.headers` gives each sheet its ordered column list.

This project models that form and the codecs around it, and proves what they
promise:

- `Rows`, `Forms`: the rows (Python dictionaries with their insertion order)
  and the form. A `Form` class holds the form's dictionary and the header table
  so that the in-place steps can mutate them.
- `Spreadsheet`: the worksheet as a store of written cells (`Worksheet`, whose
  `SetCell` is `sheet.cell(..., value=...)`) and its values row by row, as
  `iter_rows(values_only=True)` yields them. A cell is blank, a text or a
  number.
- `XlsForm` (yxf/xlsform.py): `truncate_row`, `headers`, `content_rows`, and
  the cell stringifier.
- `Excel`, `ExcelLayout`, `ExcelForm` (yxf/excel.py):
  - `row_to_dict` and the sheet reader `_convert_sheet`;
  - the sheet writer `_convert_to_sheet`, with its blank-row spacing and its
    invalid-key error, and the layout it produces cell by cell;
  - `validate_sheet_name` and `ensure_yxf_comment`;
  - `read_xlsform` and the sheet dispatch of `write_xlsform` (everything but
    `make_pretty` and the save) over an abstract workbook;
  - the round trip of the sheet writer and reader, for one sheet and for a
    whole form.
- `MarkdownCells`, `MarkdownRead`, `MarkdownWrite` (yxf/markdown.py):
  - the cell text of the writer (newline folding and the backslash and pipe
    escape);
  - `read_markdown` as a state machine over the top-level blocks of the parsed
    document;
  - `write_markdown` with its in-place changes to the form, its warnings, its
    column widths and its table rendering.
- `MainVariant` (yxf/__main__.py), the older all-in-one module. It has its
  own sheet reader, whose headers are always text. It has its own loader and
  its own comment step: on an empty survey that step does nothing, and it
  inserts the `#` column and the comment row together. Before YAML
  serialisation it also puts a placeholder row into every empty sheet. Its
  `_row_to_dict`, `_truncate_row` and `_content_rows_from_sheet` are the same
  code as `row_to_dict`, `truncate_row` and `content_rows`. The model shares
  one definition for each pair: `Excel.RowDict`, `XlsForm.Truncated` and
  `XlsForm.ContentRows`.

Every loop of the source is a method proved equal to a function that
specifies it. The functions are pure and defined by recursion over a prefix:
`RowDictUpTo`, `WorkbookReadUpTo`, `ReadUpTo`, `WriteUpTo`, `LoadUpTo` and
`FillUpTo`. The lemmas about those functions state what the source promises.
Errors are values. An exception of the source is an `Error` in a `Result` or
in a step's `error` field, for example `KeyError`, `IndexError`,
`StopIteration`, `ValueError` texts and the `AttributeError` of the finding
below. When a step raises, the in-place changes it made before raising are
kept.

Two behaviours of the source are kept on purpose, because the code does them:

- `read_markdown` does not rebind `result` on a `%%` paragraph. Two sheet
  names can then share one Python list, and rows appended after the second
  name show up under both. The reader numbers its list objects (the pure
  model) and keeps them as `RowList` objects on the heap (the method), so this
  sharing is kept inside the reader. The form it returns holds each sheet's
  rows as a value, so the sharing ends there (see "Left out").
- `write_markdown` mutates the form it is given. It deletes `#` keys, pops a
  leading `#` header and stores escaped values, and those changes stay when a
  later sheet raises.

## Model

| member | source | states |
|---|---|---|
| XlsForm.Truncated | yxf/xlsform.py:26-31 | the truncated row is a prefix of the row, is empty or ends in a non-blank cell, and everything cut off is blank |
| XlsForm.TruncatedUnique | yxf/xlsform.py:26-31 | any prefix with those three properties is the truncated row, so they define it |
| XlsForm.TruncatedIdempotent | yxf/xlsform.py:26-31 | truncating twice is truncating once |
| XlsForm.TruncatedKeepsInterior | yxf/xlsform.py:29-30 | a blank cell followed later by a non-blank one is kept at its position |
| XlsForm.TruncateRow | yxf/xlsform.py:26-31 | the pop loop returns the truncated row |
| XlsForm.Headers | yxf/xlsform.py:34-37 | the header row is the truncated first row; a sheet without rows raises StopIteration |
| XlsForm.ContentRows | yxf/xlsform.py:40-47 | the content rows are exactly the rows after the first, in order; a sheet without rows raises StopIteration |
| XlsForm.StringifyValue | yxf/__main__.py:84-86 | a cell reads as "" exactly when it is blank, empty text or the number 0; any other text reads as itself and any other number as its decimal digits |
| Strings.LJust | yxf/markdown.py:142 | `s.ljust(w)` is `s` followed by spaces, and is `w` long unless `s` is longer |
| Strings.Repeat | yxf/markdown.py:144 | `"-" * w` has `w` characters, all dashes |
| Strings.ReplaceChar | yxf/markdown.py:129 | replacing a character with text that does not contain it removes every occurrence; text without it is unchanged |
| Strings.NatToString | yxf/__main__.py:86 | `str(n)` of a natural number is a non-empty string of decimal digits |
| Strings.JoinSameLength | yxf/markdown.py:143 | joining parts of the same lengths with the same separator gives lines of the same length |
| Rows.GetSome | yxf/excel.py:45 | `row.get(k)` finds a value exactly for the keys of the row |
| Rows.GetIn | yxf/excel.py:45 | a value `row.get(k)` finds is stored in an entry of the row under `k` |
| Rows.GetSnoc | yxf/excel.py:45 | an entry appended to a row is found only for a key not found before |
| Rows.SetGet | yxf/excel.py:45 | after `row[k] = v`, `k` maps to `v` and every other key keeps its value |
| Rows.SetSet | yxf/markdown.py:132 | a second assignment to the same key overrides the first |
| Rows.SetKeys | yxf/excel.py:45 | overwriting keeps the key order, and a new key goes last |
| Rows.SetUnique | yxf/excel.py:45 | assignment never creates a duplicate key |
| Rows.SetAppends | yxf/excel.py:45 | a key not yet present is appended after all the others |
| Rows.Remove | yxf/markdown.py:110 | after `del row[k]` every entry is an old entry under another key |
| Rows.RemoveGet | yxf/markdown.py:110 | after `del row[k]`, `k` is gone and every other key keeps its value |
| Rows.RemoveKeeps | yxf/markdown.py:110 | every entry under another key survives the deletion |
| Spreadsheet.Values | yxf/xlsform.py:37 | `iter_rows(values_only=True)` yields every row up to the largest written, each as wide as the largest written column, with the stored cell or a blank at each position |
| Spreadsheet.PutBounded | yxf/excel.py:86 | writing a cell keeps every stored cell within the sheet's maxima |
| Spreadsheet.Worksheet.SetCell | yxf/excel.py:107 | `sheet.cell(row, column, value)` stores the text at that position and grows the maxima to cover it |
| Excel.ValidateSheetName | yxf/excel.py:114-136 | a sheet name passes exactly when it is survey, choices or settings, and otherwise fails with the invalid-sheet-name error for that source and line |
| Excel.ValidateSheetNameMessage | yxf/excel.py:133-136 | the message of that error begins with `source:line:` |
| Excel.RowToDict | yxf/excel.py:39-46 | the zip loop of `row_to_dict` returns what `RowDict` specifies |
| Excel.RowDictUpToFails | yxf/excel.py:41-44 | `row_to_dict` fails exactly when some pair in the common prefix has a non-empty value under a `None` header, and then with the first such value |
| Excel.RowDictFails | yxf/excel.py:19-46 | the same over the whole zip, which stops at the shorter of headers and values |
| Excel.RowDictUpToContents | yxf/excel.py:39-46 | a successful result has no duplicate key and no empty value, and maps every header to the last non-empty value under it |
| Excel.RowDictContents | yxf/excel.py:19-46 | the same for the whole zip |
| Excel.RowDictUpToPrefix | yxf/excel.py:40 | values or headers past the shorter list are ignored |
| Excel.RowDictUpToSkips | yxf/excel.py:41-42 | empty and `None` values change nothing |
| Excel.KeptFresh | yxf/excel.py:45 | with distinct headers, a header further right is never already a key |
| Excel.RowDictUpToKept | yxf/excel.py:39-46 | with distinct headers and no orphan value, the dictionary is exactly the non-empty (header, value) pairs in header order, values unchanged |
| Excel.HeaderKey | yxf/xlsform.py:37 | a header cell is a key, and a blank header cell is `None` |
| Excel.Stringified | yxf/excel.py:62 | each cell of the row is stringified at its own position |
| Excel.ConvertSheet | yxf/excel.py:49-66 | `_convert_sheet` returns what `SheetRows` specifies, with the stringifier defined |
| Excel.ReadContent | yxf/excel.py:60-66 | the loop over the content rows returns their non-empty dictionaries in order, or the first error |
| Excel.ReadLinesShape | yxf/excel.py:64-65 | every row read is non-empty, has distinct keys and no empty value, and there are no more rows than content lines |
| Excel.ReadLinesFails | yxf/excel.py:60-66 | reading fails exactly when some content row fails |
| Excel.ReadLineFails | yxf/excel.py:61-63 | a content row fails exactly when it has a cell that is not blank, empty or 0 under a blank cell of the truncated header row |
| Excel.SheetRowsFails | yxf/excel.py:49-66 | a sheet with a header row fails to read exactly when one of its content rows has such an unlabelled cell |
| Excel.ReadLinesOfEmpty | yxf/excel.py:64-65 | content rows with no cells contribute nothing |
| Excel.AsWrittenLosesData | yxf/excel.py:62 | the reader as written never returns a row, and fails whenever the corrected reader returns one |
| Excel.AsWrittenExample | yxf/excel.py:62 | a one-question survey raises AttributeError as written and reads as one row once corrected |
| Excel.TargetRow | yxf/excel.py:88-96 | the sheet row a data row lands on is at least its index plus 2 |
| Excel.TargetRowStep | yxf/excel.py:91-96 | a row lands one row below the previous one, plus one for a `begin_group` row and one for a change of `list_name` |
| Excel.AdvanceRow | yxf/excel.py:88-96 | the counter updates compute that target row and the new previous list name |
| Excel.StrayKey | yxf/excel.py:98-99 | the first key of a row, in the row's order, that is not a column |
| Excel.StrayKeyNone | yxf/excel.py:98 | a row has no stray key exactly when every one of its keys is a column |
| Excel.FirstStrayStep | yxf/excel.py:98-103 | before the first row with a stray key, no row has one |
| Excel.ApplyWritesConcat | yxf/excel.py:85-107 | applying two batches of writes is applying one after the other |
| Excel.WriteHeader | yxf/excel.py:85-86 | the header loop writes `keys[i]` into column `i + 1` of row 1, in order |
| Excel.WriteRow | yxf/excel.py:105-107 | the cell loop writes the row's value for each column key it has, on the target row |
| Excel.WriteDataRow | yxf/excel.py:105-109 | writing row `k` on top of the first `k` rows gives the first `k + 1` |
| Excel.WriteDataRows | yxf/excel.py:88-109 | the row loop, run after the header row, writes every row before the first with a stray key on its target row, and for that row raises the error `SheetError` names |
| Excel.ConvertToSheet | yxf/excel.py:69-111 | `_convert_to_sheet` leaves the header row and every row before the first stray key written on its target row, and raises the error naming that key and the row's name (or "(unnamed)") |
| ExcelLayout.ApplyWritesCell | yxf/excel.py:86 | a cell holds the last value written to it, or what it held before |
| ExcelLayout.HeaderWritesAt | yxf/excel.py:85-86 | the header writes put `keys[c - 1]` in column `c` of row 1 and nothing anywhere else |
| ExcelLayout.RowWritesAt | yxf/excel.py:105-107 | a row's writes put its value for `keys[c - 1]`, if any, in column `c` of its target row, and nothing elsewhere |
| ExcelLayout.TargetRowIncreasing | yxf/excel.py:88-109 | later rows land strictly lower |
| ExcelLayout.TargetRowCounts | yxf/excel.py:88-109 | row `k` lands on 2 + k + the number of `begin_group` rows + the number of `list_name` changes among rows 0 to k |
| ExcelLayout.TargetsIncreasing | yxf/excel.py:88-109 | the target rows are strictly increasing and below the header row |
| ExcelLayout.RowAtTarget | yxf/excel.py:88-109 | each row is the one found on its own target row |
| ExcelLayout.DataWritesAt | yxf/excel.py:90-109 | the data writes put a value only on the target row of some row, in the column of its key, and nowhere else |
| ExcelLayout.WrittenCell | yxf/excel.py:69-111 | the written sheet cell by cell: keys in row 1; on each target row, that row's value under each key; every other cell blank |
| ExcelLayout.WrittenBounded | yxf/excel.py:69-111 | every stored cell lies within the written sheet's maxima |
| ExcelLayout.InColumnOrderGet | yxf/excel.py:105-107 | a row in column order keeps its value for every column key and drops every other key; a key named by two columns sits at its first column |
| ExcelLayout.InColumnOrderIdempotent | yxf/excel.py:105-107 | putting a row in column order twice is doing it once |
| ExcelLayout.RowDictInColumnOrder | yxf/excel.py:39-46 | zipping the columns with a line that holds a row's values builds the row in column order; a repeated column assigns its key the same value again, which keeps the key at its first place |
| ExcelLayout.ReadRowLine | yxf/excel.py:58-63 | a line holding a row's values under the columns reads back as the row in column order, repeated columns included |
| ExcelLayout.ReadBlankLine | yxf/excel.py:61-65 | a blank line, such as an inserted spacer row, reads as an empty dictionary |
| ExcelLayout.WrittenHeaderLine | yxf/xlsform.py:34-37 | the first line of the written sheet holds the keys and reads back as them |
| ExcelLayout.WrittenContentLine | yxf/excel.py:60-63 | each line below the header reads as the row that landed there, in column order, or as an empty dictionary |
| ExcelLayout.ReadUpToAll | yxf/excel.py:60-66 | reading down past the last row's place gives every row in column order |
| ExcelLayout.ReadBack | yxf/excel.py:49-111 | reading back the sheet the writer wrote gives every row, in order, with entries in column order; the spacer rows are dropped |
| ExcelLayout.RoundTrip | yxf/excel.py:49-111 | rows that are non-empty, use only column keys, have no empty value and list their entries in column order come back unchanged, whether or not a column key repeats |
| ExcelLayout.RepeatedColumnRoundTrip | yxf/excel.py:39-46 | with two columns named `name`, a row's value is written under both and the dictionary read back holds it once |
| ExcelLayout.ReadBackValues | yxf/excel.py:49-111 | any such row comes back with the same value under every key |
| ExcelLayout.OrderedIdempotent | yxf/excel.py:105-107 | ordering the rows twice is ordering them once |
| ExcelLayout.OrderedClean | yxf/excel.py:49-111 | what one write and read returns again meets the round-trip premise |
| ExcelLayout.SecondRoundTrip | yxf/excel.py:49-111 | after one write and read the rows are stable: a second round gives them back exactly |
| ExcelForm.DesiredComment | yxf/excel.py:147 | the comment begins with "Converted by yxf," |
| ExcelForm.EnsureComment | yxf/excel.py:139-156 | the comment step fails exactly when the survey is missing or empty or has no recorded columns, with KeyError or IndexError; otherwise only the survey and its columns change |
| ExcelForm.EnsureYxfComment | yxf/excel.py:139-156 | the in-place step leaves the form and error that `EnsureComment` specifies |
| ExcelForm.CommentFirst | yxf/excel.py:149-153 | afterwards the first survey row's `#` holds the comment |
| ExcelForm.CommentedSurveyShape | yxf/excel.py:149-153 | the survey grows by one comment row unless its first row already holds a conversion comment, which is then overwritten in place, other cells and rows kept |
| ExcelForm.EnsureCommentIdempotent | yxf/excel.py:139-156 | adding the comment twice is adding it once |
| ExcelForm.ReadXlsform | yxf/excel.py:159-190 | the sheet loop of `read_xlsform` returns what `WorkbookRead` specifies |
| ExcelForm.PresentSheets | yxf/excel.py:176-177 | the sheets read are exactly the present ones among survey, choices and settings, in that order |
| ExcelForm.WorkbookReadUpToOk | yxf/excel.py:176-184 | reading the first `n` sheet names succeeds exactly when each present one converts and has `#`, if anywhere, first |
| ExcelForm.WorkbookReadUpToContents | yxf/excel.py:176-184 | the form holds exactly the present sheets in sheet-name order, each with its rows and its header cells |
| ExcelForm.WorkbookReadSpec | yxf/excel.py:159-190 | `read_xlsform` succeeds exactly when the survey is present and every sheet is accepted, fails on a missing survey, and returns survey first with every sheet's rows and headers |
| ExcelForm.WorkbookReadCommentError | yxf/excel.py:180-184 | the first sheet rejected for its `#` column stops the reading with the error naming it |
| ExcelForm.WriteXlsform | yxf/excel.py:204-214 | the sheet dispatch of `write_xlsform` returns what `WorkbookWritten` specifies |
| ExcelForm.SheetErrorNone | yxf/excel.py:98-103 | the sheet writer raises exactly when some row has a key that is not a column |
| ExcelForm.WorkbookWrittenUpToOk | yxf/excel.py:205-212 | writing the first `n` sheets succeeds exactly when each has recorded columns covering its keys |
| ExcelForm.WorkbookWrittenUpToContents | yxf/excel.py:205-212 | the workbook holds those sheets in the form's order, each laid out by the sheet writer |
| ExcelForm.WorkbookWrittenSpec | yxf/excel.py:204-214 | the sheet dispatch of `write_xlsform`, before `make_pretty`, succeeds exactly when every sheet is writable, and builds every sheet in the form's order |
| ExcelForm.SheetRoundTrip | yxf/excel.py:49-111 | a written sheet is accepted by the reader and reads back as its rows in column order under its keys |
| ExcelForm.WrittenAccepted | yxf/excel.py:159-214 | the workbook that the sheet dispatch builds for a round-trip form is accepted by `read_xlsform` |
| ExcelForm.WrittenRead | yxf/excel.py:159-214 | reading the workbook that the sheet dispatch builds gives back, sheet by sheet, the rows in column order and the columns |
| ExcelForm.FormRoundTrip | yxf/excel.py:159-214 | `read_xlsform` of the workbook that the sheet dispatch of `write_xlsform` builds is the form with every row in column order and every column list as header cells |
| ExcelForm.FormRoundTripExact | yxf/excel.py:159-214 | when rows already list their entries in column order, the round trip gives back exactly the form's order and sheets |
| MarkdownCells.FoldLine | yxf/markdown.py:121-129 | folding leaves no newline and keeps a line without one unchanged |
| MarkdownCells.EscapeIsEach | yxf/markdown.py:132 | the two replacements together escape each character on its own |
| MarkdownCells.UnescapeEscape | yxf/markdown.py:132 | unescaping an escaped cell gives the text back |
| MarkdownCells.EscapeInjective | yxf/markdown.py:132 | different texts never escape to the same cell |
| MarkdownCells.EscapePipesEscaped | yxf/markdown.py:130-132 | an escaped cell has no unescaped pipe |
| MarkdownCells.EscapeEachPlain | yxf/markdown.py:132 | text without backslash or pipe is unchanged |
| MarkdownCells.EscapeExamples | yxf/markdown.py:132 | in "A, pipe, B" the pipe gains a backslash in front, and in "A, backslash, B" the backslash is doubled |
| MarkdownCells.CellTextOneLine | yxf/markdown.py:117-132 | a stored cell is a single line with its pipes escaped |
| MarkdownRead.DirectiveName | yxf/markdown.py:47-49 | `%%`, white space and a name on the rest of the line give exactly that name |
| MarkdownRead.TextRow | yxf/markdown.py:70 | `row_to_dict` over text cells cannot fail, and maps each header to its last non-empty value |
| MarkdownRead.TableRowsShape | yxf/markdown.py:67-72 | every row a table contributes is the non-empty dictionary of one of its body rows, with no empty value and no key twice |
| MarkdownRead.CommentColumnEmpty | yxf/markdown.py:62-69 | a synthesised comment column stays empty: no data row has a `#` key |
| MarkdownRead.Step | yxf/markdown.py:40-74 | each block keeps the reader's state consistent: the current list exists, every stored list exists, the order lists each sheet once, and every sheet has headers |
| MarkdownRead.FormOf | yxf/markdown.py:73-76 | the form built lists each sheet once and has a header list for every sheet |
| MarkdownRead.StepNaming | yxf/markdown.py:41-54 | a heading validates its text, a `%%` paragraph its name, and any other paragraph appends a comment row |
| MarkdownRead.SheetNameTracked | yxf/markdown.py:41-50 | the sheet name is unset exactly until the first heading or `%%` paragraph, and is then one of the three names, as is every stored sheet |
| MarkdownRead.TableWithoutName | yxf/markdown.py:56-59 | a table before any heading or `%%` paragraph fails with "No sheet name specified" at the table's line |
| MarkdownRead.NamingFails | yxf/markdown.py:41-50 | a heading or `%%` paragraph naming any other sheet fails with the invalid-sheet-name error at that line |
| MarkdownRead.HeadingResets | yxf/markdown.py:41-44 | a valid heading names the sheet and starts a new empty list that no sheet holds; the form is unchanged |
| MarkdownRead.DirectiveSwitches | yxf/markdown.py:47-50 | a valid `%%` paragraph only switches the name; the list and the form are unchanged |
| MarkdownRead.CommentAppends | yxf/markdown.py:51-54 | any other paragraph appends `{"#": text}` to the current list, and so to every sheet stored with it |
| MarkdownRead.TableAppends | yxf/markdown.py:55-74 | a table appends its rows after the comment rows, stores the list under the sheet name with its headers, and adds a new name to the order |
| MarkdownRead.CommentColumnHeaders | yxf/markdown.py:62-64 | the comment column is synthesised only when the table's first header is not `#`, and then the recorded headers begin with `#` |
| MarkdownRead.DirectiveSharesList | yxf/markdown.py:47-50 | after a table, a `%%` paragraph and another table, both sheet names hold the very same rows |
| MarkdownRead.ReadFormShape | yxf/markdown.py:19-77 | a form read from Markdown holds only the three sheets, lists each once, and has headers for each |
| MarkdownRead.ReadTable | yxf/markdown.py:60-74 | the table step appends the non-empty dictionaries of the body rows to `result` and returns the recorded headers |
| MarkdownRead.ReadStep | yxf/markdown.py:40-74 | one loop turn leaves the variables standing for the next reader state, or raises that state's error |
| MarkdownRead.ReadNode | yxf/markdown.py:40-74 | the loop body at block `n` advances `ReadUpTo` by one block or raises what `read_markdown` raises |
| MarkdownRead.ReadMarkdown | yxf/markdown.py:19-77 | `read_markdown` returns what `MarkdownRead` specifies |
| MarkdownWrite.UncommentedRows | yxf/markdown.py:105-110 | after the comment pass no row has a `#` key and every other key keeps its value |
| MarkdownWrite.ExtractComments | yxf/markdown.py:105-110 | the comment loop appends the comment paragraphs and deletes every `#` key |
| MarkdownWrite.CommentLinesSpec | yxf/markdown.py:105-109 | the paragraphs are the non-empty `#` values in row order, each followed by a blank line |
| MarkdownWrite.EntryWarningsSpec | yxf/markdown.py:121-128 | one warning per multi-line value of a row, naming its column, and no other |
| MarkdownWrite.SheetWarningsSpec | yxf/markdown.py:117-128 | every warning is for a multi-line value at its row's table line, and every multi-line value has one |
| MarkdownWrite.EscapeRow | yxf/markdown.py:118-132 | the entry loop stores each value's folded and escaped text under its key, with its warnings |
| MarkdownWrite.EscapeCells | yxf/markdown.py:117-132 | the escaping loop escapes every row and logs the warnings `SheetWarnings` specifies |
| MarkdownWrite.LastIndex | yxf/markdown.py:101 | a header's index is absent exactly when the header is, and is its last position |
| MarkdownWrite.ColumnIndex | yxf/markdown.py:112-115 | after the pop, a key finds a valid column holding that key, and finds none exactly when it is not a header or is the popped `#` |
| MarkdownWrite.DistinctColumns | yxf/markdown.py:101 | with no repeated header, each column is found at its own position |
| MarkdownWrite.HeaderWidths | yxf/markdown.py:135 | the starting widths are the header lengths |
| MarkdownWrite.EntryWidthsFails | yxf/markdown.py:137-139 | measuring a row fails exactly when one of its keys has no column, with that key's KeyError |
| MarkdownWrite.SheetWidthsFails | yxf/markdown.py:136-139 | measuring the sheet fails exactly when some key of some row has no column, with that key's KeyError |
| MarkdownWrite.SheetWidthsGrow | yxf/markdown.py:135-139 | every column is at least as wide as its header |
| MarkdownWrite.SheetWidthsFit | yxf/markdown.py:136-139 | every value fits in its column |
| MarkdownWrite.SheetWidthsAttained | yxf/markdown.py:135-139 | every width is the length of its header or of one of its values, so it is the maximum |
| MarkdownWrite.MeasureRow | yxf/markdown.py:137-139 | the entry loop widens the widths as `EntryWidths` specifies, or raises its KeyError |
| MarkdownWrite.ColumnWidths | yxf/markdown.py:135-139 | the width pass returns the widths `SheetWidths` specifies, or its KeyError |
| MarkdownWrite.HeaderCells | yxf/markdown.py:142 | each header cell is the header left-justified to its column's width |
| MarkdownWrite.SeparatorCells | yxf/markdown.py:144 | each separator cell is a run of dashes as wide as its column |
| MarkdownWrite.RowCells | yxf/markdown.py:149 | each cell is the row's value under the header, or "", left-justified to the width |
| MarkdownWrite.BodyLinesRows | yxf/markdown.py:146-150 | the table body has a line for each non-empty row, in order, and for nothing else |
| MarkdownWrite.CellsFit | yxf/markdown.py:135-149 | with no repeated header and the measured widths, every cell is exactly as wide as its column |
| MarkdownWrite.TableAligned | yxf/markdown.py:141-151 | with no repeated header, every line of the table but the closing blank one has the same length |
| MarkdownWrite.RenderTable | yxf/markdown.py:141-151 | the rendering loop appends the lines `TableLines` specifies |
| MarkdownWrite.WriteUpTo | yxf/markdown.py:92-98 | visiting the sheets changes neither the form's order nor its sheet and header keys |
| MarkdownWrite.WriteErrSticks | yxf/markdown.py:92-151 | once a sheet raises, later sheet names change nothing |
| MarkdownWrite.GetEscaped | yxf/markdown.py:132 | an escaped row keeps each key's value as its cell text |
| MarkdownWrite.SheetResultShape | yxf/markdown.py:99-151 | a written sheet's rows have no `#`, hold single-line values that unescape to the folded originals, and a leading `#` header is popped |
| MarkdownWrite.EscapedKeys | yxf/markdown.py:105-132 | each entry of a written row comes from an entry under a key other than `#`, and each such entry is there |
| MarkdownWrite.SheetResultOk | yxf/markdown.py:100-139 | with a non-empty header list, a sheet is written exactly when every non-`#` key of every row is a header |
| MarkdownWrite.SheetResultKeyError | yxf/markdown.py:138 | otherwise writing the sheet fails with that key's KeyError |
| MarkdownWrite.WriteUpToUntouched | yxf/markdown.py:92-98 | the writer leaves the sheets it has not visited as given |
| MarkdownWrite.SheetsIndependent | yxf/markdown.py:92-151 | writing one sheet never changes how another is written, despite the in-place changes |
| MarkdownWrite.FromGivenError | yxf/markdown.py:92-151 | the writer stops at the first sheet that fails, with its error, and succeeds when none does |
| MarkdownWrite.FromGivenForm | yxf/markdown.py:92-151 | after a successful write each sheet holds exactly what its own writing leaves |
| MarkdownWrite.MarkdownWrittenSpec | yxf/markdown.py:80-153 | `write_markdown` succeeds exactly when each sheet can be written; its text is the sheets' lines, in the fixed order, joined by newlines; it fails with the first sheet's error |
| MarkdownWrite.WrittenForm | yxf/markdown.py:80-153 | after a successful write every row has lost `#`, holds escaped single-line values, and every header list has lost a leading `#` |
| MarkdownWrite.WriteRows | yxf/markdown.py:104-151 | the comment, `#`-pop, escaping, width and rendering steps on one sheet's rows give the rows, headers, lines, warnings and error `WriteSheetRows` specifies |
| MarkdownWrite.WriteSheetInPlace | yxf/markdown.py:96-151 | the loop body on the form object leaves the form, lines, warnings and error that `SheetResult` specifies |
| MarkdownWrite.WriteMarkdown | yxf/markdown.py:80-153 | `write_markdown` on the form object returns the text or error `MarkdownWritten` specifies and leaves the mutated form and the warnings of `WriteUpTo` |
| MainVariant.SheetHeaders | yxf/__main__.py:62-66 | the headers are [] for a sheet without rows, and otherwise the stringified cells of the truncated first row |
| Excel.TextKeys | yxf/__main__.py:51-56 | every text header is a key, never `None`, as the older module's reader, the Markdown reader and the written sheet give them to `row_to_dict` |
| MainVariant.ConvertSheet | yxf/__main__.py:49-59 | this `_convert_sheet` returns what `SheetRows` specifies |
| MainVariant.SheetRowsOk | yxf/__main__.py:49-59 | this reader fails exactly on a sheet without rows, because no header is `None` |
| MainVariant.SheetRowsAgree | yxf/__main__.py:49-66 | where the header row has no blank and no 0 cell, this reader and the corrected reader of yxf/excel.py agree |
| MainVariant.LoadUpTo | yxf/__main__.py:298-306 | the sheets loaded and the header lists have the same keys |
| MainVariant.LoadWorkbook | yxf/__main__.py:294-312 | `_load_workbook_from_wb` returns what `Load` specifies |
| MainVariant.LoadUpToOk | yxf/__main__.py:298-306 | loading the first `n` names succeeds exactly when each present sheet has a row and has `#`, if anywhere, first |
| MainVariant.LoadUpToContents | yxf/__main__.py:298-306 | the loaded form holds exactly the present sheets in sheet-name order, each with its rows and header texts |
| MainVariant.LoadSpec | yxf/__main__.py:294-312 | loading succeeds exactly when the survey is present and every sheet is accepted, and then holds survey first and every sheet's rows and headers |
| MainVariant.PresentDistinct | yxf/__main__.py:298-301 | no sheet is loaded twice |
| MainVariant.VariantComment | yxf/__main__.py:263-284 | a missing survey or column list raises KeyError; an empty survey is left alone; otherwise the first survey row holds the comment, `#` is a column, and without `#` both the column and the comment row are prepended |
| MainVariant.EnsureYxfComment | yxf/__main__.py:263-284 | the in-place step leaves the form and error that `VariantComment` specifies |
| MainVariant.VariantCommentIdempotent | yxf/__main__.py:263-284 | adding the comment twice is adding it once |
| MainVariant.CommentStepsCompared | yxf/__main__.py:263-284 | this step and the one of yxf/excel.py agree unless `#` is not a column but the first row holds a conversion comment; on an empty survey this one does nothing where that one raises |
| MainVariant.Placeholder | yxf/__main__.py:333 | the placeholder row holds only `#`, with "Empty <sheet> sheet" |
| MainVariant.FillUpTo | yxf/__main__.py:328-333 | the placeholder loop changes neither the order nor the sheet and header keys |
| MainVariant.FillOne | yxf/__main__.py:329-333 | one turn of the loop on the form object leaves the form and error that `FillSheet` specifies |
| MainVariant.FillEmptySheets | yxf/__main__.py:328-333 | the placeholder loop on the form object leaves the form and error that `FillUpTo` specifies |
| MainVariant.FillUpToOk | yxf/__main__.py:328-333 | the loop fails exactly when an empty sheet has no column list |
| MainVariant.FillUpToContents | yxf/__main__.py:328-333 | each empty sheet holds just its placeholder and has `#` as a column; every other sheet and column list is unchanged |
| MainVariant.PreparedForYaml | yxf/__main__.py:321-333 | after a successful load neither the comment step nor the placeholder loop can fail, and no sheet is left empty |

## Left out

- Workbook I/O: loading and saving with openpyxl, `BytesIO`, files and the
  command line. A workbook is a map from sheet name to a grid of cells, and
  a worksheet is a store of written cells.
- Presentation: the fonts, named styles, frozen panes, column widths and
  group colours of `make_pretty` (yxf/xlsform.py:50-130). The colours use
  floating point. Its failures are not modelled either; see the next lines.
- ExcelForm.WorkbookWrittenSpec: `WorkbookWritten` is the workbook before
  `make_pretty` runs. `make_pretty` raises IndexError for any column with no
  non-empty content cell, such as a header-only sheet or an unused `hint`
  column, because `col_widths[percentile_index]` indexes an empty list
  (yxf/xlsform.py:76-79). It also raises IndexError on an `end_` row with no
  open `begin_` row, at `color_stack.pop()` (yxf/xlsform.py:129-130). In
  those cases `write_xlsform` raises where the model succeeds.
- ExcelForm.WrittenAccepted: reads the workbook before `make_pretty`, so it
  says nothing about the IndexError cases above.
- ExcelForm.WrittenRead: reads the workbook before `make_pretty`, so it says
  nothing about the IndexError cases above.
- ExcelForm.FormRoundTrip: the round trip goes through the workbook before
  `make_pretty`; in the IndexError cases above the source saves nothing.
- ExcelForm.FormRoundTripExact: as for ExcelForm.FormRoundTrip, the
  IndexError cases of `make_pretty` are not modelled.
- `write_xlsform`: the default sheet a new openpyxl workbook has, and its
  removal. The model's workbook starts empty and holds exactly the form's
  sheets.
- The `yxf` key of the form dictionary. A form whose `yxf` entry or
  `yxf.headers` is missing is not modelled; the header table is always there.
- Cell values other than text and integers, such as dates and floats. A
  number is read as its decimal digits; floats are not modelled. A numeric
  header cell also becomes its decimal text as a key (`Excel.HeaderKey`),
  whereas the source keeps the int itself as the dictionary key
  (yxf/xlsform.py:37, yxf/excel.py:58).
- markdown-it: tokenising, inline parsing and the unescaping of `\|` in the
  cells. The reader is given the top-level blocks with their text already
  unescaped.
- MarkdownRead.DirectiveName: an empty `%%` name is not covered. Python's
  `\s*` then also consumes the line break, and the name comes from the next
  line.
- The Markdown round trip (writer, then markdown-it, then reader) is not
  stated, because the parser is not modelled. The cell-level half is stated
  instead: `MarkdownCells.UnescapeEscape` and `MarkdownCells.EscapeInjective`.
- MarkdownWrite.CellsFit and MarkdownWrite.TableAligned assume no repeated
  header. With a repeated header the source measures the width of the last
  column of that name only, and the table does not line up.
- MarkdownRead.FormOf: the returned form holds each sheet's rows as a value,
  so two sheets that share one list in the reader are two equal lists in the
  form. Later in-place changes therefore do not reach the sharing sheets. In
  the source they do: `ensure_yxf_comment`'s `form["survey"].insert(0, ...)`
  (yxf/excel.py:151) also adds the row to a sheet sharing the survey's list.
- ExcelForm.EnsureComment: changes the survey only, never a sheet whose list
  the survey shares; see MarkdownRead.FormOf above.
- MarkdownWrite.SheetsIndependent: holds for a form whose sheets are values.
  A form read from Markdown whose sheets share a list sees the in-place
  changes of one sheet's writing under the other name in the source.
- The text of log messages. A warning is a value naming the source, the table
  line and the column.
- The YAML side: serialising with strictyaml, yxf/yaml.py, and the YAML
  readers of yxf/__main__.py.
- ExcelLayout.RoundTrip: the exact round trip holds for rows whose entries
  are already in column order. Other rows come back with their entries
  reordered, as ExcelLayout.ReadBack states.

## Findings

| source | as written | input that shows it | evidently intended | confidence | as-written member | corrected member |
|---|---|---|---|---|---|---|
| yxf/excel.py:62 | `_convert_sheet` calls `xlsform.stringify_value`, which yxf/xlsform.py does not define. The first content row that still has a cell after truncation raises AttributeError. | a survey with header row `type, name` and one content row `text, q1` | stringify each cell as `_stringify_value` of yxf/__main__.py:84-86 does, and return `[{"type": "text", "name": "q1"}]` | not executed | Excel.AsWrittenLosesData | Excel.ConvertSheet |
