/** The Markdown reader (`read_markdown`, yxf/markdown.py:19-77): a state
    machine over the top-level blocks of the parsed document. A level-2
    heading or a `%% name` paragraph names the sheet that the next table is
    stored under, other paragraphs become comment rows, and each table's body
    rows become row dictionaries appended to the list being accumulated.

    The reader binds the name `result` to a Python list and stores that very
    list object in the form. A heading binds `result` to a new list; a `%%`
    paragraph does not, so two sheet names can end up sharing one list. The
    model keeps that sharing while reading: the pure reader numbers the list
    objects, and the method keeps them on the heap as `RowList` objects. The
    form returned at the end holds each sheet's rows as a value. */
module MarkdownRead {
  import opened Wrappers
  import opened Strings
  import opened Errors
  import opened Rows
  import opened Forms
  import opened Excel

  /** The top-level blocks of the syntax tree the reader looks at: the text of
      their inline content and the first source line of the block. */
  datatype Node =
    | Heading(text: string, line: nat)        // an `h2` heading
    | Paragraph(text: string, line: nat)      // a `p` block
    | Table(header: seq<string>, body: Option<seq<seq<string>>>, line: nat)
        // the header cells, and the body rows (`None`: the table has no `tbody`)
    | Other                                   // any other block: skipped

  /* ---------------------------------------------------------------- */
  /* The `%%` directive: re.match(r"%%\s*(.*)", text)                  */
  /* ---------------------------------------------------------------- */

  /** A character Python's `\s` matches in a `str` pattern. */
  predicate IsSpace(c: char)
  {
    || c == ' ' || '\t' <= c <= '\r'          // tab, line feed, vertical tab, form feed, carriage return
    || '\U{1c}' <= c <= '\U{1f}'               // the information separators
    || c == '\U{85}' || c == '\U{a0}' || c == '\U{1680}'
    || '\U{2000}' <= c <= '\U{200a}'
    || c == '\U{2028}' || c == '\U{2029}' || c == '\U{202f}' || c == '\U{205f}' || c == '\U{3000}'
  }

  /** What is left after the greedy `\s*`. */
  function SkipSpaces(s: string): (r: string)
    ensures |r| <= |s| && r == s[|s| - |r|..]
    ensures r == [] || !IsSpace(r[0])
    ensures forall i :: 0 <= i < |s| - |r| ==> IsSpace(s[i])
  {
    if s != [] && IsSpace(s[0]) then SkipSpaces(s[1..]) else s
  }

  /** What `(.*)` captures: everything up to the first line break. */
  function LineStart(s: string): (r: string)
    ensures |r| <= |s| && r == s[..|r|]
    ensures '\n' !in r
    ensures |r| == |s| || s[|r|] == '\n'
  {
    if s == [] || s[0] == '\n' then [] else [s[0]] + LineStart(s[1..])
  }

  /** The sheet name a `%%` paragraph gives, if the paragraph is one. */
  function Directive(text: string): (r: Option<string>)
    ensures r.Some? <==> StartsWith(text, "%%")
    ensures r.Some? ==> '\n' !in r.value && (r.value == [] || !IsSpace(r.value[0]))
  {
    if StartsWith(text, "%%") then Some(LineStart(SkipSpaces(text[2..]))) else None
  }

  /** `%%`, any run of white space, then a name on the rest of the line gives
      back exactly that name. (An empty name is not covered: `\s*` also
      consumes the line break, and the next line is taken instead.) */
  lemma {:induction false} DirectiveName(gap: string, name: string, rest: string)
    requires forall i :: 0 <= i < |gap| ==> IsSpace(gap[i])
    requires name != [] && !IsSpace(name[0])
    requires '\n' !in name
    requires rest == [] || rest[0] == '\n'
    ensures Directive("%%" + gap + name + rest) == Some(name)
  {
    var text := "%%" + gap + name + rest;
    StartsWithAppend("%%", gap + name + rest);
    assert text == "%%" + (gap + name + rest);
    assert text[2..] == gap + (name + rest);
    SkipGap(gap, name + rest);
    LineOf(name, rest);
  }

  lemma {:induction false} SkipGap(gap: string, s: string)
    requires forall i :: 0 <= i < |gap| ==> IsSpace(gap[i])
    requires s == [] || !IsSpace(s[0])
    ensures SkipSpaces(gap + s) == s
  {
    if gap != [] {
      assert (gap + s)[1..] == gap[1..] + s;
      SkipGap(gap[1..], s);
    } else {
      assert gap + s == s;
    }
  }

  lemma {:induction false} LineOf(name: string, rest: string)
    requires '\n' !in name
    requires rest == [] || rest[0] == '\n'
    ensures LineStart(name + rest) == name
  {
    if name != [] {
      assert (name + rest)[1..] == name[1..] + rest;
      LineOf(name[1..], rest);
    } else {
      assert name + rest == rest;
    }
  }

  /** A block that names the current sheet. */
  predicate Names(node: Node)
  {
    node.Heading? || (node.Paragraph? && Directive(node.text).Some?)
  }

  /* ---------------------------------------------------------------- */
  /* Table rows                                                       */
  /* ---------------------------------------------------------------- */

  /** `row_to_dict(headers, values)` over text cells. It cannot fail, as no
      header is `None`; it maps each header to its last non-empty value. */
  function TextRow(headers: seq<string>, values: seq<string>): (d: Row)
    ensures UniqueKeys(d)
    ensures forall e :: e in d ==> e.value != ""
    ensures forall k :: Get(d, k) == LastValue(TextKeys(headers), TextKeys(values), MinLen(headers, values), k)
  {
    RowDictFails(TextKeys(headers), TextKeys(values));
    RowDictContents(TextKeys(headers), TextKeys(values));
    RowDict(TextKeys(headers), TextKeys(values)).value
  }

  /** A body row, with the empty comment cell in front when the reader
      synthesised the comment column. */
  function Padded(values: seq<string>, add: bool): seq<string>
  {
    if add then [""] + values else values
  }

  /** The dictionaries of the body rows that hold some non-empty cell, in order. */
  function TableRows(headers: seq<string>, body: seq<seq<string>>, add: bool): (rs: seq<Row>)
    ensures |rs| <= |body|
  {
    if body == [] then []
    else
      var d := TextRow(headers, Padded(body[|body| - 1], add));
      TableRows(headers, body[..|body| - 1], add) + (if d == [] then [] else [d])
  }

  /** Every row a table contributes is the non-empty dictionary of one of its
      body rows, holds no empty value, and has no key twice. */
  lemma {:induction false} TableRowsShape(headers: seq<string>, body: seq<seq<string>>, add: bool)
    ensures forall d :: d in TableRows(headers, body, add) ==>
      && d != []
      && UniqueKeys(d)
      && (forall e :: e in d ==> e.value != "")
      && (exists j :: 0 <= j < |body| && d == TextRow(headers, Padded(body[j], add)))
  {
    if body != [] {
      var init := body[..|body| - 1];
      TableRowsShape(headers, init, add);
      forall d | d in TableRows(headers, init, add)
        ensures exists j :: 0 <= j < |body| && d == TextRow(headers, Padded(body[j], add))
      {
        var j :| 0 <= j < |init| && d == TextRow(headers, Padded(init[j], add));
        assert init[j] == body[j];
      }
    }
  }

  /** The comment column is synthesised when the table's first header is not
      `#` but the first row accumulated so far has a `#` key. */
  function AddsCommentColumn(result: seq<Row>, header: seq<string>): bool
    requires header != []
  {
    header[0] != "#" && result != [] && HasKey(result[0], "#")
  }

  /** The headers the table is recorded with. */
  function TableHeaders(result: seq<Row>, header: seq<string>): seq<string>
    requires header != []
  {
    if AddsCommentColumn(result, header) then ["#"] + header else header
  }

  /** No `#` value among the first `n` pairs leaves `#` out of the dictionary. */
  lemma {:induction false} LastValueNone(headers: seq<Option<string>>, values: seq<Option<string>>, n: nat, k: string)
    requires n <= |headers| && n <= |values|
    requires forall i :: 0 <= i < n ==> !Filled(values[i]) || headers[i] != Some(k)
    ensures LastValue(headers, values, n, k) == None
  {
    if n > 0 {
      LastValueNone(headers, values, n - 1, k);
    }
  }

  /** A synthesised comment column stays empty: when the table's own header
      has no `#`, none of its rows has a `#` key. */
  lemma {:induction false} CommentColumnEmpty(header: seq<string>, body: seq<seq<string>>)
    requires "#" !in header
    ensures forall d :: d in TableRows(["#"] + header, body, true) ==> !HasKey(d, "#")
  {
    TableRowsShape(["#"] + header, body, true);
    forall d | d in TableRows(["#"] + header, body, true) ensures !HasKey(d, "#") {
      var j :| 0 <= j < |body| && d == TextRow(["#"] + header, Padded(body[j], true));
      var h, v := TextKeys(["#"] + header), TextKeys([""] + body[j]);
      forall i | 0 <= i < MinLen(["#"] + header, [""] + body[j])
        ensures !Filled(v[i]) || h[i] != Some("#")
      {
        if i > 0 {
          assert (["#"] + header)[i] == header[i - 1];
        }
      }
      LastValueNone(h, v, MinLen(["#"] + header, [""] + body[j]), "#");
      GetSome(d, "#");
    }
  }

  /* ---------------------------------------------------------------- */
  /* The reader state machine                                         */
  /* ---------------------------------------------------------------- */

  /** The reader's variables. List objects are numbered: `lists[i]` is the
      content of the i-th list `result` has been bound to. */
  datatype Reader = Reader(
    name: Option<string>,                // sheet_name
    lists: seq<seq<Row>>,                // every list bound to `result` so far
    current: nat,                        // the list `result` is bound to now
    sheets: map<string, nat>,            // form: sheet name -> the list stored under it
    order: seq<string>,                  // the insertion order of the form's keys
    headers: map<string, seq<string>>)   // form_headers

  ghost predicate Valid(st: Reader)
  {
    && st.current < |st.lists|
    && (forall name :: name in st.sheets ==> st.sheets[name] < |st.lists|)
    && (forall i, j :: 0 <= i < j < |st.order| ==> st.order[i] != st.order[j])
    && (forall name :: name in st.sheets <==> name in st.order)
    && st.headers.Keys == st.sheets.Keys
  }

  const Start: Reader := Reader(None, [[]], 0, map[], [], map[])

  /** Storing the current list under `name` after appending `rows` to it. */
  function StoreList(st: Reader, name: string, rows: seq<Row>, headers: seq<string>): Reader
    requires Valid(st)
  {
    st.(lists := st.lists[st.current := st.lists[st.current] + rows],
        sheets := st.sheets[name := st.current],
        order := if name in st.sheets then st.order else st.order + [name],
        headers := st.headers[name := headers])
  }

  /** One iteration of the reader's loop over the blocks. */
  function Step(st: Reader, node: Node, source: string): (r: Result<Reader, Error>)
    requires Valid(st)
    ensures r.Ok? ==> Valid(r.value)
  {
    match node
    case Heading(text, line) =>
      var check := ValidateSheetName(text, source, line);
      if check.Fail? then Err(check.error)
      else Ok(st.(name := Some(text), lists := st.lists + [[]], current := |st.lists|))
    case Paragraph(text, line) =>
      (match Directive(text)
       case Some(name) =>
         var check := ValidateSheetName(name, source, line);
         if check.Fail? then Err(check.error) else Ok(st.(name := Some(name)))
       case None =>
         Ok(st.(lists := st.lists[st.current := st.lists[st.current] + [[Entry("#", text)]]])))
    case Table(header, body, line) =>
      if st.name.None? || st.name.value == "" then Err(NoSheetName(source, line))
      else if body.None? then Err(NotEnoughValues(2, 1))
      else if header == [] then Err(IndexError)
      else
        var result := st.lists[st.current];
        var add := AddsCommentColumn(result, header);
        var headers := TableHeaders(result, header);
        Ok(StoreList(st, st.name.value, TableRows(headers, body.value, add), headers))
    case Other => Ok(st)
  }

  /** The reader's state after the first `n` blocks. */
  function ReadUpTo(nodes: seq<Node>, source: string, n: nat): (r: Result<Reader, Error>)
    requires n <= |nodes|
    ensures r.Ok? ==> Valid(r.value)
  {
    if n == 0 then Ok(Start)
    else match ReadUpTo(nodes, source, n - 1)
      case Err(e) => Err(e)
      case Ok(st) => Step(st, nodes[n - 1], source)
  }

  /** The form dictionary the reader has built: each sheet is the content of
      the list stored under it, and every sheet has its header list. */
  function FormOf(st: Reader): (f: FormValue)
    requires Valid(st)
    ensures WellFormed(f)
    ensures f.headers.Keys == f.sheets.Keys
  {
    FormValue(st.order, map name | name in st.sheets :: st.lists[st.sheets[name]], st.headers)
  }

  /** What `read_markdown` returns or raises for the given blocks. */
  function MarkdownRead(nodes: seq<Node>, source: string): Result<FormValue, Error>
  {
    match ReadUpTo(nodes, source, |nodes|)
    case Err(e) => Err(e)
    case Ok(st) => Ok(FormOf(st))
  }

  lemma {:induction false} ReadErrSticks(nodes: seq<Node>, source: string, k: nat, n: nat)
    requires k <= n <= |nodes|
    requires ReadUpTo(nodes, source, k).Err?
    ensures ReadUpTo(nodes, source, n) == ReadUpTo(nodes, source, k)
    decreases n - k
  {
    if k < n {
      assert ReadUpTo(nodes, source, k + 1) == ReadUpTo(nodes, source, k);
      ReadErrSticks(nodes, source, k + 1, n);
    }
  }

  /** How each kind of paragraph and heading moves the state. */
  lemma {:induction false} StepNaming(st: Reader, node: Node, source: string)
    requires Valid(st) && Names(node)
    ensures var name := if node.Heading? then node.text else Directive(node.text).value;
      var check := ValidateSheetName(name, source, node.line);
      Step(st, node, source) ==
        if check.Fail? then Err(check.error)
        else if node.Heading? then Ok(st.(name := Some(name), lists := st.lists + [[]], current := |st.lists|))
        else Ok(st.(name := Some(name)))
  {
  }

  lemma {:induction false} StepComment(st: Reader, text: string, line: nat, source: string)
    requires Valid(st) && Directive(text).None?
    ensures Step(st, Paragraph(text, line), source) ==
      Ok(st.(lists := st.lists[st.current := st.lists[st.current] + [[Entry("#", text)]]]))
  {
  }

  /* ---------------------------------------------------------------- */
  /* What the reader promises                                         */
  /* ---------------------------------------------------------------- */

  /** The current sheet name is unset exactly until the first heading or `%%`
      paragraph, and once set it is one of the three sheet names; so is every
      sheet the form holds. */
  lemma {:induction false} SheetNameTracked(nodes: seq<Node>, source: string, n: nat)
    requires n <= |nodes| && ReadUpTo(nodes, source, n).Ok?
    ensures var st := ReadUpTo(nodes, source, n).value;
      && (st.name.None? <==> forall i :: 0 <= i < n ==> !Names(nodes[i]))
      && (st.name.Some? ==> st.name.value in SheetNames)
      && (forall name :: name in st.sheets ==> name in SheetNames)
  {
    if n > 0 {
      SheetNameTracked(nodes, source, n - 1);
      var st := ReadUpTo(nodes, source, n - 1).value;
      var node := nodes[n - 1];
      if Names(node) {
        StepNaming(st, node, source);
      } else if node.Paragraph? {
        StepComment(st, node.text, node.line, source);
      }
    }
  }

  /** A table before any heading or `%%` paragraph fails with "No sheet name
      specified", located at the table. */
  lemma {:induction false} TableWithoutName(nodes: seq<Node>, source: string, k: nat)
    requires k < |nodes| && nodes[k].Table?
    requires ReadUpTo(nodes, source, k).Ok?
    requires forall i :: 0 <= i < k ==> !Names(nodes[i])
    ensures MarkdownRead(nodes, source) == Err(NoSheetName(source, nodes[k].line))
  {
    SheetNameTracked(nodes, source, k);
    assert ReadUpTo(nodes, source, k + 1) == Err(NoSheetName(source, nodes[k].line));
    ReadErrSticks(nodes, source, k + 1, |nodes|);
  }

  /** A heading or `%%` paragraph naming anything but the three sheets fails
      with "Invalid sheet name", located at that block. */
  lemma {:induction false} NamingFails(nodes: seq<Node>, source: string, k: nat)
    requires k < |nodes| && Names(nodes[k])
    requires ReadUpTo(nodes, source, k).Ok?
    requires var name := if nodes[k].Heading? then nodes[k].text else Directive(nodes[k].text).value;
      name !in SheetNames
    ensures var name := if nodes[k].Heading? then nodes[k].text else Directive(nodes[k].text).value;
      MarkdownRead(nodes, source) == Err(InvalidSheetName(source, nodes[k].line, name))
  {
    StepNaming(ReadUpTo(nodes, source, k).value, nodes[k], source);
    ReadErrSticks(nodes, source, k + 1, |nodes|);
  }

  /** A valid heading names the sheet and starts a new, empty list that no
      sheet holds yet; the form is unchanged. */
  lemma {:induction false} HeadingResets(st: Reader, text: string, line: nat, source: string)
    requires Valid(st) && text in SheetNames
    ensures var r := Step(st, Heading(text, line), source);
      && r.Ok?
      && r.value.name == Some(text)
      && r.value.lists[r.value.current] == []
      && (forall name :: name in r.value.sheets ==> r.value.sheets[name] != r.value.current)
      && FormOf(r.value) == FormOf(st)
  {
    StepNaming(st, Heading(text, line), source);
    var st' := Step(st, Heading(text, line), source).value;
    assert FormOf(st').sheets == FormOf(st).sheets;
  }

  /** A valid `%%` paragraph only switches the name: `result` stays bound to
      the same list, and the form is unchanged. */
  lemma {:induction false} DirectiveSwitches(st: Reader, text: string, line: nat, source: string)
    requires Valid(st) && Directive(text).Some? && Directive(text).value in SheetNames
    ensures var r := Step(st, Paragraph(text, line), source);
      && r.Ok?
      && r.value.name == Directive(text)
      && r.value.current == st.current && r.value.lists == st.lists && r.value.sheets == st.sheets
      && FormOf(r.value) == FormOf(st)
  {
    StepNaming(st, Paragraph(text, line), source);
  }

  /** Any other paragraph appends the comment row `{"#": text}` to the list
      `result` is bound to, and so to every sheet stored with that list. */
  lemma {:induction false} CommentAppends(st: Reader, text: string, line: nat, source: string)
    requires Valid(st) && Directive(text).None?
    ensures var r := Step(st, Paragraph(text, line), source);
      && r.Ok?
      && r.value.name == st.name
      && r.value.lists[r.value.current] == st.lists[st.current] + [[Entry("#", text)]]
      && FormOf(r.value).order == st.order && FormOf(r.value).headers == st.headers
      && FormOf(r.value).sheets.Keys == FormOf(st).sheets.Keys
      && (forall name :: name in st.sheets ==>
            FormOf(r.value).sheets[name] == FormOf(st).sheets[name] +
              (if st.sheets[name] == st.current then [[Entry("#", text)]] else []))
  {
    StepComment(st, text, line, source);
  }

  /** A table, once a sheet is named, appends its rows after whatever the
      current list holds (the comment rows before it), stores that list under
      the sheet name with the table's headers, and adds the name to the form's
      order if it is new. A sheet stored earlier with the same list sees the
      rows as well. */
  lemma {:induction false} TableAppends(st: Reader, header: seq<string>, body: seq<seq<string>>, line: nat, source: string)
    requires Valid(st) && st.name.Some? && st.name.value in SheetNames && header != []
    ensures var r := Step(st, Table(header, Some(body), line), source);
      var name := st.name.value;
      var headers := TableHeaders(st.lists[st.current], header);
      var rows := TableRows(headers, body, AddsCommentColumn(st.lists[st.current], header));
      && r.Ok?
      && FormOf(r.value).sheets[name] == st.lists[st.current] + rows
      && FormOf(r.value).headers[name] == headers
      && FormOf(r.value).order == (if name in st.sheets then st.order else st.order + [name])
      && (forall other :: other in st.sheets && other != name ==>
            && other in FormOf(r.value).sheets
            && FormOf(r.value).sheets[other] == FormOf(st).sheets[other] +
                 (if st.sheets[other] == st.current then rows else [])
            && FormOf(r.value).headers[other] == st.headers[other])
  {
    StepTable(st, header, body, line, source);
    var headers := TableHeaders(st.lists[st.current], header);
    var rows := TableRows(headers, body, AddsCommentColumn(st.lists[st.current], header));
    StoreListForm(st, st.name.value, rows, headers);
  }

  lemma {:induction false} StoreListValid(st: Reader, name: string, rows: seq<Row>, headers: seq<string>)
    requires Valid(st)
    ensures Valid(StoreList(st, name, rows, headers))
  {
  }

  lemma {:induction false} StoreListForm(st: Reader, name: string, rows: seq<Row>, headers: seq<string>)
    requires Valid(st)
    ensures Valid(StoreList(st, name, rows, headers))
    ensures var st' := StoreList(st, name, rows, headers);
      && FormOf(st').sheets[name] == st.lists[st.current] + rows
      && FormOf(st').headers[name] == headers
      && FormOf(st').order == st'.order
      && (forall other :: other in st.sheets && other != name ==>
            && other in FormOf(st').sheets
            && FormOf(st').sheets[other] == FormOf(st).sheets[other] +
                 (if st.sheets[other] == st.current then rows else [])
            && FormOf(st').headers[other] == st.headers[other])
  {
    StoreListValid(st, name, rows, headers);
  }

  /** The comment column is synthesised only when the table's own first
      header is not `#`, and then the recorded headers begin with `#`. */
  lemma {:induction false} CommentColumnHeaders(result: seq<Row>, header: seq<string>)
    requires header != []
    ensures TableHeaders(result, header)[0] == "#" <==>
      header[0] == "#" || (result != [] && HasKey(result[0], "#"))
    ensures AddsCommentColumn(result, header) ==> TableHeaders(result, header)[1..] == header
  {
  }

  /** A `%%` paragraph right after a table keeps appending to the list that
      table was stored with: after the next table both sheet names hold the
      very same rows. */
  lemma {:induction false} DirectiveSharesList(st: Reader, previous: string, text: string, line: nat,
                            header: seq<string>, body: seq<seq<string>>, tableLine: nat, source: string)
    requires Valid(st) && previous in st.sheets && st.sheets[previous] == st.current
    requires Directive(text).Some? && Directive(text).value in SheetNames
    requires header != []
    ensures Step(st, Paragraph(text, line), source).Ok?
    ensures var s1 := Step(st, Paragraph(text, line), source).value;
      var s2 := Step(s1, Table(header, Some(body), tableLine), source);
      && s2.Ok?
      && previous in FormOf(s2.value).sheets && Directive(text).value in FormOf(s2.value).sheets
      && FormOf(s2.value).sheets[previous] == FormOf(s2.value).sheets[Directive(text).value]
  {
    DirectiveSwitches(st, text, line, source);
    var s1 := Step(st, Paragraph(text, line), source).value;
    TableAppends(s1, header, body, tableLine, source);
    var s2 := Step(s1, Table(header, Some(body), tableLine), source).value;
    var name := Directive(text).value;
    if previous != name {
      var rows := TableRows(TableHeaders(s1.lists[s1.current], header), body,
                            AddsCommentColumn(s1.lists[s1.current], header));
      assert FormOf(st).sheets[previous] == st.lists[st.current];
    }
  }

  /** A form read from Markdown holds only the three sheets, lists each once
      in its order, and has a header list for each. */
  lemma {:induction false} ReadFormShape(nodes: seq<Node>, source: string)
    requires MarkdownRead(nodes, source).Ok?
    ensures var f := MarkdownRead(nodes, source).value;
      && WellFormed(f)
      && f.headers.Keys == f.sheets.Keys
      && (forall name :: name in f.sheets ==> name in SheetNames)
  {
    SheetNameTracked(nodes, source, |nodes|);
  }

  /* ---------------------------------------------------------------- */
  /* The imperative reader                                            */
  /* ---------------------------------------------------------------- */

  /** A Python list of rows: one object that several names can share. */
  class RowList {
    var rows: seq<Row>

    constructor ()
      ensures rows == []
    {
      rows := [];
    }
  }

  /** The method's variables stand for the reader state `st`: `objs[i]` is
      the i-th list object, all of them distinct. */
  ghost predicate Tracks(st: Reader, objs: seq<RowList>, result: RowList, form: map<string, RowList>,
                         order: seq<string>, formHeaders: map<string, seq<string>>, sheetName: Option<string>)
  {
    && |objs| == |st.lists|
    && (forall i, j :: 0 <= i < j < |objs| ==> objs[i] != objs[j])
    && st.current < |objs| && result == objs[st.current]
    && form.Keys == st.sheets.Keys
    && (forall name :: name in form ==> st.sheets[name] < |objs| && form[name] == objs[st.sheets[name]])
    && order == st.order && formHeaders == st.headers && sheetName == st.name
  }

  /** The list objects hold the contents the reader state gives them. */
  ghost predicate Stored(st: Reader, objs: seq<RowList>)
    reads objs
  {
    |objs| == |st.lists| && forall i :: 0 <= i < |objs| ==> objs[i].rows == st.lists[i]
  }

  /** The form's sheets, read off the list objects, are the reader's. */
  lemma {:induction false} StoredSheets(st: Reader, objs: seq<RowList>, result: RowList, form: map<string, RowList>,
                     order: seq<string>, formHeaders: map<string, seq<string>>, sheetName: Option<string>)
    requires Valid(st)
    requires Tracks(st, objs, result, form, order, formHeaders, sheetName) && Stored(st, objs)
    ensures (map name | name in form :: form[name].rows) == FormOf(st).sheets
  {
  }

  lemma {:induction false} TracksHeading(st: Reader, objs: seq<RowList>, result: RowList, form: map<string, RowList>,
                      order: seq<string>, formHeaders: map<string, seq<string>>, sheetName: Option<string>,
                      text: string, list: RowList)
    requires Tracks(st, objs, result, form, order, formHeaders, sheetName)
    requires list !in objs
    ensures Tracks(st.(name := Some(text), lists := st.lists + [[]], current := |st.lists|),
                   objs + [list], list, form, order, formHeaders, Some(text))
  {
  }

  lemma {:induction false} TracksTable(st: Reader, objs: seq<RowList>, result: RowList, form: map<string, RowList>,
                    order: seq<string>, formHeaders: map<string, seq<string>>, name: string,
                    rows: seq<Row>, headers: seq<string>)
    requires Valid(st) && Tracks(st, objs, result, form, order, formHeaders, Some(name))
    ensures Tracks(StoreList(st, name, rows, headers),
                   objs, result, form[name := result], if name in form then order else order + [name],
                   formHeaders[name := headers], Some(name))
  {
  }

  lemma {:induction false} StepTable(st: Reader, header: seq<string>, body: seq<seq<string>>, line: nat, source: string)
    requires Valid(st) && st.name.Some? && st.name.value != "" && header != []
    ensures var result := st.lists[st.current];
      var add := AddsCommentColumn(result, header);
      var headers := TableHeaders(result, header);
      Step(st, Table(header, Some(body), line), source) ==
        Ok(StoreList(st, st.name.value, TableRows(headers, body, add), headers))
  {
  }

  /** A table with a body, once the sheet name is known: append the non-empty
      dictionaries of the body rows to `result` and give back the headers. */
  method ReadTable(result: RowList, header: seq<string>, body: seq<seq<string>>) returns (headers: seq<string>)
    requires header != []
    modifies result
    ensures headers == TableHeaders(old(result.rows), header)
    ensures result.rows == old(result.rows) +
      TableRows(headers, body, AddsCommentColumn(old(result.rows), header))
  {
    var add := header[0] != "#" && result.rows != [] && HasKey(result.rows[0], "#");
    headers := header;
    if add {
      headers := ["#"] + headers;
    }
    ghost var start := result.rows;
    for j := 0 to |body|
      invariant result.rows == start + TableRows(headers, body[..j], add)
    {
      var values := body[j];
      if add {
        values := [""] + values;
      }
      var d := RowToDict(TextKeys(headers), TextKeys(values));
      RowDictFails(TextKeys(headers), TextKeys(values));
      assert d.value == TextRow(headers, values);
      if d.value != [] {
        result.rows := result.rows + [d.value];
      }
      assert body[..j + 1][..j] == body[..j];
    }
    assert body[..|body|] == body;
  }

  /** One iteration of the loop in `read_markdown`: the reader's variables
      after the block, or the error the block raises. */
  method ReadStep(node: Node, source: string, ghost st: Reader, ghost objs: seq<RowList>, result: RowList,
                  form: map<string, RowList>, order: seq<string>, formHeaders: map<string, seq<string>>,
                  sheetName: Option<string>)
    returns (err: Option<Error>, ghost st': Reader, ghost objs': seq<RowList>, result': RowList,
             form': map<string, RowList>, order': seq<string>, formHeaders': map<string, seq<string>>,
             sheetName': Option<string>)
    requires Valid(st)
    requires Tracks(st, objs, result, form, order, formHeaders, sheetName) && Stored(st, objs)
    modifies result
    ensures err.Some? ==> Step(st, node, source) == Err(err.value)
    ensures err.None? ==> Step(st, node, source) == Ok(st')
    ensures err.None? ==> Tracks(st', objs', result', form', order', formHeaders', sheetName') && Stored(st', objs')
    ensures result' == result || fresh(result')
  {
    err, st', objs', result', form', order', formHeaders', sheetName' :=
      None, st, objs, result, form, order, formHeaders, sheetName;
    match node {
      case Heading(text, line) =>
        var check := ValidateSheetName(text, source, line);
        StepNaming(st, node, source);
        if check.Fail? {
          return Some(check.error), st, objs, result, form, order, formHeaders, Some(text);
        }
        result' := new RowList();
        TracksHeading(st, objs, result, form, order, formHeaders, sheetName, text, result');
        objs' := objs + [result'];
        sheetName' := Some(text);
        st' := Step(st, node, source).value;
      case Paragraph(text, line) =>
        var directive := Directive(text);
        if directive.Some? {
          var check := ValidateSheetName(directive.value, source, line);
          StepNaming(st, node, source);
          if check.Fail? {
            return Some(check.error), st, objs, result, form, order, formHeaders, directive;
          }
          sheetName' := directive;
        } else {
          StepComment(st, text, line, source);
          assert forall i :: 0 <= i < |objs| && i != st.current ==> objs[i] != result;
          result.rows := result.rows + [[Entry("#", text)]];
        }
        st' := Step(st, node, source).value;
      case Table(header, body, line) =>
        if sheetName.None? || sheetName.value == "" {
          return Some(NoSheetName(source, line)), st, objs, result, form, order, formHeaders, sheetName;
        }
        if body.None? {
          return Some(NotEnoughValues(2, 1)), st, objs, result, form, order, formHeaders, sheetName;
        }
        if header == [] {
          return Some(IndexError), st, objs, result, form, order, formHeaders, sheetName;
        }
        StepTable(st, header, body.value, line, source);
        assert forall i :: 0 <= i < |objs| && i != st.current ==> objs[i] != result;
        var headers := ReadTable(result, header, body.value);
        TracksTable(st, objs, result, form, order, formHeaders, sheetName.value,
                    TableRows(headers, body.value, AddsCommentColumn(st.lists[st.current], header)), headers);
        if sheetName.value !in form {
          order' := order + [sheetName.value];
        }
        form' := form[sheetName.value := result];
        formHeaders' := formHeaders[sheetName.value := headers];
        st' := Step(st, node, source).value;
      case Other =>
    }
  }

  /** The loop body of `read_markdown` at block `n`, in terms of the reader's
      state so far. */
  method ReadNode(nodes: seq<Node>, n: nat, source: string, ghost st: Reader, ghost objs: seq<RowList>,
                  result: RowList, form: map<string, RowList>, order: seq<string>,
                  formHeaders: map<string, seq<string>>, sheetName: Option<string>)
    returns (err: Option<Error>, ghost st': Reader, ghost objs': seq<RowList>, result': RowList,
             form': map<string, RowList>, order': seq<string>, formHeaders': map<string, seq<string>>,
             sheetName': Option<string>)
    requires n < |nodes| && ReadUpTo(nodes, source, n) == Ok(st)
    requires Tracks(st, objs, result, form, order, formHeaders, sheetName) && Stored(st, objs)
    modifies result
    ensures err.Some? ==> MarkdownRead(nodes, source) == Err(err.value)
    ensures err.None? ==> ReadUpTo(nodes, source, n + 1) == Ok(st')
    ensures err.None? ==> Tracks(st', objs', result', form', order', formHeaders', sheetName') && Stored(st', objs')
    ensures result' == result || fresh(result')
  {
    err, st', objs', result', form', order', formHeaders', sheetName' :=
      ReadStep(nodes[n], source, st, objs, result, form, order, formHeaders, sheetName);
    assert ReadUpTo(nodes, source, n + 1) == Step(st, nodes[n], source);
    if err.Some? {
      ReadErrSticks(nodes, source, n + 1, |nodes|);
    }
  }

  /** `read_markdown` over the parsed blocks. */
  method ReadMarkdown(nodes: seq<Node>, source: string) returns (r: Result<FormValue, Error>)
    ensures r == MarkdownRead(nodes, source)
  {
    var form: map<string, RowList> := map[];
    var order: seq<string> := [];
    var formHeaders: map<string, seq<string>> := map[];
    var sheetName: Option<string> := None;
    var result := new RowList();
    ghost var objs := [result];
    ghost var st := Start;
    for n := 0 to |nodes|
      invariant ReadUpTo(nodes, source, n) == Ok(st)
      invariant Tracks(st, objs, result, form, order, formHeaders, sheetName)
      invariant Stored(st, objs)
      invariant fresh(result)
    {
      var err;
      err, st, objs, result, form, order, formHeaders, sheetName :=
        ReadNode(nodes, n, source, st, objs, result, form, order, formHeaders, sheetName);
      if err.Some? {
        return Err(err.value);
      }
    }
    var sheets := map name | name in form :: form[name].rows;
    StoredSheets(st, objs, result, form, order, formHeaders, sheetName);
    return Ok(FormValue(order, sheets, formHeaders));
  }
}
