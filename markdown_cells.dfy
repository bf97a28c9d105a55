/** The text of one table cell in the Markdown writer: newlines folded into
    spaces, then the backslash and the pipe escaped, so that a cell never ends
    early at a pipe of its own (the pipe escape of section 4.10 of the GitHub
    Flavored Markdown spec, tables extension). */
module MarkdownCells {
  import opened Strings

  /** `v.replace("\n", " ")`: every newline becomes a space. */
  function Fold(v: string): (r: string)
    ensures |r| == |v|
    ensures forall i :: 0 <= i < |v| ==> r[i] == if v[i] == '\n' then ' ' else v[i]
  {
    if v == [] then []
    else
      ReplaceCharConcat([v[0]], v[1..], '\n', " ");
      assert v == [v[0]] + v[1..];
      (if v[0] == '\n' then " " else [v[0]]) + Fold(v[1..])
  }

  /** Folding leaves no newline and keeps a line of text as it is. */
  lemma {:induction false} FoldLine(v: string)
    ensures '\n' !in Fold(v)
    ensures '\n' !in v ==> Fold(v) == v
  {
    assert forall i :: 0 <= i < |Fold(v)| ==> Fold(v)[i] != '\n';
  }

  /** `v.replace("\\", "\\\\").replace("|", "\\|")`: two passes over the text,
      backslashes first. */
  function Escape(v: string): string
  {
    ReplaceChar(ReplaceChar(v, '\\', "\\\\"), '|', "\\|")
  }

  /** One character as it stands after escaping. */
  function EscapeChar(c: char): string
  {
    if c == '\\' then "\\\\" else if c == '|' then "\\|" else [c]
  }

  /** The escaping as one pass, character by character. */
  function EscapeEach(v: string): string
  {
    if v == [] then [] else EscapeChar(v[0]) + EscapeEach(v[1..])
  }

  /** The two replacements together escape each character on its own. */
  lemma {:induction false} EscapeIsEach(v: string)
    ensures Escape(v) == EscapeEach(v)
  {
    if v != [] {
      var c := v[0];
      assert v == [c] + v[1..];
      ReplaceCharConcat([c], v[1..], '\\', "\\\\");
      var first := if c == '\\' then "\\\\" else [c];
      assert ReplaceChar([c], '\\', "\\\\") == first;
      ReplaceCharConcat(first, ReplaceChar(v[1..], '\\', "\\\\"), '|', "\\|");
      assert ReplaceChar(first, '|', "\\|") == EscapeChar(c);
      EscapeIsEach(v[1..]);
    }
  }

  /** Undoing the escape: a backslash takes the next character literally. */
  function Unescape(t: string): string
  {
    if t == [] then []
    else if t[0] == '\\' && |t| >= 2 then [t[1]] + Unescape(t[2..])
    else [t[0]] + Unescape(t[1..])
  }

  lemma {:induction false} UnescapeEach(v: string)
    ensures Unescape(EscapeEach(v)) == v
  {
    if v != [] {
      var e := EscapeEach(v);
      assert e == EscapeChar(v[0]) + EscapeEach(v[1..]);
      if v[0] == '\\' || v[0] == '|' {
        assert e[2..] == EscapeEach(v[1..]);
      } else {
        assert e[1..] == EscapeEach(v[1..]);
      }
      UnescapeEach(v[1..]);
    }
  }

  /** Unescaping gives back the cell text. */
  lemma {:induction false} UnescapeEscape(v: string)
    ensures Unescape(Escape(v)) == v
  {
    EscapeIsEach(v);
    UnescapeEach(v);
  }

  /** Different cell texts never escape to the same text. */
  lemma {:induction false} EscapeInjective(v: string, w: string)
    requires Escape(v) == Escape(w)
    ensures v == w
  {
    UnescapeEscape(v);
    UnescapeEscape(w);
  }

  /** Read left to right, the text splits into escape pairs (a backslash and
      the backslash or pipe it escapes) and characters that are neither: no
      pipe stands unescaped, and no backslash escapes anything else. */
  predicate PipesEscaped(t: string)
  {
    if t == [] then true
    else if t[0] == '\\' then |t| >= 2 && (t[1] == '\\' || t[1] == '|') && PipesEscaped(t[2..])
    else t[0] != '|' && PipesEscaped(t[1..])
  }

  lemma {:induction false} EachPipesEscaped(v: string)
    ensures PipesEscaped(EscapeEach(v))
  {
    if v != [] {
      var e := EscapeEach(v);
      EachPipesEscaped(v[1..]);
      if v[0] == '\\' || v[0] == '|' {
        assert e[2..] == EscapeEach(v[1..]);
      } else {
        assert e[1..] == EscapeEach(v[1..]);
      }
    }
  }

  /** No escaped cell holds an unescaped pipe. */
  lemma {:induction false} EscapePipesEscaped(v: string)
    ensures PipesEscaped(Escape(v))
  {
    EscapeIsEach(v);
    EachPipesEscaped(v);
  }

  lemma {:induction false} EscapeEachConcat(a: string, b: string)
    ensures EscapeEach(a + b) == EscapeEach(a) + EscapeEach(b)
  {
    if a == [] {
      assert a + b == b;
    } else {
      assert (a + b)[1..] == a[1..] + b;
      EscapeEachConcat(a[1..], b);
    }
  }

  /** Text without backslash or pipe is its own escape. */
  lemma {:induction false} EscapeEachPlain(v: string)
    requires '\\' !in v && '|' !in v
    ensures EscapeEach(v) == v
  {
    if v != [] {
      assert v == [v[0]] + v[1..];
      EscapeEachPlain(v[1..]);
    }
  }

  /** A pipe in the text becomes `\|`, and a backslash `\\`. */
  lemma {:induction false} EscapeExamples()
    ensures Escape("A | B") == "A \\| B"
    ensures Escape("A \\ B") == "A \\\\ B"
  {
    var a, b := "A ", " B";
    EscapeEachPlain(a);
    EscapeEachPlain(b);
    EscapeEachConcat(a, "|" + b);
    EscapeEachConcat("|", b);
    EscapeEachConcat(a, "\\" + b);
    EscapeEachConcat("\\", b);
    assert "A | B" == a + ("|" + b);
    assert "A \\ B" == a + ("\\" + b);
    assert EscapeEach("|") == "\\|";
    assert EscapeEach("\\") == "\\\\";
    assert a + ("\\|" + b) == "A \\| B";
    assert a + ("\\\\" + b) == "A \\\\ B";
    EscapeIsEach("A | B");
    EscapeIsEach("A \\ B");
  }

  /** The text of a cell as the writer stores it back in the row: folded,
      then escaped. */
  function CellText(v: string): string
  {
    Escape(Fold(v))
  }

  /** Escaping adds no line break. */
  lemma {:induction false} EachOneLine(v: string)
    requires '\n' !in v
    ensures '\n' !in EscapeEach(v)
  {
    if v != [] {
      EachOneLine(v[1..]);
    }
  }

  /** A cell's text is a single line with its pipes escaped. */
  lemma {:induction false} CellTextOneLine(v: string)
    ensures '\n' !in CellText(v)
    ensures PipesEscaped(CellText(v))
  {
    FoldLine(v);
    EscapeIsEach(Fold(v));
    EachOneLine(Fold(v));
    EscapePipesEscaped(Fold(v));
  }
}
