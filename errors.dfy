/** The exceptions the converters raise, with the messages they carry. */
module Errors {
  import opened Strings

  datatype Error =
    | MissingHeader(value: string)                          // excel.py:43-44
    | InvalidSheetName(source: string, line: nat, name: string)  // excel.py:133-136
    | InvalidKey(key: string, rowName: string, sheet: string)     // excel.py:98-103
    | CommentColumnNotFirst(sheet: string)                  // excel.py:180-184
    | MissingSurveySheet                                    // excel.py:186-187
    | NoSheetName(source: string, line: nat)                // markdown.py:56-59
    | KeyError(key: string)                                 // a missing dictionary key
    | IndexError                                            // indexing an empty list
    | StopIteration                                         // `next()` on an empty sheet
    | AttributeError(name: string)                          // a missing module attribute
    | NotEnoughValues(expected: nat, got: nat)              // unpacking a too-short sequence

  /** The text of the exception, as the f-strings in the source spell it. */
  function Message(e: Error): string
  {
    match e
    case MissingHeader(v) => "Cell with no column header: " + v
    case InvalidSheetName(src, line, name) =>
      Location(src, line) + " Invalid sheet name (must be survey, choices, or settings): " + name
    case InvalidKey(key, row, sheet) =>
      "Invalid key \"" + key + "\" in row \"" + row + "\". Add it to yxf.headers." + sheet + " in the YAML file."
    case CommentColumnNotFirst(sheet) => "The comment column must come first in sheet " + sheet + "."
    case MissingSurveySheet => "An XLSForm must have a \"survey\" sheet."
    case NoSheetName(src, line) => Location(src, line) + " No sheet name specified for table."
    case KeyError(k) => k
    case IndexError => "list index out of range"
    case StopIteration => ""
    case AttributeError(name) => "module has no attribute '" + name + "'"
    case NotEnoughValues(expected, got) =>
      "not enough values to unpack (expected " + NatToString(expected) + ", got " + NatToString(got) + ")"
  }

  /** The `source:line:` prefix of the located messages. */
  function Location(source: string, line: nat): string
  {
    source + ":" + NatToString(line) + ":"
  }
}
