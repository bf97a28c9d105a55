/** The canonical form every converter reads into and writes from: the sheets
    by name, in the order the form dictionary holds them, and the `yxf.headers`
    side table with each sheet's ordered column list. */
module Forms {
  import opened Rows

  /** The only sheets an XLSForm may have, in the order the converters visit them. */
  const SheetNames: seq<string> := ["survey", "choices", "settings"]

  type Sheet = seq<Row>

  datatype FormValue = FormValue(
    order: seq<string>,                 // sheet keys of the form dictionary, in insertion order
    sheets: map<string, Sheet>,         // form[name]
    headers: map<string, seq<string>>)  // form["yxf"]["headers"]

  /** The sheet order lists each sheet exactly once. */
  ghost predicate WellFormed(f: FormValue)
  {
    && (forall i, j :: 0 <= i < j < |f.order| ==> f.order[i] != f.order[j])
    && (forall name :: name in f.sheets <==> name in f.order)
  }

  /** The form dictionary as an object that the in-place steps mutate. */
  class Form {
    var order: seq<string>
    var sheets: map<string, Sheet>
    var headers: map<string, seq<string>>

    function Value(): FormValue
      reads this
    {
      FormValue(order, sheets, headers)
    }

    constructor (v: FormValue)
      ensures Value() == v
    {
      order := v.order;
      sheets := v.sheets;
      headers := v.headers;
    }
  }
}
