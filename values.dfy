/** The JavaScript values that flow between the Toggl reports, the sheets and the
    freee payloads, with the two coercions the code relies on: String(v) (also how a
    value becomes an object key) and the loose comparison `v == ''`. */
module Values {
  import opened Text

  datatype Option<+T> = None | Some(value: T)

  datatype Result<+T, +E> = Success(value: T) | Failure(error: E)

  /** A sheet cell, a record field or a JSON value handled by the core. JavaScript
      numbers appear only as integral ids, row numbers and minutes here. */
  datatype Value =
    | Undefined                 // a missing property, or an index past the end of a row
    | Null
    | Num(n: int)
    | Str(s: string)
    | Bool(b: bool)
    | IntList(ids: seq<int>)    // an array of ids placed in a cell (the unjoined tag_ids)

  /** A sheet's data range, row by row. */
  type Grid = seq<seq<Value>>

  /** One row of a sheet read as an object keyed by the header texts. */
  type Record = map<string, Value>

  /** The errors the core raises; each ends the operation that raised it. */
  datatype Error =
    | TransportError(row: int)      // the report request for this first row number failed
    | PageBudgetExhausted           // the model's bound on report pages was reached
    | NoTimeEntries(entry: nat)     // grouped entry `entry` has no time_entries[0]
    | SheetNotFound(name: string)   // getSheetByName returned null
    | EmptyData                     // data[0] of an empty table is undefined
    | BadDimensions                 // setValues refused a table that is not a full rectangle
    | InvalidDate(entry: nat)       // formatDate threw on the date cell of sheet record `entry`
    | WorkloadRejected(entry: nat)  // freee refused the workload built from sheet record `entry`

  /** Some member of a non-empty set. */
  lemma Pick<T>(s: set<T>) returns (m: T)
    requires s != {}
    ensures m in s
  {
    if forall x :: x !in s {
      assert false;
    }
    m :| m in s;
  }

  /** row[key] of a record: undefined when the header is absent. */
  function Field(r: Record, key: string): Value
  {
    if key in r then r[key] else Undefined
  }

  function IdTexts(ids: seq<int>): seq<string>
  {
    seq(|ids|, i requires 0 <= i < |ids| => IntToString(ids[i]))
  }

  /** String(v); a value used as an object key is converted the same way. */
  function ToText(v: Value): string
  {
    match v
    case Undefined => "undefined"
    case Null => "null"
    case Num(n) => IntToString(n)
    case Str(s) => s
    case Bool(b) => if b then "true" else "false"
    case IntList(ids) => Join(IdTexts(ids), ',')
  }

  /** `v == null` under loose equality: null and undefined only. */
  predicate LooselyNull(v: Value)
  {
    v.Undefined? || v.Null?
  }

  /** `v == ''` under loose equality: a number or boolean is compared as a number
      (Number('') is 0), an array through its text, a string directly. */
  predicate LooselyEmpty(v: Value)
  {
    match v
    case Undefined => false
    case Null => false
    case Num(n) => n == 0
    case Str(s) => s == ""
    case Bool(b) => !b
    case IntList(_) => ToText(v) == ""
  }

  /** An array is loosely equal to '' exactly when it is empty, since no id's text is empty. */
  lemma LooselyEmptyList(ids: seq<int>)
    ensures LooselyEmpty(IntList(ids)) <==> ids == []
  {
    if |ids| > 0 {
      assert |IdTexts(ids)[0]| > 0;
    }
  }
}
