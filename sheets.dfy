/** The spreadsheet helpers of SpreadsheetUtils: reading a sheet as header-keyed
    records, getting or inserting a sheet by name, and replacing a sheet's contents.
    A spreadsheet is a map from sheet name to its grid, plus the active sheet. */
module Sheets {
  import opened Text
  import opened Values

  /** value[i] in JavaScript: undefined past the end of the row. */
  function At(row: seq<Value>, i: nat): Value
  {
    if i < |row| then row[i] else Undefined
  }

  /** The object built for one data row: for each column i in order,
      row[String(headers[i])] = value[i]. */
  function RowRecord(headers: seq<Value>, row: seq<Value>): Record
  {
    if |headers| == 0 then map[]
    else RowRecord(headers[..|headers| - 1], row)[ToText(headers[|headers| - 1]) := At(row, |headers| - 1)]
  }

  /** getSheetAsJson over a data range: the first row is the header, and every
      other row becomes one record, in row order. */
  function SheetRecords(values: Grid): (records: seq<Record>)
    ensures |records| == if |values| == 0 then 0 else |values| - 1
    ensures forall k :: 0 <= k < |records| ==> records[k] == RowRecord(values[0], values[k + 1])
  {
    if |values| == 0 then []
    else seq(|values| - 1, k requires 0 <= k < |values| - 1 => RowRecord(values[0], values[k + 1]))
  }

  /** The texts of the headers, as a set. */
  ghost function HeaderTexts(headers: seq<Value>): set<string>
  {
    set i | 0 <= i < |headers| :: ToText(headers[i])
  }

  lemma HeaderTextsSnoc(headers: seq<Value>)
    requires |headers| > 0
    ensures HeaderTexts(headers)
         == HeaderTexts(headers[..|headers| - 1]) + {ToText(headers[|headers| - 1])}
  {
    var last := |headers| - 1;
    var init := headers[..last];
    forall x | x in HeaderTexts(headers) ensures x in HeaderTexts(init) + {ToText(headers[last])} {
      var i :| 0 <= i < |headers| && x == ToText(headers[i]);
      if i < last {
        assert init[i] == headers[i];
      }
    }
    forall x | x in HeaderTexts(init) ensures x in HeaderTexts(headers) {
      var i :| 0 <= i < last && x == ToText(init[i]);
      assert init[i] == headers[i];
    }
  }

  /** A record has exactly one key per distinct header text. */
  lemma {:induction false} RowRecordKeys(headers: seq<Value>, row: seq<Value>)
    ensures RowRecord(headers, row).Keys == set i | 0 <= i < |headers| :: ToText(headers[i])
  {
    assert HeaderTexts(headers) == set i | 0 <= i < |headers| :: ToText(headers[i]);
    if |headers| > 0 {
      var init := headers[..|headers| - 1];
      RowRecordKeys(init, row);
      assert HeaderTexts(init) == set i | 0 <= i < |init| :: ToText(init[i]);
      HeaderTextsSnoc(headers);
    }
  }

  /** Column i's value is what the record holds under its header text, unless a
      later column has the same header text: then the later column wins. */
  lemma {:induction false} RowRecordLastWins(headers: seq<Value>, row: seq<Value>, i: nat)
    requires i < |headers|
    requires forall j :: i < j < |headers| ==> ToText(headers[j]) != ToText(headers[i])
    ensures ToText(headers[i]) in RowRecord(headers, row)
    ensures RowRecord(headers, row)[ToText(headers[i])] == At(row, i)
  {
    var last := |headers| - 1;
    if i < last {
      var init := headers[..last];
      assert init[i] == headers[i];
      RowRecordLastWins(init, row, i);
    }
  }

  /** The texts of a header row are pairwise distinct. */
  predicate DistinctHeaders(headers: seq<Value>)
  {
    forall i, j :: 0 <= i < j < |headers| ==> ToText(headers[i]) != ToText(headers[j])
  }

  /** Reading back a sheet written as [headers] + rows, with distinct header texts
      and every row as wide as the header, gives one record per row that maps each
      header text to that row's value in the same column. */
  lemma WriteReadRoundTrip(headers: seq<Value>, rows: Grid)
    requires DistinctHeaders(headers)
    requires forall k :: 0 <= k < |rows| ==> |rows[k]| == |headers|
    ensures |SheetRecords([headers] + rows)| == |rows|
    ensures forall k, i :: 0 <= k < |rows| && 0 <= i < |headers| ==>
      ToText(headers[i]) in SheetRecords([headers] + rows)[k] &&
      SheetRecords([headers] + rows)[k][ToText(headers[i])] == rows[k][i]
  {
    var values := [headers] + rows;
    forall k, i | 0 <= k < |rows| && 0 <= i < |headers|
      ensures ToText(headers[i]) in SheetRecords(values)[k]
      ensures SheetRecords(values)[k][ToText(headers[i])] == rows[k][i]
    {
      assert values[k + 1] == rows[k];
      RowRecordLastWins(headers, rows[k], i);
    }
  }

  /** The table setValues accepts: at least one row and one column, every row as
      wide as the first. */
  predicate Rectangular(data: Grid)
  {
    |data| > 0 && |data[0]| > 0 && forall k :: 0 <= k < |data| ==> |data[k]| == |data[0]|
  }

  /** How writing `data` over a cleared sheet ends: data[0] of an empty table is
      undefined, and a range of zero columns or a ragged table is refused. */
  function WriteOutcome(data: Grid): (r: Result<(), Error>)
    ensures r.Success? <==> Rectangular(data)
  {
    if |data| == 0 then Failure(EmptyData)
    else if !Rectangular(data) then Failure(BadDimensions)
    else Success(())
  }

  /** The sheet's contents after it was cleared and `data` was written at A1. */
  function Written(data: Grid): (g: Grid)
    ensures g == data || g == []
    ensures Rectangular(data) ==> g == data
    ensures !Rectangular(data) ==> g == []
  {
    if WriteOutcome(data).Success? then data else []
  }

  /** The sheets after getOrInsertSheet(name): an existing sheet is kept as it is,
      a missing one is added empty, and no other sheet changes. */
  function WithSheet(sheets: map<string, Grid>, name: string): (r: map<string, Grid>)
    ensures name in r && r.Keys == sheets.Keys + {name}
    ensures forall n :: n in sheets ==> r[n] == sheets[n]
    ensures name !in sheets ==> r[name] == []
  {
    if name in sheets then sheets else sheets[name := []]
  }

  /** getOrInsertSheet twice is getOrInsertSheet once. */
  lemma WithSheetIdempotent(sheets: map<string, Grid>, name: string)
    ensures WithSheet(WithSheet(sheets, name), name) == WithSheet(sheets, name)
  {
  }

  /** Overwriting the sheet that getOrInsertSheet ensured is overwriting it in the
      original sheets: the insertion leaves no trace once the sheet is written. */
  lemma WithSheetOverwrite(sheets: map<string, Grid>, name: string, g: Grid)
    ensures WithSheet(sheets, name)[name := g] == sheets[name := g]
  {
  }

  class Spreadsheet {
    var sheets: map<string, Grid>
    var active: string

    ghost predicate Valid()
      reads this
    {
      active in sheets
    }

    constructor (initial: map<string, Grid>, activeName: string)
      requires activeName in initial
      ensures Valid() && sheets == initial && active == activeName
    {
      sheets := initial;
      active := activeName;
    }

    /** getSheetAsJson(name): a missing sheet fails (the source dereferences null). */
    method GetSheetAsJson(name: string) returns (r: Result<seq<Record>, Error>)
      ensures r == if name in sheets then Success(SheetRecords(sheets[name])) else Failure(SheetNotFound(name))
    {
      if name !in sheets {
        return Failure(SheetNotFound(name));
      }
      var values := sheets[name];
      if |values| == 0 {
        return Success([]);
      }
      var headers := values[0];
      var json: seq<Record> := [];
      var k := 1;
      while k < |values|
        invariant 1 <= k <= |values|
        invariant |json| == k - 1
        invariant forall j :: 0 <= j < k - 1 ==> json[j] == RowRecord(headers, values[j + 1])
      {
        var row: Record := map[];
        var i := 0;
        while i < |headers|
          invariant 0 <= i <= |headers|
          invariant row == RowRecord(headers[..i], values[k])
        {
          assert headers[..i + 1][..i] == headers[..i];
          row := row[ToText(headers[i]) := At(values[k], i)];
          i := i + 1;
        }
        assert headers[..|headers|] == headers;
        json := json + [row];
        k := k + 1;
      }
      assert json == SheetRecords(values);
      return Success(json);
    }

    /** getOrInsertSheet(name, index); the tab position `index` is not modelled.
        Inserting a sheet makes it the active sheet, as Apps Script's insertSheet
        does; an existing sheet is returned and the active sheet stays. */
    method GetOrInsertSheet(name: string)
      modifies this
      ensures sheets == WithSheet(old(sheets), name)
      ensures active == if name in old(sheets) then old(active) else name
      ensures old(Valid()) ==> Valid()
    {
      if name !in sheets {
        sheets := sheets[name := []];
        active := name;
      }
    }

    /** Clears the sheet's data range, then writes `data` at A1 with the
        dimensions of `data`; a refused write leaves the sheet cleared. */
    method ClearAndWrite(name: string, data: Grid) returns (r: Result<(), Error>)
      requires name in sheets
      modifies this
      ensures sheets == old(sheets)[name := Written(data)]
      ensures active == old(active)
      ensures r == WriteOutcome(data)
    {
      sheets := sheets[name := []];
      if |data| == 0 {
        return Failure(EmptyData);
      }
      var columns := |data[0]|;
      if columns == 0 || exists k :: 0 <= k < |data| && |data[k]| != columns {
        return Failure(BadDimensions);
      }
      sheets := sheets[name := data];
      return Success(());
    }

    /** writeToSheet(sheetName, data) of SpreadsheetUtils; a sheet it has to
        insert becomes the active sheet. */
    method WriteToSheet(name: string, data: Grid) returns (r: Result<(), Error>)
      modifies this
      ensures sheets == WithSheet(old(sheets), name)[name := Written(data)]
      ensures active == if name in old(sheets) then old(active) else name
      ensures old(Valid()) ==> Valid()
      ensures r == WriteOutcome(data)
    {
      GetOrInsertSheet(name);
      r := ClearAndWrite(name, data);
    }

    /** writeToSheet(report) of the Toggl commands: the same overwrite, on the active sheet. */
    method WriteToActiveSheet(report: Grid) returns (r: Result<(), Error>)
      requires Valid()
      modifies this
      ensures Valid()
      ensures sheets == old(sheets)[active := Written(report)]
      ensures active == old(active)
      ensures r == WriteOutcome(report)
    {
      r := ClearAndWrite(active, report);
    }
  }

  /** A non-empty header over rows as wide as it is a table setValues accepts. */
  lemma HeaderOverRows(headers: seq<Value>, rows: Grid)
    requires |headers| > 0
    requires forall k :: 0 <= k < |rows| ==> |rows[k]| == |headers|
    ensures Rectangular([headers] + rows)
  {
    var data := [headers] + rows;
    forall k | 0 <= k < |data| ensures |data[k]| == |data[0]| {
      if k > 0 { assert data[k] == rows[k - 1]; }
    }
  }

  /** What a caller of the class can rely on: after a successful write of
      [headers] + rows, reading the sheet back yields each row as a record keyed by
      the header texts. */
  method WriteThenRead(ss: Spreadsheet, name: string, headers: seq<Value>, rows: Grid)
    returns (records: Result<seq<Record>, Error>)
    requires DistinctHeaders(headers) && |headers| > 0
    requires forall k :: 0 <= k < |rows| ==> |rows[k]| == |headers|
    modifies ss
    ensures records.Success? && |records.value| == |rows|
    ensures forall k, i :: 0 <= k < |rows| && 0 <= i < |headers| ==>
      ToText(headers[i]) in records.value[k] && records.value[k][ToText(headers[i])] == rows[k][i]
  {
    var data := [headers] + rows;
    HeaderOverRows(headers, rows);
    WriteReadRoundTrip(headers, rows);
    var w := ss.WriteToSheet(name, data);
    assert ss.sheets[name] == data;
    records := ss.GetSheetAsJson(name);
    assert records == Success(SheetRecords(data));
  }
}
