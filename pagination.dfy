/** fetchAllReport: the cursor loop over the Toggl detailed-report search. The
    report server is abstract: for each first_row_number it either answers with a
    page of grouped entries and the next row number from its x-next-row-number
    header, or the request fails. */
module Pagination {
  import opened Values
  import opened Report

  /** One response: the entries and Number(x-next-row-number); None stands for NaN
      (the header was absent or not a number). */
  datatype Page = Page(entries: seq<GroupedEntry>, nextRow: Option<int>)

  /** The loop's condition: !isNaN(firstRowNumber) && firstRowNumber > 0. */
  predicate Continues(cursor: Option<int>)
  {
    cursor.Some? && cursor.value > 0
  }

  /** The report server for one workspace and period, with the log of the row
      numbers requested from it. */
  class ReportServer {
    const pages: map<int, Page>
    var requested: seq<int>

    constructor (served: map<int, Page>)
      ensures pages == served && requested == []
    {
      pages := served;
      requested := [];
    }

    /** fetchReport(workplaceId, since, until, firstRowNumber): one request. */
    method FetchReport(firstRow: int) returns (r: Result<Page, Error>)
      modifies this
      ensures requested == old(requested) + [firstRow]
      ensures r == if firstRow in pages then Success(pages[firstRow]) else Failure(TransportError(firstRow))
    {
      requested := requested + [firstRow];
      if firstRow in pages {
        return Success(pages[firstRow]);
      }
      return Failure(TransportError(firstRow));
    }
  }

  /** Prefixes already gathered entries to the outcome of the remaining requests. */
  function Prepend(done: seq<GroupedEntry>, rest: Result<seq<GroupedEntry>, Error>): Result<seq<GroupedEntry>, Error>
  {
    match rest
    case Success(entries) => Success(done + entries)
    case Failure(e) => Failure(e)
  }

  /** Loop-proof helper for FetchAllReport: prefixing nothing changes nothing. */
  lemma PrependNothing(rest: Result<seq<GroupedEntry>, Error>)
    ensures Prepend([], rest) == rest
  {
    if rest.Success? {
      assert [] + rest.value == rest.value;
    }
  }

  /** Loop-proof helper for FetchAllReport: two prefixes are one concatenated prefix. */
  lemma PrependTwice(a: seq<GroupedEntry>, b: seq<GroupedEntry>, rest: Result<seq<GroupedEntry>, Error>)
    ensures Prepend(a, Prepend(b, rest)) == Prepend(a + b, rest)
  {
    if rest.Success? {
      assert a + (b + rest.value) == (a + b) + rest.value;
    }
  }

  /** The entries gathered from `cursor` on, with at most `fuel` more requests: the
      pages in request order, each request using the previous page's next row
      number; a failed request fails the whole fetch. */
  function FetchFrom(pages: map<int, Page>, cursor: Option<int>, fuel: nat): Result<seq<GroupedEntry>, Error>
    decreases fuel
  {
    if !Continues(cursor) then Success([])
    else if fuel == 0 then Failure(PageBudgetExhausted)
    else if cursor.value !in pages then Failure(TransportError(cursor.value))
    else Prepend(pages[cursor.value].entries, FetchFrom(pages, pages[cursor.value].nextRow, fuel - 1))
  }

  /** The row numbers requested from `cursor` on, in order. */
  function RequestTrace(pages: map<int, Page>, cursor: Option<int>, fuel: nat): seq<int>
    decreases fuel
  {
    if !Continues(cursor) || fuel == 0 then []
    else if cursor.value !in pages then [cursor.value]
    else [cursor.value] + RequestTrace(pages, pages[cursor.value].nextRow, fuel - 1)
  }

  /** fetchAllReport: starts at row 1 and keeps requesting while the cursor is a
      number above 0, concatenating the pages in request order. `fuel` bounds the
      number of requests, which the source leaves to the server. */
  method FetchAllReport(server: ReportServer, fuel: nat) returns (r: Result<seq<GroupedEntry>, Error>)
    modifies server
    ensures r == FetchFrom(server.pages, Some(1), fuel)
    ensures server.requested == old(server.requested) + RequestTrace(server.pages, Some(1), fuel)
  {
    var cursor: Option<int> := Some(1);
    var report: seq<GroupedEntry> := [];
    var left := fuel;
    PrependNothing(FetchFrom(server.pages, cursor, left));
    while Continues(cursor)
      invariant FetchFrom(server.pages, Some(1), fuel) == Prepend(report, FetchFrom(server.pages, cursor, left))
      invariant old(server.requested) + RequestTrace(server.pages, Some(1), fuel)
             == server.requested + RequestTrace(server.pages, cursor, left)
      decreases left
    {
      if left == 0 {
        return Failure(PageBudgetExhausted);
      }
      var response := server.FetchReport(cursor.value);
      if response.Failure? {
        return Failure(response.error);
      }
      var page := response.value;
      assert FetchFrom(server.pages, cursor, left) == Prepend(page.entries, FetchFrom(server.pages, page.nextRow, left - 1));
      PrependTwice(report, page.entries, FetchFrom(server.pages, page.nextRow, left - 1));
      report := report + page.entries;
      cursor := page.nextRow;
      left := left - 1;
    }
    assert report + [] == report;
    return Success(report);
  }

  /** The requests start at row 1, each later request uses the row number the
      previous page announced, and every requested row number is above 0. */
  lemma {:induction false} RequestTraceChain(pages: map<int, Page>, cursor: Option<int>, fuel: nat)
    ensures var t := RequestTrace(pages, cursor, fuel);
      (|t| > 0 ==> Continues(cursor) && t[0] == cursor.value)
      && (forall k :: 0 <= k < |t| ==> t[k] > 0)
      && (forall k :: 0 <= k < |t| - 1 ==> t[k] in pages && pages[t[k]].nextRow == Some(t[k + 1]))
    decreases fuel
  {
    if Continues(cursor) && fuel > 0 && cursor.value in pages {
      RequestTraceChain(pages, pages[cursor.value].nextRow, fuel - 1);
    }
  }

  /** The entries of the pages at the given row numbers, concatenated in order. */
  function Entries(pages: map<int, Page>, trace: seq<int>): seq<GroupedEntry>
    requires forall k :: 0 <= k < |trace| ==> trace[k] in pages
  {
    if |trace| == 0 then [] else pages[trace[0]].entries + Entries(pages, trace[1..])
  }

  /** What a fetch returns is read off its requests: on success every requested
      row number had a page, and the entries are those pages' entries in request
      order, and the fetch stopped only because the starting cursor or the last
      page's next row number is not a number above 0; a transport failure is the
      last request, the one without a page. */
  lemma {:induction false} FetchFromTrace(pages: map<int, Page>, cursor: Option<int>, fuel: nat)
    ensures var t := RequestTrace(pages, cursor, fuel);
      var r := FetchFrom(pages, cursor, fuel);
      r.Success? ==> (forall k :: 0 <= k < |t| ==> t[k] in pages) && r.value == Entries(pages, t)
    ensures var t := RequestTrace(pages, cursor, fuel);
      var r := FetchFrom(pages, cursor, fuel);
      r.Failure? && r.error.TransportError? ==> |t| > 0 && t[|t| - 1] == r.error.row && r.error.row !in pages
    ensures var t := RequestTrace(pages, cursor, fuel);
      var r := FetchFrom(pages, cursor, fuel);
      r.Success? ==>
        ((|t| == 0 && !Continues(cursor))
         || (|t| > 0 && t[|t| - 1] in pages && !Continues(pages[t[|t| - 1]].nextRow)))
    decreases fuel
  {
    if Continues(cursor) && fuel > 0 && cursor.value in pages {
      var next := pages[cursor.value].nextRow;
      FetchFromTrace(pages, next, fuel - 1);
      var t := RequestTrace(pages, cursor, fuel);
      var rest := RequestTrace(pages, next, fuel - 1);
      assert t == [cursor.value] + rest;
      assert t[1..] == rest;
      if FetchFrom(pages, cursor, fuel).Success? {
        assert forall k :: 0 < k < |t| ==> t[k] == rest[k - 1];
      }
    }
  }

  /** The server's next-row numbers strictly increase (the upstream cursor moves forward). */
  ghost predicate MovesForward(pages: map<int, Page>)
  {
    forall c :: c in pages && Continues(pages[c].nextRow) ==> pages[c].nextRow.value > c
  }

  function Ahead(pages: map<int, Page>, c: int): set<int>
  {
    set k | k in pages && k >= c
  }

  /** With a forward-moving cursor the loop stops within one request per served
      page plus one, so that budget never runs out. */
  lemma {:induction false} ForwardCursorTerminates(pages: map<int, Page>, cursor: Option<int>, fuel: nat)
    requires MovesForward(pages)
    requires Continues(cursor) ==> fuel > |Ahead(pages, cursor.value)|
    ensures FetchFrom(pages, cursor, fuel) != Failure(PageBudgetExhausted)
    decreases fuel
  {
    if Continues(cursor) && cursor.value in pages {
      var c := cursor.value;
      var next := pages[c].nextRow;
      if Continues(next) {
        assert Ahead(pages, next.value) < Ahead(pages, c) by {
          assert c in Ahead(pages, c) && c !in Ahead(pages, next.value);
        }
        SubsetSmaller(Ahead(pages, next.value), Ahead(pages, c));
      }
      ForwardCursorTerminates(pages, next, fuel - 1);
    }
  }

  lemma SubsetSmaller(a: set<int>, b: set<int>)
    requires a < b
    ensures |a| < |b|
  {
    SubsetAtMost(a, b);
    assert b == a + (b - a) && a * (b - a) == {};
  }

  /** In particular fetching from row 1 with |pages| + 1 requests never runs out. */
  lemma ForwardFetchNeverExhausts(pages: map<int, Page>)
    requires MovesForward(pages)
    ensures FetchFrom(pages, Some(1), |pages| + 1) != Failure(PageBudgetExhausted)
  {
    assert Ahead(pages, 1) <= pages.Keys;
    SubsetAtMost(Ahead(pages, 1), pages.Keys);
    ForwardCursorTerminates(pages, Some(1), |pages| + 1);
  }

  lemma SubsetAtMost(a: set<int>, b: set<int>)
    requires a <= b
    ensures |a| <= |b|
  {
    assert b == a + (b - a) && a * (b - a) == {};
  }

  /** More budget does not change an outcome that did not run out of budget. */
  lemma {:induction false} FuelMonotone(pages: map<int, Page>, cursor: Option<int>, fuel: nat, more: nat)
    requires fuel <= more
    requires FetchFrom(pages, cursor, fuel) != Failure(PageBudgetExhausted)
    ensures FetchFrom(pages, cursor, more) == FetchFrom(pages, cursor, fuel)
    decreases fuel
  {
    if Continues(cursor) && cursor.value in pages {
      var next := pages[cursor.value].nextRow;
      if FetchFrom(pages, next, fuel - 1) != Failure(PageBudgetExhausted) {
        FuelMonotone(pages, next, fuel - 1, more - 1);
      }
    }
  }
}
