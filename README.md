# toggl-to-freee-workload, modelled in Dafny

The project models a Google Apps Script add-on that moves time tracked in Toggl
into freee's workload management. The add-on does the following:

- It pulls the Toggl detailed report page by page, following the `next_row_number`
  cursor until it is no longer a positive number.
- It rounds every time entry to whole minutes.
- It resolves each grouped entry to a freee project, tag group and tag. It does this
  through the `TOGGL_FREEE_MAP` sheet: the first mapped tag wins, then the project's
  wildcard row.
- It writes the flattened report to the active sheet.
- It can later read that sheet back as records and post one freee workload per
  record, stopping at the first failure.
- It exports the Toggl project and tag catalogs, and the freee project, tag-group
  and tag taxonomy sorted by project name and tag id.
- It checks that every stored user property has a value.

## How the model is organised

The modules follow the program's concerns rather than its files:

- `Values` and `Text` follow no single file; they are the JavaScript behaviour the
  code relies on.
  - `Values` is the values the core handles (`undefined`, `null`, numbers, strings,
    arrays of ids). It also holds `String(v)` and the loose `== null` and `== ''`
    comparisons.
  - `Text` is decimal rendering and parsing, `split` and `join`.
- `Sheets` is `src/SpreadsheetUtils.ts`, plus the active-sheet write of `src/code/toggl.ts` (`WriteToActiveSheet`). `Spreadsheet` is a class whose `sheets` map
  and `active` name the methods update.
- `CrossMap` is the `TogglFreeeMap` class and its lookup.
- `Report`, `Pagination` and `Toggl` each span `src/service/toggl.ts` and
  `src/toggl.ts`.
  - `Report` is `parseReportData` and `parseReportData_`.
  - `Pagination` is `fetchReport` and `fetchAllReport` (and their `_` twins), over a
    `ReportServer` class that logs every requested row number.
  - `Toggl` is the catalogs and the report compositions of both files.
- `TogglCommands` is the Toggl menu commands of `src/code/toggl.ts`.
- `Taxonomy`, `FreeeApi` and `Workloads` split `src/service/freee.ts`.
  - `Taxonomy` is `getProjectsTags`: `parseProject`, the comparator, the in-place sort
    and the header.
  - `FreeeApi` is the companies listing and the GET URL.
  - `Workloads` is `entryWorkloads`, over a `WorkloadApi` class that logs every
    posted payload.
- `Props` is `src/props.ts`, the user property store.

Loops of the source are methods with loop invariants, proved against a
specification:

- Most are proved equal to a recursive specification function, and the properties
  are proved as lemmas about that function.
- `Taxonomy.SortRows` is proved to leave the array sorted and a permutation of its
  old contents.
- `Props.UserProperties.IsValid` is proved equivalent to a quantified predicate over
  the store.

External services become parameters or small logging classes:

- The report server is a map from first row number to page.
- The freee API is the set of payloads it refuses.
- `Utilities.formatDate(new Date(...))` is a function that may fail.

## Model

| member | source | states |
|---|---|---|
| Text.NatToString | src/service/toggl.ts:171 | the decimal text of an id is non-empty, all digits, and has no leading zero |
| Text.IntToStringRoundTrip | src/service/toggl.ts:171 | parsing the text `String(id)` gives back the id, for every integer |
| Text.IntToStringInjective | src/service/toggl.ts:234-239 | distinct ids have distinct texts, so ids used as object keys never collide |
| Text.IntToStringAvoids | src/service/toggl.ts:171 | the text of an id never holds a separator such as `;`, `&` or `=` |
| Text.Split | src/service/toggl.ts:169 | `split` always yields at least one piece |
| Text.SplitJoin | src/service/toggl.ts:171 | splitting a join on its separator gives back the parts when no part holds the separator |
| Text.SplitHead | src/service/toggl.ts:169 | the first piece of a split is the longest prefix without the separator, ending at the first separator or at the end |
| Values.LooselyEmptyList | src/service/freee.ts:287 | an array cell is loosely equal to `''` exactly when it is empty |
| Values.ToText | src/SpreadsheetUtils.ts:23 | `String(v)`, also the object-key coercion: a number renders as its decimal text (`IntToStringRoundTrip` parses it back), and an array as its ids joined by `,` |
| Values.LooselyNull | src/service/freee.ts:287 | `v == null` holds for null and undefined only |
| Values.LooselyEmpty | src/service/freee.ts:287 | `v == ''` holds for `''`, 0, false and an empty array (`LooselyEmptyList`), and never for null or undefined |
| Text.IntToString | src/service/toggl.ts:171 | the text of an id is a decimal numeral; `IntToStringRoundTrip` and `IntToStringInjective` pin its value |
| Text.Join | src/service/toggl.ts:171-172 | `join`: the parts with the separator between neighbours; `SplitJoin` proves `Split` undoes it |
| Sheets.RowRecord | src/SpreadsheetUtils.ts:21-25 | one assignment per header in column order; `RowRecordKeys` and `RowRecordLastWins` give its keys and values |
| CrossMap.BuildIndex | src/service/toggl.ts:231-249 | the index after one row per map record; `BuildIndexProjects`, `BuildIndexKeys` and `BuildIndexLastWins` give its keys and values |
| CrossMap.Resolve | src/service/toggl.ts:252-266 | the lookup of getFreeeProjectTag; `ResolveUnknownProject`, `ResolveFirstMatch`, `ResolveWildcard` and `ResolveLength` cover every case |
| Report.TagNames | src/service/toggl.ts:172 | one name per tag id, `''` for an unknown id; `ReportRowTagColumns` proves the joined cell splits back into them |
| Pagination.FetchFrom | src/service/toggl.ts:207-219 | the pages' entries in request order, failing on a failed request; `FetchAllReport` is proved equal to it |
| Pagination.RequestTrace | src/service/toggl.ts:208-217 | the row numbers requested, in order; `RequestTraceChain` states how they follow each other, and `FetchFromTrace` that a successful trace ends only at a next row that is not above 0 |
| Toggl.Catalog | src/service/toggl.ts:56-57 | the id-to-name object after one assignment per listed element; `CatalogKeys` and `CatalogLastWins` give its keys and values |
| Toggl.AllReport | src/service/toggl.ts:83-89 | fetch, then the map sheet, then parseReportData; `AllReportShape` and `AllReportFailures` state its outcomes |
| Toggl.BareReport | src/toggl.ts:182-186 | fetch, then parseReportData_; `BareReportShape` states its outcome |
| Taxonomy.ParseProject | src/service/freee.ts:236-251 | a project's rows; `ParseProjectRows`, `ParseProjectNoGroups`, `ParseProjectEmptyGroups` and `ParseProjectOwnRows` state them |
| Taxonomy.AllRows | src/service/freee.ts:202-206 | every project's rows in project order; `GetProjectsTags` returns a sorted permutation of them |
| Taxonomy.StrLess | src/service/freee.ts:216 | JavaScript's `<` on strings (the comparator's `a[1] > b[1]` is `StrLess(b[1], a[1])`); `StrLessAsymmetric`, `StrLessTotal` and `StrLessTransitive` make it a strict total order |
| FreeeApi.RequestUrl | src/service/freee.ts:329-336 | the URL of getRequest; `RequestUrlParts` splits it back into base, path and query pairs |
| Workloads.HasTagGroup | src/service/freee.ts:287 | the group cell is neither loosely null nor loosely `''`; `PayloadTags` and `ZeroGroupHasNoTags` use it |
| Workloads.Payload | src/service/freee.ts:280-289 | the payload of one record; `PayloadTags` states when it carries tags, and `ReportRowPayload` what a report row gives |
| Workloads.SubmitFrom | src/service/freee.ts:279-298 | the run over the records from k on; `SubmitSentAt`, `SubmitSuccess` and `SubmitFailure` state what it sends and how it ends |
| Workloads.EntryOutcome | src/service/freee.ts:275-299 | a missing sheet fails before anything is sent, otherwise `SubmitFrom` over the sheet's records; `EntryWorkloads` is proved equal to it |
| Sheets.SheetRecords | src/SpreadsheetUtils.ts:18-20 | the header row is shifted off, leaving one record per remaining row, record k built from the header row and row k + 1 (none for an empty sheet) |
| Sheets.RowRecordKeys | src/SpreadsheetUtils.ts:20-26 | a record's keys are exactly the texts of the header cells |
| Sheets.RowRecordLastWins | src/SpreadsheetUtils.ts:22-24 | a header's key holds the cell under the last column carrying that header text (`undefined` past the row's end) |
| Sheets.WriteReadRoundTrip | src/SpreadsheetUtils.ts:16-37 | rows written under distinct headers read back as records mapping each header to its cell |
| Sheets.WriteOutcome | src/SpreadsheetUtils.ts:33-36 | the write succeeds exactly when the table is non-empty, has a first row with cells, and all rows are as wide as it |
| Sheets.Written | src/SpreadsheetUtils.ts:32-36 | after a write the sheet holds the data when it is a full rectangle, and is cleared otherwise |
| Sheets.WithSheet | src/SpreadsheetUtils.ts:39-45 | getOrInsertSheet keeps every existing sheet, adds the named one empty when missing, and adds nothing else |
| Sheets.WithSheetIdempotent | src/SpreadsheetUtils.ts:39-45 | inserting the same sheet twice is inserting it once |
| Sheets.Spreadsheet.constructor | src/SpreadsheetUtils.ts:8-10 | the opened workbook holds the given sheets, and its active sheet (the one `getActiveSheet` returns in src/code/toggl.ts, line 27) is among them |
| Sheets.Spreadsheet.GetSheetAsJson | src/SpreadsheetUtils.ts:16-28 | the nested loop returns the sheet's records, or fails when the sheet does not exist |
| Sheets.Spreadsheet.GetOrInsertSheet | src/SpreadsheetUtils.ts:39-45 | the sheets become `WithSheet` of the old sheets; an inserted sheet becomes the active sheet (Apps Script's `insertSheet` activates the new sheet), an existing one leaves the active sheet as it was; a valid workbook stays valid |
| Sheets.Spreadsheet.ClearAndWrite | src/SpreadsheetUtils.ts:32-36 | the named sheet alone becomes the written data (or is left cleared), and the outcome is `WriteOutcome` |
| Sheets.Spreadsheet.WriteToSheet | src/SpreadsheetUtils.ts:30-37 | writeToSheet is getOrInsertSheet, then clear and write; no other sheet changes, and a sheet it had to insert becomes the active sheet |
| Sheets.Spreadsheet.WriteToActiveSheet | src/code/toggl.ts:26-33 | the active sheet alone is overwritten with the report, and the workbook stays valid |
| Sheets.WriteThenRead | src/SpreadsheetUtils.ts:16-37 | writing a table with distinct headers and reading the sheet back yields every row as a record of its cells |
| CrossMap.DestinationOf | src/service/toggl.ts:240-247 | a map row contributes a six-cell destination |
| CrossMap.BuildIndexWellFormed | src/service/toggl.ts:231-250 | every destination in the built index has six cells |
| CrossMap.BuildIndexProjects | src/service/toggl.ts:236-239 | a project key is in the index exactly when some map row carries it |
| CrossMap.BuildIndexKeys | src/service/toggl.ts:236-247 | under a known project, a tag key is present exactly when some map row carries that project and tag |
| CrossMap.BuildIndexLastWins | src/service/toggl.ts:240-247 | for a repeated (project, tag) pair, the destination of the last row wins |
| CrossMap.FirstMapped | src/service/toggl.ts:257-261 | a tag match exists exactly when some tag id's text is a key of the project's map |
| CrossMap.ResolveUnknownProject | src/service/toggl.ts:253-256 | an unmapped project gives six empty strings, whatever its tags |
| CrossMap.ResolveFirstMatch | src/service/toggl.ts:257-261 | when several tags are mapped, the first in the entry's order decides |
| CrossMap.ResolveWildcard | src/service/toggl.ts:262-265 | with no tag mapped, the project's `''` row answers if present, and six empty strings otherwise |
| CrossMap.WildcardIsNoTag | src/service/toggl.ts:262-265 | no tag id's text is `''`, so the wildcard row never shadows a real tag |
| CrossMap.ResolveLength | src/service/toggl.ts:252-266 | every resolution has six cells |
| CrossMap.TogglFreeeMap.constructor | src/service/toggl.ts:231-250 | the loop over the map sheet's records builds exactly `BuildIndex` of them |
| CrossMap.TogglFreeeMap.GetFreeeProjectTag | src/service/toggl.ts:252-266 | the loop with early return computes `Resolve` |
| CrossMap.TogglFreeeMap.Get | src/service/toggl.ts:268-270 | it returns the project's inner map exactly when the project is mapped |
| Report.RoundMinutes | src/service/toggl.ts:170 | `Math.round(s/60)` is the whole minute within half a minute of the seconds, halves rounded up |
| Report.TotalMinutes | src/service/toggl.ts:170 | the per-entry rounded sum is within half a minute per time entry of the exact total |
| Report.PerEntryRoundingDiffers | src/service/toggl.ts:170 | rounding per entry is not rounding the total: 30+30+29 seconds give 2 minutes, not 1 |
| Report.DatePart | src/service/toggl.ts:169 | the date is the prefix of `start` up to the first `T` (all of it when there is none) |
| Report.MissingTimeEntries | src/service/toggl.ts:166 | it finds the first grouped entry without time entries, or none when every entry has one |
| Report.ReportRow | src/service/toggl.ts:163-175 | a report row is the eight report columns followed by the resolved destination |
| Report.ReportRows | src/service/toggl.ts:161-176 | one 14-column row per grouped entry, in input order |
| Report.ParseReportData | src/service/toggl.ts:159-197 | success exactly when every entry has a time entry; then a 14-name header over one row per entry; otherwise failure at the first entry without one |
| Report.ReportRowTagColumns | src/service/toggl.ts:171-172 | the tagIds cell splits on `;` back into the entry's ids, and the tagNames cell has one name per id (`''` when unknown); an entry without tags has both cells `''`, which split into one empty piece |
| Report.BareRow | src/toggl.ts:98-104 | a standalone report row has six cells |
| Report.ParseBareReportData | src/toggl.ts:96-109 | the standalone report has the same success and failure conditions, with a 6-name header and 6-column rows |
| Report.BareAgreesWithReport | src/toggl.ts:98-104 | the standalone row agrees with the add-on's row on id, project, date, minutes and description, and carries the ids the add-on joins |
| Pagination.ReportServer.constructor | src/service/toggl.ts:131-149 | the server starts with its pages and an empty request log |
| Pagination.ReportServer.FetchReport | src/service/toggl.ts:131-149 | one request is logged; it returns the page at that row number, or a transport failure |
| Pagination.FetchAllReport | src/service/toggl.ts:207-219 | the loop returns the pages' entries in request order (as `FetchFrom` from row 1) and logs exactly the requests of `RequestTrace` |
| Pagination.FetchFromTrace | src/service/toggl.ts:207-219 | on success every requested row number had a page, the entries are those pages' entries concatenated in request order (`Entries`), and the fetch stopped only because the starting cursor or the last page's next row is not a number above 0; a transport failure is the last request made, the one with no page |
| Pagination.RequestTraceChain | src/service/toggl.ts:212-217 | requests start at the given row, every row requested is positive, and each later request uses the previous page's next row |
| Pagination.ForwardCursorTerminates | src/service/toggl.ts:212-217 | when every page's next row lies ahead of it, fuel above the number of pages ahead never runs out |
| Pagination.ForwardFetchNeverExhausts | src/service/toggl.ts:207-219 | with forward cursors, one request per page plus one always suffices |
| Pagination.FuelMonotone | src/service/toggl.ts:207-219 | once the fuel suffices, more fuel gives the same result |
| Toggl.CatalogKeys | src/service/toggl.ts:52-59 | the catalog's ids are exactly the listed ids |
| Toggl.CatalogLastWins | src/service/toggl.ts:56-57 | an id maps to the name of its last listed element |
| Toggl.BuildCatalog | src/service/toggl.ts:52-59 | the loop of assignments builds exactly `Catalog` |
| Toggl.AllReportShape | src/service/toggl.ts:83-89 | a successful report is the header over one 14-column row per fetched entry, a full rectangle |
| Toggl.AllReportFailures | src/service/toggl.ts:83-89 | a fetch failure is reported first; with the pages in and the map sheet missing, the report fails on the sheet |
| Toggl.GetAllReport | src/service/toggl.ts:83-89 | the method returns `AllReport` and logs exactly the page requests |
| Toggl.BareReportShape | src/toggl.ts:182-186 | the standalone report is the 6-name header over one bare row per fetched entry |
| Toggl.GetBareReport | src/toggl.ts:182-186 | the method returns `BareReport` and logs exactly the page requests |
| TogglCommands.ReportCount | src/code/toggl.ts:49-50 | the count is the report's length minus the header, and zero for an empty report |
| TogglCommands.Least | src/code/toggl.ts:69-79 | the smallest id of a non-empty set is a member and is at most every member |
| TogglCommands.SortedKeys | src/code/toggl.ts:69-79 | the keys of an id object come in ascending order, each id exactly once |
| TogglCommands.CatalogRows | src/code/toggl.ts:74-79 | a catalog has one two-cell row per id |
| TogglCommands.Section | src/code/toggl.ts:74-79 | a section is its header over the catalog's rows, every row two cells wide |
| TogglCommands.ProjectTagLayout | src/code/toggl.ts:74-79 | the export has the project header at the top, the blank separator after the projects, then the tag header |
| TogglCommands.LayoutRectangular | src/code/toggl.ts:74-80 | every export row has two cells, so the sheet write cannot fail |
| TogglCommands.CatalogRowsCover | src/code/toggl.ts:74-79 | every catalog entry has its `[id, name]` row |
| TogglCommands.CatalogRowsOnly | src/code/toggl.ts:74-79 | every section row belongs to some catalog entry |
| TogglCommands.CatalogRowsDistinct | src/code/toggl.ts:74-79 | no id is listed twice, and the ids come in ascending order |
| TogglCommands.LayoutSections | src/code/toggl.ts:74-79 | the project section is exactly the project rows, and the tag section exactly the tag rows |
| TogglCommands.OutputTogglProjectTags | src/code/toggl.ts:66-89 | the `TOGGL_PROJECTS_TAGS` sheet alone becomes the layout of both catalogs; when that sheet was missing it is inserted and becomes the active sheet |
| TogglCommands.ExportThenFill | src/code/toggl.ts:26-80 | on a workbook without `TOGGL_PROJECTS_TAGS`, running outputTogglProjectTags and then fillSheetWithReport leaves that sheet active, and a successful report overwrites it |
| TogglCommands.FillSheetWithReport | src/code/toggl.ts:41-60 | on success the active sheet alone becomes the report and the count is the number of fetched entries; on failure every sheet is unchanged |
| Taxonomy.GroupRows | src/service/freee.ts:243-245 | a tag group gives one row per tag |
| Taxonomy.GroupsRowsLength | src/service/freee.ts:240-250 | the flattened groups have one row per tag |
| Taxonomy.GroupsRowsAt | src/service/freee.ts:240-250 | tag t of group g sits at the tags before group g, plus t |
| Taxonomy.OffsetBound | src/service/freee.ts:240-250 | each group's rows fit inside the flattened rows |
| Taxonomy.ParseProjectRows | src/service/freee.ts:236-251 | a project with groups has one row per tag, each at its group's offset |
| Taxonomy.ParseProjectNoGroups | src/service/freee.ts:247-249 | a project without groups gives exactly one row, with null tag columns |
| Taxonomy.ParseProjectEmptyGroups | src/service/freee.ts:240-250 | a project whose groups hold no tags gives no row at all |
| Taxonomy.EmptyGroupsRows | src/service/freee.ts:240-250 | groups without tags flatten to nothing |
| Taxonomy.ParseProjectOwnRows | src/service/freee.ts:238-245 | every row carries its own project's id and name and a tag |
| Taxonomy.StrLessAsymmetric | src/service/freee.ts:216 | string `<` never holds both ways |
| Taxonomy.StrLessTotal | src/service/freee.ts:216 | two different strings are ordered one way or the other |
| Taxonomy.StrLessTransitive | src/service/freee.ts:216 | string `<` is transitive |
| Taxonomy.RowLessAsymmetric | src/service/freee.ts:207-221 | the row order never holds both ways |
| Taxonomy.RowLeTotal | src/service/freee.ts:207-221 | any two rows are ordered |
| Taxonomy.RowLessTotal | src/service/freee.ts:207-221 | rows differing in name or tag id are strictly ordered |
| Taxonomy.RowLessTransitive | src/service/freee.ts:207-221 | the strict row order is transitive |
| Taxonomy.RowLeTransitive | src/service/freee.ts:207-221 | the non-strict row order is transitive |
| Taxonomy.AdjacentSortedIsSorted | src/service/freee.ts:207-221 | ordered neighbours make an ordered sequence |
| Taxonomy.AdjacentJoin | src/service/freee.ts:207-221 | two ordered runs joined at an ordered seam are ordered |
| Taxonomy.SortRows | src/service/freee.ts:207-221 | the in-place sort leaves the array ordered and a permutation of its old contents |
| Taxonomy.InsertLast | src/service/freee.ts:207-221 | one insertion extends the ordered prefix by one, keeps the rest, and permutes the array |
| Taxonomy.JsCompare | src/service/freee.ts:207-221 | the comparator as written returns -1, 0 or 1 |
| Taxonomy.JsCompareAgrees | src/service/freee.ts:207-221 | on freee's cells (null or a positive tag id), the comparator is negative, positive or zero exactly as the intended order says |
| Taxonomy.JsCompareNullZero | src/service/freee.ts:209-214 | as written, a null tag id and a 0 tag id under one name each compare as before the other |
| Taxonomy.RowCompareAntisymmetric | src/service/freee.ts:207-221 | the corrected comparator is antisymmetric and puts the null tag id first |
| Taxonomy.RowCells | src/service/freee.ts:244-248 | a row has six cells |
| Taxonomy.RowCellsInjective | src/service/freee.ts:244-248 | distinct rows have distinct cells |
| Taxonomy.GetProjectsTags | src/service/freee.ts:201-229 | the output is the 6-name header over the cells of the sorted rows, which are a permutation of every project's rows |
| FreeeApi.GetCompanies | src/service/freee.ts:167-170 | one summary per company, in order, with its id and display name |
| FreeeApi.Queries | src/service/freee.ts:332-334 | one query string per parameter |
| FreeeApi.GetRequestUrl | src/service/freee.ts:329-336 | the loop builds exactly `RequestUrl` |
| FreeeApi.QueryPairSplits | src/service/freee.ts:333 | a query pair splits on `=` back into the key and the value's text |
| FreeeApi.RequestUrlParts | src/service/freee.ts:329-336 | the URL starts with base plus path; with parameters it continues with `?` and a query that splits on `&` back into the pairs, in order |
| FreeeApi.ProjectsRequestUrl | src/service/freee.ts:187-192 | the projects request asks for the company's projects with limit 100 |
| Workloads.SubmitSentAt | src/service/freee.ts:279-297 | the i-th payload sent is record k+i's, built with its formatted date |
| Workloads.SubmitSuccess | src/service/freee.ts:279-298 | a run succeeds exactly when every record gets a date and is accepted, and then it counts all records |
| Workloads.SubmitFailure | src/service/freee.ts:279-298 | a failure names the first failing record: every record before it got a date and was accepted, nothing after it is sent, and a refused payload is the last one sent |
| Workloads.WorkloadApi.constructor | src/service/freee.ts:306-310 | the API starts with its refused payloads and an empty log |
| Workloads.WorkloadApi.EntryWorkload | src/service/freee.ts:306-310 | one post is logged; it succeeds exactly when the payload is not refused |
| Workloads.EntryWorkloads | src/service/freee.ts:275-299 | the outcome and the posted payloads are those of `EntryOutcome`; a missing sheet posts nothing |
| Workloads.SubmitRecords | src/service/freee.ts:279-298 | the loop's outcome and posts are those of `SubmitFrom` from the first record |
| Workloads.PayloadTags | src/service/freee.ts:280-289 | a payload has tags exactly when the group cell is neither loosely null nor loosely `''`, and then exactly the record's (group, tag) pair |
| Workloads.ZeroGroupHasNoTags | src/service/freee.ts:287 | a numeric group id of 0 counts as loosely `''`, so no tags are sent |
| Workloads.ReportHeaderDistinct | src/service/toggl.ts:178-195 | the 14 report header names are distinct |
| Workloads.ReportRowPayload | src/service/freee.ts:280-289 | a report row read back from the sheet becomes the payload of its freee destination, with the entry's minutes and description; an unmapped project gets no tags |
| Props.EmptyIsValid | src/props.ts:15-18 | an empty store is valid |
| Props.OneEmptyInvalidates | src/props.ts:15-18 | one empty value invalidates the store; a valid store stays valid after a non-empty value is set |
| Props.UserProperties.constructor | src/props.ts:4 | the store holds the given properties |
| Props.UserProperties.GetAll | src/props.ts:11-13 | getAll returns the whole store |
| Props.UserProperties.IsValid | src/props.ts:15-18 | the loop answers true exactly when every stored value is non-empty |

## Left out

- HTTP, JSON parsing, OAuth2 sign-in and logout, `Utilities.sleep`, console logging, toasts and the menu UI are left out. These are transport and presentation layers. Responses enter the model as already parsed pages, listings and projects.
- `src/code.ts` and `src/code/freee.ts` are not part of this model. They are menu wiring and dialogs around the modelled operations.
- `getWorkspaces`, `getProjectById`, `currentUser`, `postRequest`, and the transport of `fetchCompanies` and `fetchProjects` are left out. They only call the network. For `fetchProjects`, only the request URL is modelled.
- The project listing is not capped at 100 projects. That cap is the server's reading of `limit=100`.
- `Props.get`, `Props.set` and `Props.setProps` are left out. They pass straight through to PropertiesService. A stored `null` value is not representable.
- `Utilities.formatDate(new Date(...))` is a parameter that may fail. `Utils.getPeriod` is not part of this model.
- Sheets.Spreadsheet.GetOrInsertSheet: the tab position of a newly inserted sheet is not modelled. The sheets are a map by name.
- Pagination.FetchAllReport: the number of requests is bounded by a fuel parameter. The source keeps requesting while the server returns a positive next row. `ForwardFetchNeverExhausts` shows that the bound never bites when cursors move forward.
- Pagination.FetchAllReport stands for both `fetchAllReport` and `fetchAllReport_`. `Toggl.BuildCatalog` stands for `getProjects` and `getTags` in both files. The twins run the same requests against the same URLs. They differ only in where the API token comes from: the `Toggl` class's constructor field, or `Props.get`.
- TogglCommands.SortedKeys: `Object.keys` order is modelled as ascending ids. That is JavaScript's order for non-negative integer keys below 2^32 - 1; larger or negative ids would come in insertion order.
- Taxonomy.StrLess: it compares Dafny characters. JavaScript compares UTF-16 code units, which differ for characters outside the Basic Multilingual Plane.
- Taxonomy.SortRows: it is an insertion sort proved sorted and a permutation. The stability of `Array.prototype.sort` is not stated.
- Taxonomy.SortRows sorts by the corrected order. The comparator as written is kept beside it as `JsCompare`, and is proved to agree on the tag ids freee produces.
- Taxonomy.GetProjectsTags returns the sorted rows as a second out-parameter, so that its contract can state the permutation.
- Values.Value: JavaScript numbers are integers here. Minutes, ids and row numbers are integral in the source, and floating point is not modelled.
- TogglCommands.FillSheetWithReport returns the error itself. The source logs the original error and then throws a new error that replaces it: a fixed message followed by the user's temporary key, without the original error.
- TogglCommands.OutputTogglProjectTags has no error path. Its only failures are network errors of `getTags` and `getProjects`, which are left out. Its write cannot fail (`LayoutRectangular`).
- The sheet store keeps cells verbatim. A real sheet converts values in `setValues`/`getValues`: null and undefined come back as `''`, and numeric or date-like strings come back as numbers or `Date`s. The three members below hold only for the verbatim store.
- Sheets.WriteReadRoundTrip holds only for the verbatim store.
- Sheets.WriteThenRead holds only for the verbatim store.
- Workloads.ReportRowPayload holds only for the verbatim store. In particular, a real sheet returns the date column `2024-01-05` as a `Date`, whose `String(...)` is not `DatePart(start)`.
- The readers receive a sheet as the map of all sheets by name. A missing sheet is the `SheetNotFound` error where the source would throw on `null`.

## Findings

| source | as written | input that shows it | evidently intended | confidence | as-written member | corrected member |
|---|---|---|---|---|---|---|
| src/service/freee.ts:207-221 | column 4 is compared with `==` and then `>`, and `>` converts a null cell to 0 | two rows with the same project name, one with a null tag id and one with tag id 0: each compares as before the other | a consistent order with null first, then ids ascending | not executed; low, since freee tag ids are positive | Taxonomy.JsCompareNullZero | Taxonomy.RowCompareAntisymmetric |
