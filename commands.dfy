/** The Toggl menu commands of the add-on: fillSheetWithReport (fetch the report,
    count it, overwrite the active sheet) and outputTogglProjectTags (write the
    project and tag catalogs to the TOGGL_PROJECTS_TAGS sheet). */
module TogglCommands {
  import opened Text
  import opened Values
  import opened Pagination
  import opened Sheets
  import opened Toggl

  /** Math.max(report.length - 1, 0): the rows of a report without its header. */
  function ReportCount(report: Grid): (count: nat)
    ensures |report| > 0 ==> count + 1 == |report|
    ensures |report| == 0 ==> count == 0
  {
    if |report| == 0 then 0 else |report| - 1
  }

  predicate Ascending(keys: seq<int>)
  {
    forall i, j :: 0 <= i < j < |keys| ==> keys[i] < keys[j]
  }

  lemma {:induction false} HasLeast(s: set<int>)
    requires s != {}
    ensures exists m :: m in s && forall y :: y in s ==> m <= y
    decreases |s|
  {
    var x := Pick(s);
    var rest := s - {x};
    if rest == {} {
      assert s == {x};
    } else {
      HasLeast(rest);
      var m :| m in rest && forall y :: y in rest ==> m <= y;
      var least := if x < m then x else m;
      forall y | y in s ensures least <= y {
        if y != x { assert y in rest; }
      }
      assert least in s;
    }
  }

  /** The smallest id of a non-empty set. */
  function Least(s: set<int>): (m: int)
    requires s != {}
    ensures m in s && forall y :: y in s ==> m <= y
  {
    HasLeast(s);
    var m :| m in s && forall y :: y in s ==> m <= y;
    m
  }

  /** Object.keys of an object whose keys are ids: the ids in ascending order. */
  function SortedKeys(s: set<int>): (keys: seq<int>)
    ensures Ascending(keys)
    ensures |keys| == |s| && forall k :: k in s <==> k in keys
    decreases |s|
  {
    if s == {} then []
    else
      var m := Least(s);
      var rest := SortedKeys(s - {m});
      assert forall k :: k in rest ==> m < k;
      [m] + rest
  }

  /** Every row of the table has two cells. */
  predicate TwoColumns(table: Grid)
  {
    forall k :: 0 <= k < |table| ==> |table[k]| == 2
  }

  /** The rows [String(id), name] of a catalog, in key order. */
  function CatalogRows(catalog: map<int, string>): (rows: Grid)
    ensures |rows| == |catalog| && TwoColumns(rows)
  {
    var keys := SortedKeys(catalog.Keys);
    seq(|keys|, i requires 0 <= i < |keys| => CatalogRow(keys[i], catalog[keys[i]]))
  }

  const ProjectHeader: seq<Value> := [Str("togglProjectId"), Str("togglProjectName")]
  const TagHeader: seq<Value> := [Str("togglTagId"), Str("togglTagName")]
  const Separator: seq<Value> := [Str(""), Str("")]

  lemma {:induction false} TwoColumnsJoin(a: Grid, b: Grid)
    requires TwoColumns(a) && TwoColumns(b)
    ensures TwoColumns(a + b)
  {
    forall k | 0 <= k < |a + b| ensures |(a + b)[k]| == 2 {
      if k >= |a| {
        assert (a + b)[k] == b[k - |a|];
      }
    }
  }

  /** One section of the export: its header row over the catalog's rows. */
  function Section(header: seq<Value>, catalog: map<int, string>): (section: Grid)
    requires |header| == 2
    ensures |section| == |catalog| + 1 && section[0] == header && section[1..] == CatalogRows(catalog)
    ensures TwoColumns(section)
  {
    TwoColumnsJoin([header], CatalogRows(catalog));
    [header] + CatalogRows(catalog)
  }

  /** The table outputTogglProjectTags writes: the project header, one row per
      project, a blank separator row, the tag header, one row per tag. */
  function ProjectTagLayout(projects: map<int, string>, tags: map<int, string>): (table: Grid)
    ensures |table| == |projects| + |tags| + 3
    ensures table[0] == ProjectHeader && table[|projects| + 1] == Separator && table[|projects| + 2] == TagHeader
  {
    Section(ProjectHeader, projects) + [Separator] + Section(TagHeader, tags)
  }

  /** Every row of the export has two columns, so the sheet write never fails. */
  lemma LayoutRectangular(projects: map<int, string>, tags: map<int, string>)
    ensures var table := ProjectTagLayout(projects, tags);
      Rectangular(table) && TwoColumns(table)
  {
    var p := Section(ProjectHeader, projects);
    TwoColumnsJoin(p, [Separator]);
    TwoColumnsJoin(p + [Separator], Section(TagHeader, tags));
  }

  /** The row a catalog entry gets in the export. */
  function CatalogRow(id: int, name: string): seq<Value>
  {
    [Str(IntToString(id)), Str(name)]
  }

  /** Every catalog entry has a row beside its own name. */
  lemma CatalogRowsCover(catalog: map<int, string>, id: int)
    requires id in catalog
    ensures exists i :: 0 <= i < |CatalogRows(catalog)| && CatalogRows(catalog)[i] == CatalogRow(id, catalog[id])
  {
    var keys := SortedKeys(catalog.Keys);
    var i :| 0 <= i < |keys| && keys[i] == id;
    assert CatalogRows(catalog)[i] == CatalogRow(id, catalog[id]);
  }

  /** Every row of a section is some catalog entry's row. */
  lemma CatalogRowsOnly(catalog: map<int, string>, i: nat)
    requires i < |CatalogRows(catalog)|
    ensures exists id :: id in catalog && CatalogRows(catalog)[i] == CatalogRow(id, catalog[id])
  {
    var keys := SortedKeys(catalog.Keys);
    assert keys[i] in catalog;
    assert CatalogRows(catalog)[i] == CatalogRow(keys[i], catalog[keys[i]]);
  }

  /** No id is listed twice: the id cells of a section are pairwise distinct, and
      they come in ascending order of the ids. */
  lemma CatalogRowsDistinct(catalog: map<int, string>, i: nat, j: nat)
    requires i < j < |CatalogRows(catalog)|
    ensures CatalogRows(catalog)[i][0] != CatalogRows(catalog)[j][0]
    ensures ParseInt(CatalogRows(catalog)[i][0].s) < ParseInt(CatalogRows(catalog)[j][0].s)
  {
    var keys := SortedKeys(catalog.Keys);
    IntToStringInjective(keys[i], keys[j]);
    IntToStringRoundTrip(keys[i]);
    IntToStringRoundTrip(keys[j]);
  }

  /** The project section of the export is exactly the project catalog's rows and
      the tag section exactly the tag catalog's rows. */
  lemma LayoutSections(projects: map<int, string>, tags: map<int, string>)
    ensures var table := ProjectTagLayout(projects, tags);
      table[1..|projects| + 1] == CatalogRows(projects) && table[|projects| + 3..] == CatalogRows(tags)
  {
    var p := Section(ProjectHeader, projects);
    var t := Section(TagHeader, tags);
    var table := ProjectTagLayout(projects, tags);
    assert table[1..|projects| + 1] == p[1..];
    assert table[|projects| + 2..] == t;
    assert table[|projects| + 3..] == t[1..];
  }

  const ExportSheet: string := "TOGGL_PROJECTS_TAGS"

  /** outputTogglProjectTags: builds both catalogs and writes the layout to the
      TOGGL_PROJECTS_TAGS sheet, creating it when missing; the write always succeeds.
      A newly created export sheet becomes the active sheet, so a later
      fillSheetWithReport writes its report there. */
  method OutputTogglProjectTags(projectListing: seq<Named>, tagListing: seq<Named>, ss: Spreadsheet)
    modifies ss
    ensures ss.sheets == old(ss.sheets)[ExportSheet := ProjectTagLayout(Catalog(projectListing), Catalog(tagListing))]
    ensures ss.active == if ExportSheet in old(ss.sheets) then old(ss.active) else ExportSheet
    ensures old(ss.Valid()) ==> ss.Valid()
  {
    var tags := BuildCatalog(tagListing);
    var projects := BuildCatalog(projectListing);
    var table := ProjectTagLayout(projects, tags);
    LayoutRectangular(projects, tags);
    assert Written(table) == table;
    WithSheetOverwrite(ss.sheets, ExportSheet, table);
    var written := ss.WriteToSheet(ExportSheet, table);
  }

  /** fillSheetWithReport: the add-on's report is fetched and flattened, the count
      excludes the header, and the active sheet is overwritten with the report.
      A failure leaves every sheet as it was. */
  method FillSheetWithReport(server: ReportServer, fuel: nat, projectListing: seq<Named>, tagListing: seq<Named>, ss: Spreadsheet)
    returns (r: Result<nat, Error>)
    requires ss.Valid()
    modifies server, ss
    ensures ss.Valid() && ss.active == old(ss.active)
    ensures var report := AllReport(server.pages, fuel, projectListing, tagListing, old(ss.sheets));
      match report
      case Failure(e) => r == Failure(e) && ss.sheets == old(ss.sheets)
      case Success(table) =>
        r == Success(|FetchFrom(server.pages, Some(1), fuel).value|)
        && ss.sheets == old(ss.sheets)[ss.active := table]
  {
    var report := GetAllReport(server, fuel, projectListing, tagListing, ss);
    if report.Failure? {
      return Failure(report.error);
    }
    AllReportShape(server.pages, fuel, projectListing, tagListing, ss.sheets);
    var count := ReportCount(report.value);
    var written := ss.WriteToActiveSheet(report.value);
    return Success(count);
  }

  /** The two commands in sequence on a workbook without the export sheet: the
      export inserts TOGGL_PROJECTS_TAGS and activates it, so the report that
      fillSheetWithReport writes to the active sheet lands on the export sheet. */
  method ExportThenFill(server: ReportServer, fuel: nat, projectListing: seq<Named>, tagListing: seq<Named>, ss: Spreadsheet)
    returns (r: Result<nat, Error>)
    requires ss.Valid() && ExportSheet !in ss.sheets
    modifies server, ss
    ensures ss.Valid() && ss.active == ExportSheet
    ensures var report := AllReport(server.pages, fuel, projectListing, tagListing, old(ss.sheets));
      r.Success? ==> report.Success? && ss.sheets[ExportSheet] == report.value
  {
    OutputTogglProjectTags(projectListing, tagListing, ss);
    assert AllReport(server.pages, fuel, projectListing, tagListing, ss.sheets)
        == AllReport(server.pages, fuel, projectListing, tagListing, old(ss.sheets)) by {
      assert MapSheet != ExportSheet;
      assert (MapSheet in ss.sheets) == (MapSheet in old(ss.sheets));
      if MapSheet in ss.sheets {
        assert ss.sheets[MapSheet] == old(ss.sheets)[MapSheet];
      }
    }
    r := FillSheetWithReport(server, fuel, projectListing, tagListing, ss);
  }
}
