/** The Toggl side of the add-on: the id -> name catalogs of projects and tags,
    and the two compositions that fetch every report page and flatten it (the
    add-on's Toggl class, which also reads the TOGGL_FREEE_MAP sheet, and the
    older standalone getAllReport, which does not). */
module Toggl {
  import opened Values
  import opened Report
  import opened CrossMap
  import opened Pagination
  import opened Sheets

  /** An element of the projects or tags listing: only its id and name are read. */
  datatype Named = Named(id: int, name: string)

  /** The catalog after the assignments `catalog[x.id] = x.name`, one per listed
      element in listing order. */
  function Catalog(content: seq<Named>): map<int, string>
  {
    if |content| == 0 then map[]
    else Catalog(content[..|content| - 1])[content[|content| - 1].id := content[|content| - 1].name]
  }

  /** Only listed ids are keys, and every listed id is one. */
  lemma {:induction false} CatalogKeys(content: seq<Named>)
    ensures Catalog(content).Keys == set i | 0 <= i < |content| :: content[i].id
  {
    if |content| > 0 {
      var init := content[..|content| - 1];
      CatalogKeys(init);
      assert forall i :: 0 <= i < |init| ==> init[i] == content[i];
      assert (set i | 0 <= i < |content| :: content[i].id)
          == (set i | 0 <= i < |init| :: init[i].id) + {content[|content| - 1].id};
    }
  }

  /** An id is mapped to the name of the last listed element carrying it. */
  lemma {:induction false} CatalogLastWins(content: seq<Named>, i: nat)
    requires i < |content|
    requires forall j :: i < j < |content| ==> content[j].id != content[i].id
    ensures content[i].id in Catalog(content)
    ensures Catalog(content)[content[i].id] == content[i].name
  {
    var init := content[..|content| - 1];
    if i < |init| {
      assert init[i] == content[i];
      CatalogLastWins(init, i);
    }
  }

  /** getProjects / getTags over the already parsed listing: an empty object
      filled by one assignment per element. */
  method BuildCatalog(content: seq<Named>) returns (catalog: map<int, string>)
    ensures catalog == Catalog(content)
  {
    catalog := map[];
    var k := 0;
    while k < |content|
      invariant 0 <= k <= |content|
      invariant catalog == Catalog(content[..k])
    {
      assert content[..k + 1][..k] == content[..k];
      catalog := catalog[content[k].id := content[k].name];
      k := k + 1;
    }
    assert content[..|content|] == content;
  }

  /** The sheet readTogglFreeeMap reads. */
  const MapSheet: string := "TOGGL_FREEE_MAP"

  /** getAllReport of the add-on's Toggl class: every report page from row 1, the
      project and tag catalogs, the cross-map read from the TOGGL_FREEE_MAP sheet
      (a missing sheet fails), then parseReportData. */
  function AllReport(pages: map<int, Page>, fuel: nat, projects: seq<Named>, tags: seq<Named>, sheets: map<string, Grid>)
    : Result<Grid, Error>
  {
    match FetchFrom(pages, Some(1), fuel)
    case Failure(e) => Failure(e)
    case Success(report) =>
      if MapSheet !in sheets then Failure(SheetNotFound(MapSheet))
      else
        var rows := SheetRecords(sheets[MapSheet]);
        BuildIndexWellFormed(rows);
        ParseReportData(report, Catalog(projects), Catalog(tags), BuildIndex(rows))
  }

  /** A successful report is the 14-name header over one 14-column row per fetched
      grouped entry: a full rectangle, which is what the sheet write needs. */
  lemma AllReportShape(pages: map<int, Page>, fuel: nat, projects: seq<Named>, tags: seq<Named>, sheets: map<string, Grid>)
    ensures var r := AllReport(pages, fuel, projects, tags, sheets);
      r.Success? ==> (FetchFrom(pages, Some(1), fuel).Success?
                      && |r.value| == |FetchFrom(pages, Some(1), fuel).value| + 1
                      && r.value[0] == ReportHeader && Rectangular(r.value)
                      && forall k :: 0 <= k < |r.value| ==> |r.value[k]| == 14)
  {
    var r := AllReport(pages, fuel, projects, tags, sheets);
    if r.Success? {
      forall k | 0 <= k < |r.value| ensures |r.value[k]| == 14 {
        if k > 0 {
          var i := k - 1;
          assert r.value[i + 1] == r.value[k];
        }
      }
    }
  }

  /** The cross-map is looked up only once the pages are in, so a fetch failure is
      reported even when the TOGGL_FREEE_MAP sheet is missing, and with the pages
      in and the sheet missing the report fails on the sheet. */
  lemma AllReportFailures(pages: map<int, Page>, fuel: nat, projects: seq<Named>, tags: seq<Named>, sheets: map<string, Grid>)
    ensures FetchFrom(pages, Some(1), fuel).Failure? ==>
      AllReport(pages, fuel, projects, tags, sheets) == Failure(FetchFrom(pages, Some(1), fuel).error)
    ensures FetchFrom(pages, Some(1), fuel).Success? && MapSheet !in sheets ==>
      AllReport(pages, fuel, projects, tags, sheets) == Failure(SheetNotFound(MapSheet))
  {
  }

  /** Toggl.getAllReport (add-on): fetchAllReport, getProjects, getTags, then
      parseReportData, which first reads the cross-map sheet. */
  method GetAllReport(server: ReportServer, fuel: nat, projectListing: seq<Named>, tagListing: seq<Named>, ss: Spreadsheet)
    returns (r: Result<Grid, Error>)
    modifies server
    ensures r == AllReport(server.pages, fuel, projectListing, tagListing, ss.sheets)
    ensures server.requested == old(server.requested) + RequestTrace(server.pages, Some(1), fuel)
  {
    var fetched := FetchAllReport(server, fuel);
    if fetched.Failure? {
      return Failure(fetched.error);
    }
    var projects := BuildCatalog(projectListing);
    var tags := BuildCatalog(tagListing);
    var records := ss.GetSheetAsJson(MapSheet);
    if records.Failure? {
      return Failure(records.error);
    }
    var tfMap := new TogglFreeeMap(records.value);
    BuildIndexWellFormed(records.value);
    return ParseReportData(fetched.value, projects, tags, tfMap.tfMap);
  }

  /** getAllReport of the standalone script: parseReportData_ over fetchAllReport_. */
  function BareReport(pages: map<int, Page>, fuel: nat): Result<Grid, Error>
  {
    match FetchFrom(pages, Some(1), fuel)
    case Failure(e) => Failure(e)
    case Success(report) => ParseBareReportData(report)
  }

  /** The standalone report carries no names and no destination: its rows are the
      6-column rows of the fetched entries, each agreeing with the add-on's row on
      id, project, date, minutes and description. */
  lemma BareReportShape(pages: map<int, Page>, fuel: nat)
    ensures var r := BareReport(pages, fuel);
      r.Success? ==> (FetchFrom(pages, Some(1), fuel).Success?
                      && |r.value| == |FetchFrom(pages, Some(1), fuel).value| + 1
                      && r.value[0] == BareHeader
                      && forall i :: 0 <= i < |FetchFrom(pages, Some(1), fuel).value| ==>
                           r.value[i + 1] == BareRow(FetchFrom(pages, Some(1), fuel).value[i]))
  {
  }

  method GetBareReport(server: ReportServer, fuel: nat) returns (r: Result<Grid, Error>)
    modifies server
    ensures r == BareReport(server.pages, fuel)
    ensures server.requested == old(server.requested) + RequestTrace(server.pages, Some(1), fuel)
  {
    var fetched := FetchAllReport(server, fuel);
    if fetched.Failure? {
      return Failure(fetched.error);
    }
    return ParseBareReportData(fetched.value);
  }
}
