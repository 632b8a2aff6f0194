/** Flattening of the Toggl detailed report: one sheet row per grouped entry, with
    minutes rounded per time entry, the date of the first time entry, and (in the
    add-on's version) project and tag names plus the freee destination columns. */
module Report {
  import opened Text
  import opened Values
  import opened CrossMap

  datatype TimeEntry = TimeEntry(id: int, seconds: int, start: string)

  /** A grouped report entry: time entries sharing project, tags and description. */
  datatype GroupedEntry = GroupedEntry(projectId: int, description: string, tagIds: seq<int>, timeEntries: seq<TimeEntry>)

  /** Math.round(seconds / 60): the nearest whole minute, halves rounded up. */
  function RoundMinutes(seconds: int): (m: int)
    ensures 60 * m - 30 <= seconds < 60 * m + 30
  {
    (seconds + 30) / 60
  }

  function TotalSeconds(entries: seq<TimeEntry>): int
  {
    if |entries| == 0 then 0 else TotalSeconds(entries[..|entries| - 1]) + entries[|entries| - 1].seconds
  }

  /** The reduce over time_entries: each entry is rounded to minutes on its own and
      the rounded values are summed, so the total is within half a minute per entry
      of the exact total. */
  function TotalMinutes(entries: seq<TimeEntry>): (m: int)
    ensures 60 * m - 30 * |entries| <= TotalSeconds(entries)
    ensures |entries| > 0 ==> TotalSeconds(entries) < 60 * m + 30 * |entries|
  {
    if |entries| == 0 then 0
    else TotalMinutes(entries[..|entries| - 1]) + RoundMinutes(entries[|entries| - 1].seconds)
  }

  /** Rounding each entry is not rounding the total: 30s + 30s + 29s gives 1 + 1 + 0
      minutes, while the 89 seconds together round to 1. */
  lemma PerEntryRoundingDiffers()
    ensures var entries := [TimeEntry(1, 30, ""), TimeEntry(2, 30, ""), TimeEntry(3, 29, "")];
      TotalMinutes(entries) == 2 && RoundMinutes(TotalSeconds(entries)) == 1
  {
    var entries := [TimeEntry(1, 30, ""), TimeEntry(2, 30, ""), TimeEntry(3, 29, "")];
    assert entries[..2] == [TimeEntry(1, 30, ""), TimeEntry(2, 30, "")];
    assert entries[..2][..1] == [TimeEntry(1, 30, "")];
  }

  /** start.split('T')[0]: the calendar day of an ISO timestamp. */
  function DatePart(start: string): (d: string)
    ensures |d| <= |start| && d == start[..|d|] && 'T' !in d
    ensures |d| == |start| || start[|d|] == 'T'
  {
    SplitHead(start, 'T');
    Split(start, 'T')[0]
  }

  /** tags[tagID] for each tag id, with a missing name rendered as an empty segment by join. */
  function TagNames(tagIds: seq<int>, tags: map<int, string>): seq<string>
  {
    seq(|tagIds|, i requires 0 <= i < |tagIds| => if tagIds[i] in tags then tags[tagIds[i]] else "")
  }

  /** The index of the first grouped entry that has no time entries, if any; the
      source fails there on time_entries[0]. */
  function MissingTimeEntries(report: seq<GroupedEntry>): (r: Option<nat>)
    ensures r.None? <==> forall i :: 0 <= i < |report| ==> |report[i].timeEntries| > 0
    ensures r.Some? ==> (r.value < |report| && |report[r.value].timeEntries| == 0
                         && forall j :: 0 <= j < r.value ==> |report[j].timeEntries| > 0)
  {
    if |report| == 0 then None
    else if |report[0].timeEntries| == 0 then Some(0)
    else match MissingTimeEntries(report[1..])
      case None => None
      case Some(i) => Some(i + 1)
  }

  const ReportHeader: seq<Value> := [
    Str("togglId"), Str("projectId"), Str("projectName"), Str("date"), Str("minutes"),
    Str("tagIds"), Str("tagNames"), Str("description"),
    Str("freeeProjectId"), Str("freeeProjectName"), Str("freeeTagGroupId"),
    Str("freeeTagGroupName"), Str("freeeTagId"), Str("freeeTagName")]

  /** One row of the add-on's report: eight report columns, then the destination. */
  function ReportRow(e: GroupedEntry, projects: map<int, string>, tags: map<int, string>, index: Index): (row: seq<Value>)
    requires |e.timeEntries| > 0
    ensures |row| == 8 + |Resolve(index, e.projectId, e.tagIds)|
    ensures row[8..] == Resolve(index, e.projectId, e.tagIds)
  {
    [Num(e.timeEntries[0].id),
     Num(e.projectId),
     if e.projectId in projects then Str(projects[e.projectId]) else Undefined,
     Str(DatePart(e.timeEntries[0].start)),
     Num(TotalMinutes(e.timeEntries)),
     Str(Join(IdTexts(e.tagIds), ';')),
     Str(Join(TagNames(e.tagIds, tags), ';')),
     Str(e.description)]
    + Resolve(index, e.projectId, e.tagIds)
  }

  /** parseReportData of the add-on (service/toggl.ts): the 14-name header, then one
      row per grouped entry in input order; fails on the first entry without time entries. */
  function ParseReportData(report: seq<GroupedEntry>, projects: map<int, string>, tags: map<int, string>, index: Index)
    : (r: Result<Grid, Error>)
    requires WellFormed(index)
    ensures r.Success? <==> forall i :: 0 <= i < |report| ==> |report[i].timeEntries| > 0
    ensures r.Failure? ==> r.error == NoTimeEntries(MissingTimeEntries(report).value)
    ensures r.Success? ==> (|r.value| == |report| + 1 && r.value[0] == ReportHeader
                            && forall i :: 0 <= i < |report| ==>
                                 |r.value[i + 1]| == 14 && r.value[i + 1] == ReportRow(report[i], projects, tags, index))
  {
    match MissingTimeEntries(report)
    case Some(i) => Failure(NoTimeEntries(i))
    case None =>
      var rows := ReportRows(report, projects, tags, index);
      var table := [ReportHeader] + rows;
      assert forall i :: 0 <= i < |report| ==> table[i + 1] == rows[i];
      Success(table)
  }

  /** The rows of the grouped entries, each 14 columns wide. */
  function ReportRows(report: seq<GroupedEntry>, projects: map<int, string>, tags: map<int, string>, index: Index)
    : (rows: Grid)
    requires WellFormed(index) && forall i :: 0 <= i < |report| ==> |report[i].timeEntries| > 0
    ensures |rows| == |report|
    ensures forall i :: 0 <= i < |report| ==> |rows[i]| == 14 && rows[i] == ReportRow(report[i], projects, tags, index)
  {
    var rows := seq(|report|, i requires 0 <= i < |report| => ReportRow(report[i], projects, tags, index));
    assert forall i :: 0 <= i < |report| ==> |rows[i]| == 14 by {
      forall i | 0 <= i < |report| ensures |rows[i]| == 14 {
        ResolveLength(index, report[i].projectId, report[i].tagIds);
      }
    }
    rows
  }

  /** The tagIds column splits on ';' back into the entry's tag ids, and the tagNames
      column has one segment per tag id, holding the tag's name or '' when unknown.
      An entry without tags has both cells '', which split into one empty piece. */
  lemma ReportRowTagColumns(e: GroupedEntry, projects: map<int, string>, tags: map<int, string>, index: Index)
    requires |e.timeEntries| > 0
    requires forall i :: 0 <= i < |e.tagIds| ==> e.tagIds[i] in tags ==> ';' !in tags[e.tagIds[i]]
    ensures var row := ReportRow(e, projects, tags, index);
      var ids := Split(row[5].s, ';');
      |e.tagIds| > 0 ==>
        |ids| == |e.tagIds| && forall i :: 0 <= i < |ids| ==> IsDecimal(ids[i]) && ParseInt(ids[i]) == e.tagIds[i]
    ensures var names := Split(ReportRow(e, projects, tags, index)[6].s, ';');
      |e.tagIds| > 0 ==>
        |names| == |e.tagIds| && forall i :: 0 <= i < |names| ==>
          names[i] == if e.tagIds[i] in tags then tags[e.tagIds[i]] else ""
    ensures var row := ReportRow(e, projects, tags, index);
      |e.tagIds| == 0 ==>
        row[5] == Str("") && row[6] == Str("") && Split(row[5].s, ';') == [""] && Split(row[6].s, ';') == [""]
  {
    if |e.tagIds| > 0 {
      var texts := IdTexts(e.tagIds);
      forall i | 0 <= i < |texts| ensures ';' !in texts[i] {
        IntToStringAvoids(e.tagIds[i], ';');
      }
      SplitJoin(texts, ';');
      forall i | 0 <= i < |texts| ensures ParseInt(texts[i]) == e.tagIds[i] {
        IntToStringRoundTrip(e.tagIds[i]);
      }
      SplitJoin(TagNames(e.tagIds, tags), ';');
    }
  }

  const BareHeader: seq<Value> := [Str("togglId"), Str("projectId"), Str("date"), Str("minutes"), Str("tagIds"), Str("description")]

  /** One row of parseReportData_ (src/toggl.ts): tag ids stay an array, no names, no destination. */
  function BareRow(e: GroupedEntry): (row: seq<Value>)
    requires |e.timeEntries| > 0
    ensures |row| == 6
  {
    [Num(e.timeEntries[0].id), Num(e.projectId), Str(DatePart(e.timeEntries[0].start)),
     Num(TotalMinutes(e.timeEntries)), IntList(e.tagIds), Str(e.description)]
  }

  /** parseReportData_: the 6-name header, then one 6-column row per grouped entry in
      input order; fails on the first entry without time entries. */
  function ParseBareReportData(report: seq<GroupedEntry>): (r: Result<Grid, Error>)
    ensures r.Success? <==> forall i :: 0 <= i < |report| ==> |report[i].timeEntries| > 0
    ensures r.Failure? ==> r.error == NoTimeEntries(MissingTimeEntries(report).value)
    ensures r.Success? ==> (|r.value| == |report| + 1 && r.value[0] == BareHeader
                            && forall i :: 0 <= i < |report| ==> |r.value[i + 1]| == 6 && r.value[i + 1] == BareRow(report[i]))
  {
    match MissingTimeEntries(report)
    case Some(i) => Failure(NoTimeEntries(i))
    case None => Success([BareHeader] + seq(|report|, i requires 0 <= i < |report| => BareRow(report[i])))
  }

  /** The two report shapes agree on a grouped entry: the bare row holds the same
      id, project, date, minutes and description as the add-on's row, and the tag
      ids that the add-on's row joins with ';'. */
  lemma BareAgreesWithReport(e: GroupedEntry, projects: map<int, string>, tags: map<int, string>, index: Index)
    requires |e.timeEntries| > 0
    ensures var bare := BareRow(e);
      var full := ReportRow(e, projects, tags, index);
      bare[0] == full[0] && bare[1] == full[1] && bare[2] == full[3] && bare[3] == full[4]
      && bare[5] == full[7] && full[5] == Str(Join(IdTexts(bare[4].ids), ';'))
  {
  }
}
