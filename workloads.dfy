/** entryWorkloads: every record of a sheet becomes one freee workload, submitted
    in sheet order; the first refused submission ends the run. */
module Workloads {
  import opened Text
  import opened Values
  import opened Sheets
  import opened CrossMap
  import opened Report

  datatype WorkloadTag = WorkloadTag(tagGroupId: Value, tagId: Value)

  /** The body posted to /pm/workloads. The cells are passed on as read. */
  datatype WorkloadInput = WorkloadInput(
    companyId: int, projectId: Value, date: string, minutes: Value, memo: Value,
    workloadTags: Option<seq<WorkloadTag>>)

  /** row['freeeTagGroupId'] != null && row['freeeTagGroupId'] != '' */
  predicate HasTagGroup(row: Record)
  {
    var group := Field(row, "freeeTagGroupId");
    !LooselyNull(group) && !LooselyEmpty(group)
  }

  /** The payload of one record, given the formatted date. */
  function Payload(companyId: int, row: Record, date: string): WorkloadInput
  {
    WorkloadInput(companyId, Field(row, "freeeProjectId"), date, Field(row, "minutes"), Field(row, "description"),
                  if HasTagGroup(row) then Some([WorkloadTag(Field(row, "freeeTagGroupId"), Field(row, "freeeTagId"))])
                  else None)
  }

  /** The text handed to new Date(...): String(row['date']). */
  function DateText(row: Record): string
  {
    ToText(Field(row, "date"))
  }

  /** The run's outcome and the payloads that reached the API, in order. */
  datatype Submission = Submission(outcome: Result<nat, Error>, sent: seq<WorkloadInput>)

  /** Submitting records[k..]: `formatDate` stands for formatDate(new Date(text)),
      None when it throws; `rejected` holds the payloads the API refuses. On
      success the count is the number of records. */
  function SubmitFrom(companyId: int, records: seq<Record>, k: nat, formatDate: string -> Option<string>,
                      rejected: set<WorkloadInput>): Submission
    requires k <= |records|
    decreases |records| - k
  {
    if k == |records| then Submission(Success(|records|), [])
    else match formatDate(DateText(records[k]))
      case None => Submission(Failure(InvalidDate(k)), [])
      case Some(date) =>
        var w := Payload(companyId, records[k], date);
        if w in rejected then Submission(Failure(WorkloadRejected(k)), [w])
        else
          var rest := SubmitFrom(companyId, records, k + 1, formatDate, rejected);
          Submission(rest.outcome, [w] + rest.sent)
  }

  /** The index of the record a failure names. */
  function FailedAt(e: Error): nat
  {
    match e
    case InvalidDate(i) => i
    case WorkloadRejected(i) => i
    case _ => 0
  }

  /** Records go out in sheet order, one payload each: the i-th payload sent is
      the payload of record k + i, which got a date. */
  lemma {:induction false} SubmitSentAt(companyId: int, records: seq<Record>, k: nat,
                                        formatDate: string -> Option<string>, rejected: set<WorkloadInput>, i: nat)
    requires k <= |records| && i < |SubmitFrom(companyId, records, k, formatDate, rejected).sent|
    ensures k + i < |records| && formatDate(DateText(records[k + i])).Some?
    ensures SubmitFrom(companyId, records, k, formatDate, rejected).sent[i]
         == Payload(companyId, records[k + i], formatDate(DateText(records[k + i])).value)
    decreases i
  {
    if i > 0 {
      SubmitSentAt(companyId, records, k + 1, formatDate, rejected, i - 1);
    }
  }

  /** A run succeeds exactly when every record got a date and was accepted; it
      then sent one payload per record and counts them all. */
  lemma {:induction false} SubmitSuccess(companyId: int, records: seq<Record>, k: nat,
                                         formatDate: string -> Option<string>, rejected: set<WorkloadInput>)
    requires k <= |records|
    ensures var s := SubmitFrom(companyId, records, k, formatDate, rejected);
      s.outcome.Success? <==>
        (forall i :: k <= i < |records| ==>
           formatDate(DateText(records[i])).Some?
           && Payload(companyId, records[i], formatDate(DateText(records[i])).value) !in rejected)
    ensures var s := SubmitFrom(companyId, records, k, formatDate, rejected);
      s.outcome.Success? ==> s.outcome.value == |records| && |s.sent| == |records| - k
    decreases |records| - k
  {
    if k < |records| {
      SubmitSuccess(companyId, records, k + 1, formatDate, rejected);
    }
  }

  /** A failure names the first record whose date could not be formatted or whose
      payload was refused: every record before it got a date and was accepted,
      nothing after it is sent, and a refused payload is the last one sent. */
  lemma {:induction false} SubmitFailure(companyId: int, records: seq<Record>, k: nat,
                                         formatDate: string -> Option<string>, rejected: set<WorkloadInput>)
    requires k <= |records|
    ensures var s := SubmitFrom(companyId, records, k, formatDate, rejected);
      s.outcome.Failure? ==>
        ((s.outcome.error.InvalidDate? || s.outcome.error.WorkloadRejected?)
         && k <= FailedAt(s.outcome.error) < |records|
         && (forall i :: k <= i < FailedAt(s.outcome.error) ==>
               formatDate(DateText(records[i])).Some?
               && Payload(companyId, records[i], formatDate(DateText(records[i])).value) !in rejected)
         && (s.outcome.error.InvalidDate? ==>
               |s.sent| == FailedAt(s.outcome.error) - k
               && formatDate(DateText(records[FailedAt(s.outcome.error)])).None?)
         && (s.outcome.error.WorkloadRejected? ==>
               |s.sent| == FailedAt(s.outcome.error) - k + 1 && s.sent[|s.sent| - 1] in rejected))
    decreases |records| - k
  {
    if k < |records| && formatDate(DateText(records[k])).Some? {
      var w := Payload(companyId, records[k], formatDate(DateText(records[k])).value);
      if w !in rejected {
        SubmitFailure(companyId, records, k + 1, formatDate, rejected);
      }
    }
  }

  /** One step of the run at record k, for the loop of EntryWorkloads. */
  lemma SubmitStep(companyId: int, records: seq<Record>, k: nat, formatDate: string -> Option<string>,
                   rejected: set<WorkloadInput>)
    requires k < |records|
    ensures var s := SubmitFrom(companyId, records, k, formatDate, rejected);
      var date := formatDate(DateText(records[k]));
      (date.None? ==> s == Submission(Failure(InvalidDate(k)), []))
      && (date.Some? ==>
            var w := Payload(companyId, records[k], date.value);
            var rest := SubmitFrom(companyId, records, k + 1, formatDate, rejected);
            s == if w in rejected then Submission(Failure(WorkloadRejected(k)), [w])
                 else Submission(rest.outcome, [w] + rest.sent))
  {
  }

  /** The freee workload endpoint: it refuses the payloads in `rejected` and logs
      every payload posted to it. */
  class WorkloadApi {
    const rejected: set<WorkloadInput>
    var submitted: seq<WorkloadInput>

    constructor (refused: set<WorkloadInput>)
      ensures rejected == refused && submitted == []
    {
      rejected := refused;
      submitted := [];
    }

    /** entryWorkload: one POST; false when the API refuses it. */
    method EntryWorkload(w: WorkloadInput) returns (ok: bool)
      modifies this
      ensures submitted == old(submitted) + [w]
      ensures ok <==> w !in rejected
    {
      submitted := submitted + [w];
      ok := w !in rejected;
    }
  }

  /** The whole run: a missing sheet fails before anything is sent. */
  function EntryOutcome(sheets: map<string, Grid>, sheetName: string, companyId: int,
                        formatDate: string -> Option<string>, rejected: set<WorkloadInput>): Submission
  {
    if sheetName !in sheets then Submission(Failure(SheetNotFound(sheetName)), [])
    else SubmitFrom(companyId, SheetRecords(sheets[sheetName]), 0, formatDate, rejected)
  }

  /** entryWorkloads(companyId, sheetName): reads the sheet's records and submits
      one payload per record in order, rethrowing on the first failure. */
  method EntryWorkloads(api: WorkloadApi, ss: Spreadsheet, companyId: int, sheetName: string,
                        formatDate: string -> Option<string>) returns (r: Result<nat, Error>)
    modifies api
    ensures var s := EntryOutcome(ss.sheets, sheetName, companyId, formatDate, api.rejected);
      r == s.outcome && api.submitted == old(api.submitted) + s.sent
  {
    var data := ss.GetSheetAsJson(sheetName);
    if data.Failure? {
      return Failure(data.error);
    }
    r := SubmitRecords(api, companyId, data.value, formatDate);
  }

  /** The loop of entryWorkloads over the records read from the sheet. */
  method SubmitRecords(api: WorkloadApi, companyId: int, records: seq<Record>,
                       formatDate: string -> Option<string>) returns (r: Result<nat, Error>)
    modifies api
    ensures var s := SubmitFrom(companyId, records, 0, formatDate, api.rejected);
      r == s.outcome && api.submitted == old(api.submitted) + s.sent
  {
    ghost var all := SubmitFrom(companyId, records, 0, formatDate, api.rejected);
    ghost var pending := all;
    var count := 0;
    while count < |records|
      invariant 0 <= count <= |records|
      invariant pending == SubmitFrom(companyId, records, count, formatDate, api.rejected)
      invariant pending.outcome == all.outcome
      invariant old(api.submitted) + all.sent == api.submitted + pending.sent
    {
      SubmitStep(companyId, records, count, formatDate, api.rejected);
      var date := formatDate(DateText(records[count]));
      if date.None? {
        assert api.submitted + [] == api.submitted;
        return Failure(InvalidDate(count));
      }
      var entry := Payload(companyId, records[count], date.value);
      ghost var before := api.submitted;
      ghost var rest := SubmitFrom(companyId, records, count + 1, formatDate, api.rejected);
      var ok := api.EntryWorkload(entry);
      if !ok {
        assert pending.sent == [entry];
        return Failure(WorkloadRejected(count));
      }
      assert pending.sent == [entry] + rest.sent;
      assert before + ([entry] + rest.sent) == api.submitted + rest.sent;
      pending := rest;
      count := count + 1;
    }
    assert api.submitted + [] == api.submitted;
    return Success(count);
  }

  /** A payload carries tags exactly when the group cell is neither null, undefined
      nor loosely '', and then exactly one (group, tag) pair from the record. */
  lemma PayloadTags(companyId: int, row: Record, date: string)
    ensures var w := Payload(companyId, row, date);
      (w.workloadTags.Some? <==>
         (!LooselyNull(Field(row, "freeeTagGroupId")) && !LooselyEmpty(Field(row, "freeeTagGroupId"))))
      && (w.workloadTags.Some? ==>
            w.workloadTags.value == [WorkloadTag(Field(row, "freeeTagGroupId"), Field(row, "freeeTagId"))])
  {
  }

  /** A numeric 0 group id counts as empty under loose `!=`, so such a row is sent
      without tags, while a group id of 1 gets its pair. */
  lemma ZeroGroupHasNoTags(row: Record, date: string)
    ensures Payload(1, row[("freeeTagGroupId") := Num(0)], date).workloadTags.None?
    ensures Payload(1, row[("freeeTagGroupId") := Num(1)], date).workloadTags.Some?
  {
  }

  /** The 14 names of the report header are distinct, so reading a report row back
      as a record keeps every column. Lengths tell all of them apart except two
      pairs, which differ in their first letter. */
  lemma ReportHeaderDistinct()
    ensures DistinctHeaders(ReportHeader)
  {
    var lengths := [7, 9, 11, 4, 7, 6, 8, 11, 14, 16, 15, 17, 10, 12];
    forall k | 0 <= k < 14 ensures ReportHeader[k].Str? && |ToText(ReportHeader[k])| == lengths[k] {
    }
    forall i, j | 0 <= i < j < |ReportHeader| ensures ToText(ReportHeader[i]) != ToText(ReportHeader[j]) {
      if lengths[i] == lengths[j] {
        assert ToText(ReportHeader[i])[0] != ToText(ReportHeader[j])[0];
      }
    }
  }

  /** End to end: a row of the add-on's report, written under the 14-name header and
      read back as a record, becomes the payload of its freee destination: project
      from the destination, the entry's rounded minutes and description as memo,
      and no tags when the Toggl project is not mapped. */
  lemma ReportRowPayload(e: GroupedEntry, projects: map<int, string>, tags: map<int, string>, index: Index,
                         companyId: int, date: string)
    requires |e.timeEntries| > 0 && WellFormed(index)
    ensures var row := RowRecord(ReportHeader, ReportRow(e, projects, tags, index));
      var w := Payload(companyId, row, date);
      var d := Resolve(index, e.projectId, e.tagIds);
      |d| == 6 && w.projectId == d[0] && w.minutes == Num(TotalMinutes(e.timeEntries))
      && w.memo == Str(e.description) && DateText(row) == DatePart(e.timeEntries[0].start)
      && (w.workloadTags.Some? <==> !LooselyNull(d[2]) && !LooselyEmpty(d[2]))
      && (IntToString(e.projectId) !in index ==> w.workloadTags.None?)
  {
    var values := ReportRow(e, projects, tags, index);
    ResolveLength(index, e.projectId, e.tagIds);
    ReportHeaderDistinct();
    RowRecordLastWins(ReportHeader, values, 3);
    RowRecordLastWins(ReportHeader, values, 4);
    RowRecordLastWins(ReportHeader, values, 7);
    RowRecordLastWins(ReportHeader, values, 8);
    RowRecordLastWins(ReportHeader, values, 10);
    RowRecordLastWins(ReportHeader, values, 12);
    assert values[8..][0] == values[8] && values[8..][2] == values[10];
  }
}
