/** TogglFreeeMap: the index built from the TOGGL_FREEE_MAP sheet that turns a
    Toggl (project, tags) pair into the freee destination six-tuple. Keys are the
    text of the sheet cells, as JavaScript object keys are. */
module CrossMap {
  import opened Text
  import opened Values

  /** [freeeProjectId, freeeProjectName, freeeTagGroupId, freeeTagGroupName, freeeTagId, freeeTagName] */
  type Destination = seq<Value>

  /** Toggl project key -> (Toggl tag key -> destination); the tag key '' is the project's wildcard row. */
  type Index = map<string, map<string, Destination>>

  const NoDestination: Destination := [Str(""), Str(""), Str(""), Str(""), Str(""), Str("")]

  function ProjectKey(row: Record): string { ToText(Field(row, "togglProjectId")) }

  function TagKey(row: Record): string { ToText(Field(row, "togglTagId")) }

  function DestinationOf(row: Record): (d: Destination)
    ensures |d| == 6
  {
    [Field(row, "freeeProjectId"), Field(row, "freeeProjectName"),
     Field(row, "freeeTagGroupId"), Field(row, "freeeTagGroupName"),
     Field(row, "freeeTagId"), Field(row, "freeeTagName")]
  }

  predicate Matches(row: Record, project: string, tag: string)
  {
    ProjectKey(row) == project && TagKey(row) == tag
  }

  /** Every destination held by the index is a six-tuple. */
  ghost predicate WellFormed(index: Index)
  {
    forall p, t :: p in index && t in index[p] ==> |index[p][t]| == 6
  }

  /** The index after the constructor's forEach over the sheet rows: each row
      writes its destination under its (project, tag) keys into the project's one
      inner map, creating that map on the project's first row. */
  function BuildIndex(rows: seq<Record>): Index
  {
    if |rows| == 0 then map[]
    else
      var index := BuildIndex(rows[..|rows| - 1]);
      var row := rows[|rows| - 1];
      var inner := if ProjectKey(row) in index then index[ProjectKey(row)] else map[];
      index[ProjectKey(row) := inner[TagKey(row) := DestinationOf(row)]]
  }

  lemma {:induction false} BuildIndexWellFormed(rows: seq<Record>)
    ensures WellFormed(BuildIndex(rows))
  {
    if |rows| > 0 {
      BuildIndexWellFormed(rows[..|rows| - 1]);
    }
  }

  /** A project is in the index exactly when some row names it. */
  lemma {:induction false} BuildIndexProjects(rows: seq<Record>, project: string)
    ensures project in BuildIndex(rows) <==> exists i :: 0 <= i < |rows| && ProjectKey(rows[i]) == project
  {
    if |rows| > 0 {
      var init := rows[..|rows| - 1];
      BuildIndexProjects(init, project);
      if exists i :: 0 <= i < |rows| && ProjectKey(rows[i]) == project {
        var i :| 0 <= i < |rows| && ProjectKey(rows[i]) == project;
        if i < |init| { assert init[i] == rows[i]; }
      }
      if exists i :: 0 <= i < |init| && ProjectKey(init[i]) == project {
        var i :| 0 <= i < |init| && ProjectKey(init[i]) == project;
        assert rows[i] == init[i];
      }
    }
  }

  /** Keys are only ever added: every row's (project, tag) pair is in the index. */
  lemma {:induction false} BuildIndexHasRow(rows: seq<Record>, i: nat)
    requires i < |rows|
    ensures ProjectKey(rows[i]) in BuildIndex(rows) && TagKey(rows[i]) in BuildIndex(rows)[ProjectKey(rows[i])]
  {
    var init := rows[..|rows| - 1];
    if i < |init| {
      assert init[i] == rows[i];
      BuildIndexHasRow(init, i);
    }
  }

  /** Every (project, tag) pair of the index comes from some row. */
  lemma {:induction false} BuildIndexOnlyRows(rows: seq<Record>, project: string, tag: string)
    requires project in BuildIndex(rows) && tag in BuildIndex(rows)[project]
    ensures exists i :: 0 <= i < |rows| && Matches(rows[i], project, tag)
  {
    var init := rows[..|rows| - 1];
    if !Matches(rows[|rows| - 1], project, tag) {
      BuildIndexOnlyRows(init, project, tag);
      var i :| 0 <= i < |init| && Matches(init[i], project, tag);
      assert rows[i] == init[i];
    }
  }

  /** A project's inner map holds exactly the tag keys of that project's rows. */
  lemma BuildIndexKeys(rows: seq<Record>, project: string, tag: string)
    requires project in BuildIndex(rows)
    ensures tag in BuildIndex(rows)[project] <==> exists i :: 0 <= i < |rows| && Matches(rows[i], project, tag)
  {
    if tag in BuildIndex(rows)[project] {
      BuildIndexOnlyRows(rows, project, tag);
    }
    if exists i :: 0 <= i < |rows| && Matches(rows[i], project, tag) {
      var i :| 0 <= i < |rows| && Matches(rows[i], project, tag);
      BuildIndexHasRow(rows, i);
    }
  }

  /** A later row with the same (project, tag) keys overwrites an earlier one: the
      index holds the destination of the last matching row. */
  lemma {:induction false} BuildIndexLastWins(rows: seq<Record>, i: nat)
    requires i < |rows|
    requires forall j :: i < j < |rows| ==> !Matches(rows[j], ProjectKey(rows[i]), TagKey(rows[i]))
    ensures ProjectKey(rows[i]) in BuildIndex(rows)
    ensures TagKey(rows[i]) in BuildIndex(rows)[ProjectKey(rows[i])]
    ensures BuildIndex(rows)[ProjectKey(rows[i])][TagKey(rows[i])] == DestinationOf(rows[i])
  {
    var init := rows[..|rows| - 1];
    if i < |init| {
      assert init[i] == rows[i];
      BuildIndexLastWins(init, i);
    }
  }

  /** The destination of the first tag id, in the entry's order, that the project's inner map holds. */
  function FirstMapped(inner: map<string, Destination>, tagIds: seq<int>): (r: Option<Destination>)
    ensures r.Some? <==> exists i :: 0 <= i < |tagIds| && IntToString(tagIds[i]) in inner
  {
    if |tagIds| == 0 then None
    else if IntToString(tagIds[0]) in inner then Some(inner[IntToString(tagIds[0])])
    else
      var r := FirstMapped(inner, tagIds[1..]);
      assert forall i :: 1 <= i < |tagIds| ==> tagIds[1..][i - 1] == tagIds[i];
      r
  }

  /** getFreeeProjectTag as a value: an unknown project gives six empty strings;
      otherwise the first mapped tag id wins; otherwise the project's wildcard row
      (tag key ''); otherwise six empty strings. */
  function Resolve(index: Index, projectId: int, tagIds: seq<int>): Destination
  {
    var project := IntToString(projectId);
    if project !in index then NoDestination
    else match FirstMapped(index[project], tagIds)
      case Some(d) => d
      case None => if "" in index[project] then index[project][""] else NoDestination
  }

  /** An unknown project resolves to six empty strings, whatever its tags. */
  lemma ResolveUnknownProject(index: Index, projectId: int, tagIds: seq<int>)
    requires IntToString(projectId) !in index
    ensures Resolve(index, projectId, tagIds) == NoDestination
  {
  }

  /** When several tag ids are mapped, the first of them in the entry's order decides. */
  lemma {:induction false} ResolveFirstMatch(index: Index, projectId: int, tagIds: seq<int>, i: nat)
    requires IntToString(projectId) in index
    requires i < |tagIds| && IntToString(tagIds[i]) in index[IntToString(projectId)]
    requires forall j :: 0 <= j < i ==> IntToString(tagIds[j]) !in index[IntToString(projectId)]
    ensures Resolve(index, projectId, tagIds) == index[IntToString(projectId)][IntToString(tagIds[i])]
  {
    FirstMappedAt(index[IntToString(projectId)], tagIds, i);
  }

  lemma {:induction false} FirstMappedAt(inner: map<string, Destination>, tagIds: seq<int>, i: nat)
    requires i < |tagIds| && IntToString(tagIds[i]) in inner
    requires forall j :: 0 <= j < i ==> IntToString(tagIds[j]) !in inner
    ensures FirstMapped(inner, tagIds) == Some(inner[IntToString(tagIds[i])])
  {
    if i > 0 {
      FirstMappedAt(inner, tagIds[1..], i - 1);
    }
  }

  /** When none of the tag ids is mapped, the project's wildcard row answers if it
      exists, and six empty strings otherwise. */
  lemma ResolveWildcard(index: Index, projectId: int, tagIds: seq<int>)
    requires IntToString(projectId) in index
    requires forall j :: 0 <= j < |tagIds| ==> IntToString(tagIds[j]) !in index[IntToString(projectId)]
    ensures var inner := index[IntToString(projectId)];
      Resolve(index, projectId, tagIds) == if "" in inner then inner[""] else NoDestination
  {
  }

  /** The wildcard row never shadows a tag: no tag id's text is ''. */
  lemma WildcardIsNoTag(tagId: int)
    ensures IntToString(tagId) != ""
  {
  }

  /** A resolution is always a six-tuple, so a report row always has 8 + 6 columns. */
  lemma ResolveLength(index: Index, projectId: int, tagIds: seq<int>)
    requires WellFormed(index)
    ensures |Resolve(index, projectId, tagIds)| == 6
  {
    var project := IntToString(projectId);
    if project in index {
      var r := FirstMapped(index[project], tagIds);
      if r.Some? {
        var i :| 0 <= i < |tagIds| && IntToString(tagIds[i]) in index[project];
        FirstMappedIn(index[project], tagIds);
      }
    }
  }

  lemma {:induction false} FirstMappedIn(inner: map<string, Destination>, tagIds: seq<int>)
    ensures FirstMapped(inner, tagIds).Some? ==> FirstMapped(inner, tagIds).value in inner.Values
  {
    if |tagIds| > 0 && IntToString(tagIds[0]) !in inner {
      FirstMappedIn(inner, tagIds[1..]);
    }
  }

  class TogglFreeeMap {
    const tfMap: Index

    /** new TogglFreeeMap(data) over the records of the TOGGL_FREEE_MAP sheet. */
    constructor (data: seq<Record>)
      ensures tfMap == BuildIndex(data)
    {
      var index: Index := map[];
      var k := 0;
      while k < |data|
        invariant 0 <= k <= |data|
        invariant index == BuildIndex(data[..k])
      {
        var row := data[k];
        assert data[..k + 1][..k] == data[..k];
        var inner := if ProjectKey(row) in index then index[ProjectKey(row)] else map[];
        index := index[ProjectKey(row) := inner[TagKey(row) := DestinationOf(row)]];
        k := k + 1;
      }
      assert data[..|data|] == data;
      tfMap := index;
    }

    /** getFreeeProjectTag(toggleProjectId, toggleTagIds). */
    method GetFreeeProjectTag(projectId: int, tagIds: seq<int>) returns (d: Destination)
      ensures d == Resolve(tfMap, projectId, tagIds)
    {
      var project := IntToString(projectId);
      if project !in tfMap {
        return NoDestination;
      }
      var tagMap := tfMap[project];
      var i := 0;
      while i < |tagIds|
        invariant 0 <= i <= |tagIds|
        invariant forall j :: 0 <= j < i ==> IntToString(tagIds[j]) !in tagMap
      {
        var id := IntToString(tagIds[i]);
        if id in tagMap {
          FirstMappedAt(tagMap, tagIds, i);
          return tagMap[id];
        }
        i := i + 1;
      }
      if "" in tagMap {
        return tagMap[""];
      }
      return NoDestination;
    }

    /** get(toggleProjectId): the project's inner map, or undefined. */
    method Get(projectId: int) returns (r: Option<map<string, Destination>>)
      ensures r.Some? <==> IntToString(projectId) in tfMap
      ensures r.Some? ==> r.value == tfMap[IntToString(projectId)]
    {
      var project := IntToString(projectId);
      if project in tfMap {
        return Some(tfMap[project]);
      }
      return None;
    }
  }
}
