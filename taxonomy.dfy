/** The freee side of the catalog export: each freee project becomes rows
    [projectId, projectName, tagGroupId, tagGroupName, tagId, tagName], one per
    workload tag, and the rows of all projects are sorted by project name and then
    by tag id under a fixed header. */
module Taxonomy {
  import opened Values

  datatype Tag = Tag(id: int, name: string)
  datatype TagGroup = TagGroup(id: int, name: string, tags: seq<Tag>)

  /** A freee project with its workload tag groups; its other fields are not read. */
  datatype Project = Project(id: int, name: string, groups: seq<TagGroup>)

  /** The four tag columns of a row that names a tag. */
  datatype TagCell = TagCell(groupId: int, groupName: string, tagId: int, tagName: string)

  /** One row of the export; `cell` is None for the row of a project without tag
      groups, whose four tag columns are null. */
  datatype TaxonomyRow = TaxonomyRow(projectId: int, projectName: string, cell: Option<TagCell>)

  /** Column 4 of a row: the tag id, or null. */
  function TagId(r: TaxonomyRow): Option<int>
  {
    if r.cell.Some? then Some(r.cell.value.tagId) else None
  }

  function TagRow(p: Project, g: TagGroup, t: Tag): TaxonomyRow
  {
    TaxonomyRow(p.id, p.name, Some(TagCell(g.id, g.name, t.id, t.name)))
  }

  /** The rows of one tag group, one per tag in the group's order. */
  function GroupRows(p: Project, g: TagGroup): (rows: seq<TaxonomyRow>)
    ensures |rows| == |g.tags|
  {
    seq(|g.tags|, i requires 0 <= i < |g.tags| => TagRow(p, g, g.tags[i]))
  }

  /** The groups' rows, flattened in group order. */
  function GroupsRows(p: Project, groups: seq<TagGroup>): seq<TaxonomyRow>
  {
    if |groups| == 0 then [] else GroupRows(p, groups[0]) + GroupsRows(p, groups[1..])
  }

  /** parseProject: the rows of every tag of every group, or the single row with
      null tag columns when the project has no tag groups. */
  function ParseProject(p: Project): seq<TaxonomyRow>
  {
    if |p.groups| == 0 then [TaxonomyRow(p.id, p.name, None)] else GroupsRows(p, p.groups)
  }

  /** The number of tags over a list of groups. */
  function TagCount(groups: seq<TagGroup>): nat
  {
    if |groups| == 0 then 0 else |groups[0].tags| + TagCount(groups[1..])
  }

  /** Where a group's rows start: the tags of the groups before it. */
  function Offset(groups: seq<TagGroup>, g: nat): nat
    requires g <= |groups|
  {
    TagCount(groups[..g])
  }

  lemma {:induction false} GroupsRowsLength(p: Project, groups: seq<TagGroup>)
    ensures |GroupsRows(p, groups)| == TagCount(groups)
  {
    if |groups| > 0 {
      GroupsRowsLength(p, groups[1..]);
    }
  }

  /** Tag t of group g sits at Offset(groups, g) + t: groups in order, and tags in
      order inside each group. */
  lemma {:induction false} GroupsRowsAt(p: Project, groups: seq<TagGroup>, g: nat, t: nat)
    requires g < |groups| && t < |groups[g].tags|
    ensures Offset(groups, g) + t < |GroupsRows(p, groups)|
    ensures GroupsRows(p, groups)[Offset(groups, g) + t] == TagRow(p, groups[g], groups[g].tags[t])
  {
    GroupsRowsLength(p, groups);
    GroupsRowsLength(p, groups[1..]);
    if g == 0 {
      assert groups[..0] == [];
    } else {
      GroupsRowsAt(p, groups[1..], g - 1, t);
      assert groups[..g][1..] == groups[1..][..g - 1];
    }
  }

  lemma {:induction false} OffsetBound(groups: seq<TagGroup>, g: nat)
    requires g < |groups|
    ensures Offset(groups, g) + |groups[g].tags| <= TagCount(groups)
  {
    if g == 0 {
      assert groups[..0] == [];
    } else {
      OffsetBound(groups[1..], g - 1);
      assert groups[..g][1..] == groups[1..][..g - 1];
    }
  }

  /** A project with tag groups has one row per tag, no other, with tag t of group
      g at Offset(groups, g) + t. */
  lemma ParseProjectRows(p: Project, g: nat, t: nat)
    requires g < |p.groups| && t < |p.groups[g].tags|
    ensures |ParseProject(p)| == TagCount(p.groups)
    ensures Offset(p.groups, g) + t < |ParseProject(p)|
    ensures ParseProject(p)[Offset(p.groups, g) + t] == TagRow(p, p.groups[g], p.groups[g].tags[t])
  {
    GroupsRowsLength(p, p.groups);
    GroupsRowsAt(p, p.groups, g, t);
  }

  /** A project without tag groups yields exactly one row, whose tag columns are null. */
  lemma ParseProjectNoGroups(p: Project)
    requires |p.groups| == 0
    ensures |ParseProject(p)| == 1 && ParseProject(p)[0].cell.None?
    ensures ParseProject(p)[0].projectId == p.id && ParseProject(p)[0].projectName == p.name
  {
  }

  /** A project whose tag groups all have no tags yields no row at all. */
  lemma ParseProjectEmptyGroups(p: Project)
    requires |p.groups| > 0
    requires forall g :: 0 <= g < |p.groups| ==> |p.groups[g].tags| == 0
    ensures ParseProject(p) == []
  {
    EmptyGroupsRows(p, p.groups);
  }

  lemma {:induction false} EmptyGroupsRows(p: Project, groups: seq<TagGroup>)
    requires forall g :: 0 <= g < |groups| ==> |groups[g].tags| == 0
    ensures GroupsRows(p, groups) == []
  {
    if |groups| > 0 {
      EmptyGroupsRows(p, groups[1..]);
    }
  }

  /** Every row of a project carries that project's id and name. */
  lemma {:induction false} ParseProjectOwnRows(p: Project, groups: seq<TagGroup>)
    ensures forall k :: 0 <= k < |GroupsRows(p, groups)| ==>
      GroupsRows(p, groups)[k].projectId == p.id && GroupsRows(p, groups)[k].projectName == p.name
            && GroupsRows(p, groups)[k].cell.Some?
  {
    if |groups| > 0 {
      ParseProjectOwnRows(p, groups[1..]);
      var head := GroupRows(p, groups[0]);
      var rest := GroupsRows(p, groups[1..]);
      assert forall k :: |head| <= k < |head| + |rest| ==> (head + rest)[k] == rest[k - |head|];
    }
  }

  /** projects.map(parseProject).flat(): every project's rows, in project order. */
  function AllRows(projects: seq<Project>): seq<TaxonomyRow>
  {
    if |projects| == 0 then [] else ParseProject(projects[0]) + AllRows(projects[1..])
  }

  /** JavaScript's a < b on strings: the first differing character decides, and a
      proper prefix comes first. */
  predicate StrLess(a: string, b: string)
  {
    if |b| == 0 then false
    else if |a| == 0 then true
    else if a[0] != b[0] then a[0] < b[0]
    else StrLess(a[1..], b[1..])
  }

  lemma {:induction false} StrLessAsymmetric(a: string, b: string)
    ensures !(StrLess(a, b) && StrLess(b, a))
  {
    if |a| > 0 && |b| > 0 && a[0] == b[0] {
      StrLessAsymmetric(a[1..], b[1..]);
    }
  }

  lemma {:induction false} StrLessTotal(a: string, b: string)
    requires a != b
    ensures StrLess(a, b) || StrLess(b, a)
  {
    if |a| > 0 && |b| > 0 && a[0] == b[0] {
      assert a == [a[0]] + a[1..] && b == [b[0]] + b[1..];
      StrLessTotal(a[1..], b[1..]);
    }
  }

  lemma {:induction false} StrLessTransitive(a: string, b: string, c: string)
    requires StrLess(a, b) && StrLess(b, c)
    ensures StrLess(a, c)
  {
    if |a| > 0 && a[0] == b[0] && b[0] == c[0] {
      StrLessTransitive(a[1..], b[1..], c[1..]);
    }
  }

  /** The intended order on column 4: null first, then ids ascending. */
  predicate TagLess(x: Option<int>, y: Option<int>)
  {
    match (x, y)
    case (None, Some(_)) => true
    case (Some(m), Some(n)) => m < n
    case _ => false
  }

  /** Strictly before: by project name, then by tag id. */
  predicate RowLess(a: TaxonomyRow, b: TaxonomyRow)
  {
    StrLess(a.projectName, b.projectName) || (a.projectName == b.projectName && TagLess(TagId(a), TagId(b)))
  }

  /** Not after. */
  predicate RowLe(a: TaxonomyRow, b: TaxonomyRow)
  {
    !RowLess(b, a)
  }

  lemma RowLessAsymmetric(a: TaxonomyRow, b: TaxonomyRow)
    ensures !(RowLess(a, b) && RowLess(b, a))
  {
    StrLessAsymmetric(a.projectName, b.projectName);
  }

  /** Any two rows are ordered one way or the other. */
  lemma RowLeTotal(a: TaxonomyRow, b: TaxonomyRow)
    ensures RowLe(a, b) || RowLe(b, a)
  {
    RowLessAsymmetric(a, b);
  }

  lemma RowLessTotal(a: TaxonomyRow, b: TaxonomyRow)
    requires a.projectName != b.projectName || TagId(a) != TagId(b)
    ensures RowLess(a, b) || RowLess(b, a)
  {
    if a.projectName != b.projectName {
      StrLessTotal(a.projectName, b.projectName);
    }
  }

  lemma RowLessTransitive(a: TaxonomyRow, b: TaxonomyRow, c: TaxonomyRow)
    requires RowLess(a, b) && RowLess(b, c)
    ensures RowLess(a, c)
  {
    if StrLess(a.projectName, b.projectName) && StrLess(b.projectName, c.projectName) {
      StrLessTransitive(a.projectName, b.projectName, c.projectName);
    }
  }

  lemma RowLeTransitive(a: TaxonomyRow, b: TaxonomyRow, c: TaxonomyRow)
    requires RowLe(a, b) && RowLe(b, c)
    ensures RowLe(a, c)
  {
    if RowLess(c, a) {
      if (a.projectName != b.projectName || TagId(a) != TagId(b))
         && (b.projectName != c.projectName || TagId(b) != TagId(c)) {
        RowLessTotal(a, b);
        RowLessTotal(b, c);
        RowLessTransitive(a, b, c);
        RowLessAsymmetric(a, c);
      }
    }
  }

  /** Every row is not after any later row. */
  ghost predicate Sorted(rows: seq<TaxonomyRow>)
  {
    forall i, j :: 0 <= i < j < |rows| ==> RowLe(rows[i], rows[j])
  }

  predicate AdjacentSorted(rows: seq<TaxonomyRow>)
  {
    forall k :: 0 < k < |rows| ==> RowLe(rows[k - 1], rows[k])
  }

  /** Neighbours in order means all pairs in order, since the order is transitive. */
  lemma {:induction false} AdjacentSortedIsSorted(rows: seq<TaxonomyRow>)
    requires AdjacentSorted(rows)
    ensures Sorted(rows)
  {
    if |rows| > 1 {
      var init := rows[..|rows| - 1];
      assert AdjacentSorted(init) by {
        forall k | 0 < k < |init| ensures RowLe(init[k - 1], init[k]) {
          assert init[k - 1] == rows[k - 1] && init[k] == rows[k];
        }
      }
      AdjacentSortedIsSorted(init);
      var last := |rows| - 1;
      forall i, j | 0 <= i < j < |rows| ensures RowLe(rows[i], rows[j]) {
        if j < last {
          assert init[i] == rows[i] && init[j] == rows[j];
        } else if i < last - 1 {
          assert init[i] == rows[i] && init[last - 1] == rows[last - 1];
          RowLeTransitive(rows[i], rows[last - 1], rows[last]);
        }
      }
    }
  }

  /** Two ordered runs whose meeting neighbours are in order form one ordered run. */
  lemma AdjacentJoin(rows: seq<TaxonomyRow>, j: nat)
    requires j <= |rows| && AdjacentSorted(rows[..j]) && AdjacentSorted(rows[j..])
    requires 0 < j < |rows| ==> RowLe(rows[j - 1], rows[j])
    ensures AdjacentSorted(rows)
  {
    forall k | 0 < k < |rows| ensures RowLe(rows[k - 1], rows[k]) {
      if k < j {
        assert rows[..j][k - 1] == rows[k - 1] && rows[..j][k] == rows[k];
      } else if k > j {
        assert rows[j..][k - 1 - j] == rows[k - 1] && rows[j..][k - j] == rows[k];
      }
    }
  }

  /** One step of the insertion swaps the out-of-order pair at j - 1, j; the
      ordered run left of the pair stays ordered and still fits below the moving row. */
  lemma SwapKeepsLeft(s: seq<TaxonomyRow>, t: seq<TaxonomyRow>, j: nat)
    requires 0 < j < |s| && t == s[j - 1 := s[j]][j := s[j - 1]]
    requires AdjacentSorted(s[..j])
    ensures AdjacentSorted(t[..j - 1])
    ensures 0 < j - 1 ==> RowLe(t[j - 2], t[j])
  {
    assert t[..j - 1] == s[..j][..j - 1];
    if 0 < j - 1 {
      assert s[..j][j - 2] == s[j - 2] && s[..j][j - 1] == s[j - 1];
    }
  }

  /** After the swap the run from the moving row up to i is ordered. */
  lemma SwapKeepsRight(s: seq<TaxonomyRow>, t: seq<TaxonomyRow>, j: nat, i: nat)
    requires 0 < j <= i < |s| && t == s[j - 1 := s[j]][j := s[j - 1]]
    requires AdjacentSorted(s[j..i + 1])
    requires j < i ==> RowLe(s[j - 1], s[j + 1])
    requires !RowLe(s[j - 1], s[j])
    ensures AdjacentSorted(t[j - 1..i + 1])
  {
    RowLeTotal(s[j - 1], s[j]);
    var u := t[j - 1..i + 1];
    forall k | 0 < k < |u| ensures RowLe(u[k - 1], u[k]) {
      if k > 2 {
        assert u[k - 1] == s[j..i + 1][k - 2] && u[k] == s[j..i + 1][k - 1];
      }
    }
  }

  /** The insertion loop stops with the moving row at j, in order with its left
      neighbour: then the whole prefix up to i is ordered. */
  lemma InsertDone(rows: seq<TaxonomyRow>, j: nat, i: nat)
    requires j <= i < |rows|
    requires AdjacentSorted(rows[..j]) && AdjacentSorted(rows[j..i + 1])
    requires j > 0 ==> RowLe(rows[j - 1], rows[j])
    ensures AdjacentSorted(rows[..i + 1])
  {
    assert rows[..i + 1][..j] == rows[..j] && rows[..i + 1][j..] == rows[j..i + 1];
    AdjacentJoin(rows[..i + 1], j);
  }

  /** The rows with the pair at j - 1, j exchanged. */
  function Swap(s: seq<TaxonomyRow>, j: nat): (t: seq<TaxonomyRow>)
    requires 0 < j < |s|
    ensures |t| == |s| && multiset(t) == multiset(s)
  {
    s[j - 1 := s[j]][j := s[j - 1]]
  }

  /** One pass of the insertion loop: its invariant holds again after the swap,
      one position further down. */
  lemma InsertStep(s: seq<TaxonomyRow>, j: nat, i: nat)
    requires 0 < j <= i < |s|
    requires AdjacentSorted(s[..j]) && AdjacentSorted(s[j..i + 1])
    requires j < i ==> RowLe(s[j - 1], s[j + 1])
    requires !RowLe(s[j - 1], s[j])
    ensures var t := Swap(s, j);
      AdjacentSorted(t[..j - 1]) && AdjacentSorted(t[j - 1..i + 1])
      && (0 < j - 1 < i ==> RowLe(t[j - 2], t[j]))
      && t[i + 1..] == s[i + 1..]
  {
    var t := Swap(s, j);
    SwapKeepsLeft(s, t, j);
    SwapKeepsRight(s, t, j, i);
    assert t[i + 1..] == s[i + 1..];
  }

  /** output.sort(comparator), done in place: afterwards the rows are in order and
      are the same rows as before. */
  method SortRows(a: array<TaxonomyRow>)
    modifies a
    ensures Sorted(a[..])
    ensures multiset(a[..]) == multiset(old(a[..]))
  {
    var i := 0;
    while i < a.Length
      invariant 0 <= i <= a.Length
      invariant AdjacentSorted(a[..i])
      invariant multiset(a[..]) == multiset(old(a[..]))
    {
      InsertLast(a, i);
      i := i + 1;
    }
    assert a[..a.Length] == a[..];
    AdjacentSortedIsSorted(a[..]);
  }

  /** Moves a[i] down into the ordered prefix a[..i], keeping the rest of the array. */
  method InsertLast(a: array<TaxonomyRow>, i: nat)
    requires i < a.Length && AdjacentSorted(a[..i])
    modifies a
    ensures AdjacentSorted(a[..i + 1])
    ensures a[i + 1..] == old(a[i + 1..])
    ensures multiset(a[..]) == multiset(old(a[..]))
  {
    var j := i;
    ghost var rows := a[..];
    while j > 0 && !RowLe(a[j - 1], a[j])
      invariant 0 <= j <= i && a[..] == rows && |rows| == a.Length
      invariant AdjacentSorted(rows[..j]) && AdjacentSorted(rows[j..i + 1])
      invariant 0 < j < i ==> RowLe(rows[j - 1], rows[j + 1])
      invariant rows[i + 1..] == old(a[i + 1..])
      invariant multiset(rows) == multiset(old(a[..]))
    {
      InsertStep(rows, j, i);
      a[j - 1], a[j] := a[j], a[j - 1];
      rows := Swap(rows, j);
      assert a[..] == rows;
      j := j - 1;
    }
    InsertDone(rows, j, i);
  }

  /** The comparator as written: names with `==` and `>`, then column 4 with `==`
      and `>`. In `>` a null cell is converted to the number 0, while `==` finds
      null equal to null only. */
  function JsCompare(a: TaxonomyRow, b: TaxonomyRow): (c: int)
    ensures -1 <= c <= 1
  {
    if a.projectName == b.projectName then
      if TagId(a) == TagId(b) then 0
      else if NumberOf(TagId(a)) > NumberOf(TagId(b)) then 1
      else -1
    else if StrLess(b.projectName, a.projectName) then 1
    else -1
  }

  /** Number(x) of a tag id cell: null is 0. */
  function NumberOf(x: Option<int>): int
  {
    if x.Some? then x.value else 0
  }

  /** A tag id cell freee fills: null, or a positive id. */
  predicate PositiveOrNull(x: Option<int>)
  {
    x.None? || x.value > 0
  }

  /** On the cells freee produces, the comparator as written is the intended
      order: negative exactly when the first row is before, positive exactly when
      it is after, zero exactly when name and tag id agree. */
  lemma JsCompareAgrees(a: TaxonomyRow, b: TaxonomyRow)
    requires PositiveOrNull(TagId(a)) && PositiveOrNull(TagId(b))
    ensures JsCompare(a, b) < 0 <==> RowLess(a, b)
    ensures JsCompare(a, b) > 0 <==> RowLess(b, a)
    ensures JsCompare(a, b) == 0 <==> (a.projectName == b.projectName && TagId(a) == TagId(b))
  {
    RowLessAsymmetric(a, b);
    if a.projectName != b.projectName {
      StrLessTotal(a.projectName, b.projectName);
    }
  }

  /** The comparator as written is not antisymmetric once a tag id is 0: a null
      cell and a 0 cell under the same name each compare as before the other. */
  lemma JsCompareNullZero()
    ensures var none := TaxonomyRow(1, "p", None);
      var zero := TaxonomyRow(2, "p", Some(TagCell(3, "g", 0, "t")));
      JsCompare(none, zero) == -1 && JsCompare(zero, none) == -1
  {
  }

  /** The comparator the sort is modelled with: the sign of the intended order. */
  function RowCompare(a: TaxonomyRow, b: TaxonomyRow): int
  {
    if RowLess(a, b) then -1 else if RowLess(b, a) then 1 else 0
  }

  /** The corrected comparator is antisymmetric, so the null-and-0 pair above is
      ordered consistently: null first. */
  lemma RowCompareAntisymmetric(a: TaxonomyRow, b: TaxonomyRow)
    ensures RowCompare(a, b) == -RowCompare(b, a)
    ensures a.projectName == b.projectName && TagId(a).None? && TagId(b).Some? ==> RowCompare(a, b) == -1
  {
    RowLessAsymmetric(a, b);
  }

  const TaxonomyHeader: seq<Value> := [
    Str("freeeProjectId"), Str("freeeProjectName"), Str("freeeTagGroupId"),
    Str("freeeTagGroupName"), Str("freeeTagId"), Str("freeeTagName")]

  /** The six sheet cells of a row. */
  function RowCells(r: TaxonomyRow): (cells: seq<Value>)
    ensures |cells| == 6
  {
    match r.cell
    case None => [Num(r.projectId), Str(r.projectName), Null, Null, Null, Null]
    case Some(c) => [Num(r.projectId), Str(r.projectName), Num(c.groupId), Str(c.groupName), Num(c.tagId), Str(c.tagName)]
  }

  /** Distinct rows give distinct cells, so a permutation of the cells is a
      permutation of the rows. */
  lemma RowCellsInjective(a: TaxonomyRow, b: TaxonomyRow)
    ensures RowCells(a) == RowCells(b) ==> a == b
  {
    if RowCells(a) == RowCells(b) {
      assert RowCells(a)[2] == RowCells(b)[2];
      assert RowCells(a)[0] == RowCells(b)[0] && RowCells(a)[1] == RowCells(b)[1];
      if a.cell.Some? {
        assert RowCells(a)[3] == RowCells(b)[3] && RowCells(a)[4] == RowCells(b)[4] && RowCells(a)[5] == RowCells(b)[5];
      }
    }
  }

  /** getProjectsTags over the fetched projects: every project's rows, sorted, under
      the 6-name header added after the sort. `rows` are the sorted rows behind the
      table's data lines. */
  method GetProjectsTags(projects: seq<Project>) returns (output: Grid, rows: seq<TaxonomyRow>)
    ensures |output| == |AllRows(projects)| + 1 && output[0] == TaxonomyHeader
    ensures Sorted(rows) && multiset(rows) == multiset(AllRows(projects))
    ensures |rows| + 1 == |output| && forall k :: 0 <= k < |rows| ==> output[k + 1] == RowCells(rows[k])
  {
    var all := AllRows(projects);
    var a := new TaxonomyRow[|all|](i requires 0 <= i < |all| => all[i]);
    assert a[..] == all;
    SortRows(a);
    rows := a[..];
    assert |rows| == |multiset(rows)| == |multiset(all)| == |all|;
    output := [TaxonomyHeader] + seq(|rows|, k requires 0 <= k < |rows| => RowCells(rows[k]));
  }
}
