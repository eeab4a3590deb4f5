/**
 * The dashboard's single query against the reports of each collection, and what
 * the tallies of a report mean.
 */
module CoverageAgreement {
  import opened Wrappers
  import opened Schema
  import opened Coverage

  // ---------------------------------------------------------------------
  // One query for the organization gives the same reports

  /** The rows of one collection among the rows of the organization. */
  function RowsOf(rows: seq<OrgRow>, coll: Id): seq<Row> {
    if rows == [] then []
    else
      var row := rows[|rows| - 1];
      RowsOf(rows[..|rows| - 1], coll) + if row.coll == coll && row.row.Some? then [row.row.value] else []
  }

  lemma RowsSnoc(init: seq<OrgRow>, row: OrgRow, coll: Id)
    ensures RowsOf(init + [row], coll)
         == RowsOf(init, coll) + if row.coll == coll && row.row.Some? then [row.row.value] else []
  {
    assert (init + [row])[..|init|] == init;
  }

  function RowColls(rows: seq<OrgRow>): set<Id> {
    set r <- rows :: r.coll
  }

  lemma RowCollsSnoc(init: seq<OrgRow>, row: OrgRow)
    ensures RowColls(init + [row]) == RowColls(init) + {row.coll}
  {
    assert forall r :: r in init + [row] <==> r in init || r == row;
    forall c | c in RowColls(init) + {row.coll}
      ensures c in RowColls(init + [row])
    {
      if c == row.coll {
        assert row in init + [row];
      } else {
        var r :| r in init && r.coll == c;
        assert r in init + [row];
      }
    }
  }

  lemma {:induction false} NoRowsOf(rows: seq<OrgRow>, coll: Id)
    requires coll !in RowColls(rows)
    ensures RowsOf(rows, coll) == []
  {
    if rows != [] {
      var init, row := rows[..|rows| - 1], rows[|rows| - 1];
      assert rows == init + [row];
      RowCollsSnoc(init, row);
      NoRowsOf(init, coll);
    }
  }

  /** In name order, and so without repetition. */
  predicate CollectionsAscend(db: Db, names: Collation, ids: seq<Id>) {
    forall k, l :: 0 <= k < l < |ids| ==> CollectionBefore(db, names, ids[k], ids[l])
  }

  /** One group per collection, the items grouped within it. */
  function OrgGroups(rows: seq<OrgRow>, ids: seq<Id>): seq<CoverageReport> {
    seq(|ids|, k requires 0 <= k < |ids| => OrgGroup(rows, ids[k]))
  }

  function OrgGroup(rows: seq<OrgRow>, coll: Id): CoverageReport {
    CoverageReport(coll, Grouped(RowsOf(rows, coll)), 0, 0, 0)
  }

  lemma OrgGroupsSnoc(rows: seq<OrgRow>, ids: seq<Id>, coll: Id)
    ensures OrgGroups(rows, ids + [coll]) == OrgGroups(rows, ids) + [OrgGroup(rows, coll)]
  {
  }

  lemma OtherOrgGroups(init: seq<OrgRow>, row: OrgRow, ids: seq<Id>)
    requires row.coll !in ids
    ensures OrgGroups(init + [row], ids) == OrgGroups(init, ids)
  {
    forall k | 0 <= k < |ids|
      ensures RowsOf(init + [row], ids[k]) == RowsOf(init, ids[k])
    {
      RowsSnoc(init, row, ids[k]);
      assert RowsOf(init, ids[k]) + [] == RowsOf(init, ids[k]);
    }
  }

  /** The row's own report, opened or not, after its piece is added. */
  lemma RowReport(init: seq<OrgRow>, row: OrgRow)
    ensures OrgGroup(init + [row], row.coll)
         == if row.row.None? then OrgGroup(init, row.coll)
            else OrgGroup(init, row.coll).(items := Extend(OrgGroup(init, row.coll).items, row.row.value))
  {
    RowsSnoc(init, row, row.coll);
    var before := RowsOf(init, row.coll);
    if row.row.Some? {
      assert (before + [row.row.value])[..|before|] == before;
    } else {
      assert before + [] == before;
    }
  }

  lemma SameCollNext(db: Db, names: Collation, init: seq<OrgRow>, row: OrgRow, ids: seq<Id>)
    requires CollectionsAscend(db, names, ids) && IdSet(ids) == RowColls(init)
    requires ids != [] && ids[|ids| - 1] == row.coll
    ensures IdSet(ids) == RowColls(init + [row])
    ensures OrgExtend(OrgGroups(init, ids), row) == OrgGroups(init + [row], ids)
  {
    var others := ids[..|ids| - 1];
    assert ids == others + [row.coll];
    assert row.coll !in others;
    OtherOrgGroups(init, row, others);
    OrgGroupsSnoc(init, others, row.coll);
    OrgGroupsSnoc(init + [row], others, row.coll);
    RowReport(init, row);
    RowCollsSnoc(init, row);
    assert row.coll in IdSet(ids);
  }

  lemma OpensNewReport(reports: seq<CoverageReport>, row: OrgRow)
    requires reports == [] || reports[|reports| - 1].coll != row.coll
    ensures OrgExtend(reports, row)
         == reports + [CoverageReport(row.coll, if row.row.None? then [] else Extend([], row.row.value), 0, 0, 0)]
  {
  }

  lemma CollFollows(db: Db, names: Collation, init: seq<OrgRow>, row: OrgRow, c: Id)
    requires OrgSorted(db, names, init + [row]) && c in RowColls(init)
    ensures c == row.coll || CollectionBefore(db, names, c, row.coll)
  {
    var rows := init + [row];
    var r :| r in init && r.coll == c;
    var m :| 0 <= m < |init| && init[m] == r;
    assert rows[m] == r && rows[|init|] == row && OrgRowBefore(db, names, rows[m], rows[|init|]);
  }

  lemma NewCollOrder(db: Db, names: Collation, init: seq<OrgRow>, row: OrgRow, ids: seq<Id>)
    requires OrgSorted(db, names, init + [row])
    requires CollectionsAscend(db, names, ids) && IdSet(ids) == RowColls(init)
    requires ids == [] || ids[|ids| - 1] != row.coll
    ensures CollectionsAscend(db, names, ids + [row.coll]) && row.coll !in ids && row.coll !in RowColls(init)
    ensures IdSet(ids + [row.coll]) == RowColls(init + [row])
  {
    forall k | 0 <= k < |ids|
      ensures ids[k] != row.coll && CollectionBefore(db, names, ids[k], row.coll)
    {
      assert ids[k] in IdSet(ids) && ids[|ids| - 1] in IdSet(ids);
      CollFollows(db, names, init, row, ids[k]);
      CollFollows(db, names, init, row, ids[|ids| - 1]);
    }
    assert row.coll !in IdSet(ids);
    RowCollsSnoc(init, row);
    assert forall i :: i in ids + [row.coll] <==> i in ids || i == row.coll;
  }

  lemma NewCollNext(init: seq<OrgRow>, row: OrgRow, ids: seq<Id>)
    requires row.coll !in ids && row.coll !in RowColls(init)
    ensures OrgExtend(OrgGroups(init, ids), row) == OrgGroups(init + [row], ids + [row.coll])
  {
    OtherOrgGroups(init, row, ids);
    OrgGroupsSnoc(init + [row], ids, row.coll);
    NoRowsOf(init, row.coll);
    RowReport(init, row);
    OpensNewReport(OrgGroups(init, ids), row);
  }

  lemma {:induction false} OrgGroupedIsGroups(db: Db, names: Collation, rows: seq<OrgRow>) returns (ids: seq<Id>)
    requires OrgSorted(db, names, rows)
    ensures CollectionsAscend(db, names, ids) && IdSet(ids) == RowColls(rows)
    ensures OrgGrouped(rows) == OrgGroups(rows, ids)
  {
    if rows == [] {
      ids := [];
      assert IdSet(ids) == {};
    } else {
      var init, row := rows[..|rows| - 1], rows[|rows| - 1];
      assert rows == init + [row];
      ids := OrgGroupedIsGroups(db, names, init);
      if ids != [] && ids[|ids| - 1] == row.coll {
        SameCollNext(db, names, init, row, ids);
      } else {
        NewCollOrder(db, names, init, row, ids);
        NewCollNext(init, row, ids);
        ids := ids + [row.coll];
      }
    }
  }

  lemma {:induction false} RowsOfIff(rows: seq<OrgRow>, coll: Id, r: Row)
    ensures r in RowsOf(rows, coll) <==> OrgRow(coll, Some(r)) in rows
  {
    if rows != [] {
      var init, row := rows[..|rows| - 1], rows[|rows| - 1];
      assert rows == init + [row];
      RowsOfIff(init, coll, r);
    }
  }

  lemma OrgSortedSnoc(db: Db, names: Collation, init: seq<OrgRow>, row: OrgRow, coll: Id, r: Row)
    requires OrgSorted(db, names, init + [row]) && OrgRow(coll, Some(r)) in init && row.coll == coll && row.row.Some?
    ensures RowBefore(names, r, row.row.value)
  {
    var rows := init + [row];
    var k :| 0 <= k < |init| && init[k] == OrgRow(coll, Some(r));
    assert rows[k] == init[k] && rows[|init|] == row;
    assert OrgRowBefore(db, names, rows[k], rows[|init|]);
  }

  lemma {:induction false} RowsOfSorted(db: Db, names: Collation, rows: seq<OrgRow>, coll: Id)
    requires OrgSorted(db, names, rows)
    ensures Sorted(names, RowsOf(rows, coll))
  {
    if rows != [] {
      var init, row := rows[..|rows| - 1], rows[|rows| - 1];
      assert rows == init + [row];
      RowsOfSorted(db, names, init, coll);
      if row.coll == coll && row.row.Some? {
        forall r <- RowsOf(init, coll)
          ensures RowBefore(names, r, row.row.value)
        {
          RowsOfIff(init, coll, r);
          OrgSortedSnoc(db, names, init, row, coll, r);
        }
      }
    }
  }

  /** Within the organization's rows lie exactly the rows of each collection's own query. */
  lemma RowsOfIsResult(db: Db, names: Collation, req: Required, org: Id, rows: seq<OrgRow>, coll: Id)
    requires Queryable(db) && OrgResult(db, names, req, org, rows)
    requires LiveCollection(db, coll) && db.collections[coll].org == org
    ensures CollectionResult(db, names, req, coll, RowsOf(rows, coll))
  {
    RowsOfSorted(db, names, rows, coll);
    forall r: Row
      ensures r in RowsOf(rows, coll) <==> IsRow(db, req, coll, r)
    {
      RowsOfIff(rows, coll, r);
      assert OrgRow(coll, Some(r)) in rows <==> IsOrgRow(db, req, org, OrgRow(coll, Some(r)));
    }
  }

  lemma LastIsGreatest(names: Collation, a: seq<Row>, b: seq<Row>)
    requires Sorted(names, a) && Sorted(names, b) && a != [] && b != []
    requires forall r: Row :: r in a <==> r in b
    ensures a[|a| - 1] == b[|b| - 1]
  {
    var x, y := a[|a| - 1], b[|b| - 1];
    assert x in b && y in a;
    var m :| 0 <= m < |b| && b[m] == x;
    var n :| 0 <= n < |a| && a[n] == y;
    assert m < |b| - 1 ==> RowBefore(names, x, y);
    assert n < |a| - 1 ==> RowBefore(names, y, x);
  }

  lemma BothEmpty(a: seq<Row>, b: seq<Row>)
    requires forall r: Row :: r in a <==> r in b
    ensures a == [] ==> b == []
  {
    if b != [] {
      assert b[0] in b;
    }
  }

  lemma InitMembers(names: Collation, a: seq<Row>, b: seq<Row>, x: Row)
    requires Sorted(names, a + [x]) && Sorted(names, b + [x])
    requires forall r: Row :: r in a + [x] <==> r in b + [x]
    ensures Sorted(names, a) && Sorted(names, b) && forall r: Row :: r in a <==> r in b
  {
    SortedSnoc(names, a, x);
    SortedSnoc(names, b, x);
    assert x !in a && x !in b;
    forall r: Row
      ensures r in a <==> r in b
    {
      assert r in a + [x] <==> r in b + [x];
    }
  }

  /** A query's answer is one sequence only: its order leaves no choice. */
  lemma {:induction false} ResultUnique(names: Collation, a: seq<Row>, b: seq<Row>)
    requires Sorted(names, a) && Sorted(names, b) && forall r: Row :: r in a <==> r in b
    ensures a == b
  {
    BothEmpty(a, b);
    BothEmpty(b, a);
    if a != [] {
      LastIsGreatest(names, a, b);
      var x, a', b' := a[|a| - 1], a[..|a| - 1], b[..|b| - 1];
      assert a == a' + [x] && b == b' + [x];
      InitMembers(names, a', b', x);
      ResultUnique(names, a', b');
    }
  }

  lemma OrgColls(db: Db, names: Collation, req: Required, org: Id, rows: seq<OrgRow>)
    requires Queryable(db) && OrgResult(db, names, req, org, rows)
    ensures RowColls(rows) == set c <- db.collections | LiveCollection(db, c) && db.collections[c].org == org
  {
    forall c <- db.collections | LiveCollection(db, c) && db.collections[c].org == org
      ensures c in RowColls(rows)
    {
      var r := OrgRow(c, None);
      if i :| i in db.items && LiveItem(db, c, i) {
        var row := RowForItem(db, req, c, i);
        r := OrgRow(c, Some(row));
      }
      assert IsOrgRow(db, req, org, r);
      assert r in rows;
    }
    forall r <- rows
      ensures IsOrgRow(db, req, org, r)
    {
    }
  }

  /** The single query yields, for each live collection of the organization in
      name order, exactly the report of that collection's own query. */
  lemma OneQueryGivesEveryReport(db: Db, names: Collation, req: Required, org: Id, rows: seq<OrgRow>)
    returns (colls: seq<Id>)
    requires Queryable(db) && OrgResult(db, names, req, org, rows)
    ensures CollectionsAscend(db, names, colls)
    ensures IdSet(colls) == set c <- db.collections | LiveCollection(db, c) && db.collections[c].org == org
    ensures |Totalled(OrgGrouped(rows))| == |colls|
    ensures forall k, own | 0 <= k < |colls| && CollectionResult(db, names, req, colls[k], own) ::
              Totalled(OrgGrouped(rows))[k] == Report(colls[k], Grouped(own))
  {
    colls := OrgGroupedIsGroups(db, names, rows);
    OrgColls(db, names, req, org, rows);
    forall k, own | 0 <= k < |colls| && CollectionResult(db, names, req, colls[k], own)
      ensures Totalled(OrgGrouped(rows))[k] == Report(colls[k], Grouped(own))
    {
      assert colls[k] in IdSet(colls);
      RowsOfIsResult(db, names, req, org, rows, colls[k]);
      ResultUnique(names, own, RowsOf(rows, colls[k]));
      assert OrgGrouped(rows)[k] == OrgGroup(rows, colls[k]);
    }
  }

  // ---------------------------------------------------------------------
  // The tallies

  predicate Bounded(it: ItemCoverage) {
    it.rehearsedVoices <= it.assignedVoices <= it.requiredVoices
  }

  lemma {:induction false} GroupsBounded(rows: seq<Row>)
    ensures forall it <- Grouped(rows) :: Bounded(it)
  {
    if rows != [] {
      GroupsBounded(rows[..|rows| - 1]);
      ExtendBounded(Grouped(rows[..|rows| - 1]), rows[|rows| - 1]);
    }
  }

  lemma ExtendBounded(items: seq<ItemCoverage>, row: Row)
    requires forall it <- items :: Bounded(it)
    ensures forall it <- Extend(items, row) :: Bounded(it)
  {
    var open := if items != [] && items[|items| - 1].item == row.item then items else items + [Fresh(row)];
    assert forall k :: 0 <= k < |open| ==> Bounded(open[k]);
    var after := Extend(items, row);
    assert forall k :: 0 <= k < |after| ==> Bounded(after[k]);
  }

  lemma {:induction false} SumsBounded(items: seq<ItemCoverage>)
    requires forall it <- items :: Bounded(it)
    ensures SumRehearsed(items) <= SumAssigned(items) <= SumRequired(items)
  {
    if items != [] {
      assert items[|items| - 1] in items && forall it <- items[..|items| - 1] :: it in items;
      SumsBounded(items[..|items| - 1]);
    }
  }

  /** Rehearsed voices are among the assigned ones and those among the required
      ones, for every piece and for the whole report. */
  lemma ReportBounded(coll: Id, rows: seq<Row>)
    ensures var report := Report(coll, Grouped(rows));
            && (forall it <- report.items :: Bounded(it))
            && report.rehearsedVoices <= report.assignedVoices <= report.requiredVoices
  {
    GroupsBounded(rows);
    SumsBounded(Grouped(rows));
  }

  // ---------------------------------------------------------------------
  // Reports for disjoint sections add up

  /** The voices of a group whose state passes. */
  function IdsOf(voices: seq<VoiceCoverage>): set<Id> {
    set x <- voices :: x.voice
  }

  function AssignedIds(voices: seq<VoiceCoverage>): set<Id> {
    set x <- voices | !x.state.Unassigned? :: x.voice
  }

  function RehearsedIds(voices: seq<VoiceCoverage>): set<Id> {
    set x <- voices | x.state.Rehearsed? :: x.voice
  }

  /** No voice is listed twice. */
  predicate VoicesDistinct(voices: seq<VoiceCoverage>) {
    forall k, l :: 0 <= k < l < |voices| ==> voices[k].voice != voices[l].voice
  }

  lemma IdsSnoc(init: seq<VoiceCoverage>, x: VoiceCoverage)
    requires VoicesDistinct(init + [x])
    ensures VoicesDistinct(init) && x.voice !in IdsOf(init)
    ensures IdsOf(init + [x]) == IdsOf(init) + {x.voice}
    ensures AssignedIds(init + [x]) == AssignedIds(init) + if x.state.Unassigned? then {} else {x.voice}
    ensures RehearsedIds(init + [x]) == RehearsedIds(init) + if x.state.Rehearsed? then {x.voice} else {}
  {
    var all := init + [x];
    assert forall y :: y in all <==> y in init || y == x;
    assert forall k :: 0 <= k < |init| ==> all[k] == init[k];
    assert all[|init|] == x;
    assert forall y <- init :: y in all;
  }

  lemma IdsWithin(voices: seq<VoiceCoverage>)
    ensures AssignedIds(voices) <= IdsOf(voices) && RehearsedIds(voices) <= IdsOf(voices)
  {
  }

  lemma OneMore(s: set<Id>, i: Id)
    requires i !in s
    ensures |s + {i}| == |s| + 1
  {
  }

  lemma SizesSnoc(init: seq<VoiceCoverage>, x: VoiceCoverage)
    requires VoicesDistinct(init + [x])
    ensures VoicesDistinct(init)
    ensures |IdsOf(init + [x])| == |IdsOf(init)| + 1
    ensures |AssignedIds(init + [x])| == |AssignedIds(init)| + if x.state.Unassigned? then 0 else 1
    ensures |RehearsedIds(init + [x])| == |RehearsedIds(init)| + if x.state.Rehearsed? then 1 else 0
  {
    IdsSnoc(init, x);
    IdsWithin(init);
    OneMore(IdsOf(init), x.voice);
    OneMore(AssignedIds(init), x.voice);
    OneMore(RehearsedIds(init), x.voice);
  }

  lemma CountsSnoc(init: seq<VoiceCoverage>, x: VoiceCoverage)
    ensures CountAssigned(init + [x]) == CountAssigned(init) + if x.state.Unassigned? then 0 else 1
    ensures CountRehearsed(init + [x]) == CountRehearsed(init) + if x.state.Rehearsed? then 1 else 0
  {
    assert (init + [x])[..|init|] == init;
  }

  /** Each tally is the number of voices it is about. */
  lemma {:induction false} CountsAreSizes(voices: seq<VoiceCoverage>)
    requires VoicesDistinct(voices)
    ensures |voices| == |IdsOf(voices)|
    ensures CountAssigned(voices) == |AssignedIds(voices)|
    ensures CountRehearsed(voices) == |RehearsedIds(voices)|
  {
    if voices != [] {
      var init, x := voices[..|voices| - 1], voices[|voices| - 1];
      assert voices == init + [x];
      SizesSnoc(init, x);
      CountsSnoc(init, x);
      CountsAreSizes(init);
    }
  }

  function AssignedVoices(db: Db, req: Required, item: Id): set<Id>
    requires AssignmentUnique(db)
  {
    set v <- RequiredVoices(db, req, item) | PartOf(db, item, v).Some?
  }

  function RehearsedVoices(db: Db, req: Required, item: Id): set<Id>
    requires AssignmentUnique(db)
  {
    set v <- RequiredVoices(db, req, item) |
      PartOf(db, item, v).Some? && PartOf(db, item, v).value.acknowledgedAt.Some?
  }

  /** A voice counts once as required, once more when somebody is assigned, and
      once more when that assignment is acknowledged. */
  lemma GroupTallies(db: Db, names: Collation, req: Required, it: ItemCoverage)
    requires Queryable(db) && IsGroup(db, names, req, it)
    ensures it.requiredVoices == |RequiredVoices(db, req, it.item)|
    ensures it.assignedVoices == |AssignedVoices(db, req, it.item)|
    ensures it.rehearsedVoices == |RehearsedVoices(db, req, it.item)|
  {
    var voices := it.voices;
    VoicesAreDistinct(db, names, req, it.item, voices);
    CountsAreSizes(voices);
    VoiceSets(db, names, req, it.item, voices);
  }

  lemma VoicesAreDistinct(db: Db, names: Collation, req: Required, item: Id, voices: seq<VoiceCoverage>)
    requires Queryable(db) && VoicesAre(db, names, req, item, voices)
    ensures VoicesDistinct(voices)
  {
    forall k, l | 0 <= k < l < |voices|
      ensures voices[k].voice != voices[l].voice
    {
      assert VoiceBefore(names, voices[k], voices[l]);
      assert voices[k] in voices && voices[l] in voices;
    }
  }

  lemma VoiceSets(db: Db, names: Collation, req: Required, item: Id, voices: seq<VoiceCoverage>)
    requires Queryable(db) && VoicesAre(db, names, req, item, voices)
    ensures IdsOf(voices) == RequiredVoices(db, req, item)
    ensures AssignedIds(voices) == AssignedVoices(db, req, item)
    ensures RehearsedIds(voices) == RehearsedVoices(db, req, item)
  {
    forall v <- RequiredVoices(db, req, item)
      ensures v in IdsOf(voices)
      ensures v in AssignedIds(voices) <==> PartOf(db, item, v).Some?
      ensures v in RehearsedIds(voices) <==> v in RehearsedVoices(db, req, item)
    {
      var x := CoverageOf(CellOf(db, item, v));
      assert x in voices && x.voice == v;
    }
  }

  lemma IdSetSnoc(ids: seq<Id>, i: Id)
    ensures IdSet(ids + [i]) == IdSet(ids) + {i}
  {
    assert forall j :: j in ids + [i] <==> j in ids || j == i;
  }

  lemma BothIdsEmpty(a: seq<Id>, b: seq<Id>)
    requires IdSet(a) == IdSet(b)
    ensures a == [] ==> b == []
  {
    if b != [] {
      assert b[0] in IdSet(b);
    }
  }

  lemma LastIdIsGreatest(head: Heads, a: seq<Id>, b: seq<Id>)
    requires Ascending(head, a) && Ascending(head, b) && IdSet(a) == IdSet(b) && a != [] && b != []
    ensures a[|a| - 1] == b[|b| - 1]
  {
    var x, y := a[|a| - 1], b[|b| - 1];
    assert x in IdSet(b) && y in IdSet(a);
    var m :| 0 <= m < |b| && b[m] == x;
    var n :| 0 <= n < |a| && a[n] == y;
    assert m < |b| - 1 ==> HeadBefore(head, x, y);
    assert n < |a| - 1 ==> HeadBefore(head, y, x);
  }

  lemma InitIds(head: Heads, ids: seq<Id>, x: Id)
    requires Ascending(head, ids + [x])
    ensures Ascending(head, ids) && IdSet(ids) == IdSet(ids + [x]) - {x}
  {
    LastIsNew(head, ids + [x]);
    assert (ids + [x])[..|ids|] == ids;
    IdSetSnoc(ids, x);
  }

  /** There is only one ascending order of a set of items. */
  lemma {:induction false} AscendingUnique(head: Heads, a: seq<Id>, b: seq<Id>)
    requires Ascending(head, a) && Ascending(head, b) && IdSet(a) == IdSet(b)
    ensures a == b
  {
    BothIdsEmpty(a, b);
    BothIdsEmpty(b, a);
    if a != [] {
      LastIdIsGreatest(head, a, b);
      var x, a', b' := a[|a| - 1], a[..|a| - 1], b[..|b| - 1];
      assert a == a' + [x] && b == b' + [x];
      InitIds(head, a', x);
      InitIds(head, b', x);
      AscendingUnique(head, a', b');
    }
  }

  /** The tallies of two groups add up to those of a third. */
  predicate AddUp(x: ItemCoverage, y: ItemCoverage, z: ItemCoverage) {
    && x.requiredVoices + y.requiredVoices == z.requiredVoices
    && x.assignedVoices + y.assignedVoices == z.assignedVoices
    && x.rehearsedVoices + y.rehearsedVoices == z.rehearsedVoices
  }

  lemma {:induction false} SumsAdd(xs: seq<ItemCoverage>, ys: seq<ItemCoverage>, zs: seq<ItemCoverage>)
    requires |xs| == |ys| == |zs| && forall k :: 0 <= k < |zs| ==> AddUp(xs[k], ys[k], zs[k])
    ensures SumRequired(xs) + SumRequired(ys) == SumRequired(zs)
    ensures SumAssigned(xs) + SumAssigned(ys) == SumAssigned(zs)
    ensures SumRehearsed(xs) + SumRehearsed(ys) == SumRehearsed(zs)
  {
    if zs != [] {
      var n := |zs| - 1;
      assert AddUp(xs[n], ys[n], zs[n]);
      SumsAdd(xs[..n], ys[..n], zs[..n]);
    }
  }

  lemma DisjointSizes(s: set<Id>, t: set<Id>, u: set<Id>)
    requires s !! t && u == s + t
    ensures |u| == |s| + |t|
  {
  }

  lemma SectionGroupsAdd(db: Db, names: Collation, a: set<Id>, b: set<Id>,
                         x: ItemCoverage, y: ItemCoverage, z: ItemCoverage)
    requires Queryable(db) && a !! b && x.item == y.item == z.item
    requires IsGroup(db, names, Instruments(a), x) && IsGroup(db, names, Instruments(b), y)
    requires IsGroup(db, names, Instruments(a + b), z)
    ensures AddUp(x, y, z)
  {
    GroupTallies(db, names, Instruments(a), x);
    GroupTallies(db, names, Instruments(b), y);
    GroupTallies(db, names, Instruments(a + b), z);
    SectionSetsAdd(db, a, b, z.item);
  }

  lemma SectionVoices(db: Db, a: set<Id>, b: set<Id>, item: Id)
    requires a !! b
    ensures RequiredVoices(db, Instruments(a), item) !! RequiredVoices(db, Instruments(b), item)
    ensures RequiredVoices(db, Instruments(a + b), item)
         == RequiredVoices(db, Instruments(a), item) + RequiredVoices(db, Instruments(b), item)
  {
  }

  lemma SectionSetsAdd(db: Db, a: set<Id>, b: set<Id>, item: Id)
    requires AssignmentUnique(db) && a !! b
    ensures |RequiredVoices(db, Instruments(a + b), item)|
         == |RequiredVoices(db, Instruments(a), item)| + |RequiredVoices(db, Instruments(b), item)|
    ensures |AssignedVoices(db, Instruments(a + b), item)|
         == |AssignedVoices(db, Instruments(a), item)| + |AssignedVoices(db, Instruments(b), item)|
    ensures |RehearsedVoices(db, Instruments(a + b), item)|
         == |RehearsedVoices(db, Instruments(a), item)| + |RehearsedVoices(db, Instruments(b), item)|
  {
    SectionVoices(db, a, b, item);
    var x, y, z := Instruments(a), Instruments(b), Instruments(a + b);
    DisjointSizes(RequiredVoices(db, x, item), RequiredVoices(db, y, item), RequiredVoices(db, z, item));
    DisjointSizes(AssignedVoices(db, x, item), AssignedVoices(db, y, item), AssignedVoices(db, z, item));
    DisjointSizes(RehearsedVoices(db, x, item), RehearsedVoices(db, y, item), RehearsedVoices(db, z, item));
  }

  /** The reports of two sections without a common instrument add up to the report
      of both, piece by piece and in total. */
  lemma SectionsAddUp(db: Db, names: Collation, coll: Id, a: set<Id>, b: set<Id>,
                      rowsA: seq<Row>, rowsB: seq<Row>, rows: seq<Row>)
    requires Queryable(db) && a !! b
    requires CollectionResult(db, names, Instruments(a), coll, rowsA)
    requires CollectionResult(db, names, Instruments(b), coll, rowsB)
    requires CollectionResult(db, names, Instruments(a + b), coll, rows)
    ensures var x, y, z := Report(coll, Grouped(rowsA)), Report(coll, Grouped(rowsB)), Report(coll, Grouped(rows));
            && |x.items| == |y.items| == |z.items|
            && (forall k :: 0 <= k < |z.items| ==>
                  x.items[k].item == y.items[k].item == z.items[k].item && AddUp(x.items[k], y.items[k], z.items[k]))
            && x.requiredVoices + y.requiredVoices == z.requiredVoices
            && x.assignedVoices + y.assignedVoices == z.assignedVoices
            && x.rehearsedVoices + y.rehearsedVoices == z.rehearsedVoices
  {
    var idsA := ReportIsNestedComprehension(db, names, Instruments(a), coll, rowsA);
    var idsB := ReportIsNestedComprehension(db, names, Instruments(b), coll, rowsB);
    var ids := ReportIsNestedComprehension(db, names, Instruments(a + b), coll, rows);
    AscendingUnique(HeadsOf(db), idsA, ids);
    AscendingUnique(HeadsOf(db), idsB, ids);
    var xs, ys, zs := Grouped(rowsA), Grouped(rowsB), Grouped(rows);
    forall k | 0 <= k < |ids|
      ensures AddUp(xs[k], ys[k], zs[k])
    {
      SectionGroupsAdd(db, names, a, b, xs[k], ys[k], zs[k]);
    }
    SumsAdd(xs, ys, zs);
  }
}
