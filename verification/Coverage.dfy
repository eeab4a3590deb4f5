/**
 * Coverage of a programme: which required voices are assigned and rehearsed.
 * One report per collection from its own query, or all of an organization's
 * from a single one; both group adjacent rows of a sorted join.
 */
module Coverage {
  import opened Wrappers
  import opened Schema

  /** Which voices count as required: all, or those of some instruments. */
  datatype Required = EveryVoice | Instruments(ids: set<Id>)

  /** How the database orders names. */
  type Collation = string -> int

  /** One voice of a joined row with its assignment, if any. */
  datatype Cell = Cell(voice: Id, name: string, instrument: Id, part: Option<Assignment>)

  /** One row of the join. A piece with no required voice has one row without a cell. */
  datatype Row = Row(item: Id, index: int, arr: Id, title: string, slug: string, removed: bool, cell: Option<Cell>)

  /** One row of the query over a whole organization. A collection without live
      items has one row without a piece. */
  datatype OrgRow = OrgRow(coll: Id, row: Option<Row>)

  datatype VoiceState = Unassigned | Assigned | Rehearsed

  datatype VoiceCoverage = VoiceCoverage(voice: Id, name: string, instrument: Id, state: VoiceState,
                                         assignee: Option<Id>, notifiedAt: Option<Time>, acknowledgedAt: Option<Time>)

  datatype ItemCoverage = ItemCoverage(item: Id, index: int, arr: Id, title: string, slug: string, removed: bool,
                                       voices: seq<VoiceCoverage>, requiredVoices: nat, assignedVoices: nat,
                                       rehearsedVoices: nat)

  datatype CoverageReport = CoverageReport(coll: Id, items: seq<ItemCoverage>,
                                           requiredVoices: nat, assignedVoices: nat, rehearsedVoices: nat)

  // ---------------------------------------------------------------------
  // The queries

  predicate Counts(req: Required, instrument: Id) {
    req.Instruments? ==> instrument in req.ids
  }

  /** A live voice of the live arrangement of an item, of a required instrument. */
  predicate IsRequired(db: Db, req: Required, item: Id, voice: Id) {
    && item in db.items && voice in db.voices
    && db.items[item].arr in db.arrangements && !db.arrangements[db.items[item].arr].deleted
    && db.voices[voice].arr == db.items[item].arr && !db.voices[voice].deleted
    && Counts(req, db.voices[voice].instrument)
  }

  function RequiredVoices(db: Db, req: Required, item: Id): set<Id> {
    set v <- db.voices | IsRequired(db, req, item, v)
  }

  /** The assignment of a pair; the unique index leaves at most one. */
  function PartOf(db: Db, item: Id, voice: Id): (r: Option<Assignment>)
    requires AssignmentUnique(db)
    ensures r.Some? ==> r.value.item == item && r.value.voice == voice
  {
    if exists p <- db.assignments :: db.assignments[p].item == item && db.assignments[p].voice == voice then
      var p :| p in db.assignments && db.assignments[p].item == item && db.assignments[p].voice == voice;
      Some(db.assignments[p])
    else None
  }

  function CellOf(db: Db, item: Id, voice: Id): Cell
    requires AssignmentUnique(db) && voice in db.voices
  {
    Cell(voice, db.voices[voice].name, db.voices[voice].instrument, PartOf(db, item, voice))
  }

  /** The columns of an item and its arrangement. */
  function Bare(db: Db, item: Id): Row
    requires item in db.items && db.items[item].arr in db.arrangements
  {
    var i := db.items[item];
    var a := db.arrangements[i.arr];
    Row(item, i.index, i.arr, a.title, a.slug, a.deleted, None)
  }

  predicate Queryable(db: Db) {
    AssignmentUnique(db) && ItemKeys(db)
  }

  predicate LiveItem(db: Db, coll: Id, item: Id) {
    item in db.items && db.items[item].coll == coll && db.items[item].Live()
  }

  /** A row of the join for one collection. */
  predicate IsRow(db: Db, req: Required, coll: Id, row: Row)
    requires Queryable(db)
  {
    && LiveItem(db, coll, row.item)
    && row.(cell := None) == Bare(db, row.item)
    && match row.cell
       case None => RequiredVoices(db, req, row.item) == {}
       case Some(c) => IsRequired(db, req, row.item, c.voice) && c == CellOf(db, row.item, c.voice)
  }

  predicate LiveCollection(db: Db, coll: Id) {
    coll in db.collections && !db.collections[coll].deleted
  }

  predicate IsOrgRow(db: Db, req: Required, org: Id, row: OrgRow)
    requires Queryable(db)
  {
    && LiveCollection(db, row.coll) && db.collections[row.coll].org == org
    && match row.row
       case None => forall i <- db.items :: !LiveItem(db, row.coll, i)
       case Some(r) => IsRow(db, req, row.coll, r)
  }

  // ---------------------------------------------------------------------
  // Their orders

  predicate Before(a: int, i: Id, b: int, j: Id) {
    a < b || (a == b && i < j)
  }

  /** ORDER BY index, item, voice name, voice. */
  predicate RowBefore(names: Collation, a: Row, b: Row) {
    || Before(a.index, a.item, b.index, b.item)
    || (a.index == b.index && a.item == b.item && a.cell.Some? && b.cell.Some?
        && Before(names(a.cell.value.name), a.cell.value.voice, names(b.cell.value.name), b.cell.value.voice))
  }

  predicate Sorted(names: Collation, rows: seq<Row>) {
    forall i, j :: 0 <= i < j < |rows| ==> RowBefore(names, rows[i], rows[j])
  }

  predicate CollectionBefore(db: Db, names: Collation, a: Id, b: Id) {
    a in db.collections && b in db.collections
    && Before(names(db.collections[a].name), a, names(db.collections[b].name), b)
  }

  /** ORDER BY collection name, collection, and then as above. */
  predicate OrgRowBefore(db: Db, names: Collation, a: OrgRow, b: OrgRow) {
    || CollectionBefore(db, names, a.coll, b.coll)
    || (a.coll == b.coll && a.row.Some? && b.row.Some? && RowBefore(names, a.row.value, b.row.value))
  }

  predicate OrgSorted(db: Db, names: Collation, rows: seq<OrgRow>) {
    forall i, j :: 0 <= i < j < |rows| ==> OrgRowBefore(db, names, rows[i], rows[j])
  }

  /** What the query for one collection returns. */
  ghost predicate CollectionResult(db: Db, names: Collation, req: Required, coll: Id, rows: seq<Row>)
    requires Queryable(db)
  {
    && Sorted(names, rows)
    && (forall r: Row :: r in rows <==> LiveCollection(db, coll) && IsRow(db, req, coll, r))
  }

  /** What the query for one organization returns. */
  ghost predicate OrgResult(db: Db, names: Collation, req: Required, org: Id, rows: seq<OrgRow>)
    requires Queryable(db)
  {
    && OrgSorted(db, names, rows)
    && (forall r: OrgRow :: r in rows <==> IsOrgRow(db, req, org, r))
  }

  // ---------------------------------------------------------------------
  // Grouping

  function Classify(part: Option<Assignment>): VoiceState {
    match part
    case None => Unassigned
    case Some(p) => if p.acknowledgedAt.None? then Assigned else Rehearsed
  }

  function CoverageOf(c: Cell): VoiceCoverage {
    match c.part
    case None => VoiceCoverage(c.voice, c.name, c.instrument, Unassigned, None, None, None)
    case Some(p) =>
      VoiceCoverage(c.voice, c.name, c.instrument, Classify(c.part), Some(p.user), p.notifiedAt, p.acknowledgedAt)
  }

  function Fresh(row: Row): ItemCoverage {
    ItemCoverage(row.item, row.index, row.arr, row.title, row.slug, row.removed, [], 0, 0, 0)
  }

  function WithVoice(it: ItemCoverage, c: Cell): ItemCoverage {
    var state := Classify(c.part);
    it.(voices := it.voices + [CoverageOf(c)],
        requiredVoices := it.requiredVoices + 1,
        assignedVoices := it.assignedVoices + (if state.Unassigned? then 0 else 1),
        rehearsedVoices := it.rehearsedVoices + (if state.Rehearsed? then 1 else 0))
  }

  /** One row added to the groups. */
  function Extend(items: seq<ItemCoverage>, row: Row): (r: seq<ItemCoverage>)
    ensures r != []
  {
    var open := if items != [] && items[|items| - 1].item == row.item then items else items + [Fresh(row)];
    match row.cell
    case None => open
    case Some(c) => open[..|open| - 1] + [WithVoice(open[|open| - 1], c)]
  }

  function Grouped(rows: seq<Row>): seq<ItemCoverage> {
    if rows == [] then [] else Extend(Grouped(rows[..|rows| - 1]), rows[|rows| - 1])
  }

  function SumRequired(items: seq<ItemCoverage>): nat {
    if items == [] then 0 else SumRequired(items[..|items| - 1]) + items[|items| - 1].requiredVoices
  }

  function SumAssigned(items: seq<ItemCoverage>): nat {
    if items == [] then 0 else SumAssigned(items[..|items| - 1]) + items[|items| - 1].assignedVoices
  }

  function SumRehearsed(items: seq<ItemCoverage>): nat {
    if items == [] then 0 else SumRehearsed(items[..|items| - 1]) + items[|items| - 1].rehearsedVoices
  }

  function Report(coll: Id, items: seq<ItemCoverage>): CoverageReport {
    CoverageReport(coll, items, SumRequired(items), SumAssigned(items), SumRehearsed(items))
  }

  /** One row added to the reports, whose totals are filled in at the end. */
  function OrgExtend(reports: seq<CoverageReport>, row: OrgRow): seq<CoverageReport> {
    var open := if reports != [] && reports[|reports| - 1].coll == row.coll then reports
                  else reports + [CoverageReport(row.coll, [], 0, 0, 0)];
    match row.row
    case None => open
    case Some(r) =>
      var last := open[|open| - 1];
      open[..|open| - 1] + [last.(items := Extend(last.items, r))]
  }

  function OrgGrouped(rows: seq<OrgRow>): seq<CoverageReport> {
    if rows == [] then [] else OrgExtend(OrgGrouped(rows[..|rows| - 1]), rows[|rows| - 1])
  }

  function Totalled(reports: seq<CoverageReport>): seq<CoverageReport> {
    seq(|reports|, k requires 0 <= k < |reports| => Report(reports[k].coll, reports[k].items))
  }

  // ---------------------------------------------------------------------
  // The loops

  /** The totals of a report. */
  method Sums(items: seq<ItemCoverage>) returns (required: nat, covered: nat, rehearsed: nat)
    ensures required == SumRequired(items) && covered == SumAssigned(items) && rehearsed == SumRehearsed(items)
  {
    required, covered, rehearsed := 0, 0, 0;
    var k := 0;
    while k < |items|
      invariant 0 <= k <= |items|
      invariant required == SumRequired(items[..k])
      invariant covered == SumAssigned(items[..k])
      invariant rehearsed == SumRehearsed(items[..k])
    {
      assert items[..k + 1][..k] == items[..k];
      required := required + items[k].requiredVoices;
      covered := covered + items[k].assignedVoices;
      rehearsed := rehearsed + items[k].rehearsedVoices;
      k := k + 1;
    }
    assert items[..k] == items;
  }

  /** One row pushed onto the groups. */
  method PushRow(groups: seq<ItemCoverage>, row: Row) returns (items: seq<ItemCoverage>)
    ensures items == Extend(groups, row)
  {
    items := groups;
    if items == [] || items[|items| - 1].item != row.item {
      items := items + [Fresh(row)];
    }
    if row.cell.None? {
      return;
    }
    items := items[..|items| - 1] + [WithVoice(items[|items| - 1], row.cell.value)];
  }

  method ForCollection(coll: Id, rows: seq<Row>) returns (report: CoverageReport)
    ensures report == Report(coll, Grouped(rows))
  {
    var items := [];
    var k := 0;
    while k < |rows|
      invariant 0 <= k <= |rows|
      invariant items == Grouped(rows[..k])
    {
      assert rows[..k + 1][..k] == rows[..k];
      items := PushRow(items, rows[k]);
      k := k + 1;
    }
    assert rows[..k] == rows;
    var required, covered, rehearsed := Sums(items);
    report := CoverageReport(coll, items, required, covered, rehearsed);
  }

  /** One row of the organization query pushed onto the reports. */
  method PushOrgRow(reports: seq<CoverageReport>, row: OrgRow) returns (open: seq<CoverageReport>)
    ensures open == OrgExtend(reports, row)
  {
    open := reports;
    if open == [] || open[|open| - 1].coll != row.coll {
      open := open + [CoverageReport(row.coll, [], 0, 0, 0)];
    }
    if row.row.None? {
      return;
    }
    var report := open[|open| - 1];
    var items := PushRow(report.items, row.row.value);
    open := open[..|open| - 1] + [report.(items := items)];
  }

  method FillTotals(open: seq<CoverageReport>) returns (reports: seq<CoverageReport>)
    ensures reports == Totalled(open)
  {
    reports := [];
    var k := 0;
    while k < |open|
      invariant 0 <= k <= |open|
      invariant reports == Totalled(open)[..k]
    {
      var required, covered, rehearsed := Sums(open[k].items);
      reports := reports + [CoverageReport(open[k].coll, open[k].items, required, covered, rehearsed)];
      k := k + 1;
    }
  }

  method ForOrg(rows: seq<OrgRow>) returns (reports: seq<CoverageReport>)
    ensures reports == Totalled(OrgGrouped(rows))
  {
    var open := [];
    var k := 0;
    while k < |rows|
      invariant 0 <= k <= |rows|
      invariant open == OrgGrouped(rows[..k])
    {
      assert rows[..k + 1][..k] == rows[..k];
      open := PushOrgRow(open, rows[k]);
      k := k + 1;
    }
    assert rows[..k] == rows;
    reports := FillTotals(open);
  }

  // ---------------------------------------------------------------------
  // One collection: grouping adjacent rows gives the nested comprehension

  /** The voices of one item among the rows, in row order. */
  function VoicesOf(rows: seq<Row>, item: Id): seq<VoiceCoverage> {
    if rows == [] then []
    else
      var row := rows[|rows| - 1];
      VoicesOf(rows[..|rows| - 1], item)
      + if row.item == item && row.cell.Some? then [CoverageOf(row.cell.value)] else []
  }

  function CountAssigned(voices: seq<VoiceCoverage>): nat {
    if voices == [] then 0
    else CountAssigned(voices[..|voices| - 1]) + if voices[|voices| - 1].state.Unassigned? then 0 else 1
  }

  function CountRehearsed(voices: seq<VoiceCoverage>): nat {
    if voices == [] then 0
    else CountRehearsed(voices[..|voices| - 1]) + if voices[|voices| - 1].state.Rehearsed? then 1 else 0
  }

  /** The group of an item: its columns, its voices and their tallies. */
  function GroupOf(header: Row, voices: seq<VoiceCoverage>): ItemCoverage {
    ItemCoverage(header.item, header.index, header.arr, header.title, header.slug, header.removed,
                 voices, |voices|, CountAssigned(voices), CountRehearsed(voices))
  }

  lemma WithVoiceIsGroup(header: Row, voices: seq<VoiceCoverage>, c: Cell)
    ensures WithVoice(GroupOf(header, voices), c) == GroupOf(header, voices + [CoverageOf(c)])
  {
    var after := voices + [CoverageOf(c)];
    assert after[..|after| - 1] == voices;
  }

  /** The columns of each item. */
  type Heads = Id -> Row

  /** Rows of the same item carry the same columns. */
  predicate Headed(rows: seq<Row>, head: Heads) {
    forall r <- rows :: r.(cell := None) == head(r.item)
  }

  function RowItems(rows: seq<Row>): set<Id> {
    set r <- rows :: r.item
  }

  function IdSet(ids: seq<Id>): set<Id> {
    set i <- ids
  }

  predicate HeadBefore(head: Heads, a: Id, b: Id) {
    Before(head(a).index, a, head(b).index, b)
  }

  /** In piece order, and so without repetition. */
  predicate Ascending(head: Heads, ids: seq<Id>) {
    forall k, l :: 0 <= k < l < |ids| ==> HeadBefore(head, ids[k], ids[l])
  }

  /** The nested comprehension: one group per item, the item's voices in it. */
  function Groups(rows: seq<Row>, head: Heads, ids: seq<Id>): seq<ItemCoverage> {
    seq(|ids|, k requires 0 <= k < |ids| => GroupOf(head(ids[k]), VoicesOf(rows, ids[k])))
  }

  lemma RowItemsSnoc(init: seq<Row>, row: Row)
    ensures RowItems(init + [row]) == RowItems(init) + {row.item}
  {
    assert forall r :: r in init + [row] <==> r in init || r == row;
    forall i | i in RowItems(init) + {row.item}
      ensures i in RowItems(init + [row])
    {
      if i == row.item {
        assert row in init + [row];
      } else {
        var r :| r in init && r.item == i;
        assert r in init + [row];
      }
    }
  }

  lemma {:induction false} NoVoicesOf(rows: seq<Row>, item: Id)
    requires item !in RowItems(rows)
    ensures VoicesOf(rows, item) == []
  {
    if rows != [] {
      var init, row := rows[..|rows| - 1], rows[|rows| - 1];
      assert rows == init + [row];
      RowItemsSnoc(init, row);
      NoVoicesOf(init, item);
    }
  }

  /** A new row belongs to an item or comes after it. */
  lemma RowFollows(names: Collation, init: seq<Row>, row: Row, head: Heads, item: Id)
    requires Sorted(names, init + [row]) && Headed(init + [row], head) && item in RowItems(init)
    ensures item == row.item || HeadBefore(head, item, row.item)
  {
    var rows := init + [row];
    var r :| r in init && r.item == item;
    var m :| 0 <= m < |init| && init[m] == r;
    assert rows[m] == r && rows[|init|] == row && RowBefore(names, rows[m], rows[|init|]);
    assert r in rows && row in rows;
  }

  lemma NextItem(names: Collation, init: seq<Row>, row: Row, head: Heads, ids: seq<Id>, k: nat)
    requires Sorted(names, init + [row]) && Headed(init + [row], head)
    requires Ascending(head, ids) && IdSet(ids) == RowItems(init) && k < |ids|
    ensures ids[k] == row.item ==> k == |ids| - 1
    ensures ids[k] != row.item ==> HeadBefore(head, ids[k], row.item)
  {
    var last := |ids| - 1;
    assert ids[k] in IdSet(ids) && ids[last] in IdSet(ids);
    RowFollows(names, init, row, head, ids[k]);
    RowFollows(names, init, row, head, ids[last]);
  }

  lemma LastIsNew(head: Heads, ids: seq<Id>)
    requires Ascending(head, ids) && ids != []
    ensures ids[|ids| - 1] !in ids[..|ids| - 1]
  {
  }

  lemma VoicesSnoc(init: seq<Row>, row: Row, item: Id)
    ensures VoicesOf(init + [row], item)
         == VoicesOf(init, item) + if row.item == item && row.cell.Some? then [CoverageOf(row.cell.value)] else []
  {
    assert (init + [row])[..|init|] == init;
  }

  /** The row's own group, opened or not, after its voice is added. */
  lemma RowGroup(init: seq<Row>, row: Row, header: Row)
    requires row.(cell := None) == header
    ensures (if row.cell.None? then GroupOf(header, VoicesOf(init, row.item))
             else WithVoice(GroupOf(header, VoicesOf(init, row.item)), row.cell.value))
         == GroupOf(header, VoicesOf(init + [row], row.item))
  {
    VoicesSnoc(init, row, row.item);
    if row.cell.Some? {
      WithVoiceIsGroup(header, VoicesOf(init, row.item), row.cell.value);
    } else {
      assert VoicesOf(init, row.item) + [] == VoicesOf(init, row.item);
    }
  }

  lemma OtherGroups(init: seq<Row>, row: Row, head: Heads, ids: seq<Id>)
    requires row.item !in ids
    ensures Groups(init + [row], head, ids) == Groups(init, head, ids)
  {
    forall k | 0 <= k < |ids|
      ensures VoicesOf(init + [row], ids[k]) == VoicesOf(init, ids[k])
    {
      VoicesSnoc(init, row, ids[k]);
      assert VoicesOf(init, ids[k]) + [] == VoicesOf(init, ids[k]);
    }
  }

  lemma GroupsSnoc(rows: seq<Row>, head: Heads, ids: seq<Id>, item: Id)
    ensures Groups(rows, head, ids + [item]) == Groups(rows, head, ids) + [GroupOf(head(item), VoicesOf(rows, item))]
  {
  }

  lemma ExtendSameItem(init: seq<Row>, row: Row, head: Heads, others: seq<Id>)
    requires row.(cell := None) == head(row.item) && row.item !in others
    ensures Extend(Groups(init, head, others + [row.item]), row) == Groups(init + [row], head, others + [row.item])
  {
    OtherGroups(init, row, head, others);
    GroupsSnoc(init, head, others, row.item);
    GroupsSnoc(init + [row], head, others, row.item);
    RowGroup(init, row, head(row.item));
  }

  lemma ExtendNewItem(init: seq<Row>, row: Row, head: Heads, ids: seq<Id>)
    requires row.(cell := None) == head(row.item) && row.item !in ids && row.item !in RowItems(init)
    requires forall k :: 0 <= k < |ids| ==> head(ids[k]).item == ids[k]
    ensures Extend(Groups(init, head, ids), row) == Groups(init + [row], head, ids + [row.item])
  {
    OtherGroups(init, row, head, ids);
    GroupsSnoc(init + [row], head, ids, row.item);
    NoVoicesOf(init, row.item);
    RowGroup(init, row, head(row.item));
    OpensNewGroup(Groups(init, head, ids), row, GroupOf(head(row.item), []));
    assert ids != [] ==> Groups(init, head, ids)[|ids| - 1].item == ids[|ids| - 1];
  }

  lemma OpensNewGroup(items: seq<ItemCoverage>, row: Row, group: ItemCoverage)
    requires items == [] || items[|items| - 1].item != row.item
    requires Fresh(row) == group
    ensures Extend(items, row) == items + [if row.cell.None? then group else WithVoice(group, row.cell.value)]
  {
  }

  lemma SameItemNext(names: Collation, init: seq<Row>, row: Row, head: Heads, ids: seq<Id>)
    requires Ascending(head, ids) && IdSet(ids) == RowItems(init) && row.(cell := None) == head(row.item)
    requires ids != [] && ids[|ids| - 1] == row.item
    ensures IdSet(ids) == RowItems(init + [row])
    ensures Extend(Groups(init, head, ids), row) == Groups(init + [row], head, ids)
  {
    var others := ids[..|ids| - 1];
    LastIsNew(head, ids);
    assert ids == others + [row.item];
    ExtendSameItem(init, row, head, others);
    RowItemsSnoc(init, row);
    assert row.item in IdSet(ids);
  }

  lemma NewItemOrder(names: Collation, init: seq<Row>, row: Row, head: Heads, ids: seq<Id>)
    requires Sorted(names, init + [row]) && Headed(init + [row], head)
    requires Ascending(head, ids) && IdSet(ids) == RowItems(init)
    requires ids == [] || ids[|ids| - 1] != row.item
    ensures Ascending(head, ids + [row.item]) && row.item !in ids && row.item !in RowItems(init)
    ensures IdSet(ids + [row.item]) == RowItems(init + [row])
  {
    forall k | 0 <= k < |ids|
      ensures ids[k] != row.item && HeadBefore(head, ids[k], row.item)
    {
      NextItem(names, init, row, head, ids, k);
    }
    assert row.item !in IdSet(ids);
    RowItemsSnoc(init, row);
    assert forall i :: i in ids + [row.item] <==> i in ids || i == row.item;
  }

  lemma HeadedSnoc(init: seq<Row>, row: Row, head: Heads)
    requires Headed(init + [row], head)
    ensures Headed(init, head) && row.(cell := None) == head(row.item)
  {
    assert row in init + [row] && forall r <- init :: r in init + [row];
  }

  lemma ExtendGroups(names: Collation, init: seq<Row>, row: Row, head: Heads, ids: seq<Id>) returns (next: seq<Id>)
    requires Sorted(names, init + [row]) && Headed(init + [row], head) && forall i: Id :: head(i).item == i
    requires Ascending(head, ids) && IdSet(ids) == RowItems(init)
    ensures Ascending(head, next) && IdSet(next) == RowItems(init + [row])
    ensures Extend(Groups(init, head, ids), row) == Groups(init + [row], head, next)
  {
    HeadedSnoc(init, row, head);
    if ids != [] && ids[|ids| - 1] == row.item {
      SameItemNext(names, init, row, head, ids);
      next := ids;
    } else {
      NewItemOrder(names, init, row, head, ids);
      ExtendNewItem(init, row, head, ids);
      next := ids + [row.item];
    }
  }

  /** Grouping adjacent sorted rows is the nested comprehension over items and voices. */
  lemma {:induction false} GroupedIsGroups(names: Collation, rows: seq<Row>, head: Heads) returns (ids: seq<Id>)
    requires Sorted(names, rows) && Headed(rows, head) && forall i: Id :: head(i).item == i
    ensures Ascending(head, ids) && IdSet(ids) == RowItems(rows)
    ensures Grouped(rows) == Groups(rows, head, ids)
  {
    if rows == [] {
      ids := [];
      assert IdSet(ids) == {};
    } else {
      var init, row := rows[..|rows| - 1], rows[|rows| - 1];
      assert rows == init + [row];
      HeadedSnoc(init, row, head);
      SortedSnoc(names, init, row);
      var before := GroupedIsGroups(names, init, head);
      ids := ExtendGroups(names, init, row, head, before);
    }
  }

  // ---------------------------------------------------------------------
  // What the voices of a group are

  predicate VoiceBefore(names: Collation, a: VoiceCoverage, b: VoiceCoverage) {
    Before(names(a.name), a.voice, names(b.name), b.voice)
  }

  predicate VoicesSorted(names: Collation, voices: seq<VoiceCoverage>) {
    forall k, l :: 0 <= k < l < |voices| ==> VoiceBefore(names, voices[k], voices[l])
  }

  lemma VoicesSortedSnoc(names: Collation, init: seq<VoiceCoverage>, x: VoiceCoverage)
    requires VoicesSorted(names, init) && forall k :: 0 <= k < |init| ==> VoiceBefore(names, init[k], x)
    ensures VoicesSorted(names, init + [x])
  {
  }

  /** The required voices of an item with their states, in name order. */
  ghost predicate VoicesAre(db: Db, names: Collation, req: Required, item: Id, voices: seq<VoiceCoverage>)
    requires Queryable(db)
  {
    && (forall x :: x in voices ==> IsRequired(db, req, item, x.voice) && x == CoverageOf(CellOf(db, item, x.voice)))
    && (forall v :: IsRequired(db, req, item, v) ==> CoverageOf(CellOf(db, item, v)) in voices)
    && VoicesSorted(names, voices)
  }

  lemma {:induction false} VoiceHasRow(rows: seq<Row>, item: Id, x: VoiceCoverage) returns (r: Row)
    requires x in VoicesOf(rows, item)
    ensures r in rows && r.item == item && r.cell.Some? && CoverageOf(r.cell.value) == x
  {
    var init, row := rows[..|rows| - 1], rows[|rows| - 1];
    if x in VoicesOf(init, item) {
      r := VoiceHasRow(init, item, x);
    } else {
      r := row;
    }
  }

  lemma {:induction false} RowHasVoice(rows: seq<Row>, r: Row)
    requires r in rows && r.cell.Some?
    ensures CoverageOf(r.cell.value) in VoicesOf(rows, r.item)
  {
    var init, row := rows[..|rows| - 1], rows[|rows| - 1];
    if r != row {
      assert r in init;
      RowHasVoice(init, r);
    }
  }

  lemma SortedSnoc(names: Collation, init: seq<Row>, row: Row)
    requires Sorted(names, init + [row])
    ensures Sorted(names, init) && forall r <- init :: RowBefore(names, r, row)
  {
    var rows := init + [row];
    assert forall k :: 0 <= k < |init| ==> rows[k] == init[k];
    assert rows[|init|] == row;
    forall r <- init
      ensures RowBefore(names, r, row)
    {
      var k :| 0 <= k < |init| && init[k] == r;
      assert RowBefore(names, rows[k], rows[|init|]);
    }
  }

  lemma {:induction false} VoicesAscend(names: Collation, rows: seq<Row>, head: Heads, item: Id)
    requires Sorted(names, rows) && Headed(rows, head)
    ensures VoicesSorted(names, VoicesOf(rows, item))
  {
    if rows != [] {
      var init, row := rows[..|rows| - 1], rows[|rows| - 1];
      assert rows == init + [row];
      SortedSnoc(names, init, row);
      assert forall r <- init :: r in rows;
      VoicesAscend(names, init, head, item);
      var before := VoicesOf(init, item);
      if row.item == item && row.cell.Some? {
        var x := CoverageOf(row.cell.value);
        forall k | 0 <= k < |before|
          ensures VoiceBefore(names, before[k], x)
        {
          var r := VoiceHasRow(init, item, before[k]);
          assert RowBefore(names, r, row) && r in rows && row in rows;
        }
        VoicesSortedSnoc(names, before, x);
      }
    }
  }

  lemma ResultVoices(db: Db, names: Collation, req: Required, coll: Id, rows: seq<Row>, item: Id)
    requires Queryable(db) && CollectionResult(db, names, req, coll, rows)
    requires LiveCollection(db, coll) && LiveItem(db, coll, item)
    ensures VoicesAre(db, names, req, item, VoicesOf(rows, item))
  {
    var voices := VoicesOf(rows, item);
    ResultItems(db, names, req, coll, rows);
    VoicesAscend(names, rows, HeadsOf(db), item);
    forall x | x in voices
      ensures IsRequired(db, req, item, x.voice) && x == CoverageOf(CellOf(db, item, x.voice))
    {
      var r := VoiceHasRow(rows, item, x);
      assert IsRow(db, req, coll, r);
    }
    forall v | IsRequired(db, req, item, v)
      ensures CoverageOf(CellOf(db, item, v)) in voices
    {
      var r := Bare(db, item).(cell := Some(CellOf(db, item, v)));
      assert IsRow(db, req, coll, r);
      RowHasVoice(rows, r);
    }
  }

  // ---------------------------------------------------------------------
  // The report of a collection

  /** The columns of every item, and a blank where there is none. */
  function HeadOf(db: Db, i: Id): Row {
    if i in db.items && db.items[i].arr in db.arrangements then Bare(db, i) else Row(i, 0, 0, "", "", false, None)
  }

  function HeadsOf(db: Db): Heads {
    (i: Id) => HeadOf(db, i)
  }

  function LiveItems(db: Db, coll: Id): set<Id> {
    if LiveCollection(db, coll) then set i <- db.items | LiveItem(db, coll, i) else {}
  }

  lemma ResultItems(db: Db, names: Collation, req: Required, coll: Id, rows: seq<Row>)
    requires Queryable(db) && CollectionResult(db, names, req, coll, rows)
    ensures RowItems(rows) == LiveItems(db, coll) && Headed(rows, HeadsOf(db))
  {
    forall r <- rows
      ensures IsRow(db, req, coll, r) && r.(cell := None) == HeadOf(db, r.item)
    {
    }
    forall i <- LiveItems(db, coll)
      ensures i in RowItems(rows)
    {
      var r := RowForItem(db, req, coll, i);
      assert r in rows;
    }
  }

  /** Every live item has a row: one of its required voices, or a bare one. */
  lemma RowForItem(db: Db, req: Required, coll: Id, i: Id) returns (r: Row)
    requires Queryable(db) && LiveItem(db, coll, i)
    ensures IsRow(db, req, coll, r) && r.item == i
  {
    r := Bare(db, i);
    if RequiredVoices(db, req, i) != {} {
      var v :| v in RequiredVoices(db, req, i);
      r := r.(cell := Some(CellOf(db, i, v)));
    }
  }

  /** The group of an item is its columns, its required voices in name order with
      their states, and the tallies of those. */
  ghost predicate IsGroup(db: Db, names: Collation, req: Required, it: ItemCoverage)
    requires Queryable(db)
  {
    && it.item in db.items
    && VoicesAre(db, names, req, it.item, it.voices)
    && it == GroupOf(Bare(db, it.item), it.voices)
  }

  /** The report is the nested comprehension over live items and required voices. */
  ghost predicate IsReport(db: Db, names: Collation, req: Required, report: CoverageReport, ids: seq<Id>)
    requires Queryable(db)
  {
    && Ascending(HeadsOf(db), ids) && IdSet(ids) == LiveItems(db, report.coll)
    && |report.items| == |ids|
    && forall k :: 0 <= k < |ids| ==> report.items[k].item == ids[k] && IsGroup(db, names, req, report.items[k])
  }

  lemma ReportIsNestedComprehension(db: Db, names: Collation, req: Required, coll: Id, rows: seq<Row>)
    returns (ids: seq<Id>)
    requires Queryable(db) && CollectionResult(db, names, req, coll, rows)
    ensures IsReport(db, names, req, Report(coll, Grouped(rows)), ids)
  {
    ResultItems(db, names, req, coll, rows);
    ids := GroupedIsGroups(names, rows, HeadsOf(db));
    forall k | 0 <= k < |ids|
      ensures Grouped(rows)[k].item == ids[k] && IsGroup(db, names, req, Grouped(rows)[k])
    {
      assert ids[k] in IdSet(ids);
      ResultVoices(db, names, req, coll, rows, ids[k]);
      assert HeadsOf(db)(ids[k]) == Bare(db, ids[k]);
    }
  }
}
