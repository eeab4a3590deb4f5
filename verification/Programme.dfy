/**
 * A coverage report against the tree: its pieces are those staff see in the
 * collection and those whose arrangement is gone, its voices the ones staff see in
 * each piece, with what the assignment table says of them.
 */
module Programme {
  import opened Wrappers
  import opened Schema
  import opened Coverage
  import opened CoverageAgreement
  import Access
  import Assignments

  // ---------------------------------------------------------------------
  // Pieces and voices

  function StaffItems(db: Db, coll: Id): set<Id> {
    Access.VisibleItems(db, coll, 0, Access.Staff)
  }

  /** Live items whose arrangement was soft-deleted: broken slots of the programme. */
  function BrokenItems(db: Db, coll: Id): set<Id> {
    set i <- db.items |
      && db.items[i].coll == coll && db.items[i].deletedAt.None?
      && db.items[i].arr in db.arrangements && db.arrangements[db.items[i].arr].deleted
  }

  function StaffVoices(db: Db, item: Id): set<Id>
    requires item in db.items
  {
    Access.VisibleItemVoices(db, item, db.items[item].arr, 0, Access.Staff)
  }

  /** The voices a piece needs: all that staff see in it, or those of some instruments;
      none once its arrangement is gone. */
  function Needed(db: Db, req: Required, item: Id): set<Id>
    requires item in db.items && db.items[item].arr in db.arrangements
  {
    if db.arrangements[db.items[item].arr].deleted then {}
    else
      match req
      case EveryVoice => StaffVoices(db, item)
      case Instruments(ids) => set v <- StaffVoices(db, item) | v in db.voices && db.voices[v].instrument in ids
  }

  lemma NeededIsRequired(db: Db, req: Required, item: Id)
    requires item in db.items && db.items[item].arr in db.arrangements
    ensures RequiredVoices(db, req, item) == Needed(db, req, item)
  {
  }

  /** A voice can be assigned on a piece exactly when staff see it there, whether or
      not the arrangement is gone. */
  lemma AssignableIffSeen(db: Db, item: Id, voice: Id)
    ensures Assignments.Assignable(db, item, voice)
       <==> item in db.items && db.items[item].deletedAt.None? && voice in StaffVoices(db, item)
  {
  }

  lemma PiecesAreLive(db: Db, coll: Id)
    requires ItemKeys(db) && LiveCollection(db, coll)
    ensures LiveItems(db, coll) == StaffItems(db, coll) + BrokenItems(db, coll)
    ensures StaffItems(db, coll) !! BrokenItems(db, coll)
  {
  }

  // ---------------------------------------------------------------------
  // What is said of a voice

  predicate IsPart(db: Db, p: Id, item: Id, voice: Id) {
    p in db.assignments && db.assignments[p].item == item && db.assignments[p].voice == voice
  }

  predicate HasPart(db: Db, item: Id, voice: Id) {
    exists p <- db.assignments :: IsPart(db, p, item, voice)
  }

  predicate HasReadyPart(db: Db, item: Id, voice: Id) {
    exists p <- db.assignments :: IsPart(db, p, item, voice) && db.assignments[p].acknowledgedAt.Some?
  }

  /** The voice's own name and instrument, and its assignment: somebody, with both
      stamps, rehearsed once acknowledged; or nobody. */
  predicate SaysOf(db: Db, item: Id, x: VoiceCoverage) {
    && x.voice in db.voices && x.name == db.voices[x.voice].name && x.instrument == db.voices[x.voice].instrument
    && (forall p <- db.assignments | IsPart(db, p, item, x.voice) ::
          && x.assignee == Some(db.assignments[p].user) && x.notifiedAt == db.assignments[p].notifiedAt
          && x.acknowledgedAt == db.assignments[p].acknowledgedAt
          && x.state == if db.assignments[p].acknowledgedAt.Some? then Rehearsed else Assigned)
    && (!HasPart(db, item, x.voice) ==>
          x.assignee.None? && x.notifiedAt.None? && x.acknowledgedAt.None? && x.state == Unassigned)
  }

  lemma PartIs(db: Db, item: Id, voice: Id)
    requires AssignmentUnique(db)
    ensures PartOf(db, item, voice).Some? <==> HasPart(db, item, voice)
    ensures forall p <- db.assignments | IsPart(db, p, item, voice) ::
              PartOf(db, item, voice) == Some(db.assignments[p])
    ensures PartOf(db, item, voice).Some? && PartOf(db, item, voice).value.acknowledgedAt.Some?
       <==> HasReadyPart(db, item, voice)
  {
    if PartOf(db, item, voice).Some? {
      var p :| p in db.assignments && IsPart(db, p, item, voice);
    }
  }

  lemma CellSays(db: Db, item: Id, voice: Id)
    requires AssignmentUnique(db) && voice in db.voices
    ensures SaysOf(db, item, CoverageOf(CellOf(db, item, voice))) && CoverageOf(CellOf(db, item, voice)).voice == voice
  {
    PartIs(db, item, voice);
  }

  /** One piece of a report. */
  ghost predicate ShowsPiece(db: Db, req: Required, it: ItemCoverage) {
    && it.item in db.items && db.items[it.item].arr in db.arrangements
    && var i := db.items[it.item];
    && var a := db.arrangements[i.arr];
    && it.index == i.index && it.arr == i.arr && it.title == a.title && it.slug == a.slug
    && (it.removed <==> a.deleted)
    && (set x <- it.voices :: x.voice) == Needed(db, req, it.item)
    && (forall x <- it.voices :: SaysOf(db, it.item, x))
    && it.requiredVoices == |Needed(db, req, it.item)|
    && it.assignedVoices == |set v <- Needed(db, req, it.item) | HasPart(db, it.item, v)|
    && it.rehearsedVoices == |set v <- Needed(db, req, it.item) | HasReadyPart(db, it.item, v)|
  }

  lemma GroupVoices(db: Db, names: Collation, req: Required, item: Id, voices: seq<VoiceCoverage>)
    requires Queryable(db) && item in db.items && VoicesAre(db, names, req, item, voices)
    ensures (set x <- voices :: x.voice) == Needed(db, req, item)
    ensures forall x <- voices :: SaysOf(db, item, x)
  {
    NeededIsRequired(db, req, item);
    forall v <- RequiredVoices(db, req, item)
      ensures v in set x <- voices :: x.voice
    {
      assert CoverageOf(CellOf(db, item, v)) in voices;
      CellSays(db, item, v);
    }
    forall x <- voices
      ensures SaysOf(db, item, x) && x.voice in RequiredVoices(db, req, item)
    {
      assert IsRequired(db, req, item, x.voice);
      CellSays(db, item, x.voice);
    }
  }

  lemma TallySets(db: Db, req: Required, item: Id)
    requires Queryable(db) && item in db.items
    ensures AssignedVoices(db, req, item) == set v <- Needed(db, req, item) | HasPart(db, item, v)
    ensures RehearsedVoices(db, req, item) == set v <- Needed(db, req, item) | HasReadyPart(db, item, v)
  {
    NeededIsRequired(db, req, item);
    forall v <- RequiredVoices(db, req, item)
      ensures PartOf(db, item, v).Some? <==> HasPart(db, item, v)
      ensures PartOf(db, item, v).Some? && PartOf(db, item, v).value.acknowledgedAt.Some? <==> HasReadyPart(db, item, v)
    {
      PartIs(db, item, v);
    }
  }

  lemma GroupShows(db: Db, names: Collation, req: Required, it: ItemCoverage)
    requires Queryable(db) && IsGroup(db, names, req, it)
    ensures ShowsPiece(db, req, it)
  {
    GroupVoices(db, names, req, it.item, it.voices);
    TallySets(db, req, it.item);
    GroupTallies(db, names, req, it);
    NeededIsRequired(db, req, it.item);
    GroupColumns(it, Bare(db, it.item));
  }

  lemma GroupColumns(it: ItemCoverage, row: Row)
    requires it == GroupOf(row, it.voices)
    ensures it.index == row.index && it.arr == row.arr && it.title == row.title && it.slug == row.slug
    ensures it.removed == row.removed
  {
  }

  // ---------------------------------------------------------------------
  // The totals

  /** The pairs of a piece and one of its voices. */
  function Pairs(ids: seq<Id>, voices: Id -> set<Id>): set<(Id, Id)> {
    set i <- ids, v <- voices(i) :: (i, v)
  }

  function PairsOf(i: Id, voices: set<Id>): set<(Id, Id)> {
    set v <- voices :: (i, v)
  }

  lemma {:induction false} PairsOfSize(i: Id, voices: set<Id>)
    ensures |PairsOf(i, voices)| == |voices|
  {
    if v :| v in voices {
      var rest := voices - {v};
      PairsOfSize(i, rest);
      assert PairsOf(i, voices) == PairsOf(i, rest) + {(i, v)};
    } else {
      assert PairsOf(i, voices) == {};
    }
  }

  lemma PairsOfBoth(init: seq<Id>, i: Id, voices: Id -> set<Id>)
    ensures Pairs(init + [i], voices) == Pairs(init, voices) + PairsOf(i, voices(i))
  {
    forall x: (Id, Id)
      ensures x in Pairs(init + [i], voices) <==> x in Pairs(init, voices) || x in PairsOf(i, voices(i))
    {
      assert x.0 in init + [i] <==> x.0 in init || x.0 == i;
    }
  }

  lemma PairsSnoc(init: seq<Id>, i: Id, voices: Id -> set<Id>)
    requires i !in init
    ensures |Pairs(init + [i], voices)| == |Pairs(init, voices)| + |voices(i)|
  {
    PairsOfSize(i, voices(i));
    PairsOfBoth(init, i, voices);
    assert Pairs(init, voices) !! PairsOf(i, voices(i));
  }

  /** The tallies of these pieces are the sizes of these sets of voices. */
  predicate TalliedBy(items: seq<ItemCoverage>, ids: seq<Id>, needed: Id -> set<Id>, covered: Id -> set<Id>,
                      ready: Id -> set<Id>)
  {
    && |items| == |ids| && (forall k, l :: 0 <= k < l < |ids| ==> ids[k] != ids[l])
    && forall k :: 0 <= k < |ids| ==>
         && items[k].requiredVoices == |needed(ids[k])| && items[k].assignedVoices == |covered(ids[k])|
         && items[k].rehearsedVoices == |ready(ids[k])|
  }

  lemma {:induction false} SumsArePairs(items: seq<ItemCoverage>, ids: seq<Id>, needed: Id -> set<Id>,
                                        covered: Id -> set<Id>, ready: Id -> set<Id>)
    requires TalliedBy(items, ids, needed, covered, ready)
    ensures SumRequired(items) == |Pairs(ids, needed)| && SumAssigned(items) == |Pairs(ids, covered)|
    ensures SumRehearsed(items) == |Pairs(ids, ready)|
  {
    if items == [] {
      assert Pairs(ids, needed) == {} && Pairs(ids, covered) == {} && Pairs(ids, ready) == {};
    } else {
      var n := |ids| - 1;
      assert ids == ids[..n] + [ids[n]];
      SumsArePairs(items[..n], ids[..n], needed, covered, ready);
      PairsSnoc(ids[..n], ids[n], needed);
      PairsSnoc(ids[..n], ids[n], covered);
      PairsSnoc(ids[..n], ids[n], ready);
    }
  }

  // ---------------------------------------------------------------------
  // The report

  /** Pieces in number order, each as the rows have it. */
  ghost predicate ShowsProgramme(db: Db, req: Required, report: CoverageReport) {
    && (set it <- report.items :: it.item)
       == (if report.coll in db.collections && !db.collections[report.coll].deleted
           then StaffItems(db, report.coll) + BrokenItems(db, report.coll) else {})
    && (forall it <- report.items :: ShowsPiece(db, req, it))
    && forall k, l :: 0 <= k < l < |report.items| ==>
         || report.items[k].index < report.items[l].index
         || (report.items[k].index == report.items[l].index && report.items[k].item < report.items[l].item)
  }

  lemma ReportPieces(db: Db, names: Collation, req: Required, report: CoverageReport, ids: seq<Id>)
    requires Queryable(db) && IsReport(db, names, req, report, ids)
    ensures ShowsProgramme(db, req, report)
  {
    forall it <- report.items
      ensures ShowsPiece(db, req, it)
    {
      GroupShows(db, names, req, it);
    }
    ItemsAre(report.items, ids);
    if LiveCollection(db, report.coll) {
      PiecesAreLive(db, report.coll);
    }
    forall k, l | 0 <= k < l < |ids|
      ensures Before(report.items[k].index, ids[k], report.items[l].index, ids[l])
    {
      assert HeadBefore(HeadsOf(db), ids[k], ids[l]);
      assert report.items[k] in report.items && report.items[l] in report.items;
    }
  }

  lemma ItemsAre(items: seq<ItemCoverage>, ids: seq<Id>)
    requires |items| == |ids| && forall k :: 0 <= k < |ids| ==> items[k].item == ids[k]
    ensures (set it <- items :: it.item) == IdSet(ids)
  {
    forall i <- IdSet(ids)
      ensures i in set it <- items :: it.item
    {
      var k :| 0 <= k < |ids| && ids[k] == i;
      assert items[k] in items;
    }
  }

  /** The voices of every piece. */
  function NeededBy(db: Db, req: Required): Id -> set<Id> {
    (i: Id) => if i in db.items && db.items[i].arr in db.arrangements then Needed(db, req, i) else {}
  }

  function CoveredBy(db: Db, req: Required): Id -> set<Id> {
    (i: Id) => set v <- NeededBy(db, req)(i) | HasPart(db, i, v)
  }

  function ReadyBy(db: Db, req: Required): Id -> set<Id> {
    (i: Id) => set v <- NeededBy(db, req)(i) | HasReadyPart(db, i, v)
  }

  /** Every query of a collection is reported as its programme stands in the rows, and
      the totals count pairs of a piece and a voice: needed, with somebody assigned,
      and with an acknowledged assignment. */
  lemma ReportShowsProgramme(db: Db, names: Collation, req: Required, coll: Id, rows: seq<Row>) returns (ids: seq<Id>)
    requires Queryable(db) && CollectionResult(db, names, req, coll, rows)
    ensures var report := Report(coll, Grouped(rows));
            && ShowsProgramme(db, req, report)
            && IdSet(ids) == (set it <- report.items :: it.item)
            && report.requiredVoices == |Pairs(ids, NeededBy(db, req))|
            && report.assignedVoices == |Pairs(ids, CoveredBy(db, req))|
            && report.rehearsedVoices == |Pairs(ids, ReadyBy(db, req))|
  {
    ids := ReportIsNestedComprehension(db, names, req, coll, rows);
    var report := Report(coll, Grouped(rows));
    ReportPieces(db, names, req, report, ids);
    ItemsAre(report.items, ids);
    ReportTallied(db, names, req, report, ids);
    SumsArePairs(report.items, ids, NeededBy(db, req), CoveredBy(db, req), ReadyBy(db, req));
  }

  lemma ReportTallied(db: Db, names: Collation, req: Required, report: CoverageReport, ids: seq<Id>)
    requires Queryable(db) && IsReport(db, names, req, report, ids)
    ensures TalliedBy(report.items, ids, NeededBy(db, req), CoveredBy(db, req), ReadyBy(db, req))
  {
    forall k, l | 0 <= k < l < |ids|
      ensures ids[k] != ids[l]
    {
      assert HeadBefore(HeadsOf(db), ids[k], ids[l]);
    }
    forall k | 0 <= k < |ids|
      ensures && report.items[k].requiredVoices == |NeededBy(db, req)(ids[k])|
              && report.items[k].assignedVoices == |CoveredBy(db, req)(ids[k])|
              && report.items[k].rehearsedVoices == |ReadyBy(db, req)(ids[k])|
    {
      GroupShows(db, names, req, report.items[k]);
    }
  }
}
