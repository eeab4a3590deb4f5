/**
 * What `undelete` answers: its newer-sibling guard decides, and the unique index
 * behind it is met only after a failed replacement whose row was swapped back.
 */
module FileUndelete {
  import opened Wrappers
  import opened Schema
  import opened FileSlots
  import opened Places
  import opened FileRuns

  /** A failed replacement that was applied all the same, and whose rows were
      swapped back: the soft-deleted row is newer than the live one. */
  ghost predicate SwapsBack(live: Tree, f: Files, op: Op) {
    LeavesBytes(op, FileStep(live, f, op).1) && ActionOf(live, f, op.write).Swapping?
  }

  /** A clean run without such a call. */
  ghost predicate Tidy(lib: Library, calls: seq<Change>)
    decreases |calls|
  {
    calls == []
    || (&& !Hazardous(lib, calls[0])
        && (calls[0].OnFiles? ==> !SwapsBack(LiveTree(lib.places), lib.files, calls[0].op))
        && Tidy(Step(lib, calls[0]).0, calls[1..]))
  }

  // ---------------------------------------------------------------------
  // Live rows stay the newest written ones of their slots

  lemma SameRowsLast(f: Files, after: Files)
    requires LiveAreLast(f) && after.rows == f.rows && after.written == f.written
    ensures LiveAreLast(after)
  {
    forall g <- after.rows | !after.rows[g].deleted
      ensures LastWritten(after, g)
    {
      assert LastWritten(f, g);
    }
  }

  lemma InsertLast(f: Files, id: Id, row: File, key: string, data: Bytes, end: Outcome)
    requires Created(f.rows, f.now) && LiveAreLast(f) && row.createdAt == f.now && !LeavesLive(end)
    ensures LiveAreLast(InsertFile(f, id, row, key, data, end).0)
  {
    if id in f.rows || LiveInSlot(f.rows, row) || (end.Failed? && end.undone) {
      SameRowsLast(f, InsertFile(f, id, row, key, data, end).0);
    } else {
      AddsRow(f.rows, id, row);
      PutLiveAreLast(f, f.rows[id := row], id, row, key, data);
    }
  }

  lemma LeftoverLast(f: Files, id: Id, row: File)
    requires f.written.Keys <= f.rows.Keys && LiveAreLast(f) && id !in f.rows
    ensures LiveAreLast(Leftover(f, id, row))
  {
    QuietLiveAreLast(f, Leftover(f, id, row));
  }

  lemma CreateLast(f: Files, id: Id, row: File, key: string, data: Bytes, end: Outcome)
    requires f.written.Keys <= f.rows.Keys && Created(f.rows, f.now) && LiveAreLast(f)
    requires row.createdAt == f.now && !row.deleted && !LeavesLive(end)
    ensures LiveAreLast(Create(f, id, row, key, data, end).0)
  {
    if id in f.rows || LiveInSlot(f.rows, row) {
      SameRowsLast(f, Create(f, id, row, key, data, end).0);
    } else if end.Failed? && !end.applied {
      LeftoverLast(f, id, row);
    } else {
      var left := if end.Stored? then row else row.(deleted := end.undone);
      AddsRow(f.rows, id, left);
      PutLiveAreLast(f, f.rows[id := left], id, left, key, data);
    }
  }

  lemma SwapLast(f: Files, id: Id, prior: Id, row: File, key: string, data: Bytes, end: Outcome)
    requires f.written.Keys <= f.rows.Keys && Created(f.rows, f.now) && LiveAreLast(f)
    requires prior in f.rows && !f.rows[prior].deleted && row.createdAt == f.now
    requires !LeavesLive(end) && !AppliedAndUndone(end)
    ensures LiveAreLast(Swap(f, id, prior, row, key, data, end).0)
  {
    if id in f.rows || LiveInSlot(SetDeleted(f.rows, prior, true), row) {
      SameRowsLast(f, Swap(f, id, prior, row, key, data, end).0);
    } else if end.Failed? && end.undone {
      UndoneSwap(f.rows, prior, id, row);
      LeftoverLast(f, id, row);
    } else {
      AddsSwapped(f.rows, prior, id, row);
      PutLiveAreLast(f, Swapped(f.rows, prior, id, row), id, row, key, data);
    }
  }

  lemma ActLast(key: KeyRule, f: Files, id: Id, a: Action, data: Bytes, end: Outcome)
    requires KeptBy(key, f) && LiveAreLast(f) && Fits(key, f, a)
    requires Act(f, id, a, data, end).1 == Some(UploadFailed) ==>
               !LeavesLive(end) && !(AppliedAndUndone(end) && a.Swapping?)
    ensures LiveAreLast(Act(f, id, a, data, end).0)
  {
    SameRowsLast(f, Tick(f));
    if Act(f, id, a, data, end).1 in {None, Some(UploadFailed)} {
      match a
      case Refused(_) =>
      case Inserting(row, at) => InsertLast(f, id, row, at, data, end);
      case Creating(row, at) => CreateLast(f, id, row, at, data, end);
      case Swapping(prior, row, at) => SwapLast(f, id, prior, row, at, data, end);
    }
  }

  lemma FlagLast(f: Files, id: Id, deleted: bool)
    requires f.written.Keys <= f.rows.Keys && LiveAreLast(f) && id in f.rows && (!deleted ==> LastWritten(f, id))
    ensures LiveAreLast(Flagged(f, id, deleted))
  {
    FlagIsQuiet(f, id, deleted);
    QuietLiveAreLast(f, Flagged(f, id, deleted));
  }

  lemma DeleteLast(f: Files, id: Id)
    requires f.written.Keys <= f.rows.Keys && LiveAreLast(f)
    ensures LiveAreLast(Delete(f, id).0)
  {
    SameRowsLast(f, Tick(f));
    if id in f.rows {
      FlagLast(f, id, true);
    }
  }

  lemma UndeleteLast(f: Files, id: Id)
    requires f.written.Keys <= f.rows.Keys && LiveAreLast(f) && NoPhantoms(f)
    ensures LiveAreLast(Undelete(f, id).0)
  {
    SameRowsLast(f, Tick(f));
    if Undelete(f, id).1 == None {
      NewestWrittenIsLast(f, id);
      FlagLast(f, id, false);
    }
  }

  lemma FileStepLast(live: Tree, tree: Tree, f: Files, op: Op)
    requires PartOf(live, tree) && Kept(tree, f) && NoPhantoms(f) && LiveAreLast(f)
    requires !LeavesRow(OnFiles(op), FileStep(live, f, op).1) && !SwapsBack(live, f, op)
    ensures LiveAreLast(FileStep(live, f, op).0)
  {
    match op
    case DoWrite(id, w, data, end) =>
      ActionFits(live, tree, f, w);
      ActLast(RuleOf(tree), f, id, ActionOf(live, f, w), data, end);
    case DoDelete(id) =>
      SameRowsLast(f, Tick(f));
      DeleteLast(f, id);
    case DoUndelete(id) =>
      SameRowsLast(f, Tick(f));
      UndeleteLast(f, id);
  }

  lemma StepLast(lib: Library, c: Change)
    requires Steady(lib) && NoPhantoms(lib.files) && LiveAreLast(lib.files) && !LeavesRow(c, Step(lib, c).1)
    requires c.OnFiles? ==> !SwapsBack(LiveTree(lib.places), lib.files, c.op)
    ensures LiveAreLast(Step(lib, c).0.files)
  {
    match c
    case OnPlaces(_) =>
    case OnFiles(op) =>
      LivePartOfAll(lib.places);
      FileStepLast(LiveTree(lib.places), AllTree(lib.places), lib.files, op);
    case OnPrivate(key, data) => SameRowsLast(lib.files, WithObject(lib.files, key, data));
  }

  lemma {:induction false} TidyKeeps(lib: Library, calls: seq<Change>)
    requires Good(lib) && NoPhantoms(lib.files) && LiveAreLast(lib.files) && Tidy(lib, calls)
    ensures var after := After(lib, calls); Good(after) && NoPhantoms(after.files) && LiveAreLast(after.files)
    decreases |calls|
  {
    if calls != [] {
      CleanStep(lib, calls[0]);
      StepLast(lib, calls[0]);
      TidyKeeps(Step(lib, calls[0]).0, calls[1..]);
    }
  }

  // ---------------------------------------------------------------------
  // The answer

  /** A written row that is newest in its slot has no live sibling. */
  lemma NewestHasNoLiveSibling(f: Files, id: Id)
    requires Created(f.rows, f.now) && LiveAreLast(f)
    requires id in f.written && id in f.rows && f.rows[id].deleted && NewestInSlot(f.rows, id)
    ensures !LiveInSlot(f.rows, f.rows[id])
  {
    forall g <- f.rows | !f.rows[g].deleted
      ensures !SameSlot(f.rows[g], f.rows[id])
    {
      assert LastWritten(f, g) && !NewerSibling(f.rows, g, id) && !NewerSibling(f.rows, id, g);
    }
  }

  lemma UndeleteReply(f: Files, id: Id)
    requires Created(f.rows, f.now) && LiveAreLast(f) && NoPhantoms(f)
    ensures Undelete(f, id).1 == None <==> id in f.rows && f.rows[id].deleted && NewestInSlot(f.rows, id)
    ensures Undelete(f, id).1 != Some(Duplicate)
  {
    if id in f.rows && f.rows[id].deleted && NewestInSlot(f.rows, id) {
      NewestHasNoLiveSibling(f, id);
    }
  }

  lemma UndeleteIffAt(lib: Library, id: Id)
    requires Steady(lib) && NoPhantoms(lib.files) && LiveAreLast(lib.files)
    ensures var f, reply := lib.files, Step(lib, OnFiles(DoUndelete(id))).1;
            && (reply == None <==>
                  id in f.rows && IsLive(lib.places, Loc(f.rows[id])) && f.rows[id].deleted && NewestInSlot(f.rows, id))
            && reply != Some(Duplicate)
  {
    UndeleteReply(lib.files, id);
    if id in lib.files.rows {
      InTrees(lib.places, Loc(lib.files.rows[id]));
    }
  }

  /** After every tidy run, `undelete` succeeds exactly for a deleted row of a live
      place that is newest in its slot, and the unique index never has to refuse it. */
  lemma UndeleteIff(calls: seq<Change>, id: Id)
    requires Tidy(EMPTY_LIBRARY, calls)
    ensures var lib := After(EMPTY_LIBRARY, calls);
            var f, reply := lib.files, Step(lib, OnFiles(DoUndelete(id))).1;
            && (reply == None <==>
                  id in f.rows && IsLive(lib.places, Loc(f.rows[id])) && f.rows[id].deleted && NewestInSlot(f.rows, id))
            && reply != Some(Duplicate)
  {
    EmptyIsGood();
    TidyKeeps(EMPTY_LIBRARY, calls);
    UndeleteIffAt(After(EMPTY_LIBRARY, calls), id);
  }
}
