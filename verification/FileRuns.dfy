/**
 * Which bytes a live file serves, over whole runs of uploads, replacements,
 * WebDAV writes, deletions and restorations, while arrangements and voices are
 * created, soft-deleted and restored and users keep objects of their own.
 */
module FileRuns {
  import opened Wrappers
  import opened FileName
  import opened Schema
  import opened FileSlots
  import opened Places
  import opened SlugReuse

  datatype Write =
    | Uploading(loc: Location, fileName: string, mime: string)
    | Replacing(prior: Id, mime: string)
    | DavPutting(loc: Location, fileName: string)

  /** One file service call; `end` is what the object store and, after a failure,
      the compensation did. */
  datatype Op =
    | DoWrite(id: Id, write: Write, data: Bytes, end: Outcome)
    | DoDelete(id: Id)
    | DoUndelete(id: Id)

  datatype Change =
    | OnPlaces(structure: StructureCall)
    | OnFiles(op: Op)
    | OnPrivate(key: PrivateKey, data: Option<Bytes>)

  /** The places and what is stored at them. */
  datatype Library = Library(places: Layout, files: Files)

  const EMPTY_LIBRARY: Library := Library(NO_PLACES, EMPTY_FILES)

  ghost function ActionOf(tree: Tree, f: Files, w: Write): (a: Action)
    ensures Applies(f, a) && (a.Refused? ==> a.why != UploadFailed)
  {
    match w
    case Uploading(loc, fileName, mime) => UploadAction(tree, f.now, loc, fileName, mime)
    case Replacing(prior, mime) => ReplaceAction(tree, f, prior, mime)
    case DavPutting(loc, fileName) => DavAction(tree, f, loc, fileName)
  }

  /** A row is only reached through its live place. */
  predicate OutOfReach(live: Tree, f: Files, id: Id) {
    id in f.rows && Loc(f.rows[id]) !in live
  }

  /** One route deletes files of soft-deleted voices: it asks for the arrangement only. */
  predicate BeyondDeletion(live: Tree, f: Files, id: Id) {
    OutOfReach(live, f, id) && (f.rows[id].arr, None) !in live
  }

  ghost function FileStep(live: Tree, f: Files, op: Op): (Files, Reply) {
    match op
    case DoWrite(id, w, data, end) => Act(f, id, ActionOf(live, f, w), data, end)
    case DoDelete(id) => if BeyondDeletion(live, f, id) then (Tick(f), Some(NotFound)) else Delete(f, id)
    case DoUndelete(id) => if OutOfReach(live, f, id) then (Tick(f), Some(NotFound)) else Undelete(f, id)
  }

  ghost function Step(lib: Library, c: Change): (Library, Reply) {
    match c
    case OnPlaces(structure) =>
      if Accepts(lib.places, structure) then (lib.(places := Changed(lib.places, structure)), None)
      else (lib, Some(Database))
    case OnFiles(op) =>
      var (files, reply) := FileStep(LiveTree(lib.places), lib.files, op);
      (lib.(files := files), reply)
    case OnPrivate(key, data) =>
      if FlatKey(key) then (lib.(files := WithObject(lib.files, key, data)), None) else (lib, Some(NotFound))
  }

  lemma FileStepIs(lib: Library, op: Op)
    ensures var (files, reply) := FileStep(LiveTree(lib.places), lib.files, op);
            Step(lib, OnFiles(op)) == (lib.(files := files), reply)
  {
  }

  /** A structural call of the whole system is the same call here, accepted alike and
      with the same effect on the places. */
  lemma StructuralCallsAgree(db: Db, c: StructureCall, f: Files)
    requires History.Enforced(db) && NamesPlaces(c)
    ensures var next := History.Proposed(db, History.OnStructure(c));
            Step(Library(LayoutOf(db), f), OnPlaces(c))
            == if History.Enforced(next) then (Library(LayoutOf(next), f), None)
               else (Library(LayoutOf(db), f), Some(Database))
  {
    ChangedLayout(db, c);
    AcceptedAlike(db, c);
  }

  /** The library after a list of calls. */
  ghost function After(lib: Library, calls: seq<Change>): Library
    decreases |calls|
  {
    if calls == [] then lib else After(Step(lib, calls[0]).0, calls[1..])
  }

  /** Every file that can be read is served its own bytes. */
  predicate Serves(lib: Library) {
    ServesOwnBytes(LiveTree(lib.places), lib.files)
  }

  // ---------------------------------------------------------------------
  // Validated writes fit

  lemma KeptLocated(tree: Tree, f: Files, id: Id)
    requires Kept(tree, f) && id in f.rows
    ensures Located(tree, f.rows[id])
  {
    assert RuleOf(tree)(f.rows[id]).Some?;
  }

  /** A row at a live place has its key from the live and from all places alike. */
  lemma LiveKey(live: Tree, tree: Tree, row: File)
    requires PartOf(live, tree) && Located(live, row)
    ensures Located(tree, row) && RuleOf(tree)(row) == Some(KeyOf(live, row))
  {
  }

  /** The row a write inserts is at a live place and fits. */
  ghost predicate FitsAt(live: Tree, tree: Tree, f: Files, a: Action) {
    && Fits(RuleOf(tree), f, a)
    && (a.Refused? || (Loc(a.row) in live && Located(tree, a.row)))
  }

  lemma UploadRowLocated(tree: Tree, now: Time, loc: Location, fileName: string, mime: string)
    requires loc in tree && UploadRow(now, loc, fileName, mime).Some?
    ensures Located(tree, UploadRow(now, loc, fileName, mime).value)
  {
  }

  lemma UploadFits(live: Tree, tree: Tree, f: Files, loc: Location, fileName: string, mime: string)
    requires PartOf(live, tree)
    ensures FitsAt(live, tree, f, UploadAction(live, f.now, loc, fileName, mime))
  {
    if loc in live && UploadRow(f.now, loc, fileName, mime).Some? {
      UploadRowLocated(live, f.now, loc, fileName, mime);
      LiveKey(live, tree, UploadRow(f.now, loc, fileName, mime).value);
    }
  }

  lemma ReplacementRowLocated(tree: Tree, now: Time, was: File)
    requires Located(tree, was)
    ensures ReplacementRow(now, was).Some? && Located(tree, ReplacementRow(now, was).value)
    ensures SameSlot(was, ReplacementRow(now, was).value)
    ensures KeyOf(tree, ReplacementRow(now, was).value) == KeyOf(tree, was)
  {
  }

  /** A replacement that is not refused swaps a live row of a live place. */
  lemma ReplaceActionSwaps(live: Tree, f: Files, prior: Id, mime: string)
    requires !ReplaceAction(live, f, prior, mime).Refused?
    ensures prior in f.rows && !f.rows[prior].deleted && HasKey(live, f.rows[prior])
    ensures var row := ReplacementRow(f.now, f.rows[prior]).value;
            ReplaceAction(live, f, prior, mime) == Swapping(prior, row, KeyOf(live, row))
  {
  }

  lemma ReplaceFits(live: Tree, tree: Tree, f: Files, prior: Id, mime: string)
    requires PartOf(live, tree) && Kept(tree, f)
    ensures FitsAt(live, tree, f, ReplaceAction(live, f, prior, mime))
  {
    if !ReplaceAction(live, f, prior, mime).Refused? {
      ReplaceActionSwaps(live, f, prior, mime);
      KeptLocated(tree, f, prior);
      ReplacementRowLocated(live, f.now, f.rows[prior]);
      LiveKey(live, tree, ReplacementRow(f.now, f.rows[prior]).value);
    }
  }

  lemma DavRowLocated(tree: Tree, now: Time, loc: Location, filename: string)
    requires loc in tree && DavRow(now, loc, filename).Some? && '/' !in filename
    ensures Located(tree, DavRow(now, loc, filename).value)
  {
    var parts := SplitFilename(filename).value;
    assert forall c :: c in parts.0 ==> c in filename;
  }

  lemma DavFits(live: Tree, tree: Tree, f: Files, loc: Location, filename: string)
    requires PartOf(live, tree)
    ensures FitsAt(live, tree, f, DavAction(live, f, loc, filename))
  {
    if loc in live && DavRow(f.now, loc, filename).Some? && '/' !in filename {
      DavRowLocated(live, f.now, loc, filename);
      LiveKey(live, tree, DavRow(f.now, loc, filename).value);
    }
  }

  lemma ActionFits(live: Tree, tree: Tree, f: Files, w: Write)
    requires PartOf(live, tree) && Kept(tree, f)
    ensures FitsAt(live, tree, f, ActionOf(live, f, w))
  {
    match w
    case Uploading(loc, fileName, mime) => UploadFits(live, tree, f, loc, fileName, mime);
    case Replacing(prior, mime) => ReplaceFits(live, tree, f, prior, mime);
    case DavPutting(loc, fileName) => DavFits(live, tree, f, loc, fileName);
  }

  // ---------------------------------------------------------------------
  // What every call keeps

  /** The constraints hold, and every last written row's object is its own. */
  predicate Steady(lib: Library) {
    LayoutOk(lib.places) && Kept(AllTree(lib.places), lib.files)
  }

  /** What runs without a hazard keep. */
  predicate Good(lib: Library) {
    Steady(lib) && SlugsApart(lib.places, lib.files.rows)
  }

  lemma SteadyServes(lib: Library)
    requires Steady(lib)
    ensures Serves(lib)
  {
    LivePartOfAll(lib.places);
    KeptServesOwnBytes(LiveTree(lib.places), AllTree(lib.places), lib.files);
  }

  lemma EmptyIsGood()
    ensures Good(EMPTY_LIBRARY)
  {
  }

  lemma LastKeyGrows(tree: Tree, next: Tree, f: Files)
    requires PartOf(tree, next) && AllKeyed(RuleOf(tree), f.rows)
    ensures AllKeyed(RuleOf(next), f.rows)
    ensures forall id <- f.rows :: RuleOf(next)(f.rows[id]) == RuleOf(tree)(f.rows[id])
  {
    forall id <- f.rows
      ensures RuleOf(next)(f.rows[id]).Some? && RuleOf(next)(f.rows[id]) == RuleOf(tree)(f.rows[id])
    {
      assert RuleOf(tree)(f.rows[id]).Some?;
    }
  }

  /** More places do not disturb the rows of the old ones. */
  lemma KeptGrows(tree: Tree, next: Tree, f: Files)
    requires PartOf(tree, next) && Kept(tree, f)
    ensures Kept(next, f)
  {
    LastKeyGrows(tree, next, f);
    forall id <- f.rows | Retrievable(f, id)
      ensures HoldsOwn(RuleOf(next), f, id)
    {
      assert HoldsOwn(RuleOf(tree), f, id);
    }
  }

  lemma StructureStepSteady(lib: Library, c: StructureCall)
    requires Steady(lib)
    ensures Steady(Step(lib, OnPlaces(c)).0)
  {
    if Accepts(lib.places, c) {
      ChangedOk(lib.places, c);
      PlacesStay(lib.places, c);
      KeptGrows(AllTree(lib.places), AllTree(Changed(lib.places, c)), lib.files);
    }
  }

  /** The call revives a row left behind by a rollback: `undelete` lets it pass
      although its bytes were never stored. */
  predicate RevivesPhantom(f: Files, op: Op, reply: Reply) {
    op.DoUndelete? && IsPhantom(f, op.id) && reply == None
  }

  /** A failed upload whose compensation fails too keeps its live row. */
  predicate LeavesLiveRow(op: Op, reply: Reply) {
    op.DoWrite? && LeavesLive(op.end) && reply == Some(UploadFailed)
  }

  /** A failed upload that was applied all the same, and undone in the rows only. */
  predicate LeavesBytes(op: Op, reply: Reply) {
    op.DoWrite? && AppliedAndUndone(op.end) && reply == Some(UploadFailed)
  }

  /** Those bytes are another row's loss. */
  ghost predicate RobsRow(live: Tree, tree: Tree, f: Files, op: Op) {
    && LeavesBytes(op, FileStep(live, f, op).1)
    && RobsAction(RuleOf(tree), f, ActionOf(live, f, op.write), op.data)
  }

  lemma QuietFileStepKept(live: Tree, tree: Tree, f: Files, op: Op)
    requires Kept(tree, f) && !op.DoWrite? && !RevivesPhantom(f, op, FileStep(live, f, op).1)
    ensures Kept(tree, FileStep(live, f, op).0)
  {
    FlagsIgnored(tree);
    TickKeeps(RuleOf(tree), f);
    match op
    case DoDelete(id) => DeleteKeeps(RuleOf(tree), f, id);
    case DoUndelete(id) =>
      if !OutOfReach(live, f, id) {
        UndeleteKeeps(RuleOf(tree), f, id);
      }
  }

  lemma WriteKept(live: Tree, tree: Tree, f: Files, op: Op)
    requires FlatTree(tree) && PartOf(live, tree) && Kept(tree, f)
    requires forall l <- live :: SlugsFree(tree, f.rows, l)
    requires op.DoWrite? && !LeavesLiveRow(op, FileStep(live, f, op).1) && !RobsRow(live, tree, f, op)
    ensures Kept(tree, FileStep(live, f, op).0)
  {
    var a := ActionOf(live, f, op.write);
    FlagsIgnored(tree);
    ActionFits(live, tree, f, op.write);
    if !a.Refused? {
      FreeSlugsKeepApart(tree, f.rows, a.row);
    }
    ActKeeps(RuleOf(tree), f, op.id, a, op.data, op.end);
  }

  lemma PutRows(live: Tree, f: Files, id: Id, row: File, key: string, data: Bytes, end: Outcome)
    requires Loc(row) in live
    ensures RowsAt(live, f.rows, InsertFile(f, id, row, key, data, end).0.rows)
    ensures RowsAt(live, f.rows, Create(f, id, row, key, data, end).0.rows)
  {
  }

  lemma SwapRows(live: Tree, f: Files, id: Id, prior: Id, row: File, key: string, data: Bytes, end: Outcome)
    requires Loc(row) in live && prior in f.rows
    ensures RowsAt(live, f.rows, Swap(f, id, prior, row, key, data, end).0.rows)
  {
  }

  lemma ActRows(live: Tree, f: Files, id: Id, a: Action, data: Bytes, end: Outcome)
    requires Applies(f, a) && (a.Refused? || Loc(a.row) in live)
    ensures RowsAt(live, f.rows, Act(f, id, a, data, end).0.rows)
  {
    match a
    case Refused(_) =>
    case Inserting(row, key) => PutRows(live, f, id, row, key, data, end);
    case Creating(row, key) => PutRows(live, f, id, row, key, data, end);
    case Swapping(prior, row, key) => SwapRows(live, f, id, prior, row, key, data, end);
  }

  lemma FlagRows(live: Tree, f: Files, id: Id)
    ensures RowsAt(live, f.rows, Tick(f).rows)
    ensures RowsAt(live, f.rows, Delete(f, id).0.rows) && RowsAt(live, f.rows, Undelete(f, id).0.rows)
  {
  }

  lemma FileStepRows(live: Tree, tree: Tree, f: Files, op: Op)
    requires PartOf(live, tree) && Kept(tree, f)
    ensures RowsAt(live, f.rows, FileStep(live, f, op).0.rows)
  {
    match op
    case DoWrite(id, w, data, end) =>
      ActionFits(live, tree, f, w);
      ActRows(live, f, id, ActionOf(live, f, w), data, end);
    case DoDelete(id) => FlagRows(live, f, id);
    case DoUndelete(id) => FlagRows(live, f, id);
  }

  lemma WriteGood(lib: Library, op: Op)
    requires Good(lib) && op.DoWrite? && !LeavesLiveRow(op, FileStep(LiveTree(lib.places), lib.files, op).1)
    requires !RobsRow(LiveTree(lib.places), AllTree(lib.places), lib.files, op)
    ensures Good(Step(lib, OnFiles(op)).0)
  {
    SlugsAreFlat(lib.places);
    WriteKept(LiveTree(lib.places), AllTree(lib.places), lib.files, op);
    FileStepRows(LiveTree(lib.places), AllTree(lib.places), lib.files, op);
    RowsKeepSlugsApart(lib.places, lib.files.rows, FileStep(LiveTree(lib.places), lib.files, op).0.rows);
  }

  lemma QuietFileStepGood(lib: Library, op: Op)
    requires Good(lib) && !op.DoWrite?
    requires !RevivesPhantom(lib.files, op, FileStep(LiveTree(lib.places), lib.files, op).1)
    ensures Good(Step(lib, OnFiles(op)).0)
  {
    LivePartOfAll(lib.places);
    QuietFileStepKept(LiveTree(lib.places), AllTree(lib.places), lib.files, op);
    FileStepRows(LiveTree(lib.places), AllTree(lib.places), lib.files, op);
    RowsKeepSlugsApart(lib.places, lib.files.rows, FileStep(LiveTree(lib.places), lib.files, op).0.rows);
  }

  lemma PrivateStepGood(lib: Library, key: PrivateKey, data: Option<Bytes>)
    requires LayoutOk(lib.places)
    ensures Steady(lib) ==> Steady(Step(lib, OnPrivate(key, data)).0)
    ensures Good(lib) ==> Good(Step(lib, OnPrivate(key, data)).0)
  {
    if Steady(lib) && FlatKey(key) {
      SlugsAreFlat(lib.places);
      PrivateWriteKeeps(AllTree(lib.places), lib.files, key, data);
    }
  }

  /** The call is a failed write whose bytes are another row's loss. */
  ghost predicate Robbing(lib: Library, c: Change) {
    c.OnFiles? && RobsRow(LiveTree(lib.places), AllTree(lib.places), lib.files, c.op)
  }

  /** The call makes an unwritten row live, keeps one live, or swaps a row back whose
      bytes are gone. */
  ghost predicate Breaks(lib: Library, c: Change) {
    && c.OnFiles?
    && (|| RevivesPhantom(lib.files, c.op, Step(lib, c).1)
        || LeavesLiveRow(c.op, Step(lib, c).1)
        || (Robbing(lib, c) && ActionOf(LiveTree(lib.places), lib.files, c.op.write).Swapping?))
  }

  /** The call gives a live place the slugs of another place that has files. */
  predicate ReusesSlugs(lib: Library, c: Change) {
    c.OnPlaces? && Accepts(lib.places, c.structure) && Reuses(lib.places, lib.files.rows, c.structure)
  }

  lemma SteadyRowsPlaced(lib: Library)
    requires Steady(lib)
    ensures RowsPlaced(lib.places, lib.files.rows)
  {
    forall g <- lib.files.rows
      ensures IsPlace(lib.places, Loc(lib.files.rows[g]))
    {
      KeptLocated(AllTree(lib.places), lib.files, g);
      InTrees(lib.places, Loc(lib.files.rows[g]));
    }
  }

  lemma StructureStepGoodIff(lib: Library, c: StructureCall)
    requires Good(lib)
    ensures Good(Step(lib, OnPlaces(c)).0) <==> !ReusesSlugs(lib, OnPlaces(c))
  {
    StructureStepSteady(lib, c);
    if Accepts(lib.places, c) {
      SteadyRowsPlaced(lib);
      SlugsApartIff(lib.places, lib.files.rows, c);
    }
  }

  /** A live row that was never written is served nothing of its own. */
  lemma UnwrittenServesNothing(tree: Tree, f: Files, id: Id)
    requires IsServed(tree, f, id) && id !in f.written
    ensures !ServesOwnBytes(tree, f)
  {
  }

  lemma ActLeavesLive(f: Files, id: Id, a: Action, data: Bytes, end: Outcome)
    requires Applies(f, a) && f.written.Keys <= f.rows.Keys && (a.Refused? ==> a.why != UploadFailed)
    requires LeavesLive(end) && Act(f, id, a, data, end).1 == Some(UploadFailed) && (a.Refused? || !a.row.deleted)
    ensures !a.Refused?
    ensures var after := Act(f, id, a, data, end).0;
            id in after.rows && after.rows[id] == a.row && id !in after.written
  {
    if a.Creating? {
      assert a.row.(deleted := false) == a.row;
    }
  }

  lemma UnwrittenIsServed(live: Tree, tree: Tree, f: Files, op: Op)
    requires PartOf(live, tree) && Kept(tree, f)
    requires RevivesPhantom(f, op, FileStep(live, f, op).1) || LeavesLiveRow(op, FileStep(live, f, op).1)
    ensures !ServesOwnBytes(live, FileStep(live, f, op).0)
  {
    if op.DoWrite? {
      ActionFits(live, tree, f, op.write);
      ActLeavesLive(f, op.id, ActionOf(live, f, op.write), op.data, op.end);
    }
    UnwrittenServesNothing(live, FileStep(live, f, op).0, op.id);
  }

  lemma SwappedBackServes(live: Tree, tree: Tree, f: Files, id: Id, prior: Id, row: File, at: string, data: Bytes,
                          end: Outcome)
    requires PartOf(live, tree) && AppliedAndUndone(end) && prior in f.rows && !f.rows[prior].deleted
    requires Loc(f.rows[prior]) in live && Located(tree, f.rows[prior])
    requires Swap(f, id, prior, row, at, data, end).1 == Some(UploadFailed)
    requires Overwritten(RuleOf(tree), f, prior, at, data)
    ensures !ServesOwnBytes(live, Swap(f, id, prior, row, at, data, end).0)
  {
    UndoneSwap(f.rows, prior, id, row);
    var after := Swap(f, id, prior, row, at, data, end).0;
    assert after.rows[prior] == f.rows[prior] && after.written[prior] == f.written[prior];
    assert IsServed(live, after, prior) && !ServesOwn(live, after, prior);
  }

  lemma RobbedSwapServes(live: Tree, tree: Tree, f: Files, op: Op)
    requires PartOf(live, tree) && Kept(tree, f)
    requires RobsRow(live, tree, f, op) && ActionOf(live, f, op.write).Swapping?
    ensures !ServesOwnBytes(live, FileStep(live, f, op).0)
  {
    var a := ActionOf(live, f, op.write);
    ActionFits(live, tree, f, op.write);
    KeptLocated(tree, f, a.prior);
    assert Loc(f.rows[a.prior]) == Loc(a.row);
    SwappedBackServes(live, tree, f, op.id, a.prior, a.row, a.key, op.data, op.end);
  }

  lemma BreakingBreaks(lib: Library, c: Change)
    requires Steady(lib) && Breaks(lib, c)
    ensures !Serves(Step(lib, c).0)
  {
    LivePartOfAll(lib.places);
    if Robbing(lib, c) {
      RobbedSwapServes(LiveTree(lib.places), AllTree(lib.places), lib.files, c.op);
    } else {
      UnwrittenIsServed(LiveTree(lib.places), AllTree(lib.places), lib.files, c.op);
    }
  }

  // An upload that was applied and undone takes bytes from deleted rows only.

  lemma RobbedInsertIs(live: Tree, tree: Tree, f: Files, op: Op)
    requires PartOf(live, tree) && Kept(tree, f)
    requires RobsRow(live, tree, f, op) && !ActionOf(live, f, op.write).Swapping?
    ensures var a := ActionOf(live, f, op.write);
            && a.Inserting? && op.id !in f.rows && !LiveInSlot(f.rows, a.row)
            && RuleOf(tree)(a.row) == Some(a.key) && Robs(RuleOf(tree), f, a.key, op.data)
            && Loc(a.row) in live && Located(tree, a.row)
            && FileStep(live, f, op).0 == Failing(f, f.rows, op.id, a.key, op.data, true)
  {
    ActionFits(live, tree, f, op.write);
  }

  lemma RobbedInsertIsNotKept(live: Tree, tree: Tree, f: Files, op: Op)
    requires PartOf(live, tree) && Kept(tree, f)
    requires RobsRow(live, tree, f, op) && !ActionOf(live, f, op.write).Swapping?
    ensures !Kept(tree, FileStep(live, f, op).0)
  {
    RobbedInsertIs(live, tree, f, op);
    StrayBytesKeepIff(RuleOf(tree), f, op.id, ActionOf(live, f, op.write).key, op.data);
  }

  /** Live rows of other slots keep their objects. */
  lemma StrayBytesServe(live: Tree, tree: Tree, f: Files, id: Id, row: File, at: string, data: Bytes)
    requires PartOf(live, tree) && Kept(tree, f) && id !in f.rows
    requires Apart(RuleOf(tree), f.rows, row) && RuleOf(tree)(row) == Some(at) && !LiveInSlot(f.rows, row)
    ensures ServesOwnBytes(live, Failing(f, f.rows, id, at, data, true))
  {
    var after := Failing(f, f.rows, id, at, data, true);
    KeptServesOwnBytes(live, tree, f);
    forall g <- f.rows | IsServed(live, after, g)
      ensures ServesOwn(live, after, g)
    {
      assert IsServed(live, f, g) && ServesOwn(live, f, g) && !SameSlot(f.rows[g], row);
      assert RuleOf(tree)(f.rows[g]) == Some(KeyOf(live, f.rows[g]));
    }
  }

  lemma RobbedInsertServes(lib: Library, op: Op)
    requires Good(lib) && RobsRow(LiveTree(lib.places), AllTree(lib.places), lib.files, op)
    requires !ActionOf(LiveTree(lib.places), lib.files, op.write).Swapping?
    ensures ServesOwnBytes(LiveTree(lib.places), FileStep(LiveTree(lib.places), lib.files, op).0)
  {
    var live, tree, f := LiveTree(lib.places), AllTree(lib.places), lib.files;
    LivePartOfAll(lib.places);
    SlugsAreFlat(lib.places);
    RobbedInsertIs(live, tree, f, op);
    var a := ActionOf(live, f, op.write);
    FreeSlugsKeepApart(tree, f.rows, a.row);
    StrayBytesServe(live, tree, f, op.id, a.row, a.key, op.data);
  }

  lemma FileStepGoodIff(lib: Library, op: Op)
    requires Good(lib) && !Breaks(lib, OnFiles(op))
    ensures Good(Step(lib, OnFiles(op)).0) <==> !Robbing(lib, OnFiles(op))
  {
    LivePartOfAll(lib.places);
    if Robbing(lib, OnFiles(op)) {
      RobbedInsertIsNotKept(LiveTree(lib.places), AllTree(lib.places), lib.files, op);
    } else if op.DoWrite? {
      WriteGood(lib, op);
    } else {
      QuietFileStepGood(lib, op);
    }
  }

  lemma BrokenIsNotGood(lib: Library, c: Change)
    requires Steady(lib) && Breaks(lib, c)
    ensures !Good(Step(lib, c).0)
  {
    BreakingBreaks(lib, c);
    if Steady(Step(lib, c).0) {
      SteadyServes(Step(lib, c).0);
    }
  }

  /** From a good state, a call leaves a good state exactly when it breaks no row,
      takes no row's bytes and uses no slug again. */
  lemma StepGoodIff(lib: Library, c: Change)
    requires Good(lib)
    ensures Good(Step(lib, c).0) <==> !Breaks(lib, c) && !Robbing(lib, c) && !ReusesSlugs(lib, c)
  {
    if Breaks(lib, c) {
      BrokenIsNotGood(lib, c);
    } else {
      match c
      case OnPlaces(structure) => StructureStepGoodIff(lib, structure);
      case OnFiles(op) => FileStepGoodIff(lib, op);
      case OnPrivate(key, data) => PrivateStepGood(lib, key, data);
    }
  }

  /** From a good state, a call leaves every file that can be read with its own
      bytes exactly when it does not break a row. */
  lemma ServesOwnBytesIff(lib: Library, c: Change)
    requires Good(lib)
    ensures Serves(Step(lib, c).0) <==> !Breaks(lib, c)
  {
    if Breaks(lib, c) {
      BreakingBreaks(lib, c);
    } else if Robbing(lib, c) {
      RobbedInsertServes(lib, c.op);
    } else {
      match c
      case OnPlaces(structure) =>
        StructureStepSteady(lib, structure);
        SteadyServes(Step(lib, c).0);
      case _ =>
        StepGoodIff(lib, c);
        SteadyServes(Step(lib, c).0);
    }
  }

  // ---------------------------------------------------------------------
  // Runs in which no failed write leaves a row or takes a row's bytes, and no slug
  // is used again

  /** A failed upload whose bytes never arrived and whose row stays, live or
      soft-deleted. */
  predicate LeavesRow(c: Change, reply: Reply) {
    && c.OnFiles? && c.op.DoWrite? && reply == Some(UploadFailed)
    && c.op.end.Failed? && !c.op.end.applied && (!c.op.end.undone || !c.op.write.Uploading?)
  }

  /** A call after which some file may come to serve bytes that are not its own. */
  ghost predicate Hazardous(lib: Library, c: Change) {
    LeavesRow(c, Step(lib, c).1) || Robbing(lib, c) || ReusesSlugs(lib, c)
  }

  ghost predicate Clean(lib: Library, calls: seq<Change>)
    decreases |calls|
  {
    calls == [] || (!Hazardous(lib, calls[0]) && Clean(Step(lib, calls[0]).0, calls[1..]))
  }

  predicate NoPhantoms(f: Files) {
    f.rows.Keys <= f.written.Keys
  }

  lemma ActKeepsWritten(f: Files, id: Id, a: Action, data: Bytes, end: Outcome)
    requires NoPhantoms(f) && Applies(f, a)
    requires Act(f, id, a, data, end).1 == Some(UploadFailed) && !a.Refused? ==>
               end.Failed? && (end.applied || (end.undone && a.Inserting?))
    ensures NoPhantoms(Act(f, id, a, data, end).0)
  {
  }

  lemma WriteOnlyInserts(tree: Tree, f: Files, w: Write)
    ensures var a := ActionOf(tree, f, w); a.Inserting? <==> w.Uploading? && !a.Refused?
  {
  }

  lemma StoredNeverFails(f: Files, id: Id, a: Action, data: Bytes)
    requires Applies(f, a) && (a.Refused? ==> a.why != UploadFailed)
    ensures Act(f, id, a, data, Stored).1 != Some(UploadFailed)
  {
  }

  lemma FileStepKeepsWritten(live: Tree, f: Files, op: Op)
    requires NoPhantoms(f) && !LeavesRow(OnFiles(op), FileStep(live, f, op).1)
    ensures NoPhantoms(FileStep(live, f, op).0)
  {
    match op
    case DoDelete(_) =>
    case DoUndelete(_) =>
    case DoWrite(id, w, data, end) =>
      WriteOnlyInserts(live, f, w);
      StoredNeverFails(f, id, ActionOf(live, f, w), data);
      ActKeepsWritten(f, id, ActionOf(live, f, w), data, end);
  }

  lemma StepKeepsWritten(lib: Library, c: Change)
    requires NoPhantoms(lib.files) && !LeavesRow(c, Step(lib, c).1)
    ensures NoPhantoms(Step(lib, c).0.files)
  {
    match c
    case OnPlaces(_) =>
    case OnFiles(op) => FileStepKeepsWritten(LiveTree(lib.places), lib.files, op);
    case OnPrivate(_, _) =>
  }

  lemma CleanStep(lib: Library, c: Change)
    requires Good(lib) && NoPhantoms(lib.files) && !Hazardous(lib, c)
    ensures Good(Step(lib, c).0) && NoPhantoms(Step(lib, c).0.files)
  {
    StepKeepsWritten(lib, c);
    StepGoodIff(lib, c);
  }

  lemma {:induction false} CleanKeeps(lib: Library, calls: seq<Change>)
    requires Good(lib) && NoPhantoms(lib.files) && Clean(lib, calls)
    ensures Good(After(lib, calls)) && NoPhantoms(After(lib, calls).files)
    decreases |calls|
  {
    if calls != [] {
      CleanStep(lib, calls[0]);
      CleanKeeps(Step(lib, calls[0]).0, calls[1..]);
    }
  }

  lemma CleanRunGood(calls: seq<Change>)
    requires Clean(EMPTY_LIBRARY, calls)
    ensures Good(After(EMPTY_LIBRARY, calls)) && NoPhantoms(After(EMPTY_LIBRARY, calls).files)
  {
    EmptyIsGood();
    CleanKeeps(EMPTY_LIBRARY, calls);
  }

  /** Over every clean run, every file that can be read has its own bytes. */
  lemma CleanRunServesOwnBytes(calls: seq<Change>)
    requires Clean(EMPTY_LIBRARY, calls)
    ensures Serves(After(EMPTY_LIBRARY, calls))
  {
    CleanRunGood(calls);
    SteadyServes(After(EMPTY_LIBRARY, calls));
  }
}
