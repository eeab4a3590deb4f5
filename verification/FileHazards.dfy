/**
 * What can make a file serve bytes that are not its own: a failed write that leaves
 * its row behind, one that was applied all the same, and slugs used again. No other
 * call of these runs can.
 */
module FileHazards {
  import opened Wrappers
  import opened FileName
  import opened Schema
  import opened FileSlots
  import opened Places
  import opened SlugReuse
  import opened FileRuns

  // ---------------------------------------------------------------------
  // What a row left behind does

  /** After a failed replacement its row is newest: reviving it is stopped only by
      the unique index while the original lives, the original can no longer be
      restored once deleted, and the leftover can, without bytes of its own unless
      the request was applied. */
  lemma FailedSwapStrands(live: Tree, f: Files, id: Id, prior: Id, row: File, key: string, data: Bytes, applied: bool)
    requires Created(f.rows, f.now) && f.written.Keys <= f.rows.Keys && LiveSlotsUnique(f.rows)
    requires prior in f.rows && !f.rows[prior].deleted && SameSlot(f.rows[prior], row) && row.createdAt == f.now
    requires Loc(row) in live && Swap(f, id, prior, row, key, data, Failed(applied, true)).1 == Some(UploadFailed)
    ensures var left := Swap(f, id, prior, row, key, data, Failed(applied, true)).0;
            var gone := Delete(left, prior).0;
            && Undelete(left, id).1 == Some(Duplicate)
            && Undelete(gone, prior).1 == Some(Superseded)
            && Undelete(gone, id).1 == None
            && (!applied ==> !ServesOwnBytes(live, Undelete(gone, id).0))
  {
    UndoneSwap(f.rows, prior, id, row);
    var left := Swap(f, id, prior, row, key, data, Failed(applied, true)).0;
    var gone := Delete(left, prior).0;
    assert !NewerSibling(left.rows, id, prior) && NewerSibling(gone.rows, prior, id);
    assert NewestInSlot(left.rows, id) && NewestInSlot(gone.rows, id);
    assert !left.rows[prior].deleted && SameSlot(left.rows[prior], left.rows[id]);
    assert !LiveInSlot(gone.rows, gone.rows[id]);
    if !applied {
      UnwrittenServesNothing(live, Undelete(gone, id).0, id);
    }
  }

  /** After a failed WebDAV create its row can be revived at once; deleting it
      again first changes nothing. */
  lemma FailedCreateStrands(live: Tree, f: Files, id: Id, row: File, key: string, data: Bytes)
    requires Created(f.rows, f.now) && f.written.Keys <= f.rows.Keys && row.createdAt == f.now
    requires Loc(row) in live && Create(f, id, row, key, data, Failed(false, true)).1 == Some(UploadFailed)
    ensures var left := Create(f, id, row, key, data, Failed(false, true)).0;
            var same := Delete(left, id).0;
            && Undelete(left, id).1 == None && !ServesOwnBytes(live, Undelete(left, id).0)
            && Undelete(same, id).1 == None && !ServesOwnBytes(live, Undelete(same, id).0)
  {
    var left := Create(f, id, row, key, data, Failed(false, true)).0;
    assert NewestInSlot(left.rows, id) && !LiveInSlot(left.rows, left.rows[id]);
    UnwrittenServesNothing(live, Undelete(left, id).0, id);
    UnwrittenServesNothing(live, Undelete(Delete(left, id).0, id).0, id);
  }

  lemma UnfinishedSwap(f: Files, id: Id, prior: Id, row: File, key: string, data: Bytes)
    requires prior in f.rows && Swap(f, id, prior, row, key, data, Failed(false, false)).1 == Some(UploadFailed)
    ensures id !in f.rows
    ensures Swap(f, id, prior, row, key, data, Failed(false, false)).0
         == Tick(f.(rows := Swapped(f.rows, prior, id, row)))
  {
  }

  lemma ReplacementIsSwap(live: Tree, f: Files, id: Id, prior: Id, mime: string, data: Bytes, end: Outcome)
    requires FileStep(live, f, DoWrite(id, Replacing(prior, mime), data, end)).1 == Some(UploadFailed)
    ensures prior in f.rows && !f.rows[prior].deleted && HasKey(live, f.rows[prior])
    ensures var row := ReplacementRow(f.now, f.rows[prior]).value;
            FileStep(live, f, DoWrite(id, Replacing(prior, mime), data, end))
            == Swap(f, id, prior, row, KeyOf(live, row), data, end)
  {
    ReplaceActionSwaps(live, f, prior, mime);
  }

  lemma ReplacementRowSlot(live: Tree, now: Time, was: File)
    requires HasKey(live, was) && FileShape(was)
    ensures var row := ReplacementRow(now, was).value;
            && SameSlot(was, row) && KeyOf(live, row) == KeyOf(live, was) && Loc(row) == Loc(was)
            && row.createdAt == now && !row.deleted
  {
  }

  /** `prior` is replaced by a live row of its slot whose bytes never arrived. */
  predicate Displaced(live: Tree, f: Files, after: Files, prior: Id, id: Id) {
    && prior in after.rows && after.rows[prior].deleted
    && IsServed(live, after, id) && id !in after.written && NewerSibling(after.rows, prior, id)
    && prior in f.written && HasKey(live, after.rows[id])
    && KeyOf(live, after.rows[id]) in after.objects
    && after.objects[KeyOf(live, after.rows[id])] == f.written[prior]
  }

  lemma UnfinishedSwapDisplaces(live: Tree, f: Files, id: Id, prior: Id, row: File)
    requires id !in f.rows && prior in f.rows && IsServed(live, f, prior) && ServesOwn(live, f, prior)
    requires f.written.Keys <= f.rows.Keys && f.rows[prior].createdAt < row.createdAt && !row.deleted
    requires SameSlot(f.rows[prior], row) && HasKey(live, row) && KeyOf(live, row) == KeyOf(live, f.rows[prior])
    ensures Displaced(live, f, Tick(f.(rows := Swapped(f.rows, prior, id, row))), prior, id)
  {
  }

  lemma UncompensatedReplacementDisplaces(live: Tree, tree: Tree, f: Files, id: Id, prior: Id, mime: string,
                                          data: Bytes)
    requires PartOf(live, tree) && Kept(tree, f)
    requires FileStep(live, f, DoWrite(id, Replacing(prior, mime), data, Failed(false, false))).1 == Some(UploadFailed)
    ensures Displaced(live, f, FileStep(live, f, DoWrite(id, Replacing(prior, mime), data, Failed(false, false))).0,
                      prior, id)
  {
    ReplacementIsSwap(live, f, id, prior, mime, data, Failed(false, false));
    KeptLocated(tree, f, prior);
    var row := ReplacementRow(f.now, f.rows[prior]).value;
    ReplacementRowSlot(live, f.now, f.rows[prior]);
    UnfinishedSwap(f, id, prior, row, KeyOf(live, row), data);
    KeptServesOwnBytes(live, tree, f);
    UnfinishedSwapDisplaces(live, f, id, prior, row);
  }

  /** A failed replacement whose compensation fails too leaves a live row, and its
      key holds the bytes of the row it replaced, which can no longer be restored. */
  lemma UncompensatedReplacementServesOldBytes(lib: Library, id: Id, prior: Id, mime: string, data: Bytes)
    requires Steady(lib)
    requires Step(lib, OnFiles(DoWrite(id, Replacing(prior, mime), data, Failed(false, false)))).1 == Some(UploadFailed)
    ensures var after := Step(lib, OnFiles(DoWrite(id, Replacing(prior, mime), data, Failed(false, false)))).0;
            && Displaced(LiveTree(lib.places), lib.files, after.files, prior, id)
            && Step(after, OnFiles(DoUndelete(prior))).1 == Some(Superseded)
  {
    LivePartOfAll(lib.places);
    UncompensatedReplacementDisplaces(LiveTree(lib.places), AllTree(lib.places), lib.files, id, prior, mime, data);
    SupersededBy(LiveTree(lib.places),
                 Step(lib, OnFiles(DoWrite(id, Replacing(prior, mime), data, Failed(false, false)))).0.files,
                 prior, id);
  }

  lemma SupersededBy(live: Tree, f: Files, prior: Id, id: Id)
    requires prior in f.rows && f.rows[prior].deleted && IsServed(live, f, id) && NewerSibling(f.rows, prior, id)
    ensures FileStep(live, f, DoUndelete(prior)).1 == Some(Superseded)
  {
  }

  // ---------------------------------------------------------------------
  // Safe states

  /** A call that writes no file. */
  predicate IsQuiet(c: Change) {
    c.OnFiles? ==> !c.op.DoWrite?
  }

  predicate AllQuiet(calls: seq<Change>) {
    forall c <- calls :: IsQuiet(c)
  }

  /** Whatever clean calls follow, and then whatever calls that write no file,
      every file that can be read has its own bytes. */
  ghost predicate Safe(lib: Library) {
    forall calls: seq<Change>, quiet: seq<Change> | Clean(lib, calls) && AllQuiet(quiet) ::
      Serves(After(After(lib, calls), quiet))
  }

  lemma QuietStepSteady(lib: Library, c: Change)
    requires Steady(lib) && NoPhantoms(lib.files) && IsQuiet(c)
    ensures Steady(Step(lib, c).0) && NoPhantoms(Step(lib, c).0.files)
  {
    StepKeepsWritten(lib, c);
    match c
    case OnPlaces(structure) => StructureStepSteady(lib, structure);
    case OnFiles(op) => QuietFileStepKept(LiveTree(lib.places), AllTree(lib.places), lib.files, op);
    case OnPrivate(key, data) => PrivateStepGood(lib, key, data);
  }

  lemma {:induction false} QuietRunSteady(lib: Library, quiet: seq<Change>)
    requires Steady(lib) && NoPhantoms(lib.files) && AllQuiet(quiet)
    ensures Steady(After(lib, quiet))
    decreases |quiet|
  {
    if quiet != [] {
      QuietStepSteady(lib, quiet[0]);
      QuietRunSteady(Step(lib, quiet[0]).0, quiet[1..]);
    }
  }

  lemma GoodIsSafe(lib: Library)
    requires Good(lib) && NoPhantoms(lib.files)
    ensures Safe(lib)
  {
    forall calls: seq<Change>, quiet: seq<Change> | Clean(lib, calls) && AllQuiet(quiet)
      ensures Serves(After(After(lib, calls), quiet))
    {
      CleanKeeps(lib, calls);
      QuietRunSteady(After(lib, calls), quiet);
      SteadyServes(After(After(lib, calls), quiet));
    }
  }

  lemma NotSafe(lib: Library, calls: seq<Change>, quiet: seq<Change>)
    requires Clean(lib, calls) && AllQuiet(quiet) && !Serves(After(After(lib, calls), quiet))
    ensures !Safe(lib)
  {
  }

  // A row left behind makes a state unsafe.

  /** Deleting one row and restoring another leaves a row without bytes live. */
  ghost predicate BrokenBy(live: Tree, f: Files, gone: Id, back: Id) {
    var mid := FileStep(live, f, DoDelete(gone)).0;
    !ServesOwnBytes(live, FileStep(live, mid, DoUndelete(back)).0)
  }

  lemma LeftSwap(live: Tree, f: Files, id: Id, prior: Id, row: File, key: string, data: Bytes)
    requires Created(f.rows, f.now) && f.written.Keys <= f.rows.Keys && LiveSlotsUnique(f.rows)
    requires prior in f.rows && !f.rows[prior].deleted && SameSlot(f.rows[prior], row) && row.createdAt == f.now
    requires Loc(row) in live && Swap(f, id, prior, row, key, data, Failed(false, true)).1 == Some(UploadFailed)
    ensures BrokenBy(live, Swap(f, id, prior, row, key, data, Failed(false, true)).0, prior, id)
  {
    FailedSwapStrands(live, f, id, prior, row, key, data, false);
  }

  lemma LeftCreate(live: Tree, f: Files, id: Id, row: File, key: string, data: Bytes)
    requires Created(f.rows, f.now) && f.written.Keys <= f.rows.Keys && row.createdAt == f.now
    requires Loc(row) in live && Create(f, id, row, key, data, Failed(false, true)).1 == Some(UploadFailed)
    ensures BrokenBy(live, Create(f, id, row, key, data, Failed(false, true)).0, id, id)
  {
    FailedCreateStrands(live, f, id, row, key, data);
  }

  lemma LeftRowBreaks(live: Tree, tree: Tree, f: Files, op: Op) returns (gone: Id, back: Id)
    requires PartOf(live, tree) && Kept(tree, f)
    requires op.DoWrite? && op.end == Failed(false, true) && !op.write.Uploading?
    requires FileStep(live, f, op).1 == Some(UploadFailed)
    ensures BrokenBy(live, FileStep(live, f, op).0, gone, back)
  {
    var a := ActionOf(live, f, op.write);
    ActionFits(live, tree, f, op.write);
    WriteOnlyInserts(live, f, op.write);
    gone, back := if a.Swapping? then a.prior else op.id, op.id;
    match a {
      case Creating(row, key) => LeftCreate(live, f, op.id, row, key, op.data);
      case Swapping(prior, row, key) => LeftSwap(live, f, op.id, prior, row, key, op.data);
    }
  }

  lemma AfterTwo(lib: Library, a: Change, b: Change)
    ensures After(lib, [a, b]) == Step(Step(lib, a).0, b).0
  {
    assert [a, b][1..] == [b];
    assert After(Step(lib, a).0, [b]) == After(Step(Step(lib, a).0, b).0, []);
  }

  lemma BrokenIsUnsafe(lib: Library, gone: Id, back: Id)
    requires BrokenBy(LiveTree(lib.places), lib.files, gone, back)
    ensures !Safe(lib)
  {
    var a, b := OnFiles(DoDelete(gone)), OnFiles(DoUndelete(back));
    AfterTwo(lib, a, b);
    NotSafe(lib, [], [a, b]);
  }

  lemma NotServingIsUnsafe(lib: Library)
    requires !Serves(lib)
    ensures !Safe(lib)
  {
    assert After(After(lib, []), []) == lib;
    NotSafe(lib, [], []);
  }

  lemma LeavingDeletedRowIsUnsafe(lib: Library, op: Op)
    requires Steady(lib) && op.DoWrite? && op.end == Failed(false, true) && !op.write.Uploading?
    requires FileStep(LiveTree(lib.places), lib.files, op).1 == Some(UploadFailed)
    ensures !Safe(lib.(files := FileStep(LiveTree(lib.places), lib.files, op).0))
  {
    LivePartOfAll(lib.places);
    var gone, back := LeftRowBreaks(LiveTree(lib.places), AllTree(lib.places), lib.files, op);
    BrokenIsUnsafe(lib.(files := FileStep(LiveTree(lib.places), lib.files, op).0), gone, back);
  }

  lemma LeavingLiveRowIsUnsafe(lib: Library, op: Op)
    requires Steady(lib) && LeavesLiveRow(op, FileStep(LiveTree(lib.places), lib.files, op).1)
    ensures !Safe(lib.(files := FileStep(LiveTree(lib.places), lib.files, op).0))
  {
    LivePartOfAll(lib.places);
    UnwrittenIsServed(LiveTree(lib.places), AllTree(lib.places), lib.files, op);
    NotServingIsUnsafe(lib.(files := FileStep(LiveTree(lib.places), lib.files, op).0));
  }

  lemma LeavingRowIsUnsafe(lib: Library, op: Op)
    requires Steady(lib) && LeavesRow(OnFiles(op), FileStep(LiveTree(lib.places), lib.files, op).1)
    ensures !Safe(lib.(files := FileStep(LiveTree(lib.places), lib.files, op).0))
  {
    if op.end.undone {
      LeavingDeletedRowIsUnsafe(lib, op);
    } else {
      LeavingLiveRowIsUnsafe(lib, op);
    }
  }

  // ---------------------------------------------------------------------
  // Overwritten bytes make a state unsafe

  /** The newest row of a row's slot. */
  lemma {:induction false} NewestOf(f: Files, g: Id) returns (n: Id)
    requires g in f.rows && Created(f.rows, f.now)
    ensures n in f.rows && SameSlot(f.rows[n], f.rows[g]) && NewestInSlot(f.rows, n)
    decreases f.now - f.rows[g].createdAt
  {
    if h :| h in f.rows && NewerSibling(f.rows, g, h) {
      n := NewestOf(f, h);
    } else {
      n := g;
    }
  }

  lemma {:induction false} AboveAll(ids: set<Id>) returns (bound: Id)
    ensures forall x <- ids :: x < bound
  {
    bound := 0;
    if x :| x in ids {
      var rest := AboveAll(ids - {x});
      bound := if rest <= x then x + 1 else rest;
      assert forall y <- ids :: y == x || y in ids - {x};
    }
  }

  /** A file name that, put at a place with the slugs of another, writes the object
      of a row there. */
  lemma TwinName(live: Tree, tree: Tree, now: Time, l: Location, was: File) returns (filename: string, row: File)
    requires l in live && FlatTree(tree) && Located(tree, was) && live[l] == tree[Loc(was)]
    ensures DavRow(now, l, filename) == Some(row) && '/' !in filename
    ensures HasKey(live, row) && Loc(row) == l && !row.deleted && KeyOf(live, row) == KeyOf(tree, was)
  {
    var ext := FormatAndExtForMime(was.mime).value.1;
    filename := was.name + "." + ext;
    FileNameRoundTrip(was.name, was.mime);
    row := DavRow(now, l, filename).value;
  }

  /** `data` was stored for a new row of `l`; rows of other places stay as they were. */
  predicate OverwrittenAt(f: Files, after: Files, id: Id, l: Location, key: string, data: Bytes) {
    && after.written == f.written[id := data] && after.objects == f.objects[key := data]
    && (forall g <- f.rows | Loc(f.rows[g]) != l :: g in after.rows && after.rows[g] == f.rows[g])
    && forall g <- after.rows | Loc(after.rows[g]) != l :: g in f.rows && f.rows[g] == after.rows[g]
  }

  lemma CreateOverwrites(f: Files, id: Id, row: File, key: string, data: Bytes)
    requires id !in f.rows && !LiveInSlot(f.rows, row)
    ensures Create(f, id, row, key, data, Stored).1 == None
    ensures OverwrittenAt(f, Create(f, id, row, key, data, Stored).0, id, Loc(row), key, data)
  {
  }

  lemma SwapOverwrites(f: Files, id: Id, prior: Id, row: File, key: string, data: Bytes)
    requires id !in f.rows && LiveSlotsUnique(f.rows)
    requires prior in f.rows && !f.rows[prior].deleted && SameSlot(f.rows[prior], row)
    ensures Swap(f, id, prior, row, key, data, Stored).1 == None
    ensures OverwrittenAt(f, Swap(f, id, prior, row, key, data, Stored).0, id, Loc(row), key, data)
  {
  }

  lemma PutActionIs(live: Tree, f: Files, l: Location, filename: string, row: File)
    requires l in live && DavRow(f.now, l, filename) == Some(row) && '/' !in filename && HasKey(live, row)
    ensures DavAction(live, f, l, filename) == match LiveRow(f.rows, row)
                                               case Some(prior) => Swapping(prior, row, KeyOf(live, row))
                                               case None => Creating(row, KeyOf(live, row))
  {
  }

  lemma PutOverwrites(live: Tree, f: Files, id: Id, l: Location, filename: string, row: File, data: Bytes)
    requires l in live && DavRow(f.now, l, filename) == Some(row) && '/' !in filename
    requires HasKey(live, row) && Loc(row) == l && id !in f.rows && LiveSlotsUnique(f.rows)
    ensures var (after, reply) := FileStep(live, f, DoWrite(id, DavPutting(l, filename), data, Stored));
            reply == None && OverwrittenAt(f, after, id, l, KeyOf(live, row), data)
  {
    PutActionIs(live, f, l, filename, row);
    match LiveRow(f.rows, row)
    case Some(prior) => SwapOverwrites(f, id, prior, row, KeyOf(live, row), data);
    case None => CreateOverwrites(f, id, row, KeyOf(live, row), data);
  }

  /** `n` is live, or `undelete` restores it; and its key holds other bytes. */
  predicate Robbed(tree: Tree, f: Files, n: Id) {
    && n in f.rows && n in f.written && HasKey(tree, f.rows[n])
    && KeyOf(tree, f.rows[n]) in f.objects && f.objects[KeyOf(tree, f.rows[n])] != f.written[n]
    && (f.rows[n].deleted ==> NewestInSlot(f.rows, n) && !LiveInSlot(f.rows, f.rows[n]))
  }

  lemma OverwritingRobs(tree: Tree, f: Files, after: Files, id: Id, l: Location, data: Bytes, n: Id)
    requires n in f.rows && n in f.written && id !in f.rows && HasKey(tree, f.rows[n]) && Loc(f.rows[n]) != l
    requires OverwrittenAt(f, after, id, l, KeyOf(tree, f.rows[n]), data) && data != f.written[n]
    requires f.rows[n].deleted ==> NewestInSlot(f.rows, n) && !LiveInSlot(f.rows, f.rows[n])
    ensures Robbed(tree, after, n)
  {
    forall g <- after.rows | SameSlot(after.rows[g], after.rows[n])
      ensures g in f.rows && f.rows[g] == after.rows[g]
    {
      assert Loc(after.rows[g]) != l;
    }
    if f.rows[n].deleted {
      forall g <- after.rows
        ensures !NewerSibling(after.rows, n, g)
      {
        assert g in f.rows ==> !NewerSibling(f.rows, n, g);
      }
    }
  }

  function Restructurings(cs: seq<StructureCall>): seq<Change> {
    if cs == [] then [] else [OnPlaces(cs[0])] + Restructurings(cs[1..])
  }

  lemma {:induction false} AfterRestructurings(lib: Library, cs: seq<StructureCall>)
    requires AcceptsAll(lib.places, cs)
    ensures After(lib, Restructurings(cs)) == lib.(places := ChangedBy(lib.places, cs))
    ensures AllQuiet(Restructurings(cs))
    decreases |cs|
  {
    if cs != [] {
      var next := lib.(places := Changed(lib.places, cs[0]));
      assert Restructurings(cs)[1..] == Restructurings(cs[1..]);
      assert After(lib, Restructurings(cs)) == After(next, Restructurings(cs[1..]));
      AfterRestructurings(next, cs[1..]);
    }
  }

  lemma {:induction false} AfterConcat(lib: Library, a: seq<Change>, b: seq<Change>)
    ensures After(lib, a + b) == After(After(lib, a), b)
    decreases |a|
  {
    if a == [] {
      assert a + b == b;
    } else {
      assert (a + b)[1..] == a[1..] + b;
      AfterConcat(Step(lib, a[0]).0, a[1..], b);
    }
  }

  lemma RobbedServesForeignBytes(live: Tree, tree: Tree, f: Files, n: Id)
    requires PartOf(live, tree) && Robbed(tree, f, n) && Loc(f.rows[n]) in live
    ensures !ServesOwnBytes(live, if f.rows[n].deleted then FileStep(live, f, DoUndelete(n)).0 else f)
  {
    var g := if f.rows[n].deleted then FileStep(live, f, DoUndelete(n)).0 else f;
    assert IsServed(live, g, n) && !ServesOwn(live, g, n);
  }

  /** Once a robbed row's place is live, restoring the row shows foreign bytes. */
  lemma RobbedRevealed(lib: Library, n: Id) returns (quiet: seq<Change>)
    requires Robbed(AllTree(lib.places), lib.files, n) && Loc(lib.files.rows[n]) in LiveTree(lib.places)
    ensures AllQuiet(quiet) && !Serves(After(lib, quiet))
  {
    var live, f := LiveTree(lib.places), lib.files;
    LivePartOfAll(lib.places);
    RobbedServesForeignBytes(live, AllTree(lib.places), f, n);
    quiet := [];
    if f.rows[n].deleted {
      quiet := [OnFiles(DoUndelete(n))];
      FileStepIs(lib, DoUndelete(n));
      assert After(Step(lib, quiet[0]).0, quiet[1..]) == Step(lib, quiet[0]).0;
    }
  }

  /** A robbed row can be made to show foreign bytes by calls that write no file. */
  lemma RobbedCanBeRead(lib: Library, n: Id) returns (quiet: seq<Change>)
    requires LayoutOk(lib.places) && Robbed(AllTree(lib.places), lib.files, n)
    ensures AllQuiet(quiet) && !Serves(After(lib, quiet))
  {
    var l := Loc(lib.files.rows[n]);
    InTrees(lib.places, l);
    var cs := AnyPlaceCanLive(lib.places, l);
    AfterRestructurings(lib, cs);
    var next := lib.(places := ChangedBy(lib.places, cs));
    InTrees(next.places, l);
    var rest := RobbedRevealed(next, n);
    AfterConcat(lib, Restructurings(cs), rest);
    quiet := Restructurings(cs) + rest;
  }

  // An upload that failed, was applied and undone.

  lemma LastIsNewest(f: Files, n: Id)
    requires NoPhantoms(f) && n in f.rows && LastWritten(f, n)
    ensures NewestInSlot(f.rows, n)
  {
  }

  lemma StrayBytesRob(tree: Tree, f: Files, id: Id, row: File, at: string, data: Bytes, g: Id)
    requires Kept(tree, f) && NoPhantoms(f) && id !in f.rows && !LiveInSlot(f.rows, row)
    requires Apart(RuleOf(tree), f.rows, row) && RuleOf(tree)(row) == Some(at)
    requires g in f.rows && Retrievable(f, g) && Overwritten(RuleOf(tree), f, g, at, data)
    ensures Robbed(tree, Failing(f, f.rows, id, at, data, true), g)
  {
    KeptLocated(tree, f, g);
    assert SameSlot(f.rows[g], row);
    if f.rows[g].deleted {
      LastIsNewest(f, g);
    }
  }

  lemma RobbedInsertIsUnsafe(lib: Library, op: Op)
    requires Good(lib) && NoPhantoms(lib.files)
    requires RobsRow(LiveTree(lib.places), AllTree(lib.places), lib.files, op)
    requires !ActionOf(LiveTree(lib.places), lib.files, op.write).Swapping?
    ensures !Safe(lib.(files := FileStep(LiveTree(lib.places), lib.files, op).0))
  {
    var live, tree, f := LiveTree(lib.places), AllTree(lib.places), lib.files;
    LivePartOfAll(lib.places);
    SlugsAreFlat(lib.places);
    RobbedInsertIs(live, tree, f, op);
    var a := ActionOf(live, f, op.write);
    FreeSlugsKeepApart(tree, f.rows, a.row);
    var g :| g in f.rows && Retrievable(f, g) && Overwritten(RuleOf(tree), f, g, a.key, op.data);
    StrayBytesRob(tree, f, op.id, a.row, a.key, op.data, g);
    var after := lib.(files := FileStep(live, f, op).0);
    var quiet := RobbedCanBeRead(after, g);
    assert After(after, []) == after;
    NotSafe(after, [], quiet);
  }

  lemma RobbedSwapIsUnsafe(lib: Library, op: Op)
    requires Steady(lib) && RobsRow(LiveTree(lib.places), AllTree(lib.places), lib.files, op)
    requires ActionOf(LiveTree(lib.places), lib.files, op.write).Swapping?
    ensures !Safe(lib.(files := FileStep(LiveTree(lib.places), lib.files, op).0))
  {
    LivePartOfAll(lib.places);
    RobbedSwapServes(LiveTree(lib.places), AllTree(lib.places), lib.files, op);
    NotServingIsUnsafe(lib.(files := FileStep(LiveTree(lib.places), lib.files, op).0));
  }

  // A write under slugs that another place with files has.

  /** The row of a slot that is live, or that `undelete` restores. */
  lemma ServableOf(f: Files, g: Id) returns (n: Id)
    requires g in f.rows && Created(f.rows, f.now)
    ensures n in f.rows && SameSlot(f.rows[n], f.rows[g])
    ensures f.rows[n].deleted ==> NewestInSlot(f.rows, n) && !LiveInSlot(f.rows, f.rows[n])
  {
    if h :| h in f.rows && !f.rows[h].deleted && SameSlot(f.rows[h], f.rows[g]) {
      n := h;
    } else {
      n := NewestOf(f, g);
    }
  }

  /** One write to a place robs a row of another place with its slugs. */
  lemma WriteRobs(live: Tree, tree: Tree, f: Files, l: Location, n: Id) returns (w: Op)
    requires PartOf(live, tree) && FlatTree(tree) && Kept(tree, f) && NoPhantoms(f)
    requires l in live && n in f.rows && Loc(f.rows[n]) != l
    requires f.rows[n].deleted ==> NewestInSlot(f.rows, n) && !LiveInSlot(f.rows, f.rows[n])
    requires Loc(f.rows[n]) in tree && tree[Loc(f.rows[n])] == live[l]
    ensures w.DoWrite? && FileStep(live, f, w).1 == None && Robbed(tree, FileStep(live, f, w).0, n)
  {
    KeptLocated(tree, f, n);
    var filename, row := TwinName(live, tree, f.now, l, f.rows[n]);
    var id := AboveAll(f.rows.Keys);
    var data := f.written[n] + [0];
    w := DoWrite(id, DavPutting(l, filename), data, Stored);
    PutOverwrites(live, f, id, l, filename, row, data);
    assert |data| != |f.written[n]|;
    OverwritingRobs(tree, f, FileStep(live, f, w).0, id, l, data, n);
  }

  lemma RobberyIsUnsafe(lib: Library, w: Op, n: Id)
    requires LayoutOk(lib.places) && w.DoWrite? && FileStep(LiveTree(lib.places), lib.files, w).1 == None
    requires Robbed(AllTree(lib.places), FileStep(LiveTree(lib.places), lib.files, w).0, n)
    ensures !Safe(lib)
  {
    FileStepIs(lib, w);
    var next := Step(lib, OnFiles(w)).0;
    var quiet := RobbedCanBeRead(next, n);
    assert [OnFiles(w)][1..] == [];
    assert After(lib, [OnFiles(w)]) == After(next, []);
    assert Clean(next, []);
    NotSafe(lib, [OnFiles(w)], quiet);
  }

  lemma TakenIsUnsafe(lib: Library, l: Location)
    requires Steady(lib) && NoPhantoms(lib.files)
    requires IsLive(lib.places, l) && TakenPlace(lib.places, lib.files.rows, l)
    ensures !Safe(lib)
  {
    var p, f := lib.places, lib.files;
    var g :| && g in f.rows && Loc(f.rows[g]) != l && IsPlace(p, Loc(f.rows[g]))
             && PlaceAt(p, Loc(f.rows[g])) == PlaceAt(p, l);
    var n := ServableOf(f, g);
    assert Loc(f.rows[n]) == Loc(f.rows[g]);
    InTrees(p, l);
    InTrees(p, Loc(f.rows[n]));
    LivePartOfAll(p);
    SlugsAreFlat(p);
    var w := WriteRobs(LiveTree(p), AllTree(p), f, l, n);
    RobberyIsUnsafe(lib, w, n);
  }

  // ---------------------------------------------------------------------
  // Exactly these hazards

  /** A state in which every row was written and every retrievable row holds its own
      bytes is safe exactly when no live place has the slugs of another place with
      files. */
  lemma SafeIffSlugsApart(lib: Library)
    requires Steady(lib) && NoPhantoms(lib.files)
    ensures Safe(lib) <==> SlugsApart(lib.places, lib.files.rows)
  {
    if SlugsApart(lib.places, lib.files.rows) {
      GoodIsSafe(lib);
    } else {
      ApartIff(lib.places, lib.files.rows);
      var l: Location :| IsLive(lib.places, l) && TakenPlace(lib.places, lib.files.rows, l);
      TakenIsUnsafe(lib, l);
    }
  }

  lemma HazardousWriteIsUnsafe(lib: Library, op: Op)
    requires Good(lib) && NoPhantoms(lib.files) && Hazardous(lib, OnFiles(op))
    ensures !Safe(lib.(files := FileStep(LiveTree(lib.places), lib.files, op).0))
  {
    if LeavesRow(OnFiles(op), FileStep(LiveTree(lib.places), lib.files, op).1) {
      LeavingRowIsUnsafe(lib, op);
    } else if ActionOf(LiveTree(lib.places), lib.files, op.write).Swapping? {
      RobbedSwapIsUnsafe(lib, op);
    } else {
      RobbedInsertIsUnsafe(lib, op);
    }
  }

  /** Among file calls, exactly a failed write is unsafe that leaves its row without
      bytes, or whose bytes arrived and are another row's loss. */
  lemma FailedWriteIsTheOnlyCause(lib: Library, op: Op)
    requires Good(lib) && NoPhantoms(lib.files)
    ensures Safe(Step(lib, OnFiles(op)).0)
       <==> !LeavesRow(OnFiles(op), Step(lib, OnFiles(op)).1) && !Robbing(lib, OnFiles(op))
  {
    FileStepIs(lib, op);
    if Hazardous(lib, OnFiles(op)) {
      HazardousWriteIsUnsafe(lib, op);
    } else {
      CleanStep(lib, OnFiles(op));
      GoodIsSafe(Step(lib, OnFiles(op)).0);
    }
  }

  /** Among structural calls, only giving a live place the slugs of another place
      with files is. */
  lemma ReuseIsTheOnlyCause(lib: Library, structure: StructureCall)
    requires Good(lib) && NoPhantoms(lib.files)
    ensures Safe(Step(lib, OnPlaces(structure)).0) <==> !ReusesSlugs(lib, OnPlaces(structure))
  {
    StructureStepSteady(lib, structure);
    StructureStepGoodIff(lib, structure);
    SafeIffSlugsApart(Step(lib, OnPlaces(structure)).0);
  }

  /** Annotations and libraries never are. */
  lemma PrivateWritesAreSafe(lib: Library, key: PrivateKey, data: Option<Bytes>)
    requires Good(lib) && NoPhantoms(lib.files)
    ensures Safe(Step(lib, OnPrivate(key, data)).0)
  {
    CleanStep(lib, OnPrivate(key, data));
    GoodIsSafe(Step(lib, OnPrivate(key, data)).0);
  }

  lemma OnlyHazardsFrom(lib: Library, c: Change)
    requires Good(lib) && NoPhantoms(lib.files)
    ensures Safe(Step(lib, c).0) <==> !Hazardous(lib, c)
  {
    match c
    case OnFiles(op) => FailedWriteIsTheOnlyCause(lib, op);
    case OnPlaces(structure) => ReuseIsTheOnlyCause(lib, structure);
    case OnPrivate(key, data) => PrivateWritesAreSafe(lib, key, data);
  }

  /** After every clean run, a call leaves a safe state exactly when it is none of the
      three hazards. */
  lemma OnlyHazards(calls: seq<Change>, c: Change)
    requires Clean(EMPTY_LIBRARY, calls)
    ensures var lib := After(EMPTY_LIBRARY, calls); Safe(Step(lib, c).0) <==> !Hazardous(lib, c)
  {
    CleanRunGood(calls);
    OnlyHazardsFrom(After(EMPTY_LIBRARY, calls), c);
  }
}
