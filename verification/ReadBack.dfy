/**
 * From the stored row to the bytes a WebDAV client reads: whatever is listed
 * opens under the key its upload wrote.
 */
module ReadBack {
  import opened Wrappers
  import opened FileName
  import opened Path
  import S = Schema
  import opened Tree
  import opened Namespace
  import opened Leaves
  import FS = FileSlots
  import Places
  import FileRuns

  type Bytes = FS.Bytes

  /** `open_read`: the key, then the object under it. */
  function OpenRead(w: World, store: map<string, Bytes>, u: User, p: ResolvedPath): FsResult<Bytes>
    requires S.Lookups(w.db)
  {
    var found :- FileKeyForRead(w, u, p);
    if found.0 in store then Ok(store[found.0]) else Err(NotFound)
  }

  /** The database and the object store of a library. */
  predicate Shows(w: World, lib: FileRuns.Library) {
    && Places.LayoutOf(w.db) == lib.places && w.db.files == lib.files.rows
    && w.objects == (map k <- lib.files.objects :: |lib.files.objects[k]|)
  }

  function LiveTree(db: Db): FS.Tree {
    Places.LiveTree(Places.LayoutOf(db))
  }

  /** The path opens under the key of row `f`, which is live at a live place. */
  predicate ReadsRow(w: World, u: User, p: ResolvedPath, f: Id)
    requires S.Lookups(w.db)
  {
    && f in w.db.files && !w.db.files[f].deleted && FS.HasKey(LiveTree(w.db), w.db.files[f])
    && FileKeyForRead(w, u, p).Ok?
    && FileKeyForRead(w, u, p).value.0 == FS.KeyOf(LiveTree(w.db), w.db.files[f])
  }

  /** Path resolution and the live tree agree. */
  lemma ResolvesLiveTree(db: Db, arr: Id, voice: Option<Id>)
    requires S.ArrangementKeys(db)
    ensures match ResolvePathSlugs(db, arr, voice)
            case None => (arr, voice) !in LiveTree(db)
            case Some(s) => (arr, voice) in LiveTree(db) && LiveTree(db)[(arr, voice)] == FS.Place(s.0, s.1, s.2)
  {
    Places.InTrees(Places.LayoutOf(db), (arr, voice));
  }

  /** The key of a listed entry is that of a live row under its listed name. */
  predicate KeyOfRow(w: World, org: string, arrSlug: string, voiceSlug: Option<string>, arr: Id, voice: Option<Id>,
                     e: Entry, f: Id)
    requires S.ArrangementKeys(w.db) && S.FileSlotUnique(w.db)
  {
    && f in w.db.files && !w.db.files[f].deleted && FS.HasKey(LiveTree(w.db), w.db.files[f])
    && WebdavFilename(w.db.files[f].name, w.db.files[f].mime) == Some(e.name)
    && OrgFileKey(w, org, arrSlug, voiceSlug, arr, voice, e.name).Ok?
    && OrgFileKey(w, org, arrSlug, voiceSlug, arr, voice, e.name).value.0 == FS.KeyOf(LiveTree(w.db), w.db.files[f])
  }

  lemma EntryKey(w: World, org: string, arrSlug: string, voiceSlug: Option<string>, arr: Id, voice: Option<Id>,
                 e: Entry) returns (f: Id)
    requires S.ArrangementKeys(w.db) && S.FileSlotUnique(w.db) && Placed(w.db, org, arrSlug, voiceSlug, arr, voice)
    requires S.FileShapes(w.db.files) && e in FileEntries(w, org, arrSlug, voiceSlug, arr, voice)
    ensures KeyOfRow(w, org, arrSlug, voiceSlug, arr, voice, e, f)
  {
    f :| f in FileRows(w.db, arr, voice) && FileEntry(w, org, arrSlug, voiceSlug, w.db.files[f]) == Some(e);
    ListedRowOpens(w, org, arrSlug, voiceSlug, arr, voice, f);
    ResolvesLiveTree(w.db, arr, voice);
  }

  /** The listed entry of a directory opens as one of its rows. */
  predicate EntryReads(w: World, u: User, p: ResolvedPath, e: Entry, f: Id)
    requires S.Lookups(w.db)
  {
    ReadsRow(w, u, p, f) && WebdavFilename(w.db.files[f].name, w.db.files[f].mime) == Some(e.name)
  }

  lemma ScoreFileReads(w: World, u: User, org: string, arr: string, e: Entry) returns (f: Id)
    requires S.Lookups(w.db) && S.FileShapes(w.db.files) && Listed(w, u, ScoreDir(org, arr), e)
    ensures EntryReads(w, u, ScoreFile(org, arr, e.name), e, f)
  {
    ScoreEntriesAre(w, u, org, arr, e);
    ArrangementPlaced(w.db, u.id, org, arr);
    f := EntryKey(w, org, arr, None, ResolveArr(w.db, u.id, org, arr).value.1, None, e);
    ScoreFileUnfolds(w, u, org, arr, e.name);
  }

  lemma VoiceFileReads(w: World, u: User, org: string, arr: string, voice: string, e: Entry) returns (f: Id)
    requires S.Lookups(w.db) && S.FileShapes(w.db.files) && e.meta.Leaf? && Listed(w, u, Voice(org, arr, voice), e)
    ensures EntryReads(w, u, VoiceFile(org, arr, voice, e.name), e, f)
  {
    VoiceEntriesAre(w, u, org, arr, voice, e);
    VoicePlaced(w.db, u.id, org, arr, voice);
    var (_, a, v, _) := ResolveVoice(w.db, u.id, org, arr, voice).value;
    f := EntryKey(w, org, arr, Some(voice), a, Some(v), e);
    VoiceFileUnfolds(w, u, org, arr, voice, e.name);
  }

  lemma ItemScoreFileReads(w: World, u: User, org: string, coll: string, index: int, arrSlug: string, e: Entry)
    returns (f: Id)
    requires S.Lookups(w.db) && S.FileShapes(w.db.files) && S.ItemsStayInOrg(w.db)
    requires Listed(w, u, CollectionScoreDir(org, coll, index, arrSlug), e)
    ensures EntryReads(w, u, CollectionScoreFile(org, coll, index, arrSlug, e.name), e, f)
  {
    ItemScoreEntriesAre(w, u, org, coll, index, arrSlug, e);
    ItemPlaced(w.db, u.id, org, coll, index, arrSlug);
    var place := ResolveCollectionItem(w.db, u.id, org, coll, index, arrSlug).value;
    f := EntryKey(w, org, arrSlug, None, place.arr, None, e);
    ItemScoreFileUnfolds(w, u, org, coll, index, arrSlug, e.name);
  }

  lemma ItemVoiceFileReads(w: World, u: User, org: string, coll: string, index: int, arrSlug: string, voice: string,
                           e: Entry) returns (f: Id)
    requires S.Lookups(w.db) && S.FileShapes(w.db.files) && S.ItemsStayInOrg(w.db)
    requires Listed(w, u, CollectionVoice(org, coll, index, arrSlug, voice), e)
    ensures EntryReads(w, u, CollectionVoiceFile(org, coll, index, arrSlug, voice, e.name), e, f)
  {
    ItemVoiceEntriesAre(w, u, org, coll, index, arrSlug, voice, e);
    ItemVoicePlaced(w.db, u.id, org, coll, index, arrSlug, voice);
    var (place, v) := ResolveCollectionVoice(w.db, u.id, org, coll, index, arrSlug, voice).value;
    f := EntryKey(w, org, arrSlug, Some(voice), place.arr, Some(v), e);
    ItemVoiceFileUnfolds(w, u, org, coll, index, arrSlug, voice, e.name);
  }

  lemma ListedFileReadsRow(w: World, u: User, dir: ResolvedPath, e: Entry) returns (p: ResolvedPath, f: Id)
    requires S.Lookups(w.db) && S.FileShapes(w.db.files) && S.ItemsStayInOrg(w.db)
    requires WellFormed(dir) && InOrgTree(dir) && e.meta.Leaf? && Listed(w, u, dir, e)
    ensures LeafOpens(w, u, dir, e) && Child(dir, e.name) == Some(p) && EntryReads(w, u, p, e, f)
  {
    ListedFilesOpenIf(w, u, dir, e);
    p := Child(dir, e.name).value;
    OnlyDirectoriesIn(w, u, dir, e);
    LeafChild(w, u, dir, e);
    match dir {
      case ScoreDir(org, arr) => f := ScoreFileReads(w, u, org, arr, e);
      case Voice(org, arr, voice) => f := VoiceFileReads(w, u, org, arr, voice, e);
      case CollectionScoreDir(org, coll, index, arrSlug) => f := ItemScoreFileReads(w, u, org, coll, index, arrSlug, e);
      case CollectionVoice(org, coll, index, arrSlug, voice) =>
        f := ItemVoiceFileReads(w, u, org, coll, index, arrSlug, voice, e);
    }
  }

  /** Which leaf a listed file's name leads to. */
  lemma LeafChild(w: World, u: User, dir: ResolvedPath, e: Entry)
    requires S.Lookups(w.db) && S.FileShapes(w.db.files) && S.ItemsStayInOrg(w.db)
    requires WellFormed(dir) && InOrgTree(dir) && e.meta.Leaf? && Listed(w, u, dir, e) && Child(dir, e.name).Some?
    ensures dir.ScoreDir? ==> Child(dir, e.name) == Some(ScoreFile(dir.org, dir.arr, e.name))
    ensures dir.Voice? ==> Child(dir, e.name) == Some(VoiceFile(dir.org, dir.arr, dir.voice, e.name))
    ensures dir.CollectionScoreDir? ==>
              Child(dir, e.name) == Some(CollectionScoreFile(dir.org, dir.coll, dir.index, dir.arrSlug, e.name))
    ensures dir.CollectionVoice? ==>
              Child(dir, e.name)
              == Some(CollectionVoiceFile(dir.org, dir.coll, dir.index, dir.arrSlug, dir.voice, e.name))
  {
    match dir
    case ScoreDir(org, arr) =>
      ScoreFileOpens(w, u, org, arr, e);
      ArrangementChildren(dir, e.name);
    case Voice(org, arr, voice) =>
      VoiceFileOpens(w, u, org, arr, voice, e);
      ArrangementChildren(dir, e.name);
    case CollectionScoreDir(org, coll, index, arrSlug) =>
      ItemScoreFileOpens(w, u, org, coll, index, arrSlug, e);
      ItemChildren(dir, e.name);
    case CollectionVoice(org, coll, index, arrSlug, voice) =>
      ItemVoiceFileOpens(w, u, org, coll, index, arrSlug, voice, e);
      ItemChildren(dir, e.name);
    case _ =>
  }

  /** A listed file opens exactly when the store has an object under the key of its
      row; otherwise the read fails although the file is listed and stats. */
  lemma ListedFileOpensIff(w: World, store: map<string, Bytes>, u: User, dir: ResolvedPath, e: Entry)
    returns (p: ResolvedPath, f: Id)
    requires S.Sound(w.db) && WellFormed(dir) && InOrgTree(dir) && e.meta.Leaf? && Listed(w, u, dir, e)
    ensures Child(dir, e.name) == Some(p) && f in w.db.files && FS.HasKey(LiveTree(w.db), w.db.files[f])
    ensures WebdavFilename(w.db.files[f].name, w.db.files[f].mime) == Some(e.name)
    ensures var key := FS.KeyOf(LiveTree(w.db), w.db.files[f]);
            OpenRead(w, store, u, p) == (if key in store then Ok(store[key]) else Err(NotFound))
  {
    SoundFacts(w.db);
    p, f := ListedFileReadsRow(w, u, dir, e);
  }

  lemma RowReadsBack(w: World, lib: FileRuns.Library, u: User, p: ResolvedPath, f: Id)
    requires S.Lookups(w.db) && Shows(w, lib) && FileRuns.Steady(lib) && ReadsRow(w, u, p, f)
    ensures f in lib.files.written && OpenRead(w, lib.files.objects, u, p) == Ok(lib.files.written[f])
    ensures SizeOf(w, FileKeyForRead(w, u, p).value.0) == |lib.files.written[f]|
  {
    ServedRowHolds(lib, f);
    ReadsUnderKey(w, lib.files.objects, u, p, f);
  }

  lemma ReadsUnderKey(w: World, store: map<string, Bytes>, u: User, p: ResolvedPath, f: Id)
    requires S.Lookups(w.db) && ReadsRow(w, u, p, f) && FS.KeyOf(LiveTree(w.db), w.db.files[f]) in store
    requires w.objects == (map k <- store :: |store[k]|)
    ensures var key := FS.KeyOf(LiveTree(w.db), w.db.files[f]);
            OpenRead(w, store, u, p) == Ok(store[key]) && SizeOf(w, FileKeyForRead(w, u, p).value.0) == |store[key]|
  {
  }

  lemma ServedRowHolds(lib: FileRuns.Library, f: Id)
    requires FileRuns.Steady(lib) && f in lib.files.rows && !lib.files.rows[f].deleted
    requires FS.HasKey(Places.LiveTree(lib.places), lib.files.rows[f])
    ensures var key := FS.KeyOf(Places.LiveTree(lib.places), lib.files.rows[f]);
            f in lib.files.written && key in lib.files.objects && lib.files.objects[key] == lib.files.written[f]
  {
    FileRuns.SteadyServes(lib);
    var live := Places.LiveTree(lib.places);
    assert FS.IsServed(live, lib.files, f) && FS.ServesOwn(live, lib.files, f);
  }

  /** After every clean run, every file listed to anyone, anywhere below the two
      roots, opens with the bytes its own upload stored, and the listed size is
      their number. */
  lemma ListedFilesReadBack(calls: seq<FileRuns.Change>, w: World, u: User, dir: ResolvedPath, e: Entry)
    returns (p: ResolvedPath, f: Id)
    requires FileRuns.Clean(FileRuns.EMPTY_LIBRARY, calls)
    requires Shows(w, FileRuns.After(FileRuns.EMPTY_LIBRARY, calls)) && S.Sound(w.db)
    requires WellFormed(dir) && InOrgTree(dir) && e.meta.Leaf? && Listed(w, u, dir, e)
    ensures var files := FileRuns.After(FileRuns.EMPTY_LIBRARY, calls).files;
            && Child(dir, e.name) == Some(p) && f in w.db.files && f in files.written
            && WebdavFilename(w.db.files[f].name, w.db.files[f].mime) == Some(e.name)
            && OpenRead(w, files.objects, u, p) == Ok(files.written[f]) && e.meta == Leaf(|files.written[f]|)
  {
    FileRuns.CleanRunGood(calls);
    SoundFacts(w.db);
    p, f := ListedFileReadsRow(w, u, dir, e);
    RowReadsBack(w, FileRuns.After(FileRuns.EMPTY_LIBRARY, calls), u, p, f);
  }
}
