/**
 * File leaves: every listed file can be looked up and read, with the size the
 * listing showed, and a looked-up file is a listed one of the same stem and
 * format.
 */
module Leaves {
  import opened Wrappers
  import opened FileName
  import opened Path
  import S = Schema
  import opened Tree
  import opened Namespace

  /** The path's slugs are those of a live arrangement and, if any, a live voice of it. */
  predicate Placed(db: Db, org: string, arrSlug: string, voiceSlug: Option<string>, arr: Id, voice: Option<Id>) {
    && arr in db.arrangements && !db.arrangements[arr].deleted && db.arrangements[arr].slug == arrSlug
    && db.arrangements[arr].org in db.orgs && db.orgs[db.arrangements[arr].org].slug == org
    && match (voiceSlug, voice)
       case (None, None) => true
       case (Some(slug), Some(v)) =>
         v in db.voices && db.voices[v].arr == arr && !db.voices[v].deleted && db.voices[v].slug == slug
       case _ => false
  }

  /** Looking the entry's name up and opening it give what the entry shows. */
  predicate Opens(w: World, org: string, arrSlug: string, voiceSlug: Option<string>, arr: Id, voice: Option<Id>,
                  e: Entry)
    requires S.ArrangementKeys(w.db) && S.FileSlotUnique(w.db)
  {
    && StatOrgFile(w, arr, voice, e.name) == Ok(e.meta)
    && OrgFileKey(w, org, arrSlug, voiceSlug, arr, voice, e.name).Ok?
    && OrgFileKey(w, org, arrSlug, voiceSlug, arr, voice, e.name).value.1 == e.meta
    && e.meta == Leaf(SizeOf(w, OrgFileKey(w, org, arrSlug, voiceSlug, arr, voice, e.name).value.0))
  }

  /** A listed file name is one path segment and no reserved name. */
  predicate SafeName(name: string) {
    !Unnameable(name) && '/' !in name && name != "annotations"
  }

  lemma DottedNameIsSafe(name: string, ext: string)
    requires name != "" && ext != "" && '/' !in name && '/' !in ext
    ensures SafeName(name + "." + ext)
  {
    assert (name + "." + ext)[|name|] == '.';
    assert '.' !in "annotations";
  }

  /** The listed name of one live row leads back to that row, its size and its key. */
  lemma ListedRowOpens(w: World, org: string, arrSlug: string, voiceSlug: Option<string>, arr: Id, voice: Option<Id>,
                       f: Id)
    requires S.ArrangementKeys(w.db) && S.FileSlotUnique(w.db) && Placed(w.db, org, arrSlug, voiceSlug, arr, voice)
    requires f in FileRows(w.db, arr, voice) && S.FileShape(w.db.files[f])
    ensures FileEntry(w, org, arrSlug, voiceSlug, w.db.files[f]).Some?
    ensures var e := FileEntry(w, org, arrSlug, voiceSlug, w.db.files[f]).value;
            && FindFile(w.db, arr, voice, e.name) == Ok(f)
            && SafeName(e.name) && Opens(w, org, arrSlug, voiceSlug, arr, voice, e)
  {
    var row := w.db.files[f];
    var ext := FormatAndExtForMime(row.mime).value.1;
    FileNameRoundTrip(row.name, row.mime);
    DottedNameIsSafe(row.name, ext);
    assert FindFile(w.db, arr, voice, row.name + "." + ext) == Ok(f);
    assert ResolvePathSlugs(w.db, arr, voice) == Some((org, arrSlug, voiceSlug));
  }

  lemma ListedEntryOpens(w: World, org: string, arrSlug: string, voiceSlug: Option<string>, arr: Id, voice: Option<Id>,
                         e: Entry)
    requires S.ArrangementKeys(w.db) && S.FileSlotUnique(w.db) && Placed(w.db, org, arrSlug, voiceSlug, arr, voice)
    requires S.FileShapes(w.db.files) && e in FileEntries(w, org, arrSlug, voiceSlug, arr, voice)
    ensures SafeName(e.name) && Opens(w, org, arrSlug, voiceSlug, arr, voice, e)
  {
    var f :| f in FileRows(w.db, arr, voice) && FileEntry(w, org, arrSlug, voiceSlug, w.db.files[f]) == Some(e);
    ListedRowOpens(w, org, arrSlug, voiceSlug, arr, voice, f);
  }

  lemma RowNameSlot(w: World, org: string, arrSlug: string, voiceSlug: Option<string>, row: S.File)
    requires S.FileShape(row)
    ensures FileEntry(w, org, arrSlug, voiceSlug, row).Some?
    ensures NamedSlot(FileEntry(w, org, arrSlug, voiceSlug, row).value.name) == Some((row.name, row.format))
  {
    FileNameRoundTrip(row.name, row.mime);
  }

  lemma FoundRowIsListed(w: World, org: string, arrSlug: string, voiceSlug: Option<string>, arr: Id, voice: Option<Id>,
                         filename: string) returns (e: Entry)
    requires S.ArrangementKeys(w.db) && S.FileSlotUnique(w.db) && Placed(w.db, org, arrSlug, voiceSlug, arr, voice)
    requires FindFile(w.db, arr, voice, filename).Ok?
    requires S.FileShape(w.db.files[FindFile(w.db, arr, voice, filename).value])
    ensures e in FileEntries(w, org, arrSlug, voiceSlug, arr, voice)
    ensures NamedSlot(e.name).Some? && NamedSlot(e.name) == NamedSlot(filename)
  {
    var f := FindFile(w.db, arr, voice, filename).value;
    assert f in FileRows(w.db, arr, voice);
    RowNameSlot(w, org, arrSlug, voiceSlug, w.db.files[f]);
    e := FileEntry(w, org, arrSlug, voiceSlug, w.db.files[f]).value;
  }

  /** A file name can be looked up exactly when a listed file has the same stem
      and format: `x.png` finds a stored `x.jpg`, and nothing else does. */
  lemma StatsExactlyListedStems(w: World, org: string, arrSlug: string, voiceSlug: Option<string>, arr: Id,
                                voice: Option<Id>, filename: string)
    requires S.ArrangementKeys(w.db) && S.FileSlotUnique(w.db) && Placed(w.db, org, arrSlug, voiceSlug, arr, voice)
    requires S.FileShapes(w.db.files)
    ensures StatOrgFile(w, arr, voice, filename).Ok?
       <==> exists e <- FileEntries(w, org, arrSlug, voiceSlug, arr, voice) ::
              NamedSlot(e.name).Some? && NamedSlot(e.name) == NamedSlot(filename)
  {
    var entries := FileEntries(w, org, arrSlug, voiceSlug, arr, voice);
    if e :| e in entries && NamedSlot(e.name).Some? && NamedSlot(e.name) == NamedSlot(filename) {
      ListedEntryOpens(w, org, arrSlug, voiceSlug, arr, voice, e);
      assert FindFile(w.db, arr, voice, filename) == FindFile(w.db, arr, voice, e.name);
    }
    if StatOrgFile(w, arr, voice, filename).Ok? {
      var e := FoundRowIsListed(w, org, arrSlug, voiceSlug, arr, voice, filename);
    }
  }

  // ---------------------------------------------------------------------
  // Directory by directory

  /** The child under a file's name is a leaf that stats and opens as listed. */
  predicate LeafOpens(w: World, u: User, dir: ResolvedPath, e: Entry)
    requires S.Lookups(w.db)
  {
    && Child(dir, e.name).Some?
    && LeafOpensAt(w, u, Child(dir, e.name).value, e)
  }

  predicate LeafOpensAt(w: World, u: User, p: ResolvedPath, e: Entry)
    requires S.Lookups(w.db)
  {
    && !p.IsCollection()
    && Stat(w, u, p) == Ok(e.meta)
    && FileKeyForRead(w, u, p).Ok?
    && FileKeyForRead(w, u, p).value.1 == e.meta
    && e.meta == Leaf(SizeOf(w, FileKeyForRead(w, u, p).value.0))
  }

  lemma ArrangementPlaced(db: Db, user: Id, org: string, arr: string)
    requires S.Lookups(db) && ResolveArr(db, user, org, arr).Ok?
    ensures Placed(db, org, arr, None, ResolveArr(db, user, org, arr).value.1, None)
  {
  }

  lemma VoicePlaced(db: Db, user: Id, org: string, arr: string, voice: string)
    requires S.Lookups(db) && ResolveVoice(db, user, org, arr, voice).Ok?
    ensures var (_, a, v, _) := ResolveVoice(db, user, org, arr, voice).value;
            Placed(db, org, arr, Some(voice), a, Some(v))
  {
  }

  lemma ItemPlaced(db: Db, user: Id, org: string, coll: string, index: int, arrSlug: string)
    requires S.Lookups(db) && S.ItemsStayInOrg(db)
    requires ResolveCollectionItem(db, user, org, coll, index, arrSlug).Ok?
    ensures var place := ResolveCollectionItem(db, user, org, coll, index, arrSlug).value;
            place.arrSlug == arrSlug && Placed(db, org, arrSlug, None, place.arr, None)
  {
  }

  lemma ItemVoicePlaced(db: Db, user: Id, org: string, coll: string, index: int, arrSlug: string, voice: string)
    requires S.Lookups(db) && S.ItemsStayInOrg(db)
    requires ResolveCollectionVoice(db, user, org, coll, index, arrSlug, voice).Ok?
    ensures var (place, v) := ResolveCollectionVoice(db, user, org, coll, index, arrSlug, voice).value;
            place.arrSlug == arrSlug && Placed(db, org, arrSlug, Some(voice), place.arr, Some(v))
  {
  }

  // What the listing, the lookup and the open of each kind come down to.

  lemma ScoreFileUnfolds(w: World, u: User, org: string, arr: string, file: string)
    requires S.Lookups(w.db)
    requires ResolveArr(w.db, u.id, org, arr).Ok? && ResolveArr(w.db, u.id, org, arr).value.2.IsStaff()
    ensures var a := ResolveArr(w.db, u.id, org, arr).value.1;
            && Stat(w, u, ScoreFile(org, arr, file)) == StatOrgFile(w, a, None, file)
            && FileKeyForRead(w, u, ScoreFile(org, arr, file)) == OrgFileKey(w, org, arr, None, a, None, file)
  {
  }

  lemma VoiceFileUnfolds(w: World, u: User, org: string, arr: string, voice: string, file: string)
    requires S.Lookups(w.db) && ResolveVoice(w.db, u.id, org, arr, voice).Ok?
    ensures var (_, a, v, _) := ResolveVoice(w.db, u.id, org, arr, voice).value;
            && Stat(w, u, VoiceFile(org, arr, voice, file)) == StatOrgFile(w, a, Some(v), file)
            && FileKeyForRead(w, u, VoiceFile(org, arr, voice, file))
               == OrgFileKey(w, org, arr, Some(voice), a, Some(v), file)
  {
  }

  lemma ItemScoreFileUnfolds(w: World, u: User, org: string, coll: string, index: int, arrSlug: string, file: string)
    requires S.Lookups(w.db) && ResolveCollectionItem(w.db, u.id, org, coll, index, arrSlug).Ok?
    requires ResolveCollectionItem(w.db, u.id, org, coll, index, arrSlug).value.vis.IsStaff()
    ensures var place := ResolveCollectionItem(w.db, u.id, org, coll, index, arrSlug).value;
            && place.arrSlug == arrSlug
            && Stat(w, u, CollectionScoreFile(org, coll, index, arrSlug, file)) == StatOrgFile(w, place.arr, None, file)
            && FileKeyForRead(w, u, CollectionScoreFile(org, coll, index, arrSlug, file))
               == OrgFileKey(w, org, arrSlug, None, place.arr, None, file)
  {
  }

  lemma ItemVoiceFileUnfolds(w: World, u: User, org: string, coll: string, index: int, arrSlug: string, voice: string,
                             file: string)
    requires S.Lookups(w.db) && ResolveCollectionVoice(w.db, u.id, org, coll, index, arrSlug, voice).Ok?
    ensures var (place, v) := ResolveCollectionVoice(w.db, u.id, org, coll, index, arrSlug, voice).value;
            && place.arrSlug == arrSlug
            && Stat(w, u, CollectionVoiceFile(org, coll, index, arrSlug, voice, file))
               == StatOrgFile(w, place.arr, Some(v), file)
            && FileKeyForRead(w, u, CollectionVoiceFile(org, coll, index, arrSlug, voice, file))
               == OrgFileKey(w, org, arrSlug, Some(voice), place.arr, Some(v), file)
  {
  }

  lemma ScoreEntriesAre(w: World, u: User, org: string, arr: string, e: Entry)
    requires S.Lookups(w.db) && Listed(w, u, ScoreDir(org, arr), e)
    ensures ResolveArr(w.db, u.id, org, arr).Ok? && ResolveArr(w.db, u.id, org, arr).value.2.IsStaff()
    ensures e in FileEntries(w, org, arr, None, ResolveArr(w.db, u.id, org, arr).value.1, None)
  {
  }

  lemma VoiceEntriesAre(w: World, u: User, org: string, arr: string, voice: string, e: Entry)
    requires S.Lookups(w.db) && e.meta.Leaf? && Listed(w, u, Voice(org, arr, voice), e)
    ensures ResolveVoice(w.db, u.id, org, arr, voice).Ok?
    ensures var (_, a, v, _) := ResolveVoice(w.db, u.id, org, arr, voice).value;
            e in FileEntries(w, org, arr, Some(voice), a, Some(v))
  {
  }

  lemma ItemScoreEntriesAre(w: World, u: User, org: string, coll: string, index: int, arrSlug: string, e: Entry)
    requires S.Lookups(w.db) && Listed(w, u, CollectionScoreDir(org, coll, index, arrSlug), e)
    ensures ResolveCollectionItem(w.db, u.id, org, coll, index, arrSlug).Ok?
    ensures var place := ResolveCollectionItem(w.db, u.id, org, coll, index, arrSlug).value;
            && place.vis.IsStaff() && place.arrSlug == arrSlug
            && e in FileEntries(w, org, arrSlug, None, place.arr, None)
  {
  }

  lemma ItemVoiceEntriesAre(w: World, u: User, org: string, coll: string, index: int, arrSlug: string, voice: string,
                            e: Entry)
    requires S.Lookups(w.db) && Listed(w, u, CollectionVoice(org, coll, index, arrSlug, voice), e)
    ensures ResolveCollectionVoice(w.db, u.id, org, coll, index, arrSlug, voice).Ok?
    ensures var (place, v) := ResolveCollectionVoice(w.db, u.id, org, coll, index, arrSlug, voice).value;
            place.arrSlug == arrSlug && e in FileEntries(w, org, arrSlug, Some(voice), place.arr, Some(v))
  {
    ItemVoiceDirLists(w, u, org, coll, index, arrSlug, voice, e);
  }

  lemma ScoreFileOpens(w: World, u: User, org: string, arr: string, e: Entry)
    requires S.Lookups(w.db) && S.FileShapes(w.db.files) && Listed(w, u, ScoreDir(org, arr), e)
    ensures SafeName(e.name) && LeafOpensAt(w, u, ScoreFile(org, arr, e.name), e)
  {
    ScoreEntriesAre(w, u, org, arr, e);
    ArrangementPlaced(w.db, u.id, org, arr);
    ListedEntryOpens(w, org, arr, None, ResolveArr(w.db, u.id, org, arr).value.1, None, e);
    ScoreFileUnfolds(w, u, org, arr, e.name);
  }

  lemma VoiceFileOpens(w: World, u: User, org: string, arr: string, voice: string, e: Entry)
    requires S.Lookups(w.db) && S.FileShapes(w.db.files) && e.meta.Leaf? && Listed(w, u, Voice(org, arr, voice), e)
    ensures SafeName(e.name) && LeafOpensAt(w, u, VoiceFile(org, arr, voice, e.name), e)
  {
    VoiceEntriesAre(w, u, org, arr, voice, e);
    VoicePlaced(w.db, u.id, org, arr, voice);
    var (_, a, v, _) := ResolveVoice(w.db, u.id, org, arr, voice).value;
    ListedEntryOpens(w, org, arr, Some(voice), a, Some(v), e);
    VoiceFileUnfolds(w, u, org, arr, voice, e.name);
  }

  lemma ItemScoreFileOpens(w: World, u: User, org: string, coll: string, index: int, arrSlug: string, e: Entry)
    requires S.Lookups(w.db) && S.FileShapes(w.db.files) && S.ItemsStayInOrg(w.db)
    requires Listed(w, u, CollectionScoreDir(org, coll, index, arrSlug), e)
    ensures SafeName(e.name) && LeafOpensAt(w, u, CollectionScoreFile(org, coll, index, arrSlug, e.name), e)
  {
    ItemScoreEntriesAre(w, u, org, coll, index, arrSlug, e);
    ItemPlaced(w.db, u.id, org, coll, index, arrSlug);
    var place := ResolveCollectionItem(w.db, u.id, org, coll, index, arrSlug).value;
    ListedEntryOpens(w, org, arrSlug, None, place.arr, None, e);
    ItemScoreFileUnfolds(w, u, org, coll, index, arrSlug, e.name);
  }

  lemma ItemVoiceFileOpens(w: World, u: User, org: string, coll: string, index: int, arrSlug: string, voice: string,
                           e: Entry)
    requires S.Lookups(w.db) && S.FileShapes(w.db.files) && S.ItemsStayInOrg(w.db)
    requires Listed(w, u, CollectionVoice(org, coll, index, arrSlug, voice), e)
    ensures SafeName(e.name) && LeafOpensAt(w, u, CollectionVoiceFile(org, coll, index, arrSlug, voice, e.name), e)
  {
    ItemVoiceEntriesAre(w, u, org, coll, index, arrSlug, voice, e);
    ItemVoicePlaced(w.db, u.id, org, coll, index, arrSlug, voice);
    var (place, v) := ResolveCollectionVoice(w.db, u.id, org, coll, index, arrSlug, voice).value;
    ListedEntryOpens(w, org, arrSlug, Some(voice), place.arr, Some(v), e);
    ItemVoiceFileUnfolds(w, u, org, coll, index, arrSlug, voice, e.name);
  }

  lemma SoundFacts(db: Db)
    requires S.Sound(db)
    ensures S.Lookups(db) && S.FileShapes(db.files) && S.ItemsStayInOrg(db)
  {
  }

  lemma LeafOpensIf(w: World, u: User, dir: ResolvedPath, e: Entry, p: ResolvedPath)
    requires S.Lookups(w.db) && Child(dir, e.name) == Some(p) && LeafOpensAt(w, u, p, e)
    ensures LeafOpens(w, u, dir, e)
  {
  }

  /**
   * For every sound state, every user and every directory below an
   * organization's two roots: a file listed there is found by `stat` under its
   * listed name with the listed size, and has a key to read from whose object has
   * that size, or is missing when the size is zero.
   */
  lemma ListedFilesOpen(w: World, u: User, dir: ResolvedPath, e: Entry)
    requires S.Sound(w.db) && WellFormed(dir) && InOrgTree(dir) && e.meta.Leaf? && Listed(w, u, dir, e)
    ensures LeafOpens(w, u, dir, e)
  {
    SoundFacts(w.db);
    ListedFilesOpenIf(w, u, dir, e);
  }

  lemma ListedFilesOpenIf(w: World, u: User, dir: ResolvedPath, e: Entry)
    requires S.Lookups(w.db) && S.FileShapes(w.db.files) && S.ItemsStayInOrg(w.db)
    requires WellFormed(dir) && InOrgTree(dir) && e.meta.Leaf? && Listed(w, u, dir, e)
    ensures LeafOpens(w, u, dir, e)
  {
    OnlyDirectoriesIn(w, u, dir, e);
    match dir
    case ScoreDir(org, arr) =>
      ScoreFileOpens(w, u, org, arr, e);
      ArrangementChildren(dir, e.name);
      LeafOpensIf(w, u, dir, e, ScoreFile(org, arr, e.name));
    case Voice(org, arr, voice) =>
      VoiceFileOpens(w, u, org, arr, voice, e);
      ArrangementChildren(dir, e.name);
      LeafOpensIf(w, u, dir, e, VoiceFile(org, arr, voice, e.name));
    case CollectionScoreDir(org, coll, index, arrSlug) =>
      ItemScoreFileOpens(w, u, org, coll, index, arrSlug, e);
      ItemChildren(dir, e.name);
      LeafOpensIf(w, u, dir, e, CollectionScoreFile(org, coll, index, arrSlug, e.name));
    case CollectionVoice(org, coll, index, arrSlug, voice) =>
      ItemVoiceFileOpens(w, u, org, coll, index, arrSlug, voice, e);
      ItemChildren(dir, e.name);
      LeafOpensIf(w, u, dir, e, CollectionVoiceFile(org, coll, index, arrSlug, voice, e.name));
    case _ =>
  }

  lemma OnlyDirectoriesInArrangements(w: World, u: User, dir: ResolvedPath, e: Entry)
    requires S.Lookups(w.db) && Listed(w, u, dir, e)
    requires dir.ArrangementsRoot? || dir.Arrangement? || dir.VoicesDir?
    ensures e.meta.Dir?
  {
  }

  lemma OnlyDirectoriesInCollections(w: World, u: User, dir: ResolvedPath, e: Entry)
    requires S.Lookups(w.db) && Listed(w, u, dir, e)
    requires dir.CollectionsRoot? || dir.Collection? || dir.CollectionItemDir? || dir.CollectionVoicesDir?
    ensures e.meta.Dir?
  {
  }

  lemma OnlyDirectoriesIn(w: World, u: User, dir: ResolvedPath, e: Entry)
    requires S.Lookups(w.db) && InOrgTree(dir) && Listed(w, u, dir, e) && e.meta.Leaf?
    ensures dir.ScoreDir? || dir.Voice? || dir.CollectionScoreDir? || dir.CollectionVoice?
  {
    if dir.ArrangementsRoot? || dir.Arrangement? || dir.VoicesDir? {
      OnlyDirectoriesInArrangements(w, u, dir, e);
    } else if dir.CollectionsRoot? || dir.Collection? || dir.CollectionItemDir? || dir.CollectionVoicesDir? {
      OnlyDirectoriesInCollections(w, u, dir, e);
    }
  }
}
