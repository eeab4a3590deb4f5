/**
 * The WebDAV file system over the relational state: resolving paths with
 * per-role visibility, metadata, directory listings and read keys.
 */
module Tree {
  import opened Wrappers
  import opened FileName
  import opened Path
  import S = Schema
  import opened Access

  type Id = S.Id
  type Db = S.Db

  /** The database and the object store; of an object only its size shows here. */
  datatype World = World(db: Db, objects: map<string, nat>)

  /** The authenticated app-password user. */
  datatype User = User(id: Id, slug: string)

  datatype FsError = NotFound | Forbidden

  type FsResult<+T> = Result<T, FsError>

  datatype Meta = Dir | Leaf(size: nat)

  datatype Entry = Entry(name: string, meta: Meta)

  function OrNotFound<T>(o: Option<T>): FsResult<T> {
    match o case Some(v) => Ok(v) case None => Err(NotFound)
  }

  // ---------------------------------------------------------------------
  // Live rows by slug

  function ArrIdBySlug(db: Db, org: Id, slug: string): (r: Option<Id>)
    requires S.ArrangementSlugUnique(db)
    ensures r.Some? ==> r.value in db.arrangements
    ensures forall a <- db.arrangements |
              db.arrangements[a].org == org && db.arrangements[a].slug == slug && !db.arrangements[a].deleted ::
              r == Some(a)
    ensures r.Some? ==> var a := db.arrangements[r.value]; a.org == org && a.slug == slug && !a.deleted
  {
    if exists a <- db.arrangements ::
         db.arrangements[a].org == org && db.arrangements[a].slug == slug && !db.arrangements[a].deleted then
      var a :| a in db.arrangements
               && db.arrangements[a].org == org && db.arrangements[a].slug == slug && !db.arrangements[a].deleted;
      Some(a)
    else None
  }

  function VoiceIdBySlug(db: Db, arr: Id, slug: string): (r: Option<Id>)
    requires S.VoiceSlugUnique(db)
    ensures r.Some? ==> r.value in db.voices
    ensures forall v <- db.voices |
              db.voices[v].arr == arr && db.voices[v].slug == slug && !db.voices[v].deleted :: r == Some(v)
    ensures r.Some? ==> var v := db.voices[r.value]; v.arr == arr && v.slug == slug && !v.deleted
  {
    if exists v <- db.voices ::
         db.voices[v].arr == arr && db.voices[v].slug == slug && !db.voices[v].deleted then
      var v :| v in db.voices && db.voices[v].arr == arr && db.voices[v].slug == slug && !db.voices[v].deleted;
      Some(v)
    else None
  }

  function CollectionIdBySlug(db: Db, org: Id, slug: string): (r: Option<Id>)
    requires S.CollectionSlugUnique(db)
    ensures r.Some? ==> r.value in db.collections
    ensures forall c <- db.collections |
              db.collections[c].org == org && db.collections[c].slug == slug && !db.collections[c].deleted ::
              r == Some(c)
    ensures r.Some? ==> var c := db.collections[r.value]; c.org == org && c.slug == slug && !c.deleted
  {
    if exists c <- db.collections ::
         db.collections[c].org == org && db.collections[c].slug == slug && !db.collections[c].deleted then
      var c :| c in db.collections
               && db.collections[c].org == org && db.collections[c].slug == slug && !db.collections[c].deleted;
      Some(c)
    else None
  }

  /** The live item of a live arrangement at an index of a collection. */
  function ItemIdByIndex(db: Db, coll: Id, index: int): (r: Option<Id>)
    requires S.ItemIndexUnique(db.items)
    ensures r.Some? ==> r.value in db.items
    ensures forall i <- db.items |
              && db.items[i].coll == coll && db.items[i].index == index && db.items[i].Live()
              && db.items[i].arr in db.arrangements && !db.arrangements[db.items[i].arr].deleted ::
              r == Some(i)
    ensures r.Some? ==> var i := db.items[r.value];
                        && i.coll == coll && i.index == index && i.Live()
                        && i.arr in db.arrangements && !db.arrangements[i.arr].deleted
  {
    if exists i <- db.items ::
         && db.items[i].coll == coll && db.items[i].index == index && db.items[i].Live()
         && db.items[i].arr in db.arrangements && !db.arrangements[db.items[i].arr].deleted then
      var i :| && i in db.items
               && db.items[i].coll == coll && db.items[i].index == index && db.items[i].Live()
               && db.items[i].arr in db.arrangements && !db.arrangements[db.items[i].arr].deleted;
      Some(i)
    else None
  }

  function FindByLocation(db: Db, arr: Id, voice: Option<Id>, name: string, format: Format): (r: Option<Id>)
    requires S.FileSlotUnique(db)
    ensures r.Some? ==> r.value in db.files
    ensures forall f <- db.files |
              && db.files[f].arr == arr && db.files[f].voice == voice && db.files[f].name == name
              && db.files[f].format == format && !db.files[f].deleted :: r == Some(f)
    ensures r.Some? ==> var f := db.files[r.value];
                        f.arr == arr && f.voice == voice && f.name == name && f.format == format && !f.deleted
  {
    if exists f <- db.files ::
         && db.files[f].arr == arr && db.files[f].voice == voice && db.files[f].name == name
         && db.files[f].format == format && !db.files[f].deleted then
      var f :| && f in db.files
               && db.files[f].arr == arr && db.files[f].voice == voice && db.files[f].name == name
               && db.files[f].format == format && !db.files[f].deleted;
      Some(f)
    else None
  }

  // ---------------------------------------------------------------------
  // Resolution with visibility

  function ResolveArr(db: Db, user: Id, org: string, arr: string): FsResult<(Id, Id, Visibility)>
    requires S.OrgSlugUnique(db) && S.ArrangementSlugUnique(db)
  {
    var found :- OrNotFound(ResolveOrgVisibility(db, org, user));
    var (orgId, vis) := found;
    var arrId :- OrNotFound(ArrIdBySlug(db, orgId, arr));
    if !vis.IsStaff() && !HasAssignmentOnArrangement(db, arrId, user) then Err(NotFound)
    else Ok((orgId, arrId, vis))
  }

  function ResolveVoice(db: Db, user: Id, org: string, arr: string, voice: string)
    : FsResult<(Id, Id, Id, Visibility)>
    requires S.OrgSlugUnique(db) && S.ArrangementSlugUnique(db) && S.VoiceSlugUnique(db)
  {
    var found :- ResolveArr(db, user, org, arr);
    var (orgId, arrId, vis) := found;
    var voiceId :- OrNotFound(VoiceIdBySlug(db, arrId, voice));
    if !vis.IsStaff() && !HasAssignmentOnVoice(db, voiceId, user) then Err(NotFound)
    else Ok((orgId, arrId, voiceId, vis))
  }

  function ResolveCollectionScoped(db: Db, user: Id, org: string, coll: string, check: bool)
    : FsResult<(Id, Id, Visibility)>
    requires S.OrgSlugUnique(db) && S.CollectionSlugUnique(db)
  {
    var found :- OrNotFound(ResolveOrgVisibility(db, org, user));
    var (orgId, vis) := found;
    var collId :- OrNotFound(CollectionIdBySlug(db, orgId, coll));
    if check && !vis.IsStaff() && !HasAssignmentInCollection(db, collId, user) then Err(NotFound)
    else Ok((orgId, collId, vis))
  }

  function ResolveCollection(db: Db, user: Id, org: string, coll: string): FsResult<(Id, Id, Visibility)>
    requires S.OrgSlugUnique(db) && S.CollectionSlugUnique(db)
  {
    ResolveCollectionScoped(db, user, org, coll, true)
  }

  /** What an item path resolves to. */
  datatype ItemPlace = ItemPlace(org: Id, coll: Id, item: Id, arr: Id, arrSlug: string, vis: Visibility)

  function ResolveItemScoped(db: Db, user: Id, org: string, coll: string, index: int, arrSlug: string,
                             checkCollection: bool, checkItem: bool): FsResult<ItemPlace>
    requires S.OrgSlugUnique(db) && S.CollectionSlugUnique(db) && S.ItemIndexUnique(db.items)
  {
    var found :- ResolveCollectionScoped(db, user, org, coll, checkCollection);
    var (orgId, collId, vis) := found;
    var item :- OrNotFound(ItemIdByIndex(db, collId, index));
    var arrId := db.items[item].arr;
    if db.arrangements[arrId].slug != arrSlug then Err(NotFound)
    else if checkItem && !vis.IsStaff() && !HasAssignmentOnItem(db, item, user) then Err(NotFound)
    else Ok(ItemPlace(orgId, collId, item, arrId, db.arrangements[arrId].slug, vis))
  }

  /** As the code does it: the collection's own assignment check is skipped. */
  function ResolveCollectionItem(db: Db, user: Id, org: string, coll: string, index: int, arrSlug: string)
    : FsResult<ItemPlace>
    requires S.OrgSlugUnique(db) && S.CollectionSlugUnique(db) && S.ItemIndexUnique(db.items)
  {
    ResolveItemScoped(db, user, org, coll, index, arrSlug, false, true)
  }

  function ResolveItemVoiceScoped(db: Db, user: Id, org: string, coll: string, index: int, arrSlug: string,
                                  voice: string, checkAncestors: bool): FsResult<(ItemPlace, Id)>
    requires S.OrgSlugUnique(db) && S.CollectionSlugUnique(db) && S.ItemIndexUnique(db.items) && S.VoiceSlugUnique(db)
  {
    var place :- ResolveItemScoped(db, user, org, coll, index, arrSlug, checkAncestors, checkAncestors);
    var voiceId :- OrNotFound(VoiceIdBySlug(db, place.arr, voice));
    if !place.vis.IsStaff() && !HasAssignmentOnItemVoice(db, place.item, voiceId, user) then Err(NotFound)
    else Ok((place, voiceId))
  }

  /** As the code does it: both ancestor assignment checks are skipped. */
  function ResolveCollectionVoice(db: Db, user: Id, org: string, coll: string, index: int, arrSlug: string,
                                  voice: string): FsResult<(ItemPlace, Id)>
    requires S.OrgSlugUnique(db) && S.CollectionSlugUnique(db) && S.ItemIndexUnique(db.items) && S.VoiceSlugUnique(db)
  {
    ResolveItemVoiceScoped(db, user, org, coll, index, arrSlug, voice, false)
  }

  // ---------------------------------------------------------------------
  // Files

  function SizeOf(w: World, key: string): nat {
    if key in w.objects then w.objects[key] else 0
  }

  /** The slugs a stored row's key is derived from: (organization, arrangement, voice). */
  function ResolvePathSlugs(db: Db, arr: Id, voice: Option<Id>): Option<(string, string, Option<string>)>
    requires S.ArrangementKeys(db)
  {
    if arr !in db.arrangements || db.arrangements[arr].deleted then None
    else
      var a := db.arrangements[arr];
      var org := db.orgs[a.org].slug;
      match voice
      case None => Some((org, a.slug, None))
      case Some(v) =>
        if v in db.voices && db.voices[v].arr == arr && !db.voices[v].deleted then
          Some((org, a.slug, Some(db.voices[v].slug)))
        else None
  }

  /** The row a file name addresses under a voice, or among the full scores. */
  function FindFile(db: Db, arr: Id, voice: Option<Id>, filename: string): FsResult<Id>
    requires S.FileSlotUnique(db)
    ensures FindFile(db, arr, voice, filename).Ok? ==> FindFile(db, arr, voice, filename).value in db.files
  {
    var slot :- OrNotFound(NamedSlot(filename));
    OrNotFound(FindByLocation(db, arr, voice, slot.0, slot.1))
  }

  function StatObjectForRow(w: World, row: S.File): FsResult<Meta>
    requires S.ArrangementKeys(w.db)
  {
    var slugs :- OrNotFound(ResolvePathSlugs(w.db, row.arr, row.voice));
    var format :- OrNotFound(FormatAndExtForMime(row.mime));
    Ok(Leaf(SizeOf(w, DerivedKey(slugs.0, slugs.1, slugs.2, row.name, format.1))))
  }

  function StatOrgFile(w: World, arr: Id, voice: Option<Id>, filename: string): FsResult<Meta>
    requires S.ArrangementKeys(w.db) && S.FileSlotUnique(w.db)
  {
    var id :- FindFile(w.db, arr, voice, filename);
    StatObjectForRow(w, w.db.files[id])
  }

  /** The object key of a file opened for reading, built from the path's own slugs. */
  function OrgFileKey(w: World, org: string, arrSlug: string, voiceSlug: Option<string>,
                      arr: Id, voice: Option<Id>, filename: string): FsResult<(string, Meta)>
    requires S.ArrangementKeys(w.db) && S.FileSlotUnique(w.db)
  {
    var id :- FindFile(w.db, arr, voice, filename);
    var row := w.db.files[id];
    var format :- OrNotFound(FormatAndExtForMime(row.mime));
    var meta :- StatObjectForRow(w, row);
    Ok((DerivedKey(org, arrSlug, voiceSlug, row.name, format.1), meta))
  }

  /** The live files under a voice, or the live full scores. */
  function FileRows(db: Db, arr: Id, voice: Option<Id>): set<Id> {
    set f <- db.files |
      && db.files[f].arr == arr && !db.files[f].deleted && db.files[f].voice == voice
      && arr in db.arrangements && !db.arrangements[arr].deleted
  }

  /** One file's directory entry; None when the stored MIME type is unknown. */
  function FileEntry(w: World, org: string, arrSlug: string, voiceSlug: Option<string>, row: S.File): Option<Entry> {
    var filename :- WebdavFilename(row.name, row.mime);
    var format :- FormatAndExtForMime(row.mime);
    Some(Entry(filename, Leaf(SizeOf(w, DerivedKey(org, arrSlug, voiceSlug, row.name, format.1)))))
  }

  function FileEntries(w: World, org: string, arrSlug: string, voiceSlug: Option<string>,
                       arr: Id, voice: Option<Id>): set<Entry>
  {
    set f <- FileRows(w.db, arr, voice) | FileEntry(w, org, arrSlug, voiceSlug, w.db.files[f]).Some? ::
      FileEntry(w, org, arrSlug, voiceSlug, w.db.files[f]).value
  }

  // ---------------------------------------------------------------------
  // Object-store directories (annotations and private libraries)

  predicate AnyUnder(w: World, prefix: string) {
    exists k <- w.objects :: prefix <= k
  }

  function StatObject(w: World, key: string): FsResult<Meta> {
    if key in w.objects then Ok(Leaf(w.objects[key])) else Err(NotFound)
  }

  function RequireOwnLibrary(u: User, user: string): FsResult<()> {
    if user == u.slug then Ok(()) else Err(NotFound)
  }

  function StatLibraryEntry(w: World, key: string): FsResult<Meta> {
    if key in w.objects then Ok(Leaf(w.objects[key]))
    else if AnyUnder(w, key + "/") then Ok(Dir)
    else Err(NotFound)
  }

  // ---------------------------------------------------------------------
  // stat

  function Stat(w: World, u: User, p: ResolvedPath): FsResult<Meta>
    requires S.Lookups(w.db)
  {
    match p
    case Root => Ok(Dir)
    case OrgsRoot => Ok(Dir)
    case UsersRoot => Ok(Dir)
    case Org(org) =>
      var _ :- OrNotFound(FindOrgId(w.db, org));
      Ok(Dir)
    case ArrangementsRoot(org) =>
      var _ :- OrNotFound(FindOrgId(w.db, org));
      Ok(Dir)
    case Arrangement(org, arr) =>
      var _ :- ResolveArr(w.db, u.id, org, arr);
      Ok(Dir)
    case VoicesDir(org, arr) =>
      var _ :- ResolveArr(w.db, u.id, org, arr);
      Ok(Dir)
    case ScoreDir(org, arr) =>
      var place :- ResolveArr(w.db, u.id, org, arr);
      if !place.2.IsStaff() then Err(NotFound) else Ok(Dir)
    case Voice(org, arr, voice) =>
      var _ :- ResolveVoice(w.db, u.id, org, arr, voice);
      Ok(Dir)
    case AnnotationsDir(org, arr, voice) =>
      var _ :- ResolveVoice(w.db, u.id, org, arr, voice);
      Ok(Dir)
    case AnnotationsUserDir(org, arr, voice, _) =>
      var _ :- ResolveVoice(w.db, u.id, org, arr, voice);
      Ok(Dir)
    case ScoreFile(org, arr, file) =>
      var place :- ResolveArr(w.db, u.id, org, arr);
      if !place.2.IsStaff() then Err(NotFound) else StatOrgFile(w, place.1, None, file)
    case VoiceFile(org, arr, voice, file) =>
      var place :- ResolveVoice(w.db, u.id, org, arr, voice);
      StatOrgFile(w, place.1, Some(place.2), file)
    case AnnotationFile(org, arr, voice, user, file) =>
      var _ :- ResolveVoice(w.db, u.id, org, arr, voice);
      StatObject(w, AnnotationKey(org, arr, voice, user, file))
    case CollectionsRoot(org) =>
      var _ :- OrNotFound(FindOrgId(w.db, org));
      Ok(Dir)
    case Collection(org, coll) =>
      var _ :- ResolveCollection(w.db, u.id, org, coll);
      Ok(Dir)
    case CollectionItemDir(org, coll, index, arrSlug) =>
      var _ :- ResolveCollectionItem(w.db, u.id, org, coll, index, arrSlug);
      Ok(Dir)
    case CollectionScoreDir(org, coll, index, arrSlug) =>
      var place :- ResolveCollectionItem(w.db, u.id, org, coll, index, arrSlug);
      if !place.vis.IsStaff() then Err(NotFound) else Ok(Dir)
    case CollectionVoicesDir(org, coll, index, arrSlug) =>
      var _ :- ResolveCollectionItem(w.db, u.id, org, coll, index, arrSlug);
      Ok(Dir)
    case CollectionVoice(org, coll, index, arrSlug, voice) =>
      var _ :- ResolveCollectionVoice(w.db, u.id, org, coll, index, arrSlug, voice);
      Ok(Dir)
    case CollectionScoreFile(org, coll, index, arrSlug, file) =>
      var place :- ResolveCollectionItem(w.db, u.id, org, coll, index, arrSlug);
      if !place.vis.IsStaff() then Err(NotFound) else StatOrgFile(w, place.arr, None, file)
    case CollectionVoiceFile(org, coll, index, arrSlug, voice, file) =>
      var found :- ResolveCollectionVoice(w.db, u.id, org, coll, index, arrSlug, voice);
      StatOrgFile(w, found.0.arr, Some(found.1), file)
    case UserHome(user) =>
      var _ :- RequireOwnLibrary(u, user);
      Ok(Dir)
    case LibraryRoot(user) =>
      var _ :- RequireOwnLibrary(u, user);
      Ok(Dir)
    case LibraryEntry(user, rel) =>
      var _ :- RequireOwnLibrary(u, user);
      StatLibraryEntry(w, LibraryKey(user, rel))
  }

  // ---------------------------------------------------------------------
  // Reading a file

  function FileKeyForRead(w: World, u: User, p: ResolvedPath): FsResult<(string, Meta)>
    requires S.Lookups(w.db)
  {
    match p
    case ScoreFile(org, arr, file) =>
      var place :- ResolveArr(w.db, u.id, org, arr);
      if !place.2.IsStaff() then Err(NotFound)
      else OrgFileKey(w, org, arr, None, place.1, None, file)
    case VoiceFile(org, arr, voice, file) =>
      var place :- ResolveVoice(w.db, u.id, org, arr, voice);
      OrgFileKey(w, org, arr, Some(voice), place.1, Some(place.2), file)
    case AnnotationFile(org, arr, voice, user, file) =>
      var _ :- ResolveVoice(w.db, u.id, org, arr, voice);
      var key := AnnotationKey(org, arr, voice, user, file);
      var meta :- StatObject(w, key);
      Ok((key, meta))
    case LibraryEntry(user, rel) =>
      var _ :- RequireOwnLibrary(u, user);
      var key := LibraryKey(user, rel);
      var meta :- StatObject(w, key);
      Ok((key, meta))
    case CollectionScoreFile(org, coll, index, arrSlug, file) =>
      var place :- ResolveCollectionItem(w.db, u.id, org, coll, index, arrSlug);
      if !place.vis.IsStaff() then Err(NotFound)
      else OrgFileKey(w, org, place.arrSlug, None, place.arr, None, file)
    case CollectionVoiceFile(org, coll, index, arrSlug, voice, file) =>
      var found :- ResolveCollectionVoice(w.db, u.id, org, coll, index, arrSlug, voice);
      OrgFileKey(w, org, found.0.arrSlug, Some(voice), found.0.arr, Some(found.1), file)
    case _ => Err(Forbidden)
  }
}
