/**
 * Directory listings: what each directory holds, and the loop that builds the
 * reply one entry at a time.
 */
module Listings {
  import opened Wrappers
  import opened Text
  import opened FileName
  import opened Path
  import S = Schema
  import opened Access
  import opened Tree

  // ---------------------------------------------------------------------
  // Object-store listings

  function TrimSlashes(s: string): string {
    if s != "" && s[|s| - 1] == '/' then TrimSlashes(s[..|s| - 1]) else s
  }

  /** Last path segment of an object key or of a prefix. */
  function Basename(key: string): string {
    match SplitLast(TrimSlashes(key), '/')
    case None => TrimSlashes(key)
    case Some(p) => p.1
  }

  /** Immediate sub-directory prefixes under a prefix ending in a slash. */
  function CommonPrefixes(w: World, prefix: string): set<string> {
    set k <- w.objects | prefix <= k && '/' in k[|prefix|..] ::
      prefix + SplitFirst(k[|prefix|..], '/').value.0 + "/"
  }

  /** Immediate child objects under a prefix, the directory marker skipped. */
  function ChildObjects(w: World, prefix: string): set<string> {
    set k <- w.objects | prefix <= k && k != prefix && '/' !in k[|prefix|..]
  }

  function ObjectEntry(w: World, key: string): Entry {
    Entry(Basename(key), Leaf(SizeOf(w, key)))
  }

  function DirEntry(name: string): Entry {
    Entry(name, Dir)
  }

  function LibraryEntries(w: World, prefix: string): set<Entry> {
    (set d <- CommonPrefixes(w, prefix) :: DirEntry(Basename(d)))
    + (set k <- ChildObjects(w, prefix) :: ObjectEntry(w, k))
  }

  // ---------------------------------------------------------------------
  // Entries of database rows

  function OrgEntry(db: Db, o: Id): Entry requires o in db.orgs { DirEntry(db.orgs[o].slug) }

  function ArrEntry(db: Db, a: Id): Entry requires a in db.arrangements { DirEntry(db.arrangements[a].slug) }

  function VoiceEntry(db: Db, v: Id): Entry requires v in db.voices { DirEntry(db.voices[v].slug) }

  function CollEntry(db: Db, c: Id): Entry requires c in db.collections { DirEntry(db.collections[c].slug) }

  function ItemEntry(db: Db, i: Id): Entry
    requires i in db.items && db.items[i].arr in db.arrangements
  {
    DirEntry(ItemSegment(db.items[i].index, db.arrangements[db.items[i].arr].slug))
  }

  function AnnotationsPrefix(org: string, arr: string, voice: string): string {
    Slash("orgs", Slash(org, Slash("arrangements", Slash(arr, Slash("voices", Slash(voice, "annotations/"))))))
  }

  function LibraryRootPrefix(user: string): string {
    Slash("users", Slash(user, "library/"))
  }

  // ---------------------------------------------------------------------
  // One function per directory

  function ListOrgs(db: Db, user: Id): set<Entry> {
    set o <- VisibleOrgs(db, user) :: OrgEntry(db, o)
  }

  function ListOrg(db: Db, org: string): FsResult<set<Entry>>
    requires S.OrgSlugUnique(db)
  {
    var _ :- OrNotFound(FindOrgId(db, org));
    Ok({DirEntry("arrangements"), DirEntry("collections")})
  }

  function ListArrangements(db: Db, user: Id, org: string): FsResult<set<Entry>>
    requires S.OrgSlugUnique(db)
  {
    var found :- OrNotFound(ResolveOrgVisibility(db, org, user));
    Ok(set a <- VisibleArrangements(db, found.0, user, found.1) :: ArrEntry(db, a))
  }

  /** `score` for staff only, and `voices`. */
  function PieceEntries(vis: Visibility): set<Entry> {
    (if vis.IsStaff() then {DirEntry("score")} else {}) + {DirEntry("voices")}
  }

  function ListArrangement(db: Db, user: Id, org: string, arr: string): FsResult<set<Entry>>
    requires S.OrgSlugUnique(db) && S.ArrangementSlugUnique(db)
  {
    var place :- ResolveArr(db, user, org, arr);
    Ok(PieceEntries(place.2))
  }

  function ListScore(w: World, user: Id, org: string, arr: string): FsResult<set<Entry>>
    requires S.OrgSlugUnique(w.db) && S.ArrangementSlugUnique(w.db)
  {
    var place :- ResolveArr(w.db, user, org, arr);
    if !place.2.IsStaff() then Err(NotFound) else Ok(FileEntries(w, org, arr, None, place.1, None))
  }

  function ListVoices(db: Db, user: Id, org: string, arr: string): FsResult<set<Entry>>
    requires S.OrgSlugUnique(db) && S.ArrangementSlugUnique(db)
  {
    var place :- ResolveArr(db, user, org, arr);
    Ok(set v <- VisibleVoices(db, place.1, user, place.2) :: VoiceEntry(db, v))
  }

  function ListVoice(w: World, user: Id, org: string, arr: string, voice: string): FsResult<set<Entry>>
    requires S.OrgSlugUnique(w.db) && S.ArrangementSlugUnique(w.db) && S.VoiceSlugUnique(w.db)
  {
    var place :- ResolveVoice(w.db, user, org, arr, voice);
    Ok(FileEntries(w, org, arr, Some(voice), place.1, Some(place.2)) + {DirEntry("annotations")})
  }

  function ListCollections(db: Db, user: Id, org: string): FsResult<set<Entry>>
    requires S.OrgSlugUnique(db)
  {
    var found :- OrNotFound(ResolveOrgVisibility(db, org, user));
    Ok(set c <- VisibleCollections(db, found.0, user, found.1) :: CollEntry(db, c))
  }

  function ListCollection(db: Db, user: Id, org: string, coll: string): FsResult<set<Entry>>
    requires S.OrgSlugUnique(db) && S.CollectionSlugUnique(db)
  {
    var place :- ResolveCollection(db, user, org, coll);
    Ok(set i <- VisibleItems(db, place.1, user, place.2) :: ItemEntry(db, i))
  }

  function ListItem(db: Db, user: Id, org: string, coll: string, index: int, arrSlug: string): FsResult<set<Entry>>
    requires S.OrgSlugUnique(db) && S.CollectionSlugUnique(db) && S.ItemIndexUnique(db.items)
  {
    var place :- ResolveCollectionItem(db, user, org, coll, index, arrSlug);
    Ok(PieceEntries(place.vis))
  }

  function ListItemScore(w: World, user: Id, org: string, coll: string, index: int, arrSlug: string)
    : FsResult<set<Entry>>
    requires S.OrgSlugUnique(w.db) && S.CollectionSlugUnique(w.db) && S.ItemIndexUnique(w.db.items)
  {
    var place :- ResolveCollectionItem(w.db, user, org, coll, index, arrSlug);
    if !place.vis.IsStaff() then Err(NotFound) else Ok(FileEntries(w, org, place.arrSlug, None, place.arr, None))
  }

  function ListItemVoices(db: Db, user: Id, org: string, coll: string, index: int, arrSlug: string)
    : FsResult<set<Entry>>
    requires S.OrgSlugUnique(db) && S.CollectionSlugUnique(db) && S.ItemIndexUnique(db.items)
  {
    var place :- ResolveCollectionItem(db, user, org, coll, index, arrSlug);
    Ok(set v <- VisibleItemVoices(db, place.item, place.arr, user, place.vis) :: VoiceEntry(db, v))
  }

  function ListItemVoice(w: World, user: Id, org: string, coll: string, index: int, arrSlug: string, voice: string)
    : FsResult<set<Entry>>
    requires S.OrgSlugUnique(w.db) && S.CollectionSlugUnique(w.db) && S.ItemIndexUnique(w.db.items)
    requires S.VoiceSlugUnique(w.db)
  {
    var found :- ResolveCollectionVoice(w.db, user, org, coll, index, arrSlug, voice);
    Ok(FileEntries(w, org, found.0.arrSlug, Some(voice), found.0.arr, Some(found.1)))
  }

  function ListAnnotations(w: World, user: Id, org: string, arr: string, voice: string): FsResult<set<Entry>>
    requires S.OrgSlugUnique(w.db) && S.ArrangementSlugUnique(w.db) && S.VoiceSlugUnique(w.db)
  {
    var _ :- ResolveVoice(w.db, user, org, arr, voice);
    Ok(set d <- CommonPrefixes(w, AnnotationsPrefix(org, arr, voice)) :: DirEntry(Basename(d)))
  }

  function ListUserAnnotations(w: World, user: Id, org: string, arr: string, voice: string, author: string)
    : FsResult<set<Entry>>
    requires S.OrgSlugUnique(w.db) && S.ArrangementSlugUnique(w.db) && S.VoiceSlugUnique(w.db)
  {
    var _ :- ResolveVoice(w.db, user, org, arr, voice);
    Ok(set k <- ChildObjects(w, AnnotationsPrefix(org, arr, voice) + author + "/") :: ObjectEntry(w, k))
  }

  function ListLibrary(w: World, u: User, user: string, prefix: string): FsResult<set<Entry>> {
    var _ :- RequireOwnLibrary(u, user);
    Ok(LibraryEntries(w, prefix))
  }

  /** The entries of a directory. */
  function ListDir(w: World, u: User, p: ResolvedPath): FsResult<set<Entry>>
    requires S.Lookups(w.db)
  {
    match p
    case Root => Ok({DirEntry("orgs"), DirEntry("users")})
    case OrgsRoot => Ok(ListOrgs(w.db, u.id))
    case Org(org) => ListOrg(w.db, org)
    case ArrangementsRoot(org) => ListArrangements(w.db, u.id, org)
    case Arrangement(org, arr) => ListArrangement(w.db, u.id, org, arr)
    case ScoreDir(org, arr) => ListScore(w, u.id, org, arr)
    case VoicesDir(org, arr) => ListVoices(w.db, u.id, org, arr)
    case Voice(org, arr, voice) => ListVoice(w, u.id, org, arr, voice)
    case AnnotationsDir(org, arr, voice) => ListAnnotations(w, u.id, org, arr, voice)
    case AnnotationsUserDir(org, arr, voice, user) => ListUserAnnotations(w, u.id, org, arr, voice, user)
    case CollectionsRoot(org) => ListCollections(w.db, u.id, org)
    case Collection(org, coll) => ListCollection(w.db, u.id, org, coll)
    case CollectionItemDir(org, coll, index, arrSlug) => ListItem(w.db, u.id, org, coll, index, arrSlug)
    case CollectionScoreDir(org, coll, index, arrSlug) => ListItemScore(w, u.id, org, coll, index, arrSlug)
    case CollectionVoicesDir(org, coll, index, arrSlug) => ListItemVoices(w.db, u.id, org, coll, index, arrSlug)
    case CollectionVoice(org, coll, index, arrSlug, voice) =>
      ListItemVoice(w, u.id, org, coll, index, arrSlug, voice)
    case UsersRoot => Ok({DirEntry(u.slug)})
    case UserHome(user) =>
      var _ :- RequireOwnLibrary(u, user);
      Ok({DirEntry("library")})
    case LibraryRoot(user) => ListLibrary(w, u, user, LibraryRootPrefix(user))
    case LibraryEntry(user, rel) => ListLibrary(w, u, user, LibraryKey(user, rel) + "/")
    case ScoreFile(_, _, _) => Err(Forbidden)
    case VoiceFile(_, _, _, _) => Err(Forbidden)
    case AnnotationFile(_, _, _, _, _) => Err(Forbidden)
    case CollectionScoreFile(_, _, _, _, _) => Err(Forbidden)
    case CollectionVoiceFile(_, _, _, _, _, _) => Err(Forbidden)
  }
}
