/**
 * What every path answers to every user: the file system's decisions, against the
 * rows.
 */
module Decisions {
  import opened Wrappers
  import opened FileName
  import opened Path
  import S = Schema
  import opened Access
  import opened Tree
  import opened Listings
  import opened Permissions
  import opened Namespace
  import opened Leaves

  /** A live file of this place with the stem and format that the name has. */
  predicate HasFile(db: Db, arr: Id, voice: Option<Id>, file: string) {
    exists f <- db.files ::
      && !db.files[f].deleted && db.files[f].arr == arr && db.files[f].voice == voice
      && NamedSlot(file) == Some((db.files[f].name, db.files[f].format))
  }

  predicate MayArrangement(db: Db, user: Id, org: string, arr: string) {
    exists a <- db.arrangements :: NamesArrangement(db, a, org, arr) && SeesArrangement(db, user, a)
  }

  /** Scores are for staff. */
  predicate MayScore(db: Db, user: Id, org: string, arr: string) {
    exists a <- db.arrangements ::
      NamesArrangement(db, a, org, arr) && Leads(db, db.arrangements[a].org, user)
  }

  predicate MayScoreFile(db: Db, user: Id, org: string, arr: string, file: string) {
    exists a <- db.arrangements ::
      && NamesArrangement(db, a, org, arr) && Leads(db, db.arrangements[a].org, user)
      && HasFile(db, a, None, file)
  }

  predicate MayVoice(db: Db, user: Id, org: string, arr: string, voice: string) {
    exists v <- db.voices :: NamesVoice(db, v, org, arr, voice) && SeesVoice(db, user, v)
  }

  predicate MayVoiceFile(db: Db, user: Id, org: string, arr: string, voice: string, file: string) {
    exists v <- db.voices ::
      && NamesVoice(db, v, org, arr, voice) && SeesVoice(db, user, v)
      && HasFile(db, db.voices[v].arr, Some(v), file)
  }

  predicate MayCollection(db: Db, user: Id, org: string, coll: string) {
    exists c <- db.collections :: NamesCollection(db, c, org, coll) && SeesCollection(db, user, c)
  }

  predicate MayItem(db: Db, user: Id, org: string, coll: string, index: int, arrSlug: string) {
    exists i <- db.items :: NamesItem(db, i, org, coll, index, arrSlug) && SeesItem(db, user, i)
  }

  predicate MayItemScore(db: Db, user: Id, org: string, coll: string, index: int, arrSlug: string) {
    exists i <- db.items :: NamesItem(db, i, org, coll, index, arrSlug) && LeadsItem(db, user, i)
  }

  predicate MayItemScoreFile(db: Db, user: Id, org: string, coll: string, index: int, arrSlug: string, file: string) {
    exists i <- db.items ::
      && NamesItem(db, i, org, coll, index, arrSlug) && LeadsItem(db, user, i)
      && HasFile(db, db.items[i].arr, None, file)
  }

  predicate MayItemVoice(db: Db, user: Id, org: string, coll: string, index: int, arrSlug: string, voice: string) {
    exists i <- db.items, v <- db.voices ::
      && NamesItem(db, i, org, coll, index, arrSlug) && NamesItemVoice(db, i, v, voice)
      && SeesItemVoice(db, user, i, v)
  }

  predicate MayItemVoiceFile(db: Db, user: Id, org: string, coll: string, index: int, arrSlug: string, voice: string,
                             file: string) {
    exists i <- db.items, v <- db.voices ::
      && NamesItem(db, i, org, coll, index, arrSlug) && NamesItemVoice(db, i, v, voice)
      && SeesItemVoice(db, user, i, v) && HasFile(db, db.items[i].arr, Some(v), file)
  }

  predicate OrgExists(db: Db, org: string) {
    exists o <- db.orgs :: NamesOrg(db, o, org)
  }

  /** Who may see a node: the whole answer. */
  predicate May(w: World, u: User, p: ResolvedPath) {
    match p
    case Root => true
    case OrgsRoot => true
    case UsersRoot => true
    case Org(org) => OrgExists(w.db, org)
    case ArrangementsRoot(org) => OrgExists(w.db, org)
    case CollectionsRoot(org) => OrgExists(w.db, org)
    case Arrangement(org, arr) => MayArrangement(w.db, u.id, org, arr)
    case VoicesDir(org, arr) => MayArrangement(w.db, u.id, org, arr)
    case ScoreDir(org, arr) => MayScore(w.db, u.id, org, arr)
    case ScoreFile(org, arr, file) => MayScoreFile(w.db, u.id, org, arr, file)
    case Voice(org, arr, voice) => MayVoice(w.db, u.id, org, arr, voice)
    case VoiceFile(org, arr, voice, file) => MayVoiceFile(w.db, u.id, org, arr, voice, file)
    case AnnotationsDir(org, arr, voice) => MayVoice(w.db, u.id, org, arr, voice)
    case AnnotationsUserDir(org, arr, voice, _) => MayVoice(w.db, u.id, org, arr, voice)
    case AnnotationFile(org, arr, voice, user, file) =>
      MayVoice(w.db, u.id, org, arr, voice) && AnnotationKey(org, arr, voice, user, file) in w.objects
    case Collection(org, coll) => MayCollection(w.db, u.id, org, coll)
    case CollectionItemDir(org, coll, index, s) => MayItem(w.db, u.id, org, coll, index, s)
    case CollectionVoicesDir(org, coll, index, s) => MayItem(w.db, u.id, org, coll, index, s)
    case CollectionScoreDir(org, coll, index, s) => MayItemScore(w.db, u.id, org, coll, index, s)
    case CollectionScoreFile(org, coll, index, s, file) => MayItemScoreFile(w.db, u.id, org, coll, index, s, file)
    case CollectionVoice(org, coll, index, s, voice) => MayItemVoice(w.db, u.id, org, coll, index, s, voice)
    case CollectionVoiceFile(org, coll, index, s, voice, file) =>
      MayItemVoiceFile(w.db, u.id, org, coll, index, s, voice, file)
    case UserHome(user) => user == u.slug
    case LibraryRoot(user) => user == u.slug
    case LibraryEntry(user, rel) =>
      user == u.slug
      && (LibraryKey(user, rel) in w.objects || exists k <- w.objects :: LibraryKey(user, rel) + "/" <= k)
  }

  // ---------------------------------------------------------------------
  // Resolution decides as said

  lemma ArrangementDecided(db: Db, user: Id, org: string, arr: string)
    requires S.Lookups(db) && S.AssignmentKeys(db)
    ensures var r := ResolveArr(db, user, org, arr);
            && (r.Ok? <==> MayArrangement(db, user, org, arr))
            && (r.Ok? && r.value.2.IsStaff() <==> MayScore(db, user, org, arr))
            && (r.Ok? ==> NamesArrangement(db, r.value.1, org, arr))
  {
    ArrangementResolves(db, user, org, arr);
  }

  lemma VoiceDecided(db: Db, user: Id, org: string, arr: string, voice: string)
    requires S.Lookups(db) && S.AssignmentKeys(db)
    ensures var r := ResolveVoice(db, user, org, arr, voice);
            && (r.Ok? <==> MayVoice(db, user, org, arr, voice))
            && (r.Ok? ==> NamesVoice(db, r.value.2, org, arr, voice) && r.value.1 == db.voices[r.value.2].arr)
  {
    VoiceResolves(db, user, org, arr, voice);
  }

  lemma CollectionDecided(db: Db, user: Id, org: string, coll: string)
    requires S.Lookups(db)
    ensures ResolveCollection(db, user, org, coll).Ok? <==> MayCollection(db, user, org, coll)
  {
    CollectionResolves(db, user, org, coll);
  }

  lemma ItemDecided(db: Db, user: Id, org: string, coll: string, index: int, arrSlug: string)
    requires S.Lookups(db)
    ensures var r := ResolveCollectionItem(db, user, org, coll, index, arrSlug);
            && (r.Ok? <==> MayItem(db, user, org, coll, index, arrSlug))
            && (r.Ok? && r.value.vis.IsStaff() <==> MayItemScore(db, user, org, coll, index, arrSlug))
  {
    ItemResolves(db, user, org, coll, index, arrSlug);
  }

  lemma ItemVoiceDecided(db: Db, user: Id, org: string, coll: string, index: int, arrSlug: string, voice: string)
    requires S.Lookups(db)
    ensures ResolveCollectionVoice(db, user, org, coll, index, arrSlug, voice).Ok?
       <==> MayItemVoice(db, user, org, coll, index, arrSlug, voice)
  {
    ItemVoiceResolves(db, user, org, coll, index, arrSlug, voice);
  }

  // ---------------------------------------------------------------------
  // Files

  lemma FileDecided(w: World, arr: Id, voice: Option<Id>, file: string)
    requires S.ArrangementKeys(w.db) && S.FileSlotUnique(w.db) && S.FileShapes(w.db.files)
    requires ResolvePathSlugs(w.db, arr, voice).Some?
    ensures StatOrgFile(w, arr, voice, file).Ok? <==> HasFile(w.db, arr, voice, file)
    ensures forall org, a, v :: OrgFileKey(w, org, a, v, arr, voice, file).Ok? <==> HasFile(w.db, arr, voice, file)
  {
    assert FindFile(w.db, arr, voice, file).Ok? <==> HasFile(w.db, arr, voice, file);
  }

  lemma ScoreFileDecided(w: World, u: User, org: string, arr: string, file: string)
    requires S.Lookups(w.db) && S.AssignmentKeys(w.db) && S.FileShapes(w.db.files)
    ensures Stat(w, u, ScoreFile(org, arr, file)).Ok? <==> MayScoreFile(w.db, u.id, org, arr, file)
    ensures FileKeyForRead(w, u, ScoreFile(org, arr, file)).Ok? <==> MayScoreFile(w.db, u.id, org, arr, file)
  {
    ArrangementResolves(w.db, u.id, org, arr);
    var place := ResolveArr(w.db, u.id, org, arr);
    if place.Ok? && place.value.2.IsStaff() {
      ArrangementDecided(w.db, u.id, org, arr);
      FileDecided(w, place.value.1, None, file);
      ScoreFileUnfolds(w, u, org, arr, file);
    } else {
      ScoreFileRefused(w, u, org, arr, file);
    }
  }

  lemma ScoreFileRefused(w: World, u: User, org: string, arr: string, file: string)
    requires S.Lookups(w.db)
    requires ResolveArr(w.db, u.id, org, arr).Err? || !ResolveArr(w.db, u.id, org, arr).value.2.IsStaff()
    ensures Stat(w, u, ScoreFile(org, arr, file)).Err? && FileKeyForRead(w, u, ScoreFile(org, arr, file)).Err?
  {
  }

  lemma VoiceFileDecided(w: World, u: User, org: string, arr: string, voice: string, file: string)
    requires S.Lookups(w.db) && S.AssignmentKeys(w.db) && S.FileShapes(w.db.files)
    ensures Stat(w, u, VoiceFile(org, arr, voice, file)).Ok? <==> MayVoiceFile(w.db, u.id, org, arr, voice, file)
    ensures FileKeyForRead(w, u, VoiceFile(org, arr, voice, file)).Ok?
       <==> MayVoiceFile(w.db, u.id, org, arr, voice, file)
  {
    VoiceResolves(w.db, u.id, org, arr, voice);
    var place := ResolveVoice(w.db, u.id, org, arr, voice);
    if place.Ok? {
      VoiceDecided(w.db, u.id, org, arr, voice);
      FileDecided(w, place.value.1, Some(place.value.2), file);
      VoiceFileUnfolds(w, u, org, arr, voice, file);
    } else {
      VoiceFileRefused(w, u, org, arr, voice, file);
    }
  }

  lemma VoiceFileRefused(w: World, u: User, org: string, arr: string, voice: string, file: string)
    requires S.Lookups(w.db) && ResolveVoice(w.db, u.id, org, arr, voice).Err?
    ensures Stat(w, u, VoiceFile(org, arr, voice, file)).Err?
    ensures FileKeyForRead(w, u, VoiceFile(org, arr, voice, file)).Err?
  {
  }

  lemma ItemScoreFileDecided(w: World, u: User, org: string, coll: string, index: int, arrSlug: string, file: string)
    requires S.Lookups(w.db) && S.AssignmentKeys(w.db) && S.FileShapes(w.db.files)
    ensures Stat(w, u, CollectionScoreFile(org, coll, index, arrSlug, file)).Ok?
       <==> MayItemScoreFile(w.db, u.id, org, coll, index, arrSlug, file)
    ensures FileKeyForRead(w, u, CollectionScoreFile(org, coll, index, arrSlug, file)).Ok?
       <==> MayItemScoreFile(w.db, u.id, org, coll, index, arrSlug, file)
  {
    ItemResolves(w.db, u.id, org, coll, index, arrSlug);
    var place := ResolveCollectionItem(w.db, u.id, org, coll, index, arrSlug);
    if place.Ok? && place.value.vis.IsStaff() {
      FileDecided(w, place.value.arr, None, file);
      ItemScoreFileUnfolds(w, u, org, coll, index, arrSlug, file);
    } else {
      ItemScoreFileRefused(w, u, org, coll, index, arrSlug, file);
    }
  }

  lemma ItemScoreFileRefused(w: World, u: User, org: string, coll: string, index: int, arrSlug: string, file: string)
    requires S.Lookups(w.db)
    requires var place := ResolveCollectionItem(w.db, u.id, org, coll, index, arrSlug);
             place.Err? || !place.value.vis.IsStaff()
    ensures Stat(w, u, CollectionScoreFile(org, coll, index, arrSlug, file)).Err?
    ensures FileKeyForRead(w, u, CollectionScoreFile(org, coll, index, arrSlug, file)).Err?
  {
  }

  lemma ItemVoiceFileDecided(w: World, u: User, org: string, coll: string, index: int, arrSlug: string, voice: string,
                             file: string)
    requires S.Lookups(w.db) && S.AssignmentKeys(w.db) && S.FileShapes(w.db.files)
    ensures Stat(w, u, CollectionVoiceFile(org, coll, index, arrSlug, voice, file)).Ok?
       <==> MayItemVoiceFile(w.db, u.id, org, coll, index, arrSlug, voice, file)
    ensures FileKeyForRead(w, u, CollectionVoiceFile(org, coll, index, arrSlug, voice, file)).Ok?
       <==> MayItemVoiceFile(w.db, u.id, org, coll, index, arrSlug, voice, file)
  {
    ItemVoiceResolves(w.db, u.id, org, coll, index, arrSlug, voice);
    var place := ResolveCollectionVoice(w.db, u.id, org, coll, index, arrSlug, voice);
    if place.Ok? {
      FileDecided(w, place.value.0.arr, Some(place.value.1), file);
      ItemVoiceFileUnfolds(w, u, org, coll, index, arrSlug, voice, file);
    } else {
      ItemVoiceFileRefused(w, u, org, coll, index, arrSlug, voice, file);
    }
  }

  lemma ItemVoiceFileRefused(w: World, u: User, org: string, coll: string, index: int, arrSlug: string, voice: string,
                             file: string)
    requires S.Lookups(w.db) && ResolveCollectionVoice(w.db, u.id, org, coll, index, arrSlug, voice).Err?
    ensures Stat(w, u, CollectionVoiceFile(org, coll, index, arrSlug, voice, file)).Err?
    ensures FileKeyForRead(w, u, CollectionVoiceFile(org, coll, index, arrSlug, voice, file)).Err?
  {
  }

  // ---------------------------------------------------------------------
  // Every path

  lemma OrgStatDecided(w: World, u: User, p: ResolvedPath)
    requires S.Lookups(w.db) && (p.Org? || p.ArrangementsRoot? || p.CollectionsRoot?)
    ensures Stat(w, u, p).Ok? <==> May(w, u, p)
  {
    OrgResolves(w.db, u.id, p.org);
  }

  lemma ArrangementStatDecided(w: World, u: User, p: ResolvedPath)
    requires S.Lookups(w.db) && S.AssignmentKeys(w.db) && (p.Arrangement? || p.VoicesDir? || p.ScoreDir?)
    ensures Stat(w, u, p).Ok? <==> May(w, u, p)
  {
    ArrangementDecided(w.db, u.id, p.org, p.arr);
  }

  lemma VoiceStatDecided(w: World, u: User, p: ResolvedPath)
    requires S.Lookups(w.db) && S.AssignmentKeys(w.db)
    requires p.Voice? || p.AnnotationsDir? || p.AnnotationsUserDir? || p.AnnotationFile?
    ensures Stat(w, u, p).Ok? <==> May(w, u, p)
  {
    VoiceDecided(w.db, u.id, p.org, p.arr, p.voice);
  }

  lemma CollectionStatDecided(w: World, u: User, p: ResolvedPath)
    requires S.Lookups(w.db)
    requires p.Collection? || p.CollectionItemDir? || p.CollectionVoicesDir? || p.CollectionScoreDir?
    ensures Stat(w, u, p).Ok? <==> May(w, u, p)
  {
    if p.Collection? {
      CollectionDecided(w.db, u.id, p.org, p.coll);
    } else {
      ItemDecided(w.db, u.id, p.org, p.coll, p.index, p.arrSlug);
    }
  }

  lemma ItemVoiceStatDecided(w: World, u: User, org: string, coll: string, index: int, arrSlug: string, voice: string)
    requires S.Lookups(w.db)
    ensures Stat(w, u, CollectionVoice(org, coll, index, arrSlug, voice)).Ok?
       <==> May(w, u, CollectionVoice(org, coll, index, arrSlug, voice))
  {
    ItemVoiceDecided(w.db, u.id, org, coll, index, arrSlug, voice);
  }

  lemma OwnStatDecided(w: World, u: User, p: ResolvedPath)
    requires S.Lookups(w.db) && (p.UserHome? || p.LibraryRoot? || p.LibraryEntry?)
    ensures Stat(w, u, p).Ok? <==> May(w, u, p)
    ensures p.user != u.slug ==> Stat(w, u, p) == Err(NotFound) && ListDir(w, u, p) == Err(NotFound)
    ensures p.LibraryEntry? && p.user != u.slug ==> FileKeyForRead(w, u, p) == Err(NotFound)
  {
  }

  lemma FileStatDecided(w: World, u: User, p: ResolvedPath)
    requires S.Lookups(w.db) && S.AssignmentKeys(w.db) && S.FileShapes(w.db.files)
    requires p.ScoreFile? || p.VoiceFile? || p.CollectionScoreFile? || p.CollectionVoiceFile?
    ensures (Stat(w, u, p).Ok? <==> May(w, u, p)) && (FileKeyForRead(w, u, p).Ok? <==> May(w, u, p))
  {
    match p
    case ScoreFile(org, arr, file) => ScoreFileDecided(w, u, org, arr, file);
    case VoiceFile(org, arr, voice, file) => VoiceFileDecided(w, u, org, arr, voice, file);
    case CollectionScoreFile(org, coll, index, s, file) => ItemScoreFileDecided(w, u, org, coll, index, s, file);
    case CollectionVoiceFile(org, coll, index, s, voice, file) =>
      ItemVoiceFileDecided(w, u, org, coll, index, s, voice, file);
  }

  lemma ValidFacts(db: Db)
    requires S.Valid(db)
    ensures S.Lookups(db) && S.AssignmentKeys(db) && S.FileShapes(db.files)
  {
  }

  /** In every state the constraints allow, a path can be looked up by a user exactly
      when the rows and the membership table say so. */
  lemma StatDecided(w: World, u: User, p: ResolvedPath)
    requires S.Valid(w.db)
    ensures Stat(w, u, p).Ok? <==> May(w, u, p)
  {
    ValidFacts(w.db);
    if p.Org? || p.ArrangementsRoot? || p.CollectionsRoot? {
      OrgStatDecided(w, u, p);
    } else if p.Arrangement? || p.VoicesDir? || p.ScoreDir? {
      ArrangementStatDecided(w, u, p);
    } else if p.Voice? || p.AnnotationsDir? || p.AnnotationsUserDir? || p.AnnotationFile? {
      VoiceStatDecided(w, u, p);
    } else if p.Collection? || p.CollectionItemDir? || p.CollectionVoicesDir? || p.CollectionScoreDir? {
      CollectionStatDecided(w, u, p);
    } else if p.CollectionVoice? {
      ItemVoiceStatDecided(w, u, p.org, p.coll, p.index, p.arrSlug, p.voice);
    } else if p.UserHome? || p.LibraryRoot? || p.LibraryEntry? {
      OwnStatDecided(w, u, p);
    } else if p.ScoreFile? || p.VoiceFile? || p.CollectionScoreFile? || p.CollectionVoiceFile? {
      FileStatDecided(w, u, p);
    } else {
    }
  }

  lemma OtherOpens(w: World, u: User, p: ResolvedPath)
    requires S.Lookups(w.db) && S.AssignmentKeys(w.db) && (p.AnnotationFile? || p.LibraryEntry? || p.IsCollection())
    ensures FileKeyForRead(w, u, p).Ok?
       <==> !p.IsCollection() && May(w, u, p) && (p.LibraryEntry? ==> LibraryKey(p.user, p.rel) in w.objects)
  {
    if p.AnnotationFile? {
      VoiceDecided(w.db, u.id, p.org, p.arr, p.voice);
    } else {
    }
  }

  /** A file can be opened exactly by those who may look it up; a library entry only
      if it is an object. */
  lemma OpenDecided(w: World, u: User, p: ResolvedPath)
    requires S.Valid(w.db)
    ensures FileKeyForRead(w, u, p).Ok?
       <==> !p.IsCollection() && May(w, u, p) && (p.LibraryEntry? ==> LibraryKey(p.user, p.rel) in w.objects)
  {
    ValidFacts(w.db);
    if p.ScoreFile? || p.VoiceFile? || p.CollectionScoreFile? || p.CollectionVoiceFile? {
      FileStatDecided(w, u, p);
    } else {
      OtherOpens(w, u, p);
    }
  }

  // ---------------------------------------------------------------------
  // Listings

  /** A directory can be listed exactly by those who may see it. */
  lemma ListDecided(w: World, u: User, p: ResolvedPath)
    requires S.Valid(w.db) && p.IsCollection()
    ensures ListDir(w, u, p).Ok? <==> May(w, u, p)
  {
    ValidFacts(w.db);
    ListsExactlyWhenItStats(w, u, p);
    StatDecided(w, u, p);
  }

  /** Below an organization's two roots, a directory is listed exactly to those who
      may see what it prints. */
  lemma ListedDecided(w: World, u: User, dir: ResolvedPath, name: string)
    requires S.Valid(w.db) && WellFormed(dir) && InOrgTree(dir)
    ensures Listed(w, u, dir, DirEntry(name))
       <==> && Child(dir, name).Some? && Child(dir, name).value.IsCollection()
            && May(w, u, Child(dir, name).value) && Segments(Child(dir, name).value) == Segments(dir) + [name]
  {
    DirectoriesAgree(w, u, dir, name);
    if Child(dir, name).Some? {
      StatDecided(w, u, Child(dir, name).value);
    }
  }

  lemma RootChildren(name: string)
    requires !Unnameable(name)
    ensures Child(Root, name)
         == if name == "orgs" then Some(OrgsRoot) else if name == "users" then Some(UsersRoot) else None
  {
    assert [name][0] == name && Segments(Root) + [name] == [name];
  }

  lemma OrgChildren(org: string, name: string)
    requires !Unnameable(name) && !Unnameable(org)
    ensures Child(Org(org), name) == if name == "arrangements" then Some(ArrangementsRoot(org))
                                     else if name == "collections" then Some(CollectionsRoot(org)) else None
  {
    var segs := Segments(Org(org)) + [name];
    assert segs == ["orgs", org, name] && segs[3..] == [];
  }

  lemma UserChildren(user: string, name: string)
    requires !Unnameable(name) && !Unnameable(user)
    ensures Child(UsersRoot, name) == Some(UserHome(name))
    ensures Child(UserHome(user), name) == if name == "library" then Some(LibraryRoot(user)) else None
  {
    assert Segments(UsersRoot) + [name] == ["users", name];
    assert Segments(UserHome(user)) + [name] == ["users", user, name];
  }

  lemma FixedNames()
    ensures !Unnameable("orgs") && !Unnameable("users") && !Unnameable("arrangements") && !Unnameable("collections")
    ensures !Unnameable("library") && "orgs" != "users" && "arrangements" != "collections"
  {
  }

  lemma OrgHolds(w: World, u: User, org: string, name: string)
    requires S.Lookups(w.db)
    ensures Listed(w, u, Org(org), DirEntry(name))
       <==> OrgExists(w.db, org) && (name == "arrangements" || name == "collections")
  {
    OrgResolves(w.db, u.id, org);
    assert DirEntry(name) == DirEntry("arrangements") <==> name == "arrangements";
    assert DirEntry(name) == DirEntry("collections") <==> name == "collections";
  }

  lemma TopHolds(w: World, u: User, name: string)
    requires S.Lookups(w.db)
    ensures Listed(w, u, Root, DirEntry(name)) <==> name == "orgs" || name == "users"
    ensures Listed(w, u, UsersRoot, DirEntry(name)) <==> name == u.slug
    ensures forall user :: Listed(w, u, UserHome(user), DirEntry(name)) <==> user == u.slug && name == "library"
  {
    assert DirEntry(name) == DirEntry("orgs") <==> name == "orgs";
    assert DirEntry(name) == DirEntry("users") <==> name == "users";
    assert DirEntry(name) == DirEntry("library") <==> name == "library";
    assert DirEntry(name) == DirEntry(u.slug) <==> name == u.slug;
  }

  /** Listed exactly when the child exists and may be seen. */
  predicate TopAgrees(w: World, u: User, dir: ResolvedPath, name: string)
    requires S.Lookups(w.db)
  {
    Listed(w, u, dir, DirEntry(name)) <==> Child(dir, name).Some? && May(w, u, Child(dir, name).value)
  }

  lemma NoChildAgrees(w: World, u: User, dir: ResolvedPath, name: string)
    requires S.Lookups(w.db) && Unnameable(name) && !Listed(w, u, dir, DirEntry(name))
    ensures TopAgrees(w, u, dir, name)
  {
    ChildOfUnnameable(dir, name);
  }

  lemma RootAgrees(w: World, u: User, name: string)
    requires S.Lookups(w.db) && !Unnameable(name)
    ensures TopAgrees(w, u, Root, name)
  {
    TopHolds(w, u, name);
    RootChildren(name);
  }

  lemma OrgAgrees(w: World, u: User, org: string, name: string)
    requires S.Lookups(w.db) && !Unnameable(name) && !Unnameable(org)
    ensures TopAgrees(w, u, Org(org), name)
  {
    OrgHolds(w, u, org, name);
    OrgChildren(org, name);
  }

  lemma UsersAgree(w: World, u: User, name: string)
    requires S.Lookups(w.db) && !Unnameable(name)
    ensures TopAgrees(w, u, UsersRoot, name)
  {
    TopHolds(w, u, name);
    UserChildren(name, name);
  }

  lemma HomeAgrees(w: World, u: User, user: string, name: string)
    requires S.Lookups(w.db) && !Unnameable(name) && !Unnameable(user)
    ensures TopAgrees(w, u, UserHome(user), name)
  {
    TopHolds(w, u, name);
    UserChildren(user, name);
  }

  lemma TopNamesAreNameable(w: World, u: User, dir: ResolvedPath, name: string)
    requires S.Lookups(w.db) && (dir.Root? || dir.Org? || dir.UsersRoot? || dir.UserHome?)
    requires Unnameable(name) && !Unnameable(u.slug)
    ensures !Listed(w, u, dir, DirEntry(name))
  {
    FixedNames();
    if dir.Org? {
      OrgHolds(w, u, dir.org, name);
    } else {
      TopHolds(w, u, name);
    }
  }

  /** The directories above and beside the organizations' roots: a name is listed
      exactly when its child can be looked up. (The list of organizations is shorter
      than what can be looked up, see `OrgListedIff`.) */
  lemma TopDirectoriesAgree(w: World, u: User, dir: ResolvedPath, name: string)
    requires S.Valid(w.db) && WellFormed(dir) && !Unnameable(u.slug)
    requires dir.Root? || dir.Org? || dir.UsersRoot? || dir.UserHome?
    ensures S.Lookups(w.db) && TopAgrees(w, u, dir, name)
  {
    ValidFacts(w.db);
    if Unnameable(name) {
      TopNamesAreNameable(w, u, dir, name);
      NoChildAgrees(w, u, dir, name);
    } else {
      match dir
      case Root => RootAgrees(w, u, name);
      case Org(org) =>
        assert GoodSegment(Segments(dir)[1]);
        OrgAgrees(w, u, org, name);
      case UsersRoot => UsersAgree(w, u, name);
      case UserHome(user) =>
        assert GoodSegment(Segments(dir)[1]);
        HomeAgrees(w, u, user, name);
    }
  }

  /** A member of any role, or assigned to a voice of the organization. */
  predicate Belongs(db: Db, user: Id, o: Id) {
    || (o, user) in db.memberships
    || exists i <- db.items, v <- db.voices ::
         && OnProgramme(db, i) && Plays(db, user, i, v)
         && db.voices[v].arr in db.arrangements && db.arrangements[db.voices[v].arr].org == o
  }

  lemma BelongsIsVisible(db: Db, user: Id, o: Id)
    requires o in db.orgs && S.AssignmentKeys(db)
    ensures o in VisibleOrgs(db, user) <==> Belongs(db, user, o)
  {
    if (o, user) !in db.memberships {
      if i, v :| && i in db.items && v in db.voices && OnProgramme(db, i) && Plays(db, user, i, v)
                 && db.voices[v].arr in db.arrangements && db.arrangements[db.voices[v].arr].org == o {
        var p :| p in db.assignments && db.assignments[p].user == user && db.assignments[p].item == i
                 && db.assignments[p].voice == v;
      }
      if p :| && p in db.assignments && db.assignments[p].user == user
              && db.assignments[p].voice in db.voices && db.voices[db.assignments[p].voice].arr in db.arrangements
              && db.arrangements[db.voices[db.assignments[p].voice].arr].org == o
              && OnProgramme(db, db.assignments[p].item) {
        assert Plays(db, user, db.assignments[p].item, db.assignments[p].voice);
      }
    }
  }

  /** The organizations listed to a user are those they belong to, and no others. */
  lemma OrgListedIff(w: World, u: User, name: string)
    requires S.Valid(w.db)
    ensures Listed(w, u, OrgsRoot, DirEntry(name))
       <==> exists o <- w.db.orgs :: NamesOrg(w.db, o, name) && Belongs(w.db, u.id, o)
  {
    ValidFacts(w.db);
    forall o <- w.db.orgs
      ensures o in VisibleOrgs(w.db, u.id) <==> Belongs(w.db, u.id, o)
    {
      BelongsIsVisible(w.db, u.id, o);
    }
    OrgsListed(w, u, name);
  }

  lemma OrgsListed(w: World, u: User, name: string)
    requires S.Lookups(w.db)
    ensures Listed(w, u, OrgsRoot, DirEntry(name))
       <==> exists o <- w.db.orgs :: NamesOrg(w.db, o, name) && o in VisibleOrgs(w.db, u.id)
  {
    if o :| o in w.db.orgs && NamesOrg(w.db, o, name) && o in VisibleOrgs(w.db, u.id) {
      assert OrgEntry(w.db, o) == DirEntry(name);
    }
  }

  // ---------------------------------------------------------------------
  // Role by role

  /** What a membership, or none, allows in an organization. */
  predicate MaySeeScores(db: Db, o: Id, user: Id) {
    if (o, user) !in db.memberships then false
    else
      match db.memberships[(o, user)]
      case Owner => true
      case Archivist => true
      case Conductor => true
      case Musician => false
  }

  lemma ScoresByRole(db: Db, user: Id, a: Id, org: string, arr: string, file: string)
    requires S.Lookups(db) && NamesArrangement(db, a, org, arr)
    ensures MayScore(db, user, org, arr) <==> MaySeeScores(db, db.arrangements[a].org, user)
    ensures MayScoreFile(db, user, org, arr, file) ==> MaySeeScores(db, db.arrangements[a].org, user)
  {
    forall b <- db.arrangements | NamesArrangement(db, b, org, arr)
      ensures b == a
    {
    }
  }

  /** The directory of full scores is looked up and listed by owners, archivists and
      conductors, and by no musician and no guest, whatever they are assigned. */
  lemma ScoresAreForStaff(w: World, u: User, a: Id, org: string, arr: string)
    requires S.Valid(w.db) && NamesArrangement(w.db, a, org, arr)
    ensures Stat(w, u, ScoreDir(org, arr)).Ok? <==> MaySeeScores(w.db, w.db.arrangements[a].org, u.id)
    ensures ListDir(w, u, ScoreDir(org, arr)).Ok? <==> MaySeeScores(w.db, w.db.arrangements[a].org, u.id)
  {
    ValidFacts(w.db);
    ScoresByRole(w.db, u.id, a, org, arr, "");
    StatDecided(w, u, ScoreDir(org, arr));
    ListDecided(w, u, ScoreDir(org, arr));
  }

  /** No full score is looked up or opened by anyone else. */
  lemma ScoreFilesAreForStaff(w: World, u: User, a: Id, org: string, arr: string, file: string)
    requires S.Valid(w.db) && NamesArrangement(w.db, a, org, arr)
    requires Stat(w, u, ScoreFile(org, arr, file)).Ok? || FileKeyForRead(w, u, ScoreFile(org, arr, file)).Ok?
    ensures MaySeeScores(w.db, w.db.arrangements[a].org, u.id)
  {
    ValidFacts(w.db);
    ScoresByRole(w.db, u.id, a, org, arr, file);
    FileStatDecided(w, u, ScoreFile(org, arr, file));
  }

  /** Staff may see everything of the organization that is live. */
  lemma StaffMay(db: Db, user: Id, o: Id)
    requires MaySeeScores(db, o, user)
    ensures forall a: Id, org, arr | NamesArrangement(db, a, org, arr) && db.arrangements[a].org == o ::
              MayArrangement(db, user, org, arr) && MayScore(db, user, org, arr)
    ensures forall v: Id, org, arr, voice |
              NamesVoice(db, v, org, arr, voice) && db.arrangements[db.voices[v].arr].org == o ::
              MayVoice(db, user, org, arr, voice)
    ensures forall c: Id, org, coll | NamesCollection(db, c, org, coll) && db.collections[c].org == o ::
              MayCollection(db, user, org, coll)
    ensures forall i: Id, org, coll, index, s |
              NamesItem(db, i, org, coll, index, s) && db.collections[db.items[i].coll].org == o ::
              MayItem(db, user, org, coll, index, s) && MayItemScore(db, user, org, coll, index, s)
    ensures forall i: Id, v: Id, org, coll, index, s, voice |
              && NamesItem(db, i, org, coll, index, s) && NamesItemVoice(db, i, v, voice)
              && db.collections[db.items[i].coll].org == o ::
              MayItemVoice(db, user, org, coll, index, s, voice)
  {
    assert Leads(db, o, user);
    forall a: Id, org, arr | NamesArrangement(db, a, org, arr) && db.arrangements[a].org == o
      ensures MayArrangement(db, user, org, arr) && MayScore(db, user, org, arr)
    {
      assert SeesArrangement(db, user, a);
    }
    forall v: Id, org, arr, voice |
      NamesVoice(db, v, org, arr, voice) && db.arrangements[db.voices[v].arr].org == o
      ensures MayVoice(db, user, org, arr, voice)
    {
      assert SeesVoice(db, user, v);
    }
    forall i: Id, org, coll, index, s |
      NamesItem(db, i, org, coll, index, s) && db.collections[db.items[i].coll].org == o
      ensures MayItem(db, user, org, coll, index, s) && MayItemScore(db, user, org, coll, index, s)
    {
      assert LeadsItem(db, user, i);
    }
  }
}
