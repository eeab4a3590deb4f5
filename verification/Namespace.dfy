/**
 * The tree as a namespace (sections 5.1 and 5.2 of RFC 4918): for every
 * directory and every name, the listing of the directory and the lookup of the
 * child agree.
 */
module Namespace {
  import opened Wrappers
  import opened Text
  import opened Path
  import S = Schema
  import opened Access
  import opened Tree
  import opened Listings
  import opened Lockstep

  /** A directory at or below an organization's two roots, annotations aside. */
  predicate InOrgTree(p: ResolvedPath) {
    || p.ArrangementsRoot? || p.Arrangement? || p.ScoreDir? || p.VoicesDir? || p.Voice?
    || p.CollectionsRoot? || p.Collection? || p.CollectionItemDir? || p.CollectionScoreDir?
    || p.CollectionVoicesDir? || p.CollectionVoice?
  }

  lemma ChildOfUnnameable(dir: ResolvedPath, name: string)
    requires Unnameable(name)
    ensures Child(dir, name) == None
  {
    var segs := Segments(dir) + [name];
    assert segs[|segs| - 1] == name;
  }

  lemma ArrangementChildren(dir: ResolvedPath, name: string)
    requires WellFormed(dir) && !Unnameable(name)
    requires dir.ArrangementsRoot? || dir.Arrangement? || dir.ScoreDir? || dir.VoicesDir? || dir.Voice?
    ensures dir.ArrangementsRoot? ==> Child(dir, name) == Some(Arrangement(dir.org, name))
    ensures dir.Arrangement? ==> Child(dir, name) == if name == "score" then Some(ScoreDir(dir.org, dir.arr))
                                                      else if name == "voices" then Some(VoicesDir(dir.org, dir.arr))
                                                      else None
    ensures dir.ScoreDir? ==> Child(dir, name) == Some(ScoreFile(dir.org, dir.arr, name))
    ensures dir.VoicesDir? ==> Child(dir, name) == Some(Voice(dir.org, dir.arr, name))
    ensures dir.Voice? ==> Child(dir, name) == if name == "annotations" then
                                                  Some(AnnotationsDir(dir.org, dir.arr, dir.voice))
                                                else Some(VoiceFile(dir.org, dir.arr, dir.voice, name))
  {
    assert forall i :: 0 <= i < |Segments(dir)| ==> GoodSegment(Segments(dir)[i]);
    assert GoodSegment(Segments(dir)[1]);
    var t := Segments(dir)[3..] + [name];
    assert Segments(dir) + [name] == ["orgs", dir.org, "arrangements"] + t;
    BelowArrangements(dir.org, t);
  }

  lemma CollectionChildren(dir: ResolvedPath, name: string)
    requires WellFormed(dir) && !Unnameable(name) && (dir.CollectionsRoot? || dir.Collection?)
    ensures dir.CollectionsRoot? ==> Child(dir, name) == Some(Collection(dir.org, name))
    ensures dir.Collection? ==> Child(dir, name) == match SplitItemSegment(name)
                                case None => None
                                case Some(p) => Some(CollectionItemDir(dir.org, dir.coll, p.0, p.1))
  {
    assert forall i :: 0 <= i < |Segments(dir)| ==> GoodSegment(Segments(dir)[i]);
    var segs := Segments(dir) + [name];
    if dir.CollectionsRoot? {
      assert segs[3..] == [name];
    } else {
      assert segs[3..] == [dir.coll, name];
      assert segs[3..][2..] == [];
    }
  }

  lemma ItemChildren(dir: ResolvedPath, name: string)
    requires WellFormed(dir) && !Unnameable(name)
    requires dir.CollectionItemDir? || dir.CollectionScoreDir? || dir.CollectionVoicesDir? || dir.CollectionVoice?
    ensures dir.CollectionItemDir? ==>
              Child(dir, name) == if name == "score" then
                Some(CollectionScoreDir(dir.org, dir.coll, dir.index, dir.arrSlug))
              else if name == "voices" then
                Some(CollectionVoicesDir(dir.org, dir.coll, dir.index, dir.arrSlug))
              else None
    ensures dir.CollectionScoreDir? ==>
              Child(dir, name) == Some(CollectionScoreFile(dir.org, dir.coll, dir.index, dir.arrSlug, name))
    ensures dir.CollectionVoicesDir? ==>
              Child(dir, name) == Some(CollectionVoice(dir.org, dir.coll, dir.index, dir.arrSlug, name))
    ensures dir.CollectionVoice? ==>
              Child(dir, name) == Some(CollectionVoiceFile(dir.org, dir.coll, dir.index, dir.arrSlug, dir.voice, name))
  {
    assert forall i :: 0 <= i < |Segments(dir)| ==> GoodSegment(Segments(dir)[i]);
    assert GoodSegment(Segments(dir)[1]) && GoodSegment(Segments(dir)[3]) && GoodSegment(Segments(dir)[4]);
    var u := Segments(dir)[5..] + [name];
    assert Segments(dir) + [name]
        == ["orgs", dir.org, "collections", dir.coll, ItemSegment(dir.index, dir.arrSlug)] + u;
    BelowItem(dir.org, dir.coll, dir.index, dir.arrSlug, u);
  }

  // ---------------------------------------------------------------------
  // Listed exactly when the child stats, for every name

  predicate Listed(w: World, u: User, dir: ResolvedPath, e: Entry)
    requires S.Lookups(w.db)
  {
    Has(ListDir(w, u, dir), e)
  }

  /** The child a name leads to is a directory that stats, and the name is its
      printed form. (`01-bolero` also parses to the item at index 1, so it stats
      although only `1-bolero` is listed.) */
  predicate StatsAsDirectory(w: World, u: User, dir: ResolvedPath, name: string)
    requires S.Lookups(w.db)
  {
    && Child(dir, name).Some?
    && Child(dir, name).value.IsCollection()
    && Stat(w, u, Child(dir, name).value).Ok?
    && Segments(Child(dir, name).value) == Segments(dir) + [name]
  }

  /** The agreement this module proves of every directory and every name. */
  predicate Agrees(w: World, u: User, dir: ResolvedPath, name: string)
    requires S.Lookups(w.db)
  {
    Listed(w, u, dir, DirEntry(name)) <==> StatsAsDirectory(w, u, dir, name)
  }

  /** Enough for a name whose child is known and prints as the name. */
  lemma AgreesIf(w: World, u: User, dir: ResolvedPath, name: string, child: ResolvedPath)
    requires S.Lookups(w.db)
    requires Child(dir, name) == Some(child) && child.IsCollection() && Segments(child) == Segments(dir) + [name]
    requires Listed(w, u, dir, DirEntry(name)) <==> Stat(w, u, child).Ok?
    ensures Agrees(w, u, dir, name)
  {
  }

  /** Enough for a name that is not listed and leads nowhere. */
  lemma AgreesIfAbsent(w: World, u: User, dir: ResolvedPath, name: string)
    requires S.Lookups(w.db)
    requires Child(dir, name).None? || !Child(dir, name).value.IsCollection()
    requires !Listed(w, u, dir, DirEntry(name))
    ensures Agrees(w, u, dir, name)
  {
  }

  // Listing and stat of one child, directory by directory.

  lemma ArrangementListed(w: World, u: User, org: string, name: string)
    requires S.Lookups(w.db)
    ensures Listed(w, u, ArrangementsRoot(org), DirEntry(name)) <==> Stat(w, u, Arrangement(org, name)).Ok?
  {
    ArrangementsLockstep(w.db, u.id, org, name);
  }

  lemma ScoreListed(w: World, u: User, org: string, arr: string)
    requires S.Lookups(w.db)
    ensures Listed(w, u, Arrangement(org, arr), DirEntry("score")) <==> Stat(w, u, ScoreDir(org, arr)).Ok?
  {
    assert DirEntry("score") != DirEntry("voices");
  }

  lemma VoicesListed(w: World, u: User, org: string, arr: string)
    requires S.Lookups(w.db)
    ensures Listed(w, u, Arrangement(org, arr), DirEntry("voices")) <==> Stat(w, u, VoicesDir(org, arr)).Ok?
  {
  }

  lemma VoiceListed(w: World, u: User, org: string, arr: string, name: string)
    requires S.Lookups(w.db)
    ensures Listed(w, u, VoicesDir(org, arr), DirEntry(name)) <==> Stat(w, u, Voice(org, arr, name)).Ok?
  {
    VoicesLockstep(w.db, u.id, org, arr, name);
  }

  lemma AnnotationsListed(w: World, u: User, org: string, arr: string, voice: string)
    requires S.Lookups(w.db)
    ensures Listed(w, u, Voice(org, arr, voice), DirEntry("annotations"))
       <==> Stat(w, u, AnnotationsDir(org, arr, voice)).Ok?
  {
  }

  lemma CollectionListed(w: World, u: User, org: string, name: string)
    requires S.Lookups(w.db)
    ensures Listed(w, u, CollectionsRoot(org), DirEntry(name)) <==> Stat(w, u, Collection(org, name)).Ok?
  {
    CollectionsLockstep(w.db, u.id, org, name);
  }

  lemma ItemListed(w: World, u: User, org: string, coll: string, index: int, arrSlug: string)
    requires S.Lookups(w.db) && ItemShapes(w.db) && 0 <= index <= I32_MAX && arrSlug != ""
    ensures Listed(w, u, Collection(org, coll), DirEntry(ItemSegment(index, arrSlug)))
       <==> Stat(w, u, CollectionItemDir(org, coll, index, arrSlug)).Ok?
  {
    ItemsLockstep(w.db, u.id, org, coll, index, arrSlug);
  }

  lemma ItemDirLists(w: World, u: User, org: string, coll: string, index: int, arrSlug: string, e: Entry)
    requires S.Lookups(w.db)
    ensures Listed(w, u, CollectionItemDir(org, coll, index, arrSlug), e)
       <==> Has(ListItem(w.db, u.id, org, coll, index, arrSlug), e)
  {
  }

  lemma ItemVoiceDirLists(w: World, u: User, org: string, coll: string, index: int, arrSlug: string, voice: string,
                          e: Entry)
    requires S.Lookups(w.db)
    ensures Listed(w, u, CollectionVoice(org, coll, index, arrSlug, voice), e)
       <==> Has(ListItemVoice(w, u.id, org, coll, index, arrSlug, voice), e)
  {
  }

  lemma ItemVoicesDirLists(w: World, u: User, org: string, coll: string, index: int, arrSlug: string, e: Entry)
    requires S.Lookups(w.db)
    ensures Listed(w, u, CollectionVoicesDir(org, coll, index, arrSlug), e)
       <==> Has(ListItemVoices(w.db, u.id, org, coll, index, arrSlug), e)
  {
  }

  /** `score` is listed for staff, `voices` for everyone who can see the item. */
  lemma ItemLists(db: Db, user: Id, org: string, coll: string, index: int, arrSlug: string)
    requires S.OrgSlugUnique(db) && S.CollectionSlugUnique(db) && S.ItemIndexUnique(db.items)
    ensures var place := ResolveCollectionItem(db, user, org, coll, index, arrSlug);
            && (Has(ListItem(db, user, org, coll, index, arrSlug), DirEntry("voices")) <==> place.Ok?)
            && (Has(ListItem(db, user, org, coll, index, arrSlug), DirEntry("score")) <==>
                  place.Ok? && place.value.vis.IsStaff())
  {
    assert DirEntry("score") != DirEntry("voices");
  }

  lemma ItemScoreStats(w: World, u: User, org: string, coll: string, index: int, arrSlug: string)
    requires S.Lookups(w.db)
    ensures var place := ResolveCollectionItem(w.db, u.id, org, coll, index, arrSlug);
            Stat(w, u, CollectionScoreDir(org, coll, index, arrSlug)).Ok? <==> place.Ok? && place.value.vis.IsStaff()
  {
  }

  lemma ItemVoicesStats(w: World, u: User, org: string, coll: string, index: int, arrSlug: string)
    requires S.Lookups(w.db)
    ensures Stat(w, u, CollectionVoicesDir(org, coll, index, arrSlug)).Ok?
       <==> ResolveCollectionItem(w.db, u.id, org, coll, index, arrSlug).Ok?
  {
  }

  lemma ItemVoiceStats(w: World, u: User, org: string, coll: string, index: int, arrSlug: string, voice: string)
    requires S.Lookups(w.db)
    ensures Stat(w, u, CollectionVoice(org, coll, index, arrSlug, voice)).Ok?
       <==> ResolveCollectionVoice(w.db, u.id, org, coll, index, arrSlug, voice).Ok?
  {
  }

  lemma ItemScoreListed(w: World, u: User, org: string, coll: string, index: int, arrSlug: string)
    requires S.Lookups(w.db)
    ensures Listed(w, u, CollectionItemDir(org, coll, index, arrSlug), DirEntry("score"))
       <==> Stat(w, u, CollectionScoreDir(org, coll, index, arrSlug)).Ok?
  {
    ItemLists(w.db, u.id, org, coll, index, arrSlug);
    ItemScoreStats(w, u, org, coll, index, arrSlug);
    ItemDirLists(w, u, org, coll, index, arrSlug, DirEntry("score"));
  }

  lemma ItemVoicesListed(w: World, u: User, org: string, coll: string, index: int, arrSlug: string)
    requires S.Lookups(w.db)
    ensures Listed(w, u, CollectionItemDir(org, coll, index, arrSlug), DirEntry("voices"))
       <==> Stat(w, u, CollectionVoicesDir(org, coll, index, arrSlug)).Ok?
  {
    ItemLists(w.db, u.id, org, coll, index, arrSlug);
    ItemVoicesStats(w, u, org, coll, index, arrSlug);
    ItemDirLists(w, u, org, coll, index, arrSlug, DirEntry("voices"));
  }

  lemma ItemVoiceListed(w: World, u: User, org: string, coll: string, index: int, arrSlug: string, name: string)
    requires S.Lookups(w.db)
    ensures Listed(w, u, CollectionVoicesDir(org, coll, index, arrSlug), DirEntry(name))
       <==> Stat(w, u, CollectionVoice(org, coll, index, arrSlug, name)).Ok?
  {
    ItemVoicesLockstep(w.db, u.id, org, coll, index, arrSlug, name);
    ItemVoiceStats(w, u, org, coll, index, arrSlug, name);
    ItemVoicesDirLists(w, u, org, coll, index, arrSlug, DirEntry(name));
  }

  // Names that lead nowhere are never listed.

  predicate NamesNameable(db: Db) {
    && (forall a <- db.arrangements :: !Unnameable(db.arrangements[a].slug))
    && (forall v <- db.voices :: !Unnameable(db.voices[v].slug))
    && (forall c <- db.collections :: !Unnameable(db.collections[c].slug))
  }

  lemma ShapesAreNameable(db: Db)
    requires S.Shapes(db) && S.ItemKeys(db)
    ensures NamesNameable(db) && ItemShapes(db)
  {
  }

  lemma UnnameableArrangement(w: World, u: User, dir: ResolvedPath, name: string)
    requires S.Lookups(w.db) && NamesNameable(w.db)
    requires dir.ArrangementsRoot? || dir.VoicesDir?
    ensures Unnameable(name) ==> !Listed(w, u, dir, DirEntry(name))
  {
  }

  lemma UnnameableCollection(w: World, u: User, dir: ResolvedPath, name: string)
    requires S.Lookups(w.db) && NamesNameable(w.db)
    requires dir.CollectionsRoot? || dir.Collection?
    ensures Unnameable(name) ==> !Listed(w, u, dir, DirEntry(name))
  {
  }

  lemma UnnameableItem(w: World, u: User, dir: ResolvedPath, name: string)
    requires S.Lookups(w.db) && NamesNameable(w.db)
    requires dir.CollectionVoicesDir?
    ensures Unnameable(name) ==> !Listed(w, u, dir, DirEntry(name))
  {
  }

  lemma OtherPieceNames(w: World, u: User, dir: ResolvedPath, name: string)
    requires S.Lookups(w.db)
    requires dir.Arrangement? || dir.CollectionItemDir?
    ensures name != "score" && name != "voices" ==> !Listed(w, u, dir, DirEntry(name))
  {
  }

  lemma OnlyFilesInItemScore(w: World, u: User, org: string, coll: string, index: int, arrSlug: string, name: string)
    requires S.Lookups(w.db)
    ensures !Listed(w, u, CollectionScoreDir(org, coll, index, arrSlug), DirEntry(name))
  {
  }

  lemma OnlyFilesIn(w: World, u: User, dir: ResolvedPath, name: string)
    requires S.Lookups(w.db)
    ensures dir.ScoreDir? || dir.CollectionScoreDir? || dir.CollectionVoice? ==> !Listed(w, u, dir, DirEntry(name))
    ensures dir.Voice? && name != "annotations" ==> !Listed(w, u, dir, DirEntry(name))
  {
    if dir.CollectionScoreDir? {
      OnlyFilesInItemScore(w, u, dir.org, dir.coll, dir.index, dir.arrSlug, name);
    } else if dir.CollectionVoice? {
      ItemVoiceDirLists(w, u, dir.org, dir.coll, dir.index, dir.arrSlug, dir.voice, DirEntry(name));
    } else {
    }
  }

  lemma AbsentNameAgrees(w: World, u: User, dir: ResolvedPath, name: string)
    requires S.Lookups(w.db) && InOrgTree(dir) && Unnameable(name)
    requires NamesNameable(w.db)
    ensures Agrees(w, u, dir, name)
  {
    ChildOfUnnameable(dir, name);
    if dir.ArrangementsRoot? || dir.VoicesDir? {
      UnnameableArrangement(w, u, dir, name);
    } else if dir.CollectionsRoot? || dir.Collection? {
      UnnameableCollection(w, u, dir, name);
    } else if dir.CollectionVoicesDir? {
      UnnameableItem(w, u, dir, name);
    } else if dir.Arrangement? || dir.CollectionItemDir? {
      OtherPieceNames(w, u, dir, name);
    } else {
      OnlyFilesIn(w, u, dir, name);
    }
    AgreesIfAbsent(w, u, dir, name);
  }

  lemma PieceNameAgrees(w: World, u: User, dir: ResolvedPath, name: string)
    requires S.Lookups(w.db) && WellFormed(dir) && !Unnameable(name) && dir.Arrangement?
    ensures Agrees(w, u, dir, name)
  {
    ArrangementChildren(dir, name);
    if name == "score" {
      ScoreListed(w, u, dir.org, dir.arr);
      AgreesIf(w, u, dir, name, ScoreDir(dir.org, dir.arr));
    } else if name == "voices" {
      VoicesListed(w, u, dir.org, dir.arr);
      AgreesIf(w, u, dir, name, VoicesDir(dir.org, dir.arr));
    } else {
      OtherPieceNames(w, u, dir, name);
      AgreesIfAbsent(w, u, dir, name);
    }
  }

  lemma VoiceNameAgrees(w: World, u: User, dir: ResolvedPath, name: string)
    requires S.Lookups(w.db) && WellFormed(dir) && !Unnameable(name) && dir.Voice?
    ensures Agrees(w, u, dir, name)
  {
    ArrangementChildren(dir, name);
    if name == "annotations" {
      AnnotationsListed(w, u, dir.org, dir.arr, dir.voice);
      AgreesIf(w, u, dir, name, AnnotationsDir(dir.org, dir.arr, dir.voice));
    } else {
      OnlyFilesIn(w, u, dir, name);
      AgreesIfAbsent(w, u, dir, name);
    }
  }

  lemma ArrangementNameAgrees(w: World, u: User, dir: ResolvedPath, name: string)
    requires S.Lookups(w.db) && WellFormed(dir) && !Unnameable(name)
    requires dir.ArrangementsRoot? || dir.Arrangement? || dir.ScoreDir? || dir.VoicesDir? || dir.Voice?
    ensures Agrees(w, u, dir, name)
  {
    if dir.Arrangement? {
      PieceNameAgrees(w, u, dir, name);
    } else if dir.Voice? {
      VoiceNameAgrees(w, u, dir, name);
    } else {
      ArrangementChildren(dir, name);
      if dir.ArrangementsRoot? {
        ArrangementListed(w, u, dir.org, name);
        AgreesIf(w, u, dir, name, Arrangement(dir.org, name));
      } else if dir.VoicesDir? {
        VoiceListed(w, u, dir.org, dir.arr, name);
        AgreesIf(w, u, dir, name, Voice(dir.org, dir.arr, name));
      } else {
        OnlyFilesIn(w, u, dir, name);
        AgreesIfAbsent(w, u, dir, name);
      }
    }
  }

  lemma ItemScoreChild(dir: ResolvedPath, name: string) returns (child: ResolvedPath)
    requires WellFormed(dir) && dir.CollectionItemDir? && !Unnameable(name) && name == "score"
    ensures child == CollectionScoreDir(dir.org, dir.coll, dir.index, dir.arrSlug)
    ensures Child(dir, name) == Some(child) && child.IsCollection() && Segments(child) == Segments(dir) + [name]
  {
    ItemChildren(dir, name);
    child := CollectionScoreDir(dir.org, dir.coll, dir.index, dir.arrSlug);
  }

  lemma ItemVoicesChild(dir: ResolvedPath, name: string) returns (child: ResolvedPath)
    requires WellFormed(dir) && dir.CollectionItemDir? && !Unnameable(name) && name == "voices" && name != "score"
    ensures child == CollectionVoicesDir(dir.org, dir.coll, dir.index, dir.arrSlug)
    ensures Child(dir, name) == Some(child) && child.IsCollection() && Segments(child) == Segments(dir) + [name]
  {
    ItemChildren(dir, name);
    child := CollectionVoicesDir(dir.org, dir.coll, dir.index, dir.arrSlug);
  }

  lemma OtherItemChild(dir: ResolvedPath, name: string)
    requires WellFormed(dir) && dir.CollectionItemDir? && !Unnameable(name) && name != "score" && name != "voices"
    ensures Child(dir, name) == None
  {
    ItemChildren(dir, name);
  }

  lemma ItemPieceNameAgrees(w: World, u: User, dir: ResolvedPath, name: string)
    requires S.Lookups(w.db) && WellFormed(dir) && !Unnameable(name) && dir.CollectionItemDir?
    ensures Agrees(w, u, dir, name)
  {
    if name == "score" {
      var child := ItemScoreChild(dir, name);
      ItemScoreListed(w, u, dir.org, dir.coll, dir.index, dir.arrSlug);
      AgreesIf(w, u, dir, name, child);
    } else if name == "voices" {
      var child := ItemVoicesChild(dir, name);
      ItemVoicesListed(w, u, dir.org, dir.coll, dir.index, dir.arrSlug);
      AgreesIf(w, u, dir, name, child);
    } else {
      OtherItemChild(dir, name);
      OtherPieceNames(w, u, dir, name);
      AgreesIfAbsent(w, u, dir, name);
    }
  }

  lemma ItemVoiceChild(dir: ResolvedPath, name: string) returns (child: ResolvedPath)
    requires WellFormed(dir) && !Unnameable(name) && dir.CollectionVoicesDir?
    ensures child == CollectionVoice(dir.org, dir.coll, dir.index, dir.arrSlug, name)
    ensures Child(dir, name) == Some(child) && child.IsCollection() && Segments(child) == Segments(dir) + [name]
  {
    ItemChildren(dir, name);
    child := CollectionVoice(dir.org, dir.coll, dir.index, dir.arrSlug, name);
  }

  lemma ItemVoiceNameAgrees(w: World, u: User, dir: ResolvedPath, name: string)
    requires S.Lookups(w.db) && WellFormed(dir) && !Unnameable(name) && dir.CollectionVoicesDir?
    ensures Agrees(w, u, dir, name)
  {
    var child := ItemVoiceChild(dir, name);
    ItemVoiceListed(w, u, dir.org, dir.coll, dir.index, dir.arrSlug, name);
    AgreesIf(w, u, dir, name, child);
  }

  lemma ItemNameAgrees(w: World, u: User, dir: ResolvedPath, name: string)
    requires S.Lookups(w.db) && WellFormed(dir) && !Unnameable(name)
    requires dir.CollectionItemDir? || dir.CollectionScoreDir? || dir.CollectionVoicesDir? || dir.CollectionVoice?
    ensures Agrees(w, u, dir, name)
  {
    if dir.CollectionItemDir? {
      ItemPieceNameAgrees(w, u, dir, name);
    } else if dir.CollectionVoicesDir? {
      ItemVoiceNameAgrees(w, u, dir, name);
    } else {
      ItemChildren(dir, name);
      OnlyFilesIn(w, u, dir, name);
      AgreesIfAbsent(w, u, dir, name);
    }
  }

  /** Only printed item names are listed. */
  lemma ListedItemNameIsPrinted(w: World, u: User, org: string, coll: string, name: string)
    returns (index: int, arrSlug: string)
    requires S.Lookups(w.db) && ItemShapes(w.db) && Listed(w, u, Collection(org, coll), DirEntry(name))
    ensures 0 <= index <= I32_MAX && arrSlug != "" && name == ItemSegment(index, arrSlug)
  {
    var place := ResolveCollection(w.db, u.id, org, coll).value;
    var i :| i in VisibleItems(w.db, place.1, u.id, place.2) && ItemEntry(w.db, i) == DirEntry(name);
    index, arrSlug := w.db.items[i].index, w.db.arrangements[w.db.items[i].arr].slug;
  }

  lemma CollectionChild(org: string, name: string) returns (child: ResolvedPath)
    requires WellFormed(CollectionsRoot(org)) && !Unnameable(name)
    ensures child == Collection(org, name)
    ensures Child(CollectionsRoot(org), name) == Some(child) && child.IsCollection()
    ensures Segments(child) == Segments(CollectionsRoot(org)) + [name]
  {
    CollectionChildren(CollectionsRoot(org), name);
    child := Collection(org, name);
  }

  lemma CollectionsRootNameAgrees(w: World, u: User, org: string, name: string)
    requires S.Lookups(w.db) && WellFormed(CollectionsRoot(org)) && !Unnameable(name)
    ensures Agrees(w, u, CollectionsRoot(org), name)
  {
    var child := CollectionChild(org, name);
    CollectionListed(w, u, org, name);
    AgreesIf(w, u, CollectionsRoot(org), name, child);
  }

  lemma ItemChildShape(org: string, coll: string, name: string)
    requires WellFormed(Collection(org, coll)) && !Unnameable(name) && Child(Collection(org, coll), name).Some?
    ensures var c := Child(Collection(org, coll), name).value;
            && c.CollectionItemDir? && c.org == org && c.coll == coll
            && 0 <= c.index <= I32_MAX && c.arrSlug != ""
  {
    CollectionChildren(Collection(org, coll), name);
  }

  lemma ItemChildOfPrinted(org: string, coll: string, index: int, arrSlug: string)
    requires WellFormed(Collection(org, coll)) && 0 <= index <= I32_MAX && arrSlug != ""
    requires !Unnameable(ItemSegment(index, arrSlug))
    ensures Child(Collection(org, coll), ItemSegment(index, arrSlug))
         == Some(CollectionItemDir(org, coll, index, arrSlug))
  {
    ItemSegmentRoundTrip(index, arrSlug);
    CollectionChildren(Collection(org, coll), ItemSegment(index, arrSlug));
  }

  lemma PrintedChild(org: string, coll: string, index: int, arrSlug: string) returns (child: ResolvedPath)
    requires WellFormed(Collection(org, coll)) && 0 <= index <= I32_MAX && arrSlug != ""
    requires !Unnameable(ItemSegment(index, arrSlug))
    ensures child == CollectionItemDir(org, coll, index, arrSlug)
    ensures Child(Collection(org, coll), ItemSegment(index, arrSlug)) == Some(child) && child.IsCollection()
    ensures Segments(child) == Segments(Collection(org, coll)) + [ItemSegment(index, arrSlug)]
  {
    ItemChildOfPrinted(org, coll, index, arrSlug);
    child := CollectionItemDir(org, coll, index, arrSlug);
  }

  lemma PrintedItemAgrees(w: World, u: User, org: string, coll: string, index: int, arrSlug: string)
    requires S.Lookups(w.db) && ItemShapes(w.db) && WellFormed(Collection(org, coll))
    requires 0 <= index <= I32_MAX && arrSlug != "" && !Unnameable(ItemSegment(index, arrSlug))
    ensures Agrees(w, u, Collection(org, coll), ItemSegment(index, arrSlug))
  {
    var child := PrintedChild(org, coll, index, arrSlug);
    ItemListed(w, u, org, coll, index, arrSlug);
    AgreesIf(w, u, Collection(org, coll), ItemSegment(index, arrSlug), child);
  }

  predicate IsPrintedItem(name: string, index: int, arrSlug: string) {
    0 <= index <= I32_MAX && arrSlug != "" && name == ItemSegment(index, arrSlug)
  }

  lemma UnprintedItem(org: string, coll: string, name: string)
    requires WellFormed(Collection(org, coll)) && !Unnameable(name) && Child(Collection(org, coll), name).Some?
    requires Segments(Child(Collection(org, coll), name).value) == Segments(Collection(org, coll)) + [name]
    ensures exists index, arrSlug :: IsPrintedItem(name, index, arrSlug)
  {
    ItemChildShape(org, coll, name);
    var c := Child(Collection(org, coll), name).value;
    assert Segments(c)[4] == (Segments(Collection(org, coll)) + [name])[4];
    assert IsPrintedItem(name, c.index, c.arrSlug);
  }

  lemma ItemDirNameAgrees(w: World, u: User, org: string, coll: string, name: string)
    requires S.Lookups(w.db) && ItemShapes(w.db) && WellFormed(Collection(org, coll)) && !Unnameable(name)
    ensures Agrees(w, u, Collection(org, coll), name)
  {
    if index, arrSlug :| IsPrintedItem(name, index, arrSlug) {
      PrintedItemAgrees(w, u, org, coll, index, arrSlug);
    } else {
      UnprintedItemAgrees(w, u, org, coll, name);
    }
  }

  lemma UnprintedItemAgrees(w: World, u: User, org: string, coll: string, name: string)
    requires S.Lookups(w.db) && ItemShapes(w.db) && WellFormed(Collection(org, coll)) && !Unnameable(name)
    requires !exists index, arrSlug :: IsPrintedItem(name, index, arrSlug)
    ensures Agrees(w, u, Collection(org, coll), name)
  {
    var dir := Collection(org, coll);
    if Listed(w, u, dir, DirEntry(name)) {
      var index, arrSlug := ListedItemNameIsPrinted(w, u, org, coll, name);
      assert IsPrintedItem(name, index, arrSlug);
      assert false;
    }
    if Child(dir, name).Some? && Segments(Child(dir, name).value) == Segments(dir) + [name] {
      UnprintedItem(org, coll, name);
      assert false;
    }
    AgreesIfNotPrinted(w, u, dir, name);
  }

  /** Enough for a name that is not listed and does not print as its child. */
  lemma AgreesIfNotPrinted(w: World, u: User, dir: ResolvedPath, name: string)
    requires S.Lookups(w.db)
    requires Child(dir, name).Some? ==> Segments(Child(dir, name).value) != Segments(dir) + [name]
    requires !Listed(w, u, dir, DirEntry(name))
    ensures Agrees(w, u, dir, name)
  {
  }

  /**
   * For every state the schema allows, every user, every directory below an
   * organization's `arrangements` and `collections` and every name: the name is
   * listed there as a directory exactly when it is the printed name of a child
   * directory whose `stat` succeeds. Staff and restricted users alike.
   */
  lemma DirectoriesAgree(w: World, u: User, dir: ResolvedPath, name: string)
    requires S.Valid(w.db) && WellFormed(dir) && InOrgTree(dir)
    ensures Listed(w, u, dir, DirEntry(name)) <==> StatsAsDirectory(w, u, dir, name)
  {
    ShapesAreNameable(w.db);
    DirectoriesAgreeIf(w, u, dir, name);
  }

  lemma DirectoriesAgreeIf(w: World, u: User, dir: ResolvedPath, name: string)
    requires S.Lookups(w.db) && ItemShapes(w.db) && NamesNameable(w.db) && WellFormed(dir) && InOrgTree(dir)
    ensures Agrees(w, u, dir, name)
  {
    if Unnameable(name) {
      AbsentNameAgrees(w, u, dir, name);
    } else if dir.CollectionsRoot? || dir.Collection? {
      if dir.CollectionsRoot? {
        CollectionsRootNameAgrees(w, u, dir.org, name);
      } else {
        ItemDirNameAgrees(w, u, dir.org, dir.coll, name);
      }
    } else if dir.ArrangementsRoot? || dir.Arrangement? || dir.ScoreDir? || dir.VoicesDir? || dir.Voice? {
      ArrangementNameAgrees(w, u, dir, name);
    } else {
      ItemNameAgrees(w, u, dir, name);
    }
  }

  /** Reading a directory succeeds exactly when its metadata can be read. */
  lemma ListsExactlyWhenItStats(w: World, u: User, dir: ResolvedPath)
    requires S.Lookups(w.db) && dir.IsCollection()
    ensures ListDir(w, u, dir).Ok? <==> Stat(w, u, dir).Ok?
    ensures Stat(w, u, dir).Ok? ==> Stat(w, u, dir) == Ok(Dir)
  {
  }
}
