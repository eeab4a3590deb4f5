/**
 * Listings and lookups answer alike: a directory name is listed by its parent
 * exactly when `stat` on the child succeeds.
 */
module Lockstep {
  import opened Wrappers
  import opened Text
  import opened Path
  import S = Schema
  import opened Access
  import opened Tree
  import opened Listings

  predicate Has(r: FsResult<set<Entry>>, e: Entry) {
    r.Ok? && e in r.value
  }

  lemma ArrangementsLockstep(db: Db, user: Id, org: string, arr: string)
    requires S.OrgSlugUnique(db) && S.ArrangementSlugUnique(db)
    ensures Has(ListArrangements(db, user, org), DirEntry(arr)) <==> ResolveArr(db, user, org, arr).Ok?
  {
    if ResolveOrgVisibility(db, org, user).Some? {
      var (o, vis) := ResolveOrgVisibility(db, org, user).value;
      if ArrIdBySlug(db, o, arr).Some? {
        var a := ArrIdBySlug(db, o, arr).value;
        assert a in VisibleArrangements(db, o, user, vis) <==> ResolveArr(db, user, org, arr).Ok?;
        assert ArrEntry(db, a) == DirEntry(arr);
      }
    }
  }

  lemma VoicesLockstep(db: Db, user: Id, org: string, arr: string, voice: string)
    requires S.OrgSlugUnique(db) && S.ArrangementSlugUnique(db) && S.VoiceSlugUnique(db)
    ensures Has(ListVoices(db, user, org, arr), DirEntry(voice)) <==> ResolveVoice(db, user, org, arr, voice).Ok?
  {
    if ResolveArr(db, user, org, arr).Ok? {
      var (_, a, vis) := ResolveArr(db, user, org, arr).value;
      if VoiceIdBySlug(db, a, voice).Some? {
        var v := VoiceIdBySlug(db, a, voice).value;
        if HasAssignmentOnVoice(db, v, user) {
          var p :| p in db.assignments && GrantsVoice(db, p, v, user);
          assert db.assignments[p].voice == v;
        }
        assert v in VisibleVoices(db, a, user, vis) <==> ResolveVoice(db, user, org, arr, voice).Ok?;
        assert VoiceEntry(db, v) == DirEntry(voice);
      }
    }
  }

  lemma CollectionsLockstep(db: Db, user: Id, org: string, coll: string)
    requires S.OrgSlugUnique(db) && S.CollectionSlugUnique(db)
    ensures Has(ListCollections(db, user, org), DirEntry(coll)) <==> ResolveCollection(db, user, org, coll).Ok?
  {
    if ResolveOrgVisibility(db, org, user).Some? {
      var (o, vis) := ResolveOrgVisibility(db, org, user).value;
      if CollectionIdBySlug(db, o, coll).Some? {
        var c := CollectionIdBySlug(db, o, coll).value;
        VisibleCollectionIff(db, o, c, user, vis);
        assert CollEntry(db, c) == DirEntry(coll);
      }
    }
  }

  /** The listing query and the single-collection check agree on one live collection. */
  lemma VisibleCollectionIff(db: Db, org: Id, c: Id, user: Id, vis: Visibility)
    requires c in db.collections && db.collections[c].org == org && !db.collections[c].deleted
    ensures c in VisibleCollections(db, org, user, vis) <==> vis.IsStaff() || HasAssignmentInCollection(db, c, user)
  {
    if HasAssignmentInCollection(db, c, user) {
      var p :| p in db.assignments && GrantsCollection(db, p, c, user);
      assert db.items[db.assignments[p].item].coll == c;
    }
    if !vis.IsStaff() && c in VisibleCollections(db, org, user, vis) {
      var i, p :| && i in db.items && p in db.assignments
                  && db.items[i].coll == c && db.items[i].Live()
                  && db.items[i].arr in db.arrangements && !db.arrangements[db.items[i].arr].deleted
                  && db.assignments[p].item == i && db.assignments[p].user == user
                  && db.assignments[p].voice in db.voices && !db.voices[db.assignments[p].voice].deleted;
      assert GrantsCollection(db, p, c, user);
    }
  }

  /** The listing query and the single-item check agree on one live item. */
  lemma VisibleItemIff(db: Db, coll: Id, i: Id, user: Id, vis: Visibility)
    requires i in db.items && db.items[i].coll == coll && db.items[i].Live()
    requires db.items[i].arr in db.arrangements && !db.arrangements[db.items[i].arr].deleted
    ensures i in VisibleItems(db, coll, user, vis) <==> vis.IsStaff() || HasAssignmentOnItem(db, i, user)
  {
    if !vis.IsStaff() && i in VisibleItems(db, coll, user, vis) {
      var p :| && p in db.assignments && db.assignments[p].item == i && db.assignments[p].user == user
               && db.assignments[p].voice in db.voices && !db.voices[db.assignments[p].voice].deleted;
      assert GrantsItem(db, p, i, user);
    }
  }

  /** An assignment on an item of a collection is one in the collection. */
  lemma ItemGrantsCollection(db: Db, coll: Id, i: Id, user: Id)
    requires i in db.items && db.items[i].coll == coll && HasAssignmentOnItem(db, i, user)
    ensures HasAssignmentInCollection(db, coll, user)
  {
    var p :| p in db.assignments && GrantsItem(db, p, i, user);
    assert GrantsCollection(db, p, coll, user);
  }

  /** An assignment on a live voice of a live item is one on the item. */
  lemma VoiceGrantsItem(db: Db, i: Id, v: Id, user: Id)
    requires i in db.items && db.items[i].Live()
    requires db.items[i].arr in db.arrangements && !db.arrangements[db.items[i].arr].deleted
    requires v in db.voices && !db.voices[v].deleted && HasAssignmentOnItemVoice(db, i, v, user)
    ensures HasAssignmentOnItem(db, i, user)
  {
    var p :| && p in db.assignments
             && db.assignments[p].item == i && db.assignments[p].voice == v && db.assignments[p].user == user;
    assert GrantsItem(db, p, i, user);
  }

  /** Skipping the ancestor checks changes no result: a check on an item, or on a
      voice of an item, is at least as strict as every check above it. */
  lemma SkippedItemChecksAreImplied(db: Db, user: Id, org: string, coll: string, index: int, arrSlug: string)
    requires S.OrgSlugUnique(db) && S.CollectionSlugUnique(db) && S.ItemIndexUnique(db.items)
    ensures ResolveItemScoped(db, user, org, coll, index, arrSlug, true, true)
         == ResolveCollectionItem(db, user, org, coll, index, arrSlug)
  {
    var r := ResolveCollectionItem(db, user, org, coll, index, arrSlug);
    if r.Ok? && !r.value.vis.IsStaff() {
      ItemGrantsCollection(db, r.value.coll, r.value.item, user);
    }
  }

  lemma SkippedVoiceChecksAreImplied(db: Db, user: Id, org: string, coll: string, index: int, arrSlug: string,
                                     voice: string)
    requires S.OrgSlugUnique(db) && S.CollectionSlugUnique(db) && S.ItemIndexUnique(db.items) && S.VoiceSlugUnique(db)
    ensures ResolveItemVoiceScoped(db, user, org, coll, index, arrSlug, voice, true)
         == ResolveCollectionVoice(db, user, org, coll, index, arrSlug, voice)
  {
    var r := ResolveCollectionVoice(db, user, org, coll, index, arrSlug, voice);
    if r.Ok? && !r.value.0.vis.IsStaff() {
      VoiceGrantsItem(db, r.value.0.item, r.value.1, user);
      ItemGrantsCollection(db, r.value.0.coll, r.value.0.item, user);
    }
  }

  predicate ItemShapes(db: Db) {
    forall i <- db.items ::
      && 0 <= db.items[i].index <= I32_MAX
      && (db.items[i].arr in db.arrangements ==> db.arrangements[db.items[i].arr].slug != "")
  }

  lemma ItemSegmentInjective(index: int, arrSlug: string, index': int, arrSlug': string)
    requires 0 <= index <= I32_MAX && arrSlug != "" && 0 <= index' <= I32_MAX && arrSlug' != ""
    ensures ItemSegment(index, arrSlug) == ItemSegment(index', arrSlug') <==> index == index' && arrSlug == arrSlug'
  {
    ItemSegmentRoundTrip(index, arrSlug);
    ItemSegmentRoundTrip(index', arrSlug');
  }

  lemma ItemsLockstep(db: Db, user: Id, org: string, coll: string, index: int, arrSlug: string)
    requires S.OrgSlugUnique(db) && S.CollectionSlugUnique(db) && S.ItemIndexUnique(db.items) && ItemShapes(db)
    requires 0 <= index <= I32_MAX && arrSlug != ""
    ensures Has(ListCollection(db, user, org, coll), DirEntry(ItemSegment(index, arrSlug)))
       <==> ResolveCollectionItem(db, user, org, coll, index, arrSlug).Ok?
  {
    var name := ItemSegment(index, arrSlug);
    if Has(ListCollection(db, user, org, coll), DirEntry(name)) {
      var (_, c, vis) := ResolveCollection(db, user, org, coll).value;
      var i :| i in VisibleItems(db, c, user, vis) && ItemEntry(db, i) == DirEntry(name);
      ItemSegmentInjective(db.items[i].index, db.arrangements[db.items[i].arr].slug, index, arrSlug);
      VisibleItemIff(db, c, i, user, vis);
    }
    if ResolveCollectionItem(db, user, org, coll, index, arrSlug).Ok? {
      SkippedItemChecksAreImplied(db, user, org, coll, index, arrSlug);
      var place := ResolveCollectionItem(db, user, org, coll, index, arrSlug).value;
      VisibleItemIff(db, place.coll, place.item, user, place.vis);
      assert ItemEntry(db, place.item) == DirEntry(name);
    }
  }

  lemma ItemVoicesLockstep(db: Db, user: Id, org: string, coll: string, index: int, arrSlug: string, voice: string)
    requires S.OrgSlugUnique(db) && S.CollectionSlugUnique(db) && S.ItemIndexUnique(db.items) && S.VoiceSlugUnique(db)
    ensures Has(ListItemVoices(db, user, org, coll, index, arrSlug), DirEntry(voice))
       <==> ResolveCollectionVoice(db, user, org, coll, index, arrSlug, voice).Ok?
  {
    if ResolveCollectionVoice(db, user, org, coll, index, arrSlug, voice).Ok? {
      var (place, v) := ResolveCollectionVoice(db, user, org, coll, index, arrSlug, voice).value;
      if !place.vis.IsStaff() {
        VoiceGrantsItem(db, place.item, v, user);
      }
      assert v in VisibleItemVoices(db, place.item, place.arr, user, place.vis);
      assert VoiceEntry(db, v) == DirEntry(voice);
    }
    if Has(ListItemVoices(db, user, org, coll, index, arrSlug), DirEntry(voice)) {
      var place := ResolveCollectionItem(db, user, org, coll, index, arrSlug).value;
      var v :| && v in VisibleItemVoices(db, place.item, place.arr, user, place.vis)
               && VoiceEntry(db, v) == DirEntry(voice);
      assert VoiceIdBySlug(db, place.arr, voice) == Some(v);
    }
  }
}
