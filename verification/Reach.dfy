/**
 * What a restricted user's tree holds: no listed directory is empty, and the
 * collections tree grants exactly the voices the arrangements tree does.
 */
module Reach {
  import opened Wrappers
  import opened Path
  import S = Schema
  import opened Access
  import opened Tree
  import opened Listings
  import opened Lockstep
  import opened Leaves

  /** A user without a staff role in an existing organization. */
  predicate IsRestricted(db: Db, user: Id, org: string)
    requires S.OrgSlugUnique(db)
  {
    ResolveOrgVisibility(db, org, user).Some? && !ResolveOrgVisibility(db, org, user).value.1.IsStaff()
  }

  predicate NonEmptyListing(r: FsResult<set<Entry>>) {
    r.Ok? && r.value != {}
  }

  // ---------------------------------------------------------------------
  // No phantom directories

  lemma ListedArrangementHasVoice(db: Db, user: Id, org: string, arr: string)
    requires S.Lookups(db) && IsRestricted(db, user, org)
    requires Has(ListArrangements(db, user, org), DirEntry(arr))
    ensures NonEmptyListing(ListVoices(db, user, org, arr))
  {
    ArrangementsLockstep(db, user, org, arr);
    var (_, a, vis) := ResolveArr(db, user, org, arr).value;
    var p :| p in db.assignments && GrantsArrangement(db, p, a, user);
    var v := db.assignments[p].voice;
    assert v in VisibleVoices(db, a, user, vis);
    assert VoiceEntry(db, v) in ListVoices(db, user, org, arr).value;
  }

  lemma ListedCollectionHasItem(db: Db, user: Id, org: string, coll: string)
    requires S.Lookups(db) && IsRestricted(db, user, org)
    requires Has(ListCollections(db, user, org), DirEntry(coll))
    ensures NonEmptyListing(ListCollection(db, user, org, coll))
  {
    CollectionsLockstep(db, user, org, coll);
    var (_, c, vis) := ResolveCollection(db, user, org, coll).value;
    var p :| p in db.assignments && GrantsCollection(db, p, c, user);
    var i := db.assignments[p].item;
    assert GrantsItem(db, p, i, user);
    VisibleItemIff(db, c, i, user, vis);
    assert ItemEntry(db, i) in ListCollection(db, user, org, coll).value;
  }

  /** Some live assignment of the user on the item is for a voice of the item's
      own arrangement. */
  predicate AssignedWithin(db: Db, i: Id, user: Id) {
    exists p <- db.assignments :: GrantsItem(db, p, i, user)
      && db.voices[db.assignments[p].voice].arr == db.items[i].arr
  }

  /** Without the rule that assigned voices fit their item, an item directory is
      empty for a restricted user exactly when no assignment fits. */
  lemma ItemIsPhantomUnlessAssignedWithin(db: Db, user: Id, org: string, coll: string, index: int, arrSlug: string)
    requires S.Lookups(db) && IsRestricted(db, user, org)
    requires ResolveCollectionItem(db, user, org, coll, index, arrSlug).Ok?
    ensures NonEmptyListing(ListItemVoices(db, user, org, coll, index, arrSlug))
       <==> AssignedWithin(db, ResolveCollectionItem(db, user, org, coll, index, arrSlug).value.item, user)
  {
    var place := ResolveCollectionItem(db, user, org, coll, index, arrSlug).value;
    var visible := VisibleItemVoices(db, place.item, place.arr, user, place.vis);
    var entries := ListItemVoices(db, user, org, coll, index, arrSlug).value;
    if AssignedWithin(db, place.item, user) {
      var p :| p in db.assignments && GrantsItem(db, p, place.item, user)
               && db.voices[db.assignments[p].voice].arr == place.arr;
      assert db.assignments[p].voice in visible;
      assert VoiceEntry(db, db.assignments[p].voice) in entries;
    }
    if entries != {} {
      var e :| e in entries;
      var v :| v in visible && VoiceEntry(db, v) == e;
      var p :| && p in db.assignments
               && db.assignments[p].voice == v && db.assignments[p].item == place.item
               && db.assignments[p].user == user;
      assert GrantsItem(db, p, place.item, user);
    }
  }

  lemma ListedItemHasVoice(db: Db, user: Id, org: string, coll: string, index: int, arrSlug: string)
    requires S.Lookups(db) && S.AssignmentsFit(db) && IsRestricted(db, user, org)
    requires ResolveCollectionItem(db, user, org, coll, index, arrSlug).Ok?
    ensures NonEmptyListing(ListItemVoices(db, user, org, coll, index, arrSlug))
  {
    var place := ResolveCollectionItem(db, user, org, coll, index, arrSlug).value;
    var p :| p in db.assignments && GrantsItem(db, p, place.item, user);
    assert AssignedWithin(db, place.item, user);
    ItemIsPhantomUnlessAssignedWithin(db, user, org, coll, index, arrSlug);
  }

  /** An assignment that reaches a live voice of a live arrangement of the organization. */
  predicate ReachesOrg(db: Db, p: Id, o: Id, user: Id) {
    && p in db.assignments && db.assignments[p].voice in db.voices
    && var a := db.voices[db.assignments[p].voice].arr;
       a in db.arrangements && db.arrangements[a].org == o && !db.arrangements[a].deleted
       && GrantsArrangement(db, p, a, user)
  }

  lemma ArrangementsRootHolds(db: Db, user: Id, o: Id)
    requires S.OrgSlugUnique(db) && o in db.orgs && IsRestricted(db, user, db.orgs[o].slug)
    ensures NonEmptyListing(ListArrangements(db, user, db.orgs[o].slug))
       <==> exists p <- db.assignments :: ReachesOrg(db, p, o, user)
  {
    var org := db.orgs[o].slug;
    assert FindOrgId(db, org) == Some(o);
    var arrs := VisibleArrangements(db, o, user, Restricted);
    if a :| a in arrs {
      var p :| p in db.assignments && GrantsArrangement(db, p, a, user);
      assert ReachesOrg(db, p, o, user);
      assert ArrEntry(db, a) in ListArrangements(db, user, org).value;
    }
    if p :| p in db.assignments && ReachesOrg(db, p, o, user) {
      assert db.voices[db.assignments[p].voice].arr in arrs;
    }
  }

  lemma CollectionsRootHolds(db: Db, user: Id, o: Id)
    requires S.OrgSlugUnique(db) && S.AssignmentsFit(db) && S.ItemsStayInOrg(db)
    requires o in db.orgs && IsRestricted(db, user, db.orgs[o].slug)
    ensures NonEmptyListing(ListCollections(db, user, db.orgs[o].slug))
       <==> exists p <- db.assignments :: ReachesOrg(db, p, o, user)
  {
    var org := db.orgs[o].slug;
    assert FindOrgId(db, org) == Some(o);
    var colls := VisibleCollections(db, o, user, Restricted);
    if c :| c in colls {
      VisibleCollectionIff(db, o, c, user, Restricted);
      var p :| p in db.assignments && GrantsCollection(db, p, c, user);
      assert ReachesOrg(db, p, o, user);
      assert CollEntry(db, c) in ListCollections(db, user, org).value;
    }
    if p :| p in db.assignments && ReachesOrg(db, p, o, user) {
      var c := db.items[db.assignments[p].item].coll;
      assert GrantsCollection(db, p, c, user);
      VisibleCollectionIff(db, o, c, user, Restricted);
      assert c in colls;
    }
  }

  /** The organization root is the exception: an organization is listed for a
      guest whose assigned voices have all been removed, and both of its
      directories are then empty. They hold something exactly when some
      assignment still reaches a live voice of a live arrangement. */
  lemma GuestOrgHoldsSomething(db: Db, user: Id, o: Id)
    requires S.OrgSlugUnique(db) && S.AssignmentsFit(db) && S.ItemsStayInOrg(db)
    requires o in db.orgs && IsRestricted(db, user, db.orgs[o].slug)
    ensures NonEmptyListing(ListArrangements(db, user, db.orgs[o].slug))
       <==> exists p <- db.assignments :: ReachesOrg(db, p, o, user)
    ensures NonEmptyListing(ListCollections(db, user, db.orgs[o].slug))
       <==> exists p <- db.assignments :: ReachesOrg(db, p, o, user)
    ensures NonEmptyListing(ListArrangements(db, user, db.orgs[o].slug)) ==> OrgEntry(db, o) in ListOrgs(db, user)
  {
    ArrangementsRootHolds(db, user, o);
    CollectionsRootHolds(db, user, o);
    if p :| p in db.assignments && ReachesOrg(db, p, o, user) {
      assert o in VisibleOrgs(db, user);
    }
  }

  /** A guest, user 1, assigned to one voice that has since been removed. */
  function GuestExample(): Db {
    S.EMPTY.(
      orgs := map[0 := S.Organization("o")],
      arrangements := map[0 := S.Arrangement(0, "A", "a", false)],
      voices := map[0 := S.Voice(0, "V", "v", 0, true)],
      collections := map[0 := S.Collection(0, "C", "c", false)],
      items := map[0 := S.Item(0, 0, 1, None)],
      assignments := map[0 := S.Assignment(0, 0, 1, None, None)])
  }

  lemma GuestExampleKeys()
    ensures S.ForeignKeys(GuestExample())
  {
  }

  lemma GuestExampleIndexes()
    ensures S.UniqueIndexes(GuestExample())
  {
  }

  lemma GuestExampleShapes()
    ensures S.Shapes(GuestExample())
  {
  }

  lemma GuestExampleRules()
    ensures S.AssignmentsFit(GuestExample()) && S.ItemsStayInOrg(GuestExample())
    ensures S.TagsStayInOrg(GuestExample()) && S.FilesFit(GuestExample())
  {
  }

  lemma GuestExampleIsSound()
    ensures S.Sound(GuestExample())
  {
    GuestExampleKeys();
    GuestExampleIndexes();
    GuestExampleShapes();
    GuestExampleRules();
  }

  /** An organization can be listed although both its directories are empty. */
  lemma ListedOrgCanBeEmpty()
    ensures S.OrgSlugUnique(GuestExample()) && IsRestricted(GuestExample(), 1, "o")
    ensures DirEntry("o") in ListOrgs(GuestExample(), 1)
    ensures !NonEmptyListing(ListArrangements(GuestExample(), 1, "o"))
    ensures !NonEmptyListing(ListCollections(GuestExample(), 1, "o"))
  {
    var db := GuestExample();
    var pa := db.assignments[0];
    assert 0 in db.assignments && pa.user == 1 && db.voices[pa.voice].arr in db.arrangements;
    assert db.arrangements[db.voices[pa.voice].arr].org == 0 && db.items[pa.item].Live();
    assert 0 in VisibleOrgs(db, 1);
    assert OrgEntry(db, 0) == DirEntry("o");
    assert FindOrgId(db, "o") == Some(0);
    ArrangementsRootHolds(db, 1, 0);
    CollectionsRootHolds(db, 1, 0);
  }

  // ---------------------------------------------------------------------
  // The collections tree is no separate permission domain

  /** A voice reached through a collection item is the same voice of the same
      arrangement when reached directly. */
  lemma CollectionVoiceIsArrangementVoice(db: Db, user: Id, org: string, coll: string, index: int, arrSlug: string,
                                          voice: string)
    requires S.Lookups(db) && S.ItemsStayInOrg(db)
    requires ResolveCollectionVoice(db, user, org, coll, index, arrSlug, voice).Ok?
    ensures var (place, v) := ResolveCollectionVoice(db, user, org, coll, index, arrSlug, voice).value;
            ResolveVoice(db, user, org, arrSlug, voice) == Ok((place.org, place.arr, v, place.vis))
  {
    var (place, v) := ResolveCollectionVoice(db, user, org, coll, index, arrSlug, voice).value;
    assert ArrIdBySlug(db, place.org, arrSlug) == Some(place.arr);
    if !place.vis.IsStaff() {
      var p :| && p in db.assignments && db.assignments[p].item == place.item && db.assignments[p].voice == v
               && db.assignments[p].user == user;
      assert GrantsVoice(db, p, v, user);
      assert GrantsArrangement(db, p, place.arr, user);
    }
  }

  lemma CollectionScoreIsArrangementScore(db: Db, user: Id, org: string, coll: string, index: int, arrSlug: string)
    requires S.Lookups(db) && S.ItemsStayInOrg(db)
    requires ResolveCollectionItem(db, user, org, coll, index, arrSlug).Ok?
    requires ResolveCollectionItem(db, user, org, coll, index, arrSlug).value.vis.IsStaff()
    ensures var place := ResolveCollectionItem(db, user, org, coll, index, arrSlug).value;
            ResolveArr(db, user, org, arrSlug) == Ok((place.org, place.arr, place.vis))
  {
    var place := ResolveCollectionItem(db, user, org, coll, index, arrSlug).value;
    assert ArrIdBySlug(db, place.org, arrSlug) == Some(place.arr);
  }

  /** Every voice file a user can read through the collections tree is readable
      through the arrangements tree, from the same object. */
  lemma CollectionFileIsArrangementFile(w: World, u: User, org: string, coll: string, index: int, arrSlug: string,
                                        voice: string, file: string)
    requires S.Lookups(w.db) && S.ItemsStayInOrg(w.db)
    requires ResolveCollectionVoice(w.db, u.id, org, coll, index, arrSlug, voice).Ok?
    ensures FileKeyForRead(w, u, VoiceFile(org, arrSlug, voice, file))
         == FileKeyForRead(w, u, CollectionVoiceFile(org, coll, index, arrSlug, voice, file))
  {
    CollectionVoiceIsArrangementVoice(w.db, u.id, org, coll, index, arrSlug, voice);
    VoiceFileUnfolds(w, u, org, arrSlug, voice, file);
    ItemVoiceFileUnfolds(w, u, org, coll, index, arrSlug, voice, file);
  }

  lemma CollectionScoreFileIsArrangementScoreFile(w: World, u: User, org: string, coll: string, index: int,
                                                  arrSlug: string, file: string)
    requires S.Lookups(w.db) && S.ItemsStayInOrg(w.db)
    requires ResolveCollectionItem(w.db, u.id, org, coll, index, arrSlug).Ok?
    requires ResolveCollectionItem(w.db, u.id, org, coll, index, arrSlug).value.vis.IsStaff()
    ensures FileKeyForRead(w, u, ScoreFile(org, arrSlug, file))
         == FileKeyForRead(w, u, CollectionScoreFile(org, coll, index, arrSlug, file))
  {
    CollectionScoreIsArrangementScore(w.db, u.id, org, coll, index, arrSlug);
    ScoreFileUnfolds(w, u, org, arrSlug, file);
    ItemScoreFileUnfolds(w, u, org, coll, index, arrSlug, file);
  }

  lemma VoiceReachesItem(db: Db, user: Id, org: string, arr: string, voice: string) returns (coll: string, index: int)
    requires S.Lookups(db) && S.AssignmentsFit(db) && S.ItemsStayInOrg(db) && IsRestricted(db, user, org)
    requires ResolveVoice(db, user, org, arr, voice).Ok?
    ensures ResolveCollectionVoice(db, user, org, coll, index, arr, voice).Ok?
  {
    var (o, a, v, _) := ResolveVoice(db, user, org, arr, voice).value;
    var p :| p in db.assignments && GrantsVoice(db, p, v, user);
    var item := db.items[db.assignments[p].item];
    coll, index := db.collections[item.coll].slug, item.index;
    assert CollectionIdBySlug(db, o, coll) == Some(item.coll);
    assert ItemIdByIndex(db, item.coll, index) == Some(db.assignments[p].item);
  }

  /** A restricted user reaches a voice through the arrangements tree exactly
      when some collection item leads to it as well. */
  lemma RestrictedVoicesAreCollectionVoices(db: Db, user: Id, org: string, arr: string, voice: string)
    requires S.Lookups(db) && S.AssignmentsFit(db) && S.ItemsStayInOrg(db) && IsRestricted(db, user, org)
    ensures ResolveVoice(db, user, org, arr, voice).Ok?
       <==> exists coll, index :: ResolveCollectionVoice(db, user, org, coll, index, arr, voice).Ok?
  {
    if coll, index :| ResolveCollectionVoice(db, user, org, coll, index, arr, voice).Ok? {
      CollectionVoiceIsArrangementVoice(db, user, org, coll, index, arr, voice);
    }
    if ResolveVoice(db, user, org, arr, voice).Ok? {
      var coll, index := VoiceReachesItem(db, user, org, arr, voice);
    }
  }
}
