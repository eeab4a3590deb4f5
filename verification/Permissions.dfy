/**
 * Who may see what, said on the rows and the membership table alone. Staff are the
 * owners, archivists and conductors of an organization; everyone else, musicians
 * included, sees what they are assigned to play.
 */
module Permissions {
  import opened Wrappers
  import S = Schema
  import opened Access
  import opened Tree

  // ---------------------------------------------------------------------
  // On the rows

  predicate Leads(db: Db, org: Id, user: Id) {
    (org, user) in db.memberships && db.memberships[(org, user)] in {S.Owner, S.Archivist, S.Conductor}
  }

  /** Assigned to play this voice of this item. */
  predicate Plays(db: Db, user: Id, item: Id, voice: Id) {
    exists p <- db.assignments ::
      db.assignments[p].user == user && db.assignments[p].item == item && db.assignments[p].voice == voice
  }

  /** The item counts: neither it nor its collection is soft-deleted. */
  predicate OnProgramme(db: Db, item: Id) {
    && item in db.items && db.items[item].deletedAt.None?
    && db.items[item].coll in db.collections && !db.collections[db.items[item].coll].deleted
  }

  predicate LiveVoice(db: Db, voice: Id) {
    voice in db.voices && !db.voices[voice].deleted
  }

  predicate LiveArrangement(db: Db, arr: Id) {
    arr in db.arrangements && !db.arrangements[arr].deleted
  }

  predicate PlaysVoice(db: Db, user: Id, voice: Id) {
    exists i <- db.items :: OnProgramme(db, i) && Plays(db, user, i, voice)
  }

  predicate PlaysInArrangement(db: Db, user: Id, arr: Id) {
    exists v <- db.voices :: LiveVoice(db, v) && db.voices[v].arr == arr && PlaysVoice(db, user, v)
  }

  predicate PlaysInItem(db: Db, user: Id, item: Id) {
    exists v <- db.voices :: LiveVoice(db, v) && Plays(db, user, item, v)
  }

  predicate PlaysInCollection(db: Db, user: Id, coll: Id) {
    exists i <- db.items ::
      && db.items[i].coll == coll && db.items[i].deletedAt.None? && LiveArrangement(db, db.items[i].arr)
      && PlaysInItem(db, user, i)
  }

  // What the slugs of a path name.

  predicate NamesOrg(db: Db, o: Id, org: string) {
    o in db.orgs && db.orgs[o].slug == org
  }

  predicate NamesArrangement(db: Db, a: Id, org: string, arr: string) {
    LiveArrangement(db, a) && db.arrangements[a].slug == arr && NamesOrg(db, db.arrangements[a].org, org)
  }

  predicate NamesVoice(db: Db, v: Id, org: string, arr: string, voice: string) {
    LiveVoice(db, v) && db.voices[v].slug == voice && NamesArrangement(db, db.voices[v].arr, org, arr)
  }

  predicate NamesCollection(db: Db, c: Id, org: string, coll: string) {
    && c in db.collections && !db.collections[c].deleted && db.collections[c].slug == coll
    && NamesOrg(db, db.collections[c].org, org)
  }

  predicate NamesItem(db: Db, i: Id, org: string, coll: string, index: int, arrSlug: string) {
    && i in db.items && db.items[i].deletedAt.None? && db.items[i].index == index
    && LiveArrangement(db, db.items[i].arr) && db.arrangements[db.items[i].arr].slug == arrSlug
    && NamesCollection(db, db.items[i].coll, org, coll)
  }

  // Who sees what is named.

  predicate SeesArrangement(db: Db, user: Id, a: Id)
    requires a in db.arrangements
  {
    Leads(db, db.arrangements[a].org, user) || PlaysInArrangement(db, user, a)
  }

  predicate SeesVoice(db: Db, user: Id, v: Id)
    requires v in db.voices && db.voices[v].arr in db.arrangements
  {
    Leads(db, db.arrangements[db.voices[v].arr].org, user) || PlaysVoice(db, user, v)
  }

  predicate SeesCollection(db: Db, user: Id, c: Id)
    requires c in db.collections
  {
    Leads(db, db.collections[c].org, user) || PlaysInCollection(db, user, c)
  }

  predicate LeadsItem(db: Db, user: Id, i: Id)
    requires i in db.items && db.items[i].coll in db.collections
  {
    Leads(db, db.collections[db.items[i].coll].org, user)
  }

  predicate SeesItem(db: Db, user: Id, i: Id)
    requires i in db.items && db.items[i].coll in db.collections
  {
    LeadsItem(db, user, i) || PlaysInItem(db, user, i)
  }

  predicate SeesItemVoice(db: Db, user: Id, i: Id, v: Id)
    requires i in db.items && db.items[i].coll in db.collections
  {
    LeadsItem(db, user, i) || Plays(db, user, i, v)
  }

  // ---------------------------------------------------------------------
  // Resolution agrees

  lemma OrgResolves(db: Db, user: Id, org: string)
    requires S.OrgSlugUnique(db)
    ensures ResolveOrgVisibility(db, org, user).Some? <==> exists o <- db.orgs :: NamesOrg(db, o, org)
    ensures forall o <- db.orgs | NamesOrg(db, o, org) ::
              && ResolveOrgVisibility(db, org, user).Some? && ResolveOrgVisibility(db, org, user).value.0 == o
              && (ResolveOrgVisibility(db, org, user).value.1.IsStaff() <==> Leads(db, o, user))
  {
  }

  lemma ArrangementGrant(db: Db, user: Id, a: Id)
    requires S.AssignmentKeys(db)
    ensures HasAssignmentOnArrangement(db, a, user) <==> PlaysInArrangement(db, user, a)
  {
    if p :| p in db.assignments && GrantsArrangement(db, p, a, user) {
      assert Plays(db, user, db.assignments[p].item, db.assignments[p].voice);
      assert PlaysVoice(db, user, db.assignments[p].voice);
    }
    if v :| v in db.voices && LiveVoice(db, v) && db.voices[v].arr == a && PlaysVoice(db, user, v) {
      var i :| i in db.items && OnProgramme(db, i) && Plays(db, user, i, v);
      var p :| p in db.assignments && db.assignments[p].user == user && db.assignments[p].item == i
               && db.assignments[p].voice == v;
      assert GrantsArrangement(db, p, a, user);
    }
  }

  lemma VoiceGrant(db: Db, user: Id, v: Id)
    ensures HasAssignmentOnVoice(db, v, user) <==> PlaysVoice(db, user, v)
  {
    if p :| p in db.assignments && GrantsVoice(db, p, v, user) {
      assert Plays(db, user, db.assignments[p].item, v);
    }
    if i :| i in db.items && OnProgramme(db, i) && Plays(db, user, i, v) {
      var p :| p in db.assignments && db.assignments[p].user == user && db.assignments[p].item == i
               && db.assignments[p].voice == v;
      assert GrantsVoice(db, p, v, user);
    }
  }

  lemma CollectionGrant(db: Db, user: Id, c: Id)
    ensures HasAssignmentInCollection(db, c, user) <==> PlaysInCollection(db, user, c)
  {
    if p :| p in db.assignments && GrantsCollection(db, p, c, user) {
      assert Plays(db, user, db.assignments[p].item, db.assignments[p].voice);
      assert PlaysInItem(db, user, db.assignments[p].item);
    }
    if i :| && i in db.items && db.items[i].coll == c && db.items[i].deletedAt.None?
            && LiveArrangement(db, db.items[i].arr) && PlaysInItem(db, user, i) {
      var v :| v in db.voices && LiveVoice(db, v) && Plays(db, user, i, v);
      var p :| p in db.assignments && db.assignments[p].user == user && db.assignments[p].item == i
               && db.assignments[p].voice == v;
      assert GrantsCollection(db, p, c, user);
    }
  }

  lemma ItemGrant(db: Db, user: Id, i: Id)
    requires i in db.items && db.items[i].deletedAt.None? && LiveArrangement(db, db.items[i].arr)
    ensures HasAssignmentOnItem(db, i, user) <==> PlaysInItem(db, user, i)
  {
    if p :| p in db.assignments && GrantsItem(db, p, i, user) {
      assert Plays(db, user, i, db.assignments[p].voice);
    }
    if v :| v in db.voices && LiveVoice(db, v) && Plays(db, user, i, v) {
      var p :| p in db.assignments && db.assignments[p].user == user && db.assignments[p].item == i
               && db.assignments[p].voice == v;
      assert GrantsItem(db, p, i, user);
    }
  }

  lemma ArrangementResolves(db: Db, user: Id, org: string, arr: string)
    requires S.Lookups(db) && S.AssignmentKeys(db)
    ensures forall a <- db.arrangements | NamesArrangement(db, a, org, arr) ::
              && (ResolveArr(db, user, org, arr).Ok? <==> SeesArrangement(db, user, a))
              && (ResolveArr(db, user, org, arr).Ok? ==>
                    && ResolveArr(db, user, org, arr).value.1 == a
                    && (ResolveArr(db, user, org, arr).value.2.IsStaff() <==> Leads(db, db.arrangements[a].org, user)))
    ensures ResolveArr(db, user, org, arr).Ok? ==> exists a <- db.arrangements :: NamesArrangement(db, a, org, arr)
  {
    OrgResolves(db, user, org);
    forall a <- db.arrangements | NamesArrangement(db, a, org, arr)
      ensures ArrIdBySlug(db, db.arrangements[a].org, arr) == Some(a)
      ensures HasAssignmentOnArrangement(db, a, user) <==> PlaysInArrangement(db, user, a)
    {
      ArrangementGrant(db, user, a);
    }
    if ResolveArr(db, user, org, arr).Ok? {
      assert NamesArrangement(db, ResolveArr(db, user, org, arr).value.1, org, arr);
    }
  }

  lemma VoiceImpliesArrangement(db: Db, user: Id, v: Id)
    requires LiveVoice(db, v) && PlaysVoice(db, user, v)
    ensures PlaysInArrangement(db, user, db.voices[v].arr)
  {
  }

  lemma VoiceResolves(db: Db, user: Id, org: string, arr: string, voice: string)
    requires S.Lookups(db) && S.AssignmentKeys(db)
    ensures forall v <- db.voices | NamesVoice(db, v, org, arr, voice) ::
              && (ResolveVoice(db, user, org, arr, voice).Ok? <==> SeesVoice(db, user, v))
              && (ResolveVoice(db, user, org, arr, voice).Ok? ==>
                    && ResolveVoice(db, user, org, arr, voice).value.2 == v
                    && ResolveVoice(db, user, org, arr, voice).value.1 == db.voices[v].arr)
    ensures ResolveVoice(db, user, org, arr, voice).Ok? ==>
              exists v <- db.voices :: NamesVoice(db, v, org, arr, voice)
  {
    ArrangementResolves(db, user, org, arr);
    forall v <- db.voices | NamesVoice(db, v, org, arr, voice)
      ensures VoiceIdBySlug(db, db.voices[v].arr, voice) == Some(v)
      ensures HasAssignmentOnVoice(db, v, user) <==> PlaysVoice(db, user, v)
      ensures PlaysVoice(db, user, v) ==> PlaysInArrangement(db, user, db.voices[v].arr)
    {
      VoiceGrant(db, user, v);
      if PlaysVoice(db, user, v) {
        VoiceImpliesArrangement(db, user, v);
      }
    }
    if ResolveVoice(db, user, org, arr, voice).Ok? {
      assert NamesVoice(db, ResolveVoice(db, user, org, arr, voice).value.2, org, arr, voice);
    }
  }

  lemma CollectionResolves(db: Db, user: Id, org: string, coll: string)
    requires S.Lookups(db)
    ensures forall c <- db.collections | NamesCollection(db, c, org, coll) ::
              && (ResolveCollection(db, user, org, coll).Ok? <==> SeesCollection(db, user, c))
              && (ResolveCollection(db, user, org, coll).Ok? ==> ResolveCollection(db, user, org, coll).value.1 == c)
    ensures ResolveCollection(db, user, org, coll).Ok? ==>
              exists c <- db.collections :: NamesCollection(db, c, org, coll)
  {
    OrgResolves(db, user, org);
    forall c <- db.collections | NamesCollection(db, c, org, coll)
      ensures CollectionIdBySlug(db, db.collections[c].org, coll) == Some(c)
      ensures HasAssignmentInCollection(db, c, user) <==> PlaysInCollection(db, user, c)
    {
      CollectionGrant(db, user, c);
    }
    if ResolveCollection(db, user, org, coll).Ok? {
      assert NamesCollection(db, ResolveCollection(db, user, org, coll).value.1, org, coll);
    }
  }

  /** The item at a place, without any assignment check. */
  lemma ItemFound(db: Db, user: Id, org: string, coll: string, index: int, arrSlug: string)
    requires S.Lookups(db)
    ensures var r := ResolveItemScoped(db, user, org, coll, index, arrSlug, false, false);
            && (r.Ok? <==> exists i <- db.items :: NamesItem(db, i, org, coll, index, arrSlug))
            && forall i <- db.items | NamesItem(db, i, org, coll, index, arrSlug) ::
                 && r.Ok? && r.value.item == i && r.value.arr == db.items[i].arr && r.value.arrSlug == arrSlug
                 && (r.value.vis.IsStaff() <==> LeadsItem(db, user, i))
  {
    OrgResolves(db, user, org);
    var r := ResolveItemScoped(db, user, org, coll, index, arrSlug, false, false);
    forall i <- db.items | NamesItem(db, i, org, coll, index, arrSlug)
      ensures CollectionIdBySlug(db, db.collections[db.items[i].coll].org, coll) == Some(db.items[i].coll)
      ensures ItemIdByIndex(db, db.items[i].coll, index) == Some(i)
    {
    }
    if r.Ok? {
      assert NamesItem(db, r.value.item, org, coll, index, arrSlug);
    }
  }

  lemma ItemChecks(db: Db, user: Id, org: string, coll: string, index: int, arrSlug: string)
    requires S.Lookups(db)
    ensures var bare := ResolveItemScoped(db, user, org, coll, index, arrSlug, false, false);
            ResolveCollectionItem(db, user, org, coll, index, arrSlug)
            == if bare.Ok? && !bare.value.vis.IsStaff() && !HasAssignmentOnItem(db, bare.value.item, user)
               then Err(NotFound) else bare
  {
  }

  lemma ItemResolves(db: Db, user: Id, org: string, coll: string, index: int, arrSlug: string)
    requires S.Lookups(db)
    ensures var r := ResolveCollectionItem(db, user, org, coll, index, arrSlug);
            && (r.Ok? ==> exists i <- db.items :: NamesItem(db, i, org, coll, index, arrSlug))
            && forall i <- db.items | NamesItem(db, i, org, coll, index, arrSlug) ::
                 && (r.Ok? <==> SeesItem(db, user, i))
                 && (r.Ok? ==> && r.value.arr == db.items[i].arr && r.value.arrSlug == arrSlug
                               && (r.value.vis.IsStaff() <==> LeadsItem(db, user, i)))
  {
    ItemFound(db, user, org, coll, index, arrSlug);
    ItemChecks(db, user, org, coll, index, arrSlug);
    forall i <- db.items | NamesItem(db, i, org, coll, index, arrSlug)
      ensures HasAssignmentOnItem(db, i, user) <==> PlaysInItem(db, user, i)
    {
      ItemGrant(db, user, i);
    }
  }

  lemma ItemVoiceChecks(db: Db, user: Id, org: string, coll: string, index: int, arrSlug: string, voice: string)
    requires S.Lookups(db)
    ensures var bare := ResolveItemScoped(db, user, org, coll, index, arrSlug, false, false);
            var r := ResolveCollectionVoice(db, user, org, coll, index, arrSlug, voice);
            if bare.Err? || VoiceIdBySlug(db, bare.value.arr, voice).None? then r.Err?
            else
              var v := VoiceIdBySlug(db, bare.value.arr, voice).value;
              r == if bare.value.vis.IsStaff() || HasAssignmentOnItemVoice(db, bare.value.item, v, user)
                   then Ok((bare.value, v)) else Err(NotFound)
  {
  }

  /** `v` is the live voice of the item's arrangement with this slug. */
  predicate NamesItemVoice(db: Db, i: Id, v: Id, voice: string)
    requires i in db.items
  {
    LiveVoice(db, v) && db.voices[v].arr == db.items[i].arr && db.voices[v].slug == voice
  }

  lemma ItemVoiceResolves(db: Db, user: Id, org: string, coll: string, index: int, arrSlug: string, voice: string)
    requires S.Lookups(db)
    ensures var r := ResolveCollectionVoice(db, user, org, coll, index, arrSlug, voice);
            && (r.Ok? ==> exists i <- db.items, v <- db.voices ::
                            NamesItem(db, i, org, coll, index, arrSlug) && NamesItemVoice(db, i, v, voice))
            && forall i <- db.items, v <- db.voices |
                 NamesItem(db, i, org, coll, index, arrSlug) && NamesItemVoice(db, i, v, voice) ::
                 && (r.Ok? <==> SeesItemVoice(db, user, i, v))
                 && (r.Ok? ==> r.value.0.arr == db.items[i].arr && r.value.0.arrSlug == arrSlug && r.value.1 == v)
  {
    ItemFound(db, user, org, coll, index, arrSlug);
    ItemVoiceChecks(db, user, org, coll, index, arrSlug, voice);
    var r := ResolveCollectionVoice(db, user, org, coll, index, arrSlug, voice);
    forall i <- db.items, v <- db.voices |
      NamesItem(db, i, org, coll, index, arrSlug) && NamesItemVoice(db, i, v, voice)
      ensures VoiceIdBySlug(db, db.items[i].arr, voice) == Some(v)
    {
    }
    if r.Ok? {
      var i :| i in db.items && NamesItem(db, i, org, coll, index, arrSlug);
      assert NamesItemVoice(db, i, r.value.1, voice);
    }
  }
}
