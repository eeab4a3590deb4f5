/**
 * Per-role visibility of the WebDAV tree. Every query is written out with its
 * own joins and its own soft-delete conditions, as the SQL statements are.
 */
module Access {
  import opened Wrappers
  import opened Schema

  datatype Visibility = Staff | Restricted {
    predicate IsStaff() { Staff? }
  }

  function VisibilityFor(role: Option<Role>): Visibility {
    match role
    case Some(Owner) => Staff
    case Some(Archivist) => Staff
    case Some(Conductor) => Staff
    case Some(Musician) => Restricted
    case None => Restricted
  }

  function FindOrgId(db: Db, slug: string): (r: Option<Id>)
    requires OrgSlugUnique(db)
    ensures r.Some? ==> r.value in db.orgs && db.orgs[r.value].slug == slug
    ensures r.None? ==> forall o <- db.orgs :: db.orgs[o].slug != slug
  {
    if exists o <- db.orgs :: db.orgs[o].slug == slug then
      var o :| o in db.orgs && db.orgs[o].slug == slug;
      Some(o)
    else None
  }

  function RoleInOrg(db: Db, org: Id, user: Id): Option<Role> {
    if (org, user) in db.memberships then Some(db.memberships[(org, user)]) else None
  }

  function ResolveOrgVisibility(db: Db, slug: string, user: Id): Option<(Id, Visibility)>
    requires OrgSlugUnique(db)
  {
    var org :- FindOrgId(db, slug);
    Some((org, VisibilityFor(RoleInOrg(db, org, user))))
  }

  // ---------------------------------------------------------------------
  // Arrangements tree

  /** part_assignment ⋈ voice ⋈ collection_item ⋈ collection, for one arrangement. */
  predicate GrantsArrangement(db: Db, p: Id, arr: Id, user: Id) {
    && p in db.assignments
    && var pa := db.assignments[p];
       && pa.user == user
       && pa.voice in db.voices && db.voices[pa.voice].arr == arr && !db.voices[pa.voice].deleted
       && pa.item in db.items && db.items[pa.item].Live()
       && db.items[pa.item].coll in db.collections && !db.collections[db.items[pa.item].coll].deleted
  }

  predicate HasAssignmentOnArrangement(db: Db, arr: Id, user: Id) {
    exists p <- db.assignments :: GrantsArrangement(db, p, arr, user)
  }

  /** The arrangements listed at an organization's arrangements root. */
  function VisibleArrangements(db: Db, org: Id, user: Id, vis: Visibility): set<Id> {
    if vis.IsStaff() then
      set a <- db.arrangements | db.arrangements[a].org == org && !db.arrangements[a].deleted
    else
      set a <- db.arrangements |
        && db.arrangements[a].org == org && !db.arrangements[a].deleted
        && exists p <- db.assignments :: GrantsArrangement(db, p, a, user)
  }

  /** part_assignment ⋈ collection_item ⋈ collection, for one voice. */
  predicate GrantsVoice(db: Db, p: Id, voice: Id, user: Id) {
    && p in db.assignments
    && var pa := db.assignments[p];
       && pa.user == user && pa.voice == voice
       && pa.item in db.items && db.items[pa.item].Live()
       && db.items[pa.item].coll in db.collections && !db.collections[db.items[pa.item].coll].deleted
  }

  predicate HasAssignmentOnVoice(db: Db, voice: Id, user: Id) {
    exists p <- db.assignments :: GrantsVoice(db, p, voice, user)
  }

  /** The voices listed under an arrangement. */
  function VisibleVoices(db: Db, arr: Id, user: Id, vis: Visibility): set<Id> {
    if vis.IsStaff() then
      set v <- db.voices | db.voices[v].arr == arr && !db.voices[v].deleted
    else
      set v <- db.voices |
        && db.voices[v].arr == arr && !db.voices[v].deleted
        && exists p <- db.assignments ::
             && db.assignments[p].voice == v && db.assignments[p].user == user
             && db.assignments[p].item in db.items && db.items[db.assignments[p].item].Live()
             && db.items[db.assignments[p].item].coll in db.collections
             && !db.collections[db.items[db.assignments[p].item].coll].deleted
  }

  // ---------------------------------------------------------------------
  // Collections tree

  /** part_assignment ⋈ collection_item ⋈ arrangement ⋈ voice, for one collection. */
  predicate GrantsCollection(db: Db, p: Id, coll: Id, user: Id) {
    && p in db.assignments
    && var pa := db.assignments[p];
       && pa.user == user
       && pa.item in db.items && db.items[pa.item].coll == coll && db.items[pa.item].Live()
       && db.items[pa.item].arr in db.arrangements && !db.arrangements[db.items[pa.item].arr].deleted
       && pa.voice in db.voices && !db.voices[pa.voice].deleted
  }

  predicate HasAssignmentInCollection(db: Db, coll: Id, user: Id) {
    exists p <- db.assignments :: GrantsCollection(db, p, coll, user)
  }

  /** part_assignment ⋈ collection_item ⋈ arrangement ⋈ voice, for one item. */
  predicate GrantsItem(db: Db, p: Id, item: Id, user: Id) {
    && p in db.assignments
    && var pa := db.assignments[p];
       && pa.user == user && pa.item == item
       && item in db.items && db.items[item].Live()
       && db.items[item].arr in db.arrangements && !db.arrangements[db.items[item].arr].deleted
       && pa.voice in db.voices && !db.voices[pa.voice].deleted
  }

  predicate HasAssignmentOnItem(db: Db, item: Id, user: Id) {
    exists p <- db.assignments :: GrantsItem(db, p, item, user)
  }

  predicate HasAssignmentOnItemVoice(db: Db, item: Id, voice: Id, user: Id) {
    exists p <- db.assignments ::
      db.assignments[p].item == item && db.assignments[p].voice == voice && db.assignments[p].user == user
  }

  /** The collections listed at an organization's collections root. */
  function VisibleCollections(db: Db, org: Id, user: Id, vis: Visibility): set<Id> {
    if vis.IsStaff() then
      set c <- db.collections | db.collections[c].org == org && !db.collections[c].deleted
    else
      set c <- db.collections |
        && db.collections[c].org == org && !db.collections[c].deleted
        && exists i <- db.items, p <- db.assignments ::
             && db.items[i].coll == c && db.items[i].Live()
             && db.items[i].arr in db.arrangements && !db.arrangements[db.items[i].arr].deleted
             && db.assignments[p].item == i && db.assignments[p].user == user
             && db.assignments[p].voice in db.voices && !db.voices[db.assignments[p].voice].deleted
  }

  /** The items listed under a collection; an item of a removed arrangement has no directory. */
  function VisibleItems(db: Db, coll: Id, user: Id, vis: Visibility): set<Id> {
    if vis.IsStaff() then
      set i <- db.items |
        && db.items[i].coll == coll && db.items[i].Live()
        && db.items[i].arr in db.arrangements && !db.arrangements[db.items[i].arr].deleted
    else
      set i <- db.items |
        && db.items[i].coll == coll && db.items[i].Live()
        && db.items[i].arr in db.arrangements && !db.arrangements[db.items[i].arr].deleted
        && exists p <- db.assignments ::
             && db.assignments[p].item == i && db.assignments[p].user == user
             && db.assignments[p].voice in db.voices && !db.voices[db.assignments[p].voice].deleted
  }

  /** The voices listed under a collection item: assigned on this item only. */
  function VisibleItemVoices(db: Db, item: Id, arr: Id, user: Id, vis: Visibility): set<Id> {
    if vis.IsStaff() then
      set v <- db.voices | db.voices[v].arr == arr && !db.voices[v].deleted
    else
      set v <- db.voices |
        && db.voices[v].arr == arr && !db.voices[v].deleted
        && exists p <- db.assignments ::
             db.assignments[p].voice == v && db.assignments[p].item == item && db.assignments[p].user == user
  }

  /** The organizations listed at the root: a membership, or any assignment whose
      item and collection are live. */
  function VisibleOrgs(db: Db, user: Id): set<Id> {
    set o <- db.orgs |
      || (exists m <- db.memberships :: m == (o, user))
      || exists p <- db.assignments ::
           && db.assignments[p].user == user
           && db.assignments[p].voice in db.voices
           && db.voices[db.assignments[p].voice].arr in db.arrangements
           && db.arrangements[db.voices[db.assignments[p].voice].arr].org == o
           && db.assignments[p].item in db.items && db.items[db.assignments[p].item].Live()
           && db.items[db.assignments[p].item].coll in db.collections
           && !db.collections[db.items[db.assignments[p].item].coll].deleted
  }
}
