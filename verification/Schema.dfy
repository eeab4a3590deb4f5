/**
 * The relational state: one map per table, the foreign keys and unique indexes
 * the database enforces, and the row shapes every write surface keeps.
 */
module Schema {
  import opened Wrappers
  import opened Text
  import opened Slug
  import opened FileName

  type Id = nat
  type Time = nat

  datatype Role = Owner | Archivist | Conductor | Musician

  datatype Organization = Organization(slug: string)

  datatype Arrangement = Arrangement(org: Id, title: string, slug: string, deleted: bool)

  datatype Voice = Voice(arr: Id, name: string, slug: string, instrument: Id, deleted: bool)

  datatype File = File(arr: Id, voice: Option<Id>, name: string, format: Format, mime: string,
                       derivedFrom: Option<Id>, createdAt: Time, deleted: bool)

  datatype Collection = Collection(org: Id, name: string, slug: string, deleted: bool)

  datatype Item = Item(coll: Id, arr: Id, index: int, deletedAt: Option<Time>) {
    predicate Live() { deletedAt.None? }
  }

  datatype Assignment = Assignment(item: Id, voice: Id, user: Id,
                                   notifiedAt: Option<Time>, acknowledgedAt: Option<Time>)

  datatype Tag = Tag(org: Id)

  datatype ArrangementTag = ArrangementTag(arr: Id, tag: Id)

  /** A conductor's annotation; only its reference to the arrangement matters here. */
  datatype GlobalAnnotation = GlobalAnnotation(arr: Id)

  /** Memberships are keyed by their unique pair (organization, user). */
  datatype Db = Db(
    orgs: map<Id, Organization>,
    memberships: map<(Id, Id), Role>,
    arrangements: map<Id, Arrangement>,
    voices: map<Id, Voice>,
    files: map<Id, File>,
    collections: map<Id, Collection>,
    items: map<Id, Item>,
    assignments: map<Id, Assignment>,
    tags: map<Id, Tag>,
    arrangementTags: map<Id, ArrangementTag>,
    annotations: map<Id, GlobalAnnotation>)

  const EMPTY: Db := Db(map[], map[], map[], map[], map[], map[], map[], map[], map[], map[], map[])

  // ---------------------------------------------------------------------
  // Foreign keys

  predicate MembershipKeys(db: Db) {
    forall k <- db.memberships :: k.0 in db.orgs
  }

  predicate ArrangementKeys(db: Db) {
    forall a <- db.arrangements :: db.arrangements[a].org in db.orgs
  }

  predicate VoiceKeys(db: Db) {
    forall v <- db.voices :: db.voices[v].arr in db.arrangements
  }

  predicate FileKeys(db: Db) {
    forall f <- db.files ::
      && db.files[f].arr in db.arrangements
      && (db.files[f].voice.Some? ==> db.files[f].voice.value in db.voices)
      && (db.files[f].derivedFrom.Some? ==> db.files[f].derivedFrom.value in db.files)
  }

  predicate CollectionKeys(db: Db) {
    forall c <- db.collections :: db.collections[c].org in db.orgs
  }

  predicate ItemKeys(db: Db) {
    forall i <- db.items :: db.items[i].coll in db.collections && db.items[i].arr in db.arrangements
  }

  predicate AssignmentKeys(db: Db) {
    forall p <- db.assignments :: db.assignments[p].item in db.items && db.assignments[p].voice in db.voices
  }

  predicate TagKeys(db: Db) {
    forall t <- db.tags :: db.tags[t].org in db.orgs
  }

  predicate ArrangementTagKeys(db: Db) {
    forall j <- db.arrangementTags ::
      db.arrangementTags[j].arr in db.arrangements && db.arrangementTags[j].tag in db.tags
  }

  predicate AnnotationKeys(db: Db) {
    forall g <- db.annotations :: db.annotations[g].arr in db.arrangements
  }

  predicate ForeignKeys(db: Db) {
    && MembershipKeys(db) && ArrangementKeys(db) && VoiceKeys(db) && FileKeys(db) && CollectionKeys(db)
    && ItemKeys(db) && AssignmentKeys(db) && TagKeys(db) && ArrangementTagKeys(db) && AnnotationKeys(db)
  }

  // ---------------------------------------------------------------------
  // Unique indexes (partial ones cover live rows only)

  predicate OrgSlugUnique(db: Db) {
    forall a <- db.orgs, b <- db.orgs | db.orgs[a].slug == db.orgs[b].slug :: a == b
  }

  predicate ArrangementSlugUnique(db: Db) {
    forall a <- db.arrangements, b <- db.arrangements |
      && !db.arrangements[a].deleted && !db.arrangements[b].deleted
      && db.arrangements[a].org == db.arrangements[b].org
      && db.arrangements[a].slug == db.arrangements[b].slug :: a == b
  }

  predicate VoiceSlugUnique(db: Db) {
    forall a <- db.voices, b <- db.voices |
      && !db.voices[a].deleted && !db.voices[b].deleted
      && db.voices[a].arr == db.voices[b].arr && db.voices[a].slug == db.voices[b].slug :: a == b
  }

  predicate CollectionSlugUnique(db: Db) {
    forall a <- db.collections, b <- db.collections |
      && !db.collections[a].deleted && !db.collections[b].deleted
      && db.collections[a].org == db.collections[b].org && db.collections[a].slug == db.collections[b].slug :: a == b
  }

  /** Two live files never share arrangement, voice (or absence of one), name and format. */
  predicate LiveSlotsUnique(files: map<Id, File>) {
    forall a <- files, b <- files | !files[a].deleted && !files[b].deleted && SameSlot(files[a], files[b]) :: a == b
  }

  predicate FileSlotUnique(db: Db) {
    LiveSlotsUnique(db.files)
  }

  predicate SameSlot(f: File, g: File) {
    f.arr == g.arr && f.voice == g.voice && f.name == g.name && f.format == g.format
  }

  /** `(collection, index)` and `(collection, arrangement)` among live items. */
  predicate ItemIndexUnique(items: map<Id, Item>) {
    forall a <- items, b <- items |
      items[a].Live() && items[b].Live() && items[a].coll == items[b].coll && items[a].index == items[b].index :: a == b
  }

  predicate ItemArrangementUnique(items: map<Id, Item>) {
    forall a <- items, b <- items |
      items[a].Live() && items[b].Live() && items[a].coll == items[b].coll && items[a].arr == items[b].arr :: a == b
  }

  /** At most one assignment for each item and voice. */
  predicate PairsUnique(parts: map<Id, Assignment>) {
    forall a <- parts, b <- parts | parts[a].item == parts[b].item && parts[a].voice == parts[b].voice :: a == b
  }

  predicate AssignmentUnique(db: Db) {
    PairsUnique(db.assignments)
  }

  predicate UniqueIndexes(db: Db) {
    && OrgSlugUnique(db) && ArrangementSlugUnique(db) && VoiceSlugUnique(db) && CollectionSlugUnique(db)
    && FileSlotUnique(db) && ItemIndexUnique(db.items) && ItemArrangementUnique(db.items) && AssignmentUnique(db)
  }

  /** What a lookup by slug, index or file slot relies on for one answer. */
  predicate Lookups(db: Db) {
    && OrgSlugUnique(db) && ArrangementSlugUnique(db) && VoiceSlugUnique(db) && CollectionSlugUnique(db)
    && FileSlotUnique(db) && ItemIndexUnique(db.items) && ArrangementKeys(db)
  }

  // ---------------------------------------------------------------------
  // Row shapes

  /** Slugs come from `slugify`; indexes are 32-bit and non-negative. */
  predicate Shapes(db: Db) {
    && (forall o <- db.orgs :: IsSlug(db.orgs[o].slug))
    && (forall a <- db.arrangements :: IsSlug(db.arrangements[a].slug))
    && (forall v <- db.voices :: IsSlug(db.voices[v].slug))
    && (forall c <- db.collections :: IsSlug(db.collections[c].slug))
    && (forall i <- db.items :: 0 <= db.items[i].index <= I32_MAX)
    && FileShapes(db.files)
  }

  predicate FileShapes(files: map<Id, File>) {
    forall f <- files :: FileShape(files[f])
  }

  /** A stored name is one path segment and the format is that of the MIME type. */
  predicate FileShape(f: File) {
    && f.name != "" && '/' !in f.name
    && FormatAndExtForMime(f.mime).Some?
    && f.format == FormatAndExtForMime(f.mime).value.0
  }

  predicate Valid(db: Db) {
    ForeignKeys(db) && UniqueIndexes(db) && Shapes(db)
  }

  // ---------------------------------------------------------------------
  // Cross-table rules no constraint expresses; the services keep them

  /** An assigned voice belongs to the arrangement of the item it is assigned on. */
  predicate AssignmentsFit(db: Db) {
    forall p <- db.assignments ::
      && db.assignments[p].item in db.items && db.assignments[p].voice in db.voices
      && db.voices[db.assignments[p].voice].arr == db.items[db.assignments[p].item].arr
  }

  /** An item holds an arrangement of its collection's own organization. */
  predicate ItemsStayInOrg(db: Db) {
    forall i <- db.items ::
      && db.items[i].coll in db.collections && db.items[i].arr in db.arrangements
      && db.arrangements[db.items[i].arr].org == db.collections[db.items[i].coll].org
  }

  /** A tag is attached to arrangements of its own organization only. */
  predicate TagsStayInOrg(db: Db) {
    forall j <- db.arrangementTags ::
      && db.arrangementTags[j].arr in db.arrangements && db.arrangementTags[j].tag in db.tags
      && db.arrangements[db.arrangementTags[j].arr].org == db.tags[db.arrangementTags[j].tag].org
  }

  /** A file's voice, and the file it was derived from, are of its own arrangement. */
  predicate FilesFit(db: Db) {
    forall f <- db.files ::
      && (db.files[f].voice.Some? ==>
            db.files[f].voice.value in db.voices && db.voices[db.files[f].voice.value].arr == db.files[f].arr)
      && (db.files[f].derivedFrom.Some? ==>
            db.files[f].derivedFrom.value in db.files && db.files[db.files[f].derivedFrom.value].arr == db.files[f].arr)
  }

  /** Everything the schema and the services keep. */
  predicate Sound(db: Db) {
    Valid(db) && AssignmentsFit(db) && ItemsStayInOrg(db) && TagsStayInOrg(db) && FilesFit(db)
  }
}
