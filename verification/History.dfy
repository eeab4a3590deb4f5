/**
 * Runs of the whole system. The database refuses what its constraints forbid;
 * the rules no constraint expresses have to survive every call.
 */
module History {
  import opened Wrappers
  import opened Text
  import opened Slug
  import opened FileName
  import opened Schema
  import opened Ordering
  import opened ItemTable
  import Cascade
  import FileSlots
  import Assignments

  /** Calls that change the running order. */
  datatype ItemCall =
    | MoveItem(id: Id, index: int)
    | ReorderItems(coll: Id, ids: seq<Id>)
    | RemoveItem(coll: Id, id: Id, at: Time)
    | RestoreItem(coll: Id, id: Id)

  datatype PartCall =
    | AssignPart(id: Id, item: Id, voice: Id, user: Id)
    | StampPart(id: Id, notified: Option<Time>, acknowledged: Option<Time>)
    | UnassignPart(id: Id)

  /** The statements the file services are made of. */
  datatype FileCall =
    | UploadFile(id: Id, loc: FileSlots.Location, fileName: string, mime: string, at: Time)
    | PutFile(id: Id, loc: FileSlots.Location, fileName: string, at: Time)
    | ReplaceFile(id: Id, prior: Id, at: Time)
    | HideFile(id: Id, deleted: bool)
    | DropFile(id: Id)

  /** Calls that create or flag the things a path names, and roles. */
  datatype StructureCall =
    | CreateOrganization(id: Id, name: string)
    | SetRole(org: Id, user: Id, role: Option<Role>)
    | CreateArrangement(id: Id, org: Id, title: string)
    | CreateVoice(id: Id, arr: Id, name: string, instrument: Id)
    | CreateCollection(id: Id, org: Id, name: string)
    | HideArrangement(id: Id, deleted: bool)
    | HideVoice(id: Id, deleted: bool)
    | HideCollection(id: Id, deleted: bool)
    | CreateTag(id: Id, org: Id)

  /** Every call that changes a row the tree, the ordering or the cascade looks at. */
  datatype Call =
    | OnStructure(structureCall: StructureCall)
    | OnItems(itemCall: ItemCall)
    | OnParts(partCall: PartCall)
    | OnFiles(fileCall: FileCall)
    | AddItem(id: Id, org: Id, coll: Id, arr: Id, index: int)
    | AttachTag(id: Id, org: Id, arr: Id, tag: Id)
    | DetachTag(id: Id)
    | DeleteOrganization(org: Id)

  /** What the database itself enforces. */
  predicate Enforced(db: Db) {
    ForeignKeys(db) && UniqueIndexes(db) && Int32(db.items)
  }

  predicate Int32(items: Items) {
    forall i <- items :: I32_MIN <= items[i].index <= I32_MAX
  }

  // ---------------------------------------------------------------------
  // The calls, table by table

  function WithRow<T>(table: map<Id, T>, id: Id, row: T): map<Id, T> {
    if id in table then table else table[id := row]
  }

  function HiddenArrangement(table: map<Id, Arrangement>, id: Id, deleted: bool): map<Id, Arrangement> {
    if id in table then table[id := table[id].(deleted := deleted)] else table
  }

  function HiddenVoice(table: map<Id, Voice>, id: Id, deleted: bool): map<Id, Voice> {
    if id in table then table[id := table[id].(deleted := deleted)] else table
  }

  function HiddenCollection(table: map<Id, Collection>, id: Id, deleted: bool): map<Id, Collection> {
    if id in table then table[id := table[id].(deleted := deleted)] else table
  }

  function WithRole(table: map<(Id, Id), Role>, org: Id, user: Id, role: Option<Role>): map<(Id, Id), Role> {
    match role
    case Some(r) => table[(org, user) := r]
    case None => table - {(org, user)}
  }

  /** The collection and the arrangement are looked up within one organization. */
  function WithItem(db: Db, id: Id, org: Id, coll: Id, arr: Id, index: int): Items {
    if Cascade.CollectionOf(db, coll, org) && Cascade.ArrangementOf(db, arr, org) && 1 <= index then
      WithRow(db.items, id, Item(coll, arr, index, None))
    else db.items
  }

  ghost function ChangedItems(items: Items, c: ItemCall): Items {
    match c
    case MoveItem(id, index) =>
      if id in items && items[id].Live() && IsValidIndex(index) then items[id := items[id].(index := index)] else items
    case ReorderItems(coll, ids) =>
      if multiset(ids) == multiset(LiveIds(items, coll)) then Renumbered(items, ids) else items
    case RemoveItem(coll, id, at) => if IsLiveIn(items, coll, id) then Removed(items, coll, id, at) else items
    case RestoreItem(coll, id) => if IsRemovedFrom(items, coll, id) then Restored(items, coll, id) else items
  }

  /** Tag and arrangement are looked up within one organization. */
  function WithTag(db: Db, id: Id, org: Id, arr: Id, tag: Id): map<Id, ArrangementTag> {
    if Cascade.ArrangementOf(db, arr, org) && Cascade.TagOf(db, tag, org) then
      WithRow(db.arrangementTags, id, ArrangementTag(arr, tag))
    else db.arrangementTags
  }

  /** A file is stored under an arrangement, or under a voice of that arrangement. */
  predicate PlaceExists(db: Db, arr: Id, voice: Option<Id>) {
    arr in db.arrangements && (voice.Some? ==> voice.value in db.voices && db.voices[voice.value].arr == arr)
  }

  function WithFile(db: Db, id: Id, row: Option<File>): map<Id, File> {
    if row.Some? && PlaceExists(db, row.value.arr, row.value.voice) then WithRow(db.files, id, row.value) else db.files
  }

  function ChangedFiles(db: Db, c: FileCall): map<Id, File> {
    match c
    case UploadFile(id, loc, fileName, mime, at) => WithFile(db, id, FileSlots.UploadRow(at, loc, fileName, mime))
    case PutFile(id, loc, fileName, at) =>
      WithFile(db, id, if '/' in fileName then None else FileSlots.DavRow(at, loc, fileName))
    case ReplaceFile(id, prior, at) =>
      if prior in db.files && !db.files[prior].deleted && id != prior then
        WithFile(db.(files := db.files[prior := db.files[prior].(deleted := true)]), id,
                 FileSlots.ReplacementRow(at, db.files[prior]))
      else db.files
    case HideFile(id, deleted) =>
      if id in db.files then db.files[id := db.files[id].(deleted := deleted)] else db.files
    case DropFile(id) => db.files - {id}
  }

  ghost function ChangedAssignments(db: Db, c: PartCall): map<Id, Assignment> {
    match c
    // An unknown user is a refusal, which rolls the call back.
    case AssignPart(id, item, voice, user) => Assignments.Assign(db, {user}, id, item, voice, user).0
    case StampPart(id, notified, acknowledged) => Assignments.UpdateState(db.assignments, id, notified, acknowledged).0
    case UnassignPart(id) => Assignments.Unassign(db.assignments, id).0
  }

  function Restructured(db: Db, c: StructureCall): Db {
    match c
    case CreateOrganization(id, name) => db.(orgs := WithRow(db.orgs, id, Organization(Slugify(name))))
    case SetRole(org, user, role) => db.(memberships := WithRole(db.memberships, org, user, role))
    case CreateArrangement(id, org, title) =>
      db.(arrangements := WithRow(db.arrangements, id, Arrangement(org, title, Slugify(title), false)))
    case CreateVoice(id, arr, name, instrument) =>
      db.(voices := WithRow(db.voices, id, Voice(arr, name, Slugify(name), instrument, false)))
    case CreateCollection(id, org, name) =>
      db.(collections := WithRow(db.collections, id, Collection(org, name, Slugify(name), false)))
    case HideArrangement(id, deleted) => db.(arrangements := HiddenArrangement(db.arrangements, id, deleted))
    case HideVoice(id, deleted) => db.(voices := HiddenVoice(db.voices, id, deleted))
    case HideCollection(id, deleted) => db.(collections := HiddenCollection(db.collections, id, deleted))
    case CreateTag(id, org) => db.(tags := WithRow(db.tags, id, Tag(org)))
  }

  /** A role is set or withdrawn for one user of one organization. */
  lemma RoleIsSet(db: Db, org: Id, user: Id, role: Option<Role>)
    ensures var after := Restructured(db, SetRole(org, user, role)).memberships;
            && ((org, user) in after <==> role.Some?) && (role.Some? ==> after[(org, user)] == role.value)
            && forall k: (Id, Id) | k != (org, user) ::
                 (k in after <==> k in db.memberships) && (k in after ==> after[k] == db.memberships[k])
  {
  }

  /** The tables a call would leave. */
  ghost function Proposed(db: Db, c: Call): Db {
    match c
    case OnStructure(call) => Restructured(db, call)
    case OnItems(call) => db.(items := ChangedItems(db.items, call))
    case OnParts(call) => db.(assignments := ChangedAssignments(db, call))
    case OnFiles(call) => db.(files := ChangedFiles(db, call))
    case AddItem(id, org, coll, arr, index) => db.(items := WithItem(db, id, org, coll, arr, index))
    case AttachTag(id, org, arr, tag) => db.(arrangementTags := WithTag(db, id, org, arr, tag))
    case DetachTag(id) => db.(arrangementTags := db.arrangementTags - {id})
    case DeleteOrganization(org) => Cascade.WithoutOrg(db, org)
  }

  /** A call is one transaction: it is rolled back, whatever the reason, or it
      commits tables the database accepts. */
  ghost predicate Next(db: Db, c: Call, next: Db) {
    next == db || (next == Proposed(db, c) && Enforced(next))
  }

  ghost predicate IsRun(states: seq<Db>, calls: seq<Call>) {
    && |states| == |calls| + 1 && states[0] == EMPTY
    && forall j | 0 <= j < |calls| :: Next(states[j], calls[j], states[j + 1])
  }

  // ---------------------------------------------------------------------
  // The cross-table rules survive

  predicate CrossRules(db: Db) {
    AssignmentsFit(db) && ItemsStayInOrg(db) && TagsStayInOrg(db) && FilesFit(db)
  }

  /** Arrangements, voices, collections and tags stay where they are. */
  predicate SamePlaces(db: Db, next: Db) {
    && (forall a <- db.arrangements :: a in next.arrangements && next.arrangements[a].org == db.arrangements[a].org)
    && (forall v <- db.voices :: v in next.voices && next.voices[v].arr == db.voices[v].arr)
    && (forall c <- db.collections :: c in next.collections && next.collections[c].org == db.collections[c].org)
    && (forall t <- db.tags :: t in next.tags && next.tags[t].org == db.tags[t].org)
  }

  lemma StructuralPlaces(db: Db, c: StructureCall)
    ensures var next := Restructured(db, c);
            && SamePlaces(db, next) && next.items == db.items && next.assignments == db.assignments
            && next.arrangementTags == db.arrangementTags && next.files == db.files
  {
  }

  lemma SamePlacesKeepRules(db: Db, next: Db)
    requires SamePlaces(db, next) && next.items == db.items && next.assignments == db.assignments
    requires next.arrangementTags == db.arrangementTags && next.files == db.files && CrossRules(db)
    ensures CrossRules(next)
  {
  }

  /** Items never change collection or arrangement. */
  predicate ItemsStay(items: Items, after: Items) {
    forall i <- items :: i in after && after[i].coll == items[i].coll && after[i].arr == items[i].arr
  }

  lemma ItemChangesStay(items: Items, c: ItemCall)
    ensures ItemsStay(items, ChangedItems(items, c)) && ChangedItems(items, c).Keys == items.Keys
  {
  }

  lemma ItemsKeepRules(db: Db, after: Items)
    requires CrossRules(db) && ItemsStay(db.items, after) && ItemsStayInOrg(db.(items := after))
    ensures CrossRules(db.(items := after))
  {
  }

  lemma ChangedItemsKeepRules(db: Db, c: ItemCall)
    requires CrossRules(db)
    ensures CrossRules(db.(items := ChangedItems(db.items, c)))
  {
    ItemChangesStay(db.items, c);
    ItemsKeepRules(db, ChangedItems(db.items, c));
  }

  lemma AddedItemKeepsRules(db: Db, id: Id, org: Id, coll: Id, arr: Id, index: int)
    requires CrossRules(db)
    ensures CrossRules(db.(items := WithItem(db, id, org, coll, arr, index)))
  {
    ItemsKeepRules(db, WithItem(db, id, org, coll, arr, index));
  }

  /** The voice belongs to the arrangement of the item. */
  predicate PairFits(db: Db, item: Id, voice: Id) {
    item in db.items && voice in db.voices && db.voices[voice].arr == db.items[item].arr
  }

  predicate PairsFit(db: Db, table: map<Id, Assignment>) {
    forall p <- table :: PairFits(db, table[p].item, table[p].voice)
  }

  lemma AssignmentsKeepRules(db: Db, after: map<Id, Assignment>)
    requires CrossRules(db) && PairsFit(db, after)
    ensures CrossRules(db.(assignments := after))
  {
  }

  lemma UpsertedPairsFit(db: Db, id: Id, item: Id, voice: Id, user: Id)
    requires PairsFit(db, db.assignments) && PairFits(db, item, voice)
    ensures PairsFit(db, Assignments.Upserted(db.assignments, id, item, voice, user).0)
  {
    if Assignments.HasRow(db.assignments, item, voice) {
    } else {
    }
  }

  lemma ChangedAssignmentsKeepRules(db: Db, c: PartCall)
    requires CrossRules(db)
    ensures CrossRules(db.(assignments := ChangedAssignments(db, c)))
  {
    assert PairsFit(db, db.assignments);
    match c {
      case AssignPart(id, item, voice, user) =>
        if Assignments.Assignable(db, item, voice) {
          UpsertedPairsFit(db, id, item, voice, user);
        }
      case StampPart(_, _, _) =>
      case UnassignPart(_) =>
    }
    AssignmentsKeepRules(db, ChangedAssignments(db, c));
  }

  lemma TagsKeepRules(db: Db, after: map<Id, ArrangementTag>)
    requires CrossRules(db) && TagsStayInOrg(db.(arrangementTags := after))
    ensures CrossRules(db.(arrangementTags := after))
  {
  }

  lemma FilesKeepRules(db: Db, after: map<Id, File>)
    requires CrossRules(db) && FilesFit(db.(files := after))
    ensures CrossRules(db.(files := after))
  {
  }

  /** A stored row sits at its place and derives, if at all, from a file of its arrangement. */
  predicate FileFits(db: Db, row: File) {
    && PlaceExists(db, row.arr, row.voice)
    && (row.derivedFrom.Some? ==>
          row.derivedFrom.value in db.files && db.files[row.derivedFrom.value].arr == row.arr)
  }

  lemma InsertedFileFits(db: Db, id: Id, row: File)
    requires FilesFit(db) && FileFits(db, row)
    ensures FilesFit(db.(files := WithRow(db.files, id, row)))
  {
  }

  lemma HiddenFileFits(db: Db, id: Id, deleted: bool)
    requires FilesFit(db) && id in db.files
    ensures FilesFit(db.(files := db.files[id := db.files[id].(deleted := deleted)]))
  {
  }

  lemma ReplacedFileFits(db: Db, id: Id, prior: Id, at: Time)
    requires FilesFit(db) && ForeignKeys(db)
    ensures FilesFit(db.(files := ChangedFiles(db, ReplaceFile(id, prior, at))))
  {
    if prior in db.files && !db.files[prior].deleted && id != prior {
      HiddenFileFits(db, prior, true);
      var hidden := db.(files := db.files[prior := db.files[prior].(deleted := true)]);
      var row := FileSlots.ReplacementRow(at, db.files[prior]);
      if row.Some? {
        assert FileFits(hidden, row.value);
        InsertedFileFits(hidden, id, row.value);
      }
    }
  }

  lemma ChangedFilesFit(db: Db, c: FileCall)
    requires FilesFit(db) && ForeignKeys(db) && FileKeys(db.(files := ChangedFiles(db, c)))
    ensures FilesFit(db.(files := ChangedFiles(db, c)))
  {
    match c
    case UploadFile(id, loc, fileName, mime, at) =>
      var row := FileSlots.UploadRow(at, loc, fileName, mime);
      if row.Some? && PlaceExists(db, loc.0, loc.1) {
        InsertedFileFits(db, id, row.value);
      }
    case PutFile(id, loc, fileName, at) =>
      var row := FileSlots.DavRow(at, loc, fileName);
      if row.Some? && PlaceExists(db, loc.0, loc.1) {
        InsertedFileFits(db, id, row.value);
      }
    case ReplaceFile(id, prior, at) => ReplacedFileFits(db, id, prior, at);
    case HideFile(id, deleted) =>
      if id in db.files {
        HiddenFileFits(db, id, deleted);
      }
    case DropFile(id) =>
  }

  /** Deleting an organization keeps the rules among the rows that are left. */
  lemma CascadeKeepsRules(db: Db, org: Id)
    requires CrossRules(db) && ForeignKeys(Cascade.WithoutOrg(db, org))
    ensures CrossRules(Cascade.WithoutOrg(db, org))
  {
  }

  lemma ProposedKeepsRules(db: Db, c: Call)
    requires CrossRules(db) && ForeignKeys(db) && ForeignKeys(Proposed(db, c))
    ensures CrossRules(Proposed(db, c))
  {
    match c
    case AddItem(id, org, coll, arr, index) => AddedItemKeepsRules(db, id, org, coll, arr, index);
    case AttachTag(id, org, arr, tag) => TagsKeepRules(db, WithTag(db, id, org, arr, tag));
    case DetachTag(id) => TagsKeepRules(db, db.arrangementTags - {id});
    case OnItems(call) => ChangedItemsKeepRules(db, call);
    case OnParts(call) => ChangedAssignmentsKeepRules(db, call);
    case OnFiles(call) =>
      ChangedFilesFit(db, call);
      FilesKeepRules(db, ChangedFiles(db, call));
    case DeleteOrganization(org) => CascadeKeepsRules(db, org);
    case OnStructure(call) =>
      StructuralPlaces(db, call);
      SamePlacesKeepRules(db, Restructured(db, call));
  }

  // ---------------------------------------------------------------------
  // The row shapes survive

  predicate OrgSlugs(table: map<Id, Organization>) {
    forall o <- table :: IsSlug(table[o].slug)
  }

  predicate ArrangementSlugs(table: map<Id, Arrangement>) {
    forall a <- table :: IsSlug(table[a].slug)
  }

  predicate VoiceSlugs(table: map<Id, Voice>) {
    forall v <- table :: IsSlug(table[v].slug)
  }

  predicate CollectionSlugs(table: map<Id, Collection>) {
    forall c <- table :: IsSlug(table[c].slug)
  }

  predicate SlugShapes(db: Db) {
    OrgSlugs(db.orgs) && ArrangementSlugs(db.arrangements) && VoiceSlugs(db.voices) && CollectionSlugs(db.collections)
  }

  predicate PositiveIndexes(items: Items) {
    forall i <- items :: 1 <= items[i].index
  }

  predicate RowShapes(db: Db) {
    SlugShapes(db) && PositiveIndexes(db.items) && FileShapes(db.files)
  }

  lemma NewOrgSlug(table: map<Id, Organization>, id: Id, name: string)
    requires OrgSlugs(table)
    ensures OrgSlugs(WithRow(table, id, Organization(Slugify(name))))
  {
    SlugifyIsSlug(name);
  }

  lemma NewArrangementSlug(table: map<Id, Arrangement>, id: Id, org: Id, title: string)
    requires ArrangementSlugs(table)
    ensures ArrangementSlugs(WithRow(table, id, Arrangement(org, title, Slugify(title), false)))
  {
    SlugifyIsSlug(title);
  }

  lemma NewVoiceSlug(table: map<Id, Voice>, id: Id, arr: Id, name: string, instrument: Id)
    requires VoiceSlugs(table)
    ensures VoiceSlugs(WithRow(table, id, Voice(arr, name, Slugify(name), instrument, false)))
  {
    SlugifyIsSlug(name);
  }

  lemma NewCollectionSlug(table: map<Id, Collection>, id: Id, org: Id, name: string)
    requires CollectionSlugs(table)
    ensures CollectionSlugs(WithRow(table, id, Collection(org, name, Slugify(name), false)))
  {
    SlugifyIsSlug(name);
  }

  lemma HiddenSlugs(db: Db, id: Id, deleted: bool)
    requires SlugShapes(db)
    ensures ArrangementSlugs(HiddenArrangement(db.arrangements, id, deleted))
    ensures VoiceSlugs(HiddenVoice(db.voices, id, deleted))
    ensures CollectionSlugs(HiddenCollection(db.collections, id, deleted))
  {
  }

  lemma SlugsSurvive(db: Db, c: StructureCall)
    requires SlugShapes(db)
    ensures SlugShapes(Restructured(db, c))
  {
    match c
    case CreateOrganization(id, name) => NewOrgSlug(db.orgs, id, name);
    case SetRole(_, _, _) =>
    case CreateArrangement(id, org, title) => NewArrangementSlug(db.arrangements, id, org, title);
    case CreateVoice(id, arr, name, instrument) => NewVoiceSlug(db.voices, id, arr, name, instrument);
    case CreateCollection(id, org, name) => NewCollectionSlug(db.collections, id, org, name);
    case HideArrangement(id, deleted) => HiddenSlugs(db, id, deleted);
    case HideVoice(id, deleted) => HiddenSlugs(db, id, deleted);
    case HideCollection(id, deleted) => HiddenSlugs(db, id, deleted);
    case CreateTag(_, _) =>
  }

  lemma IndexesSurvive(items: Items, c: ItemCall)
    requires PositiveIndexes(items)
    ensures PositiveIndexes(ChangedItems(items, c))
  {
  }

  lemma UploadedShape(at: Time, loc: FileSlots.Location, fileName: string, mime: string)
    ensures FileSlots.UploadRow(at, loc, fileName, mime).Some? ==>
              FileShape(FileSlots.UploadRow(at, loc, fileName, mime).value)
  {
  }

  lemma PutShape(at: Time, loc: FileSlots.Location, fileName: string)
    requires '/' !in fileName
    ensures FileSlots.DavRow(at, loc, fileName).Some? ==> FileShape(FileSlots.DavRow(at, loc, fileName).value)
  {
    if SplitFilename(fileName).Some? {
      assert forall c :: c in SplitFilename(fileName).value.0 ==> c in fileName;
    }
  }

  lemma InsertedShape(db: Db, id: Id, row: Option<File>)
    requires FileShapes(db.files) && (row.Some? ==> FileShape(row.value))
    ensures FileShapes(WithFile(db, id, row))
  {
  }

  lemma HiddenShape(files: map<Id, File>, id: Id, deleted: bool)
    requires FileShapes(files) && id in files
    ensures FileShapes(files[id := files[id].(deleted := deleted)])
  {
  }

  lemma ReplacedShape(at: Time, was: File)
    requires FileShape(was)
    ensures FileSlots.ReplacementRow(at, was).Some? ==> FileShape(FileSlots.ReplacementRow(at, was).value)
  {
  }

  lemma FileShapesSurvive(db: Db, c: FileCall)
    requires FileShapes(db.files)
    ensures FileShapes(ChangedFiles(db, c))
  {
    match c
    case UploadFile(id, loc, fileName, mime, at) =>
      UploadedShape(at, loc, fileName, mime);
      InsertedShape(db, id, FileSlots.UploadRow(at, loc, fileName, mime));
    case PutFile(id, loc, fileName, at) =>
      if '/' !in fileName {
        PutShape(at, loc, fileName);
        InsertedShape(db, id, FileSlots.DavRow(at, loc, fileName));
      }
    case ReplaceFile(id, prior, at) =>
      if prior in db.files && !db.files[prior].deleted && id != prior {
        HiddenShape(db.files, prior, true);
        ReplacedShape(at, db.files[prior]);
        InsertedShape(db.(files := db.files[prior := db.files[prior].(deleted := true)]), id,
                      FileSlots.ReplacementRow(at, db.files[prior]));
      }
    case HideFile(id, deleted) =>
      if id in db.files {
        HiddenShape(db.files, id, deleted);
      }
    case DropFile(_) =>
  }

  lemma ProposedKeepsShapes(db: Db, c: Call)
    requires RowShapes(db)
    ensures RowShapes(Proposed(db, c))
  {
    match c
    case OnStructure(call) =>
      StructuralPlaces(db, call);
      SlugsSurvive(db, call);
    case OnItems(call) => IndexesSurvive(db.items, call);
    case OnFiles(call) => FileShapesSurvive(db, call);
    case DeleteOrganization(org) => CascadeKeepsShapes(db, org);
    case _ =>
  }

  lemma CascadeKeepsShapes(db: Db, org: Id)
    requires RowShapes(db)
    ensures RowShapes(Cascade.WithoutOrg(db, org))
  {
  }

  // ---------------------------------------------------------------------
  // Runs

  /** What every run keeps. */
  predicate SystemKept(db: Db) {
    Enforced(db) && CrossRules(db) && RowShapes(db)
  }

  lemma NextKept(db: Db, c: Call, next: Db)
    requires SystemKept(db) && Next(db, c, next)
    ensures SystemKept(next)
  {
    if next != db {
      ProposedKeepsRules(db, c);
      ProposedKeepsShapes(db, c);
    }
  }

  /** What holds at first and is kept by every step holds throughout. */
  lemma {:induction false} Throughout(p: Db -> bool, states: seq<Db>, j: nat)
    requires j < |states| && p(states[0])
    requires forall k | 0 <= k < |states| - 1 :: p(states[k]) ==> p(states[k + 1])
    ensures p(states[j])
  {
    if j > 0 {
      Throughout(p, states, j - 1);
    }
  }

  lemma EmptyKept()
    ensures SystemKept(EMPTY)
  {
  }

  lemma RunKept(states: seq<Db>, calls: seq<Call>, j: nat)
    requires IsRun(states, calls) && j < |states|
    ensures SystemKept(states[j])
  {
    var p := (db: Db) => SystemKept(db);
    EmptyKept();
    forall k | 0 <= k < |states| - 1
      ensures p(states[k]) ==> p(states[k + 1])
    {
      if p(states[k]) {
        NextKept(states[k], calls[k], states[k + 1]);
      }
    }
    Throughout(p, states, j);
  }

  lemma KeptIsSound(db: Db)
    requires SystemKept(db)
    ensures Sound(db)
  {
  }

  /** Every state of every run is sound: the rules no constraint expresses hold. */
  lemma EveryRunIsSound(states: seq<Db>, calls: seq<Call>, j: nat)
    requires IsRun(states, calls) && j < |states|
    ensures Sound(states[j])
  {
    RunKept(states, calls, j);
    KeptIsSound(states[j]);
  }

  // ---------------------------------------------------------------------
  // Acknowledgements

  /** A call to stamp an acknowledgement on a row. */
  predicate Acknowledges(c: Call, p: Id) {
    c.OnParts? && c.partCall.StampPart? && c.partCall.id == p && c.partCall.acknowledged.Some?
  }

  /** The call stamped the row: it was not rolled back. */
  ghost predicate Stamps(before: Assignments.Parts, c: Call, after: Assignments.Parts, p: Id) {
    && Acknowledges(c, p)
    && after == Assignments.UpdateState(before, p, c.partCall.notified, c.partCall.acknowledged).0
    && p in after && after[p].acknowledgedAt == c.partCall.acknowledged
  }

  lemma PartCallAcknowledges(db: Db, c: PartCall, p: Id)
    requires Assignments.Acknowledged(ChangedAssignments(db, c), p) && !Acknowledges(OnParts(c), p)
    ensures Assignments.Acknowledged(db.assignments, p)
    ensures Assignments.AssignedTo(db.assignments, p, ChangedAssignments(db, c)[p].user)
  {
    match c
    case AssignPart(id, item, voice, user) =>
      if Assignments.Assignable(db, item, voice) {
        Assignments.UpsertAcknowledges(db.assignments, id, item, voice, user, p);
      }
    case StampPart(_, _, _) =>
    case UnassignPart(_) =>
  }

  /** A row acknowledged after a call was stamped by it or acknowledged before it,
      and has kept its assignee. */
  ghost predicate Carries(before: Assignments.Parts, c: Call, after: Assignments.Parts, p: Id) {
    Assignments.Acknowledged(after, p) ==>
      && Assignments.AssignedTo(before, p, after[p].user)
      && (Stamps(before, c, after, p) || Assignments.Acknowledged(before, p))
  }

  lemma ProposedCarries(db: Db, c: Call, p: Id)
    ensures Carries(db.assignments, c, Proposed(db, c).assignments, p)
  {
    match c
    case OnParts(call) =>
      if Assignments.Acknowledged(ChangedAssignments(db, call), p) && !Acknowledges(c, p) {
        PartCallAcknowledges(db, call, p);
      }
    case OnStructure(call) => StructuralPlaces(db, call);
    case _ =>
  }

  lemma NextCarries(db: Db, c: Call, next: Db, p: Id)
    requires next == db || next == Proposed(db, c)
    ensures Carries(db.assignments, c, next.assignments, p)
  {
    ProposedCarries(db, c, p);
  }

  lemma {:induction false} StampedSince(states: seq<Db>, calls: seq<Call>, n: nat, p: Id) returns (k: nat)
    requires |states| == |calls| + 1 && n < |states| && states[0] == EMPTY
    requires forall j | 0 <= j < |calls| :: Carries(states[j].assignments, calls[j], states[j + 1].assignments, p)
    requires Assignments.Acknowledged(states[n].assignments, p)
    ensures k < n && Stamps(states[k].assignments, calls[k], states[k + 1].assignments, p)
    ensures forall j | k <= j <= n ::
              Assignments.AssignedTo(states[j].assignments, p, states[n].assignments[p].user)
  {
    assert Carries(states[n - 1].assignments, calls[n - 1], states[n].assignments, p);
    k := n - 1;
    if !Stamps(states[k].assignments, calls[k], states[k + 1].assignments, p) {
      k := StampedSince(states, calls, n - 1, p);
    }
  }

  lemma RunCarries(states: seq<Db>, calls: seq<Call>, p: Id)
    requires IsRun(states, calls)
    ensures forall j | 0 <= j < |calls| :: Carries(states[j].assignments, calls[j], states[j + 1].assignments, p)
  {
    forall j | 0 <= j < |calls|
      ensures Carries(states[j].assignments, calls[j], states[j + 1].assignments, p)
    {
      NextCarries(states[j], calls[j], states[j + 1], p);
    }
  }

  /** In every run, an acknowledged row was stamped by a call that took effect, and
      since then its assignee has not changed. */
  lemma AcknowledgedSinceLastAssignee(states: seq<Db>, calls: seq<Call>, n: nat, p: Id) returns (k: nat)
    requires IsRun(states, calls) && n < |states| && Assignments.Acknowledged(states[n].assignments, p)
    ensures k < n && Stamps(states[k].assignments, calls[k], states[k + 1].assignments, p)
    ensures forall j | k <= j <= n ::
              Assignments.AssignedTo(states[j].assignments, p, states[n].assignments[p].user)
  {
    RunCarries(states, calls, p);
    k := StampedSince(states, calls, n, p);
  }

  // ---------------------------------------------------------------------
  // And they last

  lemma PartCallKeepsStamp(db: Db, c: PartCall, p: Id, user: Id)
    requires Assignments.Acknowledged(db.assignments, p) && Assignments.AssignedTo(db.assignments, p, user)
    requires Assignments.AssignedTo(ChangedAssignments(db, c), p, user)
    ensures Assignments.Acknowledged(ChangedAssignments(db, c), p)
  {
    match c
    case AssignPart(id, item, voice, assignee) =>
      if Assignments.Assignable(db, item, voice) {
        if Assignments.HasRow(db.assignments, item, voice) {
        } else {
        }
      }
    case StampPart(id, notified, acknowledged) =>
      Assignments.StateIsSet(db.assignments, id, notified, acknowledged);
    case UnassignPart(_) =>
  }

  /** A step that leaves a row and its assignee leaves its acknowledgement. */
  lemma NextKeepsStamp(db: Db, c: Call, next: Db, p: Id, user: Id)
    requires next == db || next == Proposed(db, c)
    requires Assignments.Acknowledged(db.assignments, p) && Assignments.AssignedTo(db.assignments, p, user)
    requires Assignments.AssignedTo(next.assignments, p, user)
    ensures Assignments.Acknowledged(next.assignments, p)
  {
    if next != db {
      match c
      case OnParts(call) => PartCallKeepsStamp(db, call, p, user);
      case OnStructure(call) => StructuralPlaces(db, call);
      case _ =>
    }
  }

  /** Every call commits what it proposes or nothing. */
  ghost predicate AllOrNothing(states: seq<Db>, calls: seq<Call>) {
    && |states| == |calls| + 1
    && forall j | 0 <= j < |calls| :: states[j + 1] == states[j] || states[j + 1] == Proposed(states[j], calls[j])
  }

  lemma RunsAreAllOrNothing(states: seq<Db>, calls: seq<Call>)
    requires IsRun(states, calls)
    ensures AllOrNothing(states, calls)
  {
    forall j | 0 <= j < |calls|
      ensures states[j + 1] == states[j] || states[j + 1] == Proposed(states[j], calls[j])
    {
      assert Next(states[j], calls[j], states[j + 1]);
    }
  }

  lemma StampLastsFrom(states: seq<Db>, calls: seq<Call>, k: nat, n: nat, p: Id, user: Id)
    requires AllOrNothing(states, calls) && k < n < |states|
    requires Assignments.Acknowledged(states[k + 1].assignments, p)
    requires forall j | k < j <= n :: Assignments.AssignedTo(states[j].assignments, p, user)
    ensures forall j | k < j <= n :: Assignments.Acknowledged(states[j].assignments, p)
  {
    forall j | k < j <= n
      ensures Assignments.Acknowledged(states[j].assignments, p)
    {
      StampLasts(states, calls, k + 1, j, p, user);
    }
  }

  lemma StampStep(states: seq<Db>, calls: seq<Call>, j: nat, p: Id, user: Id)
    requires AllOrNothing(states, calls) && j < |calls|
    requires Assignments.Acknowledged(states[j].assignments, p)
    requires Assignments.AssignedTo(states[j].assignments, p, user)
    requires Assignments.AssignedTo(states[j + 1].assignments, p, user)
    ensures Assignments.Acknowledged(states[j + 1].assignments, p)
  {
    NextKeepsStamp(states[j], calls[j], states[j + 1], p, user);
  }

  /** What holds at one step and is kept by the following ones holds after them. */
  lemma {:induction false} Lasting(holds: nat -> bool, k: nat, n: nat)
    requires k <= n && holds(k) && forall j: nat | k <= j < n :: holds(j) ==> holds(j + 1)
    ensures holds(n)
  {
    if k < n {
      Lasting(holds, k, n - 1);
    }
  }

  lemma StampLasts(states: seq<Db>, calls: seq<Call>, k: nat, n: nat, p: Id, user: Id)
    requires AllOrNothing(states, calls) && k <= n < |states|
    requires Assignments.Acknowledged(states[k].assignments, p)
    requires forall j | k <= j <= n :: Assignments.AssignedTo(states[j].assignments, p, user)
    ensures Assignments.Acknowledged(states[n].assignments, p)
  {
    var holds := (j: nat) => j < |states| && Assignments.Acknowledged(states[j].assignments, p);
    forall j: nat | k <= j < n
      ensures holds(j) ==> holds(j + 1)
    {
      if holds(j) {
        StampStep(states, calls, j, p, user);
      }
    }
    Lasting(holds, k, n);
  }

  /** In every run, once a row was acknowledged it counts as rehearsed in every later
      state, until it is removed or its assignee changes. */
  lemma AcknowledgementLasts(states: seq<Db>, calls: seq<Call>, k: nat, n: nat, p: Id, user: Id)
    requires IsRun(states, calls) && k < n < |states|
    requires Stamps(states[k].assignments, calls[k], states[k + 1].assignments, p)
    requires forall j | k < j <= n :: Assignments.AssignedTo(states[j].assignments, p, user)
    ensures forall j | k < j <= n :: Assignments.Acknowledged(states[j].assignments, p)
  {
    RunsAreAllOrNothing(states, calls);
    StampLastsFrom(states, calls, k, n, p, user);
  }
}
