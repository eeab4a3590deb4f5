/**
 * File rows and stored objects: a row is written first and its bytes second,
 * replacement soft-deletes, and the object key is derived from the entity tree.
 */
module FileSlots {
  import opened Wrappers
  import opened FileName
  import opened Schema
  import Storage

  type Bytes = Storage.Bytes

  /** Where a file lives: an arrangement and, unless it is a full score, a voice. */
  type Location = (Id, Option<Id>)

  /** The slugs of a location. */
  datatype Place = Place(org: string, arr: string, voice: Option<string>)

  /** Places with their slugs. */
  type Tree = map<Location, Place>

  /** `written` remembers, for each row, the bytes its own upload stored. */
  datatype Files = Files(rows: map<Id, File>, objects: map<string, Bytes>, written: map<Id, Bytes>, now: Time)

  const EMPTY_FILES: Files := Files(map[], map[], map[], 0)

  datatype Refusal =
    | UnsupportedMime | EmptyName | NotFound | Forbidden | Duplicate | Database | FormatMismatch | StoredMimeUnknown
    | ReplaceTargetGone | UploadFailed | Superseded | NoMatch

  type Reply = Option<Refusal>

  // ---------------------------------------------------------------------
  // Keys and slots

  predicate FlatPlace(p: Place) {
    Flat(p.org) && Flat(p.arr) && (p.voice.Some? ==> Flat(p.voice.value))
  }

  predicate FlatTree(tree: Tree) {
    forall l <- tree :: FlatPlace(tree[l])
  }

  /** No two locations share their slugs. */
  predicate Injective(tree: Tree) {
    forall l <- tree, m <- tree | tree[l] == tree[m] :: l == m
  }

  /** Where a row's file lives. */
  function Loc(row: File): Location {
    (row.arr, row.voice)
  }

  predicate HasKey(tree: Tree, row: File) {
    Loc(row) in tree && FormatAndExtForMime(row.mime).Some?
  }

  /** A row of a known location, named and typed as every write surface does. */
  predicate Located(tree: Tree, row: File) {
    HasKey(tree, row) && FileShape(row)
  }

  function KeyOf(tree: Tree, row: File): string
    requires HasKey(tree, row)
  {
    var p := tree[Loc(row)];
    DerivedKey(p.org, p.arr, p.voice, row.name, FormatAndExtForMime(row.mime).value.1)
  }

  lemma ExtensionFixesFormat(base: string, base': string)
    requires FormatTable(base).Some? && FormatTable(base').Some?
    requires FormatTable(base).value.1 == FormatTable(base').value.1
    ensures FormatTable(base).value.0 == FormatTable(base').value.0
  {
    TableRowsAgree(base);
    TableRowsAgree(base');
  }

  /** Two rows share an object exactly when their places share their slugs and the
      rows have one name and extension; then they also have one format. */
  lemma SharedKeyIff(tree: Tree, f: File, g: File)
    requires FlatTree(tree) && Located(tree, f) && Located(tree, g)
    ensures KeyOf(tree, f) == KeyOf(tree, g)
       <==> && tree[Loc(f)] == tree[Loc(g)] && f.name == g.name
            && FormatAndExtForMime(f.mime).value.1 == FormatAndExtForMime(g.mime).value.1
    ensures KeyOf(tree, f) == KeyOf(tree, g) ==> f.format == g.format
  {
    var p, q := tree[Loc(f)], tree[Loc(g)];
    DerivedKeyInjective(p.org, p.arr, p.voice, f.name, FormatAndExtForMime(f.mime).value.1,
                        q.org, q.arr, q.voice, g.name, FormatAndExtForMime(g.mime).value.1);
    if KeyOf(tree, f) == KeyOf(tree, g) {
      ExtensionFixesFormat(BaseMime(f.mime), BaseMime(g.mime));
    }
  }

  predicate LiveInSlot(rows: map<Id, File>, row: File) {
    exists g <- rows :: !rows[g].deleted && SameSlot(rows[g], row)
  }

  /** A sibling created after a row, live or deleted. */
  predicate NewerSibling(rows: map<Id, File>, id: Id, g: Id)
    requires id in rows && g in rows
  {
    g != id && SameSlot(rows[g], rows[id]) && rows[g].createdAt > rows[id].createdAt
  }

  predicate NewestInSlot(rows: map<Id, File>, id: Id)
    requires id in rows
  {
    forall g <- rows :: !NewerSibling(rows, id, g)
  }

  function SetDeleted(rows: map<Id, File>, id: Id, deleted: bool): map<Id, File>
    requires id in rows
  {
    rows[id := rows[id].(deleted := deleted)]
  }

  // ---------------------------------------------------------------------
  // The operations

  function Tick(f: Files): Files {
    f.(now := f.now + 1)
  }

  function Put(f: Files, rows: map<Id, File>, id: Id, key: string, data: Bytes): Files {
    Files(rows, f.objects[key := data], f.written[id := data], f.now + 1)
  }

  /** `find_by_location`. */
  ghost function LiveRow(rows: map<Id, File>, row: File): (r: Option<Id>)
    ensures r.Some? ==> r.value in rows && !rows[r.value].deleted && SameSlot(rows[r.value], row)
    ensures r.None? <==> !LiveInSlot(rows, row)
  {
    if LiveInSlot(rows, row) then
      var g :| g in rows && !rows[g].deleted && SameSlot(rows[g], row);
      Some(g)
    else None
  }

  /** `f` with a soft-deleted row whose bytes never arrived. */
  function Leftover(f: Files, id: Id, row: File): Files {
    Tick(f.(rows := f.rows[id := row.(deleted := true)]))
  }

  /** What became of the object request. A failed one may have been applied all the
      same, its answer lost; and its compensation may fail as well. (An insert or a
      swap that the database carries out and reports as failed ends the call there:
      that is the state of `Failed(false, false)`.) */
  datatype Outcome = Stored | Failed(applied: bool, undone: bool)

  /** `f` after a failed request that leaves these rows. */
  function Failing(f: Files, rows: map<Id, File>, id: Id, key: string, data: Bytes, applied: bool): Files {
    Files(rows, if applied then f.objects[key := data] else f.objects,
          if applied && id in rows then f.written[id := data] else f.written, f.now + 1)
  }

  /** Insert the row, store the bytes; a failed upload hard-deletes the row again. */
  function InsertFile(f: Files, id: Id, row: File, key: string, data: Bytes, end: Outcome): (Files, Reply) {
    if id in f.rows then (Tick(f), Some(Database))
    else if LiveInSlot(f.rows, row) then (Tick(f), Some(Duplicate))
    else
      match end
      case Stored => (Put(f, f.rows[id := row], id, key, data), None)
      case Failed(applied, undone) =>
        (Failing(f, if undone then f.rows else f.rows[id := row], id, key, data, applied), Some(UploadFailed))
  }

  /** The same through WebDAV: a failed upload soft-deletes the row. */
  function Create(f: Files, id: Id, row: File, key: string, data: Bytes, end: Outcome): (Files, Reply) {
    if id in f.rows then (Tick(f), Some(Database))
    else if LiveInSlot(f.rows, row) then (Tick(f), Some(Duplicate))
    else
      match end
      case Stored => (Put(f, f.rows[id := row], id, key, data), None)
      case Failed(applied, undone) =>
        (Failing(f, f.rows[id := row.(deleted := undone)], id, key, data, applied), Some(UploadFailed))
  }

  /** The prior row soft-deleted and the new one inserted. */
  function Swapped(rows: map<Id, File>, prior: Id, id: Id, row: File): map<Id, File>
    requires prior in rows
  {
    SetDeleted(rows, prior, true)[id := row]
  }

  /** The new row soft-deleted and the prior one revived. */
  function SwappedBack(rows: map<Id, File>, prior: Id, id: Id): map<Id, File>
    requires prior in rows && id in rows && prior != id
  {
    SetDeleted(SetDeleted(rows, id, true), prior, false)
  }

  /** Swap the rows in one transaction, then store the bytes; a failed upload swaps
      them back. */
  function Swap(f: Files, id: Id, prior: Id, row: File, key: string, data: Bytes, end: Outcome): (Files, Reply)
    requires prior in f.rows
  {
    if id in f.rows then (Tick(f), Some(Database))
    else if LiveInSlot(SetDeleted(f.rows, prior, true), row) then (Tick(f), Some(Duplicate))
    else
      var rows := Swapped(f.rows, prior, id, row);
      match end
      case Stored => (Put(f, rows, id, key, data), None)
      case Failed(applied, undone) =>
        (Failing(f, if undone then SwappedBack(rows, prior, id) else rows, id, key, data, applied), Some(UploadFailed))
  }

  /** What a write surface does once it has validated its input. */
  datatype Action =
    | Refused(why: Refusal)
    | Inserting(row: File, key: string)
    | Creating(row: File, key: string)
    | Swapping(prior: Id, row: File, key: string)

  predicate Applies(f: Files, a: Action) {
    a.Swapping? ==> a.prior in f.rows
  }

  function Act(f: Files, id: Id, a: Action, data: Bytes, end: Outcome): (Files, Reply)
    requires Applies(f, a)
  {
    match a
    case Refused(why) => (Tick(f), Some(why))
    case Inserting(row, key) => InsertFile(f, id, row, key, data, end)
    case Creating(row, key) => Create(f, id, row, key, data, end)
    case Swapping(prior, row, key) => Swap(f, id, prior, row, key, data, end)
  }

  /** The row an upload inserts. */
  function UploadRow(now: Time, loc: Location, fileName: string, mime: string): Option<File> {
    var format :- FormatAndExtForMime(mime);
    var name :- NameStem(fileName);
    Some(File(loc.0, loc.1, name, format.0, mime, None, now, false))
  }

  /** `store_upload`, up to the insert. */
  function UploadAction(tree: Tree, now: Time, loc: Location, fileName: string, mime: string): (a: Action)
    ensures a.Refused? ==> a.why != UploadFailed
  {
    if FormatAndExtForMime(mime).None? then Refused(UnsupportedMime)
    else if NameStem(fileName).None? then Refused(EmptyName)
    else if loc !in tree then Refused(NotFound)
    else
      var row := UploadRow(now, loc, fileName, mime).value;
      Inserting(row, KeyOf(tree, row))
  }

  /** The row a replacement inserts: another identity for the same content. */
  function ReplacementRow(now: Time, was: File): Option<File> {
    var format :- FormatAndExtForMime(was.mime);
    Some(was.(format := format.0, createdAt := now, deleted := false))
  }

  /** `store_replacement` of a row the caller has looked up, up to the swap. */
  function ReplaceAction(tree: Tree, f: Files, prior: Id, mime: string): (a: Action)
    ensures Applies(f, a) && (a.Refused? ==> a.why != UploadFailed)
  {
    if prior !in f.rows then Refused(NotFound)
    else
      var was := f.rows[prior];
      if FormatAndExtForMime(was.mime).None? then Refused(StoredMimeUnknown)
      else if FormatAndExtForMime(mime).None? then Refused(UnsupportedMime)
      else if FormatAndExtForMime(mime) != FormatAndExtForMime(was.mime) then Refused(FormatMismatch)
      else if Loc(was) !in tree then Refused(NotFound)
      else if was.deleted then Refused(ReplaceTargetGone)
      else
        var row := ReplacementRow(f.now, was).value;
        Swapping(prior, row, KeyOf(tree, row))
  }

  /** The row a WebDAV PUT of a file name writes. */
  function DavRow(now: Time, loc: Location, filename: string): Option<File> {
    var parts :- SplitFilename(filename);
    var mime :- MimeForExt(parts.1);
    var format :- FormatAndExtForMime(mime);
    Some(File(loc.0, loc.1, parts.0, format.0, mime, None, now, false))
  }

  /** `org_write_target` and `commit_write`, up to the row: create or replace by
      location. A file name is one path segment. */
  ghost function DavAction(tree: Tree, f: Files, loc: Location, filename: string): (a: Action)
    ensures Applies(f, a) && (a.Refused? ==> a.why != UploadFailed)
  {
    if loc !in tree then Refused(NotFound)
    else if DavRow(f.now, loc, filename).None? || '/' in filename then Refused(Forbidden)
    else
      var row := DavRow(f.now, loc, filename).value;
      match LiveRow(f.rows, row)
      case Some(prior) => Swapping(prior, row, KeyOf(tree, row))
      case None => Creating(row, KeyOf(tree, row))
  }

  function Delete(f: Files, id: Id): (Files, Reply) {
    if id in f.rows && !f.rows[id].deleted then (Tick(f.(rows := SetDeleted(f.rows, id, true))), None)
    else (Tick(f), Some(NoMatch))
  }

  /** `undelete`: refused if a newer sibling exists; the unique index backstops. */
  function Undelete(f: Files, id: Id): (Files, Reply) {
    if id !in f.rows || !f.rows[id].deleted then (Tick(f), Some(NoMatch))
    else if !NewestInSlot(f.rows, id) then (Tick(f), Some(Superseded))
    else if LiveInSlot(f.rows, f.rows[id]) then (Tick(f), Some(Duplicate))
    else (Tick(f.(rows := SetDeleted(f.rows, id, false))), None)
  }

  // ---------------------------------------------------------------------
  // What runs keep

  /** A row's key holds the bytes its own upload stored. */
  predicate ServesOwn(tree: Tree, f: Files, id: Id)
    requires id in f.rows
  {
    && id in f.written
    && Located(tree, f.rows[id])
    && KeyOf(tree, f.rows[id]) in f.objects
    && f.objects[KeyOf(tree, f.rows[id])] == f.written[id]
  }

  /** A live row of one of the tree's places can be read. */
  predicate IsServed(tree: Tree, f: Files, id: Id) {
    id in f.rows && !f.rows[id].deleted && Loc(f.rows[id]) in tree
  }

  /** Every file that can be read has its own bytes. */
  predicate ServesOwnBytes(tree: Tree, f: Files) {
    forall id <- f.rows | IsServed(tree, f, id) :: ServesOwn(tree, f, id)
  }

  /** Creation times are below the clock and never repeat. */
  predicate Created(rows: map<Id, File>, now: Time) {
    && (forall id <- rows :: rows[id].createdAt < now)
    && forall a <- rows, b <- rows | rows[a].createdAt == rows[b].createdAt :: a == b
  }

  /** The last row of its slot whose bytes were stored. */
  predicate LastWritten(f: Files, id: Id)
    requires id in f.rows
  {
    id in f.written && forall g <- f.written | g in f.rows :: !NewerSibling(f.rows, id, g)
  }

  predicate LiveAreLast(f: Files) {
    forall id <- f.rows | !f.rows[id].deleted :: LastWritten(f, id)
  }

  /** A way to derive object keys; rows it cannot locate have none. */
  type KeyRule = File -> Option<string>

  function KeyIn(tree: Tree, row: File): Option<string> {
    if Located(tree, row) then Some(KeyOf(tree, row)) else None
  }

  function RuleOf(tree: Tree): KeyRule {
    row => KeyIn(tree, row)
  }

  ghost predicate IgnoresFlags(key: KeyRule) {
    forall row: File, deleted: bool :: key(row.(deleted := deleted)) == key(row)
  }

  /** No row of another slot has the object of `row`. */
  predicate Apart(key: KeyRule, rows: map<Id, File>, row: File) {
    forall g <- rows | key(rows[g]) == key(row) :: SameSlot(rows[g], row)
  }

  predicate AllKeyed(key: KeyRule, rows: map<Id, File>) {
    forall id <- rows :: key(rows[id]).Some?
  }

  predicate HoldsOwn(key: KeyRule, f: Files, id: Id)
    requires id in f.rows && id in f.written
  {
    key(f.rows[id]).Some? && key(f.rows[id]).value in f.objects && f.objects[key(f.rows[id]).value] == f.written[id]
  }

  predicate LiveAreWritten(f: Files) {
    forall id <- f.rows | !f.rows[id].deleted :: id in f.written
  }

  /** A written row that is live, or that `undelete` may make live. */
  predicate Retrievable(f: Files, id: Id)
    requires id in f.rows
  {
    id in f.written && (f.rows[id].deleted ==> LastWritten(f, id))
  }

  predicate RetrievableHold(key: KeyRule, f: Files) {
    forall id <- f.rows | Retrievable(f, id) :: HoldsOwn(key, f, id)
  }

  /** The invariant: live rows were written, and the object of every retrievable row
      is its own. */
  predicate KeptBy(key: KeyRule, f: Files) {
    && f.written.Keys <= f.rows.Keys
    && LiveSlotsUnique(f.rows) && Created(f.rows, f.now) && AllKeyed(key, f.rows)
    && LiveAreWritten(f) && RetrievableHold(key, f)
  }

  predicate Kept(tree: Tree, f: Files) {
    KeptBy(RuleOf(tree), f)
  }

  /** `live` is part of `tree`. */
  predicate PartOf(live: Tree, tree: Tree) {
    forall l <- live :: l in tree && tree[l] == live[l]
  }

  lemma KeptServesOwnBytes(live: Tree, tree: Tree, f: Files)
    requires PartOf(live, tree) && Kept(tree, f)
    ensures ServesOwnBytes(live, f)
  {
    forall id <- f.rows | IsServed(live, f, id)
      ensures ServesOwn(live, f, id)
    {
      assert Retrievable(f, id) && HoldsOwn(RuleOf(tree), f, id);
    }
  }

  lemma FlagsIgnored(tree: Tree)
    ensures IgnoresFlags(RuleOf(tree))
  {
    forall row: File, deleted: bool
      ensures KeyIn(tree, row.(deleted := deleted)) == KeyIn(tree, row)
    {
      FlagKey(tree, row, deleted);
    }
  }

  /** No row of another place is at a place with these slugs. */
  predicate SlugsFree(tree: Tree, rows: map<Id, File>, l: Location)
    requires l in tree
  {
    forall g <- rows | Loc(rows[g]) in tree && tree[Loc(rows[g])] == tree[l] :: Loc(rows[g]) == l
  }

  /** A place whose slugs no other place with rows has gives its rows their own objects. */
  lemma FreeSlugsKeepApart(tree: Tree, rows: map<Id, File>, row: File)
    requires FlatTree(tree) && Located(tree, row) && SlugsFree(tree, rows, Loc(row))
    ensures Apart(RuleOf(tree), rows, row)
  {
    forall g <- rows | KeyIn(tree, rows[g]) == KeyIn(tree, row)
      ensures SameSlot(rows[g], row)
    {
      SharedKeyIff(tree, rows[g], row);
    }
  }

  /** A deletion mark does not enter the key. */
  lemma FlagKey(tree: Tree, row: File, deleted: bool)
    ensures KeyIn(tree, row.(deleted := deleted)) == KeyIn(tree, row)
  {
  }

  /** A row whose bytes never arrived. */
  predicate IsPhantom(f: Files, id: Id) {
    id in f.rows && id !in f.written
  }

  // ---------------------------------------------------------------------
  // What each kind of change keeps, for any such rule

  /** Earlier rows are kept but for their deletion mark. */
  predicate OnlyFlags(before: map<Id, File>, rows: map<Id, File>) {
    before.Keys <= rows.Keys && forall g <- before :: rows[g] == before[g].(deleted := rows[g].deleted)
  }

  /** A row is added, and no other live row of its slot is left. */
  predicate Adds(before: map<Id, File>, rows: map<Id, File>, id: Id, row: File) {
    && id !in before
    && rows.Keys == before.Keys + {id} && rows[id] == row && OnlyFlags(before, rows)
    && forall g <- before | !rows[g].deleted :: !before[g].deleted && !SameSlot(rows[g], row)
  }

  lemma AddsSlots(f: Files, rows: map<Id, File>, id: Id, row: File)
    requires LiveSlotsUnique(f.rows) && Created(f.rows, f.now) && Adds(f.rows, rows, id, row) && row.createdAt == f.now
    ensures LiveSlotsUnique(rows) && Created(rows, f.now + 1)
  {
    assert forall g <- rows :: g == id || g in f.rows;
  }

  /** Flags do not change keys, so only rows that were not there need one. */
  lemma FlagsKeyed(key: KeyRule, before: map<Id, File>, rows: map<Id, File>)
    requires IgnoresFlags(key) && AllKeyed(key, before) && OnlyFlags(before, rows)
    requires forall g <- rows | g !in before :: key(rows[g]).Some?
    ensures AllKeyed(key, rows) && forall g <- before :: key(rows[g]) == key(before[g])
  {
    forall g <- before
      ensures key(rows[g]) == key(before[g])
    {
      assert key(before[g].(deleted := rows[g].deleted)) == key(before[g]);
    }
  }

  lemma PutLiveAreLast(f: Files, rows: map<Id, File>, id: Id, row: File, key: string, data: Bytes)
    requires Created(f.rows, f.now) && LiveAreLast(f)
    requires Adds(f.rows, rows, id, row) && row.createdAt == f.now
    ensures LiveAreLast(Put(f, rows, id, key, data))
  {
    var after := Put(f, rows, id, key, data);
    forall g <- rows, h <- after.written | !rows[g].deleted && h in rows
      ensures !NewerSibling(rows, g, h)
    {
      if g != id && h != id {
        assert LastWritten(f, g) && !NewerSibling(f.rows, g, h);
      }
    }
  }

  lemma StillLast(f: Files, rows: map<Id, File>, id: Id, row: File, key: string, data: Bytes, g: Id)
    requires Adds(f.rows, rows, id, row) && g in f.rows && f.written.Keys <= f.rows.Keys
    requires LastWritten(Put(f, rows, id, key, data), g)
    ensures LastWritten(f, g) && !NewerSibling(rows, g, id)
  {
    var after := Put(f, rows, id, key, data);
    assert id in after.written;
    forall h <- f.written | h in f.rows
      ensures !NewerSibling(f.rows, g, h)
    {
      assert h in after.written && !NewerSibling(rows, g, h);
    }
  }

  lemma PutHolds(key: KeyRule, f: Files, rows: map<Id, File>, id: Id, row: File, data: Bytes, g: Id)
    requires Apart(key, f.rows, row) && key(row).Some? && Created(f.rows, f.now) && f.written.Keys <= f.rows.Keys
    requires RetrievableHold(key, f) && Adds(f.rows, rows, id, row) && row.createdAt == f.now
    requires g in f.rows && key(rows[g]) == key(f.rows[g])
    requires Retrievable(Put(f, rows, id, key(row).value, data), g)
    ensures HoldsOwn(key, Put(f, rows, id, key(row).value, data), g)
  {
    if rows[g].deleted {
      StillLast(f, rows, id, row, key(row).value, data, g);
      assert rows[g].createdAt < rows[id].createdAt && !SameSlot(rows[g], rows[id]);
    }
    assert Retrievable(f, g) && HoldsOwn(key, f, g);
  }

  lemma PutRetrievableHold(key: KeyRule, f: Files, rows: map<Id, File>, id: Id, row: File, data: Bytes)
    requires Apart(key, f.rows, row) && key(row).Some? && Created(f.rows, f.now) && f.written.Keys <= f.rows.Keys
    requires RetrievableHold(key, f) && Adds(f.rows, rows, id, row) && row.createdAt == f.now
    requires forall g <- f.rows :: key(rows[g]) == key(f.rows[g])
    ensures RetrievableHold(key, Put(f, rows, id, key(row).value, data))
  {
    var after := Put(f, rows, id, key(row).value, data);
    forall g <- rows | Retrievable(after, g)
      ensures HoldsOwn(key, after, g)
    {
      if g != id {
        PutHolds(key, f, rows, id, row, data, g);
      }
    }
  }

  lemma PutKeeps(key: KeyRule, f: Files, rows: map<Id, File>, id: Id, row: File, data: Bytes)
    requires Apart(key, f.rows, row) && IgnoresFlags(key) && KeptBy(key, f)
    requires Adds(f.rows, rows, id, row) && row.createdAt == f.now && key(row).Some?
    ensures KeptBy(key, Put(f, rows, id, key(row).value, data))
  {
    AddsSlots(f, rows, id, row);
    FlagsKeyed(key, f.rows, rows);
    PutRetrievableHold(key, f, rows, id, row, data);
  }

  /** The rows change in deletion marks only, or by rows that have no bytes. */
  predicate Quiet(f: Files, after: Files) {
    && f.written.Keys <= f.rows.Keys
    && after.written == f.written && after.objects == f.objects && OnlyFlags(f.rows, after.rows)
    && forall g <- after.rows | g !in f.rows :: after.rows[g].deleted
  }

  lemma QuietLast(f: Files, after: Files, g: Id)
    requires Quiet(f, after) && g in f.rows
    ensures LastWritten(after, g) <==> LastWritten(f, g)
  {
    assert forall h <- f.written :: NewerSibling(after.rows, g, h) <==> NewerSibling(f.rows, g, h);
  }

  lemma QuietLiveAreLast(f: Files, after: Files)
    requires Quiet(f, after) && LiveAreLast(f)
    requires forall g <- f.rows | f.rows[g].deleted && !after.rows[g].deleted :: LastWritten(f, g)
    ensures LiveAreLast(after)
  {
    forall g <- after.rows | !after.rows[g].deleted
      ensures LastWritten(after, g)
    {
      QuietLast(f, after, g);
    }
  }

  lemma QuietHold(key: KeyRule, f: Files, after: Files)
    requires Quiet(f, after) && RetrievableHold(key, f)
    requires forall g <- f.rows :: key(after.rows[g]) == key(f.rows[g])
    requires forall g <- f.rows | f.rows[g].deleted && !after.rows[g].deleted :: LastWritten(f, g)
    ensures RetrievableHold(key, after)
  {
    forall g <- after.rows | Retrievable(after, g)
      ensures HoldsOwn(key, after, g)
    {
      QuietLast(f, after, g);
      assert Retrievable(f, g) && HoldsOwn(key, f, g);
    }
  }

  lemma QuietKeeps(key: KeyRule, f: Files, after: Files)
    requires IgnoresFlags(key) && KeptBy(key, f) && Quiet(f, after)
    requires LiveSlotsUnique(after.rows) && Created(after.rows, after.now)
    requires forall g <- after.rows | g !in f.rows :: key(after.rows[g]).Some?
    requires forall g <- f.rows | f.rows[g].deleted && !after.rows[g].deleted :: LastWritten(f, g)
    ensures KeptBy(key, after)
  {
    FlagsKeyed(key, f.rows, after.rows);
    QuietHold(key, f, after);
  }

  lemma LeftoverSlots(f: Files, id: Id, row: File)
    requires LiveSlotsUnique(f.rows) && Created(f.rows, f.now) && id !in f.rows && row.createdAt == f.now
    ensures LiveSlotsUnique(Leftover(f, id, row).rows) && Created(Leftover(f, id, row).rows, f.now + 1)
  {
    assert forall g <- Leftover(f, id, row).rows :: g == id || g in f.rows;
  }

  lemma LeftoverKeeps(key: KeyRule, f: Files, id: Id, row: File)
    requires IgnoresFlags(key) && KeptBy(key, f) && id !in f.rows && row.createdAt == f.now && key(row).Some?
    ensures KeptBy(key, Leftover(f, id, row))
  {
    LeftoverSlots(f, id, row);
    assert key(row.(deleted := true)) == key(row);
    QuietKeeps(key, f, Leftover(f, id, row));
  }

  /** `f` with a row's deletion mark set or cleared. */
  function Flagged(f: Files, id: Id, deleted: bool): Files
    requires id in f.rows
  {
    Tick(f.(rows := SetDeleted(f.rows, id, deleted)))
  }

  lemma FlagSlots(f: Files, id: Id, deleted: bool)
    requires LiveSlotsUnique(f.rows) && Created(f.rows, f.now) && id in f.rows
    requires !deleted ==> !LiveInSlot(f.rows, f.rows[id])
    ensures LiveSlotsUnique(Flagged(f, id, deleted).rows) && Created(Flagged(f, id, deleted).rows, f.now + 1)
  {
  }

  lemma FlagIsQuiet(f: Files, id: Id, deleted: bool)
    requires f.written.Keys <= f.rows.Keys && id in f.rows
    ensures Quiet(f, Flagged(f, id, deleted))
    ensures forall g <- f.rows | f.rows[g].deleted && !Flagged(f, id, deleted).rows[g].deleted :: g == id && !deleted
  {
  }

  lemma FlagKeeps(key: KeyRule, f: Files, id: Id, deleted: bool)
    requires IgnoresFlags(key) && KeptBy(key, f) && id in f.rows
    requires !deleted ==> LastWritten(f, id) && !LiveInSlot(f.rows, f.rows[id])
    ensures KeptBy(key, Flagged(f, id, deleted))
  {
    FlagSlots(f, id, deleted);
    FlagIsQuiet(f, id, deleted);
    QuietKeeps(key, f, Flagged(f, id, deleted));
  }

  lemma TickKeeps(key: KeyRule, f: Files)
    requires IgnoresFlags(key) && KeptBy(key, f)
    ensures KeptBy(key, Tick(f))
  {
    QuietKeeps(key, f, Tick(f));
  }

  lemma AddsRow(rows: map<Id, File>, id: Id, row: File)
    requires id !in rows && !LiveInSlot(rows, row)
    ensures Adds(rows, rows[id := row], id, row)
  {
  }

  lemma AddsSwapped(rows: map<Id, File>, prior: Id, id: Id, row: File)
    requires prior in rows && id !in rows && !LiveInSlot(SetDeleted(rows, prior, true), row)
    ensures Adds(rows, Swapped(rows, prior, id, row), id, row)
  {
  }

  /** The compensation restores the prior row and leaves the new one deleted. */
  lemma UndoneSwap(rows: map<Id, File>, prior: Id, id: Id, row: File)
    requires prior in rows && !rows[prior].deleted && id !in rows
    ensures SwappedBack(Swapped(rows, prior, id, row), prior, id) == rows[id := row.(deleted := true)]
  {
  }

  // A failed request that was applied all the same.

  lemma FailingIs(f: Files, rows: map<Id, File>, id: Id, at: string, data: Bytes)
    requires id in rows
    ensures Failing(f, rows, id, at, data, true) == Put(f, rows, id, at, data)
    ensures Failing(f, rows, id, at, data, false) == Tick(f.(rows := rows))
  {
  }

  /** The bytes of row `g` give way to others under its key. */
  predicate Overwritten(key: KeyRule, f: Files, g: Id, at: string, data: Bytes)
    requires g in f.rows
  {
    g in f.written && key(f.rows[g]) == Some(at) && f.written[g] != data
  }

  /** Some retrievable row loses its bytes. */
  predicate Robs(key: KeyRule, f: Files, at: string, data: Bytes) {
    exists g <- f.rows :: Retrievable(f, g) && Overwritten(key, f, g, at, data)
  }

  /** Bytes without a row: an applied upload whose row is hard-deleted again. */
  lemma StrayBytesKeepIff(key: KeyRule, f: Files, id: Id, at: string, data: Bytes)
    requires KeptBy(key, f) && id !in f.rows
    ensures KeptBy(key, Failing(f, f.rows, id, at, data, true)) <==> !Robs(key, f, at, data)
  {
    var after := Failing(f, f.rows, id, at, data, true);
    forall g <- f.rows
      ensures Retrievable(after, g) <==> Retrievable(f, g)
      ensures Retrievable(f, g) ==> (HoldsOwn(key, after, g) <==> !Overwritten(key, f, g, at, data))
    {
      assert LastWritten(after, g) <==> LastWritten(f, g);
      assert Retrievable(f, g) ==> HoldsOwn(key, f, g);
    }
  }

  lemma AddedRowSlots(f: Files, id: Id, row: File)
    requires LiveSlotsUnique(f.rows) && Created(f.rows, f.now) && id !in f.rows && row.createdAt == f.now && row.deleted
    ensures LiveSlotsUnique(f.rows[id := row]) && Created(f.rows[id := row], f.now + 1)
  {
    assert forall g <- f.rows[id := row] :: g == id || g in f.rows;
  }

  /** A retrievable row beside the one swapped back is of another slot. */
  lemma SwappedBackRetrievable(f: Files, id: Id, prior: Id, row: File, at: string, data: Bytes, g: Id)
    requires f.written.Keys <= f.rows.Keys && LiveSlotsUnique(f.rows) && Created(f.rows, f.now)
    requires prior in f.rows && !f.rows[prior].deleted && SameSlot(f.rows[prior], row) && id !in f.rows
    requires row.createdAt == f.now && row.deleted && g in f.rows && g != prior
    requires Retrievable(Put(f, f.rows[id := row], id, at, data), g)
    ensures Retrievable(f, g) && !SameSlot(f.rows[g], row)
  {
    var after := Put(f, f.rows[id := row], id, at, data);
    if f.rows[g].deleted {
      assert id in after.written && !NewerSibling(after.rows, g, id);
      forall h <- f.written | h in f.rows
        ensures !NewerSibling(f.rows, g, h)
      {
        assert h in after.written && !NewerSibling(after.rows, g, h);
      }
    }
  }

  /** An applied replacement that is swapped back: the prior row is live, the key
      holds the new row's bytes. */
  lemma SwappedBackHolds(key: KeyRule, f: Files, id: Id, prior: Id, row: File, data: Bytes)
    requires Apart(key, f.rows, row) && KeptBy(key, f) && key(row).Some? && id !in f.rows
    requires prior in f.rows && !f.rows[prior].deleted && SameSlot(f.rows[prior], row)
    requires row.createdAt == f.now && row.deleted && !Overwritten(key, f, prior, key(row).value, data)
    ensures RetrievableHold(key, Put(f, f.rows[id := row], id, key(row).value, data))
  {
    var at := key(row).value;
    var after := Put(f, f.rows[id := row], id, at, data);
    forall g <- after.rows | Retrievable(after, g)
      ensures HoldsOwn(key, after, g)
    {
      if g == prior {
        assert Retrievable(f, prior) && HoldsOwn(key, f, prior);
      } else if g != id {
        SwappedBackRetrievable(f, id, prior, row, at, data, g);
        assert HoldsOwn(key, f, g);
      }
    }
  }

  lemma SwappedBackKeeps(key: KeyRule, f: Files, id: Id, prior: Id, row: File, data: Bytes)
    requires Apart(key, f.rows, row) && KeptBy(key, f) && key(row).Some? && id !in f.rows
    requires prior in f.rows && !f.rows[prior].deleted && SameSlot(f.rows[prior], row)
    requires row.createdAt == f.now && row.deleted && !Overwritten(key, f, prior, key(row).value, data)
    ensures KeptBy(key, Put(f, f.rows[id := row], id, key(row).value, data))
  {
    AddedRowSlots(f, id, row);
    SwappedBackHolds(key, f, id, prior, row, data);
  }

  // The three row protocols.

  /** The bytes arrived although the row did not stay. */
  predicate AppliedAndUndone(end: Outcome) {
    end.Failed? && end.applied && end.undone
  }

  /** What a failed request leaves is a live row without bytes. */
  predicate LeavesLive(end: Outcome) {
    end.Failed? && !end.applied && !end.undone
  }

  lemma InsertKeeps(key: KeyRule, f: Files, id: Id, row: File, data: Bytes, end: Outcome)
    requires Apart(key, f.rows, row) && IgnoresFlags(key) && KeptBy(key, f)
    requires key(row).Some? && !row.deleted && row.createdAt == f.now
    requires InsertFile(f, id, row, key(row).value, data, end).1 == Some(UploadFailed) ==>
               !LeavesLive(end) && (AppliedAndUndone(end) ==> !Robs(key, f, key(row).value, data))
    ensures KeptBy(key, InsertFile(f, id, row, key(row).value, data, end).0)
  {
    TickKeeps(key, f);
    if id !in f.rows && !LiveInSlot(f.rows, row) {
      if end.Failed? && end.undone {
        StrayBytesKeepIff(key, f, id, key(row).value, data);
      } else {
        AddsRow(f.rows, id, row);
        PutKeeps(key, f, f.rows[id := row], id, row, data);
      }
    }
  }

  lemma DeletedRowKeeps(key: KeyRule, f: Files, id: Id, row: File, data: Bytes, applied: bool)
    requires Apart(key, f.rows, row) && IgnoresFlags(key) && KeptBy(key, f) && id !in f.rows
    requires key(row).Some? && row.createdAt == f.now && !LiveInSlot(f.rows, row)
    ensures KeptBy(key, Failing(f, f.rows[id := row.(deleted := true)], id, key(row).value, data, applied))
  {
    var left := row.(deleted := true);
    assert key(left) == key(row);
    if applied {
      AddsRow(f.rows, id, left);
      PutKeeps(key, f, f.rows[id := left], id, left, data);
    } else {
      LeftoverKeeps(key, f, id, row);
    }
  }

  lemma CreateKeeps(key: KeyRule, f: Files, id: Id, row: File, data: Bytes, end: Outcome)
    requires Apart(key, f.rows, row) && IgnoresFlags(key) && KeptBy(key, f)
    requires key(row).Some? && !row.deleted && row.createdAt == f.now
    requires Create(f, id, row, key(row).value, data, end).1 == Some(UploadFailed) ==> !LeavesLive(end)
    ensures KeptBy(key, Create(f, id, row, key(row).value, data, end).0)
  {
    TickKeeps(key, f);
    if id !in f.rows && !LiveInSlot(f.rows, row) {
      if end.Failed? && end.undone {
        DeletedRowKeeps(key, f, id, row, data, end.applied);
      } else {
        AddsRow(f.rows, id, row);
        PutKeeps(key, f, f.rows[id := row], id, row, data);
        assert row.(deleted := false) == row;
      }
    }
  }

  lemma UndoneSwapKeeps(key: KeyRule, f: Files, id: Id, prior: Id, row: File, data: Bytes, applied: bool)
    requires Apart(key, f.rows, row) && IgnoresFlags(key) && KeptBy(key, f) && id !in f.rows
    requires prior in f.rows && !f.rows[prior].deleted && SameSlot(f.rows[prior], row)
    requires key(row).Some? && row.createdAt == f.now
    requires applied ==> !Overwritten(key, f, prior, key(row).value, data)
    ensures KeptBy(key, Failing(f, f.rows[id := row.(deleted := true)], id, key(row).value, data, applied))
  {
    var left := row.(deleted := true);
    assert key(left) == key(row);
    FailingIs(f, f.rows[id := left], id, key(row).value, data);
    if applied {
      SwappedBackKeeps(key, f, id, prior, left, data);
    } else {
      LeftoverKeeps(key, f, id, row);
    }
  }

  lemma SwapKeeps(key: KeyRule, f: Files, id: Id, prior: Id, row: File, data: Bytes, end: Outcome)
    requires Apart(key, f.rows, row) && IgnoresFlags(key) && KeptBy(key, f)
    requires prior in f.rows && !f.rows[prior].deleted && SameSlot(f.rows[prior], row)
    requires key(row).Some? && !row.deleted && row.createdAt == f.now
    requires Swap(f, id, prior, row, key(row).value, data, end).1 == Some(UploadFailed) ==>
               !LeavesLive(end) && (AppliedAndUndone(end) ==> !Overwritten(key, f, prior, key(row).value, data))
    ensures KeptBy(key, Swap(f, id, prior, row, key(row).value, data, end).0)
  {
    TickKeeps(key, f);
    if id !in f.rows && !LiveInSlot(SetDeleted(f.rows, prior, true), row) {
      if end.Failed? && end.undone {
        UndoneSwap(f.rows, prior, id, row);
        UndoneSwapKeeps(key, f, id, prior, row, data, end.applied);
      } else {
        AddsSwapped(f.rows, prior, id, row);
        PutKeeps(key, f, Swapped(f.rows, prior, id, row), id, row, data);
      }
    }
  }

  /** The row of a validated write is new, live and has a key. */
  predicate Fits(key: KeyRule, f: Files, a: Action) {
    && (!a.Refused? ==> key(a.row) == Some(a.key) && !a.row.deleted && a.row.createdAt == f.now)
    && (a.Swapping? ==> a.prior in f.rows && !f.rows[a.prior].deleted && SameSlot(f.rows[a.prior], a.row))
  }

  /** The action, failed but applied and then undone, takes a row's bytes away: an
      upload those of any retrievable row of its key, a replacement those of the
      row it replaced. */
  predicate RobsAction(key: KeyRule, f: Files, a: Action, data: Bytes)
    requires Applies(f, a)
  {
    match a
    case Inserting(_, at) => Robs(key, f, at, data)
    case Swapping(prior, _, at) => Overwritten(key, f, prior, at, data)
    case _ => false
  }

  lemma ActKeeps(key: KeyRule, f: Files, id: Id, a: Action, data: Bytes, end: Outcome)
    requires IgnoresFlags(key) && KeptBy(key, f) && Fits(key, f, a)
    requires a.Refused? || Apart(key, f.rows, a.row)
    requires Act(f, id, a, data, end).1 == Some(UploadFailed) ==>
               !LeavesLive(end) && (AppliedAndUndone(end) ==> !RobsAction(key, f, a, data))
    ensures KeptBy(key, Act(f, id, a, data, end).0)
  {
    match a
    case Refused(_) => TickKeeps(key, f);
    case Inserting(row, _) => InsertKeeps(key, f, id, row, data, end);
    case Creating(row, _) => CreateKeeps(key, f, id, row, data, end);
    case Swapping(prior, row, _) => SwapKeeps(key, f, id, prior, row, data, end);
  }

  // ---------------------------------------------------------------------
  // Objects that are no files

  /** An object of a user's own: an annotation, or something in a private library. */
  datatype PrivateKey =
    | Annotation(org: string, arr: string, voice: string, user: string, file: string)
    | LibraryObject(user: string, rel: seq<string>)

  function ObjectKey(k: PrivateKey): string {
    match k
    case Annotation(org, arr, voice, user, file) => AnnotationKey(org, arr, voice, user, file)
    case LibraryObject(user, rel) => LibraryKey(user, rel)
  }

  /** Path segments hold no slash. */
  predicate FlatKey(k: PrivateKey) {
    k.Annotation? ==> Flat(k.org) && Flat(k.arr) && Flat(k.voice) && Flat(k.user) && Flat(k.file)
  }

  /** The object written, or removed. */
  function WithObject(f: Files, k: PrivateKey, data: Option<Bytes>): Files {
    f.(objects := if data.Some? then f.objects[ObjectKey(k) := data.value] else f.objects - {ObjectKey(k)})
  }

  lemma PrivateKeyIsNoFile(tree: Tree, row: File, k: PrivateKey)
    requires FlatTree(tree) && Located(tree, row) && FlatKey(k)
    ensures KeyOf(tree, row) != ObjectKey(k)
  {
    var p, ext := tree[Loc(row)], FormatAndExtForMime(row.mime).value.1;
    match k
    case Annotation(org, arr, voice, user, file) =>
      KeyFamiliesDisjoint(p.org, p.arr, p.voice, row.name, ext, org, arr, voice, user, file, "", []);
    case LibraryObject(user, rel) =>
      KeyFamiliesDisjoint(p.org, p.arr, p.voice, row.name, ext, "", "", "", "", "", user, rel);
  }

  /** Annotations and libraries leave every file its own bytes. */
  lemma PrivateWriteKeeps(tree: Tree, f: Files, k: PrivateKey, data: Option<Bytes>)
    requires FlatTree(tree) && Kept(tree, f) && FlatKey(k)
    ensures Kept(tree, WithObject(f, k, data))
  {
    var after := WithObject(f, k, data);
    forall id <- f.rows | Retrievable(after, id)
      ensures HoldsOwn(RuleOf(tree), after, id)
    {
      assert RuleOf(tree)(f.rows[id]).Some?;
      PrivateKeyIsNoFile(tree, f.rows[id], k);
      assert Retrievable(f, id) && HoldsOwn(RuleOf(tree), f, id);
    }
  }

  // ---------------------------------------------------------------------
  // Deleting and restoring

  lemma NewestWrittenIsLast(f: Files, id: Id)
    requires id in f.rows && id in f.written && NewestInSlot(f.rows, id)
    ensures LastWritten(f, id)
  {
  }

  lemma DeleteKeeps(key: KeyRule, f: Files, id: Id)
    requires IgnoresFlags(key) && KeptBy(key, f)
    ensures KeptBy(key, Delete(f, id).0)
  {
    TickKeeps(key, f);
    if id in f.rows {
      FlagKeeps(key, f, id, true);
    }
  }

  /** Reviving a row whose own bytes were stored keeps the invariant. */
  lemma UndeleteKeeps(key: KeyRule, f: Files, id: Id)
    requires IgnoresFlags(key) && KeptBy(key, f) && (Undelete(f, id).1 == None ==> !IsPhantom(f, id))
    ensures KeptBy(key, Undelete(f, id).0)
  {
    TickKeeps(key, f);
    if Undelete(f, id).1 == None {
      NewestWrittenIsLast(f, id);
      FlagKeeps(key, f, id, false);
    }
  }
}
