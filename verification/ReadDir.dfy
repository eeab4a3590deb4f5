/**
 * Building the reply to a directory listing: one entry is pushed for every row a
 * query returns, and no two of them share a name.
 */
module ReadDir {
  import opened Wrappers
  import opened FileName
  import opened Path
  import S = Schema
  import opened Access
  import opened Tree
  import opened Listings
  import opened Lockstep
  import opened Namespace
  import opened Leaves

  function Pushed(out: seq<Entry>): set<Entry> {
    set e <- out
  }

  /** No name is pushed twice. */
  predicate NamesOnce(out: seq<Entry>) {
    forall i, j :: 0 <= i < j < |out| ==> out[i].name != out[j].name
  }

  lemma PushedSnoc(out: seq<Entry>, e: Entry)
    ensures Pushed(out + [e]) == Pushed(out) + {e}
    ensures NamesOnce(out) && (forall f <- Pushed(out) :: f.name != e.name) ==> NamesOnce(out + [e])
  {
    assert forall x :: x in out + [e] <==> x in out || x == e;
    assert forall i :: 0 <= i < |out| ==> out[i] in Pushed(out);
  }

  // ---------------------------------------------------------------------
  // Entries by row

  /** Different rows have different names. */
  predicate NamedApart(rows: map<Id, Entry>) {
    forall a <- rows, b <- rows | rows[a].name == rows[b].name :: a == b
  }

  function OrgRows(db: Db, user: Id): map<Id, Entry> {
    map o <- VisibleOrgs(db, user) :: OrgEntry(db, o)
  }

  function ArrangementRows(db: Db, org: Id, user: Id, vis: Visibility): map<Id, Entry> {
    map a <- VisibleArrangements(db, org, user, vis) :: ArrEntry(db, a)
  }

  function VoiceRows(db: Db, arr: Id, user: Id, vis: Visibility): map<Id, Entry> {
    map v <- VisibleVoices(db, arr, user, vis) :: VoiceEntry(db, v)
  }

  function CollectionRows(db: Db, org: Id, user: Id, vis: Visibility): map<Id, Entry> {
    map c <- VisibleCollections(db, org, user, vis) :: CollEntry(db, c)
  }

  function ItemRows(db: Db, coll: Id, user: Id, vis: Visibility): map<Id, Entry> {
    map i <- VisibleItems(db, coll, user, vis) :: ItemEntry(db, i)
  }

  function ItemVoiceRows(db: Db, item: Id, arr: Id, user: Id, vis: Visibility): map<Id, Entry> {
    map v <- VisibleItemVoices(db, item, arr, user, vis) :: VoiceEntry(db, v)
  }

  /** Rows whose stored MIME type is unknown are skipped. */
  function FileEntryRows(w: World, org: string, arrSlug: string, voiceSlug: Option<string>, arr: Id, voice: Option<Id>)
    : map<Id, Entry>
  {
    map f <- FileRows(w.db, arr, voice) | FileEntry(w, org, arrSlug, voiceSlug, w.db.files[f]).Some? ::
      FileEntry(w, org, arrSlug, voiceSlug, w.db.files[f]).value
  }

  // Slugs tell rows apart, by the unique indexes.

  lemma OrgRowsNamedApart(db: Db, user: Id)
    requires S.OrgSlugUnique(db)
    ensures NamedApart(OrgRows(db, user))
    ensures OrgRows(db, user).Values == set o <- VisibleOrgs(db, user) :: OrgEntry(db, o)
  {
    forall o <- VisibleOrgs(db, user)
      ensures OrgEntry(db, o) in OrgRows(db, user).Values
    {
      assert OrgRows(db, user)[o] == OrgEntry(db, o);
    }
  }

  lemma ArrangementRowsNamedApart(db: Db, org: Id, user: Id, vis: Visibility)
    requires S.ArrangementSlugUnique(db)
    ensures NamedApart(ArrangementRows(db, org, user, vis))
    ensures ArrangementRows(db, org, user, vis).Values
         == set a <- VisibleArrangements(db, org, user, vis) :: ArrEntry(db, a)
  {
    forall a <- VisibleArrangements(db, org, user, vis)
      ensures ArrEntry(db, a) in ArrangementRows(db, org, user, vis).Values
    {
      assert ArrangementRows(db, org, user, vis)[a] == ArrEntry(db, a);
    }
  }

  lemma VoiceRowsNamedApart(db: Db, arr: Id, user: Id, vis: Visibility)
    requires S.VoiceSlugUnique(db)
    ensures NamedApart(VoiceRows(db, arr, user, vis))
    ensures VoiceRows(db, arr, user, vis).Values == set v <- VisibleVoices(db, arr, user, vis) :: VoiceEntry(db, v)
  {
    forall v <- VisibleVoices(db, arr, user, vis)
      ensures VoiceEntry(db, v) in VoiceRows(db, arr, user, vis).Values
    {
      assert VoiceRows(db, arr, user, vis)[v] == VoiceEntry(db, v);
    }
  }

  lemma CollectionRowsNamedApart(db: Db, org: Id, user: Id, vis: Visibility)
    requires S.CollectionSlugUnique(db)
    ensures NamedApart(CollectionRows(db, org, user, vis))
    ensures CollectionRows(db, org, user, vis).Values
         == set c <- VisibleCollections(db, org, user, vis) :: CollEntry(db, c)
  {
    forall c <- VisibleCollections(db, org, user, vis)
      ensures CollEntry(db, c) in CollectionRows(db, org, user, vis).Values
    {
      assert CollectionRows(db, org, user, vis)[c] == CollEntry(db, c);
    }
  }

  lemma ItemVoiceRowsNamedApart(db: Db, item: Id, arr: Id, user: Id, vis: Visibility)
    requires S.VoiceSlugUnique(db)
    ensures NamedApart(ItemVoiceRows(db, item, arr, user, vis))
    ensures ItemVoiceRows(db, item, arr, user, vis).Values
         == set v <- VisibleItemVoices(db, item, arr, user, vis) :: VoiceEntry(db, v)
  {
    forall v <- VisibleItemVoices(db, item, arr, user, vis)
      ensures VoiceEntry(db, v) in ItemVoiceRows(db, item, arr, user, vis).Values
    {
      assert ItemVoiceRows(db, item, arr, user, vis)[v] == VoiceEntry(db, v);
    }
  }

  /** Items are told apart by their numbers, whatever hyphens the slugs hold. */
  lemma ItemRowsNamedApart(db: Db, coll: Id, user: Id, vis: Visibility)
    requires S.ItemIndexUnique(db.items) && ItemShapes(db)
    ensures NamedApart(ItemRows(db, coll, user, vis))
    ensures ItemRows(db, coll, user, vis).Values == set i <- VisibleItems(db, coll, user, vis) :: ItemEntry(db, i)
  {
    forall i <- VisibleItems(db, coll, user, vis)
      ensures ItemEntry(db, i) in ItemRows(db, coll, user, vis).Values
    {
      assert ItemRows(db, coll, user, vis)[i] == ItemEntry(db, i);
    }
    var rows := ItemRows(db, coll, user, vis);
    forall a <- rows, b <- rows | rows[a].name == rows[b].name
      ensures a == b
    {
      ItemSegmentRoundTrip(db.items[a].index, db.arrangements[db.items[a].arr].slug);
      ItemSegmentRoundTrip(db.items[b].index, db.arrangements[db.items[b].arr].slug);
    }
  }

  /** Files are told apart by stem and format, by the live-slot indexes. */
  lemma FileRowsNamedApart(w: World, org: string, arrSlug: string, voiceSlug: Option<string>, arr: Id,
                           voice: Option<Id>)
    requires S.FileSlotUnique(w.db) && S.FileShapes(w.db.files)
    ensures NamedApart(FileEntryRows(w, org, arrSlug, voiceSlug, arr, voice))
  {
    var rows := FileEntryRows(w, org, arrSlug, voiceSlug, arr, voice);
    forall a <- rows, b <- rows | rows[a].name == rows[b].name
      ensures a == b
    {
      RowNameSlot(w, org, arrSlug, voiceSlug, w.db.files[a]);
      RowNameSlot(w, org, arrSlug, voiceSlug, w.db.files[b]);
    }
  }

  // ---------------------------------------------------------------------
  // Pushing

  /** One entry for every row, in whatever order the query returns them. */
  method PushRows(rows: map<Id, Entry>) returns (out: seq<Entry>)
    requires NamedApart(rows)
    ensures |out| == |rows.Keys| && NamesOnce(out) && Pushed(out) == rows.Values
  {
    out := [];
    var todo := rows.Keys;
    while todo != {}
      invariant todo <= rows.Keys && |out| == |rows.Keys| - |todo| && NamesOnce(out)
      invariant forall e :: e in Pushed(out) <==> exists i <- rows.Keys - todo :: rows[i] == e
      decreases |todo|
    {
      var i :| i in todo;
      PushedSnoc(out, rows[i]);
      out := out + [rows[i]];
      todo := todo - {i};
    }
  }

  /** One directory for every prefix the store returns. */
  method PushPrefixes(prefixes: set<string>) returns (out: seq<Entry>)
    ensures |out| == |prefixes| && Pushed(out) == set d <- prefixes :: DirEntry(Basename(d))
  {
    out := [];
    var todo := prefixes;
    while todo != {}
      invariant todo <= prefixes && |out| == |prefixes| - |todo|
      invariant Pushed(out) == set d <- prefixes - todo :: DirEntry(Basename(d))
      decreases |todo|
    {
      var d :| d in todo;
      PushedSnoc(out, DirEntry(Basename(d)));
      out := out + [DirEntry(Basename(d))];
      todo := todo - {d};
    }
  }

  /** One leaf for every object the store returns. */
  method PushObjects(w: World, before: seq<Entry>, keys: set<string>) returns (out: seq<Entry>)
    ensures |out| == |before| + |keys| && Pushed(out) == Pushed(before) + set k <- keys :: ObjectEntry(w, k)
  {
    out := before;
    var todo := keys;
    while todo != {}
      invariant todo <= keys && |out| == |before| + |keys| - |todo|
      invariant Pushed(out) == Pushed(before) + set k <- keys - todo :: ObjectEntry(w, k)
      decreases |todo|
    {
      var k :| k in todo;
      PushedSnoc(out, ObjectEntry(w, k));
      out := out + [ObjectEntry(w, k)];
      todo := todo - {k};
    }
  }

  /** Two fixed names. */
  method PushTwo(a: string, b: string) returns (out: seq<Entry>)
    requires a != b
    ensures NamesOnce(out) && Pushed(out) == {DirEntry(a), DirEntry(b)}
  {
    out := [DirEntry(a), DirEntry(b)];
    assert forall e :: e in out <==> e == DirEntry(a) || e == DirEntry(b);
  }

  method PushOne(a: string) returns (out: seq<Entry>)
    ensures NamesOnce(out) && Pushed(out) == {DirEntry(a)}
  {
    out := [DirEntry(a)];
    assert forall e :: e in out <==> e == DirEntry(a);
  }

  /** `score` for staff, then `voices`. */
  method PushPiece(vis: Visibility) returns (out: seq<Entry>)
    ensures NamesOnce(out) && Pushed(out) == PieceEntries(vis)
  {
    assert "score"[0] != "voices"[0];
    if vis.IsStaff() {
      out := PushTwo("score", "voices");
    } else {
      out := PushOne("voices");
    }
  }

  method PushFiles(w: World, org: string, arrSlug: string, voiceSlug: Option<string>, arr: Id, voice: Option<Id>)
    returns (out: seq<Entry>)
    requires S.FileSlotUnique(w.db) && S.FileShapes(w.db.files)
    ensures |out| == |FileRows(w.db, arr, voice)|
    ensures NamesOnce(out) && Pushed(out) == FileEntries(w, org, arrSlug, voiceSlug, arr, voice)
  {
    FileRowsNamedApart(w, org, arrSlug, voiceSlug, arr, voice);
    forall f <- FileRows(w.db, arr, voice)
      ensures FileEntry(w, org, arrSlug, voiceSlug, w.db.files[f]).Some?
    {
      RowNameSlot(w, org, arrSlug, voiceSlug, w.db.files[f]);
    }
    assert FileEntryRows(w, org, arrSlug, voiceSlug, arr, voice).Keys == FileRows(w.db, arr, voice);
    out := PushRows(FileEntryRows(w, org, arrSlug, voiceSlug, arr, voice));
  }

  // ---------------------------------------------------------------------
  // One method per kind of directory

  /** The names pushed are the directory's, each once, and errors are the same. */
  predicate Replies(r: FsResult<seq<Entry>>, spec: FsResult<set<Entry>>) {
    match spec
    case Err(e) => r == Err(e)
    case Ok(entries) => r.Ok? && NamesOnce(r.value) && Pushed(r.value) == entries
  }

  /** As many entries as the store returned keys. In the object store a name can be
      an object and a prefix at once. */
  predicate RepliesKeys(r: FsResult<seq<Entry>>, spec: FsResult<set<Entry>>, keys: nat) {
    match spec
    case Err(e) => r == Err(e)
    case Ok(entries) => r.Ok? && |r.value| == keys && Pushed(r.value) == entries
  }

  method ReplyOrg(db: Db, org: string) returns (r: FsResult<seq<Entry>>)
    requires S.OrgSlugUnique(db)
    ensures Replies(r, ListOrg(db, org))
  {
    if FindOrgId(db, org).None? {
      return Err(NotFound);
    }
    assert "arrangements"[0] != "collections"[0];
    var out := PushTwo("arrangements", "collections");
    return Ok(out);
  }

  method ReplyOrgs(db: Db, user: Id) returns (r: FsResult<seq<Entry>>)
    requires S.OrgSlugUnique(db)
    ensures Replies(r, Ok(ListOrgs(db, user)))
  {
    OrgRowsNamedApart(db, user);
    var out := PushRows(OrgRows(db, user));
    return Ok(out);
  }

  method ReplyArrangements(db: Db, user: Id, org: string) returns (r: FsResult<seq<Entry>>)
    requires S.OrgSlugUnique(db) && S.ArrangementSlugUnique(db)
    ensures Replies(r, ListArrangements(db, user, org))
  {
    var found := ResolveOrgVisibility(db, org, user);
    if found.None? {
      return Err(NotFound);
    }
    ArrangementRowsNamedApart(db, found.value.0, user, found.value.1);
    var out := PushRows(ArrangementRows(db, found.value.0, user, found.value.1));
    return Ok(out);
  }

  method ReplyArrangement(db: Db, user: Id, org: string, arr: string) returns (r: FsResult<seq<Entry>>)
    requires S.OrgSlugUnique(db) && S.ArrangementSlugUnique(db)
    ensures Replies(r, ListArrangement(db, user, org, arr))
  {
    var place := ResolveArr(db, user, org, arr);
    if place.Err? {
      return Err(place.error);
    }
    var out := PushPiece(place.value.2);
    return Ok(out);
  }

  method ReplyScore(w: World, user: Id, org: string, arr: string) returns (r: FsResult<seq<Entry>>)
    requires S.OrgSlugUnique(w.db) && S.ArrangementSlugUnique(w.db)
    requires S.FileSlotUnique(w.db) && S.FileShapes(w.db.files)
    ensures Replies(r, ListScore(w, user, org, arr))
  {
    var place := ResolveArr(w.db, user, org, arr);
    if place.Err? {
      return Err(place.error);
    }
    if !place.value.2.IsStaff() {
      return Err(NotFound);
    }
    var out := PushFiles(w, org, arr, None, place.value.1, None);
    return Ok(out);
  }

  method ReplyVoices(db: Db, user: Id, org: string, arr: string) returns (r: FsResult<seq<Entry>>)
    requires S.OrgSlugUnique(db) && S.ArrangementSlugUnique(db) && S.VoiceSlugUnique(db)
    ensures Replies(r, ListVoices(db, user, org, arr))
  {
    var place := ResolveArr(db, user, org, arr);
    if place.Err? {
      return Err(place.error);
    }
    VoiceRowsNamedApart(db, place.value.1, user, place.value.2);
    var out := PushRows(VoiceRows(db, place.value.1, user, place.value.2));
    return Ok(out);
  }

  /** The files of a voice, then its annotations; no file name is `annotations`. */
  method PushVoice(w: World, org: string, arr: string, voice: string, arrId: Id, voiceId: Id) returns (out: seq<Entry>)
    requires S.FileSlotUnique(w.db) && S.FileShapes(w.db.files)
    ensures NamesOnce(out)
    ensures Pushed(out) == FileEntries(w, org, arr, Some(voice), arrId, Some(voiceId)) + {DirEntry("annotations")}
  {
    out := PushFiles(w, org, arr, Some(voice), arrId, Some(voiceId));
    forall e <- Pushed(out)
      ensures e.name != "annotations"
    {
      FileNameIsReserved(w, org, arr, Some(voice), arrId, Some(voiceId), e);
    }
    PushedSnoc(out, DirEntry("annotations"));
    out := out + [DirEntry("annotations")];
  }

  lemma FileNameIsReserved(w: World, org: string, arrSlug: string, voiceSlug: Option<string>, arr: Id,
                           voice: Option<Id>, e: Entry)
    requires S.FileShapes(w.db.files) && e in FileEntries(w, org, arrSlug, voiceSlug, arr, voice)
    ensures e.name != "annotations"
  {
    var f :| f in FileRows(w.db, arr, voice) && FileEntry(w, org, arrSlug, voiceSlug, w.db.files[f]) == Some(e);
    DottedNameIsSafe(w.db.files[f].name, FormatAndExtForMime(w.db.files[f].mime).value.1);
  }

  method ReplyVoice(w: World, user: Id, org: string, arr: string, voice: string) returns (r: FsResult<seq<Entry>>)
    requires S.OrgSlugUnique(w.db) && S.ArrangementSlugUnique(w.db) && S.VoiceSlugUnique(w.db)
    requires S.FileSlotUnique(w.db) && S.FileShapes(w.db.files)
    ensures Replies(r, ListVoice(w, user, org, arr, voice))
  {
    var place := ResolveVoice(w.db, user, org, arr, voice);
    if place.Err? {
      return Err(place.error);
    }
    var out := PushVoice(w, org, arr, voice, place.value.1, place.value.2);
    return Ok(out);
  }

  method ReplyCollections(db: Db, user: Id, org: string) returns (r: FsResult<seq<Entry>>)
    requires S.OrgSlugUnique(db) && S.CollectionSlugUnique(db)
    ensures Replies(r, ListCollections(db, user, org))
  {
    var found := ResolveOrgVisibility(db, org, user);
    if found.None? {
      return Err(NotFound);
    }
    CollectionRowsNamedApart(db, found.value.0, user, found.value.1);
    var out := PushRows(CollectionRows(db, found.value.0, user, found.value.1));
    return Ok(out);
  }

  method ReplyCollection(db: Db, user: Id, org: string, coll: string) returns (r: FsResult<seq<Entry>>)
    requires S.OrgSlugUnique(db) && S.CollectionSlugUnique(db) && S.ItemIndexUnique(db.items) && ItemShapes(db)
    ensures Replies(r, ListCollection(db, user, org, coll))
  {
    var place := ResolveCollection(db, user, org, coll);
    if place.Err? {
      return Err(place.error);
    }
    ItemRowsNamedApart(db, place.value.1, user, place.value.2);
    var out := PushRows(ItemRows(db, place.value.1, user, place.value.2));
    return Ok(out);
  }

  method ReplyItem(db: Db, user: Id, org: string, coll: string, index: int, arrSlug: string)
    returns (r: FsResult<seq<Entry>>)
    requires S.OrgSlugUnique(db) && S.CollectionSlugUnique(db) && S.ItemIndexUnique(db.items)
    ensures Replies(r, ListItem(db, user, org, coll, index, arrSlug))
  {
    var place := ResolveCollectionItem(db, user, org, coll, index, arrSlug);
    if place.Err? {
      return Err(place.error);
    }
    var out := PushPiece(place.value.vis);
    return Ok(out);
  }

  method ReplyItemScore(w: World, user: Id, org: string, coll: string, index: int, arrSlug: string)
    returns (r: FsResult<seq<Entry>>)
    requires S.OrgSlugUnique(w.db) && S.CollectionSlugUnique(w.db) && S.ItemIndexUnique(w.db.items)
    requires S.FileSlotUnique(w.db) && S.FileShapes(w.db.files)
    ensures Replies(r, ListItemScore(w, user, org, coll, index, arrSlug))
  {
    var place := ResolveCollectionItem(w.db, user, org, coll, index, arrSlug);
    if place.Err? {
      return Err(place.error);
    }
    if !place.value.vis.IsStaff() {
      return Err(NotFound);
    }
    var out := PushFiles(w, org, place.value.arrSlug, None, place.value.arr, None);
    return Ok(out);
  }

  method ReplyItemVoices(db: Db, user: Id, org: string, coll: string, index: int, arrSlug: string)
    returns (r: FsResult<seq<Entry>>)
    requires S.OrgSlugUnique(db) && S.CollectionSlugUnique(db) && S.ItemIndexUnique(db.items) && S.VoiceSlugUnique(db)
    ensures Replies(r, ListItemVoices(db, user, org, coll, index, arrSlug))
  {
    var place := ResolveCollectionItem(db, user, org, coll, index, arrSlug);
    if place.Err? {
      return Err(place.error);
    }
    var at := place.value;
    ItemVoiceRowsNamedApart(db, at.item, at.arr, user, at.vis);
    var out := PushRows(ItemVoiceRows(db, at.item, at.arr, user, at.vis));
    return Ok(out);
  }

  method ReplyItemVoice(w: World, user: Id, org: string, coll: string, index: int, arrSlug: string, voice: string)
    returns (r: FsResult<seq<Entry>>)
    requires S.OrgSlugUnique(w.db) && S.CollectionSlugUnique(w.db) && S.ItemIndexUnique(w.db.items)
    requires S.VoiceSlugUnique(w.db) && S.FileSlotUnique(w.db) && S.FileShapes(w.db.files)
    ensures Replies(r, ListItemVoice(w, user, org, coll, index, arrSlug, voice))
  {
    var found := ResolveCollectionVoice(w.db, user, org, coll, index, arrSlug, voice);
    if found.Err? {
      return Err(found.error);
    }
    var out := PushFiles(w, org, found.value.0.arrSlug, Some(voice), found.value.0.arr, Some(found.value.1));
    return Ok(out);
  }

  // Directories of the object store.

  method ReplyAnnotations(w: World, user: Id, org: string, arr: string, voice: string) returns (r: FsResult<seq<Entry>>)
    requires S.OrgSlugUnique(w.db) && S.ArrangementSlugUnique(w.db) && S.VoiceSlugUnique(w.db)
    ensures RepliesKeys(r, ListAnnotations(w, user, org, arr, voice),
                        |CommonPrefixes(w, AnnotationsPrefix(org, arr, voice))|)
  {
    var place := ResolveVoice(w.db, user, org, arr, voice);
    if place.Err? {
      return Err(place.error);
    }
    var out := PushPrefixes(CommonPrefixes(w, AnnotationsPrefix(org, arr, voice)));
    return Ok(out);
  }

  method ReplyUserAnnotations(w: World, user: Id, org: string, arr: string, voice: string, author: string)
    returns (r: FsResult<seq<Entry>>)
    requires S.OrgSlugUnique(w.db) && S.ArrangementSlugUnique(w.db) && S.VoiceSlugUnique(w.db)
    ensures RepliesKeys(r, ListUserAnnotations(w, user, org, arr, voice, author),
                        |ChildObjects(w, AnnotationsPrefix(org, arr, voice) + author + "/")|)
  {
    var place := ResolveVoice(w.db, user, org, arr, voice);
    if place.Err? {
      return Err(place.error);
    }
    var out := PushObjects(w, [], ChildObjects(w, AnnotationsPrefix(org, arr, voice) + author + "/"));
    return Ok(out);
  }

  method ReplyLibrary(w: World, u: User, user: string, prefix: string) returns (r: FsResult<seq<Entry>>)
    ensures RepliesKeys(r, ListLibrary(w, u, user, prefix), |CommonPrefixes(w, prefix)| + |ChildObjects(w, prefix)|)
  {
    if user != u.slug {
      return Err(NotFound);
    }
    var out := PushPrefixes(CommonPrefixes(w, prefix));
    out := PushObjects(w, out, ChildObjects(w, prefix));
    return Ok(out);
  }

  /** A directory whose entries are keys of the object store. */
  predicate OverKeys(p: ResolvedPath) {
    p.AnnotationsDir? || p.AnnotationsUserDir? || p.LibraryRoot? || p.LibraryEntry?
  }

  method ListKeys(w: World, u: User, p: ResolvedPath) returns (r: FsResult<seq<Entry>>)
    requires S.Lookups(w.db) && OverKeys(p)
    ensures match ListDir(w, u, p) case Err(e) => r == Err(e) case Ok(entries) => r.Ok? && Pushed(r.value) == entries
  {
    match p
    case AnnotationsDir(org, arr, voice) => r := ReplyAnnotations(w, u.id, org, arr, voice);
    case AnnotationsUserDir(org, arr, voice, user) => r := ReplyUserAnnotations(w, u.id, org, arr, voice, user);
    case LibraryRoot(user) => r := ReplyLibrary(w, u, user, LibraryRootPrefix(user));
    case LibraryEntry(user, rel) => r := ReplyLibrary(w, u, user, LibraryKey(user, rel) + "/");
  }

  method ListArrangementTree(w: World, u: User, p: ResolvedPath) returns (r: FsResult<seq<Entry>>)
    requires S.Lookups(w.db) && S.FileShapes(w.db.files)
    requires p.ArrangementsRoot? || p.Arrangement? || p.ScoreDir? || p.VoicesDir? || p.Voice?
    ensures Replies(r, ListDir(w, u, p))
  {
    match p
    case ArrangementsRoot(org) => r := ReplyArrangements(w.db, u.id, org);
    case Arrangement(org, arr) => r := ReplyArrangement(w.db, u.id, org, arr);
    case ScoreDir(org, arr) => r := ReplyScore(w, u.id, org, arr);
    case VoicesDir(org, arr) => r := ReplyVoices(w.db, u.id, org, arr);
    case Voice(org, arr, voice) => r := ReplyVoice(w, u.id, org, arr, voice);
  }

  method ListCollectionTree(w: World, u: User, p: ResolvedPath) returns (r: FsResult<seq<Entry>>)
    requires S.Lookups(w.db) && S.FileShapes(w.db.files) && ItemShapes(w.db)
    requires p.CollectionsRoot? || p.Collection? || p.CollectionItemDir? || p.CollectionScoreDir?
             || p.CollectionVoicesDir? || p.CollectionVoice?
    ensures Replies(r, ListDir(w, u, p))
  {
    match p
    case CollectionsRoot(org) => r := ReplyCollections(w.db, u.id, org);
    case Collection(org, coll) => r := ReplyCollection(w.db, u.id, org, coll);
    case CollectionItemDir(org, coll, index, arrSlug) => r := ReplyItem(w.db, u.id, org, coll, index, arrSlug);
    case CollectionScoreDir(org, coll, index, arrSlug) => r := ReplyItemScore(w, u.id, org, coll, index, arrSlug);
    case CollectionVoicesDir(org, coll, index, arrSlug) => r := ReplyItemVoices(w.db, u.id, org, coll, index, arrSlug);
    case CollectionVoice(org, coll, index, arrSlug, voice) =>
      r := ReplyItemVoice(w, u.id, org, coll, index, arrSlug, voice);
  }

  /** The roots, the users' homes, and files, which are no directories. */
  method ListRoots(w: World, u: User, p: ResolvedPath) returns (r: FsResult<seq<Entry>>)
    requires S.Lookups(w.db) && !InOrgTree(p) && !OverKeys(p)
    ensures Replies(r, ListDir(w, u, p))
  {
    match p
    case Root =>
      assert "orgs"[0] != "users"[0];
      var out := PushTwo("orgs", "users");
      r := Ok(out);
    case OrgsRoot => r := ReplyOrgs(w.db, u.id);
    case Org(org) => r := ReplyOrg(w.db, org);
    case UsersRoot =>
      var out := PushOne(u.slug);
      r := Ok(out);
    case UserHome(user) =>
      if user != u.slug {
        return Err(NotFound);
      }
      var out := PushOne("library");
      r := Ok(out);
    case _ => r := Err(Forbidden);
  }

  /** `list`: in the relational tree every row is pushed once, under a name of its
      own; in the object store every key is. */
  method List(w: World, u: User, p: ResolvedPath) returns (r: FsResult<seq<Entry>>)
    requires S.Valid(w.db)
    ensures !OverKeys(p) ==> Replies(r, ListDir(w, u, p))
    ensures match ListDir(w, u, p) case Err(e) => r == Err(e) case Ok(entries) => r.Ok? && Pushed(r.value) == entries
  {
    ShapesAreNameable(w.db);
    if OverKeys(p) {
      r := ListKeys(w, u, p);
    } else if p.ArrangementsRoot? || p.Arrangement? || p.ScoreDir? || p.VoicesDir? || p.Voice? {
      r := ListArrangementTree(w, u, p);
    } else if InOrgTree(p) {
      r := ListCollectionTree(w, u, p);
    } else {
      r := ListRoots(w, u, p);
    }
  }

  /** Two entries of a directory never share a name: the name's child has one `stat`. */
  lemma NamesListedOnce(w: World, u: User, dir: ResolvedPath, e: Entry, f: Entry)
    requires S.Sound(w.db) && WellFormed(dir) && InOrgTree(dir)
    requires Listed(w, u, dir, e) && Listed(w, u, dir, f) && e.name == f.name
    ensures e == f
  {
    EntryStats(w, u, dir, e);
    EntryStats(w, u, dir, f);
  }

  lemma EntryStats(w: World, u: User, dir: ResolvedPath, e: Entry)
    requires S.Sound(w.db) && WellFormed(dir) && InOrgTree(dir) && Listed(w, u, dir, e)
    ensures Child(dir, e.name).Some? && Child(dir, e.name).value.IsCollection() == e.meta.Dir?
    ensures e.meta.Leaf? ==> Stat(w, u, Child(dir, e.name).value) == Ok(e.meta)
  {
    if e.meta.Leaf? {
      ListedFilesOpen(w, u, dir, e);
    } else {
      assert e == DirEntry(e.name);
      DirectoriesAgree(w, u, dir, e.name);
    }
  }
}
