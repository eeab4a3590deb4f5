# Lied: verified models of the domain and WebDAV layers

Lied keeps the sheet music of orchestras: organizations own arrangements with voices and files, and
collections (programmes) whose items are arrangements, with one musician assigned to each voice of each item.
A read/write WebDAV tree shows all of it, filtered per user. This project models that logic in Dafny and proves
what the repository's comments and tests promise of it.

The relational state is one value of type `Schema.Db`: a map per table, with the foreign keys and unique
indexes of `migrations/*.sql` on these tables as predicates, except the unique indexes of `tag` and
`arrangement_tag`. Ids are naturals, uuid order is number order, timestamps are
naturals. Queries are predicates and set comprehensions, written with the joins and soft-delete conditions of
each statement; objects that change their rows step by step are classes with methods proved against functions
of the old state.

| files | what they hold |
|---|---|
| `Text`, `Slug`, `FileName`, `FileTypes`, `Path` | splitting and decimals, `slugify`, MIME tables, file names, what shares a slot, object keys, WebDAV paths |
| `Schema`, `Access`, `Tree`, `Listings`, `ReadDir` | tables and constraints, visibility queries, `stat` and opening, directory contents, the listing loop |
| `Permissions`, `Decisions`, `ObjectDirs` | who may see what, said on the rows; every path's answer against that; directories of the object store |
| `Lockstep`, `Namespace`, `PathAliases`, `Leaves`, `Reach` | agreement of listings, lookups and reads; names that are not listed; what a restricted user's tree holds |
| `Ordering`, `ItemTable`, `Undo`, `Append` | running orders as sequences, the item table under its unique indexes, remove and restore as inverses, appending |
| `FileSlots`, `FileDecisions`, `FileStore`, `Storage` | file rows and objects, what a write accepts, the services that change them, the multipart upload |
| `Places`, `SlugReuse`, `FileRuns` | where files live, slugs used again, runs of the whole library |
| `FileHazards`, `TwinRun`, `FileUndelete` | exactly which of their calls make a file serve foreign bytes, a run that does, what `undelete` answers |
| `ReadBack` | from a listed file to the bytes of its own upload |
| `Assignments`, `Cascade`, `History`, `Reachable` | part assignments, deleting an organization, runs of the whole system |
| `Coverage`, `CoverageAgreement`, `QueryResults`, `Programme` | the coverage reports, their two queries, that these have results, and the report against the tree |
| `Filters` | `filter[field]=value` parameters |

## What the proofs found

- **Listed or only reachable.** The index of an item segment is read by Rust's integer parser, so `01-bolero`
  and `+1-bolero` also name the item listed as `1-bolero`; every listed item has such names
  (`PathAliases.EveryItemHasUnlistedNames`, and `PathAliases.UnlistedNamesStat` for one state). A directory name
  is listed exactly when its child stats and the name is the child's printed form
  (`Namespace.DirectoriesAgree`).
- **A restorable item that does not restore.** The console's "append" takes the highest live number plus one
  without checking it against `MAX_INDEX`. Once 999,999 is taken it hands out 1,000,000, the parking offset, and
  then every restore in that collection fails with a duplicate index until a reorder or a removal renumbers it
  (`Append.AppendThenRestore`, `Undo.AppendBlocksRestoreIff`, `Append.RemovalUnblocksRestore`). One append
  further the number can be the offset above another's. Then parking collides, or not, depending on the order in
  which the statement visits the rows: with 1 and 999,999 live, two appends make a reorder fail in one order and
  pass in another (`Append.AppendTwiceThenReorder`). For positive numbers and at most 1,000,000 pieces, a reorder
  or a removal goes through exactly when that order is safe, and a restore when moreover the offset is free
  (`ItemTable.Table.Reorder`, `.Remove`, `.Restore`); every order is safe exactly for a parkable table
  (`ItemTable.EveryOrderSafeIff`).
- **Three ways to foreign bytes, and no fourth among these calls** (`FileHazards.OnlyHazards`). After a run
  without any of them, a call is safe, whatever clean calls follow and then whatever calls that write no file,
  exactly when it is none of the three. One call at a time is assumed.
- **Rows left behind.** After a failed replacement, or a failed WebDAV create, the compensation leaves a
  soft-deleted row that is newest in its slot and has no bytes. `undelete` lets it pass, and refuses the
  original as superseded (`FileHazards.FailedSwapStrands`, `FileHazards.FailedCreateStrands`). When the
  compensation fails too, the new row stays live. The comment on `store_replacement` expects no live row then,
  but the new one is, it serves the bytes of the row it replaced, and that row can no longer be restored
  (`FileHazards.UncompensatedReplacementServesOldBytes`). While the original is live only the unique index stops
  a leftover; `undelete`'s comment expects that index to answer in the ordinary replaced case, but there the
  newer-sibling guard answers first (`FileUndelete.UndeleteIff`).
- **Failed, but stored.** The answer to the completing request can be lost after the store carried it out
  (`Storage.StoresUnreported`). The rows are compensated, the object is not: after a replacement the original
  serves the new bytes at once, and after an upload a deleted row of the same key serves them once restored,
  unless they are the same bytes (`FileSlots.RobsAction`, `FileHazards.FailedWriteIsTheOnlyCause`).
- **Slugs used again.** Object keys follow slugs, and a soft delete sets a slug free while the files keep their
  keys. Live places never share slugs (`Places.ValidPlacesAreApart`), but if an arrangement or a voice is created
  or restored under the slugs of another that has files, a later upload overwrites those. `SlugReuse.Reuses` is
  that condition, read off the tables before the call. `TwinRun.RestoredTwinServesForeignBytes` is a run of eight
  successful calls that ends with one arrangement serving the bytes of another.
- **A listed organization can hold nothing.** `/orgs` asks less of an assignment than the two directories below
  it do (`Reach.ListedOrgCanBeEmpty`, `Reach.GuestOrgHoldsSomething`).
- **`%+F` decodes to a byte**, because the hexadecimal parser takes a sign (`Filters.DecodesAsStandardIff`).

## Model

| member | source | states |
|---|---|---|
| `Slug.SlugifyLoop` | lied/src/domain/user.rs:65-84 | the pass with its flag and the final popping compute exactly the input's maximal runs of ASCII letters and digits, lowercased, with one hyphen between each two, or `user` if there are none |
| `Slug.SlugifyIsSlug` | lied/src/domain/user.rs:65-84 | a slug is never empty, holds only lowercase letters, digits and single inner hyphens |
| `Slug.SlugifyFixedPoints` | lied/src/domain/user.rs:65-84 | the strings `slugify` leaves alone are exactly the slugs |
| `Slug.SlugifyIdempotent` | lied/src/domain/user.rs:65-84 | slugifying twice is slugifying once |
| `Slug.SlugIsSegment` | lied/src/domain/user.rs:65-84 | a slug holds no slash and no dot, so it is one path segment and one key component |
| `FileName.TablesAgree` | lied/src/domain/file.rs:69-109 | the extension printed for any storable MIME type leads back through the other table to the same format and canonical extension |
| `FileName.ExtensionsAreStorable` | lied/src/domain/file.rs:94-109 | every extension a client may name is a storable type |
| `FileTypes.StoredTypes` | lied/src/domain/file.rs:69-88 | the eleven accepted types, aliases included, each with the extension its files are listed under |
| `FileTypes.NamedExtensions` | lied/src/domain/file.rs:94-109 | the eleven extensions a client may name, each with the one its files are listed under |
| `FileTypes.SharedFormatIff` | lied/src/domain/file.rs:69-88 | two accepted types share a format exactly when both are image types or their files are listed under one extension |
| `FileTypes.SameSlotIff` | lied/src/domain/file.rs:94-142 | two file names of one place address one slot exactly when they have one stem and are listed under one extension or are both images |
| `FileTypes.ScoresAreApart` | lied/src/domain/file.rs:69-142 | the PDF, the MusicXML and the LilyPond file of one stem are three slots |
| `FileTypes.ParametersDoNotMatter` | lied/src/domain/file.rs:73-76 | parameters, letter case and surrounding whitespace of a MIME type do not matter |
| `FileTypes.StemOfPath` | lied/src/domain/file.rs:126-134 | whatever path a client sends, with slashes or backslashes, the stored name is the stem of its last component without surrounding whitespace |
| `FileName.NameStem` | lied/src/domain/file.rs:126-134 | a stored name is not empty, has no slash or backslash and no surrounding whitespace |
| `FileName.FileNameRoundTrip` | lied/src/domain/file.rs:113-142 | splitting a listed name at its last dot gives back the stored name, whatever dots it holds, and its format and extension |
| `FileName.DerivedKeySegments` | lied/src/domain/file.rs:146-161 | the components of a derived key, for voice files and full scores |
| `FileName.DerivedKeyInjective` | lied/src/domain/file.rs:146-161 | two keys are equal exactly when organization, arrangement, voice or its absence, name and extension are |
| `FileName.KeyFamiliesDisjoint` | lied/src/webdav/fs.rs:770-776 | stored files, personal annotations and private libraries never share an object |
| `ObjectDirs.FilePathIsKey` | lied/src/domain/file.rs:146-161 | the WebDAV path of a voice file or a full score is its object key |
| `ObjectDirs.AnnotationPathIsKey` | lied/src/webdav/fs.rs:770-772 | likewise for annotations |
| `ObjectDirs.LibraryPathIsKey` | lied/src/webdav/fs.rs:774-776 | likewise for private libraries |
| `Path.ItemSegmentRoundTrip` | lied/src/webdav/path.rs:33-42 | a printed item segment parses to its index and slug, hyphens in the slug included |
| `Path.NegativeIndexUnparsed` | lied/src/webdav/path.rs:33-42 | a negative index never parses |
| `Path.ParsePrint` | lied/src/webdav/path.rs:184-350 | every well-formed node, printed, parses back to itself |
| `Path.ParseWellFormed` | lied/src/webdav/path.rs:184-350 | every parsed path is well formed: `annotations` is no file name, indexes fit 32 bits, no dot segments |
| `Path.PrintIsNormalForm` | lied/src/webdav/path.rs:184-350 | printing is a normal form: two paths name one node exactly when they print alike |
| `Lockstep.ArrangementsLockstep` | lied/src/webdav/access.rs:93-157 | the arrangement query lists a slug exactly when resolving it, with its own query, succeeds |
| `Lockstep.VoicesLockstep` | lied/src/webdav/fs.rs:185-268 | the same for the voices of an arrangement |
| `Lockstep.CollectionsLockstep` | lied/src/webdav/access.rs:197-328 | the same for the collections of an organization |
| `Lockstep.ItemsLockstep` | lied/src/webdav/access.rs:229-382 | the same for the items of a collection, named by index and slug |
| `Lockstep.ItemVoicesLockstep` | lied/src/webdav/fs.rs:404-476 | the same for the voices of an item |
| `Lockstep.VisibleCollectionIff` | lied/src/webdav/access.rs:197-328 | the listing's joined query and the boolean check agree on every live collection |
| `Lockstep.VisibleItemIff` | lied/src/webdav/access.rs:229-382 | and on every live item of a live arrangement |
| `Lockstep.SkippedItemChecksAreImplied` | lied/src/webdav/fs.rs:296-396 | resolving an item with the collection's assignment check skipped gives the same answer, place or error, as with it |
| `Lockstep.SkippedVoiceChecksAreImplied` | lied/src/webdav/fs.rs:342-432 | resolving an item's voice with both ancestor checks skipped gives the same answer as with them |
| `Namespace.DirectoriesAgree` | lied/src/webdav/fs.rs:526-1008 | in every state the constraints and row shapes allow, for every user, every directory below an organization's two roots and every name: listed as a directory exactly when the name is the printed form of a child directory whose `stat` succeeds |
| `Namespace.ListsExactlyWhenItStats` | lied/src/webdav/fs.rs:526-1008 | any directory can be read exactly when it stats, and then it stats as a directory |
| `Decisions.StatDecided` | lied/src/webdav/fs.rs:526-700 | in every state the constraints allow, every path can be looked up by every user exactly when the rows and the membership table say so: staff see what is live, everyone else what they are assigned to play, nobody else's library |
| `Decisions.OpenDecided` | lied/src/webdav/fs.rs:1288-1358 | a file opens for reading exactly for those who may look it up |
| `Decisions.ListDecided` | lied/src/webdav/fs.rs:790-1008 | a directory can be listed exactly by those who may see it |
| `Decisions.ListedDecided` | lied/src/webdav/fs.rs:790-1008 | below the two roots a directory is listed exactly to those who may see it |
| `Decisions.ScoresAreForStaff` | lied/src/webdav/access.rs:39-46 | role by role: full scores are looked up and listed by owners, archivists and conductors, and by no musician and no guest |
| `Decisions.ScoreFilesAreForStaff` | lied/src/webdav/fs.rs:540-560 | and no full score is looked up or opened by a musician or a guest |
| `Decisions.StaffMay` | lied/src/webdav/access.rs:39-46 | staff may see every live arrangement, voice, collection, item and item voice of the organization, and the scores |
| `Decisions.OrgListedIff` | lied/src/webdav/access.rs:387-410 | the organizations listed are exactly those where the user has a membership of any role, or an assignment to a voice on a live programme |
| `Decisions.TopDirectoriesAgree` | lied/src/webdav/fs.rs:790-830 | in the root, an organization, the list of users and a home, a name is listed exactly when its child can be looked up |
| `Decisions.OwnStatDecided` | lied/src/webdav/fs.rs:758-768 | another user's home and library are not found, by lookup, listing or opening |
| `ObjectDirs.LibraryAgrees` | lied/src/webdav/fs.rs:1010-1045 | anywhere in a private library a name is listed exactly when it can be looked up |
| `ObjectDirs.AnnotationsAgree` | lied/src/webdav/fs.rs:580-590 | an author's annotations are listed exactly as they can be looked up |
| `ObjectDirs.AuthorsListed` | lied/src/webdav/fs.rs:860-900 | the authors listed for a voice are those with an object under their name |
| `PathAliases.StatsIffNumberListed` | lied/src/webdav/path.rs:33-42 | in a collection a name can be looked up exactly when it reads as an index and a slug whose printed name is listed |
| `PathAliases.EveryItemHasUnlistedNames` | lied/src/webdav/path.rs:33-42 | every listed item can be looked up with a zero or a plus sign in front, and neither name is listed |
| `PathAliases.UnlistedNamesStat` | lied/src/webdav/path.rs:33-42 | a state that meets every constraint in which `01-a` and `+1-a` can be looked up and only `1-a` is listed |
| `Leaves.ListedFilesOpen` | lied/src/webdav/fs.rs:1288-1380 | in every state that also keeps items within their organization, a file listed anywhere below the two roots stats with the listed size and resolves to a key; the object there has that size, or is missing if the size is 0 |
| `ReadBack.ListedFileOpensIff` | lied/src/webdav/fs.rs:1271-1286 | opening a listed file succeeds exactly when the store has an object under the key of its row, and is not found otherwise |
| `ReadBack.ListedFilesReadBack` | lied/src/webdav/fs.rs:1271-1380 | after every clean run, every file listed to any user anywhere below the two roots opens with the bytes its own upload stored, and the listed size is their number, whatever annotations and libraries were written in between |
| `ReadBack.ResolvesLiveTree` | lied/src/domain/file.rs:175-220 | slugs resolve exactly for the places of the live tree, to the slugs the tree gives them |
| `Leaves.ListedRowOpens` | lied/src/webdav/fs.rs:1360-1380 | the listed name of a live row finds exactly that row again, whatever its name, by live-slot uniqueness |
| `Leaves.StatsExactlyListedStems` | lied/src/webdav/fs.rs:710-747 | a file name can be looked up exactly when some listed file has the same stem and format |
| `ReadDir.List` | lied/src/webdav/fs.rs:790-1008 | whatever the directory, the pushed entries are exactly its entries, or the error is the same; everywhere but in the object store no name is pushed twice |
| `ReadDir.PushRows` | lied/src/webdav/fs.rs:790-1008 | as many entries are pushed as the query returned rows, in any order, each row its own |
| `ReadDir.ItemRowsNamedApart` | lied/src/webdav/access.rs:330-382 | different items of a collection have different entry names, whatever hyphens their slugs hold |
| `ReadDir.FileRowsNamedApart` | migrations/0011_file.sql:34-40 | different live files of one place have different entry names, by the live-slot indexes |
| `ReadDir.PushFiles` | lied/src/webdav/fs.rs:790-1008 | one entry for every live file of the place, no name twice |
| `ReadDir.NamesListedOnce` | lied/src/webdav/fs.rs:790-1008 | an entry of a directory below the two roots is determined by its name: no name is both a file and a directory, or two sizes |
| `Reach.ListedArrangementHasVoice` | lied/src/webdav/access.rs:93-181 | an arrangement listed to a restricted user lists a voice |
| `Reach.ListedCollectionHasItem` | lied/src/webdav/access.rs:197-382 | a collection listed to a restricted user lists an item |
| `Reach.ListedItemHasVoice` | lied/src/webdav/fs.rs:439-476 | an item a restricted user can resolve lists a voice, given that assigned voices belong to the item's arrangement |
| `Reach.ItemIsPhantomUnlessAssignedWithin` | lied/src/webdav/access.rs:229-277 | without that rule: the item lists a voice exactly when the user holds an assignment on it to a voice of its own arrangement |
| `Reach.GuestOrgHoldsSomething` | lied/src/webdav/access.rs:387-410 | for an existing organization and a user without a staff role: the arrangements root lists something exactly when some assignment reaches a live arrangement, the collections root likewise, and then the organization is listed |
| `Reach.ListedOrgCanBeEmpty` | lied/src/webdav/access.rs:387-410 | an organization listed to a guest although both its directories are empty |
| `Reach.GuestExampleIsSound` | lied/src/webdav/access.rs:387-410 | the state of that example meets every constraint and every rule the services keep |
| `Reach.CollectionFileIsArrangementFile` | lied/src/webdav/fs.rs:1288-1358 | a voice file opened through a collection item opens for the same user through the arrangement, under the same key |
| `Reach.CollectionScoreFileIsArrangementScoreFile` | lied/src/webdav/fs.rs:1288-1358 | staff score files likewise |
| `Reach.RestrictedVoicesAreCollectionVoices` | lied/src/webdav/access.rs:163-192 | a restricted user resolves a voice directly exactly when some collection item of the organization resolves it |
| `Ordering.AcceptedIsPermutation` | lied/src/domain/collection_item.rs:384-402 | comparing length and set accepts exactly the permutations of the live ids |
| `Ordering.Pigeonhole` | lied/src/domain/collection_item.rs:50-63 | distinct numbers in 1..n are at most n |
| `Ordering.LiveCountBounded` | lied/src/domain/collection_item.rs:50-63 | legal live numbers bound the number of live items, which keeps every number written below the parked block |
| `Ordering.OrderIsUnique` | lied/src/domain/collection_item.rs:490-503 | a set of items has one order by number |
| `Ordering.RemoveDeletes` | lied/src/domain/collection_item.rs:514-539 | removing leaves 1..n without a gap, the other pieces in their order, and no other row changed |
| `Ordering.RestoreInserts` | lied/src/domain/collection_item.rs:553-617 | restoring inserts one piece at its clamped old number, leaves 1..n, and changes no other row |
| `ItemTable.RefusalIsViolation` | lied/src/domain/collection_item.rs:86-99 | a row write is refused exactly when the table with it would break a constraint |
| `ItemTable.ParkableInEveryOrderIff` | lied/src/domain/collection_item.rs:452-465 | the parking statement violates the index at no single row, whichever rows it has visited, exactly when no two live numbers differ by the offset and none overflows |
| `ItemTable.EveryOrderSafeIff` | lied/src/domain/collection_item.rs:452-465 | every order of visiting the live rows is safe under the same condition; safe means that no row comes before the one numbered the offset above it, and none overflows |
| `ItemTable.Table.WriteRow` | lied/src/domain/collection_item.rs:86-99 | one write under the two partial unique indexes and the 32-bit column |
| `ItemTable.Table.Create` | lied/src/domain/collection_item.rs:102-133 | the row is added exactly when its id is new, the table stays consistent and its collection and arrangement exist |
| `ItemTable.Table.UpdateIndex` | lied/src/domain/collection_item.rs:340-366 | a live row moves exactly when no constraint breaks; otherwise nothing changes |
| `ItemTable.Table.LiveIdsInOrder` | lied/src/domain/collection_item.rs:490-503 | the collection's running order |
| `ItemTable.Table.Park` | lied/src/domain/collection_item.rs:452-465 | every live row is moved by the offset, row by row in the given order, exactly when that order is safe |
| `ItemTable.Table.AssignOrder` | lied/src/domain/collection_item.rs:468-487 | the listed rows get 1, 2, … with no violation at any single write once the other live numbers lie above |
| `ItemTable.Table.Reorder` | lied/src/domain/collection_item.rs:375-429 | exactly the permutations are accepted; on success the list's positions are the numbers, on failure nothing changes; for positive numbers and at most 1,000,000 pieces a permutation goes through exactly when the visiting order is safe, which is certain for numbers in 1..1,000,000 |
| `ItemTable.Table.Remove` | lied/src/domain/collection_item.rs:514-539 | false exactly when no live row matches; otherwise the row is soft-deleted and the rest renumbered, for positive numbers and at most 1,000,000 pieces left exactly when the visiting order is safe, which is certain for numbers in 1..1,000,000 |
| `ItemTable.Table.Restore` | lied/src/domain/collection_item.rs:553-617 | false exactly when no removed row matches, a duplicate-arrangement error exactly when the arrangement is live again; else, for positive numbers and at most 1,000,000 live pieces, success exactly when the visiting order is safe and 1,000,000 is free, and a duplicate-index error exactly when it is safe and 1,000,000 is taken |
| `Undo.ReorderPermutes` | lied/src/domain/collection_item.rs:375-429 | an accepted order becomes the running order, numbered 1..n |
| `Undo.RemoveSequence` | lied/src/domain/collection_item.rs:514-539 | on the running order, removing is deletion of one element |
| `Undo.RestoreSequence` | lied/src/domain/collection_item.rs:553-617 | on the running order, restoring is insertion of one element |
| `Undo.RestoreUndoesRemoveIff` | lied/src/domain/collection_item.rs:514-617 | restoring a just-removed piece gives back the running order exactly when its number was its position, or it was last |
| `Undo.RestoreUndoesRemove` | lied/src/domain/collection_item.rs:514-617 | on a dense collection it gives back every row |
| `Undo.ReverseRestoresUndoRemoves` | lied/src/domain/collection_item.rs:514-617 | from a dense collection, removing any number of pieces in any order and restoring them in reverse gives back every row |
| `Undo.RemoveKeepsTimes` | lied/src/domain/collection_item.rs:514-539 | deletion times stay distinct and below the clock over a removal |
| `Undo.RestoreKeepsTimes` | lied/src/domain/collection_item.rs:553-617 | and over a restoration |
| `Undo.RestorableMeansRestores` | lied/src/domain/collection_item.rs:248-335 | a removed row of a live collection can be restored exactly when it, or a newer removal of its arrangement, is in the removed list, which is empty for a collection that is not live |
| `Undo.ListedExactlyOnce` | lied/src/domain/collection_item.rs:248-335 | in a live collection, an arrangement with removed rows and no live row is in the removed list exactly once |
| `Undo.AppendBlocksRestoreIff` | lied/src/routes/admin/collections.rs:871-883 | the appended number reaches the parking offset exactly when the highest legal number is taken |
| `Append.NextNumber` | lied/src/routes/admin/collections.rs:871-883 | the loop gives one past the highest live number, or 1, in 32-bit arithmetic |
| `Append.AppendPiece` | lied/src/routes/admin/collections.rs:871-900 | appending is refused only for a taken id, a piece that is live there already, or a reference that does not exist |
| `Append.AppendThenRestore` | lied/src/routes/admin/collections.rs:871-883 | from a table of legal numbers one append hands out 1,000,000, and restoring a restorable piece then fails with a duplicate index, in whatever order the rows are parked |
| `Append.AppendTwiceThenReorder` | lied/src/routes/admin/collections.rs:871-883 | from live numbers 1 and 999,999 two appends leave a table that is not parkable; parking the row numbered 1 first is refused, so the same reorder fails visiting the rows upwards and passes visiting them downwards |
| `Append.RemovalUnblocksRestore` | lied/src/domain/collection_item.rs:514-539 | after any removal no live number is at the offset any more |
| `Cascade.CascadeRemovesExactly` | lied/src/domain/organization.rs:248-339 | the eleven statements remove every row of the organization and leave every other row as it was |
| `Cascade.EveryStatementKeepsForeignKeys` | lied/src/domain/organization.rs:248-339 | no statement leaves a dangling reference exactly when no row of another organization refers into this one |
| `Cascade.SoundHasNoOutsideReference` | lied/src/domain/organization.rs:248-339 | the same-organization rules of items, assignments and files exclude such references |
| `Cascade.Database.DeleteOrganization` | lied/src/domain/organization.rs:248-339 | the transaction succeeds exactly then, with exactly the organization's rows gone; otherwise nothing changes |
| `Assignments.UpsertKeepsPairsUnique` | lied/src/domain/part_assignment.rs:98-140 | at most one row exists for each item and voice, whatever is assigned |
| `Assignments.AssignIff` | lied/src/domain/part_assignment.rs:98-140 | assigning succeeds exactly for a live voice of the live item's arrangement, an existing user, and a new id or a pair that has its row; then the pair's one row names the user and no other row differs, otherwise nothing does |
| `Assignments.ReassignStamps` | lied/src/domain/part_assignment.rs:108-119 | assigning the same user again changes nothing; another user clears both stamps of that row only |
| `Assignments.Service.AssignPart` | lied/src/domain/part_assignment.rs:90-156 | the upsert with its three refusals, and whether it inserted |
| `Assignments.Service.SetState` | lied/src/domain/part_assignment.rs:264-294 | each given stamp is set, an absent one and the rest of the row stay, and no other row changes |
| `Assignments.StateIsSet` | lied/src/domain/part_assignment.rs:264-294 | the same of the function, with the rows that exist unchanged |
| `Programme.AssignableIffSeen` | lied/src/domain/part_assignment.rs:98-110 | a voice can be assigned exactly on a live piece, and when it is among the voices listed there for staff |
| `Assignments.Service.DeletePart` | lied/src/domain/part_assignment.rs:298-303 | removes the row |
| `History.EveryRunIsSound` | lied/src/domain/part_assignment.rs:98-119 | in every run of creating, flagging, adding, ordering, assigning, tagging, filing and deleting, assigned voices fit their items, items and tags stay in their organization, files fit their arrangement and slugs stay slugs |
| `History.AddedItemKeepsRules` | lied/src/routes/collections.rs:677-686 | adding an item after looking collection and arrangement up in one organization keeps every item in its organization |
| `History.AcknowledgedSinceLastAssignee` | lied/src/domain/coverage.rs:361-367 | in every run, a row that counts as rehearsed was stamped by a call that took effect, and since then its assignee has not changed |
| `History.AcknowledgementLasts` | lied/src/domain/part_assignment.rs:264-294 | in every run, once a call acknowledged a row it counts as rehearsed in every later state, until it is removed or its assignee changes |
| `History.RoleIsSet` | lied/src/webdav/access.rs:60-70 | setting or withdrawing a role changes that user's membership in that organization and no other |
| `Reachable.NoPhantomsOnAnyRun` | lied/src/webdav/access.rs:202-252 | in no state of any run does a restricted user see an empty arrangement, collection or item |
| `Reachable.CascadeNeverRefused` | lied/src/domain/organization.rs:248-339 | in no state of any run does a foreign key refuse a statement of the cascade |
| `FileSlots.SharedKeyIff` | lied/src/domain/file.rs:146-161 | two rows share an object exactly when their places share slugs and they have one name and extension; then they have one format |
| `FileDecisions.UploadDecides` | lied/src/file_service.rs:78-110 | an upload is accepted exactly for an accepted type, a name with a stem and a live place, and each refusal says which of these failed first |
| `FileDecisions.UploadWrites` | lied/src/file_service.rs:78-120 | the row is of that place, under that stem and the type that was sent |
| `FileDecisions.ReplaceDecides` | lied/src/file_service.rs:159-190 | a replacement is accepted exactly for a live row of a live place whose type and the request's are listed under one extension; each of the six refusals has its own condition |
| `FileDecisions.ReplaceWrites` | lied/src/file_service.rs:176-210 | the new row differs in its age only and takes over the object |
| `FileDecisions.PutDecides` | lied/src/webdav/fs.rs:1125-1165 | a PUT is accepted exactly for a writable name and a live place, replaces the live file of its slot and otherwise creates one |
| `FileDecisions.PutWrites` | lied/src/webdav/fs.rs:1125-1165 | the row is of that place, under the stem of the name and the type of its extension |
| `FileDecisions.PutReplacesItsKind` | lied/src/webdav/fs.rs:1125-1165 | a PUT never replaces a file of another kind: only one listed under the same extension, or an image by an image |
| `Places.ValidPlacesAreApart` | migrations/0009_arrangement.sql:36-38 | in every state the constraints allow, live places have slugs of their own, each one key component |
| `Places.AnyPlaceCanLive` | lied/src/domain/arrangement.rs:583-607 | hiding what is in the way and restoring makes any place live, with every call accepted |
| `Places.AcceptedAlike` | migrations/0009_arrangement.sql:36-38 | the constraints on organizations, arrangements and voices alone decide whether creating, hiding or restoring one is accepted in any state of the whole database |
| `SlugReuse.SlugsApartIff` | migrations/0009_arrangement.sql:36-38 | creating, hiding or restoring keeps every live place's slugs from being those of another place that has files exactly when the call does not use such slugs again, a condition on the tables before it |
| `FileRuns.StepGoodIff` | lied/src/file_service.rs:78-240 | a call keeps the invariant exactly when it makes no unwritten row live, takes no retrievable row's bytes and uses no slug again |
| `FileRuns.StructuralCallsAgree` | lied/src/domain/arrangement.rs:583-607 | such a call is accepted in these runs, with the same effect, exactly when it is in the runs of the whole system |
| `FileSlots.PrivateWriteKeeps` | lied/src/webdav/fs.rs:770-776 | writing or removing an annotation or something in a private library leaves every retrievable file its own bytes |
| `FileRuns.ServesOwnBytesIff` | lied/src/file_service.rs:78-240 | from any state that runs without a hazard keep, a call of any kind leaves every readable file with its own bytes exactly when it neither revives a row whose bytes were never stored, nor leaves one live, nor swaps a row back whose bytes a failed replacement has overwritten |
| `FileRuns.CleanRunServesOwnBytes` | lied/src/file_service.rs:78-240 | over every run of uploads, replacements, WebDAV writes, deletions and restorations, among creating, hiding and restoring arrangements and voices and writing private objects, in which no failed write leaves a row without bytes or takes another's, and no slug is used again: every readable row's derived key holds the bytes its own upload stored |
| `FileUndelete.UndeleteIff` | lied/src/domain/file.rs:563-611 | after every such run in which no replacement is swapped back after it was stored, `undelete` succeeds exactly for a deleted row of a live place that is newest in its slot, and never meets the unique index |
| `FileHazards.OnlyHazards` | lied/src/file_service.rs:78-240 | after every clean run, a call leaves a state that is safe whatever clean calls follow, and then whatever calls that write no file, exactly when it leaves no row without bytes, takes no other row's bytes and uses no slug again |
| `FileHazards.FailedWriteIsTheOnlyCause` | lied/src/file_service.rs:129-151 | among file calls, exactly a failed write is unsafe that leaves its row without bytes, live or soft-deleted, or whose bytes arrived and replace different ones: those of the row it swapped back, or, for an upload, of a row its key still belongs to |
| `FileHazards.ReuseIsTheOnlyCause` | lied/src/domain/arrangement.rs:583-607 | among structural calls, exactly giving a live place the slugs of another place that has files is unsafe |
| `FileHazards.SafeIffSlugsApart` | lied/src/domain/file.rs:146-161 | a state in which every row was written and every retrievable row holds its own bytes is safe exactly when no live place has the slugs of another place with files |
| `FileHazards.FailedSwapStrands` | lied/src/domain/file.rs:631-651 | after a failed replacement the leftover is stopped only by the index, the original becomes unrestorable, and the leftover revives, without bytes unless the request was carried out |
| `FileHazards.FailedCreateStrands` | lied/src/webdav/fs.rs:1169-1192 | after a failed WebDAV create the leftover revives at once without bytes |
| `FileHazards.UncompensatedReplacementServesOldBytes` | lied/src/file_service.rs:224-237 | when undoing a failed replacement fails too, the new row is live, was never written, serves the bytes of the replaced row, and that row is superseded |
| `TwinRun.RestoredTwinServesForeignBytes` | lied/src/domain/arrangement.rs:583-607 | a run in which every call succeeds: create, upload, soft-delete, create under the same title, upload, soft-delete, restore the first; its file was stored as one byte string and is served as another |
| `TwinRun.SomeRunServesForeignBytes` | lied/src/domain/arrangement.rs:68-73 | such a run exists for every organization name and title |
| `FileStore.Store.CreateRow` | lied/src/domain/file.rs:248-280 | insert, or the duplicate of a live slot, or a taken id |
| `FileStore.Store.ReplaceRow` | lied/src/domain/file.rs:487-542 | the prior row hidden and the new one inserted, or nothing and the reason |
| `FileStore.Store.RestoreReplaced` | lied/src/domain/file.rs:631-651 | the new row hidden, then the prior one live again, the live-slot indexes holding after each statement |
| `FileStore.Store.StoreUpload` | lied/src/file_service.rs:78-151 | rows, objects and reply after every branch: stored, failed or failed although stored, with a compensation that works or fails |
| `FileStore.Store.StoreReplacement` | lied/src/file_service.rs:159-240 | the same for a replacement, its six refusals in order, its compensation and the failure of that |
| `FileStore.Store.CommitWrite` | lied/src/webdav/fs.rs:1125-1206 | the same for a WebDAV write: create or replace by location, the failure of either rollback ignored |
| `FileStore.Store.DeleteFile` | lied/src/domain/file.rs:547-556 | a live row is hidden, its object kept |
| `FileStore.Store.UndeleteFile` | lied/src/domain/file.rs:563-611 | restored, or no match, or superseded, or the duplicate |
| `Storage.PartsCarryData` | lied/src/storage.rs:88-138 | the parts concatenate to the data, are full but for a last one no larger, and number at most size / 8 MiB + 1; only empty data has an empty part |
| `Storage.SentAndBuffered` | lied/src/storage.rs:96-122 | what the loop has sent, with the rest it buffers, are exactly those parts |
| `Storage.PartsComplete` | lied/src/storage.rs:115-135 | the store accepts the parts 1..k and assembles the data |
| `Storage.ObjectStore.Flush` | lied/src/storage.rs:106-112 | full parts are sent in order and less than one stays buffered |
| `Storage.ObjectStore.UploadParts` | lied/src/storage.rs:88-138 | succeeds exactly when the body arrives, its size is at most the limit, no request fails and the completing one is answered; the object becomes the body then, and also when that answer is lost, and otherwise no object changes; too large only when it is |
| `Storage.ObjectStore.UploadStreaming` | lied/src/storage.rs:50-86 | the same from the opening request on, and no upload is left pending unless the abort itself fails |
| `Storage.ObjectStore.CompleteMultipartUpload` | lied/src/storage.rs:123-135 | carried out and answered, refused, or carried out with its answer lost |
| `Coverage.ForCollection` | lied/src/domain/coverage.rs:166-228 | the loop over the rows computes the grouped report with its totals |
| `Coverage.ForOrg` | lied/src/domain/coverage.rs:289-357 | the loop over the organization's rows computes the reports grouped by collection, with their totals |
| `Coverage.GroupedIsGroups` | lied/src/domain/coverage.rs:166-215 | grouping adjacent rows of a sorted result is the comprehension over items, each with the voices of its rows |
| `Coverage.ReportIsNestedComprehension` | lied/src/domain/coverage.rs:109-228 | the report lists the live items in number order, each with exactly its required voices in name order, their states, and the tallies of those |
| `Programme.ReportShowsProgramme` | lied/src/domain/coverage.rs:105-228 | a report holds, in number order, the pieces staff see in the collection and those whose arrangement is gone; in each exactly the voices staff see there, or those of the instruments asked for, and none where it is gone; each with its own name, instrument, assignee, stamps and state; the tallies and the totals count pairs of piece and voice |
| `Programme.NeededIsRequired` | lied/src/domain/coverage.rs:142-152 | the join's voices are exactly those |
| `Programme.CellSays` | lied/src/domain/coverage.rs:196-228 | what is reported of a voice is what its assignment row says, or nobody |
| `CoverageAgreement.OneQueryGivesEveryReport` | lied/src/domain/coverage.rs:240-357 | the single query yields, for each live collection in name order, exactly the report of that collection's own query |
| `QueryResults.CollectionResultExists` | lied/src/domain/coverage.rs:109-164 | every state has a result of the query of a collection |
| `QueryResults.OrgResultExists` | lied/src/domain/coverage.rs:240-287 | every state has a result of the query of an organization |
| `CoverageAgreement.ReportBounded` | lied/src/domain/coverage.rs:190-228 | rehearsed at most assigned at most required, for every piece and in total |
| `CoverageAgreement.GroupTallies` | lied/src/domain/coverage.rs:190-215 | the tallies are the numbers of required voices, of those with an assignment, and of those whose assignment is acknowledged |
| `CoverageAgreement.SectionsAddUp` | lied/src/domain/coverage.rs:30-38 | the reports of two sections without a common instrument add up to the report of both, piece by piece and in total |
| `Filters.PercentDecode` | lied/src/listing.rs:142-170 | the indexed loop decodes byte by byte and escape by escape |
| `Filters.ParseFilters` | lied/src/listing.rs:116-138 | the loop collects the last value of every filter among the pairs |
| `Filters.DecodeEncode` | lied/src/listing.rs:142-170 | decoding undoes the form encoding of every byte string |
| `Filters.FiltersRoundTrip` | lied/src/listing.rs:116-138 | any list of filters in section 5.2 of the WHATWG URL Standard's encoding, brackets escaped or not, with any other parameters between, parses to the last value of each field |
| `Filters.DecodesAsStandardIff` | lied/src/listing.rs:152-160 | the decoder agrees with the standard's exactly on text without a signed escape such as `%+F` |

## Left out

- ReadDir.PushFiles: does not stop at 10,000 files of a place, as `file_entries` does.
- Order of listings and modification times: the tree's directories are sets of entries with sizes.
- Library and annotation directories agree for keys without empty segments (`ObjectDirs.NoEmptyNames`), of which all keys are made; a name that is an object and a prefix at once is listed twice there and looked up as the object.
- Database and object-store failures inside a read; inside a write they are the `Outcome` and `Faults` parameters, or a call that changes nothing.
- Users: only an assignment checks that its user exists; `created_by` is not modelled, and usernames in coverage rows are the assignee's id.
- Display names of arrangements, voices and collections do not change in the runs of `History`; slugs never change in the code either.
- Deleting an organization is not among the calls of `FileRuns`: it drops the rows with the places, so no file of it is left to serve.
- The unique indexes of `tag` and `arrangement_tag`: no property here depends on them.
- `FileRuns` accepts the creation of a voice under a soft-deleted arrangement, which the routes refuse; it makes no place live.
- History.EveryRunIsSound: no append after the number 2,147,483,647, whose successor wraps to a negative one (`Append.NextNumber`).
- The error of a row statement that the database carries out and reports as failed: its state is that of an answered one, and for an insert or a swap that of `Failed(false, false)`, where the upload's error is reported instead.
- Interleaved service calls: every run is a sequence of whole calls, as the code does not serialize row and object writes across clients.
- Creation and deletion times are a counter that never repeats; `updated_at` and the ETag checks are not modelled.
- `Filters.FiltersRoundTrip`: bytes are not decoded as UTF-8, so the replacement of invalid sequences is not modelled.
- `History.AcknowledgedSinceLastAssignee`: speaks of the order of calls, because the stamp itself is the client's value.
- `collection_item::soft_delete` and `undelete`, which no route calls: they leave the numbering to their caller.
- Buffered WebDAV file handles (seek, partial reads, the write buffer), locks and the mapping of errors to HTTP.
- Roles beyond staff and restricted, the last-owner check, authentication, search, sorting, pagination and the audit log.
- Overflow of the 64-bit byte count and of the 32-bit part number: the proved bound on the number of parts keeps the latter in range for any body below 2^53 bytes.
