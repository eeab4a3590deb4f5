/**
 * A run in which every call succeeds and an arrangement ends up serving the bytes
 * of another: the second was created under the first one's title while the first
 * was soft-deleted.
 */
module TwinRun {
  import opened Wrappers
  import opened Slug
  import opened FileName
  import opened FileTypes
  import opened Schema
  import opened FileSlots
  import opened Places
  import opened SlugReuse
  import opened FileRuns
  import History

  /** Every call is answered without an error. */
  ghost predicate AllSucceed(lib: Library, calls: seq<Change>)
    decreases |calls|
  {
    calls == [] || (Step(lib, calls[0]).1 == None && AllSucceed(Step(lib, calls[0]).0, calls[1..]))
  }

  lemma {:induction false} Follows(states: seq<Library>, calls: seq<Change>)
    requires |states| == |calls| + 1
    requires forall i | 0 <= i < |calls| :: Step(states[i], calls[i]) == (states[i + 1], None)
    ensures AllSucceed(states[0], calls) && After(states[0], calls) == states[|calls|]
    decreases |calls|
  {
    if calls != [] {
      forall i | 0 <= i < |calls[1..]|
        ensures Step(states[1..][i], calls[1..][i]) == (states[1..][i + 1], None)
      {
        assert Step(states[i + 1], calls[i + 1]) == (states[i + 2], None);
      }
      Follows(states[1..], calls[1..]);
    }
  }

  /** One organization with these arrangements. */
  function With(name: string, arrangements: map<Id, Arrangement>): Layout {
    Layout(map[0 := Organization(Slugify(name))], arrangements, map[])
  }

  function Titled(title: string, deleted: bool): Arrangement {
    Arrangement(0, title, Slugify(title), deleted)
  }

  lemma StructureStep(p: Layout, f: Files, c: StructureCall, next: Layout)
    requires Changed(p, c) == next && Consistent(next)
    ensures Step(Library(p, f), OnPlaces(c)) == (Library(next, f), None)
  {
  }

  lemma OneArrangement(name: string, title: string, deleted: bool)
    ensures Consistent(With(name, map[])) && Consistent(With(name, map[1 := Titled(title, deleted)]))
  {
  }

  lemma TwoArrangements(name: string, title: string, first: bool, second: bool)
    requires first || second
    ensures Consistent(With(name, map[1 := Titled(title, first), 2 := Titled(title, second)]))
  {
  }

  lemma Created1(name: string, title: string)
    ensures Changed(NO_PLACES, History.CreateOrganization(0, name)) == With(name, map[])
    ensures Changed(With(name, map[]), History.CreateArrangement(1, 0, title))
         == With(name, map[1 := Titled(title, false)])
  {
  }

  lemma Hidden1(name: string, title: string)
    ensures Changed(With(name, map[1 := Titled(title, false)]), History.HideArrangement(1, true))
         == With(name, map[1 := Titled(title, true)])
    ensures Changed(With(name, map[1 := Titled(title, true)]), History.CreateArrangement(2, 0, title))
         == With(name, map[1 := Titled(title, true), 2 := Titled(title, false)])
  {
  }

  lemma Swapped(name: string, title: string)
    ensures Changed(With(name, map[1 := Titled(title, true), 2 := Titled(title, false)]),
                    History.HideArrangement(2, true))
         == With(name, map[1 := Titled(title, true), 2 := Titled(title, true)])
    ensures Changed(With(name, map[1 := Titled(title, true), 2 := Titled(title, true)]),
                    History.HideArrangement(1, false))
         == With(name, map[1 := Titled(title, false), 2 := Titled(title, true)])
  {
  }

  function Slugs(name: string, title: string): Place {
    Place(Slugify(name), Slugify(title), None)
  }

  function Score(a: Id): Location {
    (a, None)
  }

  lemma ScoreIsLive(p: Layout, a: Id, name: string, title: string)
    requires p.orgs == With(name, map[]).orgs && a in p.arrangements && p.arrangements[a] == Titled(title, false)
    ensures Score(a) in LiveTree(p) && LiveTree(p)[Score(a)] == Slugs(name, title)
  {
    InTrees(p, Score(a));
  }

  function KeyAt(slugs: Place, row: File): string
    requires FormatAndExtForMime(row.mime).Some?
  {
    DerivedKey(slugs.org, slugs.arr, slugs.voice, row.name, FormatAndExtForMime(row.mime).value.1)
  }

  lemma UploadActionIs(tree: Tree, now: Time, loc: Location, fileName: string, mime: string)
    requires loc in tree && NameStem(fileName).Some? && FormatAndExtForMime(mime).Some?
    ensures var row := UploadRow(now, loc, fileName, mime).value;
            && UploadAction(tree, now, loc, fileName, mime) == Inserting(row, KeyAt(tree[loc], row))
            && Loc(row) == loc && !row.deleted
  {
  }

  lemma InsertStores(f: Files, id: Id, row: File, key: string, data: Bytes)
    requires id !in f.rows && forall g <- f.rows :: Loc(f.rows[g]) != Loc(row)
    ensures InsertFile(f, id, row, key, data, Stored) == (Put(f, f.rows[id := row], id, key, data), None)
  {
  }

  lemma UploadStores(tree: Tree, f: Files, id: Id, loc: Location, fileName: string, mime: string, data: Bytes)
    requires loc in tree && NameStem(fileName).Some? && FormatAndExtForMime(mime).Some?
    requires id !in f.rows && forall g <- f.rows :: Loc(f.rows[g]) != loc
    ensures var row := UploadRow(f.now, loc, fileName, mime).value;
            FileStep(tree, f, DoWrite(id, Uploading(loc, fileName, mime), data, Stored))
            == (Put(f, f.rows[id := row], id, KeyAt(tree[loc], row), data), None)
  {
    var row := UploadRow(f.now, loc, fileName, mime).value;
    UploadActionIs(tree, f.now, loc, fileName, mime);
    InsertStores(f, id, row, KeyAt(tree[loc], row), data);
  }

  // The states of the run.

  datatype Names = Names(org: string, title: string, fileName: string, mime: string) {
    predicate Accepted() { NameStem(fileName).Some? && FormatAndExtForMime(mime).Some? }
  }

  function FirstStored(n: Names): Files
    requires n.Accepted()
  {
    var row := UploadRow(0, Score(1), n.fileName, n.mime).value;
    Put(EMPTY_FILES, map[1 := row], 1, KeyAt(Slugs(n.org, n.title), row), [0])
  }

  function BothStored(n: Names): Files
    requires n.Accepted()
  {
    var f, row := FirstStored(n), UploadRow(1, Score(2), n.fileName, n.mime).value;
    Put(f, f.rows[2 := row], 2, KeyAt(Slugs(n.org, n.title), row), [1])
  }

  function Upload(id: Id, n: Names, data: Bytes): Change {
    OnFiles(DoWrite(id, Uploading(Score(id), n.fileName, n.mime), data, Stored))
  }

  /** The arrangements before the call of each number. */
  function ArrangementsAt(i: nat, n: Names): map<Id, Arrangement> {
    if i <= 1 then map[]
    else if i <= 3 then map[1 := Titled(n.title, false)]
    else if i == 4 then map[1 := Titled(n.title, true)]
    else if i <= 6 then map[1 := Titled(n.title, true), 2 := Titled(n.title, false)]
    else if i == 7 then map[1 := Titled(n.title, true), 2 := Titled(n.title, true)]
    else map[1 := Titled(n.title, false), 2 := Titled(n.title, true)]
  }

  function LayoutAt(i: nat, n: Names): Layout {
    if i == 0 then NO_PLACES else With(n.org, ArrangementsAt(i, n))
  }

  function FilesAt(i: nat, n: Names): Files
    requires n.Accepted()
  {
    if i <= 2 then EMPTY_FILES else if i <= 5 then FirstStored(n) else BothStored(n)
  }

  function CallAt(i: nat, n: Names): Change {
    if i == 0 then OnPlaces(History.CreateOrganization(0, n.org))
    else if i == 1 then OnPlaces(History.CreateArrangement(1, 0, n.title))
    else if i == 2 then Upload(1, n, [0])
    else if i == 3 then OnPlaces(History.HideArrangement(1, true))
    else if i == 4 then OnPlaces(History.CreateArrangement(2, 0, n.title))
    else if i == 5 then Upload(2, n, [1])
    else if i == 6 then OnPlaces(History.HideArrangement(2, true))
    else OnPlaces(History.HideArrangement(1, false))
  }

  lemma LayoutsConsistent(i: nat, n: Names)
    requires i <= 8
    ensures Consistent(LayoutAt(i, n))
  {
    OneArrangement(n.org, n.title, false);
    OneArrangement(n.org, n.title, true);
    if i == 5 || i == 6 {
      TwoArrangements(n.org, n.title, true, false);
    } else if i == 7 {
      TwoArrangements(n.org, n.title, true, true);
    } else if i == 8 {
      TwoArrangements(n.org, n.title, false, true);
    }
  }

  lemma LayoutsFollow(i: nat, n: Names)
    requires i < 8 && i != 2 && i != 5
    ensures CallAt(i, n).OnPlaces? && Changed(LayoutAt(i, n), CallAt(i, n).structure) == LayoutAt(i + 1, n)
  {
    if i <= 1 {
      Created1(n.org, n.title);
    } else if i <= 4 {
      Hidden1(n.org, n.title);
    } else {
      Swapped(n.org, n.title);
    }
  }

  lemma FirstUpload(n: Names)
    requires n.Accepted()
    ensures FileStep(LiveTree(LayoutAt(2, n)), EMPTY_FILES, Upload(1, n, [0]).op) == (FirstStored(n), None)
  {
    ScoreIsLive(LayoutAt(2, n), 1, n.org, n.title);
    UploadStores(LiveTree(LayoutAt(2, n)), EMPTY_FILES, 1, Score(1), n.fileName, n.mime, [0]);
  }

  lemma FirstStoredAt(n: Names)
    requires n.Accepted()
    ensures var f := FirstStored(n); f.now == 1 && f.rows.Keys == {1} && Loc(f.rows[1]) == Score(1)
  {
  }

  lemma SecondUploadAt(tree: Tree, n: Names)
    requires n.Accepted() && Score(2) in tree && tree[Score(2)] == Slugs(n.org, n.title)
    ensures FileStep(tree, FirstStored(n), Upload(2, n, [1]).op) == (BothStored(n), None)
  {
    FirstStoredAt(n);
    UploadStores(tree, FirstStored(n), 2, Score(2), n.fileName, n.mime, [1]);
  }

  lemma SecondUpload(n: Names)
    requires n.Accepted()
    ensures FileStep(LiveTree(LayoutAt(5, n)), FirstStored(n), Upload(2, n, [1]).op) == (BothStored(n), None)
  {
    ScoreIsLive(LayoutAt(5, n), 2, n.org, n.title);
    SecondUploadAt(LiveTree(LayoutAt(5, n)), n);
  }

  lemma StepsFollow(i: nat, n: Names)
    requires n.Accepted() && i < 8
    ensures Step(Library(LayoutAt(i, n), FilesAt(i, n)), CallAt(i, n))
         == (Library(LayoutAt(i + 1, n), FilesAt(i + 1, n)), None)
  {
    if i == 2 || i == 5 {
      FirstUpload(n);
      SecondUpload(n);
      FileStepIs(Library(LayoutAt(i, n), FilesAt(i, n)), CallAt(i, n).op);
    } else {
      LayoutsFollow(i, n);
      LayoutsConsistent(i + 1, n);
      StructureStep(LayoutAt(i, n), FilesAt(i, n), CallAt(i, n).structure, LayoutAt(i + 1, n));
    }
  }

  lemma SameKeys(n: Names)
    requires n.Accepted()
    ensures var f := BothStored(n);
            && 1 in f.rows && !f.rows[1].deleted && Loc(f.rows[1]) == Score(1) && FileShape(f.rows[1])
            && 1 in f.written && f.written[1] == [0]
            && KeyAt(Slugs(n.org, n.title), f.rows[1]) in f.objects
            && f.objects[KeyAt(Slugs(n.org, n.title), f.rows[1])] == [1]
  {
  }

  function RunCalls(n: Names): seq<Change> {
    seq(8, i requires 0 <= i < 8 => CallAt(i, n))
  }

  lemma TwinRunEnds(n: Names)
    requires n.Accepted()
    ensures AllSucceed(EMPTY_LIBRARY, RunCalls(n))
    ensures After(EMPTY_LIBRARY, RunCalls(n)) == Library(LayoutAt(8, n), FilesAt(8, n))
  {
    var calls := RunCalls(n);
    var states := seq(9, i requires 0 <= i < 9 => Library(LayoutAt(i, n), FilesAt(i, n)));
    forall i | 0 <= i < 8
      ensures Step(states[i], calls[i]) == (states[i + 1], None)
    {
      StepsFollow(i, n);
    }
    Follows(states, calls);
  }

  /** File 1 can be read, was stored as [0] and is served as [1]. */
  predicate ServesForeign(live: Tree, f: Files) {
    && IsServed(live, f, 1) && Located(live, f.rows[1]) && 1 in f.written && f.written[1] == [0]
    && KeyOf(live, f.rows[1]) in f.objects && f.objects[KeyOf(live, f.rows[1])] == [1]
  }

  lemma TwinServes(n: Names)
    requires n.Accepted()
    ensures ServesForeign(LiveTree(LayoutAt(8, n)), FilesAt(8, n))
  {
    ScoreIsLive(LayoutAt(8, n), 1, n.org, n.title);
    SameKeys(n);
  }

  function Calls(n: Names): seq<Change> {
    [OnPlaces(History.CreateOrganization(0, n.org)), OnPlaces(History.CreateArrangement(1, 0, n.title)),
     Upload(1, n, [0]), OnPlaces(History.HideArrangement(1, true)),
     OnPlaces(History.CreateArrangement(2, 0, n.title)), Upload(2, n, [1]),
     OnPlaces(History.HideArrangement(2, true)), OnPlaces(History.HideArrangement(1, false))]
  }

  lemma TwinCalls(n: Names)
    ensures Calls(n) == RunCalls(n)
  {
    forall i | 0 <= i < 8
      ensures Calls(n)[i] == CallAt(i, n)
    {
    }
  }

  /** Create, upload, soft-delete; create under the same title, upload the same file
      name, soft-delete; restore the first: its file now serves the second's bytes. */
  lemma RestoredTwinServesForeignBytes(n: Names)
    requires n.Accepted()
    ensures AllSucceed(EMPTY_LIBRARY, Calls(n))
    ensures var lib := After(EMPTY_LIBRARY, Calls(n)); ServesForeign(LiveTree(lib.places), lib.files)
  {
    TwinCalls(n);
    TwinRunEnds(n);
    TwinServes(n);
  }

  // Uploads that are accepted exist, so the run does.

  lemma SomeNamesAreAccepted(org: string, title: string) returns (n: Names)
    ensures n.org == org && n.title == title && n.Accepted()
  {
    n := Names(org, title, "x" + "." + "y", MimeTable("pdf").value);
    PlainStem("x", "y");
    BaseMimeCanonical("pdf");
    MimeTableIsStorable("pdf");
  }

  /** Under any organization name and title. */
  lemma SomeRunServesForeignBytes(org: string, title: string) returns (n: Names)
    ensures n.org == org && n.title == title && AllSucceed(EMPTY_LIBRARY, Calls(n))
    ensures !Serves(After(EMPTY_LIBRARY, Calls(n)))
  {
    n := SomeNamesAreAccepted(org, title);
    RestoredTwinServesForeignBytes(n);
    ForeignIsNotOwn(After(EMPTY_LIBRARY, Calls(n)));
  }

  lemma ForeignIsNotOwn(lib: Library)
    requires ServesForeign(LiveTree(lib.places), lib.files)
    ensures !Serves(lib)
  {
    assert [0][0] != [1][0];
    assert !ServesOwn(LiveTree(lib.places), lib.files, 1);
  }
}
