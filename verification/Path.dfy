/**
 * WebDAV request paths and their positions in the entity tree (the namespace
 * of section 5.1 of RFC 4918).
 */
module Path {
  import opened Wrappers
  import opened Text

  datatype ResolvedPath =
    | Root
    | OrgsRoot
    | Org(org: string)
    | ArrangementsRoot(org: string)
    | Arrangement(org: string, arr: string)
    | ScoreDir(org: string, arr: string)
    | ScoreFile(org: string, arr: string, file: string)
    | VoicesDir(org: string, arr: string)
    | Voice(org: string, arr: string, voice: string)
    | VoiceFile(org: string, arr: string, voice: string, file: string)
    | AnnotationsDir(org: string, arr: string, voice: string)
    | AnnotationsUserDir(org: string, arr: string, voice: string, user: string)
    | AnnotationFile(org: string, arr: string, voice: string, user: string, file: string)
    | CollectionsRoot(org: string)
    | Collection(org: string, coll: string)
    | CollectionItemDir(org: string, coll: string, index: int, arrSlug: string)
    | CollectionScoreDir(org: string, coll: string, index: int, arrSlug: string)
    | CollectionScoreFile(org: string, coll: string, index: int, arrSlug: string, file: string)
    | CollectionVoicesDir(org: string, coll: string, index: int, arrSlug: string)
    | CollectionVoice(org: string, coll: string, index: int, arrSlug: string, voice: string)
    | CollectionVoiceFile(org: string, coll: string, index: int, arrSlug: string, voice: string, file: string)
    | UsersRoot
    | UserHome(user: string)
    | LibraryRoot(user: string)
    | LibraryEntry(user: string, rel: seq<string>)
  {
    /** Whether the node is a directory; a library entry is reported as not one. */
    predicate IsCollection() {
      !(ScoreFile? || VoiceFile? || AnnotationFile? || CollectionScoreFile? || CollectionVoiceFile? || LibraryEntry?)
    }

    /** Whether the node lies at or below a collection item. */
    predicate HasItem() {
      CollectionItemDir? || CollectionScoreDir? || CollectionScoreFile?
      || CollectionVoicesDir? || CollectionVoice? || CollectionVoiceFile?
    }
  }

  /** A segment that names something: not empty, no slash, not `.` or `..`. */
  predicate GoodSegment(s: string) {
    s != "" && s != "." && s != ".." && '/' !in s
  }

  predicate GoodSegments(segs: seq<string>) {
    forall i :: 0 <= i < |segs| ==> GoodSegment(segs[i])
  }

  /** A name no path may hold. */
  predicate Unnameable(name: string) {
    name == "" || name == "." || name == ".."
  }

  /** `<index>-<arrangement-slug>`, cut at the first hyphen. */
  function SplitItemSegment(seg: string): (r: Option<(int, string)>)
    ensures r.Some? ==> 0 <= r.value.0 <= I32_MAX && r.value.1 != "" && ('/' !in seg ==> '/' !in r.value.1)
  {
    var parts :- SplitFirst(seg, '-');
    var index :- ParseIndex(parts.0);
    if parts.1 == "" then None else Some((index, parts.1))
  }

  /** The directory name of a collection item. A negative index, which no write
      surface accepts, prints as `-<digits>`. */
  function ItemSegment(index: int, arrSlug: string): string {
    (if index < 0 then "-" + Decimal(-index) else Decimal(index)) + "-" + arrSlug
  }

  function FromSegments(segs: seq<string>): Option<ResolvedPath> {
    if exists i :: 0 <= i < |segs| && (segs[i] == "." || segs[i] == ".." || segs[i] == "") then None
    else if |segs| == 0 then Some(Root)
    else if segs[0] == "orgs" then
      if |segs| == 1 then Some(OrgsRoot)
      else if |segs| == 2 then Some(Org(segs[1]))
      else if segs[2] == "arrangements" then FromArrangementSegments(segs[1], segs[3..])
      else if segs[2] == "collections" then FromCollectionSegments(segs[1], segs[3..])
      else None
    else if segs[0] == "users" then
      if |segs| == 1 then Some(UsersRoot)
      else if |segs| == 2 then Some(UserHome(segs[1]))
      else if segs[2] != "library" then None
      else if |segs| == 3 then Some(LibraryRoot(segs[1]))
      else Some(LibraryEntry(segs[1], segs[3..]))
    else None
  }

  /** Below `/orgs/<org>/arrangements`. The reserved child `annotations` of a
      voice is tried before a plain file name. */
  function FromArrangementSegments(org: string, t: seq<string>): Option<ResolvedPath> {
    if |t| == 0 then Some(ArrangementsRoot(org))
    else if |t| == 1 then Some(Arrangement(org, t[0]))
    else if t[1] == "score" then
      if |t| == 2 then Some(ScoreDir(org, t[0]))
      else if |t| == 3 then Some(ScoreFile(org, t[0], t[2]))
      else None
    else if t[1] == "voices" then
      if |t| == 2 then Some(VoicesDir(org, t[0]))
      else if |t| == 3 then Some(Voice(org, t[0], t[2]))
      else if t[3] == "annotations" then
        if |t| == 4 then Some(AnnotationsDir(org, t[0], t[2]))
        else if |t| == 5 then Some(AnnotationsUserDir(org, t[0], t[2], t[4]))
        else if |t| == 6 then Some(AnnotationFile(org, t[0], t[2], t[4], t[5]))
        else None
      else if |t| == 4 then Some(VoiceFile(org, t[0], t[2], t[3]))
      else None
    else None
  }

  /** Below `/orgs/<org>/collections`. */
  function FromCollectionSegments(org: string, t: seq<string>): Option<ResolvedPath> {
    if |t| == 0 then Some(CollectionsRoot(org))
    else if |t| == 1 then Some(Collection(org, t[0]))
    else
      var item :- SplitItemSegment(t[1]);
      FromItemSegments(org, t[0], item.0, item.1, t[2..])
  }

  /** Below `/orgs/<org>/collections/<coll>/<index>-<arr>`. */
  function FromItemSegments(org: string, coll: string, index: int, arrSlug: string, u: seq<string>)
    : Option<ResolvedPath>
  {
    if |u| == 0 then Some(CollectionItemDir(org, coll, index, arrSlug))
    else if u[0] == "score" then
      if |u| == 1 then Some(CollectionScoreDir(org, coll, index, arrSlug))
      else if |u| == 2 then Some(CollectionScoreFile(org, coll, index, arrSlug, u[1]))
      else None
    else if u[0] == "voices" then
      if |u| == 1 then Some(CollectionVoicesDir(org, coll, index, arrSlug))
      else if |u| == 2 then Some(CollectionVoice(org, coll, index, arrSlug, u[1]))
      else if |u| == 3 then Some(CollectionVoiceFile(org, coll, index, arrSlug, u[1], u[2]))
      else None
    else None
  }

  function NonEmpty(segs: seq<string>): seq<string> {
    if segs == [] then []
    else (if segs[0] == "" then [] else [segs[0]]) + NonEmpty(segs[1..])
  }

  /** Parse a decoded request path; empty segments are ignored. */
  function Parse(path: string): Option<ResolvedPath> {
    FromSegments(NonEmpty(Split(path, '/')))
  }

  // ---------------------------------------------------------------------
  // Printing

  function Segments(p: ResolvedPath): seq<string> {
    match p
    case Root => []
    case OrgsRoot => ["orgs"]
    case Org(org) => ["orgs", org]
    case ArrangementsRoot(org) => ["orgs", org, "arrangements"]
    case Arrangement(org, arr) => ["orgs", org, "arrangements", arr]
    case ScoreDir(org, arr) => ["orgs", org, "arrangements", arr, "score"]
    case ScoreFile(org, arr, file) => ["orgs", org, "arrangements", arr, "score", file]
    case VoicesDir(org, arr) => ["orgs", org, "arrangements", arr, "voices"]
    case Voice(org, arr, voice) => ["orgs", org, "arrangements", arr, "voices", voice]
    case VoiceFile(org, arr, voice, file) => ["orgs", org, "arrangements", arr, "voices", voice, file]
    case AnnotationsDir(org, arr, voice) => ["orgs", org, "arrangements", arr, "voices", voice, "annotations"]
    case AnnotationsUserDir(org, arr, voice, user) =>
      ["orgs", org, "arrangements", arr, "voices", voice, "annotations", user]
    case AnnotationFile(org, arr, voice, user, file) =>
      ["orgs", org, "arrangements", arr, "voices", voice, "annotations", user, file]
    case CollectionsRoot(org) => ["orgs", org, "collections"]
    case Collection(org, coll) => ["orgs", org, "collections", coll]
    case CollectionItemDir(org, coll, index, s) => ["orgs", org, "collections", coll, ItemSegment(index, s)]
    case CollectionScoreDir(org, coll, index, s) => ["orgs", org, "collections", coll, ItemSegment(index, s), "score"]
    case CollectionScoreFile(org, coll, index, s, file) =>
      ["orgs", org, "collections", coll, ItemSegment(index, s), "score", file]
    case CollectionVoicesDir(org, coll, index, s) => ["orgs", org, "collections", coll, ItemSegment(index, s), "voices"]
    case CollectionVoice(org, coll, index, s, voice) =>
      ["orgs", org, "collections", coll, ItemSegment(index, s), "voices", voice]
    case CollectionVoiceFile(org, coll, index, s, voice, file) =>
      ["orgs", org, "collections", coll, ItemSegment(index, s), "voices", voice, file]
    case UsersRoot => ["users"]
    case UserHome(user) => ["users", user]
    case LibraryRoot(user) => ["users", user, "library"]
    case LibraryEntry(user, rel) => ["users", user, "library"] + rel
  }

  /** The path a client sends for a node. */
  function Print(p: ResolvedPath): string {
    "/" + Join(Segments(p), '/')
  }

  /** What a node's parts must satisfy to be named by a path at all. */
  predicate WellFormed(p: ResolvedPath) {
    && (p.VoiceFile? ==> p.file != "annotations")
    && (p.LibraryEntry? ==> p.rel != [])
    && (p.HasItem() ==> 0 <= p.index <= I32_MAX && p.arrSlug != "")
    && GoodSegments(Segments(p))
  }

  lemma ItemSegmentRoundTrip(index: int, arrSlug: string)
    requires 0 <= index <= I32_MAX && arrSlug != ""
    ensures SplitItemSegment(ItemSegment(index, arrSlug)) == Some((index, arrSlug))
    ensures '/' !in arrSlug ==> GoodSegment(ItemSegment(index, arrSlug))
  {
    ParseIndexDecimal(index);
    SplitFirstIs(Decimal(index), '-', arrSlug);
  }

  /** A negative index could be printed but never parsed back. */
  lemma NegativeIndexUnparsed(index: int, arrSlug: string)
    requires index < 0
    ensures SplitItemSegment(ItemSegment(index, arrSlug)) == None
  {
    var digits := Decimal(-index) + "-" + arrSlug;
    SplitFirstIs("", '-', digits);
    assert ItemSegment(index, arrSlug) == "" + "-" + digits;
  }

  lemma BelowArrangements(org: string, t: seq<string>)
    requires GoodSegment(org) && forall i :: 0 <= i < |t| ==> !Unnameable(t[i])
    ensures FromSegments(["orgs", org, "arrangements"] + t) == FromArrangementSegments(org, t)
  {
    var segs := ["orgs", org, "arrangements"] + t;
    assert forall i :: 0 <= i < |segs| ==> segs[i] == if i < 3 then ["orgs", org, "arrangements"][i] else t[i - 3];
    assert segs[3..] == t;
  }

  lemma BelowItem(org: string, coll: string, index: int, arrSlug: string, u: seq<string>)
    requires GoodSegment(org) && GoodSegment(coll) && 0 <= index <= I32_MAX && arrSlug != ""
    requires GoodSegment(ItemSegment(index, arrSlug)) && forall i :: 0 <= i < |u| ==> !Unnameable(u[i])
    ensures FromSegments(["orgs", org, "collections", coll, ItemSegment(index, arrSlug)] + u)
         == FromItemSegments(org, coll, index, arrSlug, u)
  {
    var head := ["orgs", org, "collections", coll, ItemSegment(index, arrSlug)];
    var segs := head + u;
    assert forall i :: 0 <= i < |segs| ==> segs[i] == if i < 5 then head[i] else u[i - 5];
    assert segs[3..][2..] == u;
    ItemSegmentRoundTrip(index, arrSlug);
  }

  /** The segments below an item. */
  function ItemTail(p: ResolvedPath): seq<string>
    requires p.HasItem()
  {
    match p
    case CollectionItemDir(_, _, _, _) => []
    case CollectionScoreDir(_, _, _, _) => ["score"]
    case CollectionScoreFile(_, _, _, _, file) => ["score", file]
    case CollectionVoicesDir(_, _, _, _) => ["voices"]
    case CollectionVoice(_, _, _, _, voice) => ["voices", voice]
    case CollectionVoiceFile(_, _, _, _, voice, file) => ["voices", voice, file]
  }

  lemma ItemTailComesBack(p: ResolvedPath)
    requires p.HasItem()
    ensures FromItemSegments(p.org, p.coll, p.index, p.arrSlug, ItemTail(p)) == Some(p)
    ensures Segments(p) == ["orgs", p.org, "collections", p.coll, ItemSegment(p.index, p.arrSlug)] + ItemTail(p)
  {
  }

  lemma ItemPathComesBack(p: ResolvedPath)
    requires WellFormed(p) && p.HasItem()
    ensures FromSegments(Segments(p)) == Some(p)
  {
    ItemTailComesBack(p);
    var segs, head := Segments(p), ["orgs", p.org, "collections", p.coll, ItemSegment(p.index, p.arrSlug)];
    assert segs[1] == p.org && segs[3] == p.coll && segs[4] == ItemSegment(p.index, p.arrSlug);
    assert forall i :: 0 <= i < |ItemTail(p)| ==> ItemTail(p)[i] == segs[i + 5];
    BelowItem(p.org, p.coll, p.index, p.arrSlug, ItemTail(p));
  }

  lemma OtherPathComesBack(p: ResolvedPath)
    requires WellFormed(p) && !p.HasItem()
    ensures FromSegments(Segments(p)) == Some(p)
  {
    var segs := Segments(p);
    assert forall i :: 0 <= i < |segs| ==> GoodSegment(segs[i]);
  }

  lemma FromSegmentsOfSegments(p: ResolvedPath)
    requires WellFormed(p)
    ensures FromSegments(Segments(p)) == Some(p)
  {
    if p.HasItem() {
      ItemPathComesBack(p);
    } else {
      OtherPathComesBack(p);
    }
  }

  lemma {:induction false} NonEmptyOfGood(segs: seq<string>)
    requires GoodSegments(segs)
    ensures NonEmpty(segs) == segs
  {
    if segs != [] {
      NonEmptyOfGood(segs[1..]);
    }
  }

  lemma {:induction false} NonEmptyOfSplit(segs: seq<string>)
    requires forall i :: 0 <= i < |segs| ==> '/' !in segs[i]
    ensures forall i :: 0 <= i < |NonEmpty(segs)| ==> NonEmpty(segs)[i] != "" && '/' !in NonEmpty(segs)[i]
  {
    if segs != [] {
      NonEmptyOfSplit(segs[1..]);
    }
  }

  lemma NormalPathSegments(segs: seq<string>)
    requires GoodSegments(segs)
    ensures NonEmpty(Split("/" + Join(segs, '/'), '/')) == segs
  {
    var path, rest := "/" + Join(segs, '/'), Split(Join(segs, '/'), '/');
    NonEmptyOfGood(segs);
    SplitPrefix("", Join(segs, '/'), '/');
    assert path == "" + "/" + Join(segs, '/');
    assert Split(path, '/') == [""] + rest;
    assert Split(path, '/')[1..] == rest;
    if segs == [] {
      SplitWhole("", '/');
      assert rest[1..] == [];
    } else {
      SplitJoin(segs, '/');
    }
  }

  /** Parsing a printed node gives the node back. */
  lemma ParsePrint(p: ResolvedPath)
    requires WellFormed(p)
    ensures Parse(Print(p)) == Some(p)
  {
    NormalPathSegments(Segments(p));
    FromSegmentsOfSegments(p);
  }

  lemma ArrangementSegments(org: string, t: seq<string>)
    requires FromArrangementSegments(org, t).Some?
    ensures var p := FromArrangementSegments(org, t).value;
            && Segments(p) == ["orgs", org, "arrangements"] + t
            && (p.VoiceFile? ==> p.file != "annotations")
            && !p.HasItem() && !p.LibraryEntry?
  {
  }

  lemma ItemSegments(org: string, coll: string, index: int, arrSlug: string, u: seq<string>)
    requires FromItemSegments(org, coll, index, arrSlug, u).Some?
    ensures var p := FromItemSegments(org, coll, index, arrSlug, u).value;
            && p.HasItem() && p.index == index && p.arrSlug == arrSlug
            && Segments(p) == ["orgs", org, "collections", coll, ItemSegment(index, arrSlug)] + u
  {
  }

  lemma ItemsWellFormed(org: string, coll: string, index: int, arrSlug: string, u: seq<string>)
    requires GoodSegment(org) && GoodSegment(coll) && GoodSegments(u)
    requires 0 <= index <= I32_MAX && arrSlug != "" && '/' !in arrSlug
    requires FromItemSegments(org, coll, index, arrSlug, u).Some?
    ensures WellFormed(FromItemSegments(org, coll, index, arrSlug, u).value)
  {
    ItemSegments(org, coll, index, arrSlug, u);
    ItemSegmentRoundTrip(index, arrSlug);
    assert GoodSegment("orgs") && GoodSegment("collections");
  }

  lemma CollectionsWellFormed(org: string, t: seq<string>)
    requires GoodSegment(org) && GoodSegments(t) && FromCollectionSegments(org, t).Some?
    ensures WellFormed(FromCollectionSegments(org, t).value)
  {
    if |t| >= 2 {
      var item := SplitItemSegment(t[1]).value;
      assert GoodSegment(t[1]);
      ItemsWellFormed(org, t[0], item.0, item.1, t[2..]);
    }
  }

  lemma ArrangementsWellFormed(org: string, t: seq<string>)
    requires GoodSegment(org) && GoodSegments(t) && FromArrangementSegments(org, t).Some?
    ensures WellFormed(FromArrangementSegments(org, t).value)
  {
    ArrangementSegments(org, t);
  }

  /** A parse either fails or gives a well-formed node. */
  lemma FromSegmentsWellFormed(segs: seq<string>)
    requires forall i :: 0 <= i < |segs| ==> segs[i] != "" && '/' !in segs[i]
    requires FromSegments(segs).Some?
    ensures WellFormed(FromSegments(segs).value)
  {
    assert GoodSegments(segs);
    if |segs| >= 3 && segs[0] == "orgs" {
      if segs[2] == "arrangements" {
        ArrangementsWellFormed(segs[1], segs[3..]);
      } else {
        CollectionsWellFormed(segs[1], segs[3..]);
      }
    }
  }

  lemma ParseWellFormed(path: string)
    requires Parse(path).Some?
    ensures WellFormed(Parse(path).value)
  {
    NonEmptyOfSplit(Split(path, '/'));
    FromSegmentsWellFormed(NonEmpty(Split(path, '/')));
  }

  /** Printing what was parsed is a normal form: two paths name the same node
      exactly when they normalize to the same text. */
  lemma PrintIsNormalForm(path: string, path': string)
    requires Parse(path).Some? && Parse(path').Some?
    ensures Parse(Print(Parse(path).value)) == Parse(path)
    ensures Parse(path) == Parse(path') <==> Print(Parse(path).value) == Print(Parse(path').value)
  {
    ParseWellFormed(path);
    ParseWellFormed(path');
    ParsePrint(Parse(path).value);
    ParsePrint(Parse(path').value);
  }

  /** The node a directory entry leads to, if the name fits the tree there. */
  function Child(dir: ResolvedPath, name: string): Option<ResolvedPath> {
    FromSegments(Segments(dir) + [name])
  }
}
