/**
 * The places files live at, live and soft-deleted, with the slugs their object
 * keys are made of, and how creating, hiding and restoring them changes that.
 */
module Places {
  import opened Wrappers
  import opened Slug
  import opened Schema
  import opened FileSlots
  import opened History

  /** The tables that name places. */
  datatype Layout = Layout(orgs: map<Id, Organization>, arrangements: map<Id, Arrangement>, voices: map<Id, Voice>)

  const NO_PLACES: Layout := Layout(map[], map[], map[])

  function LayoutOf(db: Db): Layout {
    Layout(db.orgs, db.arrangements, db.voices)
  }

  function Tables(p: Layout): Db {
    EMPTY.(orgs := p.orgs, arrangements := p.arrangements, voices := p.voices)
  }

  /** The constraints on these tables. */
  predicate Consistent(p: Layout) {
    && ArrangementKeys(Tables(p)) && VoiceKeys(Tables(p))
    && OrgSlugUnique(Tables(p)) && ArrangementSlugUnique(Tables(p)) && VoiceSlugUnique(Tables(p))
  }

  predicate LayoutOk(p: Layout) {
    Consistent(p) && SlugShapes(Tables(p))
  }

  lemma ValidLayout(db: Db)
    requires Valid(db)
    ensures LayoutOk(LayoutOf(db))
  {
  }

  // ---------------------------------------------------------------------
  // Places and their slugs

  predicate IsPlace(p: Layout, l: Location) {
    && l.0 in p.arrangements && p.arrangements[l.0].org in p.orgs
    && (l.1.Some? ==> l.1.value in p.voices && p.voices[l.1.value].arr == l.0)
  }

  /** `resolve_path_slugs` finds live places only. */
  predicate IsLive(p: Layout, l: Location) {
    && IsPlace(p, l) && !p.arrangements[l.0].deleted
    && (l.1.Some? ==> !p.voices[l.1.value].deleted)
  }

  function PlaceAt(p: Layout, l: Location): Place
    requires IsPlace(p, l)
  {
    var a := p.arrangements[l.0];
    Place(p.orgs[a.org].slug, a.slug, if l.1.None? then None else Some(p.voices[l.1.value].slug))
  }

  function Locations(p: Layout): set<Location> {
    (set a <- p.arrangements :: (a, None)) + (set v <- p.voices :: (p.voices[v].arr, Some(v)))
  }

  lemma PlacesAreLocations(p: Layout, l: Location)
    requires IsPlace(p, l)
    ensures l in Locations(p)
  {
    assert l.1.None? ==> l == (l.0, None);
    assert l.1.Some? ==> l == (p.voices[l.1.value].arr, Some(l.1.value));
  }

  /** Every place, live or not. */
  function AllTree(p: Layout): Tree {
    map l <- Locations(p) | IsPlace(p, l) :: PlaceAt(p, l)
  }

  /** The places a request can resolve. */
  function LiveTree(p: Layout): Tree {
    map l <- Locations(p) | IsLive(p, l) :: PlaceAt(p, l)
  }

  lemma InTrees(p: Layout, l: Location)
    ensures l in AllTree(p) <==> IsPlace(p, l)
    ensures l in LiveTree(p) <==> IsLive(p, l)
    ensures IsPlace(p, l) ==> AllTree(p)[l] == PlaceAt(p, l)
    ensures IsLive(p, l) ==> LiveTree(p)[l] == PlaceAt(p, l)
  {
    if IsPlace(p, l) {
      PlacesAreLocations(p, l);
    }
  }

  lemma LivePartOfAll(p: Layout)
    ensures PartOf(LiveTree(p), AllTree(p))
  {
  }

  lemma SlugsAreFlat(p: Layout)
    requires SlugShapes(Tables(p))
    ensures FlatTree(AllTree(p))
  {
    forall l <- AllTree(p)
      ensures FlatPlace(AllTree(p)[l])
    {
      SlugIsSegment(p.orgs[p.arrangements[l.0].org].slug);
      SlugIsSegment(p.arrangements[l.0].slug);
      if l.1.Some? {
        SlugIsSegment(p.voices[l.1.value].slug);
      }
    }
  }

  lemma LiveTwins(p: Layout, l: Location, m: Location)
    requires Consistent(p) && IsLive(p, l) && IsLive(p, m) && PlaceAt(p, l) == PlaceAt(p, m)
    ensures l == m
  {
    assert p.arrangements[l.0].org == p.arrangements[m.0].org;
    assert l.0 == m.0;
  }

  /** The unique indexes tell live places apart by their slugs. */
  lemma LivePlacesAreApart(p: Layout)
    requires Consistent(p)
    ensures Injective(LiveTree(p))
  {
    forall l <- LiveTree(p), m <- LiveTree(p) | LiveTree(p)[l] == LiveTree(p)[m]
      ensures l == m
    {
      LiveTwins(p, l, m);
    }
  }

  /** In every state the constraints allow, no two live places share their slugs,
      and no slug spans two key components. */
  lemma ValidPlacesAreApart(db: Db)
    requires Valid(db)
    ensures FlatTree(LiveTree(LayoutOf(db))) && Injective(LiveTree(LayoutOf(db)))
  {
    ValidLayout(db);
    SlugsAreFlat(LayoutOf(db));
    LivePartOfAll(LayoutOf(db));
    LivePlacesAreApart(LayoutOf(db));
  }

  // ---------------------------------------------------------------------
  // Structural calls

  /** What a structural call does to these tables. */
  function Changed(p: Layout, c: StructureCall): Layout {
    LayoutOf(Restructured(Tables(p), c))
  }

  lemma ChangedLayout(db: Db, c: StructureCall)
    ensures LayoutOf(Restructured(db, c)) == Changed(LayoutOf(db), c)
  {
  }

  /** The database accepts the call unless a constraint forbids its result. */
  predicate Accepts(p: Layout, c: StructureCall) {
    Consistent(Changed(p, c))
  }

  /** The calls that create, hide or restore what a place is named by. */
  predicate NamesPlaces(c: StructureCall) {
    c.CreateOrganization? || c.CreateArrangement? || c.CreateVoice? || c.HideArrangement? || c.HideVoice?
  }

  /** `next` has the places of `db`, perhaps more, and the same rows elsewhere. */
  predicate OnlyMorePlaces(db: Db, next: Db) {
    && db.orgs.Keys <= next.orgs.Keys && db.arrangements.Keys <= next.arrangements.Keys
    && db.voices.Keys <= next.voices.Keys
    && next == db.(orgs := next.orgs, arrangements := next.arrangements, voices := next.voices)
  }

  /** Rows that refer to places find them still. */
  lemma ReferencesStay(db: Db, next: Db)
    requires ForeignKeys(db) && OnlyMorePlaces(db, next)
    ensures ForeignKeys(next) <==> ArrangementKeys(next) && VoiceKeys(next)
  {
  }

  lemma PlacesOnlyGrow(db: Db, c: StructureCall)
    requires NamesPlaces(c)
    ensures OnlyMorePlaces(db, Restructured(db, c))
  {
  }

  lemma OtherIndexesStay(db: Db, c: StructureCall)
    requires UniqueIndexes(db) && NamesPlaces(c)
    ensures var next := Restructured(db, c);
            UniqueIndexes(next) <==> OrgSlugUnique(next) && ArrangementSlugUnique(next) && VoiceSlugUnique(next)
  {
  }

  lemma ConsistentLayout(db: Db)
    ensures Consistent(LayoutOf(db))
       <==> && ArrangementKeys(db) && VoiceKeys(db)
            && OrgSlugUnique(db) && ArrangementSlugUnique(db) && VoiceSlugUnique(db)
  {
  }

  /** The constraints on these tables decide such a call alone. */
  lemma AcceptedAlike(db: Db, c: StructureCall)
    requires Enforced(db) && NamesPlaces(c)
    ensures Accepts(LayoutOf(db), c) <==> Enforced(Restructured(db, c))
  {
    ChangedLayout(db, c);
    StructuralPlaces(db, c);
    PlacesOnlyGrow(db, c);
    ReferencesStay(db, Restructured(db, c));
    OtherIndexesStay(db, c);
    ConsistentLayout(Restructured(db, c));
  }

  lemma ChangedOk(p: Layout, c: StructureCall)
    requires LayoutOk(p) && Accepts(p, c)
    ensures LayoutOk(Changed(p, c))
  {
    SlugsSurvive(Tables(p), c);
  }

  lemma PlaceStays(p: Layout, c: StructureCall, l: Location)
    requires IsPlace(p, l)
    ensures IsPlace(Changed(p, c), l) && PlaceAt(Changed(p, c), l) == PlaceAt(p, l)
  {
  }

  /** Places are never dropped and never renamed. */
  lemma PlacesStay(p: Layout, c: StructureCall)
    ensures PartOf(AllTree(p), AllTree(Changed(p, c)))
  {
    forall l <- AllTree(p)
      ensures l in AllTree(Changed(p, c)) && AllTree(Changed(p, c))[l] == AllTree(p)[l]
    {
      PlaceStays(p, c, l);
      InTrees(Changed(p, c), l);
    }
  }

  // ---------------------------------------------------------------------
  // Any place can be made live

  /** The tables after a list of structural calls. */
  function ChangedBy(p: Layout, cs: seq<StructureCall>): Layout
    decreases |cs|
  {
    if cs == [] then p else ChangedBy(Changed(p, cs[0]), cs[1..])
  }

  predicate AcceptsAll(p: Layout, cs: seq<StructureCall>)
    decreases |cs|
  {
    cs == [] || (Accepts(p, cs[0]) && AcceptsAll(Changed(p, cs[0]), cs[1..]))
  }

  lemma {:induction false} ChangedByConcat(p: Layout, cs: seq<StructureCall>, ds: seq<StructureCall>)
    ensures ChangedBy(p, cs + ds) == ChangedBy(ChangedBy(p, cs), ds)
    ensures AcceptsAll(p, cs) && AcceptsAll(ChangedBy(p, cs), ds) ==> AcceptsAll(p, cs + ds)
    decreases |cs|
  {
    if cs == [] {
      assert cs + ds == ds;
    } else {
      assert (cs + ds)[1..] == cs[1..] + ds;
      ChangedByConcat(Changed(p, cs[0]), cs[1..], ds);
    }
  }

  predicate ArrangementRival(p: Layout, a: Id, r: Id)
    requires a in p.arrangements
  {
    && r != a && r in p.arrangements && !p.arrangements[r].deleted
    && p.arrangements[r].org == p.arrangements[a].org && p.arrangements[r].slug == p.arrangements[a].slug
  }

  lemma OneArrangementRival(p: Layout, a: Id, r: Id, s: Id)
    requires ArrangementSlugUnique(Tables(p)) && a in p.arrangements
    requires ArrangementRival(p, a, r) && ArrangementRival(p, a, s)
    ensures r == s
  {
  }

  lemma HidingArrangementIsAccepted(p: Layout, a: Id)
    requires Consistent(p)
    ensures Accepts(p, HideArrangement(a, true))
  {
  }

  lemma HidingVoiceIsAccepted(p: Layout, v: Id)
    requires Consistent(p)
    ensures Accepts(p, HideVoice(v, true))
  {
  }

  lemma RestoringArrangementIsAccepted(p: Layout, a: Id)
    requires Consistent(p) && a in p.arrangements && forall r :: !ArrangementRival(p, a, r)
    ensures Accepts(p, HideArrangement(a, false))
  {
    var next := Changed(p, HideArrangement(a, false));
    forall x <- next.arrangements, y <- next.arrangements |
      && !next.arrangements[x].deleted && !next.arrangements[y].deleted
      && next.arrangements[x].org == next.arrangements[y].org && next.arrangements[x].slug == next.arrangements[y].slug
      ensures x == y
    {
      assert !ArrangementRival(p, a, x) && !ArrangementRival(p, a, y);
    }
  }

  lemma ArrangementCanLive(p: Layout, a: Id) returns (cs: seq<StructureCall>)
    requires Consistent(p) && a in p.arrangements
    ensures AcceptsAll(p, cs) && ChangedBy(p, cs).orgs == p.orgs && ChangedBy(p, cs).voices == p.voices
    ensures a in ChangedBy(p, cs).arrangements && !ChangedBy(p, cs).arrangements[a].deleted
    ensures ChangedBy(p, cs).arrangements[a] == p.arrangements[a].(deleted := false)
  {
    cs := [];
    var q := p;
    if r :| ArrangementRival(p, a, r) {
      HidingArrangementIsAccepted(p, r);
      q := Changed(p, HideArrangement(r, true));
      cs := [HideArrangement(r, true)];
      assert ChangedBy(q, cs[1..]) == q;
      forall s
        ensures !ArrangementRival(q, a, s)
      {
        if ArrangementRival(q, a, s) {
          OneArrangementRival(p, a, r, s);
        }
      }
    }
    RestoringArrangementIsAccepted(q, a);
    var c := HideArrangement(a, false);
    assert ChangedBy(Changed(q, c), [c][1..]) == Changed(q, c);
    ChangedByConcat(p, cs, [c]);
    cs := cs + [c];
  }

  predicate VoiceRival(p: Layout, v: Id, r: Id)
    requires v in p.voices
  {
    && r != v && r in p.voices && !p.voices[r].deleted
    && p.voices[r].arr == p.voices[v].arr && p.voices[r].slug == p.voices[v].slug
  }

  lemma OneVoiceRival(p: Layout, v: Id, r: Id, s: Id)
    requires VoiceSlugUnique(Tables(p)) && v in p.voices && VoiceRival(p, v, r) && VoiceRival(p, v, s)
    ensures r == s
  {
  }

  lemma RestoringVoiceIsAccepted(p: Layout, v: Id)
    requires Consistent(p) && v in p.voices && forall r :: !VoiceRival(p, v, r)
    ensures Accepts(p, HideVoice(v, false))
  {
    var next := Changed(p, HideVoice(v, false));
    forall x <- next.voices, y <- next.voices |
      && !next.voices[x].deleted && !next.voices[y].deleted
      && next.voices[x].arr == next.voices[y].arr && next.voices[x].slug == next.voices[y].slug
      ensures x == y
    {
      assert !VoiceRival(p, v, x) && !VoiceRival(p, v, y);
    }
  }

  lemma VoiceCanLive(p: Layout, v: Id) returns (cs: seq<StructureCall>)
    requires Consistent(p) && v in p.voices
    ensures AcceptsAll(p, cs) && ChangedBy(p, cs).orgs == p.orgs && ChangedBy(p, cs).arrangements == p.arrangements
    ensures v in ChangedBy(p, cs).voices && ChangedBy(p, cs).voices[v] == p.voices[v].(deleted := false)
  {
    cs := [];
    var q := p;
    if r :| VoiceRival(p, v, r) {
      HidingVoiceIsAccepted(p, r);
      q := Changed(p, HideVoice(r, true));
      cs := [HideVoice(r, true)];
      assert ChangedBy(q, cs[1..]) == q;
      forall s
        ensures !VoiceRival(q, v, s)
      {
        if VoiceRival(q, v, s) {
          OneVoiceRival(p, v, r, s);
        }
      }
    }
    RestoringVoiceIsAccepted(q, v);
    var c := HideVoice(v, false);
    assert ChangedBy(Changed(q, c), [c][1..]) == Changed(q, c);
    ChangedByConcat(p, cs, [c]);
    cs := cs + [c];
  }

  lemma {:induction false} AcceptedStaysConsistent(p: Layout, cs: seq<StructureCall>)
    requires Consistent(p) && AcceptsAll(p, cs)
    ensures Consistent(ChangedBy(p, cs))
    decreases |cs|
  {
    if cs != [] {
      AcceptedStaysConsistent(Changed(p, cs[0]), cs[1..]);
    }
  }

  /** Hiding whatever is in the way and restoring makes any place live. */
  lemma AnyPlaceCanLive(p: Layout, l: Location) returns (cs: seq<StructureCall>)
    requires Consistent(p) && IsPlace(p, l)
    ensures AcceptsAll(p, cs) && IsLive(ChangedBy(p, cs), l) && PlaceAt(ChangedBy(p, cs), l) == PlaceAt(p, l)
  {
    cs := ArrangementCanLive(p, l.0);
    if l.1.Some? {
      AcceptedStaysConsistent(p, cs);
      var ds := VoiceCanLive(ChangedBy(p, cs), l.1.value);
      ChangedByConcat(p, cs, ds);
      cs := cs + ds;
    }
  }
}
