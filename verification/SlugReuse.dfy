/**
 * When slugs stay a file's own: hiding an arrangement or a voice sets its slug
 * free, but the files under it keep their object keys.
 */
module SlugReuse {
  import opened Wrappers
  import opened Slug
  import opened Schema
  import opened FileSlots
  import opened Places
  import History

  type StructureCall = History.StructureCall

  /** No live place has the slugs of another place that has files. */
  predicate SlugsApart(p: Layout, rows: map<Id, File>) {
    PartOf(LiveTree(p), AllTree(p)) && forall l <- LiveTree(p) :: SlugsFree(AllTree(p), rows, l)
  }

  /** Rows stay where they are, and new ones are at live places. */
  predicate RowsAt(live: Tree, rows: map<Id, File>, next: map<Id, File>) {
    forall g <- next :: (g in rows && Loc(rows[g]) == Loc(next[g])) || Loc(next[g]) in live
  }

  /** New rows at live places leave slugs apart, as live places have slugs of their own. */
  lemma RowsKeepSlugsApart(p: Layout, rows: map<Id, File>, next: map<Id, File>)
    requires Consistent(p) && SlugsApart(p, rows) && RowsAt(LiveTree(p), rows, next)
    ensures SlugsApart(p, next)
  {
    LivePlacesAreApart(p);
    forall l <- LiveTree(p)
      ensures SlugsFree(AllTree(p), next, l)
    {
      assert SlugsFree(AllTree(p), rows, l);
    }
  }

  /** Some row is at another place that has these slugs. */
  predicate Taken(p: Layout, rows: map<Id, File>, l: Location, slugs: Place) {
    exists g <- rows :: Loc(rows[g]) != l && IsPlace(p, Loc(rows[g])) && PlaceAt(p, Loc(rows[g])) == slugs
  }

  predicate TakenPlace(p: Layout, rows: map<Id, File>, l: Location) {
    IsPlace(p, l) && Taken(p, rows, l, PlaceAt(p, l))
  }

  /** The call gives a live place the slugs of another place that has files: a
      condition on the tables before the call. */
  predicate Reuses(p: Layout, rows: map<Id, File>, c: StructureCall) {
    match c
    case CreateArrangement(id, org, title) =>
      && id !in p.arrangements && org in p.orgs
      && Taken(p, rows, (id, None), Place(p.orgs[org].slug, Slugify(title), None))
    case CreateVoice(id, arr, name, _) =>
      && id !in p.voices && IsLive(p, (arr, None))
      && Taken(p, rows, (arr, Some(id)), PlaceAt(p, (arr, None)).(voice := Some(Slugify(name))))
    case HideArrangement(a, deleted) =>
      && !deleted
      && (TakenPlace(p, rows, (a, None)) || exists v <- p.voices :: LiveVoiceTaken(p, rows, a, v))
    case HideVoice(v, deleted) =>
      && !deleted && v in p.voices && IsLive(p, (p.voices[v].arr, None))
      && TakenPlace(p, rows, (p.voices[v].arr, Some(v)))
    case _ => false
  }

  predicate LiveVoiceTaken(p: Layout, rows: map<Id, File>, a: Id, v: Id)
    requires v in p.voices
  {
    !p.voices[v].deleted && TakenPlace(p, rows, (a, Some(v)))
  }

  lemma FreeIff(p: Layout, rows: map<Id, File>, l: Location)
    requires IsPlace(p, l)
    ensures l in AllTree(p) && (SlugsFree(AllTree(p), rows, l) <==> !TakenPlace(p, rows, l))
  {
    InTrees(p, l);
    forall g <- rows
      ensures Loc(rows[g]) in AllTree(p) <==> IsPlace(p, Loc(rows[g]))
    {
      InTrees(p, Loc(rows[g]));
    }
  }

  lemma ApartIff(p: Layout, rows: map<Id, File>)
    ensures SlugsApart(p, rows) <==> forall l: Location | IsLive(p, l) :: !TakenPlace(p, rows, l)
  {
    LivePartOfAll(p);
    forall l: Location
      ensures l in LiveTree(p) <==> IsLive(p, l)
      ensures IsLive(p, l) ==> l in AllTree(p) && (SlugsFree(AllTree(p), rows, l) <==> !TakenPlace(p, rows, l))
    {
      InTrees(p, l);
      if IsLive(p, l) {
        FreeIff(p, rows, l);
      }
    }
  }

  /** Every row is at a place. */
  predicate RowsPlaced(p: Layout, rows: map<Id, File>) {
    forall g <- rows :: IsPlace(p, Loc(rows[g]))
  }

  ghost predicate Keeps(p: Layout, next: Layout) {
    forall l: Location | IsPlace(p, l) :: IsPlace(next, l) && PlaceAt(next, l) == PlaceAt(p, l)
  }

  lemma TakenStays(p: Layout, next: Layout, rows: map<Id, File>, l: Location, slugs: Place)
    requires RowsPlaced(p, rows) && Keeps(p, next)
    ensures Taken(next, rows, l, slugs) <==> Taken(p, rows, l, slugs)
  {
  }

  /** When only `revealed` places become live, only their slugs matter. */
  lemma ApartAfter(p: Layout, next: Layout, rows: map<Id, File>, revealed: set<Location>)
    requires SlugsApart(p, rows) && RowsPlaced(p, rows) && Keeps(p, next)
    requires forall l: Location | IsLive(next, l) :: IsLive(p, l) || l in revealed
    requires forall l <- revealed :: IsLive(next, l)
    ensures SlugsApart(next, rows) <==> forall l <- revealed :: !TakenPlace(next, rows, l)
  {
    ApartIff(p, rows);
    ApartIff(next, rows);
    forall l: Location | IsLive(p, l)
      ensures !TakenPlace(next, rows, l)
    {
      assert !TakenPlace(p, rows, l);
      TakenStays(p, next, rows, l, PlaceAt(p, l));
    }
  }

  lemma KeepsPlaces(p: Layout, c: StructureCall)
    ensures Keeps(p, Changed(p, c))
  {
    forall l: Location | IsPlace(p, l)
      ensures IsPlace(Changed(p, c), l) && PlaceAt(Changed(p, c), l) == PlaceAt(p, l)
    {
      PlaceStays(p, c, l);
    }
  }

  lemma TakenPlaceStays(p: Layout, next: Layout, rows: map<Id, File>, l: Location)
    requires RowsPlaced(p, rows) && Keeps(p, next) && IsPlace(p, l)
    ensures TakenPlace(next, rows, l) <==> TakenPlace(p, rows, l)
  {
    TakenStays(p, next, rows, l, PlaceAt(p, l));
  }

  // What each call makes live.

  lemma ArrangementRevealed(p: Layout, id: Id, org: Id, title: string)
    requires Consistent(p) && Accepts(p, History.CreateArrangement(id, org, title)) && id !in p.arrangements
    ensures var next := Changed(p, History.CreateArrangement(id, org, title));
            && org in p.orgs && IsLive(next, (id, None))
            && PlaceAt(next, (id, None)) == Place(p.orgs[org].slug, Slugify(title), None)
            && forall l: Location | IsLive(next, l) :: IsLive(p, l) || l in {(id, None)}
  {
    assert Changed(p, History.CreateArrangement(id, org, title)).arrangements[id].org == org;
  }

  lemma ArrangementReuse(p: Layout, rows: map<Id, File>, id: Id, org: Id, title: string)
    requires Consistent(p) && SlugsApart(p, rows) && RowsPlaced(p, rows)
    requires Accepts(p, History.CreateArrangement(id, org, title)) && id !in p.arrangements
    ensures SlugsApart(Changed(p, History.CreateArrangement(id, org, title)), rows)
       <==> !Reuses(p, rows, History.CreateArrangement(id, org, title))
  {
    var c := History.CreateArrangement(id, org, title);
    var next, l := Changed(p, c), (id, None);
    KeepsPlaces(p, c);
    ArrangementRevealed(p, id, org, title);
    ApartAfter(p, next, rows, {l});
    TakenStays(p, next, rows, l, PlaceAt(next, l));
  }

  lemma VoiceRevealed(p: Layout, id: Id, arr: Id, name: string, instrument: Id)
    requires Consistent(p) && Accepts(p, History.CreateVoice(id, arr, name, instrument)) && id !in p.voices
    ensures var next, l := Changed(p, History.CreateVoice(id, arr, name, instrument)), (arr, Some(id));
            && (IsLive(next, l) <==> IsLive(p, (arr, None)))
            && (IsLive(next, l) ==> PlaceAt(next, l) == PlaceAt(p, (arr, None)).(voice := Some(Slugify(name))))
            && forall m: Location | IsLive(next, m) :: IsLive(p, m) || m == l
  {
    assert Changed(p, History.CreateVoice(id, arr, name, instrument)).voices[id].arr == arr;
  }

  lemma VoiceReuse(p: Layout, rows: map<Id, File>, id: Id, arr: Id, name: string, instrument: Id)
    requires Consistent(p) && SlugsApart(p, rows) && RowsPlaced(p, rows)
    requires Accepts(p, History.CreateVoice(id, arr, name, instrument)) && id !in p.voices
    ensures SlugsApart(Changed(p, History.CreateVoice(id, arr, name, instrument)), rows)
       <==> !Reuses(p, rows, History.CreateVoice(id, arr, name, instrument))
  {
    var c := History.CreateVoice(id, arr, name, instrument);
    var next, l := Changed(p, c), (arr, Some(id));
    KeepsPlaces(p, c);
    VoiceRevealed(p, id, arr, name, instrument);
    if IsLive(next, l) {
      ApartAfter(p, next, rows, {l});
      TakenStays(p, next, rows, l, PlaceAt(next, l));
    } else {
      ApartAfter(p, next, rows, {});
    }
  }

  /** An arrangement and its live voices. */
  function PlacesUnder(p: Layout, a: Id): set<Location> {
    {(a, None)} + set v <- p.voices | p.voices[v].arr == a && !p.voices[v].deleted :: (a, Some(v))
  }

  lemma RestoredArrangementRevealed(p: Layout, a: Id)
    requires Consistent(p) && a in p.arrangements
    ensures var next := Changed(p, History.HideArrangement(a, false));
            && (forall l: Location | IsLive(next, l) :: IsLive(p, l) || l in PlacesUnder(p, a))
            && forall l <- PlacesUnder(p, a) :: IsPlace(p, l) && IsLive(next, l)
  {
    var next := Changed(p, History.HideArrangement(a, false));
    forall l: Location | IsLive(next, l) && !IsLive(p, l)
      ensures l in PlacesUnder(p, a)
    {
      assert l.0 == a && (l.1.None? || l == (a, Some(l.1.value)));
    }
  }

  lemma PlacesUnderTaken(p: Layout, rows: map<Id, File>, a: Id)
    ensures Reuses(p, rows, History.HideArrangement(a, false))
       <==> exists l <- PlacesUnder(p, a) :: TakenPlace(p, rows, l)
  {
    assert (a, None) in PlacesUnder(p, a);
    forall v <- p.voices | LiveVoiceTaken(p, rows, a, v)
      ensures (a, Some(v)) in PlacesUnder(p, a)
    {
    }
  }

  lemma RestoredArrangementReuse(p: Layout, rows: map<Id, File>, a: Id)
    requires Consistent(p) && SlugsApart(p, rows) && RowsPlaced(p, rows) && a in p.arrangements
    ensures SlugsApart(Changed(p, History.HideArrangement(a, false)), rows)
       <==> !Reuses(p, rows, History.HideArrangement(a, false))
  {
    var next := Changed(p, History.HideArrangement(a, false));
    KeepsPlaces(p, History.HideArrangement(a, false));
    RestoredArrangementRevealed(p, a);
    ApartAfter(p, next, rows, PlacesUnder(p, a));
    forall l <- PlacesUnder(p, a)
      ensures TakenPlace(next, rows, l) <==> TakenPlace(p, rows, l)
    {
      TakenPlaceStays(p, next, rows, l);
    }
    PlacesUnderTaken(p, rows, a);
  }

  lemma RestoredVoiceRevealed(p: Layout, v: Id)
    requires Consistent(p) && v in p.voices
    ensures var next, l := Changed(p, History.HideVoice(v, false)), (p.voices[v].arr, Some(v));
            && IsPlace(p, l) && (IsLive(next, l) <==> IsLive(p, (p.voices[v].arr, None)))
            && forall m: Location | IsLive(next, m) :: IsLive(p, m) || m == l
  {
  }

  lemma RestoredVoiceReuse(p: Layout, rows: map<Id, File>, v: Id)
    requires Consistent(p) && SlugsApart(p, rows) && RowsPlaced(p, rows) && v in p.voices
    ensures SlugsApart(Changed(p, History.HideVoice(v, false)), rows) <==> !Reuses(p, rows, History.HideVoice(v, false))
  {
    var next, l := Changed(p, History.HideVoice(v, false)), (p.voices[v].arr, Some(v));
    KeepsPlaces(p, History.HideVoice(v, false));
    RestoredVoiceRevealed(p, v);
    if IsLive(next, l) {
      ApartAfter(p, next, rows, {l});
      TakenPlaceStays(p, next, rows, l);
    } else {
      ApartAfter(p, next, rows, {});
    }
  }

  /** The other calls make no place live. */
  predicate MakesNothingLive(p: Layout, c: StructureCall) {
    match c
    case CreateArrangement(id, _, _) => id in p.arrangements
    case CreateVoice(id, _, _, _) => id in p.voices
    case HideArrangement(a, deleted) => deleted || a !in p.arrangements
    case HideVoice(v, deleted) => deleted || v !in p.voices
    case _ => true
  }

  lemma NothingRevealed(p: Layout, c: StructureCall)
    requires Consistent(p) && MakesNothingLive(p, c)
    ensures forall l: Location | IsLive(Changed(p, c), l) :: IsLive(p, l)
  {
  }

  lemma NoReuse(p: Layout, rows: map<Id, File>, c: StructureCall)
    requires Consistent(p) && SlugsApart(p, rows) && RowsPlaced(p, rows) && MakesNothingLive(p, c)
    ensures SlugsApart(Changed(p, c), rows) && !Reuses(p, rows, c)
  {
    NothingRevealed(p, c);
    KeepsPlaces(p, c);
    ApartAfter(p, Changed(p, c), rows, {});
  }

  /** A structural call keeps slugs apart exactly when it does not use again the
      slugs of another place that has files. */
  lemma SlugsApartIff(p: Layout, rows: map<Id, File>, c: StructureCall)
    requires Consistent(p) && SlugsApart(p, rows) && RowsPlaced(p, rows) && Accepts(p, c)
    ensures SlugsApart(Changed(p, c), rows) <==> !Reuses(p, rows, c)
  {
    if MakesNothingLive(p, c) {
      NoReuse(p, rows, c);
    } else {
      match c
      case CreateArrangement(id, org, title) => ArrangementReuse(p, rows, id, org, title);
      case CreateVoice(id, arr, name, instrument) => VoiceReuse(p, rows, id, arr, name, instrument);
      case HideArrangement(a, _) => RestoredArrangementReuse(p, rows, a);
      case HideVoice(v, _) => RestoredVoiceReuse(p, rows, v);
    }
  }
}
