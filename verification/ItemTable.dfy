/**
 * The collection_item table under its unique indexes. Every row write is
 * checked on its own, as the database does, so an operation that renumbers a
 * collection must not collide with itself half way through.
 */
module ItemTable {
  import opened Wrappers
  import opened Text
  import opened Schema
  import opened Ordering

  const I32_MIN: int := -0x8000_0000

  /** What the database itself enforces on the table. */
  predicate Constraints(items: Items) {
    && ItemIndexUnique(items)
    && ItemArrangementUnique(items)
    && forall i <- items :: I32_MIN <= items[i].index <= I32_MAX
  }

  datatype WriteError = IndexTaken | ArrangementTaken | OutOfRange

  datatype ItemError = DuplicateIndex | DuplicateArrangement | UnknownReference | InvalidReorder | Database

  /** How a refused write is reported. */
  function MapWriteError(e: WriteError): ItemError {
    match e
    case IndexTaken => DuplicateIndex
    case ArrangementTaken => DuplicateArrangement
    case OutOfRange => Database
  }

  predicate IndexHeld(items: Items, id: Id, row: Item) {
    exists j <- items :: j != id && items[j].Live() && items[j].coll == row.coll && items[j].index == row.index
  }

  predicate ArrangementHeld(items: Items, id: Id, row: Item) {
    exists j <- items :: j != id && items[j].Live() && items[j].coll == row.coll && items[j].arr == row.arr
  }

  /** Why the database refuses a row, if it does. */
  function Refusal(items: Items, id: Id, row: Item): Option<WriteError> {
    if row.index < I32_MIN || row.index > I32_MAX then Some(OutOfRange)
    else if row.Live() && IndexHeld(items, id, row) then Some(IndexTaken)
    else if row.Live() && ArrangementHeld(items, id, row) then Some(ArrangementTaken)
    else None
  }

  /** A row is refused exactly when the table with it would break a constraint. */
  lemma RefusalIsViolation(items: Items, id: Id, row: Item)
    requires Constraints(items)
    ensures Refusal(items, id, row).None? <==> Constraints(items[id := row])
  {
    var after := items[id := row];
    assert after[id] == row;
    if row.Live() && IndexHeld(items, id, row) {
      var j :| j in items && j != id && items[j].Live() && items[j].coll == row.coll && items[j].index == row.index;
      assert after[j] == items[j];
    } else if row.Live() && ArrangementHeld(items, id, row) {
      var j :| j in items && j != id && items[j].Live() && items[j].coll == row.coll && items[j].arr == row.arr;
      assert after[j] == items[j];
    }
  }

  /** A new number never makes the arrangement index refuse a row. */
  lemma NumberKeepsArrangement(items: Items, id: Id, index: int)
    requires Constraints(items) && id in items
    ensures Refusal(items, id, items[id].(index := index)) != Some(ArrangementTaken)
  {
  }

  // ---------------------------------------------------------------------
  // The intermediate tables of the two renumbering statements

  function ParkedRow(row: Item): Item {
    row.(index := row.index + INDEX_PARK_OFFSET)
  }

  /** The live rows of the collection outside `todo` already parked. */
  function PartParked(items: Items, coll: Id, todo: set<Id>): Items {
    map i <- items ::
      if i in LiveIds(items, coll) && i !in todo then ParkedRow(items[i]) else items[i]
  }

  function Parked(items: Items, coll: Id): Items {
    PartParked(items, coll, {})
  }

  /** No live number lies exactly the offset above another, and none overflows when parked. */
  predicate Parkable(items: Items, coll: Id) {
    && (forall a <- LiveIds(items, coll), b <- LiveIds(items, coll) ::
          items[b].index != items[a].index + INDEX_PARK_OFFSET)
    && forall a <- LiveIds(items, coll) :: items[a].index + INDEX_PARK_OFFSET <= I32_MAX
  }

  lemma PartParkedConstraints(items: Items, coll: Id, todo: set<Id>)
    requires Constraints(items) && Parkable(items, coll)
    ensures Constraints(PartParked(items, coll, todo))
  {
    var part := PartParked(items, coll, todo);
    forall a <- part, b <- part |
      part[a].Live() && part[b].Live() && part[a].coll == part[b].coll && part[a].index == part[b].index
      ensures a == b
    {
      assert a in LiveIds(items, coll) <==> b in LiveIds(items, coll);
    }
  }

  lemma ParkedAlone(items: Items, coll: Id, a: Id)
    requires a in LiveIds(items, coll) && Constraints(PartParked(items, coll, LiveIds(items, coll) - {a}))
    ensures items[a].index + INDEX_PARK_OFFSET <= I32_MAX
    ensures forall b <- LiveIds(items, coll) :: items[b].index != items[a].index + INDEX_PARK_OFFSET
  {
    var part := PartParked(items, coll, LiveIds(items, coll) - {a});
    assert part[a].index == items[a].index + INDEX_PARK_OFFSET;
    assert forall b <- LiveIds(items, coll) | b != a :: part[b] == items[b];
  }

  /** The rows can be parked one at a time in whatever order exactly when no two
      live numbers differ by the offset and none overflows. */
  lemma ParkableInEveryOrderIff(items: Items, coll: Id)
    requires Constraints(items)
    ensures (forall todo | todo <= LiveIds(items, coll) :: Constraints(PartParked(items, coll, todo)))
       <==> Parkable(items, coll)
  {
    if Parkable(items, coll) {
      forall todo | todo <= LiveIds(items, coll)
        ensures Constraints(PartParked(items, coll, todo))
      {
        PartParkedConstraints(items, coll, todo);
      }
    } else if forall todo | todo <= LiveIds(items, coll) :: Constraints(PartParked(items, coll, todo)) {
      forall a <- LiveIds(items, coll)
        ensures items[a].index + INDEX_PARK_OFFSET <= I32_MAX
        ensures forall b <- LiveIds(items, coll) :: items[b].index != items[a].index + INDEX_PARK_OFFSET
      {
        ParkedAlone(items, coll, a);
      }
    }
  }

  /** An order in which a statement visits rows. */
  predicate Visits(order: seq<Id>, rows: set<Id>) {
    Distinct(order) && Elements(order) == rows
  }

  /** The row visited at `k` does not overflow, and the one numbered exactly the
      offset above it does not come later. */
  predicate SafeVisit(items: Items, order: seq<Id>, k: nat)
    requires k < |order|
  {
    && order[k] in items && items[order[k]].index + INDEX_PARK_OFFSET <= I32_MAX
    && forall q | k < q < |order| ::
         order[q] in items ==> items[order[q]].index != items[order[k]].index + INDEX_PARK_OFFSET
  }

  /** The first `n` visits violate nothing. */
  predicate SafeUpTo(items: Items, order: seq<Id>, n: nat)
    requires n <= |order|
  {
    forall k | 0 <= k < n :: SafeVisit(items, order, k)
  }

  /** In this order the parking statement violates nothing. */
  predicate SafeOrder(items: Items, order: seq<Id>) {
    SafeUpTo(items, order, |order|)
  }

  lemma SafeUpToStep(items: Items, order: seq<Id>, k: nat)
    requires k < |order|
    ensures SafeUpTo(items, order, k + 1) <==> SafeUpTo(items, order, k) && SafeVisit(items, order, k)
    ensures !SafeVisit(items, order, k) ==> !SafeOrder(items, order)
  {
  }

  lemma ParkableOrderIsSafe(items: Items, coll: Id, order: seq<Id>)
    requires Elements(order) <= LiveIds(items, coll) && Parkable(items, coll)
    ensures SafeOrder(items, order)
  {
    assert forall p :: 0 <= p < |order| ==> order[p] in Elements(order);
  }

  /** Some order visits one row first and the other rows after it. */
  lemma OrderFrom(items: Items, rows: set<Id>, a: Id) returns (order: seq<Id>)
    requires rows <= items.Keys && a in rows && DistinctIndexes(items, rows)
    ensures Visits(order, rows) && order[0] == a
  {
    var rest := Sorted(items, rows - {a});
    SortedIncreases(items, rows - {a});
    IncreasingIsDistinct(items, rest);
    HeadElements(a, rest);
    assert forall p :: 0 <= p < |rest| ==> rest[p] in Elements(rest);
    order := [a] + rest;
  }

  lemma UnsafeFirst(items: Items, order: seq<Id>, b: Id)
    requires order != [] && b in Elements(order) && b != order[0] && order[0] in items && b in items
    requires items[b].index == items[order[0]].index + INDEX_PARK_OFFSET
    ensures !SafeOrder(items, order)
  {
    var q :| 0 <= q < |order| && order[q] == b;
    assert !SafeVisit(items, order, 0);
  }

  /** Every order is safe exactly when no two live numbers differ by the offset and
      none overflows. */
  lemma EveryOrderSafeIff(items: Items, coll: Id)
    requires ItemIndexUnique(items)
    ensures (forall order | Visits(order, LiveIds(items, coll)) :: SafeOrder(items, order)) <==> Parkable(items, coll)
  {
    if Parkable(items, coll) {
      forall order | Visits(order, LiveIds(items, coll))
        ensures SafeOrder(items, order)
      {
        ParkableOrderIsSafe(items, coll, order);
      }
    } else {
      var a :| a in LiveIds(items, coll)
               && (items[a].index + INDEX_PARK_OFFSET > I32_MAX
                   || exists b <- LiveIds(items, coll) :: items[b].index == items[a].index + INDEX_PARK_OFFSET);
      var order := OrderFrom(items, LiveIds(items, coll), a);
      if b :| b in LiveIds(items, coll) && items[b].index == items[a].index + INDEX_PARK_OFFSET {
        UnsafeFirst(items, order, b);
      }
      assert !SafeVisit(items, order, 0);
    }
  }

  /** The rows of `order` from position `k` on. */
  function Unvisited(items: Items, coll: Id, order: seq<Id>, k: nat): set<Id>
    requires k <= |order|
  {
    LiveIds(items, coll) - Elements(order[..k])
  }

  lemma VisitedIsGone(order: seq<Id>, k: nat, q: nat)
    requires k <= |order| && q < |order|
    ensures q < k ==> order[q] in Elements(order[..k])
  {
    if q < k {
      assert order[..k][q] == order[q];
    }
  }

  lemma UnvisitedStep(items: Items, coll: Id, order: seq<Id>, k: nat)
    requires Visits(order, LiveIds(items, coll)) && k < |order|
    ensures order[k] in Unvisited(items, coll, order, k)
    ensures Unvisited(items, coll, order, k + 1) == Unvisited(items, coll, order, k) - {order[k]}
    ensures forall j <- Unvisited(items, coll, order, k) :: exists q :: k <= q < |order| && order[q] == j
  {
    assert order[..k + 1] == order[..k] + [order[k]];
    ElementsSnoc(order[..k], order[k]);
    assert order[k] in Elements(order);
    forall j <- Unvisited(items, coll, order, k)
      ensures exists q :: k <= q < |order| && order[q] == j
    {
      assert j in Elements(order);
      var q :| 0 <= q < |order| && order[q] == j;
      VisitedIsGone(order, k, q);
    }
  }

  /** The visit of one row is refused exactly when its number overflows or the row
      with the parked number has not been visited yet. */
  lemma VisitRefusedIff(items: Items, coll: Id, order: seq<Id>, k: nat)
    requires Constraints(items) && Visits(order, LiveIds(items, coll)) && k < |order|
    ensures var part := PartParked(items, coll, Unvisited(items, coll, order, k));
            var i := order[k];
            && i in part
            && (Refusal(part, i, ParkedRow(part[i])).None? <==> SafeVisit(items, order, k))
  {
    var todo, i := Unvisited(items, coll, order, k), order[k];
    var part := PartParked(items, coll, todo);
    UnvisitedStep(items, coll, order, k);
    VisitHeld(items, coll, todo, i);
    forall q | k < q < |order|
      ensures order[q] in todo && order[q] != i
    {
      LaterIsUnvisited(items, coll, order, k, q);
    }
  }

  lemma LaterIsUnvisited(items: Items, coll: Id, order: seq<Id>, k: nat, q: nat)
    requires Visits(order, LiveIds(items, coll)) && k <= q < |order|
    ensures order[q] in Unvisited(items, coll, order, k)
  {
    assert order[q] in Elements(order);
    assert forall p :: 0 <= p < k ==> order[..k][p] == order[p] != order[q];
  }

  /** The parked number is held exactly by an unvisited row that has it. */
  lemma VisitHeld(items: Items, coll: Id, todo: set<Id>, i: Id)
    requires Constraints(items) && i in todo && todo <= LiveIds(items, coll)
    ensures var part := PartParked(items, coll, todo);
            var row := ParkedRow(part[i]);
            && part[i] == items[i] && !ArrangementHeld(part, i, row)
            && (IndexHeld(part, i, row) <==>
                  exists j <- todo :: j != i && items[j].index == items[i].index + INDEX_PARK_OFFSET)
  {
    var part := PartParked(items, coll, todo);
    forall j <- part
      ensures part[j].Live() == items[j].Live() && part[j].coll == items[j].coll && part[j].arr == items[j].arr
      ensures part[j].index == items[j].index
                               + if j in LiveIds(items, coll) && j !in todo then INDEX_PARK_OFFSET else 0
    {
    }
    if j :| j in todo && j != i && items[j].index == items[i].index + INDEX_PARK_OFFSET {
      assert j in part && part[j].index == items[j].index;
    }
  }

  /** The table when the first `k` rows of the order have been visited. */
  function Stage(items: Items, coll: Id, order: seq<Id>, k: nat): Items
    requires k <= |order|
  {
    PartParked(items, coll, Unvisited(items, coll, order, k))
  }

  lemma StagesFrom(items: Items, coll: Id, order: seq<Id>)
    requires Visits(order, LiveIds(items, coll))
    ensures Stage(items, coll, order, 0) == items && Stage(items, coll, order, |order|) == Parked(items, coll)
  {
    NothingParked(items, coll);
    assert Elements(order[..0]) == {} && order[..|order|] == order;
    assert Unvisited(items, coll, order, 0) == LiveIds(items, coll);
    assert Unvisited(items, coll, order, |order|) == {};
  }

  /** One visit writes one row, and is refused unless it is safe. */
  lemma StageStep(items: Items, coll: Id, order: seq<Id>, k: nat)
    requires Constraints(items) && Visits(order, LiveIds(items, coll)) && k < |order|
    ensures var part, i := Stage(items, coll, order, k), order[k];
            && i in part
            && Stage(items, coll, order, k + 1) == part[i := ParkedRow(part[i])]
            && (Refusal(part, i, ParkedRow(part[i])).None? <==> SafeVisit(items, order, k))
  {
    UnvisitedStep(items, coll, order, k);
    PartParkedStep(items, coll, Unvisited(items, coll, order, k), order[k]);
    VisitRefusedIff(items, coll, order, k);
  }

  lemma PartParkedStep(items: Items, coll: Id, todo: set<Id>, i: Id)
    requires i in todo && todo <= LiveIds(items, coll)
    ensures var part := PartParked(items, coll, todo);
            && i in part && part[i] == items[i]
            && PartParked(items, coll, todo - {i}) == part[i := ParkedRow(part[i])]
  {
  }

  lemma NothingParked(items: Items, coll: Id)
    ensures PartParked(items, coll, LiveIds(items, coll)) == items
  {
  }

  lemma ElementsSnoc(ids: seq<Id>, i: Id)
    ensures Elements(ids + [i]) == Elements(ids) + {i}
  {
    assert forall j :: j in ids + [i] <==> j in ids || j == i;
  }

  /** Everything a batch of number assignments relies on: its rows are live in the
      collection, and every live row there has a number above the batch's, or its
      last one and is of the batch. */
  predicate ReadyToAssign(items: Items, coll: Id, ids: seq<Id>) {
    && Constraints(items) && Distinct(ids) && |ids| <= I32_MAX
    && (forall p :: 0 <= p < |ids| ==> ids[p] in LiveIds(items, coll))
    && forall i <- LiveIds(items, coll) :: items[i].index > |ids| || (items[i].index == |ids| && i in ids)
  }

  /** Positive live numbers, and no more of them than the offset. */
  predicate Renumberable(items: Items, coll: Id) {
    && (forall i <- LiveIds(items, coll) :: 1 <= items[i].index)
    && |LiveIds(items, coll)| <= INDEX_PARK_OFFSET
  }

  lemma InRangeIsRenumberable(items: Items, coll: Id)
    requires ItemIndexUnique(items)
    ensures InRange(items, coll) ==> Renumberable(items, coll) && Parkable(items, coll)
  {
    LiveCountBounded(items, coll);
  }

  lemma PrefixConstraints(items: Items, coll: Id, ids: seq<Id>, n: nat)
    requires ReadyToAssign(items, coll, ids) && n <= |ids|
    ensures Constraints(Renumbered(items, ids[..n]))
  {
    var part := Renumbered(items, ids[..n]);
    forall a <- part, b <- part |
      part[a].Live() && part[b].Live() && part[a].coll == part[b].coll && part[a].index == part[b].index
      ensures a == b
    {
      if a in ids[..n] || b in ids[..n] {
        assert a in LiveIds(items, coll) && b in LiveIds(items, coll);
      }
    }
  }

  lemma PrefixConstraintsIf(items: Items, coll: Id, ids: seq<Id>, n: nat)
    requires n <= |ids|
    ensures ReadyToAssign(items, coll, ids) ==> Constraints(Renumbered(items, ids[..n]))
  {
    if ReadyToAssign(items, coll, ids) {
      PrefixConstraints(items, coll, ids, n);
    }
  }

  lemma NothingAssigned(items: Items, ids: seq<Id>)
    ensures Renumbered(items, ids[..0]) == items
  {
  }

  lemma PrefixStep(items: Items, ids: seq<Id>, n: nat)
    requires Distinct(ids) && n < |ids| && ids[n] in items
    ensures Renumbered(items, ids[..n + 1])
         == Renumbered(items, ids[..n])[ids[n] := Renumbered(items, ids[..n])[ids[n]].(index := n + 1)]
  {
    var longer, shorter := ids[..n + 1], ids[..n];
    assert longer == shorter + [ids[n]];
    forall i <- items
      ensures Renumbered(items, longer)[i]
           == Renumbered(items, shorter)[ids[n] := Renumbered(items, shorter)[ids[n]].(index := n + 1)][i]
    {
      if i == ids[n] {
        PositionIs(longer, n);
      } else if i in shorter {
        var p := PositionOf(shorter, i);
        assert longer[p] == i;
        PositionIs(longer, p);
      }
    }
  }

  lemma ParkedIsReady(items: Items, coll: Id, ids: seq<Id>)
    requires Constraints(Parked(items, coll)) && Visits(ids, LiveIds(items, coll)) && Renumberable(items, coll)
    ensures ReadyToAssign(Parked(items, coll), coll, ids)
  {
    DistinctSize(ids);
    assert LiveIds(Parked(items, coll), coll) == LiveIds(items, coll);
    assert forall p :: 0 <= p < |ids| ==> ids[p] in Elements(ids);
  }

  lemma RenumberedParked(items: Items, coll: Id, ids: seq<Id>)
    requires Elements(ids) == LiveIds(items, coll)
    ensures Renumbered(Parked(items, coll), ids) == Renumbered(items, ids)
  {
    assert forall i :: i in ids <==> i in Elements(ids);
  }

  /** `ids` is the increasing order of the part of `live` that is not in `todo`,
      and comes before all of `todo`. */
  predicate OrderedSoFar(items: Items, live: set<Id>, ids: seq<Id>, todo: set<Id>) {
    && todo <= live <= items.Keys
    && Increasing(items, ids) && Elements(ids) == live - todo
    && forall p, j :: 0 <= p < |ids| && j in todo ==> items[ids[p]].index < items[j].index
  }

  lemma OrderedStep(items: Items, live: set<Id>, ids: seq<Id>, todo: set<Id>, m: Id)
    requires OrderedSoFar(items, live, ids, todo)
    requires forall i <- live, j <- live | items[i].index == items[j].index :: i == j
    requires m in todo && forall j <- todo :: items[m].index <= items[j].index
    ensures OrderedSoFar(items, live, ids + [m], todo - {m})
  {
    ElementsSnoc(ids, m);
  }

  /** `SELECT id … ORDER BY index`: the live ids of a collection in index order. */
  method IdsInOrder(items: Items, coll: Id) returns (ids: seq<Id>)
    requires ItemIndexUnique(items)
    ensures IsOrder(items, coll, ids)
  {
    ids := [];
    var todo := LiveIds(items, coll);
    while todo != {}
      invariant OrderedSoFar(items, LiveIds(items, coll), ids, todo)
      decreases |todo|
    {
      LeastExists(items, todo);
      var m :| m in todo && forall j <- todo :: items[m].index <= items[j].index;
      OrderedStep(items, LiveIds(items, coll), ids, todo, m);
      ids := ids + [m];
      todo := todo - {m};
    }
  }

  lemma ParkedIsReadyIf(items: Items, coll: Id, ids: seq<Id>)
    requires Constraints(Parked(items, coll)) && Visits(ids, LiveIds(items, coll))
    ensures Renumberable(items, coll) ==> ReadyToAssign(Parked(items, coll), coll, ids)
  {
    if Renumberable(items, coll) {
      ParkedIsReady(items, coll, ids);
    }
  }

  lemma ParkedLive(items: Items, coll: Id, ids: seq<Id>)
    requires Elements(ids) == LiveIds(items, coll)
    ensures LiveIds(Parked(items, coll), coll) == LiveIds(items, coll)
    ensures forall p :: 0 <= p < |ids| ==> ids[p] in LiveIds(Parked(items, coll), coll)
  {
    assert forall p :: 0 <= p < |ids| ==> ids[p] in Elements(ids);
  }

  lemma DeletedKeeps(items: Items, coll: Id, i: Id, at: Time)
    requires Constraints(items) && IsLiveIn(items, coll, i)
    ensures Constraints(Deleted(items, i, at))
    ensures InRange(items, coll) ==> InRange(Deleted(items, i, at), coll)
  {
  }

  /** The parked table with the removed row revived above the parked block. */
  function Entered(items: Items, coll: Id, i: Id): Items
    requires i in items
  {
    Parked(items, coll)[i := items[i].(deletedAt := None, index := 2 * INDEX_PARK_OFFSET)]
  }

  predicate AtOffset(items: Items, coll: Id) {
    exists j <- LiveIds(items, coll) :: items[j].index == INDEX_PARK_OFFSET
  }

  lemma RestoredOrder(items: Items, coll: Id, i: Id, order: seq<Id>)
    requires ItemIndexUnique(items) && IsRemovedFrom(items, coll, i)
    requires order == InsertAt(Sequence(items, coll), RestorePosition(items, coll, i), i)
    ensures Distinct(order) && Elements(order) == LiveIds(items, coll) + {i}
  {
    var was := Sequence(items, coll);
    IncreasingIsDistinct(items, was);
    assert i in was ==> i in Elements(was);
    InsertDistinct(was, RestorePosition(items, coll, i), i);
  }

  /** The only thing that can refuse the revived row is a live item numbered OFFSET. */
  lemma EnteredRefusal(items: Items, coll: Id, i: Id)
    requires IsRemovedFrom(items, coll, i) && !Clashes(items, coll, items[i].arr)
    ensures Refusal(Parked(items, coll), i, items[i].(deletedAt := None, index := 2 * INDEX_PARK_OFFSET))
         == if AtOffset(items, coll) then Some(IndexTaken) else None
  {
    var parked := Parked(items, coll);
    if j :| j in LiveIds(items, coll) && items[j].index == INDEX_PARK_OFFSET {
      assert parked[j].index == 2 * INDEX_PARK_OFFSET && parked[j].Live() && parked[j].coll == coll && j != i;
    }
  }

  lemma EnteredLive(items: Items, coll: Id, i: Id)
    requires IsRemovedFrom(items, coll, i)
    ensures i in Parked(items, coll) && Parked(items, coll)[i] == items[i]
    ensures LiveIds(Entered(items, coll, i), coll) == LiveIds(items, coll) + {i}
  {
  }

  /** Assigning the order gives the restored table. */
  lemma EnteredRenumbered(items: Items, coll: Id, i: Id, order: seq<Id>)
    requires IsRemovedFrom(items, coll, i) && Elements(order) == LiveIds(items, coll) + {i}
    ensures Renumbered(Entered(items, coll, i), order) == Renumbered(Revived(items, i), order)
  {
    assert forall j :: j in order <==> j in Elements(order);
  }

  /** The order can be assigned once the revived row is in. */
  lemma EnteredIsReady(items: Items, coll: Id, i: Id, order: seq<Id>)
    requires IsRemovedFrom(items, coll, i) && Constraints(Entered(items, coll, i)) && Renumberable(items, coll)
    requires Visits(order, LiveIds(items, coll) + {i})
    ensures ReadyToAssign(Entered(items, coll, i), coll, order)
  {
    EnteredLive(items, coll, i);
    DistinctSize(order);
    assert |LiveIds(items, coll) + {i}| == |LiveIds(items, coll)| + 1;
    assert forall p :: 0 <= p < |order| ==> order[p] in Elements(order);
  }

  lemma EnteredIsReadyIf(items: Items, coll: Id, i: Id, order: seq<Id>)
    requires IsRemovedFrom(items, coll, i) && Constraints(Entered(items, coll, i))
    requires Visits(order, LiveIds(items, coll) + {i})
    ensures Renumberable(items, coll) ==> ReadyToAssign(Entered(items, coll, i), coll, order)
  {
    if Renumberable(items, coll) {
      EnteredIsReady(items, coll, i, order);
    }
  }

  /** How parking in this order and bringing a row back end. */
  function RestoreAnswer(items: Items, coll: Id, order: seq<Id>): Result<(), ItemError> {
    if !SafeOrder(items, order) then Err(Database)
    else if AtOffset(items, coll) then Err(DuplicateIndex)
    else Ok(())
  }

  lemma InRangeIsSafe(items: Items, coll: Id, order: seq<Id>)
    requires ItemIndexUnique(items) && Visits(order, LiveIds(items, coll))
    ensures InRange(items, coll) ==> Renumberable(items, coll) && SafeOrder(items, order)
  {
    InRangeIsRenumberable(items, coll);
    if Parkable(items, coll) {
      ParkableOrderIsSafe(items, coll, order);
    }
  }

  /** A deletion does not change the numbers of the rows that are left. */
  lemma DeletedOrder(items: Items, i: Id, at: Time, order: seq<Id>)
    requires i in items
    ensures SafeOrder(Deleted(items, i, at), order) <==> SafeOrder(items, order)
  {
    forall k | 0 <= k < |order|
      ensures SafeVisit(Deleted(items, i, at), order, k) <==> SafeVisit(items, order, k)
    {
    }
  }

  lemma DeletedInRangeIsSafe(items: Items, coll: Id, i: Id, at: Time, order: seq<Id>)
    requires Constraints(items) && IsLiveIn(items, coll, i) && Visits(order, LiveIds(items, coll) - {i})
    ensures InRange(items, coll) ==> Renumberable(Deleted(items, i, at), coll) && SafeOrder(items, order)
  {
    DeletedKeeps(items, coll, i, at);
    DeletedLive(items, coll, i, at);
    DeletedOrder(items, i, at, order);
    InRangeIsSafe(Deleted(items, i, at), coll, order);
  }

  class Table {
    var items: Items
    var now: Time
    const colls: set<Id>
    const arrs: set<Id>

    /** An empty table beside these collections and arrangements. */
    constructor (colls: set<Id>, arrs: set<Id>)
      ensures items == map[] && now == 0 && Constraints(items) && this.colls == colls && this.arrs == arrs
    {
      items := map[];
      now := 0;
      this.colls := colls;
      this.arrs := arrs;
    }

    /** One row write, refused if the row would break a constraint. */
    method WriteRow(id: Id, row: Item) returns (refused: Option<WriteError>)
      requires Constraints(items)
      modifies this`items
      ensures refused == Refusal(old(items), id, row)
      ensures refused.None? <==> Constraints(old(items)[id := row])
      ensures items == if refused.None? then old(items)[id := row] else old(items)
    {
      RefusalIsViolation(items, id, row);
      refused := Refusal(items, id, row);
      if refused.None? {
        items := items[id := row];
      }
    }

    /** Insert a new live item. A taken primary key is a database error; the foreign
        keys are checked after the indexes. */
    method Create(id: Id, coll: Id, arr: Id, index: int) returns (r: Result<(), ItemError>)
      requires Constraints(items)
      modifies this`items
      ensures Constraints(items)
      ensures r.Ok? <==> && id !in old(items) && Constraints(old(items)[id := Item(coll, arr, index, None)])
                         && coll in colls && arr in arrs
      ensures r == Err(UnknownReference) ==> coll !in colls || arr !in arrs
      ensures items == if r.Ok? then old(items)[id := Item(coll, arr, index, None)] else old(items)
    {
      if id in items {
        return Err(Database);
      }
      var was := items;
      var refused := WriteRow(id, Item(coll, arr, index, None));
      if refused.Some? {
        return Err(MapWriteError(refused.value));
      }
      if coll !in colls || arr !in arrs {
        items := was;
        return Err(UnknownReference);
      }
      return Ok(());
    }

    /** Move one live item; false when there is none. */
    method UpdateIndex(id: Id, index: int) returns (r: Result<bool, ItemError>)
      requires Constraints(items)
      modifies this`items
      ensures Constraints(items)
      ensures id !in old(items) || !old(items)[id].Live() ==> r == Ok(false) && items == old(items)
      ensures id in old(items) && old(items)[id].Live() ==>
                && (r.Ok? <==> Constraints(old(items)[id := old(items)[id].(index := index)]))
                && (r.Ok? ==> r.value && items == old(items)[id := old(items)[id].(index := index)])
                && (r.Err? ==> items == old(items))
    {
      if id !in items || !items[id].Live() {
        return Ok(false);
      }
      var refused := WriteRow(id, items[id].(index := index));
      match refused
      case Some(e) => return Err(MapWriteError(e));
      case None => return Ok(true);
    }

    /** The live ids in index order. */
    method LiveIdsInOrder(coll: Id) returns (ids: seq<Id>)
      requires Constraints(items)
      ensures ids == Sequence(items, coll)
    {
      ids := IdsInOrder(items, coll);
      SequenceIs(items, coll, ids);
    }

    /** One row of the parking statement. */
    method ParkOne(i: Id, ghost next: Items, ghost safe: bool) returns (refused: Option<WriteError>)
      requires Constraints(items) && i in items && next == items[i := ParkedRow(items[i])]
      requires Refusal(items, i, ParkedRow(items[i])).None? <==> safe
      modifies this`items
      ensures Constraints(items)
      ensures items == if safe then next else old(items)
      ensures refused.None? <==> safe
    {
      refused := WriteRow(i, ParkedRow(items[i]));
    }

    /** `k` rows have been parked without a violation. */
    ghost predicate Parking(was: Items, coll: Id, order: seq<Id>, k: nat)
      reads this
    {
      && Constraints(was) && Visits(order, LiveIds(was, coll)) && k <= |order|
      && Constraints(items) && items == Stage(was, coll, order, k) && SafeUpTo(was, order, k)
    }

    method ParkNext(coll: Id, order: seq<Id>, k: nat, ghost was: Items) returns (refused: Option<WriteError>)
      requires k < |order| && Parking(was, coll, order, k)
      modifies this`items
      ensures Constraints(items)
      ensures refused.None? ==> Parking(was, coll, order, k + 1)
      ensures refused.Some? ==> !SafeOrder(was, order)
    {
      StageStep(was, coll, order, k);
      SafeUpToStep(was, order, k);
      refused := ParkOne(order[k], Stage(was, coll, order, k + 1), SafeVisit(was, order, k));
    }

    /** Park every live row, in the order the statement visits them. */
    method Park(coll: Id, order: seq<Id>) returns (refused: Option<WriteError>)
      requires Constraints(items) && Visits(order, LiveIds(items, coll))
      modifies this`items
      ensures Constraints(items)
      ensures refused.None? ==> items == Parked(old(items), coll)
      ensures refused.None? <==> SafeOrder(old(items), order)
    {
      ghost var was := items;
      StagesFrom(was, coll, order);
      var k := 0;
      while k < |order|
        invariant 0 <= k <= |order| && Parking(was, coll, order, k)
      {
        refused := ParkNext(coll, order, k, was);
        if refused.Some? {
          return;
        }
        k := k + 1;
      }
      return None;
    }

    /** One row of the assignment loop. */
    method AssignOne(coll: Id, ids: seq<Id>, position: nat, ghost was: Items) returns (refused: Option<WriteError>)
      requires Constraints(items) && Distinct(ids) && position < |ids|
      requires items == Renumbered(was, ids[..position])
      requires forall p :: 0 <= p < |ids| ==> ids[p] in LiveIds(was, coll)
      modifies this`items
      ensures Constraints(items)
      ensures refused.None? ==> items == Renumbered(was, ids[..position + 1])
      ensures Constraints(Renumbered(was, ids[..position + 1])) ==> refused.None?
      ensures refused != Some(ArrangementTaken)
    {
      var id := ids[position];
      NumberKeepsArrangement(items, id, position + 1);
      PrefixStep(was, ids, position);
      if id in items && items[id].coll == coll && items[id].Live() {
        refused := WriteRow(id, items[id].(index := position + 1));
      } else {
        assert false;
      }
    }

    /** Give the listed rows the numbers 1, 2, … one row at a time. */
    method AssignOrder(coll: Id, ids: seq<Id>) returns (refused: Option<WriteError>)
      requires Constraints(items) && Distinct(ids)
      requires forall p :: 0 <= p < |ids| ==> ids[p] in LiveIds(items, coll)
      modifies this`items
      ensures Constraints(items)
      ensures refused.None? ==> items == Renumbered(old(items), ids)
      ensures ReadyToAssign(old(items), coll, ids) ==> refused.None?
      ensures refused != Some(ArrangementTaken)
    {
      ghost var was := items;
      var position := 0;
      NothingAssigned(was, ids);
      while position < |ids|
        invariant 0 <= position <= |ids|
        invariant Constraints(items)
        invariant items == Renumbered(was, ids[..position])
      {
        PrefixConstraintsIf(was, coll, ids, position + 1);
        refused := AssignOne(coll, ids, position, was);
        if refused.Some? {
          return;
        }
        position := position + 1;
      }
      assert ids[..position] == ids;
      return None;
    }

    /** Renumber from a consistent table: park, visiting the rows in some order, then
        assign. */
    method Renumber(coll: Id, ids: seq<Id>, order: seq<Id>) returns (r: Result<(), ItemError>)
      requires Constraints(items) && Visits(ids, LiveIds(items, coll)) && Visits(order, LiveIds(items, coll))
      modifies this`items
      ensures Constraints(items)
      ensures r.Ok? ==> items == Renumbered(old(items), ids) && SafeOrder(old(items), order)
      ensures r.Err? ==> r.error != InvalidReorder
      ensures Renumberable(old(items), coll) && SafeOrder(old(items), order) ==> r.Ok?
    {
      ghost var was := items;
      var refused := Park(coll, order);
      if refused.Some? {
        return Err(Database);
      }
      ParkedIsReadyIf(was, coll, ids);
      ParkedLive(was, coll, ids);
      refused := AssignOrder(coll, ids);
      RenumberedParked(was, coll, ids);
      match refused
      case Some(e) => return Err(MapWriteError(e));
      case None => return Ok(());
    }

    /** Reassign 1..n in the given order, which must be a permutation of the live
        items; on any failure the transaction leaves the table as it was. The rows
        are parked in `order`. */
    method Reorder(coll: Id, ids: seq<Id>, order: seq<Id>) returns (r: Result<(), ItemError>)
      requires Constraints(items) && Visits(order, LiveIds(items, coll))
      modifies this`items
      ensures Constraints(items)
      ensures r == Err(InvalidReorder) <==> multiset(ids) != multiset(LiveIds(old(items), coll))
      ensures r.Ok? ==> items == Renumbered(old(items), ids)
      ensures r.Err? ==> items == old(items)
      ensures Renumberable(old(items), coll) && multiset(ids) == multiset(LiveIds(old(items), coll)) ==>
                (r.Ok? <==> SafeOrder(old(items), order))
      ensures InRange(old(items), coll) && multiset(ids) == multiset(LiveIds(old(items), coll)) ==> r.Ok?
    {
      var was := items;
      var live := LiveIds(items, coll);
      AcceptedIsPermutation(ids, live);
      InRangeIsSafe(items, coll, order);
      if |ids| != |live| || Elements(ids) != live {
        return Err(InvalidReorder);
      }
      r := Renumber(coll, ids, order);
      if r.Err? {
        items := was;
      }
    }

    /** Soft-delete one live item, then renumber the rest. */
    method DeleteAndRenumber(coll: Id, id: Id, order: seq<Id>) returns (r: Result<(), ItemError>)
      requires Constraints(items) && IsLiveIn(items, coll, id) && Visits(order, LiveIds(items, coll) - {id})
      modifies this`items
      ensures Constraints(items)
      ensures r.Ok? ==> items == Removed(old(items), coll, id, now) && SafeOrder(old(items), order)
      ensures Renumberable(Deleted(old(items), id, now), coll) && SafeOrder(old(items), order) ==> r.Ok?
    {
      ghost var was := items;
      DeletedKeeps(was, coll, id, now);
      DeletedLive(was, coll, id, now);
      DeletedOrder(was, id, now, order);
      var refused := WriteRow(id, items[id].(deletedAt := Some(now)));
      var remaining := LiveIdsInOrder(coll);
      IncreasingIsDistinct(items, remaining);
      r := Renumber(coll, remaining, order);
    }

    /** Soft-delete one item and close the gap; false when no live item matched. The
        rows that are left are parked in `order`. */
    method Remove(coll: Id, id: Id, order: seq<Id>) returns (r: Result<bool, ItemError>)
      requires Constraints(items) && Visits(order, LiveIds(items, coll) - {id})
      modifies this
      ensures Constraints(items)
      ensures now == if r == Ok(true) then old(now) + 1 else old(now)
      ensures r == Ok(false) <==> !IsLiveIn(old(items), coll, id)
      ensures r == Ok(true) ==> items == Removed(old(items), coll, id, old(now))
      ensures r != Ok(true) ==> items == old(items)
      ensures IsLiveIn(old(items), coll, id) && Renumberable(Deleted(old(items), id, old(now)), coll) ==>
                (r == Ok(true) <==> SafeOrder(old(items), order))
      ensures InRange(old(items), coll) && IsLiveIn(old(items), coll, id) ==> r == Ok(true)
    {
      if !(id in items && items[id].coll == coll && items[id].Live()) {
        return Ok(false);
      }
      var was := items;
      DeletedInRangeIsSafe(was, coll, id, now, order);
      var done := DeleteAndRenumber(coll, id, order);
      if done.Err? {
        items := was;
        return Err(done.error);
      }
      now := now + 1;
      return Ok(true);
    }

    /** Revive the row above the parked block, then assign the order. */
    method Reenter(coll: Id, id: Id, ids: seq<Id>, ghost was: Items) returns (refused: Option<WriteError>)
      requires Constraints(was) && Constraints(items) && items == Parked(was, coll)
      requires IsRemovedFrom(was, coll, id) && !Clashes(was, coll, was[id].arr)
      requires Visits(ids, LiveIds(was, coll) + {id})
      modifies this`items
      ensures Constraints(items)
      ensures refused.None? ==> items == Renumbered(Revived(was, id), ids)
      ensures AtOffset(was, coll) ==> refused == Some(IndexTaken)
      ensures Renumberable(was, coll) && !AtOffset(was, coll) ==> refused == None
      ensures refused != Some(ArrangementTaken)
    {
      EnteredLive(was, coll, id);
      EnteredRefusal(was, coll, id);
      EnteredRenumbered(was, coll, id, ids);
      refused := WriteRow(id, items[id].(deletedAt := None, index := 2 * INDEX_PARK_OFFSET));
      if refused.None? {
        assert forall p :: 0 <= p < |ids| ==> ids[p] in Elements(ids);
        EnteredIsReadyIf(was, coll, id, ids);
        refused := AssignOrder(coll, ids);
      }
    }

    /** Park the live rows and put the revived one in order; undone on any failure. */
    method ParkAndReenter(coll: Id, id: Id, ids: seq<Id>, order: seq<Id>) returns (r: Result<(), ItemError>)
      requires Constraints(items) && IsRemovedFrom(items, coll, id) && !Clashes(items, coll, items[id].arr)
      requires Visits(ids, LiveIds(items, coll) + {id}) && Visits(order, LiveIds(items, coll))
      modifies this`items
      ensures Constraints(items)
      ensures r.Ok? ==> items == Renumbered(Revived(old(items), id), ids)
      ensures r.Err? ==> items == old(items) && r.error != DuplicateArrangement
      ensures Renumberable(old(items), coll) ==> r == RestoreAnswer(old(items), coll, order)
    {
      var was := items;
      var refused := Park(coll, order);
      if refused.Some? {
        items := was;
        return Err(Database);
      }
      refused := Reenter(coll, id, ids, was);
      if refused.Some? {
        items := was;
        return Err(MapWriteError(refused.value));
      }
      return Ok(());
    }

    /** Bring a removed item back at its old number, or at the end. The live rows are
        parked in `order`. */
    method Restore(coll: Id, id: Id, order: seq<Id>) returns (r: Result<bool, ItemError>)
      requires Constraints(items) && Visits(order, LiveIds(items, coll))
      modifies this`items
      ensures Constraints(items)
      ensures r == Ok(false) <==> !IsRemovedFrom(old(items), coll, id)
      ensures r == Ok(true) ==> items == Restored(old(items), coll, id)
      ensures r != Ok(true) ==> items == old(items)
      ensures IsRemovedFrom(old(items), coll, id) ==>
                (r == Err(DuplicateArrangement) <==> Clashes(old(items), coll, old(items)[id].arr))
      ensures IsRemovedFrom(old(items), coll, id) && !Clashes(old(items), coll, old(items)[id].arr)
              && Renumberable(old(items), coll) ==>
                && (r == Ok(true) <==> SafeOrder(old(items), order) && !AtOffset(old(items), coll))
                && (r == Err(DuplicateIndex) <==> SafeOrder(old(items), order) && AtOffset(old(items), coll))
      ensures IsRemovedFrom(old(items), coll, id) && !Clashes(old(items), coll, old(items)[id].arr)
              && InRange(old(items), coll) ==>
                r == if AtOffset(old(items), coll) then Err(DuplicateIndex) else Ok(true)
    {
      if !(id in items && items[id].coll == coll && !items[id].Live()) {
        return Ok(false);
      }
      var was := items;
      InRangeIsSafe(was, coll, order);
      var target := items[id];
      if exists j <- items :: items[j].coll == coll && items[j].arr == target.arr && items[j].Live() {
        return Err(DuplicateArrangement);
      }
      var live := LiveIdsInOrder(coll);
      var number := if target.index < 1 then 1 else target.index;
      var position := if number - 1 < |live| then number - 1 else |live|;
      var ids := live[..position] + [id] + live[position..];
      RestoredOrder(was, coll, id, ids);
      var entered := ParkAndReenter(coll, id, ids, order);
      match entered
      case Err(e) => return Err(e);
      case Ok(_) => return Ok(true);
    }
  }
}
