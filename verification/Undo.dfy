/**
 * Removing and restoring as inverse operations on the item table, and the list
 * of removed items offered for restoring.
 */
module Undo {
  import opened Wrappers
  import opened Schema
  import opened Ordering
  import opened ItemTable

  /** `remove` on a table: nothing happens when no live item matches. */
  ghost function RemoveStep(items: Items, coll: Id, i: Id, at: Time): Items {
    if IsLiveIn(items, coll, i) then Removed(items, coll, i, at) else items
  }

  /** `restore` on a table: refused rows leave it alone. */
  ghost function RestoreStep(items: Items, coll: Id, i: Id): Items {
    if IsRemovedFrom(items, coll, i) && !Clashes(items, coll, items[i].arr) && !AtOffset(items, coll) then
      Restored(items, coll, i)
    else items
  }

  /** `reorder` on a table: only permutations of the live items are accepted. */
  ghost function ReorderStep(items: Items, coll: Id, ids: seq<Id>): Items {
    if multiset(ids) == multiset(LiveIds(items, coll)) then Renumbered(items, ids) else items
  }

  // ---------------------------------------------------------------------
  // What every renumbering keeps

  /** A table whose rows outside one collection are unchanged and whose live rows
      there are the given rows, numbered densely. */
  lemma DenseKeepsIndexUnique(items: Items, after: Items, coll: Id, ids: seq<Id>)
    requires ItemIndexUnique(items) && after.Keys == items.Keys && Dense(after, coll, ids)
    requires forall j <- items :: after[j].coll == items[j].coll
    requires forall j <- items | items[j].coll != coll :: after[j] == items[j]
    ensures ItemIndexUnique(after)
  {
    forall a <- after, b <- after |
      after[a].Live() && after[b].Live() && after[a].coll == after[b].coll && after[a].index == after[b].index
      ensures a == b
    {
      if after[a].coll == coll {
        assert a in Elements(ids) && b in Elements(ids);
      }
    }
  }

  lemma ReorderPermutes(items: Items, coll: Id, ids: seq<Id>)
    requires ItemIndexUnique(items) && multiset(ids) == multiset(LiveIds(items, coll))
    ensures Dense(ReorderStep(items, coll, ids), coll, ids)
    ensures Sequence(ReorderStep(items, coll, ids), coll) == ids
    ensures ItemIndexUnique(ReorderStep(items, coll, ids))
    ensures forall j <- items | items[j].coll != coll || !items[j].Live() ::
              ReorderStep(items, coll, ids)[j] == items[j]
  {
    AcceptedIsPermutation(ids, LiveIds(items, coll));
    RenumberedIsDense(items, coll, ids);
    DenseKeepsIndexUnique(items, Renumbered(items, ids), coll, ids);
    DenseSequence(Renumbered(items, ids), coll, ids);
  }

  lemma RemoveSequence(items: Items, coll: Id, i: Id, at: Time)
    requires ItemIndexUnique(items) && IsLiveIn(items, coll, i)
    ensures Sequence(Removed(items, coll, i, at), coll) == Without(Sequence(items, coll), i)
    ensures ItemIndexUnique(Removed(items, coll, i, at))
  {
    RemoveDeletes(items, coll, i, at);
    DenseKeepsIndexUnique(items, Removed(items, coll, i, at), coll, Without(Sequence(items, coll), i));
    DenseSequence(Removed(items, coll, i, at), coll, Without(Sequence(items, coll), i));
  }

  lemma RestoreSequence(items: Items, coll: Id, i: Id)
    requires ItemIndexUnique(items) && IsRemovedFrom(items, coll, i)
    ensures Sequence(Restored(items, coll, i), coll)
         == InsertAt(Sequence(items, coll), RestorePosition(items, coll, i), i)
    ensures ItemIndexUnique(Restored(items, coll, i))
  {
    RestoreInserts(items, coll, i);
    var order := InsertAt(Sequence(items, coll), RestorePosition(items, coll, i), i);
    DenseKeepsIndexUnique(items, Restored(items, coll, i), coll, order);
    DenseSequence(Restored(items, coll, i), coll, order);
  }

  // ---------------------------------------------------------------------
  // One removal undone

  lemma {:induction false} WithoutIs(ids: seq<Id>, i: Id)
    requires Distinct(ids) && i in ids
    ensures var p := PositionOf(ids, i); Without(ids, i) == ids[..p] + ids[p + 1..]
  {
    if ids[0] == i {
      WithoutAbsent(ids[1..], i);
    } else {
      WithoutIs(ids[1..], i);
    }
  }

  lemma {:induction false} WithoutAbsent(ids: seq<Id>, i: Id)
    requires i !in ids
    ensures Without(ids, i) == ids
  {
    if ids != [] {
      WithoutAbsent(ids[1..], i);
    }
  }

  /** Putting an id back gives the old sequence only at its old position. */
  lemma InsertUndoesWithout(ids: seq<Id>, i: Id, q: nat)
    requires Distinct(ids) && i in ids && q <= |Without(ids, i)|
    ensures InsertAt(Without(ids, i), q, i) == ids <==> q == PositionOf(ids, i)
  {
    WithoutIs(ids, i);
    var p := PositionOf(ids, i);
    var back := InsertAt(Without(ids, i), q, i);
    if q == p {
      assert Without(ids, i)[..p] == ids[..p] && Without(ids, i)[p..] == ids[p + 1..];
      assert ids == ids[..p] + [ids[p]] + ids[p + 1..];
    } else {
      assert back[q] == i;
    }
  }

  lemma {:induction false} NumbersAtLeastPosition(items: Items, ids: seq<Id>, p: nat)
    requires Increasing(items, ids) && p < |ids| && items[ids[0]].index >= 1
    ensures items[ids[p]].index >= p + 1
  {
    if p > 0 {
      NumbersAtLeastPosition(items, ids, p - 1);
    }
  }

  /** The rows after a removal: one soft-deleted, the rest changed in number at most. */
  lemma LiveAfterRemove(items: Items, coll: Id, i: Id, at: Time)
    requires IsLiveIn(items, coll, i)
    ensures var gone := Removed(items, coll, i, at);
            && gone.Keys == items.Keys
            && (forall j <- items :: gone[j].coll == items[j].coll && gone[j].arr == items[j].arr)
            && (forall j <- items :: gone[j].Live() <==> items[j].Live() && j != i)
            && (forall j <- items | j != i :: gone[j].deletedAt == items[j].deletedAt)
  {
  }

  lemma SizeAfterRemove(items: Items, coll: Id, i: Id, at: Time)
    requires ItemIndexUnique(items) && IsLiveIn(items, coll, i)
    ensures i in Sequence(items, coll) && Distinct(Sequence(items, coll))
    ensures |Sequence(Removed(items, coll, i, at), coll)| == |Sequence(items, coll)| - 1
  {
    assert i in Elements(Sequence(items, coll));
    RemoveSequence(items, coll, i, at);
    IncreasingIsDistinct(items, Sequence(items, coll));
    WithoutIs(Sequence(items, coll), i);
  }

  lemma NumberAtLeastPosition(items: Items, coll: Id, i: Id)
    requires ItemIndexUnique(items) && InRange(items, coll) && i in Sequence(items, coll)
    ensures i in items && PositionOf(Sequence(items, coll), i) + 1 <= items[i].index
  {
    var was := Sequence(items, coll);
    assert was[0] in Elements(was);
    NumbersAtLeastPosition(items, was, PositionOf(was, i));
  }

  lemma RemovedRow(items: Items, coll: Id, i: Id, at: Time)
    requires IsLiveIn(items, coll, i)
    ensures i in Removed(items, coll, i, at)
    ensures Removed(items, coll, i, at)[i] == items[i].(deletedAt := Some(at))
  {
    assert i !in Elements(Sequence(Deleted(items, i, at), coll));
  }

  /** Where a just-removed item would come back. */
  lemma PositionAfterRemove(items: Items, coll: Id, i: Id, at: Time)
    requires ItemIndexUnique(items) && InRange(items, coll) && IsLiveIn(items, coll, i)
    ensures i in Sequence(items, coll) && i in Removed(items, coll, i, at)
    ensures var p, n := PositionOf(Sequence(items, coll), i), |Sequence(items, coll)|;
            && p + 1 <= items[i].index
            && RestorePosition(Removed(items, coll, i, at), coll, i)
               == if items[i].index - 1 < n - 1 then items[i].index - 1 else n - 1
  {
    RemovedRow(items, coll, i, at);
    SizeAfterRemove(items, coll, i, at);
    NumberAtLeastPosition(items, coll, i);
  }

  /** Removing a piece and restoring it gives back the running order exactly when
      the piece carried its dense number, or was the last one: `restore` reads the
      stored number as a position. */
  lemma RestoreUndoesRemoveIff(items: Items, coll: Id, i: Id, at: Time)
    requires ItemIndexUnique(items) && InRange(items, coll) && IsLiveIn(items, coll, i)
    ensures i in Sequence(items, coll)
    ensures var was := Sequence(items, coll);
            Sequence(Restored(Removed(items, coll, i, at), coll, i), coll) == was
            <==> items[i].index == PositionOf(was, i) + 1 || PositionOf(was, i) == |was| - 1
  {
    var was, gone := Sequence(items, coll), Removed(items, coll, i, at);
    PositionAfterRemove(items, coll, i, at);
    RemoveSequence(items, coll, i, at);
    RemoveDeletes(items, coll, i, at);
    RestoreSequence(gone, coll, i);
    IncreasingIsDistinct(items, was);
    InsertUndoesWithout(was, i, RestorePosition(gone, coll, i));
  }

  /** The collection numbers its live items 1..n. */
  ghost predicate IsDense(items: Items, coll: Id) {
    Dense(items, coll, Sequence(items, coll))
  }

  lemma DensePosition(items: Items, coll: Id, i: Id)
    requires IsDense(items, coll) && i in Sequence(items, coll)
    ensures i in items && items[i].index == PositionOf(Sequence(items, coll), i) + 1
  {
    var p := PositionOf(Sequence(items, coll), i);
    assert Sequence(items, coll)[p] == i;
  }

  /** Renumbering by the old order undoes changes of number and one deletion. */
  lemma RowsComeBackFrom(items: Items, gone: Items, was: seq<Id>, i: Id)
    requires gone.Keys == items.Keys && i in items && items[i].Live()
    requires gone[i] == items[i].(deletedAt := gone[i].deletedAt)
    requires forall j <- items | j != i :: gone[j] == items[j].(index := gone[j].index)
    requires forall j <- items | j !in was :: gone[j] == items[j]
    requires forall j <- items | j in was :: items[j].index == PositionOf(was, j) + 1
    ensures Renumbered(Revived(gone, i), was) == items
  {
  }

  lemma RemovedRows(items: Items, coll: Id, i: Id, at: Time)
    requires IsLiveIn(items, coll, i)
    ensures var gone := Removed(items, coll, i, at);
            && gone.Keys == items.Keys
            && (forall j <- items | j != i :: gone[j] == items[j].(index := gone[j].index))
            && (forall j <- items | j !in LiveIds(items, coll) :: gone[j] == items[j])
  {
    var order := Sequence(Deleted(items, i, at), coll);
    assert forall j :: j in order <==> j in Elements(order);
    DeletedLive(items, coll, i, at);
  }

  lemma RowsComeBack(items: Items, coll: Id, i: Id, at: Time)
    requires IsDense(items, coll) && IsLiveIn(items, coll, i)
    ensures i in Removed(items, coll, i, at)
    ensures Renumbered(Revived(Removed(items, coll, i, at), i), Sequence(items, coll)) == items
  {
    var was := Sequence(items, coll);
    assert forall j :: j in was <==> j in Elements(was);
    forall j <- items | j in was
      ensures items[j].index == PositionOf(was, j) + 1
    {
      DensePosition(items, coll, j);
    }
    RemovedRow(items, coll, i, at);
    RemovedRows(items, coll, i, at);
    RowsComeBackFrom(items, Removed(items, coll, i, at), was, i);
  }

  /** On a dense collection the whole table comes back. */
  lemma RestoreUndoesRemove(items: Items, coll: Id, i: Id, at: Time)
    requires ItemIndexUnique(items) && InRange(items, coll) && IsDense(items, coll) && IsLiveIn(items, coll, i)
    ensures i in Removed(items, coll, i, at)
    ensures Restored(Removed(items, coll, i, at), coll, i) == items
  {
    var was, gone := Sequence(items, coll), Removed(items, coll, i, at);
    PositionAfterRemove(items, coll, i, at);
    DensePosition(items, coll, i);
    RemoveSequence(items, coll, i, at);
    IncreasingIsDistinct(items, was);
    InsertUndoesWithout(was, i, RestorePosition(gone, coll, i));
    RowsComeBack(items, coll, i, at);
  }

  // ---------------------------------------------------------------------
  // Any number of removals undone in reverse order

  ghost function RemoveAll(items: Items, coll: Id, gone: seq<Id>, at: Time): Items {
    if gone == [] then items
    else RemoveAll(RemoveStep(items, coll, gone[0], at), coll, gone[1..], at + 1)
  }

  /** Restore the last removed first. */
  ghost function RestoreAllReversed(items: Items, coll: Id, gone: seq<Id>): Items {
    if gone == [] then items
    else RestoreStep(RestoreAllReversed(items, coll, gone[1..]), coll, gone[0])
  }

  /** A table on which removals can be undone. */
  ghost predicate Undoable(items: Items, coll: Id) {
    ItemIndexUnique(items) && ItemArrangementUnique(items) && IsDense(items, coll) && InRange(items, coll)
  }

  lemma RemovalKeepsUndoable(items: Items, coll: Id, i: Id, at: Time)
    requires Undoable(items, coll) && IsLiveIn(items, coll, i)
    ensures Undoable(Removed(items, coll, i, at), coll)
    ensures LiveIds(Removed(items, coll, i, at), coll) == LiveIds(items, coll) - {i}
  {
    RemoveDeletes(items, coll, i, at);
    RemoveSequence(items, coll, i, at);
    LiveAfterRemove(items, coll, i, at);
    RangeAfterRemove(items, coll, i, at);
  }

  lemma RemovedDoesNotClash(items: Items, coll: Id, i: Id, at: Time)
    requires ItemArrangementUnique(items) && IsLiveIn(items, coll, i)
    ensures IsRemovedFrom(Removed(items, coll, i, at), coll, i)
    ensures !Clashes(Removed(items, coll, i, at), coll, Removed(items, coll, i, at)[i].arr)
  {
    LiveAfterRemove(items, coll, i, at);
  }

  lemma RemovalCanBeUndone(items: Items, coll: Id, i: Id, at: Time) returns (gone: Items)
    requires Undoable(items, coll) && IsLiveIn(items, coll, i)
    ensures gone == RemoveStep(items, coll, i, at) && Undoable(gone, coll)
    ensures LiveIds(gone, coll) == LiveIds(items, coll) - {i}
    ensures RestoreStep(gone, coll, i) == items
  {
    gone := Removed(items, coll, i, at);
    RemovalKeepsUndoable(items, coll, i, at);
    RemovedDoesNotClash(items, coll, i, at);
    RangeAfterRemove(items, coll, i, at);
    RestoreUndoesRemove(items, coll, i, at);
    RestoreGoesThrough(gone, coll, i, items);
  }

  lemma RestoreGoesThrough(gone: Items, coll: Id, i: Id, items: Items)
    requires IsRemovedFrom(gone, coll, i) && !Clashes(gone, coll, gone[i].arr) && !AtOffset(gone, coll)
    requires Restored(gone, coll, i) == items
    ensures RestoreStep(gone, coll, i) == items
  {
  }

  lemma RangeAfterRemove(items: Items, coll: Id, i: Id, at: Time)
    requires ItemIndexUnique(items) && IsLiveIn(items, coll, i) && InRange(items, coll) && IsDense(items, coll)
    ensures InRange(Removed(items, coll, i, at), coll)
    ensures !AtOffset(Removed(items, coll, i, at), coll)
  {
    var gone, left := Removed(items, coll, i, at), Without(Sequence(items, coll), i);
    RemoveDeletes(items, coll, i, at);
    DenseRanges(items, coll, Sequence(items, coll));
    DenseRanges(gone, coll, left);
    assert i in Elements(Sequence(items, coll));
    WithoutIs(Sequence(items, coll), i);
    assert Legal(gone, coll);
  }

  lemma UndoUnfolds(items: Items, coll: Id, gone: seq<Id>, at: Time, next: Items)
    requires gone != [] && next == RemoveStep(items, coll, gone[0], at)
    requires RestoreAllReversed(RemoveAll(next, coll, gone[1..], at + 1), coll, gone[1..]) == next
    ensures RestoreAllReversed(RemoveAll(items, coll, gone, at), coll, gone) == RestoreStep(next, coll, gone[0])
  {
  }

  lemma RestIsLive(gone: seq<Id>, live: set<Id>)
    requires gone != [] && Distinct(gone) && Elements(gone) <= live
    ensures Distinct(gone[1..]) && Elements(gone[1..]) <= live - {gone[0]}
  {
    TailElements(gone);
  }

  /** From a dense collection, removing any distinct pieces in any order and
      restoring them in reverse gives back every row. */
  lemma {:induction false} ReverseRestoresUndoRemoves(items: Items, coll: Id, gone: seq<Id>, at: Time)
    requires Undoable(items, coll)
    requires Distinct(gone) && Elements(gone) <= LiveIds(items, coll)
    ensures RestoreAllReversed(RemoveAll(items, coll, gone, at), coll, gone) == items
  {
    if gone != [] {
      assert gone[0] in Elements(gone);
      var next := RemovalCanBeUndone(items, coll, gone[0], at);
      RestIsLive(gone, LiveIds(items, coll));
      ReverseRestoresUndoRemoves(next, coll, gone[1..], at + 1);
      UndoUnfolds(items, coll, gone, at, next);
    }
  }

  // ---------------------------------------------------------------------
  // The list of removed items

  /** Deletion times are below the clock and never repeat. */
  predicate Times(items: Items, now: Time) {
    && (forall i <- items :: items[i].deletedAt.Some? ==> items[i].deletedAt.value < now)
    && forall i <- items, j <- items |
         items[i].deletedAt.Some? && items[i].deletedAt == items[j].deletedAt :: i == j
  }

  lemma RemoveKeepsTimes(items: Items, coll: Id, i: Id, now: Time)
    requires ItemIndexUnique(items) && Times(items, now) && IsLiveIn(items, coll, i)
    ensures Times(Removed(items, coll, i, now), now + 1)
  {
    assert forall j <- items :: j != i ==> Removed(items, coll, i, now)[j].deletedAt == items[j].deletedAt;
  }

  lemma RestoreKeepsTimes(items: Items, coll: Id, i: Id, now: Time)
    requires ItemIndexUnique(items) && Times(items, now) && IsRemovedFrom(items, coll, i)
    ensures Times(Restored(items, coll, i), now)
  {
    assert forall j <- items :: j != i ==> Restored(items, coll, i)[j].deletedAt == items[j].deletedAt;
  }

  /** The removed items a live collection offers for restoring: the newest removal of
      each arrangement that is not live in it again. */
  function Restorable(items: Items, coll: Id, collLive: bool): set<Id> {
    set i <- items |
      && collLive && IsRemovedFrom(items, coll, i)
      && !(exists live <- items :: items[live].coll == coll && items[live].arr == items[i].arr && items[live].Live())
      && forall newer <- items | IsRemovedFrom(items, coll, newer) && items[newer].arr == items[i].arr ::
           items[newer].deletedAt.value <= items[i].deletedAt.value
  }

  /** A removed row of a live collection can be restored exactly when it, or a newer
      removal of the same arrangement, is in the list (the live numbers being legal). */
  lemma RestorableMeansRestores(items: Items, coll: Id, collLive: bool, i: Id)
    requires ItemIndexUnique(items) && Legal(items, coll) && IsRemovedFrom(items, coll, i)
    ensures collLive && IsLiveIn(RestoreStep(items, coll, i), coll, i)
       <==> exists j <- Restorable(items, coll, collLive) ::
              items[j].arr == items[i].arr && items[i].deletedAt.value <= items[j].deletedAt.value
  {
    if !Clashes(items, coll, items[i].arr) {
      RestoreInserts(items, coll, i);
      var j := NewestRemoval(items, coll, i);
      assert collLive ==> j in Restorable(items, coll, collLive);
    }
  }

  lemma {:induction false} LatestExists(items: Items, s: set<Id>)
    requires s != {} && forall k <- s :: k in items && items[k].deletedAt.Some?
    ensures exists j <- s :: forall k <- s :: items[k].deletedAt.value <= items[j].deletedAt.value
  {
    var i :| i in s;
    if s != {i} {
      LatestExists(items, s - {i});
      var m :| m in s - {i} && forall k <- s - {i} :: items[k].deletedAt.value <= items[m].deletedAt.value;
      var latest := if items[m].deletedAt.value >= items[i].deletedAt.value then m else i;
      assert forall k <- s :: k == i || k in s - {i};
      assert latest in s && forall k <- s :: items[k].deletedAt.value <= items[latest].deletedAt.value;
    }
  }

  /** The most recent removal of the arrangement of a removed item. */
  lemma NewestRemoval(items: Items, coll: Id, i: Id) returns (j: Id)
    requires IsRemovedFrom(items, coll, i)
    ensures IsRemovedFrom(items, coll, j) && items[j].arr == items[i].arr
    ensures forall k <- items | IsRemovedFrom(items, coll, k) && items[k].arr == items[i].arr ::
              items[k].deletedAt.value <= items[j].deletedAt.value
  {
    var removals := set k <- items | IsRemovedFrom(items, coll, k) && items[k].arr == items[i].arr;
    assert i in removals;
    LatestExists(items, removals);
    j :| j in removals && forall k <- removals :: items[k].deletedAt.value <= items[j].deletedAt.value;
  }

  /** In a live collection, each arrangement with removed rows and no live row is
      listed exactly once. */
  lemma ListedExactlyOnce(items: Items, coll: Id, i: Id, now: Time)
    requires Times(items, now) && IsRemovedFrom(items, coll, i) && !Clashes(items, coll, items[i].arr)
    ensures exists j :: (set k <- Restorable(items, coll, true) | items[k].arr == items[i].arr) == {j}
  {
    var j := NewestRemoval(items, coll, i);
    var listed := set k <- Restorable(items, coll, true) | items[k].arr == items[i].arr;
    assert j in listed;
    assert forall k <- listed :: k == j;
    assert listed == {j};
  }

  // ---------------------------------------------------------------------
  // Appending without a number

  /** One past the highest live number, as the console computes it. */
  predicate IsAppendIndex(items: Items, coll: Id, n: int) {
    && (forall i <- LiveIds(items, coll) :: items[i].index < n)
    && if LiveIds(items, coll) == {} then n == 1 else exists i <- LiveIds(items, coll) :: items[i].index == n - 1
  }

  /** The appended number is not validated: it lands on the parking offset, where it
      blocks every later restore, exactly when the highest legal number is taken. */
  lemma AppendBlocksRestoreIff(items: Items, coll: Id, id: Id, arr: Id, n: int)
    requires Legal(items, coll) && id !in items && IsAppendIndex(items, coll, n)
    ensures AtOffset(items[id := Item(coll, arr, n, None)], coll)
       <==> exists i <- LiveIds(items, coll) :: items[i].index == MAX_INDEX
  {
    var after := items[id := Item(coll, arr, n, None)];
    assert id in LiveIds(after, coll) && after[id].index == n;
    assert forall i <- LiveIds(items, coll) :: i in LiveIds(after, coll) && after[i] == items[i];
    assert forall i <- LiveIds(after, coll) :: i == id || i in LiveIds(items, coll);
  }
}
