/**
 * The running order of a collection: what renumbering, removing and restoring
 * do to the item table, and what they do to the sequence of pieces.
 */
module Ordering {
  import opened Wrappers
  import opened Schema

  type Items = map<Id, Item>

  /** Highest legal piece number. */
  const MAX_INDEX: int := 999_999

  /** The offset indexes are parked at while a collection is renumbered. */
  const INDEX_PARK_OFFSET: int := 1_000_000

  predicate IsValidIndex(index: int) {
    1 <= index <= MAX_INDEX
  }

  function LiveIds(items: Items, coll: Id): set<Id> {
    set i <- items | items[i].coll == coll && items[i].Live()
  }

  predicate Distinct(ids: seq<Id>) {
    forall a, b :: 0 <= a < b < |ids| ==> ids[a] != ids[b]
  }

  function Elements(ids: seq<Id>): set<Id> {
    set i <- ids
  }

  /** Strictly increasing piece numbers. */
  predicate Increasing(items: Items, ids: seq<Id>) {
    && (forall a :: 0 <= a < |ids| ==> ids[a] in items)
    && (forall a, b :: 0 <= a < b < |ids| ==> items[ids[a]].index < items[ids[b]].index)
  }

  /** The collection's live items in index order. */
  predicate IsOrder(items: Items, coll: Id, ids: seq<Id>) {
    Increasing(items, ids) && Elements(ids) == LiveIds(items, coll)
  }

  lemma {:induction false} LeastExists(items: Items, s: set<Id>)
    requires s != {} && s <= items.Keys
    ensures exists m <- s :: forall j <- s :: items[m].index <= items[j].index
  {
    var i :| i in s;
    if s != {i} {
      LeastExists(items, s - {i});
      var m :| m in s - {i} && forall j <- s - {i} :: items[m].index <= items[j].index;
      var least := if items[m].index <= items[i].index then m else i;
      assert forall j <- s :: j == i || j in s - {i};
      assert least in s && forall j <- s :: items[least].index <= items[j].index;
    }
  }

  predicate DistinctIndexes(items: Items, s: set<Id>)
    requires s <= items.Keys
  {
    forall i <- s, j <- s | items[i].index == items[j].index :: i == j
  }

  lemma HeadElements(m: Id, rest: seq<Id>)
    ensures Elements([m] + rest) == {m} + Elements(rest)
  {
    assert forall i :: i in [m] + rest <==> i == m || i in rest;
  }

  ghost function Sorted(items: Items, s: set<Id>): (ids: seq<Id>)
    requires s <= items.Keys
    ensures Elements(ids) == s
  {
    if s == {} then []
    else
      LeastExists(items, s);
      var m :| m in s && forall j <- s :: items[m].index <= items[j].index;
      HeadElements(m, Sorted(items, s - {m}));
      [m] + Sorted(items, s - {m})
  }

  lemma LeastFirst(items: Items, m: Id, rest: seq<Id>)
    requires Increasing(items, rest) && m in items
    requires forall j <- Elements(rest) :: items[m].index < items[j].index
    ensures Increasing(items, [m] + rest)
  {
    assert forall a :: 0 <= a < |rest| ==> rest[a] in Elements(rest);
  }

  lemma {:induction false} SortedIncreases(items: Items, s: set<Id>)
    requires s <= items.Keys && DistinctIndexes(items, s)
    ensures Increasing(items, Sorted(items, s))
  {
    if s != {} {
      LeastExists(items, s);
      var ids := Sorted(items, s);
      var m := ids[0];
      assert m in s && ids == [m] + Sorted(items, s - {m});
      SortedIncreases(items, s - {m});
      LeastFirst(items, m, Sorted(items, s - {m}));
    }
  }

  /** The running order of a collection. */
  ghost function Sequence(items: Items, coll: Id): (ids: seq<Id>)
    ensures Elements(ids) == LiveIds(items, coll)
    ensures ItemIndexUnique(items) ==> IsOrder(items, coll, ids)
  {
    if ItemIndexUnique(items) then
      SortedIncreases(items, LiveIds(items, coll));
      Sorted(items, LiveIds(items, coll))
    else Sorted(items, LiveIds(items, coll))
  }

  lemma IncreasingIsDistinct(items: Items, ids: seq<Id>)
    requires Increasing(items, ids)
    ensures Distinct(ids)
  {
  }

  lemma {:induction false} DistinctSize(ids: seq<Id>)
    requires Distinct(ids)
    ensures |Elements(ids)| == |ids|
  {
    if ids != [] {
      TailElements(ids);
      DistinctSize(ids[1..]);
    } else {
      assert Elements(ids) == {};
    }
  }

  /** There is only one increasing order of a set of items. */
  lemma {:induction false} OrderIsUnique(items: Items, a: seq<Id>, b: seq<Id>)
    requires Increasing(items, a) && Increasing(items, b) && Elements(a) == Elements(b)
    ensures a == b
  {
    IncreasingIsDistinct(items, a);
    IncreasingIsDistinct(items, b);
    DistinctSize(a);
    DistinctSize(b);
    if a != [] {
      assert a[0] in Elements(b) && b[0] in Elements(a);
      var k :| 0 <= k < |b| && b[k] == a[0];
      var l :| 0 <= l < |a| && a[l] == b[0];
      assert a[0] == b[0];
      assert a == [a[0]] + a[1..] && b == [b[0]] + b[1..];
      assert Elements(a[1..]) == Elements(a) - {a[0]} by { TailElements(a); }
      assert Elements(b[1..]) == Elements(b) - {b[0]} by { TailElements(b); }
      OrderIsUnique(items, a[1..], b[1..]);
    }
  }

  lemma TailElements(ids: seq<Id>)
    requires ids != [] && Distinct(ids)
    ensures Elements(ids[1..]) == Elements(ids) - {ids[0]}
  {
    assert ids == [ids[0]] + ids[1..];
    assert forall i :: i in ids <==> i == ids[0] || i in ids[1..];
  }

  lemma SequenceIs(items: Items, coll: Id, ids: seq<Id>)
    requires ItemIndexUnique(items) && IsOrder(items, coll, ids)
    ensures Sequence(items, coll) == ids
  {
    OrderIsUnique(items, Sequence(items, coll), ids);
  }

  // ---------------------------------------------------------------------
  // Renumbering

  /** The position of an id in a list that holds it. */
  function PositionOf(ids: seq<Id>, i: Id): (p: nat)
    requires i in ids
    ensures p < |ids| && ids[p] == i
  {
    if ids[0] == i then 0 else 1 + PositionOf(ids[1..], i)
  }

  lemma PositionIs(ids: seq<Id>, p: nat)
    requires p < |ids| && Distinct(ids)
    ensures PositionOf(ids, ids[p]) == p
  {
  }

  /** The listed rows get the numbers 1..n in list order; no other row changes. */
  function Renumbered(items: Items, ids: seq<Id>): Items {
    map i <- items :: if i in ids then items[i].(index := PositionOf(ids, i) + 1) else items[i]
  }

  /** Piece numbers are exactly 1..n in running order. */
  predicate Dense(items: Items, coll: Id, ids: seq<Id>) {
    && Distinct(ids) && Elements(ids) == LiveIds(items, coll)
    && forall p :: 0 <= p < |ids| ==> ids[p] in items && items[ids[p]].index == p + 1
  }

  lemma RenumberedIsDense(items: Items, coll: Id, ids: seq<Id>)
    requires Distinct(ids) && Elements(ids) == LiveIds(items, coll)
    ensures Dense(Renumbered(items, ids), coll, ids)
    ensures forall i <- items | items[i].coll != coll || !items[i].Live() :: Renumbered(items, ids)[i] == items[i]
  {
    var after := Renumbered(items, ids);
    assert forall i :: i in ids <==> i in Elements(ids);
    assert LiveIds(after, coll) == LiveIds(items, coll);
    forall p | 0 <= p < |ids|
      ensures ids[p] in after && after[ids[p]].index == p + 1
    {
      PositionIs(ids, p);
      assert ids[p] in Elements(ids);
    }
  }

  lemma DenseIsOrder(items: Items, coll: Id, ids: seq<Id>)
    requires Dense(items, coll, ids)
    ensures IsOrder(items, coll, ids)
  {
  }

  lemma DenseSequence(items: Items, coll: Id, ids: seq<Id>)
    requires ItemIndexUnique(items) && Dense(items, coll, ids)
    ensures Sequence(items, coll) == ids
  {
    DenseIsOrder(items, coll, ids);
    SequenceIs(items, coll, ids);
  }

  // ---------------------------------------------------------------------
  // Ranges

  /** What renumbering needs of a collection: its live numbers lie in 1..OFFSET,
      so that parked numbers cannot meet unparked ones. */
  predicate InRange(items: Items, coll: Id) {
    forall i <- LiveIds(items, coll) :: 1 <= items[i].index <= INDEX_PARK_OFFSET
  }

  /** All live numbers are legal piece numbers. */
  predicate Legal(items: Items, coll: Id) {
    forall i <- LiveIds(items, coll) :: IsValidIndex(items[i].index)
  }

  /** Pigeonhole: distinct numbers in 1..n are at most n. */
  lemma {:induction false} Pigeonhole(items: Items, s: set<Id>, n: nat)
    requires s <= items.Keys && forall i <- s :: 1 <= items[i].index <= n
    requires forall i <- s, j <- s | items[i].index == items[j].index :: i == j
    ensures |s| <= n
  {
    if n == 0 {
      assert forall i <- s :: false;
    } else if i :| i in s && items[i].index == n {
      Pigeonhole(items, s - {i}, n - 1);
    } else {
      Pigeonhole(items, s, n - 1);
    }
  }

  lemma {:induction false} ElementsAtMost(ids: seq<Id>)
    ensures |Elements(ids)| <= |ids|
    ensures |Elements(ids)| == |ids| ==> Distinct(ids)
  {
    if ids == [] {
      assert Elements(ids) == {};
    } else {
      var rest := ids[1..];
      ElementsAtMost(rest);
      assert ids == [ids[0]] + rest;
      assert Elements(ids) == Elements(rest) + {ids[0]} by {
        assert forall i :: i in ids <==> i == ids[0] || i in rest;
      }
      if |Elements(ids)| == |ids| {
        assert ids[0] in Elements(rest) ==> Elements(ids) == Elements(rest);
        assert forall a :: 0 <= a < |rest| ==> rest[a] in Elements(rest);
      }
    }
  }

  lemma {:induction false} MultisetOfDistinct(ids: seq<Id>)
    requires Distinct(ids)
    ensures multiset(ids) == multiset(Elements(ids))
  {
    if ids != [] {
      TailElements(ids);
      MultisetOfDistinct(ids[1..]);
      assert ids == [ids[0]] + ids[1..];
    } else {
      assert Elements(ids) == {};
    }
  }

  /** The length and set comparison of the code accepts exactly the permutations. */
  lemma AcceptedIsPermutation(ids: seq<Id>, s: set<Id>)
    ensures |ids| == |s| && Elements(ids) == s <==> multiset(ids) == multiset(s)
    ensures multiset(ids) == multiset(s) ==> Distinct(ids)
  {
    ElementsAtMost(ids);
    if |ids| == |s| && Elements(ids) == s {
      MultisetOfDistinct(ids);
    }
    if multiset(ids) == multiset(s) {
      assert |multiset(ids)| == |ids| && |multiset(s)| == |s|;
      assert forall i :: i in ids <==> i in multiset(ids);
      assert Elements(ids) == s;
    }
  }

  lemma LiveCountBounded(items: Items, coll: Id)
    requires ItemIndexUnique(items)
    ensures InRange(items, coll) ==> |LiveIds(items, coll)| <= INDEX_PARK_OFFSET
    ensures Legal(items, coll) ==> |LiveIds(items, coll)| <= MAX_INDEX
  {
    if InRange(items, coll) {
      Pigeonhole(items, LiveIds(items, coll), INDEX_PARK_OFFSET);
    }
    if Legal(items, coll) {
      Pigeonhole(items, LiveIds(items, coll), MAX_INDEX);
    }
  }

  lemma DenseRanges(items: Items, coll: Id, ids: seq<Id>)
    requires Dense(items, coll, ids)
    ensures InRange(items, coll) <==> |ids| <= INDEX_PARK_OFFSET
    ensures Legal(items, coll) <==> |ids| <= MAX_INDEX
  {
    assert forall p :: 0 <= p < |ids| ==> ids[p] in Elements(ids);
    if |ids| > INDEX_PARK_OFFSET {
      assert items[ids[INDEX_PARK_OFFSET]].index == INDEX_PARK_OFFSET + 1;
    }
    if |ids| > MAX_INDEX {
      assert items[ids[MAX_INDEX]].index == MAX_INDEX + 1;
    }
  }

  // ---------------------------------------------------------------------
  // Remove and restore

  predicate IsLiveIn(items: Items, coll: Id, i: Id) {
    i in items && items[i].coll == coll && items[i].Live()
  }

  predicate IsRemovedFrom(items: Items, coll: Id, i: Id) {
    i in items && items[i].coll == coll && !items[i].Live()
  }

  function Without(ids: seq<Id>, i: Id): (r: seq<Id>)
    ensures forall j :: j in r <==> j in ids && j != i
    ensures Distinct(ids) ==> Distinct(r)
  {
    if ids == [] then []
    else
      var rest := Without(ids[1..], i);
      assert forall a :: 0 <= a < |rest| ==> rest[a] in ids[1..];
      if ids[0] == i then rest else [ids[0]] + rest
  }

  function InsertAt(ids: seq<Id>, p: nat, i: Id): seq<Id>
    requires p <= |ids|
  {
    ids[..p] + [i] + ids[p..]
  }

  /** The row soft-deleted, its number kept. */
  function Deleted(items: Items, i: Id, at: Time): Items
    requires i in items
  {
    items[i := items[i].(deletedAt := Some(at))]
  }

  function Revived(items: Items, i: Id): Items
    requires i in items
  {
    items[i := items[i].(deletedAt := None)]
  }

  /** The other live items keep their order and close the gap. */
  ghost function Removed(items: Items, coll: Id, i: Id, at: Time): Items
    requires i in items
  {
    Renumbered(Deleted(items, i, at), Sequence(Deleted(items, i, at), coll))
  }

  /** Where a removed item comes back: its old number read as a position, or the end. */
  ghost function RestorePosition(items: Items, coll: Id, i: Id): (p: nat)
    requires i in items
    ensures p <= |Sequence(items, coll)|
  {
    var wanted := (if items[i].index < 1 then 1 else items[i].index) - 1;
    var n := |Sequence(items, coll)|;
    if wanted < n then wanted else n
  }

  ghost function Restored(items: Items, coll: Id, i: Id): Items
    requires i in items
  {
    Renumbered(Revived(items, i), InsertAt(Sequence(items, coll), RestorePosition(items, coll, i), i))
  }

  /** The same arrangement is live in the collection again. */
  predicate Clashes(items: Items, coll: Id, arr: Id) {
    exists j <- items :: items[j].coll == coll && items[j].arr == arr && items[j].Live()
  }

  lemma DeletedLive(items: Items, coll: Id, i: Id, at: Time)
    requires IsLiveIn(items, coll, i)
    ensures LiveIds(Deleted(items, i, at), coll) == LiveIds(items, coll) - {i}
  {
  }

  lemma {:induction false} WithoutIncreasing(items: Items, ids: seq<Id>, i: Id)
    requires Increasing(items, ids)
    ensures Increasing(items, Without(ids, i))
  {
    if ids != [] {
      WithoutIncreasing(items, ids[1..], i);
      var rest := Without(ids[1..], i);
      assert forall a :: 0 <= a < |rest| ==> rest[a] in ids[1..];
    }
  }

  /** The order of the items that are left. */
  lemma LeftInOrder(items: Items, coll: Id, i: Id, at: Time)
    requires ItemIndexUnique(items) && IsLiveIn(items, coll, i)
    ensures Sequence(Deleted(items, i, at), coll) == Without(Sequence(items, coll), i)
    ensures Elements(Without(Sequence(items, coll), i)) == LiveIds(Deleted(items, i, at), coll)
    ensures Distinct(Without(Sequence(items, coll), i))
  {
    var gone := Deleted(items, i, at);
    var was := Sequence(items, coll);
    DeletedLive(items, coll, i, at);
    WithoutIncreasing(items, was, i);
    assert Elements(Without(was, i)) == Elements(was) - {i};
    assert Increasing(gone, Without(was, i));
    SequenceIs(gone, coll, Without(was, i));
    IncreasingIsDistinct(items, was);
  }

  /** Removing deletes exactly one piece from the sequence and leaves it dense. */
  lemma RemoveDeletes(items: Items, coll: Id, i: Id, at: Time)
    requires ItemIndexUnique(items) && IsLiveIn(items, coll, i)
    ensures Dense(Removed(items, coll, i, at), coll, Without(Sequence(items, coll), i))
    ensures IsRemovedFrom(Removed(items, coll, i, at), coll, i)
    ensures Removed(items, coll, i, at)[i] == items[i].(deletedAt := Some(at))
    ensures forall j <- items | items[j].coll != coll || !items[j].Live() ::
              Removed(items, coll, i, at)[j] == items[j]
  {
    LeftInOrder(items, coll, i, at);
    RenumberedIsDense(Deleted(items, i, at), coll, Without(Sequence(items, coll), i));
  }

  lemma InsertDistinct(ids: seq<Id>, p: nat, i: Id)
    requires p <= |ids| && Distinct(ids) && i !in ids
    ensures Distinct(InsertAt(ids, p, i)) && Elements(InsertAt(ids, p, i)) == Elements(ids) + {i}
  {
    var r := InsertAt(ids, p, i);
    assert forall a :: 0 <= a < |r| ==> r[a] == if a < p then ids[a] else if a == p then i else ids[a - 1];
    assert forall j :: j in r <==> j == i || j in ids by {
      assert ids == ids[..p] + ids[p..];
      assert forall j :: j in ids <==> j in ids[..p] || j in ids[p..];
    }
  }

  /** Restoring inserts exactly one piece into the sequence and leaves it dense. */
  lemma RestoreInserts(items: Items, coll: Id, i: Id)
    requires ItemIndexUnique(items) && IsRemovedFrom(items, coll, i)
    ensures Dense(Restored(items, coll, i), coll, InsertAt(Sequence(items, coll), RestorePosition(items, coll, i), i))
    ensures IsLiveIn(Restored(items, coll, i), coll, i)
    ensures forall j <- items | j != i && (items[j].coll != coll || !items[j].Live()) ::
              Restored(items, coll, i)[j] == items[j]
  {
    var was := Sequence(items, coll);
    IncreasingIsDistinct(items, was);
    assert i !in was by { assert i in was ==> i in Elements(was); }
    InsertDistinct(was, RestorePosition(items, coll, i), i);
    assert LiveIds(Revived(items, i), coll) == LiveIds(items, coll) + {i};
    RenumberedIsDense(Revived(items, i), coll, InsertAt(was, RestorePosition(items, coll, i), i));
  }
}
