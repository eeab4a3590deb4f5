/**
 * Adding a piece without a number: the console takes one past the highest live
 * number, unchecked, and can land on the parking offset or above it.
 */
module Append {
  import opened Wrappers
  import opened Text
  import opened Schema
  import opened Ordering
  import opened ItemTable
  import opened Undo

  /** Addition of 32-bit numbers as a release build does it. */
  function Wrapped(n: int): int {
    if n > I32_MAX then n - 0x1_0000_0000 else n
  }

  /** `max().unwrap_or(0) + 1` over the collection's live items. */
  method NextNumber(items: Items, coll: Id) returns (n: int)
    requires forall i <- LiveIds(items, coll) :: 0 <= items[i].index <= I32_MAX
    ensures I32_MIN <= n <= I32_MAX
    ensures exists m :: IsAppendIndex(items, coll, m) && n == Wrapped(m)
  {
    var todo := LiveIds(items, coll);
    var highest: Option<int> := None;
    while todo != {}
      invariant todo <= LiveIds(items, coll)
      invariant highest.None? ==> todo == LiveIds(items, coll)
      invariant highest.Some? ==> exists i <- LiveIds(items, coll) :: items[i].index == highest.value
      invariant highest.Some? ==> forall i <- LiveIds(items, coll) - todo :: items[i].index <= highest.value
      decreases |todo|
    {
      var i :| i in todo;
      if highest.None? || highest.value < items[i].index {
        highest := Some(items[i].index);
      }
      todo := todo - {i};
    }
    ghost var m := (if highest.None? then 0 else highest.value) + 1;
    assert IsAppendIndex(items, coll, m);
    n := Wrapped((if highest.None? then 0 else highest.value) + 1);
  }

  /** The new number clashes with none, even when it wraps, so only the piece can. */
  lemma AppendFits(items: Items, coll: Id, id: Id, arr: Id, m: int)
    requires Constraints(items) && IsAppendIndex(items, coll, m) && id !in items
    requires forall i <- LiveIds(items, coll) :: 0 <= items[i].index
    ensures Constraints(items[id := Item(coll, arr, Wrapped(m), None)]) <==> !Clashes(items, coll, arr)
  {
    var row := Item(coll, arr, Wrapped(m), None);
    RefusalIsViolation(items, id, row);
    assert ArrangementHeld(items, id, row) <==> Clashes(items, coll, arr);
    assert forall j <- items | items[j].Live() && items[j].coll == coll :: j in LiveIds(items, coll);
    assert !IndexHeld(items, id, row);
  }

  /** Append a piece: refused only for a taken id, a piece that is live there already,
      or a reference that does not exist. */
  method AppendPiece(t: Table, id: Id, coll: Id, arr: Id) returns (n: int, r: Result<(), ItemError>)
    requires Constraints(t.items) && forall i <- LiveIds(t.items, coll) :: 0 <= t.items[i].index
    modifies t`items
    ensures Constraints(t.items) && exists m :: IsAppendIndex(old(t.items), coll, m) && n == Wrapped(m)
    ensures t.items == if r.Ok? then old(t.items)[id := Item(coll, arr, n, None)] else old(t.items)
    ensures r.Ok? <==> id !in old(t.items) && !Clashes(old(t.items), coll, arr) && coll in t.colls && arr in t.arrs
  {
    n := NextNumber(t.items, coll);
    ghost var m :| IsAppendIndex(t.items, coll, m) && n == Wrapped(m);
    if id !in t.items {
      AppendFits(t.items, coll, id, arr, m);
    }
    r := t.Create(id, coll, arr, n);
  }

  // ---------------------------------------------------------------------
  // One append: a restorable piece is no longer restorable

  /** A collection whose one live piece has the highest legal number, and a removed piece. */
  function FullExample(): Items {
    map[1 := Item(0, 10, 1, Some(0)), 2 := Item(0, 20, MAX_INDEX, None)]
  }

  lemma FullExampleFacts()
    ensures Constraints(FullExample()) && Legal(FullExample(), 0) && LiveIds(FullExample(), 0) == {2}
    ensures 3 !in FullExample() && !Clashes(FullExample(), 0, 30)
  {
  }

  /** The number after the highest, where it is known. */
  lemma AppendedNumber(items: Items, coll: Id, i: Id, n: int)
    requires exists m :: IsAppendIndex(items, coll, m) && n == Wrapped(m)
    requires i in LiveIds(items, coll) && items[i].index < I32_MAX
    requires forall j <- LiveIds(items, coll) :: items[j].index <= items[i].index
    ensures n == items[i].index + 1
  {
  }

  lemma AppendedFacts()
    ensures var items := FullExample()[3 := Item(0, 30, INDEX_PARK_OFFSET, None)];
            && LiveIds(items, 0) == {2, 3} && InRange(items, 0) && AtOffset(items, 0)
            && IsRemovedFrom(items, 0, 1) && !Clashes(items, 0, 10)
  {
    var items := FullExample()[3 := Item(0, 30, INDEX_PARK_OFFSET, None)];
    assert 3 in LiveIds(items, 0);
  }

  /** From a table of legal numbers, one append makes a restorable piece unrestorable,
      in whatever order the rows are parked. */
  method AppendThenRestore(t: Table, order: seq<Id>)
    returns (n: int, added: Result<(), ItemError>, r: Result<bool, ItemError>)
    requires t.items == FullExample() && 0 in t.colls && 30 in t.arrs && Visits(order, {2, 3})
    modifies t
    ensures n == INDEX_PARK_OFFSET && added.Ok? && r == Err(DuplicateIndex)
  {
    FullExampleFacts();
    n, added := AppendPiece(t, 3, 0, 30);
    AppendedNumber(FullExample(), 0, 2, n);
    AppendedFacts();
    r := t.Restore(0, 1, order);
  }

  // ---------------------------------------------------------------------
  // Two appends: parking itself can collide

  /** Two live pieces, with the lowest and the highest legal number. */
  function EndsExample(): Items {
    map[1 := Item(0, 10, 1, None), 2 := Item(0, 20, MAX_INDEX, None)]
  }

  function OneMore(): Items {
    EndsExample()[3 := Item(0, 30, INDEX_PARK_OFFSET, None)]
  }

  function TwoMore(): Items {
    OneMore()[4 := Item(0, 40, INDEX_PARK_OFFSET + 1, None)]
  }

  lemma EndsFacts()
    ensures Constraints(EndsExample()) && Legal(EndsExample(), 0) && LiveIds(EndsExample(), 0) == {1, 2}
    ensures 3 !in EndsExample() && !Clashes(EndsExample(), 0, 30)
  {
  }

  lemma OneMoreFacts()
    ensures LiveIds(OneMore(), 0) == {1, 2, 3} && 4 !in OneMore() && !Clashes(OneMore(), 0, 40)
  {
  }

  lemma TwoMoreFacts()
    ensures LiveIds(TwoMore(), 0) == {1, 2, 3, 4} && Renumberable(TwoMore(), 0) && !Parkable(TwoMore(), 0)
    ensures Refusal(TwoMore(), 1, ParkedRow(TwoMore()[1])) == Some(IndexTaken)
  {
    var items := TwoMore();
    assert LiveIds(items, 0) == {1, 2, 3, 4};
    assert 1 in LiveIds(items, 0) && 4 in LiveIds(items, 0);
    assert items[4].Live() && items[4].coll == 0 && items[4].index == ParkedRow(items[1]).index;
  }

  lemma UpwardIsUnsafe()
    ensures Visits([1, 2, 3, 4], {1, 2, 3, 4}) && !SafeOrder(TwoMore(), [1, 2, 3, 4])
  {
    assert [1, 2, 3, 4][3] == 4;
    assert !SafeVisit(TwoMore(), [1, 2, 3, 4], 0);
  }

  lemma DownwardIsSafe()
    ensures Visits([4, 3, 2, 1], {1, 2, 3, 4}) && SafeOrder(TwoMore(), [4, 3, 2, 1])
  {
  }

  lemma AllFour()
    ensures multiset([1, 2, 3, 4]) == multiset({1, 2, 3, 4})
  {
  }

  method AppendTwice(t: Table)
    requires t.items == EndsExample() && 0 in t.colls && {30, 40} <= t.arrs
    modifies t
    ensures t.items == TwoMore() && Constraints(t.items)
  {
    EndsFacts();
    var n, added := AppendPiece(t, 3, 0, 30);
    AppendedNumber(EndsExample(), 0, 2, n);
    OneMoreFacts();
    n, added := AppendPiece(t, 4, 0, 40);
    AppendedNumber(OneMore(), 0, 3, n);
  }

  method ReorderBothWays(t: Table) returns (up: Result<(), ItemError>, down: Result<(), ItemError>)
    requires t.items == TwoMore() && Constraints(t.items)
    modifies t
    ensures up.Err? && down.Ok?
  {
    TwoMoreFacts();
    UpwardIsUnsafe();
    DownwardIsSafe();
    AllFour();
    up := t.Reorder(0, [1, 2, 3, 4], [1, 2, 3, 4]);
    down := t.Reorder(0, [1, 2, 3, 4], [4, 3, 2, 1]);
  }

  /** From a table of legal numbers, two appends leave one that is not parkable: the
      same reorder is refused when the rows are visited upwards and goes through when
      they are visited downwards. */
  method AppendTwiceThenReorder(t: Table) returns (up: Result<(), ItemError>, down: Result<(), ItemError>)
    requires t.items == EndsExample() && 0 in t.colls && {30, 40} <= t.arrs
    modifies t
    ensures !Parkable(TwoMore(), 0) && Refusal(TwoMore(), 1, ParkedRow(TwoMore()[1])) == Some(IndexTaken)
    ensures up.Err? && down.Ok?
  {
    TwoMoreFacts();
    AppendTwice(t);
    up, down := ReorderBothWays(t);
  }

  /** The next removal renumbers the collection and lets restores pass again. */
  lemma RemovalUnblocksRestore(items: Items, coll: Id, i: Id, at: Time)
    requires ItemIndexUnique(items) && IsLiveIn(items, coll, i) && InRange(items, coll)
    ensures !AtOffset(Removed(items, coll, i, at), coll)
  {
    LiveCountBounded(items, coll);
    RemoveDeletes(items, coll, i, at);
    var after, left := Removed(items, coll, i, at), Without(Sequence(items, coll), i);
    DistinctSize(left);
    assert Elements(left) == LiveIds(items, coll) - {i} by {
      assert Elements(Sequence(items, coll)) == LiveIds(items, coll);
      assert forall j :: j in Sequence(items, coll) <==> j in Elements(Sequence(items, coll));
    }
    forall j <- LiveIds(after, coll)
      ensures after[j].index != INDEX_PARK_OFFSET
    {
      assert j in Elements(left);
      var p :| 0 <= p < |left| && left[p] == j;
    }
  }
}
