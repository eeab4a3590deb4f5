/**
 * Every database has a result of either coverage query: the rows are finite and
 * the ORDER BY clauses leave no two of them unordered.
 */
module QueryResults {
  import opened Wrappers
  import opened Schema
  import opened Coverage

  // ---------------------------------------------------------------------
  // Sorting a finite set

  ghost predicate Total<T(!new)>(s: set<T>, before: (T, T) -> bool) {
    && (forall a <- s, b <- s :: a == b || before(a, b) || before(b, a))
    && forall a <- s, b <- s, c <- s | before(a, b) && before(b, c) :: before(a, c)
  }

  predicate InOrder<T>(out: seq<T>, before: (T, T) -> bool) {
    forall i, j :: 0 <= i < j < |out| ==> before(out[i], out[j])
  }

  lemma {:induction false} FirstExists<T(!new)>(s: set<T>, before: (T, T) -> bool) returns (m: T)
    requires s != {} && Total(s, before)
    ensures m in s && forall x <- s | x != m :: before(m, x)
  {
    m :| m in s;
    var rest := s - {m};
    if rest != {} {
      var n := FirstExists(rest, before);
      if before(n, m) {
        m := n;
      }
    }
  }

  lemma {:induction false} SortExists<T(!new)>(s: set<T>, before: (T, T) -> bool) returns (out: seq<T>)
    requires Total(s, before)
    ensures InOrder(out, before) && forall x :: x in out <==> x in s
  {
    if s == {} {
      out := [];
    } else {
      var m := FirstExists(s, before);
      var rest := SortExists(s - {m}, before);
      out := [m] + rest;
    }
  }

  // ---------------------------------------------------------------------
  // The query of one collection

  function FullRow(db: Db, item: Id, voice: Id): Row
    requires Queryable(db) && item in db.items && voice in db.voices
  {
    Bare(db, item).(cell := Some(CellOf(db, item, voice)))
  }

  function CollectionRows(db: Db, req: Required, coll: Id): set<Row>
    requires Queryable(db)
  {
    if !LiveCollection(db, coll) then {}
    else
      (set i <- db.items | LiveItem(db, coll, i) && RequiredVoices(db, req, i) == {} :: Bare(db, i))
      + (set i <- db.items, v <- db.voices | LiveItem(db, coll, i) && IsRequired(db, req, i, v) :: FullRow(db, i, v))
  }

  lemma RowsAre(db: Db, req: Required, coll: Id, r: Row)
    requires Queryable(db)
    ensures r in CollectionRows(db, req, coll) <==> LiveCollection(db, coll) && IsRow(db, req, coll, r)
  {
    if LiveCollection(db, coll) && IsRow(db, req, coll, r) {
      match r.cell
      case None => assert r == Bare(db, r.item);
      case Some(c) => assert r == FullRow(db, r.item, c.voice);
    }
  }

  function RowOrder(names: Collation): (Row, Row) -> bool {
    (a, b) => RowBefore(names, a, b)
  }

  /** An item has rows with cells or one without, not both. */
  lemma RowsAlike(db: Db, req: Required, coll: Id, a: Row, b: Row)
    requires Queryable(db) && IsRow(db, req, coll, a) && IsRow(db, req, coll, b) && a.item == b.item
    ensures a.cell.Some? <==> b.cell.Some?
  {
    if a.cell.Some? {
      assert a.cell.value.voice in RequiredVoices(db, req, a.item);
    }
    if b.cell.Some? {
      assert b.cell.value.voice in RequiredVoices(db, req, b.item);
    }
  }

  lemma RowsComparable(db: Db, names: Collation, req: Required, coll: Id, a: Row, b: Row)
    requires Queryable(db) && IsRow(db, req, coll, a) && IsRow(db, req, coll, b)
    ensures a == b || RowBefore(names, a, b) || RowBefore(names, b, a)
    ensures a.item == b.item ==> a.index == b.index
  {
    if a.item == b.item {
      assert a.(cell := None) == b.(cell := None);
      RowsAlike(db, req, coll, a, b);
      if a.cell == b.cell {
        assert a == a.(cell := None).(cell := a.cell) && b == b.(cell := None).(cell := b.cell);
      }
    }
  }

  lemma RowBeforeTransitive(names: Collation, a: Row, b: Row, c: Row)
    requires RowBefore(names, a, b) && RowBefore(names, b, c)
    ensures RowBefore(names, a, c)
  {
  }

  lemma RowsTotal(db: Db, names: Collation, req: Required, coll: Id)
    requires Queryable(db)
    ensures Total(CollectionRows(db, req, coll), RowOrder(names))
  {
    var s, before := CollectionRows(db, req, coll), RowOrder(names);
    forall a <- s, b <- s
      ensures a == b || before(a, b) || before(b, a)
    {
      RowsAre(db, req, coll, a);
      RowsAre(db, req, coll, b);
      RowsComparable(db, names, req, coll, a, b);
    }
    forall a <- s, b <- s, c <- s | before(a, b) && before(b, c)
      ensures before(a, c)
    {
      RowBeforeTransitive(names, a, b, c);
    }
  }

  /** Every collection's query has a result. */
  lemma CollectionResultExists(db: Db, names: Collation, req: Required, coll: Id) returns (rows: seq<Row>)
    requires Queryable(db)
    ensures CollectionResult(db, names, req, coll, rows)
  {
    RowsTotal(db, names, req, coll);
    rows := SortExists(CollectionRows(db, req, coll), RowOrder(names));
    forall i, j | 0 <= i < j < |rows|
      ensures RowBefore(names, rows[i], rows[j])
    {
      assert RowOrder(names)(rows[i], rows[j]);
    }
    forall r: Row
      ensures r in rows <==> LiveCollection(db, coll) && IsRow(db, req, coll, r)
    {
      RowsAre(db, req, coll, r);
    }
  }

  // ---------------------------------------------------------------------
  // The query of one organization

  predicate IsCollectionOf(db: Db, org: Id, c: Id) {
    LiveCollection(db, c) && db.collections[c].org == org
  }

  predicate NoLiveItem(db: Db, c: Id) {
    forall i <- db.items :: !LiveItem(db, c, i)
  }

  function OrgRows(db: Db, req: Required, org: Id): set<OrgRow>
    requires Queryable(db)
  {
    (set c <- db.collections | IsCollectionOf(db, org, c) && NoLiveItem(db, c) :: OrgRow(c, None))
    + (set c <- db.collections, r <- CollectionRows(db, req, c) | IsCollectionOf(db, org, c) :: OrgRow(c, Some(r)))
  }

  lemma OrgRowsAre(db: Db, req: Required, org: Id, r: OrgRow)
    requires Queryable(db)
    ensures r in OrgRows(db, req, org) <==> IsOrgRow(db, req, org, r)
  {
    if r.row.Some? {
      RowsAre(db, req, r.coll, r.row.value);
    }
  }

  function OrgRowOrder(db: Db, names: Collation): (OrgRow, OrgRow) -> bool {
    (a, b) => OrgRowBefore(db, names, a, b)
  }

  lemma OrgRowsComparable(db: Db, names: Collation, req: Required, org: Id, a: OrgRow, b: OrgRow)
    requires Queryable(db) && IsOrgRow(db, req, org, a) && IsOrgRow(db, req, org, b)
    ensures a == b || OrgRowBefore(db, names, a, b) || OrgRowBefore(db, names, b, a)
  {
    if a.coll == b.coll && a.row.Some? && b.row.Some? {
      RowsComparable(db, names, req, a.coll, a.row.value, b.row.value);
      assert a == OrgRow(a.coll, Some(a.row.value)) && b == OrgRow(b.coll, Some(b.row.value));
    }
  }

  lemma OrgRowBeforeTransitive(db: Db, names: Collation, a: OrgRow, b: OrgRow, c: OrgRow)
    requires OrgRowBefore(db, names, a, b) && OrgRowBefore(db, names, b, c)
    ensures OrgRowBefore(db, names, a, c)
  {
    if a.coll == b.coll && b.coll == c.coll && !CollectionBefore(db, names, a.coll, b.coll) {
      RowBeforeTransitive(names, a.row.value, b.row.value, c.row.value);
    }
  }

  lemma OrgRowsTotal(db: Db, names: Collation, req: Required, org: Id)
    requires Queryable(db)
    ensures Total(OrgRows(db, req, org), OrgRowOrder(db, names))
  {
    var s, before := OrgRows(db, req, org), OrgRowOrder(db, names);
    forall a <- s, b <- s
      ensures a == b || before(a, b) || before(b, a)
    {
      OrgRowsAre(db, req, org, a);
      OrgRowsAre(db, req, org, b);
      OrgRowsComparable(db, names, req, org, a, b);
    }
    forall a <- s, b <- s, c <- s | before(a, b) && before(b, c)
      ensures before(a, c)
    {
      OrgRowBeforeTransitive(db, names, a, b, c);
    }
  }

  /** Every organization's query has a result. */
  lemma OrgResultExists(db: Db, names: Collation, req: Required, org: Id) returns (rows: seq<OrgRow>)
    requires Queryable(db)
    ensures OrgResult(db, names, req, org, rows)
  {
    OrgRowsTotal(db, names, req, org);
    rows := SortExists(OrgRows(db, req, org), OrgRowOrder(db, names));
    forall i, j | 0 <= i < j < |rows|
      ensures OrgRowBefore(db, names, rows[i], rows[j])
    {
      assert OrgRowOrder(db, names)(rows[i], rows[j]);
    }
    forall r: OrgRow
      ensures r in rows <==> IsOrgRow(db, req, org, r)
    {
      OrgRowsAre(db, req, org, r);
    }
  }
}
