/**
 * Names that lead to a collection item without being listed: the index is read
 * with any number of leading zeros and an optional plus sign.
 */
module PathAliases {
  import opened Wrappers
  import opened Text
  import opened Path
  import S = Schema
  import opened Access
  import opened Tree
  import opened Listings
  import opened Namespace
  import Reach

  /** The child under a name can be looked up. */
  predicate Stats(w: World, u: User, dir: ResolvedPath, name: string)
    requires S.Lookups(w.db)
  {
    Child(dir, name).Some? && Stat(w, u, Child(dir, name).value).Ok?
  }

  lemma ItemChild(dir: ResolvedPath, name: string)
    requires WellFormed(dir) && dir.Collection?
    ensures !Unnameable(name) && SplitItemSegment(name).Some? ==>
              var (index, arrSlug) := SplitItemSegment(name).value;
              Child(dir, name) == Some(CollectionItemDir(dir.org, dir.coll, index, arrSlug))
    ensures Unnameable(name) || SplitItemSegment(name).None? ==> Child(dir, name).None?
  {
    if Unnameable(name) {
      assert (Segments(dir) + [name])[4] == name;
    } else {
      CollectionChildren(dir, name);
    }
  }

  lemma NamesOfItemsAreNameable(name: string)
    requires SplitItemSegment(name).Some?
    ensures !Unnameable(name)
  {
    assert '-' in name;
  }

  /** In a collection a name can be looked up exactly when it reads as an index and
      a slug whose printed name is listed. */
  lemma StatsIffNumberListed(w: World, u: User, dir: ResolvedPath, name: string)
    requires S.Valid(w.db) && WellFormed(dir) && dir.Collection?
    ensures Stats(w, u, dir, name)
       <==> match SplitItemSegment(name)
            case None => false
            case Some(p) => Listed(w, u, dir, DirEntry(ItemSegment(p.0, p.1)))
  {
    ShapesAreNameable(w.db);
    ItemChild(dir, name);
    if SplitItemSegment(name).Some? {
      var p := SplitItemSegment(name).value;
      NamesOfItemsAreNameable(name);
      ItemListed(w, u, dir.org, dir.coll, p.0, p.1);
    }
  }

  lemma {:induction false} LeadingZero(s: string)
    requires DigitsValue(s).Some?
    ensures DigitsValue("0" + s) == DigitsValue(s)
  {
    if s == "" {
      assert "0"[..0] == "";
      assert "0" + s == "0";
      assert DigitsValue("0") == Some(0);
    } else {
      var t := "0" + s;
      assert t[..|t| - 1] == "0" + s[..|s| - 1] && t[|t| - 1] == s[|s| - 1];
      LeadingZero(s[..|s| - 1]);
    }
  }

  lemma PaddedParses(n: nat)
    requires n <= I32_MAX
    ensures ParseIndex("0" + Decimal(n)) == Some(n) && '-' !in "0" + Decimal(n)
  {
    DigitsValueDecimal(n);
    LeadingZero(Decimal(n));
  }

  lemma PaddedIndex(index: int, arrSlug: string)
    requires 0 <= index <= I32_MAX && arrSlug != ""
    ensures SplitItemSegment("0" + ItemSegment(index, arrSlug)) == Some((index, arrSlug))
  {
    var d := "0" + Decimal(index);
    PaddedParses(index);
    SplitFirstIs(d, '-', arrSlug);
    assert "0" + ItemSegment(index, arrSlug) == d + "-" + arrSlug;
  }

  lemma SignedIndex(index: int, arrSlug: string)
    requires 0 <= index <= I32_MAX && arrSlug != ""
    ensures SplitItemSegment("+" + ItemSegment(index, arrSlug)) == Some((index, arrSlug))
  {
    var d := Decimal(index);
    DigitsValueDecimal(index);
    SplitFirstIs("+" + d, '-', arrSlug);
    assert "+" + ItemSegment(index, arrSlug) == ("+" + d) + "-" + arrSlug;
    assert ("+" + d)[1..] == d;
  }

  lemma ItemDirSegments(org: string, coll: string, index: int, arrSlug: string, name: string)
    ensures Segments(CollectionItemDir(org, coll, index, arrSlug)) == Segments(Collection(org, coll)) + [name]
       <==> name == ItemSegment(index, arrSlug)
  {
    assert Segments(CollectionItemDir(org, coll, index, arrSlug))[4] == ItemSegment(index, arrSlug);
    assert (Segments(Collection(org, coll)) + [name])[4] == name;
  }

  lemma AliasPrintsOtherwise(dir: ResolvedPath, name: string)
    requires WellFormed(dir) && dir.Collection? && SplitItemSegment(name).Some?
    requires name != ItemSegment(SplitItemSegment(name).value.0, SplitItemSegment(name).value.1)
    ensures Child(dir, name).Some? && Segments(Child(dir, name).value) != Segments(dir) + [name]
  {
    NamesOfItemsAreNameable(name);
    ItemChild(dir, name);
    var (index, arrSlug) := SplitItemSegment(name).value;
    ItemDirSegments(dir.org, dir.coll, index, arrSlug, name);
  }

  /** A name that reads as an item but is not its printed name is not listed. */
  lemma AliasIsUnlisted(w: World, u: User, dir: ResolvedPath, name: string)
    requires S.Valid(w.db) && WellFormed(dir) && dir.Collection? && SplitItemSegment(name).Some?
    requires name != ItemSegment(SplitItemSegment(name).value.0, SplitItemSegment(name).value.1)
    ensures !Listed(w, u, dir, DirEntry(name))
  {
    DirectoriesAgree(w, u, dir, name);
    AliasPrintsOtherwise(dir, name);
  }

  /** Every listed item can also be looked up under two names that are not listed. */
  lemma EveryItemHasUnlistedNames(w: World, u: User, dir: ResolvedPath, index: int, arrSlug: string)
    requires S.Valid(w.db) && WellFormed(dir) && dir.Collection? && 0 <= index <= I32_MAX && arrSlug != ""
    requires Listed(w, u, dir, DirEntry(ItemSegment(index, arrSlug)))
    ensures Stats(w, u, dir, "0" + ItemSegment(index, arrSlug))
    ensures !Listed(w, u, dir, DirEntry("0" + ItemSegment(index, arrSlug)))
    ensures Stats(w, u, dir, "+" + ItemSegment(index, arrSlug))
    ensures !Listed(w, u, dir, DirEntry("+" + ItemSegment(index, arrSlug)))
  {
    PaddedIndex(index, arrSlug);
    SignedIndex(index, arrSlug);
    StatsIffNumberListed(w, u, dir, "0" + ItemSegment(index, arrSlug));
    StatsIffNumberListed(w, u, dir, "+" + ItemSegment(index, arrSlug));
    AliasIsUnlisted(w, u, dir, "0" + ItemSegment(index, arrSlug));
    AliasIsUnlisted(w, u, dir, "+" + ItemSegment(index, arrSlug));
  }

  // ---------------------------------------------------------------------
  // A state in which this happens

  /** The guest's organization with an owner, user 2. */
  function OwnedExample(): Db {
    Reach.GuestExample().(memberships := map[(0, 2) := S.Owner])
  }

  lemma MembersKeepKeys(db: Db, o: Id, user: Id, role: S.Role)
    requires S.ForeignKeys(db) && o in db.orgs
    ensures S.ForeignKeys(db.(memberships := map[(o, user) := role]))
  {
  }

  lemma MembersKeepIndexes(db: Db, o: Id, user: Id, role: S.Role)
    requires S.UniqueIndexes(db) && S.Shapes(db)
    ensures S.UniqueIndexes(db.(memberships := map[(o, user) := role]))
    ensures S.Shapes(db.(memberships := map[(o, user) := role]))
  {
  }

  lemma MembersKeepValid(db: Db, o: Id, user: Id, role: S.Role)
    requires S.Valid(db) && o in db.orgs
    ensures S.Valid(db.(memberships := map[(o, user) := role]))
  {
    MembersKeepKeys(db, o, user, role);
    MembersKeepIndexes(db, o, user, role);
  }

  lemma OwnedExampleIsValid()
    ensures S.Valid(OwnedExample())
  {
    Reach.GuestExampleIsSound();
    MembersKeepValid(Reach.GuestExample(), 0, 2, S.Owner);
  }

  /** Item `i` of a live arrangement in a live collection of an owner's organization. */
  predicate OwnsItem(db: Db, user: Id, org: string, coll: string, index: int, arrSlug: string) {
    && 0 in db.orgs && db.orgs[0].slug == org && (0, user) in db.memberships && db.memberships[(0, user)] == S.Owner
    && 0 in db.collections && db.collections[0].org == 0 && db.collections[0].slug == coll && !db.collections[0].deleted
    && 0 in db.items && db.items[0].coll == 0 && db.items[0].arr == 0 && db.items[0].Live()
    && db.items[0].index == index
    && 0 in db.arrangements && !db.arrangements[0].deleted && db.arrangements[0].slug == arrSlug
  }

  lemma OwnedExampleOwnsItem()
    ensures OwnsItem(OwnedExample(), 2, "o", "c", 1, "a")
  {
  }

  lemma OwnerListsItem(w: World, u: User, org: string, coll: string, index: int, arrSlug: string)
    requires S.Lookups(w.db) && OwnsItem(w.db, u.id, org, coll, index, arrSlug)
    ensures Listed(w, u, Collection(org, coll), DirEntry(ItemSegment(index, arrSlug)))
  {
    var db := w.db;
    assert FindOrgId(db, org) == Some(0);
    assert CollectionIdBySlug(db, 0, coll) == Some(0);
    assert 0 in VisibleItems(db, 0, u.id, ResolveCollection(db, u.id, org, coll).value.2);
    assert ItemEntry(db, 0) == DirEntry(ItemSegment(index, arrSlug));
  }

  lemma OneA()
    ensures ItemSegment(1, "a") == "1-a" && "0" + "1-a" == "01-a" && "+" + "1-a" == "+1-a"
  {
  }

  lemma ExampleDirectory()
    ensures WellFormed(Collection("o", "c")) && "a" != ""
  {
    assert GoodSegments(["orgs", "o", "collections", "c"]);
  }

  /** In a state that meets every constraint, an owner can look `01-a` and `+1-a` up
      although only `1-a` is listed. */
  lemma UnlistedNamesStat(w: World, u: User)
    requires w.db == OwnedExample() && u.id == 2
    ensures S.Valid(w.db) && Listed(w, u, Collection("o", "c"), DirEntry("1-a"))
    ensures Stats(w, u, Collection("o", "c"), "01-a") && !Listed(w, u, Collection("o", "c"), DirEntry("01-a"))
    ensures Stats(w, u, Collection("o", "c"), "+1-a") && !Listed(w, u, Collection("o", "c"), DirEntry("+1-a"))
  {
    OwnedExampleIsValid();
    OwnedExampleOwnsItem();
    ExampleDirectory();
    UnlistedNamesOf(w, u, "o", "c", 1, "a");
    OneA();
  }

  lemma UnlistedNamesOf(w: World, u: User, org: string, coll: string, index: int, arrSlug: string)
    requires S.Valid(w.db) && WellFormed(Collection(org, coll)) && 0 <= index <= I32_MAX && arrSlug != ""
    requires OwnsItem(w.db, u.id, org, coll, index, arrSlug)
    ensures var dir, name := Collection(org, coll), ItemSegment(index, arrSlug);
            && Listed(w, u, dir, DirEntry(name))
            && Stats(w, u, dir, "0" + name) && !Listed(w, u, dir, DirEntry("0" + name))
            && Stats(w, u, dir, "+" + name) && !Listed(w, u, dir, DirEntry("+" + name))
  {
    OwnerListsItem(w, u, org, coll, index, arrSlug);
    EveryItemHasUnlistedNames(w, u, Collection(org, coll), index, arrSlug);
  }
}
