/**
 * Deleting an organization: eleven DELETE statements in one transaction, each
 * of which the database refuses if it would leave a dangling reference.
 */
module Cascade {
  import opened Wrappers
  import opened Schema

  datatype Statement =
    | Assignments | Items | Collections | ArrangementTags | Tags | Annotations
    | Files | Voices | Arrangements | Memberships | Organizations

  /** The order of the statements. */
  const CASCADE: seq<Statement> :=
    [Assignments, Items, Collections, ArrangementTags, Tags, Annotations,
     Files, Voices, Arrangements, Memberships, Organizations]

  // ---------------------------------------------------------------------
  // The statements' conditions, on the tables as they are when they run

  predicate CollectionOf(db: Db, c: Id, org: Id) {
    c in db.collections && db.collections[c].org == org
  }

  predicate ArrangementOf(db: Db, a: Id, org: Id) {
    a in db.arrangements && db.arrangements[a].org == org
  }

  predicate ItemOf(db: Db, i: Id, org: Id) {
    i in db.items && CollectionOf(db, db.items[i].coll, org)
  }

  predicate TagOf(db: Db, t: Id, org: Id) {
    t in db.tags && db.tags[t].org == org
  }

  /** One DELETE statement. */
  function Exec(db: Db, s: Statement, org: Id): Db {
    match s
    case Assignments =>
      db.(assignments := map p <- db.assignments | !ItemOf(db, db.assignments[p].item, org) :: db.assignments[p])
    case Items =>
      db.(items := map i <- db.items | !CollectionOf(db, db.items[i].coll, org) :: db.items[i])
    case Collections =>
      db.(collections := map c <- db.collections | db.collections[c].org != org :: db.collections[c])
    case ArrangementTags =>
      db.(arrangementTags := map j <- db.arrangementTags |
            !TagOf(db, db.arrangementTags[j].tag, org) && !ArrangementOf(db, db.arrangementTags[j].arr, org) ::
            db.arrangementTags[j])
    case Tags =>
      db.(tags := map t <- db.tags | db.tags[t].org != org :: db.tags[t])
    case Annotations =>
      db.(annotations := map g <- db.annotations | !ArrangementOf(db, db.annotations[g].arr, org) :: db.annotations[g])
    case Files =>
      db.(files := map f <- db.files | !ArrangementOf(db, db.files[f].arr, org) :: db.files[f])
    case Voices =>
      db.(voices := map v <- db.voices | !ArrangementOf(db, db.voices[v].arr, org) :: db.voices[v])
    case Arrangements =>
      db.(arrangements := map a <- db.arrangements | db.arrangements[a].org != org :: db.arrangements[a])
    case Memberships =>
      db.(memberships := map k <- db.memberships | k.0 != org :: db.memberships[k])
    case Organizations =>
      db.(orgs := map o <- db.orgs | o != org :: db.orgs[o])
  }

  /** The tables after the first `k` statements. */
  function AfterStatements(db: Db, org: Id, k: nat): Db
    requires k <= |CASCADE|
  {
    if k == 0 then db else Exec(AfterStatements(db, org, k - 1), CASCADE[k - 1], org)
  }

  // ---------------------------------------------------------------------
  // Ownership, on the tables before the call: what each table is left with

  function KeptOrgs(db: Db, org: Id): map<Id, Organization> {
    map o <- db.orgs | o != org :: db.orgs[o]
  }

  function KeptMemberships(db: Db, org: Id): map<(Id, Id), Role> {
    map k <- db.memberships | k.0 != org :: db.memberships[k]
  }

  function KeptArrangements(db: Db, org: Id): map<Id, Arrangement> {
    map a <- db.arrangements | !ArrangementOf(db, a, org) :: db.arrangements[a]
  }

  function KeptVoices(db: Db, org: Id): map<Id, Voice> {
    map v <- db.voices | !ArrangementOf(db, db.voices[v].arr, org) :: db.voices[v]
  }

  function KeptFiles(db: Db, org: Id): map<Id, File> {
    map f <- db.files | !ArrangementOf(db, db.files[f].arr, org) :: db.files[f]
  }

  function KeptCollections(db: Db, org: Id): map<Id, Collection> {
    map c <- db.collections | !CollectionOf(db, c, org) :: db.collections[c]
  }

  function KeptItems(db: Db, org: Id): map<Id, Item> {
    map i <- db.items | !ItemOf(db, i, org) :: db.items[i]
  }

  function KeptAssignments(db: Db, org: Id): map<Id, Assignment> {
    map p <- db.assignments | !ItemOf(db, db.assignments[p].item, org) :: db.assignments[p]
  }

  function KeptTags(db: Db, org: Id): map<Id, Tag> {
    map t <- db.tags | !TagOf(db, t, org) :: db.tags[t]
  }

  function KeptArrangementTags(db: Db, org: Id): map<Id, ArrangementTag> {
    map j <- db.arrangementTags |
      !TagOf(db, db.arrangementTags[j].tag, org) && !ArrangementOf(db, db.arrangementTags[j].arr, org) ::
      db.arrangementTags[j]
  }

  function KeptAnnotations(db: Db, org: Id): map<Id, GlobalAnnotation> {
    map g <- db.annotations | !ArrangementOf(db, db.annotations[g].arr, org) :: db.annotations[g]
  }

  /** Every row the organization owned is gone and every other row is untouched. */
  function WithoutOrg(db: Db, org: Id): Db {
    Db(KeptOrgs(db, org), KeptMemberships(db, org), KeptArrangements(db, org), KeptVoices(db, org),
       KeptFiles(db, org), KeptCollections(db, org), KeptItems(db, org), KeptAssignments(db, org),
       KeptTags(db, org), KeptArrangementTags(db, org), KeptAnnotations(db, org))
  }

  /** The tables after `k` statements, each cleared by ownership in the original state. */
  function Stage(db: Db, org: Id, k: nat): Db {
    Db(if k >= 11 then KeptOrgs(db, org) else db.orgs,
       if k >= 10 then KeptMemberships(db, org) else db.memberships,
       if k >= 9 then KeptArrangements(db, org) else db.arrangements,
       if k >= 8 then KeptVoices(db, org) else db.voices,
       if k >= 7 then KeptFiles(db, org) else db.files,
       if k >= 3 then KeptCollections(db, org) else db.collections,
       if k >= 2 then KeptItems(db, org) else db.items,
       if k >= 1 then KeptAssignments(db, org) else db.assignments,
       if k >= 5 then KeptTags(db, org) else db.tags,
       if k >= 4 then KeptArrangementTags(db, org) else db.arrangementTags,
       if k >= 6 then KeptAnnotations(db, org) else db.annotations)
  }

  lemma StageStepAssignments(db: Db, org: Id)
    ensures Exec(Stage(db, org, 0), Assignments, org) == Stage(db, org, 1)
  {
  }

  lemma StageStepItems(db: Db, org: Id)
    ensures Exec(Stage(db, org, 1), Items, org) == Stage(db, org, 2)
  {
    assert forall i <- db.items :: CollectionOf(db, db.items[i].coll, org) <==> ItemOf(db, i, org);
  }

  lemma StageStepCollections(db: Db, org: Id)
    ensures Exec(Stage(db, org, 2), Collections, org) == Stage(db, org, 3)
  {
  }

  lemma StageStepArrangementTags(db: Db, org: Id)
    ensures Exec(Stage(db, org, 3), ArrangementTags, org) == Stage(db, org, 4)
  {
  }

  lemma StageStepTags(db: Db, org: Id)
    ensures Exec(Stage(db, org, 4), Tags, org) == Stage(db, org, 5)
  {
  }

  lemma StageStepAnnotations(db: Db, org: Id)
    ensures Exec(Stage(db, org, 5), Annotations, org) == Stage(db, org, 6)
  {
  }

  lemma StageStepFiles(db: Db, org: Id)
    ensures Exec(Stage(db, org, 6), Files, org) == Stage(db, org, 7)
  {
  }

  lemma StageStepVoices(db: Db, org: Id)
    ensures Exec(Stage(db, org, 7), Voices, org) == Stage(db, org, 8)
  {
  }

  lemma StageStepArrangements(db: Db, org: Id)
    ensures Exec(Stage(db, org, 8), Arrangements, org) == Stage(db, org, 9)
  {
  }

  lemma StageStepMemberships(db: Db, org: Id)
    ensures Exec(Stage(db, org, 9), Memberships, org) == Stage(db, org, 10)
  {
  }

  lemma StageStepOrganizations(db: Db, org: Id)
    ensures Exec(Stage(db, org, 10), Organizations, org) == Stage(db, org, 11)
  {
  }

  lemma StageStep(db: Db, org: Id, k: nat)
    requires k < |CASCADE|
    ensures Exec(Stage(db, org, k), CASCADE[k], org) == Stage(db, org, k + 1)
  {
    match k
    case 0 => StageStepAssignments(db, org);
    case 1 => StageStepItems(db, org);
    case 2 => StageStepCollections(db, org);
    case 3 => StageStepArrangementTags(db, org);
    case 4 => StageStepTags(db, org);
    case 5 => StageStepAnnotations(db, org);
    case 6 => StageStepFiles(db, org);
    case 7 => StageStepVoices(db, org);
    case 8 => StageStepArrangements(db, org);
    case 9 => StageStepMemberships(db, org);
    case 10 => StageStepOrganizations(db, org);
  }

  /** Later statements look at tables no earlier statement has touched. */
  lemma {:induction false} AfterIsStage(db: Db, org: Id, k: nat)
    requires k <= |CASCADE|
    ensures AfterStatements(db, org, k) == Stage(db, org, k)
  {
    if k > 0 {
      AfterIsStage(db, org, k - 1);
      StageStep(db, org, k - 1);
    }
  }

  /** No row of another organization refers into this one. */
  predicate NoOutsideReference(db: Db, org: Id) {
    && (forall i <- db.items | !ItemOf(db, i, org) :: !ArrangementOf(db, db.items[i].arr, org))
    && (forall p <- db.assignments | !ItemOf(db, db.assignments[p].item, org) && db.assignments[p].voice in db.voices ::
          !ArrangementOf(db, db.voices[db.assignments[p].voice].arr, org))
    && (forall f <- db.files | !ArrangementOf(db, db.files[f].arr, org) ::
          && (db.files[f].voice.Some? && db.files[f].voice.value in db.voices ==>
                !ArrangementOf(db, db.voices[db.files[f].voice.value].arr, org))
          && (db.files[f].derivedFrom.Some? && db.files[f].derivedFrom.value in db.files ==>
                !ArrangementOf(db, db.files[db.files[f].derivedFrom.value].arr, org)))
  }

  /** The eleven statements remove every row of the organization and no other. */
  lemma CascadeRemovesExactly(db: Db, org: Id)
    ensures AfterStatements(db, org, |CASCADE|) == WithoutOrg(db, org)
  {
    AfterIsStage(db, org, |CASCADE|);
  }

  // ---------------------------------------------------------------------
  // Foreign keys at every statement

  lemma StageMembershipAndOrgKeys(db: Db, org: Id, k: nat)
    requires ForeignKeys(db) && k <= 11
    ensures MembershipKeys(Stage(db, org, k)) && ArrangementKeys(Stage(db, org, k))
    ensures CollectionKeys(Stage(db, org, k)) && TagKeys(Stage(db, org, k))
  {
  }

  lemma StageChildKeys(db: Db, org: Id, k: nat)
    requires ForeignKeys(db) && k <= 11
    ensures VoiceKeys(Stage(db, org, k)) && AnnotationKeys(Stage(db, org, k)) && ArrangementTagKeys(Stage(db, org, k))
  {
  }

  lemma StageItemKeys(db: Db, org: Id, k: nat)
    requires ForeignKeys(db) && NoOutsideReference(db, org) && k <= 11
    ensures ItemKeys(Stage(db, org, k))
  {
  }

  lemma StageAssignmentKeys(db: Db, org: Id, k: nat)
    requires ForeignKeys(db) && NoOutsideReference(db, org) && k <= 11
    ensures AssignmentKeys(Stage(db, org, k))
  {
  }

  lemma StageFileKeys(db: Db, org: Id, k: nat)
    requires ForeignKeys(db) && NoOutsideReference(db, org) && k <= 11
    ensures FileKeys(Stage(db, org, k))
  {
  }

  lemma StageKeys(db: Db, org: Id, k: nat)
    requires ForeignKeys(db) && NoOutsideReference(db, org) && k <= |CASCADE|
    ensures ForeignKeys(AfterStatements(db, org, k))
  {
    AfterIsStage(db, org, k);
    StageMembershipAndOrgKeys(db, org, k);
    StageChildKeys(db, org, k);
    StageItemKeys(db, org, k);
    StageAssignmentKeys(db, org, k);
    StageFileKeys(db, org, k);
  }

  /** The last state has no dangling reference only if nothing outside referred in. */
  lemma FinalKeysNeedNoOutsideReference(db: Db, org: Id)
    requires ForeignKeys(db) && ForeignKeys(WithoutOrg(db, org))
    ensures NoOutsideReference(db, org)
  {
    var left := WithoutOrg(db, org);
    forall i <- db.items | !ItemOf(db, i, org)
      ensures !ArrangementOf(db, db.items[i].arr, org)
    {
      assert i in left.items && left.items[i] == db.items[i];
    }
    forall p <- db.assignments | !ItemOf(db, db.assignments[p].item, org)
      ensures db.assignments[p].voice in left.voices
    {
      assert p in left.assignments && left.assignments[p] == db.assignments[p];
    }
    forall f <- db.files | !ArrangementOf(db, db.files[f].arr, org)
      ensures db.files[f].voice.Some? ==> db.files[f].voice.value in left.voices
      ensures db.files[f].derivedFrom.Some? ==> db.files[f].derivedFrom.value in left.files
    {
      assert f in left.files && left.files[f] == db.files[f];
    }
  }

  /**
   * Referential integrity holds after every one of the statements exactly when
   * no row of another organization refers into the deleted one.
   */
  lemma EveryStatementKeepsForeignKeys(db: Db, org: Id)
    requires ForeignKeys(db)
    ensures (forall k: nat | k <= |CASCADE| :: KeysHoldAfter(db, org, k)) <==> NoOutsideReference(db, org)
  {
    if NoOutsideReference(db, org) {
      forall k: nat | k <= |CASCADE|
        ensures KeysHoldAfter(db, org, k)
      {
        StageKeys(db, org, k);
      }
    } else if KeysHoldAfter(db, org, |CASCADE|) {
      CascadeRemovesExactly(db, org);
      FinalKeysNeedNoOutsideReference(db, org);
    }
  }

  /** The database accepts the `k`-th statement: nothing dangles after it. */
  predicate KeysHoldAfter(db: Db, org: Id, k: nat)
    requires k <= |CASCADE|
  {
    ForeignKeys(AfterStatements(db, org, k))
  }

  /** The rules the services keep leave no outside reference, for any organization. */
  lemma SoundHasNoOutsideReference(db: Db, org: Id)
    requires ForeignKeys(db) && AssignmentsFit(db) && ItemsStayInOrg(db) && FilesFit(db)
    ensures NoOutsideReference(db, org)
  {
  }

  // ---------------------------------------------------------------------
  // The transaction

  lemma RefusedMeansOutsideReference(db: Db, org: Id, k: nat)
    requires ForeignKeys(db) && k <= |CASCADE| && !ForeignKeys(AfterStatements(db, org, k))
    ensures !NoOutsideReference(db, org)
  {
    if NoOutsideReference(db, org) {
      StageKeys(db, org, k);
    }
  }

  datatype DeleteError = ForeignKeyViolation

  class Database {
    var db: Db

    constructor (initial: Db)
      requires ForeignKeys(initial)
      ensures db == initial
    {
      db := initial;
    }

    /** Hard-delete an organization and everything under it; true if it existed.
        A refused statement rolls the whole transaction back. */
    method DeleteOrganization(org: Id) returns (r: Result<bool, DeleteError>)
      requires ForeignKeys(db)
      modifies this
      ensures ForeignKeys(db)
      ensures r.Ok? <==> NoOutsideReference(old(db), org)
      ensures r.Ok? ==> db == WithoutOrg(old(db), org) && r.value == (org in old(db).orgs)
      ensures r.Err? ==> db == old(db)
    {
      var was := db;
      var k := 0;
      while k < |CASCADE|
        invariant 0 <= k <= |CASCADE|
        invariant db == AfterStatements(was, org, k) && ForeignKeys(db)
      {
        db := Exec(db, CASCADE[k], org);
        if !ForeignKeys(db) {
          RefusedMeansOutsideReference(was, org, k + 1);
          db := was;
          return Err(ForeignKeyViolation);
        }
        k := k + 1;
      }
      CascadeRemovesExactly(was, org);
      FinalKeysNeedNoOutsideReference(was, org);
      return Ok(org in was.orgs);
    }
  }
}
