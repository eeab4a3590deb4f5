/**
 * What holds in every state of every run: the main theorems about states, with
 * their conditions discharged by the history of the system.
 */
module Reachable {
  import S = Schema
  import opened Tree
  import opened Listings
  import opened Lockstep
  import opened Reach
  import opened History
  import Cascade

  lemma RunFacts(states: seq<Db>, calls: seq<Call>, j: nat)
    requires IsRun(states, calls) && j < |states|
    ensures S.Lookups(states[j]) && S.AssignmentsFit(states[j]) && S.ItemsStayInOrg(states[j])
  {
    EveryRunIsSound(states, calls, j);
  }

  /** A listed arrangement lists a voice. */
  ghost predicate NoEmptyArrangement(db: Db, user: S.Id)
    requires S.Lookups(db)
  {
    forall org, arr | IsRestricted(db, user, org) && Has(ListArrangements(db, user, org), DirEntry(arr)) ::
      NonEmptyListing(ListVoices(db, user, org, arr))
  }

  /** A listed collection lists an item. */
  ghost predicate NoEmptyCollection(db: Db, user: S.Id)
    requires S.Lookups(db)
  {
    forall org, coll | IsRestricted(db, user, org) && Has(ListCollections(db, user, org), DirEntry(coll)) ::
      NonEmptyListing(ListCollection(db, user, org, coll))
  }

  /** An item that resolves lists a voice. */
  ghost predicate NoEmptyItem(db: Db, user: S.Id)
    requires S.Lookups(db)
  {
    forall org, coll, index, arr |
      IsRestricted(db, user, org) && ResolveCollectionItem(db, user, org, coll, index, arr).Ok? ::
      NonEmptyListing(ListItemVoices(db, user, org, coll, index, arr))
  }

  /** In no state of any run does a restricted user see a phantom empty directory. */
  lemma NoPhantomsOnAnyRun(states: seq<Db>, calls: seq<Call>, j: nat, user: S.Id)
    requires IsRun(states, calls) && j < |states|
    ensures S.Lookups(states[j])
    ensures NoEmptyArrangement(states[j], user) && NoEmptyCollection(states[j], user) && NoEmptyItem(states[j], user)
  {
    RunFacts(states, calls, j);
    NoPhantomsIn(states[j], user);
  }

  lemma NoPhantomsIn(db: Db, user: S.Id)
    requires S.Lookups(db) && S.AssignmentsFit(db)
    ensures NoEmptyArrangement(db, user) && NoEmptyCollection(db, user) && NoEmptyItem(db, user)
  {
    forall org, arr | IsRestricted(db, user, org) && Has(ListArrangements(db, user, org), DirEntry(arr))
      ensures NonEmptyListing(ListVoices(db, user, org, arr))
    {
      ListedArrangementHasVoice(db, user, org, arr);
    }
    forall org, coll | IsRestricted(db, user, org) && Has(ListCollections(db, user, org), DirEntry(coll))
      ensures NonEmptyListing(ListCollection(db, user, org, coll))
    {
      ListedCollectionHasItem(db, user, org, coll);
    }
    forall org, coll, index, arr |
      IsRestricted(db, user, org) && ResolveCollectionItem(db, user, org, coll, index, arr).Ok?
      ensures NonEmptyListing(ListItemVoices(db, user, org, coll, index, arr))
    {
      ListedItemHasVoice(db, user, org, coll, index, arr);
    }
  }

  /** In every run an organization can be deleted: none of the eleven statements
      is ever refused by a foreign key. */
  lemma CascadeNeverRefused(states: seq<Db>, calls: seq<Call>, j: nat, org: S.Id)
    requires IsRun(states, calls) && j < |states|
    ensures forall k: nat | k <= |Cascade.CASCADE| :: Cascade.KeysHoldAfter(states[j], org, k)
  {
    EveryRunIsSound(states, calls, j);
    Cascade.SoundHasNoOutsideReference(states[j], org);
    Cascade.EveryStatementKeepsForeignKeys(states[j], org);
  }
}
