/**
 * Who plays which voice of which piece: an upsert keyed by the pair (item,
 * voice), a set-if-provided update of the two stamps, and a hard delete.
 */
module Assignments {
  import opened Wrappers
  import opened Schema

  datatype AssignError = VoiceNotInArrangement | UnknownReference | Database

  /** The item is live and the voice is a live voice of its arrangement. */
  predicate Assignable(db: Db, item: Id, voice: Id) {
    && item in db.items && db.items[item].Live()
    && voice in db.voices && !db.voices[voice].deleted
    && db.voices[voice].arr == db.items[item].arr
  }

  type Parts = map<Id, Assignment>

  predicate IsRowOf(parts: Parts, p: Id, item: Id, voice: Id) {
    p in parts && parts[p].item == item && parts[p].voice == voice
  }

  predicate HasRow(parts: Parts, item: Id, voice: Id) {
    exists p <- parts :: IsRowOf(parts, p, item, voice)
  }

  /** The one row of a pair. */
  ghost function RowOf(parts: Parts, item: Id, voice: Id): (p: Id)
    requires HasRow(parts, item, voice)
    ensures IsRowOf(parts, p, item, voice)
  {
    var p :| p in parts && IsRowOf(parts, p, item, voice);
    p
  }

  /** The stamps of a row say what its assignee has seen, so they go with the assignee. */
  function Reassigned(row: Assignment, user: Id): Assignment {
    if row.user != user then row.(user := user, notifiedAt := None, acknowledgedAt := None) else row
  }

  /** INSERT … ON CONFLICT (item, voice) DO UPDATE. A taken primary key is no such conflict. */
  ghost function Upserted(parts: Parts, id: Id, item: Id, voice: Id, user: Id): (Parts, Result<bool, AssignError>) {
    if HasRow(parts, item, voice) then
      var p := RowOf(parts, item, voice);
      (parts[p := Reassigned(parts[p], user)], Ok(false))
    else if id in parts then (parts, Err(Database))
    else (parts[id := Assignment(item, voice, user, None, None)], Ok(true))
  }

  /** The foreign key on the user is checked when the statement has done its writes. */
  ghost function Assign(db: Db, users: set<Id>, id: Id, item: Id, voice: Id, user: Id)
    : (Parts, Result<bool, AssignError>)
  {
    if !Assignable(db, item, voice) then (db.assignments, Err(VoiceNotInArrangement))
    else
      var upserted := Upserted(db.assignments, id, item, voice, user);
      if upserted.1.Ok? && user !in users then (db.assignments, Err(UnknownReference)) else upserted
  }

  /** COALESCE: an absent argument leaves the stamp as it is. */
  function Stamp(given: Option<Time>, current: Option<Time>): Option<Time> {
    if given.Some? then given else current
  }

  function UpdateState(parts: Parts, id: Id, notified: Option<Time>, acknowledged: Option<Time>): (Parts, bool) {
    if id !in parts then (parts, false)
    else
      var row := parts[id];
      (parts[id := row.(notifiedAt := Stamp(notified, row.notifiedAt),
                        acknowledgedAt := Stamp(acknowledged, row.acknowledgedAt))], true)
  }

  function Unassign(parts: Parts, id: Id): (Parts, bool) {
    (parts - {id}, id in parts)
  }

  // ---------------------------------------------------------------------
  // What the upsert promises

  /** The unique index on the pair never refuses an assignment. */
  lemma UpsertKeepsPairsUnique(parts: Parts, id: Id, item: Id, voice: Id, user: Id)
    requires PairsUnique(parts)
    ensures PairsUnique(Upserted(parts, id, item, voice, user).0)
  {
    if HasRow(parts, item, voice) {
    } else {
      assert forall p <- parts :: !IsRowOf(parts, p, item, voice);
    }
  }

  /** Only the row of the pair differs, and it names the user. */
  predicate AssignedPair(before: Parts, after: Parts, item: Id, voice: Id, user: Id) {
    && HasRow(after, item, voice)
    && (forall p <- after | IsRowOf(after, p, item, voice) :: after[p].user == user)
    && (forall p <- before :: p in after && (after[p] == before[p] || IsRowOf(before, p, item, voice)))
    && forall p <- after | p !in before :: IsRowOf(after, p, item, voice)
  }

  lemma UpsertAssignsPair(parts: Parts, id: Id, item: Id, voice: Id, user: Id)
    requires PairsUnique(parts) && (HasRow(parts, item, voice) || id !in parts)
    ensures AssignedPair(parts, Upserted(parts, id, item, voice, user).0, item, voice, user)
    ensures Upserted(parts, id, item, voice, user).1.Ok?
  {
    var after := Upserted(parts, id, item, voice, user).0;
    UpsertKeepsPairsUnique(parts, id, item, voice, user);
    var p := if HasRow(parts, item, voice) then RowOf(parts, item, voice) else id;
    assert IsRowOf(after, p, item, voice) && after[p].user == user;
  }

  /** Assigning succeeds exactly for a live voice of the live item's arrangement, an
      existing user, and a new id or a pair that has its row; then the pair's one
      row names the user and no other row differs, and otherwise nothing does. */
  lemma AssignIff(db: Db, users: set<Id>, id: Id, item: Id, voice: Id, user: Id)
    requires PairsUnique(db.assignments)
    ensures var (after, answer) := Assign(db, users, id, item, voice, user);
            && (answer.Ok? <==>
                  && Assignable(db, item, voice) && user in users
                  && (HasRow(db.assignments, item, voice) || id !in db.assignments))
            && (answer.Ok? ==> AssignedPair(db.assignments, after, item, voice, user) && PairsUnique(after))
            && (answer.Err? ==> after == db.assignments)
            && (answer == Err(VoiceNotInArrangement) <==> !Assignable(db, item, voice))
  {
    UpsertKeepsPairsUnique(db.assignments, id, item, voice, user);
    if HasRow(db.assignments, item, voice) || id !in db.assignments {
      UpsertAssignsPair(db.assignments, id, item, voice, user);
    }
  }

  /** Assigning the same user again changes nothing; assigning another user clears
      both stamps of that row and touches no other row. */
  lemma ReassignStamps(parts: Parts, id: Id, p: Id, user: Id)
    requires PairsUnique(parts) && p in parts
    ensures var row, after := parts[p], Upserted(parts, id, parts[p].item, parts[p].voice, user).0;
            && (row.user == user ==> after == parts)
            && (row.user != user ==> after == parts[p := Assignment(row.item, row.voice, user, None, None)])
  {
    var row := parts[p];
    assert IsRowOf(parts, p, row.item, row.voice);
    assert RowOf(parts, row.item, row.voice) == p;
    assert parts[p := row] == parts;
  }

  /** A row after its stamps were set: each given stamp replaces the old one, and one
      that is not given stays. */
  predicate Stamped(was: Assignment, row: Assignment, notified: Option<Time>, acknowledged: Option<Time>) {
    && row.item == was.item && row.voice == was.voice && row.user == was.user
    && (notified.Some? ==> row.notifiedAt == notified) && (notified.None? ==> row.notifiedAt == was.notifiedAt)
    && (acknowledged.Some? ==> row.acknowledgedAt == acknowledged)
    && (acknowledged.None? ==> row.acknowledgedAt == was.acknowledgedAt)
  }

  /** Setting stamps touches the row's stamps only, and sends nothing back to absent. */
  lemma StateIsSet(parts: Parts, id: Id, notified: Option<Time>, acknowledged: Option<Time>)
    ensures var (after, found) := UpdateState(parts, id, notified, acknowledged);
            && (found <==> id in parts) && after.Keys == parts.Keys
            && (forall q <- parts | q != id :: after[q] == parts[q])
            && (found ==> Stamped(parts[id], after[id], notified, acknowledged))
  {
  }

  /** The stamp that makes a voice count as rehearsed. */
  predicate Acknowledged(parts: Parts, p: Id) {
    p in parts && parts[p].acknowledgedAt.Some?
  }

  predicate AssignedTo(parts: Parts, p: Id, user: Id) {
    p in parts && parts[p].user == user
  }

  /** Assigning never acknowledges, and never keeps an acknowledgement for someone else. */
  lemma UpsertAcknowledges(parts: Parts, id: Id, item: Id, voice: Id, user: Id, p: Id)
    requires Acknowledged(Upserted(parts, id, item, voice, user).0, p)
    ensures Acknowledged(parts, p) && AssignedTo(parts, p, Upserted(parts, id, item, voice, user).0[p].user)
  {
    if HasRow(parts, item, voice) {
    } else {
    }
  }

  class Service {
    var db: Db
    const users: set<Id>

    constructor (initial: Db, users: set<Id>)
      ensures db == initial && this.users == users
    {
      db := initial;
      this.users := users;
    }

    /** Insert the pair, or on conflict update its row. */
    method Upsert(parts: Parts, id: Id, item: Id, voice: Id, user: Id)
      returns (after: Parts, inserted: Result<bool, AssignError>)
      requires PairsUnique(parts)
      ensures (after, inserted) == Upserted(parts, id, item, voice, user)
    {
      if HasRow(parts, item, voice) {
        var p :| p in parts && IsRowOf(parts, p, item, voice);
        return parts[p := Reassigned(parts[p], user)], Ok(false);
      }
      if id in parts {
        return parts, Err(Database);
      }
      return parts[id := Assignment(item, voice, user, None, None)], Ok(true);
    }

    /** One statement: insert the joined pair, or on conflict update its row. */
    method AssignPart(id: Id, item: Id, voice: Id, user: Id) returns (inserted: Result<bool, AssignError>)
      requires PairsUnique(db.assignments)
      modifies this
      ensures db == old(db).(assignments := Assign(old(db), users, id, item, voice, user).0)
      ensures inserted == Assign(old(db), users, id, item, voice, user).1
      ensures PairsUnique(db.assignments)
    {
      UpsertKeepsPairsUnique(db.assignments, id, item, voice, user);
      if !Assignable(db, item, voice) {
        return Err(VoiceNotInArrangement);
      }
      var parts, answer := Upsert(db.assignments, id, item, voice, user);
      if answer.Ok? && user !in users {
        return Err(UnknownReference);
      }
      db := db.(assignments := parts);
      return answer;
    }

    method SetState(id: Id, notified: Option<Time>, acknowledged: Option<Time>) returns (found: bool)
      modifies this
      ensures db == old(db).(assignments := UpdateState(old(db).assignments, id, notified, acknowledged).0)
      ensures found <==> id in old(db).assignments
      ensures db.assignments.Keys == old(db).assignments.Keys
      ensures forall q <- db.assignments | q != id :: db.assignments[q] == old(db).assignments[q]
      ensures found ==> Stamped(old(db).assignments[id], db.assignments[id], notified, acknowledged)
    {
      found := id in db.assignments;
      if found {
        var row := db.assignments[id];
        if notified.Some? {
          row := row.(notifiedAt := notified);
        }
        if acknowledged.Some? {
          row := row.(acknowledgedAt := acknowledged);
        }
        db := db.(assignments := db.assignments[id := row]);
      }
    }

    method DeletePart(id: Id) returns (removed: bool)
      modifies this
      ensures db == old(db).(assignments := Unassign(old(db).assignments, id).0)
      ensures db.assignments == old(db).assignments - {id}
      ensures removed <==> id in old(db).assignments
    {
      removed := id in db.assignments;
      db := db.(assignments := db.assignments - {id});
    }
  }
}
