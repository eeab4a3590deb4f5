/**
 * The file rows and the object store as the services change them: row
 * statements, then the object, then compensation.
 */
module FileStore {
  import opened Wrappers
  import opened FileName
  import opened Schema
  import opened FileSlots

  class Store {
    var rows: map<Id, File>
    var objects: map<string, Bytes>
    var now: Time
    ghost var written: map<Id, Bytes>

    constructor ()
      ensures State() == EMPTY_FILES
    {
      rows, objects, now, written := map[], map[], 0, map[];
    }

    ghost function State(): Files
      reads this
    {
      Files(rows, objects, written, now)
    }

    // -------------------------------------------------------------------
    // Row statements

    /** INSERT, refused by the primary key or the live-slot indexes. */
    method CreateRow(id: Id, row: File) returns (reply: Reply)
      requires !row.deleted
      modifies this`rows
      ensures reply == if id in old(rows) then Some(Database)
                       else if LiveInSlot(old(rows), row) then Some(Duplicate)
                       else None
      ensures rows == if reply == None then old(rows)[id := row] else old(rows)
    {
      if id in rows {
        return Some(Database);
      }
      if LiveInSlot(rows, row) {
        return Some(Duplicate);
      }
      rows := rows[id := row];
      return None;
    }

    /** UPDATE … SET deleted_at, on a live row. */
    method SoftDelete(id: Id) returns (hidden: bool)
      modifies this`rows
      ensures hidden <==> id in old(rows) && !old(rows)[id].deleted
      ensures rows == if hidden then SetDeleted(old(rows), id, true) else old(rows)
    {
      hidden := id in rows && !rows[id].deleted;
      if hidden {
        rows := SetDeleted(rows, id, true);
      }
    }

    /** DELETE of a row. */
    method HardDelete(id: Id) returns (removed: bool)
      modifies this`rows
      ensures removed <==> id in old(rows)
      ensures rows == old(rows) - {id}
    {
      removed := id in rows;
      rows := rows - {id};
    }

    /** Soft-delete and insert in one transaction. */
    method ReplaceRow(prior: Id, id: Id, row: File) returns (reply: Reply)
      requires !row.deleted
      modifies this`rows
      ensures reply == if prior !in old(rows) || old(rows)[prior].deleted then Some(ReplaceTargetGone)
                       else if id in old(rows) then Some(Database)
                       else if LiveInSlot(SetDeleted(old(rows), prior, true), row) then Some(Duplicate)
                       else None
      ensures rows == if reply == None then Swapped(old(rows), prior, id, row) else old(rows)
      ensures LiveSlotsUnique(old(rows)) ==> LiveSlotsUnique(rows)
    {
      var before := rows;
      var hidden := SoftDelete(prior);
      if !hidden {
        return Some(ReplaceTargetGone);
      }
      reply := CreateRow(id, row);
      if reply != None {
        rows := before;
      }
    }

    /** Compensation of `ReplaceRow`: the new row is hidden before the prior one is
        revived, so no statement leaves the slot with two live rows. */
    method RestoreReplaced(prior: Id, id: Id)
      requires prior in rows && id in rows && prior != id
      requires LiveSlotsUnique(rows) && SameSlot(rows[prior], rows[id]) && !rows[id].deleted
      modifies this`rows
      ensures rows == SwappedBack(old(rows), prior, id)
      ensures LiveSlotsUnique(rows)
    {
      rows := SetDeleted(rows, id, true);
      assert LiveSlotsUnique(rows);
      rows := SetDeleted(rows, prior, false);
    }

    /** The live row of a slot. */
    method FindByLocation(row: File) returns (r: Option<Id>)
      requires LiveSlotsUnique(rows)
      ensures r == LiveRow(rows, row)
    {
      if LiveInSlot(rows, row) {
        var g :| g in rows && !rows[g].deleted && SameSlot(rows[g], row);
        return Some(g);
      }
      return None;
    }

    /** The object store takes the bytes or keeps what it had; it may take them and
        yet be reported as failed. */
    method UploadBytes(id: Id, key: string, data: Bytes, end: Outcome) returns (ok: bool)
      modifies this`objects, this`written
      ensures ok <==> end.Stored?
      ensures objects == if end.Stored? || end.applied then old(objects)[key := data] else old(objects)
      ensures written == if end.Stored? || end.applied then old(written)[id := data] else old(written)
    {
      if end.Stored? || end.applied {
        objects, written := objects[key := data], written[id := data];
      }
      ok := end.Stored?;
    }

    // -------------------------------------------------------------------
    // Services

    method StoreUpload(tree: Tree, id: Id, loc: Location, fileName: string, mime: string, data: Bytes, end: Outcome)
      returns (reply: Reply)
      modifies this
      ensures (State(), reply) == Act(old(State()), id, UploadAction(tree, old(now), loc, fileName, mime), data, end)
    {
      var action := CheckUpload(tree, loc, fileName, mime);
      match action
      case Refused(why) =>
        now := now + 1;
        return Some(why);
      case Inserting(row, key) =>
        reply := InsertIn(id, row, key, data, end);
    }

    /** The checks `store_upload` makes before it touches a row. */
    method CheckUpload(tree: Tree, loc: Location, fileName: string, mime: string) returns (a: Action)
      ensures a == UploadAction(tree, now, loc, fileName, mime)
      ensures a.Refused? || (a.Inserting? && !a.row.deleted)
    {
      var format := FormatAndExtForMime(mime);
      if format.None? {
        return Refused(UnsupportedMime);
      }
      var name := NameStem(fileName);
      if name.None? {
        return Refused(EmptyName);
      }
      if loc !in tree {
        return Refused(NotFound);
      }
      var row := File(loc.0, loc.1, name.value, format.value.0, mime, None, now, false);
      return Inserting(row, KeyOf(tree, row));
    }

    /** The row statements and the object write of an upload. */
    method InsertIn(id: Id, row: File, key: string, data: Bytes, end: Outcome) returns (reply: Reply)
      requires !row.deleted
      modifies this
      ensures (State(), reply) == InsertFile(old(State()), id, row, key, data, end)
    {
      now := now + 1;
      ghost var before := rows;
      reply := CreateRow(id, row);
      if reply == None {
        ghost var was := written;
        var ok := UploadBytes(id, key, data, end);
        if !ok {
          if end.undone {
            var removed := HardDelete(id);
            written := was;
            assert rows == before;
          }
          reply := Some(UploadFailed);
        }
      }
    }

    /** The row statements and the object write of a replacement. */
    method SwapIn(id: Id, prior: Id, row: File, key: string, data: Bytes, end: Outcome) returns (reply: Reply)
      requires prior in rows && !rows[prior].deleted && !row.deleted
      requires LiveSlotsUnique(rows) && SameSlot(rows[prior], row)
      modifies this
      ensures (State(), reply) == Swap(old(State()), id, prior, row, key, data, end)
    {
      now := now + 1;
      ghost var before := rows;
      reply := ReplaceRow(prior, id, row);
      if reply == None {
        var ok := UploadBytes(id, key, data, end);
        if !ok {
          if end.undone {
            RestoreReplaced(prior, id);
            assert rows == SwappedBack(Swapped(before, prior, id, row), prior, id);
          }
          reply := Some(UploadFailed);
        }
      }
    }

    method StoreReplacement(tree: Tree, id: Id, prior: Id, mime: string, data: Bytes, end: Outcome)
      returns (reply: Reply)
      requires LiveSlotsUnique(rows) && FileShapes(rows)
      modifies this
      ensures (State(), reply) == Act(old(State()), id, ReplaceAction(tree, old(State()), prior, mime), data, end)
    {
      var action := CheckReplacement(tree, prior, mime);
      match action
      case Refused(why) =>
        now := now + 1;
        return Some(why);
      case Swapping(_, row, key) =>
        reply := SwapIn(id, prior, row, key, data, end);
    }

    /** The checks `store_replacement` makes before it touches a row. */
    method CheckReplacement(tree: Tree, prior: Id, mime: string) returns (a: Action)
      requires FileShapes(rows)
      ensures a == ReplaceAction(tree, State(), prior, mime)
      ensures a.Refused? || (a.Swapping? && a.prior == prior)
      ensures a.Swapping? ==> !a.row.deleted && prior in rows && !rows[prior].deleted && SameSlot(rows[prior], a.row)
    {
      if prior !in rows {
        return Refused(NotFound);
      }
      var was := rows[prior];
      var format := FormatAndExtForMime(was.mime);
      if format.None? {
        return Refused(StoredMimeUnknown);
      }
      if FormatAndExtForMime(mime).None? {
        return Refused(UnsupportedMime);
      }
      if FormatAndExtForMime(mime) != format {
        return Refused(FormatMismatch);
      }
      if Loc(was) !in tree {
        return Refused(NotFound);
      }
      if was.deleted {
        return Refused(ReplaceTargetGone);
      }
      var row := was.(format := format.value.0, createdAt := now, deleted := false);
      return Swapping(prior, row, KeyOf(tree, row));
    }

    method CommitWrite(tree: Tree, id: Id, loc: Location, fileName: string, data: Bytes, end: Outcome)
      returns (reply: Reply)
      requires LiveSlotsUnique(rows)
      modifies this
      ensures (State(), reply) == Act(old(State()), id, DavAction(tree, old(State()), loc, fileName), data, end)
    {
      var action := CheckWrite(tree, loc, fileName);
      match action
      case Refused(why) =>
        now := now + 1;
        return Some(why);
      case Swapping(prior, row, key) =>
        reply := SwapIn(id, prior, row, key, data, end);
      case Creating(row, key) =>
        reply := CreateIn(id, row, key, data, end);
    }

    /** The target of a PUT and the live row it would replace. */
    method CheckWrite(tree: Tree, loc: Location, fileName: string) returns (a: Action)
      requires LiveSlotsUnique(rows)
      ensures a == DavAction(tree, State(), loc, fileName) && !a.Inserting?
      ensures a.Refused? || !a.row.deleted
      ensures a.Swapping? ==> a.prior in rows && !rows[a.prior].deleted && SameSlot(rows[a.prior], a.row)
    {
      if loc !in tree {
        return Refused(NotFound);
      }
      var target := DavRow(now, loc, fileName);
      if target.None? || '/' in fileName {
        return Refused(Forbidden);
      }
      var row := target.value;
      var existing := FindByLocation(row);
      match existing
      case Some(prior) => return Swapping(prior, row, KeyOf(tree, row));
      case None => return Creating(row, KeyOf(tree, row));
    }

    /** The row statements and the object write of a new WebDAV file. */
    method CreateIn(id: Id, row: File, key: string, data: Bytes, end: Outcome) returns (reply: Reply)
      requires !row.deleted
      modifies this
      ensures (State(), reply) == Create(old(State()), id, row, key, data, end)
    {
      now := now + 1;
      ghost var before := rows;
      reply := CreateRow(id, row);
      if reply == None {
        var ok := UploadBytes(id, key, data, end);
        if !ok {
          if end.undone {
            var hidden := SoftDelete(id);
            assert rows == before[id := row.(deleted := true)];
          } else {
            assert rows == before[id := row.(deleted := false)];
          }
          reply := Some(UploadFailed);
        }
      }
    }

    method DeleteFile(id: Id) returns (reply: Reply)
      modifies this
      ensures (State(), reply) == Delete(old(State()), id)
    {
      now := now + 1;
      var hidden := SoftDelete(id);
      reply := if hidden then None else Some(NoMatch);
    }

    /** `undelete`: the newer-sibling guard and the write are one statement, the
        re-read afterwards only says why nothing was restored. */
    method UndeleteFile(id: Id) returns (reply: Reply)
      modifies this
      ensures (State(), reply) == Undelete(old(State()), id)
    {
      now := now + 1;
      if id in rows && rows[id].deleted && NewestInSlot(rows, id) {
        if LiveInSlot(rows, rows[id]) {
          return Some(Duplicate);
        }
        rows := SetDeleted(rows, id, false);
        return None;
      }
      if id !in rows || !rows[id].deleted {
        return Some(NoMatch);
      }
      return Some(Superseded);
    }
  }
}
