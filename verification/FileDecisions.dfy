/**
 * What the three ways of writing a file accept, what each refusal means, and the row
 * they write.
 */
module FileDecisions {
  import opened Wrappers
  import opened FileName
  import opened FileTypes
  import opened Schema
  import opened FileSlots

  /** The type, without parameters and case, is one that files are stored under. */
  predicate Accepted(mime: string) {
    BaseMime(mime) in STORED
  }

  lemma AcceptedIff(mime: string)
    ensures FormatAndExtForMime(mime).Some? <==> Accepted(mime)
    ensures Accepted(mime) ==> FormatAndExtForMime(mime).value.1 == STORED[BaseMime(mime)]
  {
    StoredTypes(BaseMime(mime));
  }

  /** The two types are accepted and their files are listed under one extension. */
  predicate SameType(mime: string, mime': string) {
    Accepted(mime) && Accepted(mime') && STORED[BaseMime(mime)] == STORED[BaseMime(mime')]
  }

  lemma SameTypeIff(mime: string, mime': string)
    requires Accepted(mime) && Accepted(mime')
    ensures SameType(mime, mime') <==> FormatAndExtForMime(mime) == FormatAndExtForMime(mime')
  {
    AcceptedIff(mime);
    AcceptedIff(mime');
    SharedFormatIff(BaseMime(mime), BaseMime(mime'));
  }

  // ---------------------------------------------------------------------
  // Upload

  /** An upload is accepted exactly for an accepted type, a name with a stem and a live
      place; each refusal says which of these failed first. */
  lemma UploadDecides(tree: Tree, now: Time, loc: Location, fileName: string, mime: string)
    ensures var a := UploadAction(tree, now, loc, fileName, mime);
            && (a == Refused(UnsupportedMime) <==> !Accepted(mime))
            && (a == Refused(EmptyName) <==> Accepted(mime) && NameStem(fileName).None?)
            && (a == Refused(NotFound) <==> Accepted(mime) && NameStem(fileName).Some? && loc !in tree)
            && (a.Inserting? <==> Accepted(mime) && NameStem(fileName).Some? && loc in tree)
            && (a.Inserting? || a.Refused?)
  {
    AcceptedIff(mime);
  }

  /** The row is of the place, under the stem and the type that were sent. */
  lemma UploadWrites(tree: Tree, now: Time, loc: Location, fileName: string, mime: string)
    requires UploadAction(tree, now, loc, fileName, mime).Inserting?
    ensures var a := UploadAction(tree, now, loc, fileName, mime);
            && (a.row.arr, a.row.voice) == loc && Some(a.row.name) == NameStem(fileName) && a.row.mime == mime
            && FileShape(a.row) && a.row.derivedFrom.None? && a.row.createdAt == now && !a.row.deleted
            && HasKey(tree, a.row) && a.key == KeyOf(tree, a.row)
  {
  }

  // ---------------------------------------------------------------------
  // Replacement

  /** A replacement is accepted exactly for a live row of a live place whose type and
      the request's are listed under one extension; the six refusals, in their order. */
  lemma ReplaceDecides(tree: Tree, f: Files, prior: Id, mime: string)
    ensures var a := ReplaceAction(tree, f, prior, mime);
            if prior !in f.rows then a == Refused(NotFound)
            else
              var was := f.rows[prior];
              && (a == Refused(StoredMimeUnknown) <==> !Accepted(was.mime))
              && (a == Refused(UnsupportedMime) <==> Accepted(was.mime) && !Accepted(mime))
              && (a == Refused(FormatMismatch) <==>
                    Accepted(was.mime) && Accepted(mime) && !SameType(was.mime, mime))
              && (a == Refused(NotFound) <==> SameType(was.mime, mime) && (was.arr, was.voice) !in tree)
              && (a == Refused(ReplaceTargetGone) <==>
                    SameType(was.mime, mime) && (was.arr, was.voice) in tree && was.deleted)
              && (a.Swapping? <==> SameType(was.mime, mime) && (was.arr, was.voice) in tree && !was.deleted)
              && (a.Swapping? || a.Refused?)
  {
    if prior in f.rows {
      AcceptedIff(f.rows[prior].mime);
      AcceptedIff(mime);
      if Accepted(f.rows[prior].mime) && Accepted(mime) {
        SameTypeIff(f.rows[prior].mime, mime);
      }
    }
  }

  /** The new row differs from the old one in its age only, and takes over its object. */
  lemma ReplaceWrites(tree: Tree, f: Files, prior: Id, mime: string)
    requires ReplaceAction(tree, f, prior, mime).Swapping? && FileShape(f.rows[prior])
    ensures var a := ReplaceAction(tree, f, prior, mime);
            && a.prior == prior && a.row == f.rows[prior].(createdAt := f.now)
            && HasKey(tree, f.rows[prior]) && a.key == KeyOf(tree, f.rows[prior])
  {
  }

  // ---------------------------------------------------------------------
  // WebDAV PUT

  /** The name has a stem and an extension a client may name, and is one segment. */
  predicate Writable(filename: string) {
    && '/' !in filename && SplitFilename(filename).Some?
    && MimeForExt(SplitFilename(filename).value.1).Some?
  }

  lemma WritableIff(now: Time, loc: Location, filename: string)
    ensures DavRow(now, loc, filename).Some? && '/' !in filename <==> Writable(filename)
  {
    if SplitFilename(filename).Some? && MimeForExt(SplitFilename(filename).value.1).Some? {
      ExtensionsAreStorable(SplitFilename(filename).value.1);
    }
  }

  /** A PUT is accepted exactly for a writable name and a live place. It replaces the
      live file of its slot, if there is one, and otherwise creates a file. */
  lemma PutDecides(tree: Tree, f: Files, loc: Location, filename: string)
    ensures var a := DavAction(tree, f, loc, filename);
            && (a == Refused(NotFound) <==> loc !in tree)
            && (a == Refused(Forbidden) <==> loc in tree && !Writable(filename))
            && (!a.Refused? <==> loc in tree && Writable(filename))
            && (a.Swapping? ==> a.prior in f.rows && !f.rows[a.prior].deleted && SameSlot(f.rows[a.prior], a.row))
            && (a.Creating? ==> forall g <- f.rows | SameSlot(f.rows[g], a.row) :: f.rows[g].deleted)
            && (a.Refused? || a.Swapping? || a.Creating?)
  {
    WritableIff(f.now, loc, filename);
  }

  /** The row is of the place, under the stem of the name and the type of its extension. */
  lemma PutWrites(tree: Tree, f: Files, loc: Location, filename: string)
    requires !DavAction(tree, f, loc, filename).Refused?
    ensures var (a, parts) := (DavAction(tree, f, loc, filename), SplitFilename(filename));
            && parts.Some? && (a.row.arr, a.row.voice) == loc && a.row.name == parts.value.0
            && Some(a.row.mime) == MimeForExt(parts.value.1) && FileShape(a.row)
            && NamedSlot(filename) == Some((a.row.name, a.row.format))
            && a.row.derivedFrom.None? && a.row.createdAt == f.now && !a.row.deleted
            && HasKey(tree, a.row) && a.key == KeyOf(tree, a.row)
  {
    var parts := SplitFilename(filename).value;
    assert forall c :: c in parts.0 ==> c in filename;
  }

  /** A PUT replaces a file of its own kind only: one that is listed under the same
      extension, or an image if it puts an image. */
  lemma PutReplacesItsKind(tree: Tree, f: Files, loc: Location, filename: string)
    requires DavAction(tree, f, loc, filename).Swapping?
    requires FileShape(f.rows[DavAction(tree, f, loc, filename).prior])
    ensures var a := DavAction(tree, f, loc, filename);
            var was := f.rows[a.prior];
            && was.name == a.row.name
            && (|| SameType(was.mime, a.row.mime)
                || (IsImageType(BaseMime(was.mime)) && IsImageType(BaseMime(a.row.mime))))
  {
    PutWrites(tree, f, loc, filename);
    var a := DavAction(tree, f, loc, filename);
    KindsOfOneFormat(f.rows[a.prior], a.row);
  }

  lemma KindsOfOneFormat(was: File, row: File)
    requires FileShape(was) && FileShape(row) && was.format == row.format
    ensures SameType(was.mime, row.mime) || (IsImageType(BaseMime(was.mime)) && IsImageType(BaseMime(row.mime)))
  {
    AcceptedIff(was.mime);
    AcceptedIff(row.mime);
    SharedFormatIff(BaseMime(was.mime), BaseMime(row.mime));
  }
}
