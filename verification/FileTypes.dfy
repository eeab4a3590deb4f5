/**
 * Which files are of one kind: the accepted MIME types and extensions listed once
 * more, and what shares a slot.
 */
module FileTypes {
  import opened Wrappers
  import opened Text
  import opened Slug
  import opened FileName

  /** The accepted MIME types with the extension their files are listed under. */
  const STORED: map<string, string> :=
    map["application/x-lilypond" := "ly", "text/x-lilypond" := "ly",
        "application/vnd.recordare.musicxml+xml" := "musicxml", "application/vnd.recordare.musicxml" := "musicxml",
        "application/pdf" := "pdf",
        "image/png" := "png", "image/jpeg" := "jpg", "image/tiff" := "tif", "image/gif" := "gif",
        "image/webp" := "webp", "image/bmp" := "bmp"]

  /** The extensions a client may name, and the one their files are listed under. */
  const NAMED: map<string, string> :=
    map["ly" := "ly", "musicxml" := "musicxml", "pdf" := "pdf", "png" := "png", "jpg" := "jpg", "jpeg" := "jpg",
        "tif" := "tif", "tiff" := "tif", "gif" := "gif", "webp" := "webp", "bmp" := "bmp"]

  /** The extensions images are listed under. */
  const IMAGES: set<string> := {"png", "jpg", "tif", "gif", "webp", "bmp"}

  predicate IsImageType(base: string) {
    "image/" <= base
  }

  /** The accepted types are those, with those extensions. */
  lemma StoredTypes(base: string)
    ensures FormatTable(base).Some? <==> base in STORED
    ensures base in STORED ==> FormatTable(base).value.1 == STORED[base]
  {
  }

  lemma NamedExtensions(e: string)
    ensures MimeTable(e).Some? <==> e in NAMED
    ensures e in NAMED ==> MimeTable(e).value in STORED && STORED[MimeTable(e).value] == NAMED[e]
  {
  }

  lemma ImageTypesStart(subtype: string)
    ensures IsImageType("image/" + subtype)
  {
  }

  lemma ImageTypeNames()
    ensures "image/png" == "image/" + "png" && "image/jpeg" == "image/" + "jpeg" && "image/tiff" == "image/" + "tiff"
    ensures "image/gif" == "image/" + "gif" && "image/webp" == "image/" + "webp" && "image/bmp" == "image/" + "bmp"
  {
  }

  lemma ImageTypesAre(base: string)
    requires FormatTable(base).Some?
    ensures FormatTable(base).value.1 in IMAGES <==> IsImageType(base)
  {
    ImageTypeNames();
    if IsImageType(base) {
      assert base[0] == 'i';
    } else {
      ImageTypesStart("png");
      ImageTypesStart("jpeg");
      ImageTypesStart("tiff");
      ImageTypesStart("gif");
      ImageTypesStart("webp");
      ImageTypesStart("bmp");
    }
  }

  /** A format is one extension, or all images. */
  lemma FormatByExtension(base: string)
    requires FormatTable(base).Some?
    ensures var (format, ext) := FormatTable(base).value;
            && (format == Lilypond <==> ext == "ly") && (format == MusicXml <==> ext == "musicxml")
            && (format == Pdf <==> ext == "pdf") && (format == Image <==> ext in IMAGES)
  {
  }

  /** Two accepted types share a format exactly when both are image types or their
      files are listed under one extension. */
  lemma SharedFormatIff(base: string, base': string)
    requires FormatTable(base).Some? && FormatTable(base').Some?
    ensures FormatTable(base).value.0 == FormatTable(base').value.0
       <==> FormatTable(base).value.1 == FormatTable(base').value.1 || (IsImageType(base) && IsImageType(base'))
  {
    FormatByExtension(base);
    FormatByExtension(base');
    ImageTypesAre(base);
    ImageTypesAre(base');
  }

  // ---------------------------------------------------------------------
  // Names and slots

  /** The type of a file of this extension. */
  function TypeOf(ext: string): string
    requires MimeForExt(ext).Some?
  {
    MimeForExt(ext).value
  }

  /** The extension under which a file of this one is listed. */
  function ListedAs(ext: string): (e: string)
    requires MimeForExt(ext).Some?
  {
    ExtensionsAreStorable(ext);
    FormatAndExtForMime(TypeOf(ext)).value.1
  }

  lemma NoEmptyExtension()
    ensures MimeForExt("").None?
  {
  }

  lemma SlotOfName(stem: string, ext: string)
    requires stem != "" && '.' !in ext && MimeForExt(ext).Some?
    ensures FormatAndExtForMime(TypeOf(ext)).Some? && BaseMime(TypeOf(ext)) == TypeOf(ext)
    ensures NamedSlot(stem + "." + ext) == Some((stem, FormatAndExtForMime(TypeOf(ext)).value.0))
  {
    ExtensionsAreStorable(ext);
    BaseMimeCanonical(Lower(ext));
    NoEmptyExtension();
    SplitLastIs(stem, '.', ext);
  }

  /** Two file names of one place address one slot exactly when they have the same
      stem, and are listed under the same extension or are both images. */
  lemma SameSlotIff(stem: string, ext: string, stem': string, ext': string)
    requires stem != "" && '.' !in ext && MimeForExt(ext).Some?
    requires stem' != "" && '.' !in ext' && MimeForExt(ext').Some?
    ensures NamedSlot(stem + "." + ext) == NamedSlot(stem' + "." + ext')
       <==> && stem == stem'
            && (ListedAs(ext) == ListedAs(ext') || (IsImageType(TypeOf(ext)) && IsImageType(TypeOf(ext'))))
  {
    SlotOfName(stem, ext);
    SlotOfName(stem', ext');
    SharedFormatIff(TypeOf(ext), TypeOf(ext'));
  }

  lemma ScoreTypes()
    ensures MimeForExt("pdf") == Some("application/pdf") && MimeForExt("ly") == Some("application/x-lilypond")
    ensures MimeForExt("musicxml") == Some("application/vnd.recordare.musicxml+xml")
  {
    LowerFixed("pdf");
    LowerFixed("ly");
    LowerFixed("musicxml");
  }

  lemma NotAnImage(base: string)
    requires base != "" && base[0] == 'a'
    ensures !IsImageType(base)
  {
  }

  lemma ScoreRows()
    ensures FormatTable("application/pdf") == Some((Pdf, "pdf"))
    ensures FormatTable("application/x-lilypond") == Some((Lilypond, "ly"))
    ensures FormatTable("application/vnd.recordare.musicxml+xml") == Some((MusicXml, "musicxml"))
  {
  }

  lemma ScoreExtension(ext: string)
    requires ext == "pdf" || ext == "ly" || ext == "musicxml"
    ensures MimeForExt(ext).Some? && ListedAs(ext) == ext && !IsImageType(TypeOf(ext))
  {
    ScoreTypes();
    ScoreRows();
    ListedAsRow(ext);
    NotAnImage(TypeOf(ext));
  }

  lemma ListedAsRow(ext: string)
    requires MimeForExt(ext).Some?
    ensures FormatTable(TypeOf(ext)).Some? && ListedAs(ext) == FormatTable(TypeOf(ext)).value.1
  {
    ExtensionsAreStorable(ext);
    BaseMimeCanonical(Lower(ext));
  }

  lemma ScoreExtensionsDiffer()
    ensures "pdf" != "ly" && "pdf" != "musicxml" && "ly" != "musicxml"
    ensures '.' !in "pdf" && '.' !in "ly" && '.' !in "musicxml"
  {
  }

  /** `score.pdf`, `score.musicxml` and `score.ly` of one place are three files: the
      print, the interchange and the engraving source never replace one another. */
  lemma ScoresAreApart(stem: string, ext: string, ext': string)
    requires stem != "" && ext != ext' && {ext, ext'} <= {"pdf", "musicxml", "ly"}
    ensures NamedSlot(stem + "." + ext).Some? && NamedSlot(stem + "." + ext) != NamedSlot(stem + "." + ext')
  {
    assert ext in {ext, ext'} && ext' in {ext, ext'};
    ScoreExtensionsDiffer();
    ScoreExtension(ext);
    ScoreExtension(ext');
    SlotOfName(stem, ext);
    SameSlotIff(stem, ext, stem, ext');
  }

  // ---------------------------------------------------------------------
  // Ways of writing a type or a name

  predicate AllSpace(pad: string) {
    forall c :: c in pad ==> IsWhitespace(c)
  }

  lemma {:induction false} StartTrimmed(pad: string, s: string)
    requires AllSpace(pad) && s != "" && !IsWhitespace(s[0])
    ensures TrimStart(pad + s) == s
  {
    if pad == "" {
      assert pad + s == s;
    } else {
      assert pad[0] in pad && (pad + s)[1..] == pad[1..] + s;
      assert forall c :: c in pad[1..] ==> c in pad;
      StartTrimmed(pad[1..], s);
    }
  }

  lemma {:induction false} EndTrimmed(s: string, pad: string)
    requires AllSpace(pad) && s != "" && !IsWhitespace(s[|s| - 1])
    ensures TrimEnd(s + pad) == s
  {
    if pad == "" {
      assert s + pad == s;
    } else {
      var init := pad[..|pad| - 1];
      assert pad[|pad| - 1] in pad && (s + pad)[..|s + pad| - 1] == s + init;
      assert forall c :: c in init ==> c in pad;
      EndTrimmed(s, init);
    }
  }

  /** Whitespace on both sides goes, and only that. */
  lemma Trimmed(pad: string, s: string, pad': string)
    requires AllSpace(pad) && AllSpace(pad') && s != "" && !IsWhitespace(s[0]) && !IsWhitespace(s[|s| - 1])
    ensures Trim(pad + s + pad') == s
  {
    assert pad + s + pad' == pad + (s + pad');
    StartTrimmed(pad, s + pad');
    EndTrimmed(s, pad');
  }

  /** Parameters, letter case and whitespace around the type do not matter. */
  lemma ParametersDoNotMatter(pad: string, mime: string, pad': string, parameters: string)
    requires AllSpace(pad) && AllSpace(pad') && IsPlain(Lower(mime)) && ';' !in mime
    ensures FormatAndExtForMime(pad + mime + pad' + ";" + parameters) == FormatTable(Lower(mime))
    ensures FormatAndExtForMime(pad + mime + pad') == FormatTable(Lower(mime))
  {
    var first := pad + mime + pad';
    assert ';' !in first;
    SplitPrefix(first, parameters, ';');
    SplitWhole(first, ';');
    assert Split(first + ";" + parameters, ';')[0] == first;
    PlainEnds(mime);
    Trimmed(pad, mime, pad');
  }

  lemma PlainEnds(mime: string)
    requires IsPlain(Lower(mime))
    ensures mime != "" && !IsWhitespace(mime[0]) && !IsWhitespace(mime[|mime| - 1])
  {
    var first, last := mime[0], mime[|mime| - 1];
    assert Lower(mime)[0] == AsciiLower(first) && Lower(mime)[|mime| - 1] == AsciiLower(last);
  }

  /** The part of a path after its last slash or backslash. */
  lemma {:induction false} BaseNameOfPath(dir: string, slash: char, base: string)
    requires slash == '/' || slash == '\\'
    requires '/' !in base && '\\' !in base
    ensures BaseName(dir + [slash] + base) == base
  {
    var s := dir + [slash] + base;
    if base == "" {
      assert s[|s| - 1] == slash;
    } else {
      var init := base[..|base| - 1];
      assert s[..|s| - 1] == dir + [slash] + init && s[|s| - 1] == base[|base| - 1];
      assert forall c :: c in init ==> c in base;
      assert base[|base| - 1] in base;
      BaseNameOfPath(dir, slash, init);
      assert base == init + [base[|base| - 1]];
    }
  }

  lemma {:induction false} BaseNameWhole(base: string)
    requires '/' !in base && '\\' !in base
    ensures BaseName(base) == base
  {
    if base != "" {
      assert base == base[..|base| - 1] + [base[|base| - 1]];
      assert forall c :: c in base[..|base| - 1] ==> c in base;
      BaseNameWhole(base[..|base| - 1]);
    }
  }

  /** Whatever directories a client sends, a file is stored under the stem of its last
      component, without the whitespace around it. */
  lemma StemOfPath(dir: string, slash: char, pad: string, stem: string, pad': string, ext: string)
    requires slash == '/' || slash == '\\'
    requires AllSpace(pad) && AllSpace(pad')
    requires stem != "" && '/' !in stem && '\\' !in stem && '/' !in ext && '\\' !in ext && '.' !in ext
    requires !IsWhitespace(stem[0]) && !IsWhitespace(stem[|stem| - 1])
    ensures NameStem(dir + [slash] + (pad + stem + pad' + "." + ext)) == Some(stem)
    ensures NameStem(pad + stem + pad' + "." + ext) == Some(stem)
  {
    var base := pad + stem + pad' + "." + ext;
    assert '/' !in base && '\\' !in base;
    BaseNameOfPath(dir, slash, base);
    BaseNameWhole(base);
    SplitLastIs(pad + stem + pad', '.', ext);
    Trimmed(pad, stem, pad');
  }

  lemma PlainStem(stem: string, ext: string)
    requires stem != "" && '/' !in stem && '\\' !in stem && '/' !in ext && '\\' !in ext && '.' !in ext
    requires !IsWhitespace(stem[0]) && !IsWhitespace(stem[|stem| - 1])
    ensures NameStem(stem + "." + ext) == Some(stem)
  {
    var none: string := [];
    assert none + stem + none == stem;
    StemOfPath(none, '/', none, stem, none, ext);
  }
}
