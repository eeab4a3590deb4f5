/**
 * File names, MIME types and derived storage keys.
 */
module FileName {
  import opened Wrappers
  import opened Text
  import opened Slug

  /** The coarse routing key stored beside the MIME type. */
  datatype Format = Lilypond | MusicXml | Pdf | Image

  function Lower(s: string): string {
    seq(|s|, i requires 0 <= i < |s| => AsciiLower(s[i]))
  }

  /** Unicode White_Space, which `str::trim` removes from both ends. */
  predicate IsWhitespace(c: char) {
    var n := c as int;
    0x9 <= n <= 0xD || n == 0x20 || n == 0x85 || n == 0xA0 || n == 0x1680 || 0x2000 <= n <= 0x200A
    || n == 0x2028 || n == 0x2029 || n == 0x202F || n == 0x205F || n == 0x3000
  }

  function TrimStart(s: string): (t: string)
    ensures t == "" || !IsWhitespace(t[0])
    ensures forall c :: c in t ==> c in s
    ensures s != "" && !IsWhitespace(s[0]) ==> t == s
  {
    if s != "" && IsWhitespace(s[0]) then TrimStart(s[1..]) else s
  }

  function TrimEnd(s: string): (t: string)
    ensures t <= s
    ensures t == "" || !IsWhitespace(t[|t| - 1])
    ensures s != "" && !IsWhitespace(s[|s| - 1]) ==> t == s
  {
    if s != "" && IsWhitespace(s[|s| - 1]) then TrimEnd(s[..|s| - 1]) else s
  }

  function Trim(s: string): (t: string)
    ensures t == "" || (!IsWhitespace(t[0]) && !IsWhitespace(t[|t| - 1]))
    ensures forall c :: c in t ==> c in s
  {
    TrimEnd(TrimStart(s))
  }

  // ---------------------------------------------------------------------
  // The two MIME tables

  /** The MIME type without parameters, trimmed and in lower case. */
  function BaseMime(mime: string): string {
    Lower(Trim(Split(mime, ';')[0]))
  }

  function FormatTable(base: string): (r: Option<(Format, string)>)
    ensures r.Some? ==> r.value.1 != "" && '.' !in r.value.1 && '/' !in r.value.1
  {
    if base == "application/x-lilypond" || base == "text/x-lilypond" then Some((Lilypond, "ly"))
    else if base == "application/vnd.recordare.musicxml+xml" || base == "application/vnd.recordare.musicxml" then
      Some((MusicXml, "musicxml"))
    else if base == "application/pdf" then Some((Pdf, "pdf"))
    else if base == "image/png" then Some((Image, "png"))
    else if base == "image/jpeg" then Some((Image, "jpg"))
    else if base == "image/tiff" then Some((Image, "tif"))
    else if base == "image/gif" then Some((Image, "gif"))
    else if base == "image/webp" then Some((Image, "webp"))
    else if base == "image/bmp" then Some((Image, "bmp"))
    else None
  }

  /** The format and the canonical extension of a stored MIME type. */
  function FormatAndExtForMime(mime: string): (r: Option<(Format, string)>)
    ensures r.Some? ==> r.value.1 != "" && '.' !in r.value.1 && '/' !in r.value.1
  {
    FormatTable(BaseMime(mime))
  }

  /** The MIME type of a file extension a client names, in any case. */
  function MimeForExt(ext: string): Option<string> {
    MimeTable(Lower(ext))
  }

  function MimeTable(e: string): Option<string> {
    if e == "ly" then Some("application/x-lilypond")
    else if e == "musicxml" then Some("application/vnd.recordare.musicxml+xml")
    else if e == "pdf" then Some("application/pdf")
    else if e == "png" then Some("image/png")
    else if e == "jpg" || e == "jpeg" then Some("image/jpeg")
    else if e == "tif" || e == "tiff" then Some("image/tiff")
    else if e == "gif" then Some("image/gif")
    else if e == "webp" then Some("image/webp")
    else if e == "bmp" then Some("image/bmp")
    else None
  }

  /** Characters of a MIME type in normal form: no parameter, no upper case, no space. */
  predicate IsPlain(m: string) {
    m != "" && forall i :: 0 <= i < |m| ==> '+' <= m[i] <= 'z' && m[i] != ';' && !('A' <= m[i] <= 'Z')
  }

  lemma MusicXmlIsPlain()
    ensures IsPlain("application/vnd.recordare.musicxml+xml")
  {
  }

  lemma ApplicationTypesArePlain()
    ensures IsPlain("application/x-lilypond") && IsPlain("application/pdf")
  {
  }

  lemma ImageTypesArePlain()
    ensures IsPlain("image/png") && IsPlain("image/jpeg") && IsPlain("image/tiff")
    ensures IsPlain("image/gif") && IsPlain("image/webp") && IsPlain("image/bmp")
  {
  }

  lemma PlainIsBase(m: string)
    requires IsPlain(m)
    ensures BaseMime(m) == m
  {
    SplitWhole(m, ';');
    LowerFixed(m);
  }

  /** MIME types of the second table carry no parameter and are in normal form. */
  lemma BaseMimeCanonical(e: string)
    requires MimeTable(e).Some?
    ensures BaseMime(MimeTable(e).value) == MimeTable(e).value
  {
    MusicXmlIsPlain();
    ApplicationTypesArePlain();
    ImageTypesArePlain();
    PlainIsBase(MimeTable(e).value);
  }

  lemma LowerFixed(s: string)
    requires forall i :: 0 <= i < |s| ==> !('A' <= s[i] <= 'Z')
    ensures Lower(s) == s
  {
  }

  lemma TableRowsAgree(base: string)
    requires FormatTable(base).Some?
    ensures var ext := FormatTable(base).value.1;
            && Lower(ext) == ext
            && MimeTable(ext).Some?
            && FormatTable(MimeTable(ext).value) == FormatTable(base)
  {
    LowerFixed(FormatTable(base).value.1);
  }

  /** The two tables agree: an extension printed for a stored MIME type leads
      back to the same format and the same canonical extension. */
  lemma TablesAgree(mime: string)
    requires FormatAndExtForMime(mime).Some?
    ensures var ext := FormatAndExtForMime(mime).value.1;
            MimeForExt(ext).Some? && FormatAndExtForMime(MimeForExt(ext).value) == FormatAndExtForMime(mime)
  {
    var base := BaseMime(mime);
    TableRowsAgree(base);
    BaseMimeCanonical(FormatTable(base).value.1);
  }

  lemma MimeTableIsStorable(e: string)
    requires MimeTable(e).Some?
    ensures FormatTable(MimeTable(e).value).Some?
  {
  }

  /** Every extension a client may name is a storable type. */
  lemma ExtensionsAreStorable(ext: string)
    requires MimeForExt(ext).Some?
    ensures FormatAndExtForMime(MimeForExt(ext).value).Some?
  {
    MimeTableIsStorable(Lower(ext));
    BaseMimeCanonical(Lower(ext));
  }

  // ---------------------------------------------------------------------
  // File names

  /** Split a WebDAV file name at the last dot; both halves must be non-empty. */
  function SplitFilename(filename: string): Option<(string, string)> {
    match SplitLast(filename, '.')
    case None => None
    case Some(p) => if p.0 == "" || p.1 == "" then None else Some(p)
  }

  /** The stem and format a file name addresses: its last dot, the extension's
      MIME type, and that type's format. */
  function NamedSlot(filename: string): Option<(string, Format)> {
    var parts :- SplitFilename(filename);
    var mime :- MimeForExt(parts.1);
    var format :- FormatAndExtForMime(mime);
    Some((parts.0, format.0))
  }

  /** The listed name of a stored file. */
  function WebdavFilename(name: string, mime: string): Option<string> {
    match FormatAndExtForMime(mime)
    case None => None
    case Some(p) => Some(name + "." + p.1)
  }

  /** The part after the last slash or backslash. */
  function BaseName(s: string): (b: string)
    ensures '/' !in b && '\\' !in b
  {
    if s == "" then ""
    else
      var last := s[|s| - 1];
      if last == '/' || last == '\\' then "" else BaseName(s[..|s| - 1]) + [last]
  }

  /** The stored name of an uploaded file: directories, extension and
      surrounding whitespace removed. */
  function NameStem(fileName: string): (r: Option<string>)
    ensures r.Some? ==> r.value != "" && '/' !in r.value && '\\' !in r.value
    ensures r.Some? ==> !IsWhitespace(r.value[0]) && !IsWhitespace(r.value[|r.value| - 1])
  {
    var base := BaseName(fileName);
    var stem := match SplitLast(base, '.') case None => base case Some(p) => p.0;
    var trimmed := Trim(stem);
    assert forall c :: c in stem ==> c in base;
    if trimmed == "" then None else Some(trimmed)
  }

  /** Reading a listed name back gives the stored name, with any number of dots
      in it, and the format and canonical extension of the stored row. */
  lemma FileNameRoundTrip(name: string, mime: string)
    requires name != "" && FormatAndExtForMime(mime).Some?
    ensures var (format, ext) := FormatAndExtForMime(mime).value;
            && WebdavFilename(name, mime) == Some(name + "." + ext)
            && SplitFilename(name + "." + ext) == Some((name, ext))
            && MimeForExt(ext).Some?
            && FormatAndExtForMime(MimeForExt(ext).value) == Some((format, ext))
            && NamedSlot(name + "." + ext) == Some((name, format))
  {
    SplitLastIs(name, '.', FormatAndExtForMime(mime).value.1);
    TablesAgree(mime);
  }

  // ---------------------------------------------------------------------
  // Storage keys

  /** One path component in front of the rest. */
  function Slash(head: string, rest: string): string {
    head + "/" + rest
  }

  /** The object key of a voice file, or of a full-score file. */
  function DerivedKey(org: string, arr: string, voice: Option<string>, name: string, ext: string): string {
    var under := match voice
      case Some(v) => Slash("voices", Slash(v, name + "." + ext))
      case None => Slash("score", name + "." + ext);
    Slash("orgs", Slash(org, Slash("arrangements", Slash(arr, under))))
  }

  function AnnotationKey(org: string, arr: string, voice: string, user: string, file: string): string {
    var under := Slash("annotations", Slash(user, file));
    Slash("orgs", Slash(org, Slash("arrangements", Slash(arr, Slash("voices", Slash(voice, under))))))
  }

  function LibraryKey(user: string, rel: seq<string>): string {
    Slash("users", Slash(user, Slash("library", Join(rel, '/'))))
  }

  /** A path segment or a file name: no slash in it. */
  predicate Flat(s: string) { '/' !in s }

  function KeySegments(org: string, arr: string, voice: Option<string>, name: string, ext: string): seq<string> {
    match voice
    case Some(v) => ["orgs", org, "arrangements", arr, "voices", v, name + "." + ext]
    case None => ["orgs", org, "arrangements", arr, "score", name + "." + ext]
  }

  lemma SlashSplits(head: string, rest: string)
    requires Flat(head)
    ensures Split(Slash(head, rest), '/') == [head] + Split(rest, '/')
  {
    SplitPrefix(head, rest, '/');
  }

  /** The four components every key of an arrangement starts with. */
  lemma ArrangementPrefixSplits(org: string, arr: string, under: string)
    requires Flat(org) && Flat(arr)
    ensures Split(Slash("orgs", Slash(org, Slash("arrangements", Slash(arr, under)))), '/')
         == ["orgs", org, "arrangements", arr] + Split(under, '/')
  {
    SlashSplits(arr, under);
    SlashSplits("arrangements", Slash(arr, under));
    SlashSplits(org, Slash("arrangements", Slash(arr, under)));
    SlashSplits("orgs", Slash(org, Slash("arrangements", Slash(arr, under))));
  }

  lemma DerivedKeySegments(org: string, arr: string, voice: Option<string>, name: string, ext: string)
    requires Flat(org) && Flat(arr) && (voice.Some? ==> Flat(voice.value)) && Flat(name) && Flat(ext)
    ensures Split(DerivedKey(org, arr, voice, name, ext), '/') == KeySegments(org, arr, voice, name, ext)
  {
    var file := name + "." + ext;
    SplitWhole(file, '/');
    match voice
    case Some(v) =>
      SlashSplits(v, file);
      SlashSplits("voices", Slash(v, file));
      ArrangementPrefixSplits(org, arr, Slash("voices", Slash(v, file)));
    case None =>
      SlashSplits("score", file);
      ArrangementPrefixSplits(org, arr, Slash("score", file));
  }

  /** Two entity-tree locations never derive the same key. */
  lemma DerivedKeyInjective(
      org: string, arr: string, voice: Option<string>, name: string, ext: string,
      org': string, arr': string, voice': Option<string>, name': string, ext': string)
    requires Flat(org) && Flat(arr) && (voice.Some? ==> Flat(voice.value)) && Flat(name) && Flat(ext)
    requires Flat(org') && Flat(arr') && (voice'.Some? ==> Flat(voice'.value)) && Flat(name') && Flat(ext')
    requires '.' !in ext && '.' !in ext'
    ensures DerivedKey(org, arr, voice, name, ext) == DerivedKey(org', arr', voice', name', ext')
       <==> (org, arr, voice, name, ext) == (org', arr', voice', name', ext')
  {
    DerivedKeySegments(org, arr, voice, name, ext);
    DerivedKeySegments(org', arr', voice', name', ext');
    SplitLastIs(name, '.', ext);
    SplitLastIs(name', '.', ext');
    var a, b := KeySegments(org, arr, voice, name, ext), KeySegments(org', arr', voice', name', ext');
    if a == b {
      assert |a| == |b|;
      assert a[1] == b[1] && a[3] == b[3] && a[5] == b[5];
      assert a[|a| - 1] == b[|b| - 1];
    }
  }

  lemma AnnotationKeySegments(org: string, arr: string, voice: string, user: string, file: string)
    requires Flat(org) && Flat(arr) && Flat(voice) && Flat(user) && Flat(file)
    ensures Split(AnnotationKey(org, arr, voice, user, file), '/')
         == ["orgs", org, "arrangements", arr, "voices", voice, "annotations", user, file]
  {
    SplitWhole(file, '/');
    SlashSplits(user, file);
    SlashSplits("annotations", Slash(user, file));
    var under := Slash("annotations", Slash(user, file));
    SlashSplits(voice, under);
    SlashSplits("voices", Slash(voice, under));
    ArrangementPrefixSplits(org, arr, Slash("voices", Slash(voice, under)));
  }

  lemma LibraryKeyStart(user: string, rel: seq<string>)
    ensures Split(LibraryKey(user, rel), '/')[0] == "users"
  {
    SlashSplits("users", Slash(user, Slash("library", Join(rel, '/'))));
  }

  /** Stored files, personal annotations and private libraries never share an
      object, whatever their names. */
  lemma KeyFamiliesDisjoint(
      org: string, arr: string, voice: Option<string>, name: string, ext: string,
      org': string, arr': string, voice': string, user': string, file': string,
      owner: string, rel: seq<string>)
    requires Flat(org) && Flat(arr) && (voice.Some? ==> Flat(voice.value)) && Flat(name) && Flat(ext)
    requires Flat(org') && Flat(arr') && Flat(voice') && Flat(user') && Flat(file')
    ensures DerivedKey(org, arr, voice, name, ext) != AnnotationKey(org', arr', voice', user', file')
    ensures DerivedKey(org, arr, voice, name, ext) != LibraryKey(owner, rel)
    ensures AnnotationKey(org', arr', voice', user', file') != LibraryKey(owner, rel)
  {
    DerivedKeySegments(org, arr, voice, name, ext);
    AnnotationKeySegments(org', arr', voice', user', file');
    LibraryKeyStart(owner, rel);
    var k := KeySegments(org, arr, voice, name, ext);
    var a := ["orgs", org', "arrangements", arr', "voices", voice', "annotations", user', file'];
    assert k[0] == "orgs" && a[0] == "orgs" && |k| < |a|;
    assert "orgs"[0] != "users"[0];
  }
}
