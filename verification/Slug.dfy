/**
 * Slugs: the immutable path names of organizations, arrangements, voices and
 * collections, all produced by one algorithm.
 */
module Slug {
  import opened Text

  predicate IsLowerAlnum(c: char) { 'a' <= c <= 'z' || '0' <= c <= '9' }

  predicate IsAsciiAlnum(c: char) { IsLowerAlnum(c) || 'A' <= c <= 'Z' }

  function AsciiLower(c: char): (r: char)
    ensures IsAsciiAlnum(c) ==> IsLowerAlnum(r)
    ensures IsLowerAlnum(c) ==> r == c
  {
    if 'A' <= c <= 'Z' then (c as int + 32) as char else c
  }

  /** What a slug looks like: lowercase words with single hyphens between them. */
  predicate IsSlug(s: string) {
    && s != ""
    && (forall i :: 0 <= i < |s| ==> IsLowerAlnum(s[i]) || s[i] == '-')
    && s[0] != '-'
    && s[|s| - 1] != '-'
    && forall i :: 0 <= i < |s| - 1 ==> !(s[i] == '-' && s[i + 1] == '-')
  }

  /** The maximal runs of ASCII alphanumerics of the input, lowercased, in order. */
  function Words(s: string): (ws: seq<string>)
    ensures s != "" && IsAsciiAlnum(s[|s| - 1]) ==> ws != []
  {
    if s == "" then []
    else
      var init, c := s[..|s| - 1], s[|s| - 1];
      var ws := Words(init);
      if !IsAsciiAlnum(c) then ws
      else if init != "" && IsAsciiAlnum(init[|init| - 1]) then
        ws[..|ws| - 1] + [ws[|ws| - 1] + [AsciiLower(c)]]
      else ws + [[AsciiLower(c)]]
  }

  /** A slug is the words with one hyphen between each two, or "user" if there are none. */
  function Slugify(input: string): string {
    if Words(input) == [] then "user" else Join(Words(input), '-')
  }

  /** Text read so far, after which a hyphen has been written. */
  predicate AfterGap(s: string) {
    s != "" && !IsAsciiAlnum(s[|s| - 1]) && Words(s) != []
  }

  /** What the loop of the algorithm holds after reading `s`. */
  function Partial(s: string): string {
    Join(Words(s), '-') + if AfterGap(s) then "-" else ""
  }

  lemma {:induction false} JoinSnoc(ws: seq<string>, w: string)
    ensures Join(ws + [w], '-') == if ws == [] then w else Join(ws, '-') + "-" + w
  {
    if |ws| > 1 {
      JoinSnoc(ws[1..], w);
      assert (ws + [w])[1..] == ws[1..] + [w];
    } else if |ws| == 1 {
      assert (ws + [w])[1..] == [w];
    }
  }

  lemma {:induction false} JoinExtend(ws: seq<string>, c: char)
    requires ws != []
    ensures Join(ws[..|ws| - 1] + [ws[|ws| - 1] + [c]], '-') == Join(ws, '-') + [c]
  {
    JoinSnoc(ws[..|ws| - 1], ws[|ws| - 1] + [c]);
    JoinSnoc(ws[..|ws| - 1], ws[|ws| - 1]);
    assert ws[..|ws| - 1] + [ws[|ws| - 1]] == ws;
  }

  /** The joined words after one more character. */
  lemma JoinWordsStep(s: string, c: char)
    ensures Words(s + [c]) == [] <==> !IsAsciiAlnum(c) && Words(s) == []
    ensures Join(Words(s + [c]), '-') ==
            if !IsAsciiAlnum(c) then Join(Words(s), '-')
            else if AfterGap(s) then Join(Words(s), '-') + "-" + [AsciiLower(c)]
            else Join(Words(s), '-') + [AsciiLower(c)]
  {
    var t := s + [c];
    assert t[..|t| - 1] == s && t[|t| - 1] == c;
    if IsAsciiAlnum(c) {
      if s != "" && IsAsciiAlnum(s[|s| - 1]) {
        JoinExtend(Words(s), AsciiLower(c));
      } else {
        JoinSnoc(Words(s), [AsciiLower(c)]);
      }
    }
  }

  /** One more character: exactly the three branches of the loop. */
  lemma PartialStep(s: string, c: char)
    ensures Partial(s + [c]) ==
            if IsAsciiAlnum(c) then Partial(s) + [AsciiLower(c)]
            else if !AfterGap(s) && Partial(s) != "" then Partial(s) + "-"
            else Partial(s)
    ensures AfterGap(s + [c]) <==> !IsAsciiAlnum(c) && Partial(s) != ""
  {
    JoinWordsStep(s, c);
    WordsNonEmpty(s);
  }

  lemma {:induction false} WordsNonEmpty(s: string)
    ensures forall i :: 0 <= i < |Words(s)| ==> Words(s)[i] != ""
    ensures Words(s) == [] <==> Join(Words(s), '-') == ""
  {
    if s != "" {
      WordsNonEmpty(s[..|s| - 1]);
    }
  }

  /** Trailing hyphens are popped; one pass leaves at most one. */
  method PopHyphens(text: string, ghost body: string) returns (slug: string)
    requires text == body || text == body + "-"
    requires body == "" || body[|body| - 1] != '-'
    ensures slug == body
  {
    slug := text;
    while slug != "" && slug[|slug| - 1] == '-'
      invariant slug == body || slug == body + "-"
      decreases |slug|
    {
      slug := slug[..|slug| - 1];
    }
  }

  /** `slugify`: one pass with a flag, then trailing hyphens are popped. */
  method SlugifyLoop(input: string) returns (slug: string)
    ensures slug == Slugify(input)
  {
    slug := "";
    var lastWasHyphen := false;
    var i := 0;
    while i < |input|
      invariant 0 <= i <= |input|
      invariant slug == Partial(input[..i])
      invariant lastWasHyphen == AfterGap(input[..i])
    {
      var ch := input[i];
      PartialStep(input[..i], ch);
      assert input[..i + 1] == input[..i] + [ch];
      if IsAsciiAlnum(ch) {
        slug := slug + [AsciiLower(ch)];
        lastWasHyphen := false;
      } else if !lastWasHyphen && slug != "" {
        slug := slug + "-";
        lastWasHyphen := true;
      }
      i := i + 1;
    }
    assert input[..i] == input;
    PartialEnds(input);
    WordsNonEmpty(input);
    slug := PopHyphens(slug, Join(Words(input), '-'));
    if slug == "" {
      slug := slug + "user";
    }
  }

  lemma SlugExtend(s: string, c: char)
    requires IsSlug(s) && IsLowerAlnum(c)
    ensures IsSlug(s + [c]) && IsSlug(s + "-" + [c])
  {
  }

  /** The joined words are spelled as a slug must be. */
  lemma {:induction false} PartialEnds(s: string)
    ensures Words(s) != [] ==> IsSlug(Join(Words(s), '-'))
  {
    if s != "" {
      var init, c := s[..|s| - 1], s[|s| - 1];
      assert s == init + [c];
      PartialEnds(init);
      JoinWordsStep(init, c);
      WordsNonEmpty(init);
      if Words(init) != [] && IsAsciiAlnum(c) {
        SlugExtend(Join(Words(init), '-'), AsciiLower(c));
      }
    }
  }

  /** Every slug is well formed: never empty, no stray hyphens, one case. */
  lemma SlugifyIsSlug(input: string)
    ensures IsSlug(Slugify(input))
  {
    PartialEnds(input);
  }

  lemma {:induction false} PartialOfSlugPrefix(s: string)
    requires forall i :: 0 <= i < |s| ==> IsLowerAlnum(s[i]) || s[i] == '-'
    requires s != "" ==> s[0] != '-'
    requires forall i :: 0 <= i < |s| - 1 ==> !(s[i] == '-' && s[i + 1] == '-')
    ensures Partial(s) == s
  {
    if s != "" {
      var init, c := s[..|s| - 1], s[|s| - 1];
      PartialOfSlugPrefix(init);
      PartialStep(init, c);
      assert s == init + [c];
    }
  }

  /** Slugs are the fixed points of the algorithm. */
  lemma SlugifyFixedPoints(s: string)
    ensures IsSlug(s) <==> Slugify(s) == s
  {
    SlugifyIsSlug(s);
    if IsSlug(s) {
      PartialOfSlugPrefix(s);
      WordsNonEmpty(s);
    }
  }

  lemma SlugifyIdempotent(input: string)
    ensures Slugify(Slugify(input)) == Slugify(input)
  {
    SlugifyIsSlug(input);
    SlugifyFixedPoints(Slugify(input));
  }

  /** A slug is usable as one path segment. */
  lemma SlugIsSegment(s: string)
    requires IsSlug(s)
    ensures '/' !in s && '.' !in s && s != ""
  {
  }
}
