/**
 * Filters in a query string: `filter[field]=value` parameters, percent-decoded.
 * A byte is written as the character of the same code.
 */
module Filters {
  import opened Wrappers
  import opened Text

  /** Text as its bytes. */
  predicate IsBytes(s: string) {
    forall i :: 0 <= i < |s| ==> s[i] as int < 256
  }

  // ---------------------------------------------------------------------
  // Hexadecimal

  function HexValue(c: char): (r: Option<nat>)
    ensures r.Some? ==> r.value < 16
  {
    if '0' <= c <= '9' then Some(c as int - '0' as int)
    else if 'A' <= c <= 'F' then Some(c as int - 'A' as int + 10)
    else if 'a' <= c <= 'f' then Some(c as int - 'a' as int + 10)
    else None
  }

  function HexDigit(v: nat): (c: char)
    requires v < 16
    ensures HexValue(c) == Some(v) && c != '+' && c != '%' && c != '&' && c != '='
  {
    if v < 10 then ('0' as int + v) as char else ('A' as int + v - 10) as char
  }

  /** `u8::from_str_radix` of two characters: a leading `+` is a sign. */
  function HexByte(a: char, b: char): (r: Option<nat>)
    ensures r.Some? ==> r.value < 256
  {
    if a == '+' then HexValue(b)
    else
      var high :- HexValue(a);
      var low :- HexValue(b);
      Some(16 * high + low)
  }

  // ---------------------------------------------------------------------
  // Decoding

  /** What the first byte or escape decodes to, and how many characters it takes. */
  function Head(s: string): (r: (char, nat))
    requires s != ""
    ensures 1 <= r.1 <= |s| && (r.1 == 1 || r.1 == 3)
  {
    if s[0] == '+' then (' ', 1)
    else if s[0] == '%' && |s| > 2 && HexByte(s[1], s[2]).Some? then (HexByte(s[1], s[2]).value as char, 3)
    else (s[0], 1)
  }

  function Decode(s: string): string {
    if s == "" then "" else [Head(s).0] + Decode(s[Head(s).1..])
  }

  /** The field a decoded key filters by. */
  function FieldOf(key: string): Option<string> {
    if |key| >= 8 && key[..7] == "filter[" && key[|key| - 1] == ']' then Some(key[7..|key| - 1]) else None
  }

  function FieldAndValue(pair: string): Option<(string, string)> {
    var parts :- SplitFirst(pair, '=');
    var field :- FieldOf(Decode(parts.0));
    Some((field, Decode(parts.1)))
  }

  /** Later pairs win. */
  function Collect(pairs: seq<string>): map<string, string> {
    if pairs == [] then map[]
    else
      var before := Collect(pairs[..|pairs| - 1]);
      match FieldAndValue(pairs[|pairs| - 1])
      case None => before
      case Some(p) => before[p.0 := p.1]
  }

  lemma DecodeStep(input: string, i: nat)
    requires i < |input|
    ensures var head := Head(input[i..]);
            Decode(input[i..]) == [head.0] + Decode(input[i + head.1..])
  {
    assert input[i..][Head(input[i..]).1..] == input[i + Head(input[i..]).1..];
  }

  lemma Append(out: string, c: char, rest: string)
    ensures (out + [c]) + rest == out + ([c] + rest)
  {
  }

  method PercentDecode(input: string) returns (out: string)
    ensures out == Decode(input)
  {
    out := "";
    var i := 0;
    while i < |input|
      invariant 0 <= i <= |input|
      invariant out + Decode(input[i..]) == Decode(input)
    {
      var b := input[i];
      DecodeStep(input, i);
      ghost var head := Head(input[i..]);
      Append(out, head.0, Decode(input[i + head.1..]));
      if b == '+' {
        out := out + [' '];
        i := i + 1;
      } else if b == '%' && i + 2 < |input| && HexByte(input[i + 1], input[i + 2]).Some? {
        out := out + [HexByte(input[i + 1], input[i + 2]).value as char];
        i := i + 3;
      } else {
        out := out + [b];
        i := i + 1;
      }
    }
  }

  method ParseFilters(query: string) returns (filters: map<string, string>)
    ensures filters == Collect(Split(query, '&'))
  {
    filters := map[];
    var pairs := Split(query, '&');
    var k := 0;
    while k < |pairs|
      invariant 0 <= k <= |pairs|
      invariant filters == Collect(pairs[..k])
    {
      assert pairs[..k + 1][..k] == pairs[..k];
      var parts := SplitFirst(pairs[k], '=');
      k := k + 1;
      if parts.None? {
        continue;
      }
      var key := PercentDecode(parts.value.0);
      var field := FieldOf(key);
      if field.None? {
        continue;
      }
      var value := PercentDecode(parts.value.1);
      filters := filters[field.value := value];
    }
    assert pairs[..k] == pairs;
  }

  // ---------------------------------------------------------------------
  // The form encoding and its inverse

  predicate Unreserved(c: char) {
    'a' <= c <= 'z' || 'A' <= c <= 'Z' || '0' <= c <= '9' || c == '*' || c == '-' || c == '.' || c == '_'
  }

  /** application/x-www-form-urlencoded, section 5.2 of the WHATWG URL Standard. */
  function EncodeByte(c: char): (e: string)
    requires c as int < 256
    ensures '&' !in e && '=' !in e
  {
    if c == ' ' then "+"
    else if Unreserved(c) then [c]
    else ['%', HexDigit(c as int / 16), HexDigit(c as int % 16)]
  }

  function Encode(s: string): (e: string)
    requires IsBytes(s)
    ensures '&' !in e && '=' !in e
  {
    if s == "" then "" else EncodeByte(s[0]) + Encode(s[1..])
  }

  lemma DecodeByte(c: char, rest: string)
    requires c as int < 256
    ensures Decode(EncodeByte(c) + rest) == [c] + Decode(rest)
  {
    var e := EncodeByte(c);
    assert (e + rest)[|e|..] == rest;
    if c != ' ' && !Unreserved(c) {
      assert (e + rest)[1] == e[1] && (e + rest)[2] == e[2];
    }
  }

  lemma EncodeFirst(s: string, rest: string)
    requires IsBytes(s) && s != ""
    ensures Encode(s) + rest == EncodeByte(s[0]) + (Encode(s[1..]) + rest)
  {
  }

  lemma FirstAndRest(s: string, rest: string)
    requires s != ""
    ensures s + rest == [s[0]] + (s[1..] + rest)
  {
  }

  /** Decoding undoes encoding, for every byte string. */
  lemma {:induction false} DecodeEncode(s: string, rest: string)
    requires IsBytes(s)
    ensures Decode(Encode(s) + rest) == s + Decode(rest)
  {
    if s == "" {
      assert Encode(s) + rest == rest;
    } else {
      EncodeFirst(s, rest);
      DecodeByte(s[0], Encode(s[1..]) + rest);
      DecodeEncode(s[1..], rest);
      FirstAndRest(s, Decode(rest));
    }
  }

  /** Text without `+` and `%` decodes to itself. */
  lemma {:induction false} DecodePlain(a: string, rest: string)
    requires '+' !in a && '%' !in a
    ensures Decode(a + rest) == a + Decode(rest)
  {
    if a == "" {
      assert a + rest == rest;
    } else {
      assert (a + rest)[1..] == a[1..] + rest;
      DecodePlain(a[1..], rest);
    }
  }

  lemma DecodeKey(field: string, escaped: bool)
    requires IsBytes(field)
    ensures Decode(Key(field, escaped)) == "filter[" + field + "]"
  {
    if escaped {
      EscapedKeyIsBytes(field);
      DecodeEncode("filter[" + field + "]", "");
      assert Encode("filter[" + field + "]") + "" == Encode("filter[" + field + "]");
      assert "filter[" + field + "]" + "" == "filter[" + field + "]";
    } else {
      DecodePlain("filter[", Encode(field) + "]");
      DecodeEncode(field, "]");
      DecodePlain("]", "");
      assert "]" + "" == "]";
      assert "filter[" + (Encode(field) + "]") == "filter[" + Encode(field) + "]";
    }
  }

  lemma EscapedKeyIsBytes(field: string)
    requires IsBytes(field)
    ensures IsBytes("filter[" + field + "]")
  {
  }

  /** The key of a filter, its brackets escaped as a browser does or not. */
  function Key(field: string, escaped: bool): (k: string)
    requires IsBytes(field)
    ensures '&' !in k && '=' !in k
  {
    if escaped then
      EscapedKeyIsBytes(field);
      Encode("filter[" + field + "]")
    else "filter[" + Encode(field) + "]"
  }

  /** A parameter of a query: a filter, or anything the parser does not read as one. */
  datatype Param = Filter(field: string, value: string, escaped: bool) | Other(text: string)

  predicate ParamOk(p: Param) {
    match p
    case Filter(field, value, _) => IsBytes(field) && IsBytes(value)
    case Other(text) => '&' !in text && FieldAndValue(text) == None
  }

  function Print(p: Param): (s: string)
    requires ParamOk(p)
    ensures '&' !in s
  {
    match p
    case Filter(field, value, escaped) => Key(field, escaped) + "=" + Encode(value)
    case Other(text) => text
  }

  function Printed(params: seq<Param>): seq<string>
    requires forall i :: 0 <= i < |params| ==> ParamOk(params[i])
  {
    seq(|params|, i requires 0 <= i < |params| => Print(params[i]))
  }

  /** The value each field was given last. */
  function LastWins(params: seq<Param>): map<string, string> {
    if params == [] then map[]
    else
      var before := LastWins(params[..|params| - 1]);
      match params[|params| - 1]
      case Filter(field, value, _) => before[field := value]
      case Other(_) => before
  }

  lemma ParsePrint(p: Param)
    requires ParamOk(p)
    ensures FieldAndValue(Print(p)) == if p.Filter? then Some((p.field, p.value)) else None
  {
    match p
    case Other(_) =>
    case Filter(field, value, escaped) =>
      SplitFirstIs(Key(field, escaped), '=', Encode(value));
      DecodeKey(field, escaped);
      FieldOfKey(field);
      DecodeEncode(value, "");
      assert Encode(value) + "" == Encode(value) && value + "" == value;
  }

  lemma FieldOfKey(field: string)
    ensures FieldOf("filter[" + field + "]") == Some(field)
  {
    var key := "filter[" + field + "]";
    assert key[..7] == "filter[" && key[7..|key| - 1] == field;
  }

  lemma {:induction false} CollectPrinted(params: seq<Param>)
    requires forall i :: 0 <= i < |params| ==> ParamOk(params[i])
    ensures Collect(Printed(params)) == LastWins(params)
  {
    if params != [] {
      var init, p := params[..|params| - 1], params[|params| - 1];
      CollectPrinted(init);
      ParsePrint(p);
      var printed := Printed(params);
      assert printed[..|printed| - 1] == Printed(init);
    }
  }

  /** Parsing undoes form encoding: any list of filters, with brackets escaped or
      not and unrelated parameters between them, gives the last value of each field. */
  lemma FiltersRoundTrip(params: seq<Param>)
    requires forall i :: 0 <= i < |params| ==> ParamOk(params[i])
    ensures Collect(Split(Join(Printed(params), '&'), '&')) == LastWins(params)
  {
    CollectPrinted(params);
    if params == [] {
      assert Join(Printed(params), '&') == "";
      assert Split("", '&') == [""];
      assert [""][..0] == [];
    } else {
      SplitJoin(Printed(params), '&');
    }
  }

  // ---------------------------------------------------------------------
  // Where the decoder leaves the standard

  /** The standard's decoding: both digits of an escape are hexadecimal. */
  function StandardHead(s: string): (r: (char, nat))
    requires s != ""
    ensures 1 <= r.1 <= |s|
  {
    if s[0] == '+' then (' ', 1)
    else if s[0] == '%' && |s| > 2 && HexValue(s[1]).Some? && HexValue(s[2]).Some? then
      ((16 * HexValue(s[1]).value + HexValue(s[2]).value) as char, 3)
    else (s[0], 1)
  }

  function StandardDecode(s: string): string {
    if s == "" then "" else [StandardHead(s).0] + StandardDecode(s[StandardHead(s).1..])
  }

  /** A signed escape such as `%+F`. */
  predicate SignedAt(s: string, i: nat) {
    i + 2 < |s| && s[i] == '%' && s[i + 1] == '+' && HexValue(s[i + 2]).Some?
  }

  predicate HasSigned(s: string) {
    exists i :: 0 <= i < |s| && SignedAt(s, i)
  }

  lemma SignedTail(s: string, n: nat)
    requires n <= |s| && forall i :: 0 <= i < n ==> !SignedAt(s, i)
    ensures HasSigned(s[n..]) <==> HasSigned(s)
  {
    if i :| 0 <= i < |s| && SignedAt(s, i) {
      assert SignedAt(s[n..], i - n);
    }
    if i :| 0 <= i < |s[n..]| && SignedAt(s[n..], i) {
      assert SignedAt(s, i + n);
    }
  }

  /** After a signed escape the standard has written three characters, not one. */
  lemma SignedHeads(s: string)
    requires SignedAt(s, 0)
    ensures |Decode(s)| == 1 + |Decode(s[3..])|
    ensures |StandardDecode(s)| == 3 + |StandardDecode(s[3..])|
  {
    assert HexValue('+') == None;
    assert s[1..][1..] == s[2..] && s[2..][1..] == s[3..];
    assert StandardHead(s).1 == 1 && |StandardDecode(s)| == 1 + |StandardDecode(s[1..])|;
    assert StandardHead(s[1..]).1 == 1 && |StandardDecode(s[1..])| == 1 + |StandardDecode(s[2..])|;
    assert StandardHead(s[2..]).1 == 1 && |StandardDecode(s[2..])| == 1 + |StandardDecode(s[3..])|;
  }

  lemma {:induction false} DecodeIsShorter(s: string)
    ensures |Decode(s)| <= |StandardDecode(s)|
    ensures |Decode(s)| == |StandardDecode(s)| ==> !HasSigned(s)
    ensures !HasSigned(s) ==> Decode(s) == StandardDecode(s)
  {
    if s != "" {
      if SignedAt(s, 0) {
        SignedHeads(s);
        DecodeIsShorter(s[3..]);
      } else {
        var n := Head(s).1;
        assert Head(s) == StandardHead(s);
        DecodeIsShorter(s[n..]);
        SignedTail(s, n);
      }
    }
  }

  /** The decoder is the standard's exactly on text without a signed escape. */
  lemma DecodesAsStandardIff(s: string)
    ensures Decode(s) == StandardDecode(s) <==> !HasSigned(s)
  {
    DecodeIsShorter(s);
  }
}
