/**
 * The `URLSearchParams` object the query builder fills: an ordered list of name/value pairs
 * to which `append` adds at the end (it never replaces an earlier pair of the same name),
 * and `toString`, the application/x-www-form-urlencoded serializer of the WHATWG URL
 * Standard (section 5.2): every name and value is UTF-8 encoded and percent-encoded, a
 * space becomes `+`, and the pairs are written `name=value` joined with `&`.
 */
module SearchParams {

  import opened Wrappers
  import opened Strings
  import opened Decimal

  type Byte = b: int | 0 <= b < 256

  type Pair = (string, string)

  /** What `getAll(name)`, the multi-map reading of the pairs, returns: the values under `name`, in order. */
  function GetAll(pairs: seq<Pair>, name: string): seq<string>
  {
    if |pairs| == 0 then []
    else (if pairs[0].0 == name then [pairs[0].1] else []) + GetAll(pairs[1..], name)
  }

  lemma GetAllSingle(p: Pair, name: string)
    ensures GetAll([p], name) == if p.0 == name then [p.1] else []
  {
    assert [p][1..] == [];
  }

  lemma {:induction false} GetAllConcat(a: seq<Pair>, b: seq<Pair>, name: string)
    ensures GetAll(a + b, name) == GetAll(a, name) + GetAll(b, name)
  {
    if |a| == 0 {
      assert a + b == b;
    } else {
      var head := if a[0].0 == name then [a[0].1] else [];
      assert (a + b)[0] == a[0];
      assert (a + b)[1..] == a[1..] + b;
      GetAllConcat(a[1..], b, name);
      assert GetAll(a + b, name) == head + (GetAll(a[1..], name) + GetAll(b, name));
      assert head + (GetAll(a[1..], name) + GetAll(b, name)) == (head + GetAll(a[1..], name)) + GetAll(b, name);
    }
  }

  // UTF-8

  predicate IsContinuation(b: Byte)
  {
    0x80 <= b < 0xC0
  }

  /**
   * The UTF-8 encoding of one character: one byte below U+0080 and two to four bytes above,
   * every byte after the first being a continuation byte.
   */
  function Utf8Char(c: char): (bs: seq<Byte>)
    ensures 1 <= |bs| <= 4
    ensures |bs| == 1 <==> c as int < 0x80
    ensures |bs| == 1 ==> bs[0] == c as int
    ensures forall i :: 1 <= i < |bs| ==> IsContinuation(bs[i])
  {
    var cp := c as int;
    if cp < 0x80 then [cp]
    else if cp < 0x800 then [0xC0 + cp / 64, 0x80 + cp % 64]
    else if cp < 0x10000 then [0xE0 + cp / 64 / 64, 0x80 + cp / 64 % 64, 0x80 + cp % 64]
    else [0xF0 + cp / 64 / 64 / 64, 0x80 + cp / 64 / 64 % 64, 0x80 + cp / 64 % 64, 0x80 + cp % 64]
  }

  function Utf8(s: string): seq<Byte>
  {
    if |s| == 0 then [] else Utf8Char(s[0]) + Utf8(s[1..])
  }

  predicate IsScalarValue(cp: int)
  {
    0 <= cp < 0xD800 || 0xE000 <= cp < 0x110000
  }

  function ScalarOrNone(cp: int, rest: Option<string>): Option<string>
  {
    if IsScalarValue(cp) then PrependSome(cp as char, rest) else None
  }

  /** UTF-8 decoding; `None` for a truncated sequence, a stray continuation byte or a surrogate. */
  function Utf8Decode(bs: seq<Byte>): Option<string>
  {
    if |bs| == 0 then Some("")
    else if bs[0] < 0x80 then PrependSome(bs[0] as char, Utf8Decode(bs[1..]))
    else if 0xC0 <= bs[0] < 0xE0 && |bs| >= 2 && IsContinuation(bs[1]) then
      ScalarOrNone((bs[0] as int - 0xC0) * 64 + (bs[1] as int - 0x80), Utf8Decode(bs[2..]))
    else if 0xE0 <= bs[0] < 0xF0 && |bs| >= 3 && IsContinuation(bs[1]) && IsContinuation(bs[2]) then
      ScalarOrNone(((bs[0] as int - 0xE0) * 64 + (bs[1] as int - 0x80)) * 64 + (bs[2] as int - 0x80), Utf8Decode(bs[3..]))
    else if 0xF0 <= bs[0] < 0xF8 && |bs| >= 4
            && IsContinuation(bs[1]) && IsContinuation(bs[2]) && IsContinuation(bs[3]) then
      ScalarOrNone((((bs[0] as int - 0xF0) * 64 + (bs[1] as int - 0x80)) * 64 + (bs[2] as int - 0x80)) * 64 + (bs[3] as int - 0x80),
                   Utf8Decode(bs[4..]))
    else None
  }

  lemma Utf8CharDecode(c: char, rest: seq<Byte>)
    ensures Utf8Decode(Utf8Char(c) + rest) == PrependSome(c, Utf8Decode(rest))
  {
    var cp := c as int;
    var bs := Utf8Char(c) + rest;
    var n := |Utf8Char(c)|;
    assert bs[n..] == rest;
    if cp < 0x80 {
    } else if cp < 0x800 {
      assert (bs[0] as int - 0xC0) * 64 + (bs[1] as int - 0x80) == cp;
    } else if cp < 0x10000 {
      var q := cp / 64;
      assert ((bs[0] as int - 0xE0) * 64 + (bs[1] as int - 0x80)) == q;
    } else {
      var q := cp / 64;
      var q2 := q / 64;
      assert (bs[0] as int - 0xF0) * 64 + (bs[1] as int - 0x80) == q2;
      assert ((bs[0] as int - 0xF0) * 64 + (bs[1] as int - 0x80)) * 64 + (bs[2] as int - 0x80) == q;
    }
  }

  /** UTF-8 round trip: decoding the encoding of a string gives the string. */
  lemma {:induction false} Utf8RoundTrip(s: string)
    ensures Utf8Decode(Utf8(s)) == Some(s)
  {
    if |s| > 0 {
      Utf8RoundTrip(s[1..]);
      Utf8CharDecode(s[0], Utf8(s[1..]));
      assert [s[0]] + s[1..] == s;
    }
  }

  // Percent-encoding with the application/x-www-form-urlencoded percent-encode set

  /** The bytes written as themselves: ASCII letters and digits and `*`, `-`, `.`, `_`. */
  predicate IsUnreservedByte(b: Byte)
  {
    b == 0x2A || b == 0x2D || b == 0x2E || b == 0x5F
    || 0x30 <= b <= 0x39 || 0x41 <= b <= 0x5A || 0x61 <= b <= 0x7A
  }

  /** The characters a serialized name or value can contain. */
  predicate IsFormChar(c: char)
  {
    c == '*' || c == '-' || c == '.' || c == '_' || c == '%' || c == '+'
    || '0' <= c <= '9' || 'A' <= c <= 'Z' || 'a' <= c <= 'z'
  }

  function PercentEncodeByte(b: Byte): (r: string)
    ensures forall i :: 0 <= i < |r| ==> IsFormChar(r[i])
  {
    if b == 0x20 then "+"
    else if IsUnreservedByte(b) then [b as char]
    else "%" + [HexDigitUpper(b / 16), HexDigitUpper(b % 16)]
  }

  /** The percent-encoded text of some bytes: no `&`, `=`, space or other reserved character remains. */
  function PercentEncode(bs: seq<Byte>): (r: string)
    ensures forall i :: 0 <= i < |r| ==> IsFormChar(r[i])
  {
    if |bs| == 0 then "" else PercentEncodeByte(bs[0]) + PercentEncode(bs[1..])
  }

  /** How one name or value is written by `toString`. */
  function FormEncode(s: string): string
  {
    PercentEncode(Utf8(s))
  }

  /**
   * The bytes a percent-encoded text stands for, as the urlencoded parser reads them: `+` is a
   * space, `%` with two hex digits is that byte, and any other character stands for its UTF-8 bytes.
   */
  function PercentDecode(s: string): Option<seq<Byte>>
  {
    if |s| == 0 then Some([])
    else if s[0] == '+' then PrependSome(0x20, PercentDecode(s[1..]))
    else if s[0] == '%' && |s| >= 3 && HexValue(s[1]).Some? && HexValue(s[2]).Some? then
      PrependSome(HexValue(s[1]).value * 16 + HexValue(s[2]).value, PercentDecode(s[3..]))
    else
      match PercentDecode(s[1..])
      case None => None
      case Some(t) => Some(Utf8Char(s[0]) + t)
  }

  lemma DecodeEscapedByte(b: Byte, rest: string)
    ensures PercentDecode("%" + [HexDigitUpper(b / 16), HexDigitUpper(b % 16)] + rest) == PrependSome(b, PercentDecode(rest))
  {
    var s := "%" + [HexDigitUpper(b / 16), HexDigitUpper(b % 16)] + rest;
    assert s[3..] == rest;
    assert HexValue(HexDigitUpper(b / 16)) == Some(b / 16);
    assert HexValue(HexDigitUpper(b % 16)) == Some(b % 16);
  }

  lemma DecodeUnreservedByte(b: Byte, rest: string)
    requires IsUnreservedByte(b)
    ensures PercentDecode([b as char] + rest) == PrependSome(b, PercentDecode(rest))
  {
    assert ([b as char] + rest)[1..] == rest;
    assert Utf8Char(b as char) == [b];
  }

  lemma PercentEncodeByteDecode(b: Byte, rest: string)
    ensures PercentDecode(PercentEncodeByte(b) + rest) == PrependSome(b, PercentDecode(rest))
  {
    if b == 0x20 {
      assert ("+" + rest)[1..] == rest;
    } else if IsUnreservedByte(b) {
      DecodeUnreservedByte(b, rest);
    } else {
      DecodeEscapedByte(b, rest);
    }
  }

  /** Percent-encoding round trip at the byte level. */
  lemma {:induction false} PercentRoundTrip(bs: seq<Byte>)
    ensures PercentDecode(PercentEncode(bs)) == Some(bs)
  {
    if |bs| > 0 {
      PercentRoundTrip(bs[1..]);
      PercentEncodeByteDecode(bs[0], PercentEncode(bs[1..]));
      assert [bs[0]] + bs[1..] == bs;
    }
  }

  function FormDecode(s: string): Option<string>
  {
    match PercentDecode(s)
    case None => None
    case Some(bs) => Utf8Decode(bs)
  }

  /** A serialized name or value reads back as the original string. */
  lemma FormRoundTrip(s: string)
    ensures FormDecode(FormEncode(s)) == Some(s)
  {
    PercentRoundTrip(Utf8(s));
    Utf8RoundTrip(s);
  }

  /** Encoding is character by character: the encoding of a concatenation is the concatenation of the encodings. */
  lemma {:induction false} Utf8Concat(a: string, b: string)
    ensures Utf8(a + b) == Utf8(a) + Utf8(b)
  {
    if |a| > 0 {
      assert (a + b)[1..] == a[1..] + b;
      Utf8Concat(a[1..], b);
    } else {
      assert a + b == b;
    }
  }

  lemma {:induction false} PercentEncodeConcat(x: seq<Byte>, y: seq<Byte>)
    ensures PercentEncode(x + y) == PercentEncode(x) + PercentEncode(y)
  {
    if |x| > 0 {
      assert (x + y)[1..] == x[1..] + y;
      PercentEncodeConcat(x[1..], y);
    } else {
      assert x + y == y;
    }
  }

  lemma FormEncodeConcat(a: string, b: string)
    ensures FormEncode(a + b) == FormEncode(a) + FormEncode(b)
  {
    Utf8Concat(a, b);
    PercentEncodeConcat(Utf8(a), Utf8(b));
  }

  /** A character written as itself: an ASCII letter or digit, or one of `*`, `-`, `.`, `_`. */
  predicate IsUnreservedChar(c: char)
  {
    c as int < 0x80 && IsUnreservedByte(c as int)
  }

  /** Text made of unreserved characters is written unchanged. */
  lemma {:induction false} FormEncodeUnreserved(s: string)
    requires forall i :: 0 <= i < |s| ==> IsUnreservedChar(s[i])
    ensures FormEncode(s) == s
  {
    if |s| > 0 {
      FormEncodeUnreserved(s[1..]);
      assert Utf8([s[0]] + s[1..]) == Utf8Char(s[0]) + Utf8(s[1..]);
      assert [s[0]] + s[1..] == s;
      PercentEncodeConcat([s[0] as int], Utf8(s[1..]));
    }
  }

  lemma FormEncodeBrackets()
    ensures FormEncode("[") == "%5B" && FormEncode("]") == "%5D"
  {
    assert FormEncode("[") == PercentEncodeByte(0x5B) + PercentEncode([]);
    assert FormEncode("]") == PercentEncodeByte(0x5D) + PercentEncode([]);
    assert HexDigitUpper(5) == '5' && HexDigitUpper(11) == 'B' && HexDigitUpper(13) == 'D';
  }

  /** A name `a[b]` with unreserved `a` and `b` is written with its brackets percent-encoded. */
  lemma FormEncodeBracketed(a: string, b: string)
    requires forall i :: 0 <= i < |a| ==> IsUnreservedChar(a[i])
    requires forall i :: 0 <= i < |b| ==> IsUnreservedChar(b[i])
    ensures FormEncode(a + "[" + b + "]") == a + "%5B" + b + "%5D"
  {
    FormEncodeConcat(a + "[" + b, "]");
    FormEncodeConcat(a + "[", b);
    FormEncodeConcat(a, "[");
    FormEncodeUnreserved(a);
    FormEncodeUnreserved(b);
    FormEncodeBrackets();
  }

  // Serializing and parsing the whole list

  function PairText(p: Pair): string
  {
    FormEncode(p.0) + "=" + FormEncode(p.1)
  }

  function PairTexts(pairs: seq<Pair>): seq<string>
  {
    seq(|pairs|, i requires 0 <= i < |pairs| => PairText(pairs[i]))
  }

  /** `toString()`: every pair written `name=value`, in order, joined with `&`. */
  function Serialize(pairs: seq<Pair>): string
  {
    Join(PairTexts(pairs), "&")
  }

  /** One `&`-separated piece read as a pair: the name before the first `=`, the rest as value. */
  function ParsePair(piece: string): Option<Pair>
  {
    var parts := Split(piece, '=');
    var name, value := parts[0], Join(parts[1..], "=");
    match (FormDecode(name), FormDecode(value))
    case (Some(n), Some(v)) => Some((n, v))
    case _ => None
  }

  function ParsePieces(pieces: seq<string>): Option<seq<Pair>>
  {
    if |pieces| == 0 then Some([])
    else if pieces[0] == "" then ParsePieces(pieces[1..])
    else match ParsePair(pieces[0])
      case None => None
      case Some(p) => PrependSome(p, ParsePieces(pieces[1..]))
  }

  /**
   * The urlencoded reading of a text: empty pieces between `&`s are skipped. It fails on
   * malformed UTF-8, where the standard's parser substitutes U+FFFD instead.
   */
  function Parse(text: string): Option<seq<Pair>>
  {
    ParsePieces(Split(text, '&'))
  }

  lemma PairTextRoundTrip(p: Pair)
    ensures PairText(p) != ""
    ensures '&' !in PairText(p)
    ensures ParsePair(PairText(p)) == Some(p)
  {
    var k, v := FormEncode(p.0), FormEncode(p.1);
    assert PairText(p) == Join([k, v], "=");
    assert PairText(p)[|k|] == '=';
    assert forall i :: 0 <= i < |PairText(p)| ==> PairText(p)[i] == '=' || IsFormChar(PairText(p)[i]);
    SplitJoin([k, v], '=');
    FormRoundTrip(p.0);
    FormRoundTrip(p.1);
  }

  lemma {:induction false} ParsePairTexts(pairs: seq<Pair>)
    ensures ParsePieces(PairTexts(pairs)) == Some(pairs)
  {
    if |pairs| > 0 {
      PairTextRoundTrip(pairs[0]);
      assert PairTexts(pairs)[1..] == PairTexts(pairs[1..]);
      ParsePairTexts(pairs[1..]);
      assert [pairs[0]] + pairs[1..] == pairs;
    }
  }

  /**
   * Serialization loses nothing: parsing the text `toString` writes gives back every pair,
   * in order and with repeated names kept apart.
   */
  lemma SerializeRoundTrip(pairs: seq<Pair>)
    ensures Parse(Serialize(pairs)) == Some(pairs)
  {
    var texts := PairTexts(pairs);
    if |pairs| == 0 {
      assert Serialize(pairs) == "";
    } else {
      forall i | 0 <= i < |texts| ensures '&' !in texts[i] {
        PairTextRoundTrip(pairs[i]);
      }
      SplitJoin(texts, '&');
      ParsePairTexts(pairs);
    }
  }

  /** The `&`s of the serialized text are exactly the pair separators: n pairs give n - 1 of them. */
  lemma SerializeSeparators(pairs: seq<Pair>)
    requires |pairs| >= 1
    ensures Count(Serialize(pairs), '&') == |pairs| - 1
  {
    var texts := PairTexts(pairs);
    forall i | 0 <= i < |texts| ensures '&' !in texts[i] {
      PairTextRoundTrip(pairs[i]);
    }
    JoinCount(texts, '&');
  }

  /** A single pair is written as its encoded name, `=`, and its encoded value. */
  lemma SerializeSingle(p: Pair)
    ensures Serialize([p]) == FormEncode(p.0) + "=" + FormEncode(p.1)
  {
    assert PairTexts([p]) == [PairText(p)];
  }

  /** A single pair named `a[b]`, whose parts and value are unreserved, is written `a%5Bb%5D=v`. */
  lemma SerializeBracketedPair(a: string, b: string, v: string)
    requires forall i :: 0 <= i < |a| ==> IsUnreservedChar(a[i])
    requires forall i :: 0 <= i < |b| ==> IsUnreservedChar(b[i])
    requires forall i :: 0 <= i < |v| ==> IsUnreservedChar(v[i])
    ensures Serialize([(a + "[" + b + "]", v)]) == a + "%5B" + b + "%5D=" + v
  {
    SerializeSingle((a + "[" + b + "]", v));
    FormEncodeBracketed(a, b);
    FormEncodeUnreserved(v);
  }

  lemma SerializeSnoc(pairs: seq<Pair>, p: Pair)
    ensures Serialize(pairs + [p]) == if |pairs| == 0 then PairText(p) else Serialize(pairs) + "&" + PairText(p)
  {
    assert PairTexts(pairs + [p]) == PairTexts(pairs) + [PairText(p)];
    if |pairs| > 0 {
      JoinSnoc(PairTexts(pairs), "&", PairText(p));
    }
  }

  class URLSearchParams {

    /** The pairs appended so far, in the order they were appended. */
    var pairs: seq<Pair>

    constructor ()
      ensures pairs == []
    {
      pairs := [];
    }

    /** `append(name, value)`: adds the pair at the end, whatever pairs of that name exist. */
    method Append(name: string, value: string)
      modifies this
      ensures pairs == old(pairs) + [(name, value)]
    {
      pairs := pairs + [(name, value)];
    }

    /** `toString()`: the urlencoded text of all pairs. */
    method ToString() returns (text: string)
      ensures text == Serialize(pairs)
    {
      text := "";
      var i := 0;
      while i < |pairs|
        invariant 0 <= i <= |pairs|
        invariant text == Serialize(pairs[..i])
      {
        var piece := FormEncode(pairs[i].0) + "=" + FormEncode(pairs[i].1);
        text := if i == 0 then piece else text + "&" + piece;
        SerializeSnoc(pairs[..i], pairs[i]);
        assert pairs[..i + 1] == pairs[..i] + [pairs[i]];
        i := i + 1;
      }
      assert pairs[..i] == pairs;
    }
  }
}
