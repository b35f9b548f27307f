/**
 * The filter values of the query builder (`string | number | boolean | null | Array<string | number>`)
 * and the two ways the builder turns one into text: `String(value)` and, for arrays,
 * `JSON.stringify(value)`. Numbers are integers here (see README).
 */
module JsValues {

  import opened Wrappers
  import opened Strings
  import opened Decimal

  /** An element of an array value: a string or a number. */
  datatype Scalar = SStr(s: string) | SNum(n: int)

  datatype Value = Str(s: string) | Num(n: int) | Bool(b: bool) | NullValue | Array(items: seq<Scalar>)

  function ScalarToString(x: Scalar): string
  {
    match x
    case SStr(s) => s
    case SNum(n) => IntToString(n)
  }

  function ScalarStrings(items: seq<Scalar>): seq<string>
  {
    seq(|items|, i requires 0 <= i < |items| => ScalarToString(items[i]))
  }

  /** `String(v)`: an array becomes its elements' texts joined with commas, without brackets. */
  function ToJsString(v: Value): (r: string)
    ensures v.Num? ==> |r| >= 1 && (r[0] == '-' <==> v.n < 0)
    ensures v.Array? && |v.items| == 1 ==> r == ScalarToString(v.items[0])
  {
    match v
    case Str(s) => s
    case Num(n) => IntToString(n)
    case Bool(b) => if b then "true" else "false"
    case NullValue => "null"
    case Array(items) => Join(ScalarStrings(items), ",")
  }

  /** Reading back the text of a number gives the number. */
  lemma NumberTextRoundTrip(n: int)
    ensures ParseInt(ToJsString(Num(n))) == Some(n)
  {
    IntToStringRoundTrip(n);
  }

  /**
   * The escape `JSON.stringify` writes for one character of a string (the ECMAScript
   * QuoteJSONString operation): the seven short escapes, `\u00xx` with lower-case hex
   * for the other control characters, and the character itself otherwise.
   */
  function JsonEscapeChar(c: char): (r: string)
    ensures forall i :: 0 <= i < |r| ==> r[i] as int >= 0x20
  {
    if c == '"' then "\\\""
    else if c == '\\' then "\\\\"
    else if c as int == 0x08 then "\\b"
    else if c == '\t' then "\\t"
    else if c == '\n' then "\\n"
    else if c as int == 0x0C then "\\f"
    else if c == '\r' then "\\r"
    else if c as int < 0x20 then "\\u00" + [HexDigitLower(c as int / 16), HexDigitLower(c as int % 16)]
    else [c]
  }

  /** The escaped body of a JSON string: no raw control character survives. */
  function JsonEscape(s: string): (r: string)
    ensures forall i :: 0 <= i < |r| ==> r[i] as int >= 0x20
  {
    if |s| == 0 then "" else JsonEscapeChar(s[0]) + JsonEscape(s[1..])
  }

  function JsonQuote(s: string): string
  {
    "\"" + JsonEscape(s) + "\""
  }

  function JsonScalar(x: Scalar): string
  {
    match x
    case SStr(s) => JsonQuote(s)
    case SNum(n) => IntToString(n)
  }

  /** `JSON.stringify(items)` for an array of strings and numbers: `[e0,e1,...]` with no spaces. */
  function JsonArray(items: seq<Scalar>): (r: string)
    ensures |r| >= 2 && r[0] == '[' && r[|r| - 1] == ']'
    ensures |items| == 0 ==> r == "[]"
  {
    "[" + Join(seq(|items|, i requires 0 <= i < |items| => JsonScalar(items[i])), ",") + "]"
  }

  // Reading an escaped JSON string body back, to show that escaping loses nothing.

  /** The character a one-letter escape `\x` stands for. */
  function ShortUnescape(c: char): Option<char>
  {
    if c == '"' then Some('"')
    else if c == '\\' then Some('\\')
    else if c == '/' then Some('/')
    else if c == 'b' then Some(0x08 as char)
    else if c == 't' then Some('\t')
    else if c == 'n' then Some('\n')
    else if c == 'f' then Some(0x0C as char)
    else if c == 'r' then Some('\r')
    else None
  }

  /** The code unit a `\uXXXX` escape denotes, when its four characters are hex digits. */
  function Hex4(h: string): Option<nat>
    requires |h| == 4
  {
    match (HexValue(h[0]), HexValue(h[1]), HexValue(h[2]), HexValue(h[3]))
    case (Some(a), Some(b), Some(c), Some(d)) => Some(((a * 16 + b) * 16 + c) * 16 + d)
    case _ => None
  }

  /**
   * The string an escaped JSON string body denotes, or `None` when the body is malformed
   * (a raw quote or control character, an unknown escape, or a `\u` escape of a lone surrogate).
   */
  function JsonUnescape(s: string): Option<string>
    decreases |s|
  {
    if |s| == 0 then Some("")
    else if s[0] != '\\' then
      if s[0] == '"' || s[0] as int < 0x20 then None else PrependSome(s[0], JsonUnescape(s[1..]))
    else if |s| < 2 then None
    else if ShortUnescape(s[1]).Some? then PrependSome(ShortUnescape(s[1]).value, JsonUnescape(s[2..]))
    else if s[1] == 'u' && |s| >= 6 && Hex4(s[2..6]).Some? then
      var v := Hex4(s[2..6]).value;
      if v < 0xD800 || 0xE000 <= v then PrependSome(v as char, JsonUnescape(s[6..])) else None
    else None
  }

  lemma UnescapeShort(e: char, rest: string)
    requires ShortUnescape(e).Some?
    ensures JsonUnescape(['\\', e] + rest) == PrependSome(ShortUnescape(e).value, JsonUnescape(rest))
  {
    assert (['\\', e] + rest)[2..] == rest;
  }

  lemma UnescapeControl(c: char, rest: string)
    requires c as int < 0x20
    ensures JsonUnescape("\\u00" + [HexDigitLower(c as int / 16), HexDigitLower(c as int % 16)] + rest)
         == PrependSome(c, JsonUnescape(rest))
  {
    var hi, lo := c as int / 16, c as int % 16;
    var s := "\\u00" + [HexDigitLower(hi), HexDigitLower(lo)] + rest;
    assert s[2..6] == ['0', '0', HexDigitLower(hi), HexDigitLower(lo)];
    assert HexValue(HexDigitLower(hi)) == Some(hi);
    assert HexValue(HexDigitLower(lo)) == Some(lo);
    assert Hex4(s[2..6]) == Some(c as int);
    assert s[6..] == rest;
  }

  lemma UnescapePlain(c: char, rest: string)
    requires c != '\\' && c != '"' && c as int >= 0x20
    ensures JsonUnescape([c] + rest) == PrependSome(c, JsonUnescape(rest))
  {
    assert ([c] + rest)[1..] == rest;
  }

  lemma JsonEscapeCharUnescape(c: char, rest: string)
    ensures JsonUnescape(JsonEscapeChar(c) + rest) == PrependSome(c, JsonUnescape(rest))
  {
    if c == '"' {
      UnescapeShort('"', rest);
    } else if c == '\\' {
      UnescapeShort('\\', rest);
    } else if c as int == 0x08 {
      UnescapeShort('b', rest);
    } else if c == '\t' {
      UnescapeShort('t', rest);
    } else if c == '\n' {
      UnescapeShort('n', rest);
    } else if c as int == 0x0C {
      UnescapeShort('f', rest);
    } else if c == '\r' {
      UnescapeShort('r', rest);
    } else if c as int < 0x20 {
      UnescapeControl(c, rest);
    } else {
      UnescapePlain(c, rest);
    }
  }

  /** Escaping round trip: the escaped body of a JSON string reads back as the original string. */
  lemma {:induction false} JsonEscapeRoundTrip(s: string)
    ensures JsonUnescape(JsonEscape(s)) == Some(s)
  {
    if |s| > 0 {
      JsonEscapeRoundTrip(s[1..]);
      JsonEscapeCharUnescape(s[0], JsonEscape(s[1..]));
      assert [s[0]] + s[1..] == s;
    }
  }

  /**
   * For an array of numbers the two texts differ only by the brackets: `JSON.stringify(a)`
   * is `"[" + String(a) + "]"`.
   */
  lemma NumberArrayTexts(items: seq<Scalar>)
    requires forall i :: 0 <= i < |items| ==> items[i].SNum?
    ensures JsonArray(items) == "[" + ToJsString(Array(items)) + "]"
  {
    assert seq(|items|, i requires 0 <= i < |items| => JsonScalar(items[i])) == ScalarStrings(items);
  }
}
