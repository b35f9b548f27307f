/**
 * Decimal text of integers, as `Number.prototype.toString()` and `String(n)` produce it for
 * integral values, together with the parser that reads it back (used to show the text is
 * unambiguous: distinct indices and numbers give distinct texts).
 */
module Decimal {

  import opened Wrappers
  import opened Strings

  predicate IsDigit(c: char)
  {
    '0' <= c <= '9'
  }

  predicate AllDigits(s: string)
  {
    forall i :: 0 <= i < |s| ==> IsDigit(s[i])
  }

  function DigitChar(d: nat): (c: char)
    requires d < 10
    ensures IsDigit(c) && c as int - '0' as int == d
  {
    ('0' as int + d) as char
  }

  /** The decimal digits of `n`, most significant first, with no leading zero. */
  function NatToString(n: nat): (r: string)
    ensures |r| >= 1 && AllDigits(r)
    ensures r[0] == '0' <==> n == 0
    decreases n
  {
    if n < 10 then [DigitChar(n)] else NatToString(n / 10) + [DigitChar(n % 10)]
  }

  /** The value of a string of decimal digits; the empty string reads as 0. */
  function ParseNat(s: string): nat
    requires AllDigits(s)
  {
    if |s| == 0 then 0
    else ParseNat(s[..|s| - 1]) * 10 + (s[|s| - 1] as int - '0' as int)
  }

  /** Reading the decimal text back gives the number. */
  lemma {:induction false} ParseNatToString(n: nat)
    ensures ParseNat(NatToString(n)) == n
    decreases n
  {
    if n >= 10 {
      ParseNatToString(n / 10);
      var s := NatToString(n);
      assert s[..|s| - 1] == NatToString(n / 10);
    }
  }

  /** Distinct numbers have distinct decimal texts. */
  lemma NatToStringInjective(m: nat, n: nat)
    requires NatToString(m) == NatToString(n)
    ensures m == n
  {
    ParseNatToString(m);
    ParseNatToString(n);
  }

  /** The length of the run of digits at the start of `s`. */
  function DigitRun(s: string): nat
  {
    if |s| == 0 || !IsDigit(s[0]) then 0 else 1 + DigitRun(s[1..])
  }

  lemma {:induction false} DigitRunOf(d: string, r: string)
    requires AllDigits(d)
    requires |r| > 0 && !IsDigit(r[0])
    ensures DigitRun(d + r) == |d|
  {
    if |d| > 0 {
      assert (d + r)[1..] == d[1..] + r;
      DigitRunOf(d[1..], r);
    } else {
      assert d + r == r;
    }
  }

  /** A run of digits ends where a `]` follows it: one run of digits and `]` cannot begin another, longer one. */
  lemma DigitsBeforeBracket(a: string, b: string, rest: string)
    requires AllDigits(a) && AllDigits(b)
    requires HasPrefix(b + "]" + rest, a + "]")
    ensures a == b
  {
    var s := b + "]" + rest;
    assert s == (a + "]") + s[|a| + 1..];
    assert s == b + ("]" + rest);
    DigitRunOf(b, "]" + rest);
    DigitRunOf(a, "]" + s[|a| + 1..]);
    assert a + ("]" + s[|a| + 1..]) == (a + "]") + s[|a| + 1..];
    assert a == s[..|a|];
  }

  /** `String(n)` for an integer: a minus sign exactly for negative numbers, then the digits of |n|. */
  function IntToString(n: int): (r: string)
    ensures |r| >= 1
    ensures r[0] == '-' <==> n < 0
    ensures AllDigits(if n < 0 then r[1..] else r)
  {
    if n < 0 then "-" + NatToString(-n) else NatToString(n)
  }

  /** Reads back the text `IntToString` produces; `None` for anything else. */
  function ParseInt(s: string): (r: Option<int>)
  {
    if |s| >= 2 && s[0] == '-' && AllDigits(s[1..]) then Some(0 - ParseNat(s[1..]) as int)
    else if |s| >= 1 && AllDigits(s) then Some(ParseNat(s))
    else None
  }

  /** Integer text round trip: parsing what `IntToString` writes gives the number back. */
  lemma IntToStringRoundTrip(n: int)
    ensures ParseInt(IntToString(n)) == Some(n)
  {
    var s := IntToString(n);
    if n < 0 {
      assert s[1..] == NatToString(-n);
      ParseNatToString(-n);
    } else {
      ParseNatToString(n);
    }
  }

  /** Distinct integers have distinct texts. */
  lemma IntToStringInjective(m: int, n: int)
    requires IntToString(m) == IntToString(n)
    ensures m == n
  {
    IntToStringRoundTrip(m);
    IntToStringRoundTrip(n);
  }


  function HexDigitLower(d: nat): (c: char)
    requires d < 16
    ensures '0' <= c <= '9' || 'a' <= c <= 'f'
  {
    "0123456789abcdef"[d]
  }

  function HexDigitUpper(d: nat): (c: char)
    requires d < 16
    ensures '0' <= c <= '9' || 'A' <= c <= 'F'
  {
    "0123456789ABCDEF"[d]
  }

  /** The value of a hexadecimal digit of either case. */
  function HexValue(c: char): (r: Option<nat>)
    ensures r.Some? ==> r.value < 16
  {
    if '0' <= c <= '9' then Some(c as int - '0' as int)
    else if 'a' <= c <= 'f' then Some(c as int - 'a' as int + 10)
    else if 'A' <= c <= 'F' then Some(c as int - 'A' as int + 10)
    else None
  }
}
