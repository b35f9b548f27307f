/**
 * String helpers with the meaning of the JavaScript built-ins the query builder calls:
 * `Array.prototype.join`, `String.prototype.split` with a one-character separator,
 * and the prefix and counting tests the properties are stated with.
 */
module Strings {

  /** `parts.join(sep)`: the parts in order, with `sep` between neighbours; `[]` joins to "". */
  function Join(parts: seq<string>, sep: string): (r: string)
  {
    if |parts| == 0 then ""
    else if |parts| == 1 then parts[0]
    else parts[0] + sep + Join(parts[1..], sep)
  }

  /**
   * `s.split(d)` for a one-character separator: the maximal runs between separators, in order.
   * There is always at least one part, and a part is empty next to a leading, trailing or
   * doubled separator.
   */
  function Split(s: string, d: char): (parts: seq<string>)
    ensures |parts| >= 1
  {
    if |s| == 0 then [""]
    else if s[0] == d then [""] + Split(s[1..], d)
    else
      var rest := Split(s[1..], d);
      [[s[0]] + rest[0]] + rest[1..]
  }

  /** No part contains the separator. */
  lemma {:induction false} SplitPartsWithoutSeparator(s: string, d: char)
    ensures forall i :: 0 <= i < |Split(s, d)| ==> d !in Split(s, d)[i]
  {
    if |s| > 0 {
      SplitPartsWithoutSeparator(s[1..], d);
    }
  }

  /** The number of occurrences of `c` in `s`. */
  function Count(s: string, c: char): nat
  {
    if |s| == 0 then 0 else (if s[0] == c then 1 else 0) + Count(s[1..], c)
  }

  /** `s` with every occurrence of the character `c` replaced by the string `t`. */
  function ReplaceChar(s: string, c: char, t: string): string
  {
    if |s| == 0 then ""
    else (if s[0] == c then t else [s[0]]) + ReplaceChar(s[1..], c, t)
  }

  /** Replacing `c` by a text without `c` leaves no `c` behind. */
  lemma {:induction false} ReplaceCharRemoves(s: string, c: char, t: string)
    requires c !in t
    ensures c !in ReplaceChar(s, c, t)
  {
    if |s| > 0 {
      ReplaceCharRemoves(s[1..], c, t);
    }
  }

  /** Each replaced character grows the text by |t| - 1. */
  lemma {:induction false} ReplaceCharLength(s: string, c: char, t: string)
    ensures |ReplaceChar(s, c, t)| == |s| + Count(s, c) * (|t| - 1)
  {
    if |s| > 0 {
      ReplaceCharLength(s[1..], c, t);
    }
  }

  predicate HasPrefix(s: string, p: string)
  {
    |p| <= |s| && s[..|p|] == p
  }

  /** A common head can be dropped from a prefix test. */
  lemma HasPrefixCancel(h: string, x: string, y: string)
    requires HasPrefix(h + x, h + y)
    ensures HasPrefix(x, y)
  {
    assert (h + x)[|h|..] == x;
    assert (h + x)[..|h| + |y|][|h|..] == y;
  }

  /** Joining the parts of a split with the same separator gives back the original string. */
  lemma {:induction false} JoinSplit(s: string, d: char)
    ensures Join(Split(s, d), [d]) == s
  {
    if |s| == 0 {
    } else if s[0] == d {
      JoinSplit(s[1..], d);
      assert Split(s, d) == [""] + Split(s[1..], d);
      assert s == [d] + s[1..];
    } else {
      JoinSplit(s[1..], d);
      var rest := Split(s[1..], d);
      if |rest| == 1 {
        assert Split(s, d) == [[s[0]] + rest[0]];
      } else {
        assert Join(rest, [d]) == rest[0] + [d] + Join(rest[1..], [d]);
        assert Split(s, d)[1..] == rest[1..];
      }
    }
  }

  /** Splitting yields one more part than there are separators. */
  lemma {:induction false} SplitCount(s: string, d: char)
    ensures |Split(s, d)| == Count(s, d) + 1
  {
    if |s| > 0 {
      SplitCount(s[1..], d);
    }
  }

  /** A string without the separator splits into itself alone. */
  lemma {:induction false} SplitWithoutSeparator(p: string, d: char)
    requires d !in p
    ensures Split(p, d) == [p]
  {
    if |p| > 0 {
      assert d !in p[1..];
      SplitWithoutSeparator(p[1..], d);
      assert [p[0]] + p[1..] == p;
    }
  }

  /** A separator-free part followed by the separator splits off as the first part. */
  lemma {:induction false} SplitAtFirstSeparator(p: string, d: char, t: string)
    requires d !in p
    ensures Split(p + [d] + t, d) == [p] + Split(t, d)
  {
    var s := p + [d] + t;
    if |p| == 0 {
      assert s[1..] == t;
    } else {
      assert s[1..] == p[1..] + [d] + t;
      assert d !in p[1..];
      SplitAtFirstSeparator(p[1..], d, t);
      assert [p[0]] + p[1..] == p;
    }
  }

  /** Splitting a join of separator-free parts recovers the parts, in order. */
  lemma {:induction false} SplitJoin(parts: seq<string>, d: char)
    requires |parts| >= 1
    requires forall i :: 0 <= i < |parts| ==> d !in parts[i]
    ensures Split(Join(parts, [d]), d) == parts
  {
    if |parts| == 1 {
      SplitWithoutSeparator(parts[0], d);
    } else {
      SplitJoin(parts[1..], d);
      SplitAtFirstSeparator(parts[0], d, Join(parts[1..], [d]));
    }
  }

  /** Appending one more part to a non-empty join adds the separator and the part. */
  lemma {:induction false} JoinSnoc(parts: seq<string>, sep: string, x: string)
    requires |parts| >= 1
    ensures Join(parts + [x], sep) == Join(parts, sep) + sep + x
  {
    if |parts| == 1 {
      assert (parts + [x])[1..] == [x];
    } else {
      assert (parts + [x])[1..] == parts[1..] + [x];
      JoinSnoc(parts[1..], sep, x);
    }
  }

  /** A joined text contains the separator character only where the join put it. */
  lemma {:induction false} JoinCount(parts: seq<string>, d: char)
    requires |parts| >= 1
    requires forall i :: 0 <= i < |parts| ==> d !in parts[i]
    ensures Count(Join(parts, [d]), d) == |parts| - 1
  {
    SplitJoin(parts, d);
    SplitCount(Join(parts, [d]), d);
  }
}
