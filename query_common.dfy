/**
 * What the two revisions of the query builder share: the sort, logical-operator and
 * pagination types, the pairs a sort list and a pagination record produce (both revisions
 * emit them with the same code), and the division of parameter names into the four parts of
 * a query (sort, filters, pagination, populate) that states the order of the output.
 */
module QueryCommon {

  import opened Wrappers
  import opened Strings
  import opened Decimal
  import opened JsValues
  import opened SearchParams

  datatype Order = Asc | Desc

  function OrderToken(o: Order): string
  {
    match o
    case Asc => "asc"
    case Desc => "desc"
  }

  datatype Sort = Sort(field: string, order: Order)

  datatype LogicalOperator = And | Or | Not

  function LogicalToken(op: LogicalOperator): string
  {
    match op
    case And => "$and"
    case Or => "$or"
    case Not => "$not"
  }

  /** `offset` is present exactly when `typeof offset === "number"`. */
  datatype Pagination = Pagination(limit: int, offset: Option<int>)

  /** The text of a filter value: `Array.isArray(v) ? JSON.stringify(v) : String(v)` */
  function ValueText(v: Value): (r: string)
    ensures v.Array? ==> |r| >= 2 && r[0] == '[' && r[|r| - 1] == ']'
    ensures !v.Array? ==> r == ToJsString(v)
  {
    if v.Array? then JsonArray(v.items) else ToJsString(v)
  }

  // Parameter names

  /** Each part in brackets, in order, with nothing between them. */
  function Brackets(parts: seq<string>): string
  {
    if |parts| == 0 then "" else "[" + parts[0] + "]" + Brackets(parts[1..])
  }

  lemma BracketsCons(p: string, rest: seq<string>)
    ensures Brackets([p] + rest) == "[" + p + "]" + Brackets(rest)
  {
    assert ([p] + rest)[1..] == rest;
  }

  /** Bracketing a concatenation brackets each half. */
  lemma {:induction false} BracketsConcat(a: seq<string>, b: seq<string>)
    ensures Brackets(a + b) == Brackets(a) + Brackets(b)
  {
    if |a| > 0 {
      BracketsConcat(a[1..], b);
      assert (a + b)[1..] == a[1..] + b;
      BracketsCons(a[0], a[1..] + b);
      assert "[" + a[0] + "]" + (Brackets(a[1..]) + Brackets(b)) == "[" + a[0] + "]" + Brackets(a[1..]) + Brackets(b);
    } else {
      assert a + b == b;
    }
  }

  /** `filters[op][j]`: the head of the key of the child at index `j` of a logical group. */
  function GroupKeyPrefix(op: LogicalOperator, j: nat): string
  {
    "filters[" + LogicalToken(op) + "][" + NatToString(j) + "]"
  }

  lemma GroupKeyPrefixBrackets(op: LogicalOperator, j: nat)
    ensures GroupKeyPrefix(op, j) == "filters" + Brackets([LogicalToken(op), NatToString(j)])
  {
    BracketsCons(LogicalToken(op), [NatToString(j)]);
    BracketsCons(NatToString(j), []);
    assert [LogicalToken(op), NatToString(j)] == [LogicalToken(op)] + [NatToString(j)];
  }

  // Sort

  function SortKey(index: nat): string
  {
    "sort[" + NatToString(index) + "]"
  }

  /** The pairs of the sort entry at `index`: its field, then `:desc` under the same name when descending. */
  function SortEntryPairs(index: nat, s: Sort): seq<Pair>
  {
    [(SortKey(index), s.field)]
    + (if s.order == Desc then [(SortKey(index), ":" + OrderToken(s.order))] else [])
  }

  /** The pairs of a sort list, entry by entry in list order. */
  function SortPairs(sort: seq<Sort>): seq<Pair>
  {
    if |sort| == 0 then []
    else SortPairs(sort[..|sort| - 1]) + SortEntryPairs(|sort| - 1, sort[|sort| - 1])
  }

  /** `if (settings.sort?.length)`: an absent and an empty list both give nothing. */
  function SortSection(sort: Option<seq<Sort>>): seq<Pair>
  {
    if sort.Some? && |sort.value| > 0 then SortPairs(sort.value) else []
  }

  function DescCount(sort: seq<Sort>): nat
  {
    if |sort| == 0 then 0
    else DescCount(sort[..|sort| - 1]) + (if sort[|sort| - 1].order == Desc then 1 else 0)
  }

  /** Distinct positions give distinct sort names. */
  lemma SortKeyInjective(i: nat, j: nat)
    requires SortKey(i) == SortKey(j)
    ensures i == j
  {
    var a, b := SortKey(i), SortKey(j);
    assert NatToString(i) == a[5..|a| - 1];
    assert NatToString(j) == b[5..|b| - 1];
    NatToStringInjective(i, j);
  }

  /** One pair per ascending entry and two per descending entry. */
  lemma {:induction false} SortPairsLength(sort: seq<Sort>)
    ensures |SortPairs(sort)| == |sort| + DescCount(sort)
  {
    if |sort| > 0 {
      SortPairsLength(sort[..|sort| - 1]);
    }
  }

  lemma SortEntryValues(index: nat, s: Sort, name: string)
    ensures GetAll(SortEntryPairs(index, s), name)
         == if name == SortKey(index) then [s.field] + (if s.order == Desc then [":desc"] else []) else []
  {
    var first := (SortKey(index), s.field);
    GetAllSingle(first, name);
    if s.order == Desc {
      var second := (SortKey(index), ":desc");
      assert ":" + OrderToken(s.order) == ":desc";
      assert SortEntryPairs(index, s) == [first] + [second];
      GetAllSingle(second, name);
      GetAllConcat([first], [second], name);
    } else {
      assert SortEntryPairs(index, s) == [first];
    }
  }

  /** Names past the end of the list do not occur among the sort pairs. */
  lemma {:induction false} SortPairsBeyond(sort: seq<Sort>, i: nat)
    requires i >= |sort|
    ensures GetAll(SortPairs(sort), SortKey(i)) == []
  {
    if |sort| > 0 {
      var n := |sort| - 1;
      SortPairsBeyond(sort[..n], i);
      GetAllConcat(SortPairs(sort[..n]), SortEntryPairs(n, sort[n]), SortKey(i));
      SortEntryValues(n, sort[n], SortKey(i));
      if SortKey(n) == SortKey(i) {
        SortKeyInjective(n, i);
      }
    }
  }

  /**
   * Reading the name `sort[i]` back from the pairs gives the field of entry i, followed by
   * `:desc` exactly when that entry is descending; no other entry contributes to that name.
   */
  lemma {:induction false} SortPairsAt(sort: seq<Sort>, i: nat)
    requires i < |sort|
    ensures GetAll(SortPairs(sort), SortKey(i))
         == [sort[i].field] + (if sort[i].order == Desc then [":desc"] else [])
  {
    var n := |sort| - 1;
    var init := sort[..n];
    GetAllConcat(SortPairs(init), SortEntryPairs(n, sort[n]), SortKey(i));
    SortEntryValues(n, sort[n], SortKey(i));
    if i == n {
      SortPairsBeyond(init, i);
    } else {
      SortPairsAt(init, i);
      if SortKey(n) == SortKey(i) {
        SortKeyInjective(n, i);
      }
    }
  }

  // Pagination

  /** `pagination[limit]` whenever pagination is given, then `pagination[offset]` when the offset is a number. */
  function PaginationPairs(p: Option<Pagination>): seq<Pair>
  {
    match p
    case None => []
    case Some(Pagination(limit, offset)) =>
      [("pagination[limit]", IntToString(limit))]
      + (if offset.Some? then [("pagination[offset]", IntToString(offset.value))] else [])
  }

  /**
   * The limit is read back whenever pagination is given; the offset is read back exactly when
   * it is present, a zero offset included.
   */
  lemma PaginationValues(p: Option<Pagination>)
    ensures GetAll(PaginationPairs(p), "pagination[limit]")
         == (if p.Some? then [IntToString(p.value.limit)] else [])
    ensures GetAll(PaginationPairs(p), "pagination[offset]")
         == (if p.Some? && p.value.offset.Some? then [IntToString(p.value.offset.value)] else [])
    ensures |PaginationPairs(p)| == (if p.None? then 0 else if p.value.offset.None? then 1 else 2)
  {
    var limitName, offsetName := "pagination[limit]", "pagination[offset]";
    assert limitName[11] != offsetName[11];
    if p.Some? {
      var limit := (limitName, IntToString(p.value.limit));
      GetAllSingle(limit, limitName);
      GetAllSingle(limit, offsetName);
      if p.value.offset.Some? {
        var offset := (offsetName, IntToString(p.value.offset.value));
        GetAllSingle(offset, limitName);
        GetAllSingle(offset, offsetName);
        GetAllConcat([limit], [offset], limitName);
        GetAllConcat([limit], [offset], offsetName);
      } else {
        assert PaginationPairs(p) == [limit];
      }
    }
  }

  // The passes both revisions share

  /** The sort pass: for each entry its field, then `:desc` under the same name when descending. */
  method AppendSort(params: URLSearchParams, sort: seq<Sort>)
    modifies params
    ensures params.pairs == old(params.pairs) + SortPairs(sort)
  {
    var index := 0;
    while index < |sort|
      invariant 0 <= index <= |sort|
      invariant params.pairs == old(params.pairs) + SortPairs(sort[..index])
    {
      params.Append(SortKey(index), sort[index].field);
      if sort[index].order == Desc {
        params.Append(SortKey(index), ":" + OrderToken(sort[index].order));
      }
      assert sort[..index + 1][..index] == sort[..index];
      index := index + 1;
    }
    assert sort[..index] == sort;
  }

  /** The pagination pass. */
  method AppendPagination(params: URLSearchParams, pagination: Option<Pagination>)
    modifies params
    ensures params.pairs == old(params.pairs) + PaginationPairs(pagination)
  {
    if pagination.Some? {
      var limit, offset := pagination.value.limit, pagination.value.offset;
      params.Append("pagination[limit]", IntToString(limit));
      if offset.Some? {
        params.Append("pagination[offset]", IntToString(offset.value));
      }
    }
  }

  // The parts of a query

  /** The part of the query a parameter name belongs to: 0 sort, 1 filters, 2 pagination, 3 populate. */
  function Section(name: string): nat
  {
    if HasPrefix(name, "sort[") then 0
    else if HasPrefix(name, "filters[") then 1
    else if HasPrefix(name, "pagination[") then 2
    else 3
  }

  predicate AllInSection(pairs: seq<Pair>, n: nat)
  {
    forall i :: 0 <= i < |pairs| ==> Section(pairs[i].0) == n
  }

  /** Each pair belongs to the same part as every pair before it, or to a later one. */
  predicate InSectionOrder(pairs: seq<Pair>)
  {
    forall i, j :: 0 <= i < j < |pairs| ==> Section(pairs[i].0) <= Section(pairs[j].0)
  }

  lemma SectionsInOrder(a: seq<Pair>, b: seq<Pair>, c: seq<Pair>, d: seq<Pair>)
    requires AllInSection(a, 0) && AllInSection(b, 1) && AllInSection(c, 2) && AllInSection(d, 3)
    ensures InSectionOrder(a + b + c + d)
  {
    var x := a + b + c + d;
    forall k | 0 <= k < |x|
      ensures Section(x[k].0)
           == if k < |a| then 0 else if k < |a| + |b| then 1 else if k < |a| + |b| + |c| then 2 else 3
    {
      if k < |a| {
        assert x[k] == a[k];
      } else if k < |a| + |b| {
        assert x[k] == b[k - |a|];
      } else if k < |a| + |b| + |c| {
        assert x[k] == c[k - |a| - |b|];
      } else {
        assert x[k] == d[k - |a| - |b| - |c|];
      }
    }
  }

  lemma {:induction false} SortPairsSection(sort: seq<Sort>)
    ensures AllInSection(SortPairs(sort), 0)
  {
    if |sort| > 0 {
      var n := |sort| - 1;
      SortPairsSection(sort[..n]);
      assert HasPrefix(SortKey(n), "sort[");
    }
  }

  lemma PaginationSection(p: Option<Pagination>)
    ensures AllInSection(PaginationPairs(p), 2)
  {
    assert HasPrefix("pagination[limit]", "pagination[");
    assert HasPrefix("pagination[offset]", "pagination[");
    assert "pagination[limit]"[0] != "filters["[0] && "pagination[limit]"[0] != "sort["[0];
    assert "pagination[offset]"[0] != "filters["[0] && "pagination[offset]"[0] != "sort["[0];
  }

  lemma AllInSectionConcat(a: seq<Pair>, b: seq<Pair>, n: nat)
    requires AllInSection(a, n) && AllInSection(b, n)
    ensures AllInSection(a + b, n)
  {
    forall k | 0 <= k < |a + b|
      ensures Section((a + b)[k].0) == n
    {
      if k < |a| {
        assert (a + b)[k] == a[k];
      } else {
        assert (a + b)[k] == b[k - |a|];
      }
    }
  }

  lemma FiltersPrefixSection(key: string)
    requires HasPrefix(key, "filters[")
    ensures Section(key) == 1
  {
    assert key[..5][0] == key[0] == 'f';
  }

  /** A name made of `filters` and at least one bracket group belongs to the filters part. */
  lemma FiltersKeySection(segments: seq<string>)
    requires |segments| >= 1
    ensures Section("filters" + Brackets(segments)) == 1
  {
    assert segments == [segments[0]] + segments[1..];
    BracketsCons(segments[0], segments[1..]);
    var b := Brackets(segments);
    assert b[0] == '[';
    var key := "filters" + b;
    assert key[..7] == "filters" && key[7] == '[';
    assert key[..8] == key[..7] + [key[7]];
    FiltersPrefixSection(key);
  }
}
