/**
 * The earlier query builder of `index.ts`. It appends sort and pagination pairs exactly as the
 * later revision does, but writes a filter's field as one bracket group, verbatim, dots
 * included; it has no `$like` operator and no `populate` setting.
 */
module LegacyQueryBuilder {

  import opened Wrappers
  import opened Strings
  import opened Decimal
  import opened JsValues
  import opened SearchParams
  import opened QueryCommon
  import Later = QueryBuilder

  datatype ComparisonOperator = Eq | Gt | Gte | In | Lt | Lte | Null

  function ComparisonToken(op: ComparisonOperator): string
  {
    match op
    case Eq => "$eq"
    case Gt => "$gt"
    case Gte => "$gte"
    case In => "$in"
    case Lt => "$lt"
    case Lte => "$lte"
    case Null => "$null"
  }

  datatype Filter = Filter(field: string, operator: Option<ComparisonOperator>, value: Value, relation: Option<string>)

  datatype FilterItem = Plain(filter: Filter) | Logical(op: LogicalOperator, filters: seq<Filter>)

  datatype Settings = Settings(
    sort: Option<seq<Sort>>,
    filters: Option<seq<FilterItem>>,
    pagination: Option<Pagination>)

  /** `if (f.relation)`: a relation counts only when it is a non-empty string. */
  predicate HasRelation(f: Filter)
  {
    f.relation.Some? && f.relation.value != ""
  }

  function OperatorSuffix(op: Option<ComparisonOperator>): string
  {
    if op.Some? then "[" + ComparisonToken(op.value) + "]" else ""
  }

  /** The pair of a plain filter: the field in one pair of brackets, after the relation when there is one. */
  function FilterPair(f: Filter): Pair
  {
    if HasRelation(f) then
      ("filters[" + f.relation.value + "][" + f.field + "]", ValueText(f.value))
    else
      ("filters[" + f.field + "]" + OperatorSuffix(f.operator), ValueText(f.value))
  }

  /** The pair of the child at index `j` of a logical group; a child with a relation uses `String(value)`. */
  function GroupChildPair(op: LogicalOperator, j: nat, f: Filter): Pair
  {
    if HasRelation(f) then
      (GroupKeyPrefix(op, j) + "[" + f.relation.value + "][" + f.field + "]", ToJsString(f.value))
    else
      (GroupKeyPrefix(op, j) + "[" + f.field + "]" + OperatorSuffix(f.operator), ValueText(f.value))
  }

  function GroupPairs(op: LogicalOperator, children: seq<Filter>): seq<Pair>
  {
    seq(|children|, j requires 0 <= j < |children| => GroupChildPair(op, j, children[j]))
  }

  function ItemOperator(item: FilterItem): Option<string>
  {
    match item
    case Plain(f) => if f.operator.Some? then Some(ComparisonToken(f.operator.value)) else None
    case Logical(op, _) => Some(LogicalToken(op))
  }

  /** `"operator" in filter` and the operator is `$and`, `$or` or `$not`. */
  predicate IsLogicalGroup(item: FilterItem)
  {
    var op := ItemOperator(item);
    op.Some? && (op.value == "$and" || op.value == "$or" || op.value == "$not")
  }

  function ItemPairs(item: FilterItem): seq<Pair>
  {
    match item
    case Plain(f) => [FilterPair(f)]
    case Logical(op, children) => GroupPairs(op, children)
  }

  function FilterPairs(items: seq<FilterItem>): seq<Pair>
  {
    if |items| == 0 then []
    else FilterPairs(items[..|items| - 1]) + ItemPairs(items[|items| - 1])
  }

  function FilterSection(filters: Option<seq<FilterItem>>): seq<Pair>
  {
    if filters.Some? && |filters.value| > 0 then FilterPairs(filters.value) else []
  }

  /** Every pair the builder appends, in order: sort, filters, pagination. */
  function QueryPairs(settings: Settings): seq<Pair>
  {
    SortSection(settings.sort) + FilterSection(settings.filters) + PaginationPairs(settings.pagination)
  }

  /**
   * `queryBuilder`: appends the pairs to one `URLSearchParams` and returns its text, from which
   * the urlencoded parser recovers exactly `QueryPairs(settings)`.
   */
  method QueryBuilder(settings: Settings) returns (query: string)
    ensures query == Serialize(QueryPairs(settings))
    ensures Parse(query) == Some(QueryPairs(settings))
  {
    var params := new URLSearchParams();

    // Sorting
    if settings.sort.Some? && |settings.sort.value| > 0 {
      AppendSort(params, settings.sort.value);
    }
    assert params.pairs == SortSection(settings.sort);

    // Filtering
    if settings.filters.Some? && |settings.filters.value| > 0 {
      AppendFilters(params, settings.filters.value);
    }
    AppendPagination(params, settings.pagination);
    assert params.pairs == QueryPairs(settings);

    query := params.ToString();
    SerializeRoundTrip(QueryPairs(settings));
  }

  /** The filter pass: the elements of `filters` in order. */
  method AppendFilters(params: URLSearchParams, filters: seq<FilterItem>)
    modifies params
    ensures params.pairs == old(params.pairs) + FilterPairs(filters)
  {
    ghost var start := params.pairs;
    var index := 0;
    while index < |filters|
      invariant 0 <= index <= |filters|
      invariant params.pairs == start + FilterPairs(filters[..index])
    {
      ghost var done := FilterPairs(filters[..index]);
      AppendFilterItem(params, filters[index]);
      assert filters[..index + 1][..index] == filters[..index];
      ConcatAssoc(start, done, ItemPairs(filters[index]));
      index := index + 1;
    }
    assert filters[..index] == filters;
  }

  /** One element of `filters`: its one pair, or one pair per child of a logical group. */
  method AppendFilterItem(params: URLSearchParams, filter: FilterItem)
    modifies params
    ensures params.pairs == old(params.pairs) + ItemPairs(filter)
  {
    LogicalGroupIff(filter);
    if IsLogicalGroup(filter) {
      var op, subFilters := filter.op, filter.filters;
      var subIndex := 0;
      while subIndex < |subFilters|
        invariant 0 <= subIndex <= |subFilters|
        invariant params.pairs == old(params.pairs) + GroupPairs(op, subFilters[..subIndex])
      {
        var subFilter := subFilters[subIndex];
        var filterKey := GroupKeyPrefix(op, subIndex);
        if HasRelation(subFilter) {
          params.Append(filterKey + "[" + subFilter.relation.value + "][" + subFilter.field + "]",
                        ToJsString(subFilter.value));
        } else {
          var operatorStr := OperatorSuffix(subFilter.operator);
          params.Append(filterKey + "[" + subFilter.field + "]" + operatorStr, ValueText(subFilter.value));
        }
        assert GroupPairs(op, subFilters[..subIndex + 1])
            == GroupPairs(op, subFilters[..subIndex]) + [GroupChildPair(op, subIndex, subFilter)];
        subIndex := subIndex + 1;
      }
      assert subFilters[..subIndex] == subFilters;
    } else {
      var f := filter.filter;
      if HasRelation(f) {
        params.Append("filters[" + f.relation.value + "][" + f.field + "]", ValueText(f.value));
      } else {
        var operatorStr := OperatorSuffix(f.operator);
        params.Append("filters[" + f.field + "]" + operatorStr, ValueText(f.value));
      }
    }
  }

  /** An element is handled as a logical group exactly when it is one. */
  lemma LogicalGroupIff(item: FilterItem)
    ensures IsLogicalGroup(item) <==> item.Logical?
  {
    if item.Plain? && item.filter.operator.Some? {
      var t := ComparisonToken(item.filter.operator.value);
      assert t[1] != "$and"[1] || |t| != 4;
      assert t[1] != "$or"[1] || |t| != 3;
      assert t[1] != "$not"[1] || |t| != 4;
    }
  }

  // What the pairs hold

  /**
   * The bracket groups of a filter's key after `filters`: the relation when there is one, the
   * field as it is written, then the operator when there is no relation and one is set.
   */
  function KeySegments(f: Filter): (segments: seq<string>)
    ensures |segments| >= 1
  {
    (if HasRelation(f) then [f.relation.value] else [])
    + [f.field]
    + (if !HasRelation(f) && f.operator.Some? then [ComparisonToken(f.operator.value)] else [])
  }

  lemma KeyTail(f: Filter)
    ensures Brackets(KeySegments(f))
         == if HasRelation(f) then "[" + f.relation.value + "][" + f.field + "]"
            else "[" + f.field + "]" + OperatorSuffix(f.operator)
  {
    var rel := if HasRelation(f) then [f.relation.value] else [];
    var op := if !HasRelation(f) && f.operator.Some? then [ComparisonToken(f.operator.value)] else [];
    BracketsConcat(rel + [f.field], op);
    BracketsConcat(rel, [f.field]);
    BracketsCons(f.field, []);
    if HasRelation(f) {
      BracketsCons(f.relation.value, []);
      assert op == [];
      var r, x := f.relation.value, f.field;
      assert "[" + r + "]" + ("[" + x + "]") == "[" + r + "][" + x + "]";
    } else {
      assert rel + [f.field] == [f.field];
      if f.operator.Some? {
        BracketsCons(ComparisonToken(f.operator.value), []);
      }
    }
  }

  /**
   * The key of a plain filter is `filters` and its key segments, each in brackets: with a
   * relation `filters[relation][field]` and no operator; without one `filters[field]`, then
   * `[operator]` exactly when an operator is set. The field is not split at its dots.
   */
  lemma FilterPairKey(f: Filter)
    ensures FilterPair(f).0 == "filters" + Brackets(KeySegments(f))
  {
    KeyTail(f);
    assert "filters[" == "filters" + "[";
    if HasRelation(f) {
      var r, x := f.relation.value, f.field;
      ConcatAssoc5("filters", "[", r, "][", x);
      ConcatAssoc("filters", "[" + r + "][" + x, "]");
    } else {
      ConcatAssoc5("filters", "[", f.field, "]", OperatorSuffix(f.operator));
    }
  }

  /** The key of the child at index `j` of a group: `filters[op][j]`, then the child's key segments. */
  lemma GroupChildKey(op: LogicalOperator, j: nat, f: Filter)
    ensures GroupChildPair(op, j, f).0 == "filters" + Brackets([LogicalToken(op), NatToString(j)] + KeySegments(f))
  {
    GroupChildTail(op, j, f);
    GroupKeyPrefixBrackets(op, j);
    BracketsConcat([LogicalToken(op), NatToString(j)], KeySegments(f));
    ConcatAssoc("filters", Brackets([LogicalToken(op), NatToString(j)]), Brackets(KeySegments(f)));
  }

  lemma GroupChildTail(op: LogicalOperator, j: nat, f: Filter)
    ensures GroupChildPair(op, j, f).0 == GroupKeyPrefix(op, j) + Brackets(KeySegments(f))
  {
    KeyTail(f);
    var p := GroupKeyPrefix(op, j);
    if HasRelation(f) {
      ConcatAssoc5(p, "[", f.relation.value, "][", f.field + "]");
      assert p + "[" + f.relation.value + "][" + f.field + "]" == p + "[" + f.relation.value + "][" + (f.field + "]");
    } else {
      ConcatAssoc5(p, "[", f.field, "]", OperatorSuffix(f.operator));
    }
  }

  /**
   * A logical group with k children gives k pairs, the pair at position j being child j's,
   * keyed under `filters[op][j]`.
   */
  lemma LogicalItemPairs(op: LogicalOperator, children: seq<Filter>)
    ensures |ItemPairs(Logical(op, children))| == |children|
    ensures forall j :: 0 <= j < |children| ==>
      ItemPairs(Logical(op, children))[j].0 == "filters" + Brackets([LogicalToken(op), NatToString(j)] + KeySegments(children[j]))
  {
    forall j | 0 <= j < |children|
      ensures ItemPairs(Logical(op, children))[j].0 == "filters" + Brackets([LogicalToken(op), NatToString(j)] + KeySegments(children[j]))
    {
      GroupChildKey(op, j, children[j]);
    }
  }

  /**
   * Values: an array is written as JSON text and anything else with `String`, except that a
   * group child with a relation writes an array with `String` too.
   */
  lemma ChildValues(op: LogicalOperator, j: nat, f: Filter)
    ensures !HasRelation(f) || !f.value.Array? ==> GroupChildPair(op, j, f).1 == FilterPair(f).1
    ensures HasRelation(f) && f.value.Array? && (forall i :: 0 <= i < |f.value.items| ==> f.value.items[i].SNum?)
        ==> FilterPair(f).1 == "[" + GroupChildPair(op, j, f).1 + "]"
  {
    if f.value.Array? && forall i :: 0 <= i < |f.value.items| ==> f.value.items[i].SNum? {
      NumberArrayTexts(f.value.items);
    }
  }

  // The order of the query

  lemma ItemPairsSection(item: FilterItem)
    ensures AllInSection(ItemPairs(item), 1)
  {
    match item
    case Plain(f) =>
      FilterPairKey(f);
      FiltersKeySection(KeySegments(f));
    case Logical(op, children) =>
      forall j | 0 <= j < |children|
        ensures Section(ItemPairs(item)[j].0) == 1
      {
        GroupChildKey(op, j, children[j]);
        FiltersKeySection([LogicalToken(op), NatToString(j)] + KeySegments(children[j]));
      }
  }

  lemma {:induction false} FilterPairsSection(items: seq<FilterItem>)
    ensures AllInSection(FilterPairs(items), 1)
  {
    if |items| > 0 {
      var n := |items| - 1;
      FilterPairsSection(items[..n]);
      ItemPairsSection(items[n]);
      AllInSectionConcat(FilterPairs(items[..n]), ItemPairs(items[n]), 1);
    }
  }

  /**
   * Sort pairs come first, then filter pairs, then pagination; nothing comes after pagination,
   * since this revision has no populate part.
   */
  lemma QueryPairsOrdered(settings: Settings)
    ensures InSectionOrder(QueryPairs(settings))
    ensures forall i :: 0 <= i < |QueryPairs(settings)| ==> Section(QueryPairs(settings)[i].0) <= 2
  {
    if settings.sort.Some? {
      SortPairsSection(settings.sort.value);
    }
    if settings.filters.Some? {
      FilterPairsSection(settings.filters.value);
    }
    PaginationSection(settings.pagination);
    var a, b, c := SortSection(settings.sort), FilterSection(settings.filters), PaginationPairs(settings.pagination);
    SectionsInOrder(a, b, c, []);
    assert a + b + c + [] == QueryPairs(settings);
  }

  // The later revision

  /** The same operator in the later revision, which has one more (`$like`). */
  function LiftOperator(op: ComparisonOperator): (r: Later.ComparisonOperator)
    ensures Later.ComparisonToken(r) == ComparisonToken(op)
    ensures r != Later.Like
  {
    match op
    case Eq => Later.Eq
    case Gt => Later.Gt
    case Gte => Later.Gte
    case In => Later.In
    case Lt => Later.Lt
    case Lte => Later.Lte
    case Null => Later.Null
  }

  function LiftFilter(f: Filter): Later.Filter
  {
    Later.Filter(f.field, if f.operator.Some? then Some(LiftOperator(f.operator.value)) else None, f.value, f.relation)
  }

  function LiftItem(item: FilterItem): Later.FilterItem
  {
    match item
    case Plain(f) => Later.Plain(LiftFilter(f))
    case Logical(op, children) => Later.Logical(op, LiftFilters(children))
  }

  function LiftFilters(children: seq<Filter>): seq<Later.Filter>
  {
    seq(|children|, j requires 0 <= j < |children| => LiftFilter(children[j]))
  }

  function LiftItems(items: seq<FilterItem>): seq<Later.FilterItem>
  {
    seq(|items|, i requires 0 <= i < |items| => LiftItem(items[i]))
  }

  /** The same settings for the later revision, without populate. */
  function LiftSettings(settings: Settings): Later.Settings
  {
    Later.Settings(settings.sort, if settings.filters.Some? then Some(LiftItems(settings.filters.value)) else None,
                   settings.pagination, None)
  }

  /** Every field named in an element of `filters` is free of dots. */
  predicate DotFree(item: FilterItem)
  {
    match item
    case Plain(f) => '.' !in f.field
    case Logical(_, children) => forall j :: 0 <= j < |children| ==> '.' !in children[j].field
  }

  /** For a field without dots both revisions write the same key segments. */
  lemma SameKeySegments(f: Filter)
    requires '.' !in f.field
    ensures Later.KeySegments(LiftFilter(f)) == KeySegments(f)
  {
    SplitWithoutSeparator(f.field, '.');
  }

  lemma SameFilterPair(f: Filter)
    requires '.' !in f.field
    ensures FilterPair(f) == Later.FilterPair(LiftFilter(f))
  {
    SameKeySegments(f);
    FilterPairKey(f);
    Later.FilterPairKey(LiftFilter(f));
  }

  lemma SameGroupChildPair(op: LogicalOperator, j: nat, f: Filter)
    requires '.' !in f.field
    ensures GroupChildPair(op, j, f) == Later.GroupChildPair(op, j, LiftFilter(f))
  {
    SameKeySegments(f);
    GroupChildKey(op, j, f);
    Later.GroupChildKey(op, j, LiftFilter(f));
  }

  lemma SameItemPairs(item: FilterItem)
    requires DotFree(item)
    ensures ItemPairs(item) == Later.ItemPairs(LiftItem(item))
  {
    match item
    case Plain(f) =>
      SameFilterPair(f);
    case Logical(op, children) =>
      forall j | 0 <= j < |children|
        ensures ItemPairs(item)[j] == Later.ItemPairs(LiftItem(item))[j]
      {
        SameGroupChildPair(op, j, children[j]);
      }
  }

  lemma {:induction false} SameFilterPairs(items: seq<FilterItem>)
    requires forall i :: 0 <= i < |items| ==> DotFree(items[i])
    ensures FilterPairs(items) == Later.FilterPairs(LiftItems(items))
  {
    if |items| > 0 {
      var n := |items| - 1;
      SameFilterPairs(items[..n]);
      SameItemPairs(items[n]);
      assert LiftItems(items)[..n] == LiftItems(items[..n]);
    }
  }

  /**
   * Without dotted fields the two revisions agree: the earlier one builds exactly the pairs the
   * later one builds for the same settings without populate.
   */
  lemma SameAsLaterRevision(settings: Settings)
    requires settings.filters.Some? ==>
      forall i :: 0 <= i < |settings.filters.value| ==> DotFree(settings.filters.value[i])
    ensures QueryPairs(settings) == Later.QueryPairs(LiftSettings(settings))
  {
    if settings.filters.Some? {
      SameFilterPairs(settings.filters.value);
    }
  }

  /**
   * With a dot in the field of a filter without a relation the revisions part: the earlier key
   * keeps the dot, the later key has none, as every dot opens a new bracket group there.
   */
  lemma DottedFieldKeys(f: Filter)
    requires !HasRelation(f) && '.' in f.field
    ensures '.' in FilterPair(f).0
    ensures '.' !in Later.FilterPair(LiftFilter(f)).0
    ensures FilterPair(f) != Later.FilterPair(LiftFilter(f))
  {
    var g := LiftFilter(f);
    Later.NestedFilterStringShape(f.field);
    ReplaceCharRemoves(f.field, '.', "][");
    if f.operator.Some? {
      var t := ComparisonToken(f.operator.value);
      assert '.' !in t;
    }
    assert Later.FilterPair(g).0 == "filters" + ("[" + ReplaceChar(f.field, '.', "][") + "]") + Later.OperatorSuffix(g.operator);
  }

  /** `center.id` with `$eq` is keyed `filters[center.id][$eq]`: the dot stays inside one bracket. */
  lemma DottedFieldKey()
    ensures FilterPair(Filter("center.id", Some(Eq), Num(123), None)).0 == "filters[center.id][$eq]"
  {
    assert "filters[" + "center.id" + "]" + ("[" + "$eq" + "]") == "filters[center.id][$eq]";
    assert OperatorSuffix(Some(Eq)) == "[" + "$eq" + "]";
  }

  /** The same filter is keyed `filters[center.id][$eq]` here and `filters[center][id][$eq]` in the later revision. */
  lemma DottedFieldExample()
    ensures FilterPair(Filter("center.id", Some(Eq), Num(123), None)).0 == "filters[center.id][$eq]"
    ensures Later.FilterPair(LiftFilter(Filter("center.id", Some(Eq), Num(123), None))).0 == "filters[center][id][$eq]"
  {
    DottedFieldKey();
    assert LiftFilter(Filter("center.id", Some(Eq), Num(123), None)) == Later.Filter("center.id", Some(Later.Eq), Num(123), None);
    Later.DottedFilterKey();
  }
}
