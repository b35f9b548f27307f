/**
 * The query builder of `src/index.ts`. `QueryBuilder` appends the pairs of the settings to a
 * fresh `URLSearchParams` in four passes (sort, filters, pagination, populate) and returns its
 * urlencoded text; `QueryPairs` is the pair list it builds, stated as a function, and the
 * lemmas below state what that list holds.
 */
module QueryBuilder {

  import opened Wrappers
  import opened Strings
  import opened Decimal
  import opened JsValues
  import opened SearchParams
  import opened QueryCommon

  datatype ComparisonOperator = Eq | Gt | Gte | In | Lt | Lte | Null | Like

  function ComparisonToken(op: ComparisonOperator): string
  {
    match op
    case Eq => "$eq"
    case Gt => "$gt"
    case Gte => "$gte"
    case In => "$in"
    case Lt => "$lt"
    case Lte => "$lte"
    case Null => "$null"
    case Like => "$like"
  }

  datatype Filter = Filter(field: string, operator: Option<ComparisonOperator>, value: Value, relation: Option<string>)

  /** An element of `filters`: a plain filter, or a logical group of plain filters. */
  datatype FilterItem = Plain(filter: Filter) | Logical(op: LogicalOperator, filters: seq<Filter>)

  /** `populate`: a list of relation names, or one string already joined. */
  datatype Populate = Relations(names: seq<string>) | Joined(text: string)

  datatype Settings = Settings(
    sort: Option<seq<Sort>>,
    filters: Option<seq<FilterItem>>,
    pagination: Option<Pagination>,
    populate: Option<Populate>)

  // getNestedFilterString

  /** `getNestedFilterString`: the dot-separated segments of a field path, each in brackets. */
  function NestedFilterString(field: string): string
  {
    Brackets(Split(field, '.'))
  }

  /** An empty first part opens the bracket group as `[]`, which reads as `][` inside one group. */
  lemma BracketsPrependEmpty(parts: seq<string>, r: string)
    requires Brackets(parts) == "[" + r + "]"
    ensures Brackets([""] + parts) == "[" + ("][" + r) + "]"
  {
    BracketsCons("", parts);
    assert "[" + "" + "]" + ("[" + r + "]") == "[" + ("][" + r) + "]";
  }

  lemma BracketsSplitAtDot(s: string)
    requires |s| > 0 && s[0] == '.'
    requires Brackets(Split(s[1..], '.')) == "[" + ReplaceChar(s[1..], '.', "][") + "]"
    ensures Brackets(Split(s, '.')) == "[" + ReplaceChar(s, '.', "][") + "]"
  {
    assert Split(s, '.') == [""] + Split(s[1..], '.');
    assert ReplaceChar(s, '.', "][") == "][" + ReplaceChar(s[1..], '.', "][");
    BracketsPrependEmpty(Split(s[1..], '.'), ReplaceChar(s[1..], '.', "]["));
  }

  /** The text step behind `BracketsSplitAtChar`, over plain strings. */
  lemma PrependInFirstBracket(c: char, a: string, b: string, r: string)
    requires "[" + a + "]" + b == "[" + r + "]"
    ensures "[" + ([c] + a) + "]" + b == "[" + ([c] + r) + "]"
  {
    assert a + "]" + b == ("[" + a + "]" + b)[1..];
    assert ("[" + r + "]")[1..] == r + "]";
    assert "[" + ([c] + a) + "]" + b == "[" + [c] + (a + "]" + b);
  }

  /** Prepending a character to the first part prepends it inside the first bracket group. */
  lemma BracketsPrependFirst(c: char, parts: seq<string>, r: string)
    requires |parts| >= 1
    requires Brackets(parts) == "[" + r + "]"
    ensures Brackets([[c] + parts[0]] + parts[1..]) == "[" + ([c] + r) + "]"
  {
    assert parts == [parts[0]] + parts[1..];
    BracketsCons(parts[0], parts[1..]);
    PrependInFirstBracket(c, parts[0], Brackets(parts[1..]), r);
    BracketsCons([c] + parts[0], parts[1..]);
  }

  lemma BracketsSplitAtChar(s: string)
    requires |s| > 0 && s[0] != '.'
    requires Brackets(Split(s[1..], '.')) == "[" + ReplaceChar(s[1..], '.', "][") + "]"
    ensures Brackets(Split(s, '.')) == "[" + ReplaceChar(s, '.', "][") + "]"
  {
    var rest := Split(s[1..], '.');
    assert Split(s, '.') == [[s[0]] + rest[0]] + rest[1..];
    assert ReplaceChar(s, '.', "][") == [s[0]] + ReplaceChar(s[1..], '.', "][");
    BracketsPrependFirst(s[0], rest, ReplaceChar(s[1..], '.', "]["));
  }

  lemma {:induction false} BracketsOfSplit(s: string)
    ensures Brackets(Split(s, '.')) == "[" + ReplaceChar(s, '.', "][") + "]"
  {
    if |s| == 0 {
      assert Split(s, '.')[1..] == [];
    } else {
      BracketsOfSplit(s[1..]);
      if s[0] == '.' {
        BracketsSplitAtDot(s);
      } else {
        BracketsSplitAtChar(s);
      }
    }
  }

  /**
   * The nested form of a path is the path in one pair of brackets with every `.` turned into
   * `][`; so it is |field| + (number of dots) + 2 characters long.
   */
  lemma NestedFilterStringShape(field: string)
    ensures NestedFilterString(field) == "[" + ReplaceChar(field, '.', "][") + "]"
    ensures |NestedFilterString(field)| == |field| + Count(field, '.') + 2
  {
    BracketsOfSplit(field);
    ReplaceCharLength(field, '.', "][");
  }

  /** The segments of a dotted path come out one bracket group each, left to right. */
  lemma NestedFilterStringSegments(segments: seq<string>)
    requires |segments| >= 1
    requires forall i :: 0 <= i < |segments| ==> '.' !in segments[i]
    ensures NestedFilterString(Join(segments, ".")) == Brackets(segments)
  {
    SplitJoin(segments, '.');
  }

  /** A path without dots gives one bracket group. */
  lemma NestedFilterStringPlain(field: string)
    requires '.' !in field
    ensures NestedFilterString(field) == "[" + field + "]"
  {
    SplitWithoutSeparator(field, '.');
    assert [field][1..] == [];
    assert Brackets([field]) == "[" + field + "]" + Brackets([]);
  }

  lemma JoinCenterId()
    ensures Join(["center", "id"], ".") == "center.id"
  {
    assert Join(["center", "id"], ".") == "center" + "." + Join(["id"], ".");
  }

  lemma BracketsCenterId()
    ensures Brackets(["center", "id"]) == "[center][id]"
  {
    BracketsCons("center", ["id"]);
    BracketsCons("id", []);
  }

  /** The example of the source's documentation: `"center.id"` becomes `[center][id]`. */
  lemma NestedFilterStringCenterId()
    ensures NestedFilterString("center.id") == "[center][id]"
  {
    JoinCenterId();
    BracketsCenterId();
    NestedFilterStringSegments(["center", "id"]);
  }

  // Plain filters and logical groups

  /** `if (f.relation)`: a relation counts only when it is a non-empty string. */
  predicate HasRelation(f: Filter)
  {
    f.relation.Some? && f.relation.value != ""
  }

  /** `[operator]` when an operator is set, nothing otherwise. */
  function OperatorSuffix(op: Option<ComparisonOperator>): string
  {
    if op.Some? then "[" + ComparisonToken(op.value) + "]" else ""
  }

  /** The pair of a plain filter at the top level of `filters`. */
  function FilterPair(f: Filter): Pair
  {
    if HasRelation(f) then
      ("filters[" + f.relation.value + "]" + NestedFilterString(f.field), ValueText(f.value))
    else
      ("filters" + NestedFilterString(f.field) + OperatorSuffix(f.operator), ValueText(f.value))
  }

  /** The pair of the child at index `j` of a logical group; a child with a relation uses `String(value)`. */
  function GroupChildPair(op: LogicalOperator, j: nat, f: Filter): Pair
  {
    if HasRelation(f) then
      (GroupKeyPrefix(op, j) + "[" + f.relation.value + "]" + NestedFilterString(f.field), ToJsString(f.value))
    else
      (GroupKeyPrefix(op, j) + NestedFilterString(f.field) + OperatorSuffix(f.operator), ValueText(f.value))
  }

  function GroupPairs(op: LogicalOperator, children: seq<Filter>): seq<Pair>
  {
    seq(|children|, j requires 0 <= j < |children| => GroupChildPair(op, j, children[j]))
  }

  /** The value of `filter.operator` for an element of `filters`, `None` when it has none. */
  function ItemOperator(item: FilterItem): Option<string>
  {
    match item
    case Plain(f) => if f.operator.Some? then Some(ComparisonToken(f.operator.value)) else None
    case Logical(op, _) => Some(LogicalToken(op))
  }

  /** The test the builder uses: `"operator" in filter` and the operator is `$and`, `$or` or `$not`. */
  predicate IsLogicalGroup(item: FilterItem)
  {
    var op := ItemOperator(item);
    op.Some? && (op.value == "$and" || op.value == "$or" || op.value == "$not")
  }

  function ItemPairs(item: FilterItem): seq<Pair>
  {
    match item
    case Plain(f) => [FilterPair(f)]
    case Logical(op, children) => GroupPairs(op, children)
  }

  function FilterPairs(items: seq<FilterItem>): seq<Pair>
  {
    if |items| == 0 then []
    else FilterPairs(items[..|items| - 1]) + ItemPairs(items[|items| - 1])
  }

  lemma FilterPairsSnoc(items: seq<FilterItem>, i: nat)
    requires i < |items|
    ensures FilterPairs(items[..i + 1]) == FilterPairs(items[..i]) + ItemPairs(items[i])
  {
    assert items[..i + 1][..i] == items[..i];
  }

  /** `if (settings.filters?.length)` */
  function FilterSection(filters: Option<seq<FilterItem>>): seq<Pair>
  {
    if filters.Some? && |filters.value| > 0 then FilterPairs(filters.value) else []
  }

  // What the pairs of the filters hold

  /**
   * The bracket groups of a filter's key after `filters`, in order: the relation when there is
   * one, then the segments of the field path, then the operator when there is no relation and
   * one is set.
   */
  function KeySegments(f: Filter): (segments: seq<string>)
    ensures |segments| >= 1
  {
    (if HasRelation(f) then [f.relation.value] else [])
    + Split(f.field, '.')
    + (if !HasRelation(f) && f.operator.Some? then [ComparisonToken(f.operator.value)] else [])
  }

  lemma OperatorSuffixBrackets(op: Option<ComparisonOperator>)
    ensures OperatorSuffix(op) == Brackets(if op.Some? then [ComparisonToken(op.value)] else [])
  {
    if op.Some? {
      BracketsCons(ComparisonToken(op.value), []);
    }
  }

  /** The groups after `filters` (or after a group's index) are those of `KeySegments`. */
  lemma KeyTail(f: Filter)
    ensures Brackets(KeySegments(f))
         == if HasRelation(f) then "[" + f.relation.value + "]" + NestedFilterString(f.field)
            else NestedFilterString(f.field) + OperatorSuffix(f.operator)
  {
    var rel := if HasRelation(f) then [f.relation.value] else [];
    var path := Split(f.field, '.');
    var op := if !HasRelation(f) && f.operator.Some? then [ComparisonToken(f.operator.value)] else [];
    BracketsConcat(rel + path, op);
    BracketsConcat(rel, path);
    if HasRelation(f) {
      BracketsCons(f.relation.value, []);
      assert op == [];
    } else {
      assert rel + path == path;
      OperatorSuffixBrackets(f.operator);
    }
  }

  /**
   * The key of a plain filter is `filters` followed by its key segments, each in brackets: with
   * a relation, `filters[relation][a][b]…` and no operator; without one, `filters[a][b]…` and
   * `[operator]` exactly when an operator is set.
   */
  lemma FilterPairKey(f: Filter)
    ensures FilterPair(f).0 == "filters" + Brackets(KeySegments(f))
  {
    KeyTail(f);
    if HasRelation(f) {
      assert "filters[" == "filters" + "[";
      ConcatAssoc5("filters", "[", f.relation.value, "]", NestedFilterString(f.field));
    }
  }

  /**
   * The key of the child at index `j` of a logical group is `filters`, the group's operator and
   * `j` in brackets, then the child's own key segments.
   */
  lemma GroupChildKey(op: LogicalOperator, j: nat, f: Filter)
    ensures GroupChildPair(op, j, f).0 == "filters" + Brackets([LogicalToken(op), NatToString(j)] + KeySegments(f))
  {
    GroupChildTail(op, j, f);
    GroupKeyPrefixBrackets(op, j);
    BracketsConcat([LogicalToken(op), NatToString(j)], KeySegments(f));
    ConcatAssoc("filters", Brackets([LogicalToken(op), NatToString(j)]), Brackets(KeySegments(f)));
  }

  /** The key of a group child is the group's prefix `filters[op][j]` followed by the child's own groups. */
  lemma GroupChildTail(op: LogicalOperator, j: nat, f: Filter)
    ensures GroupChildPair(op, j, f).0 == GroupKeyPrefix(op, j) + Brackets(KeySegments(f))
  {
    KeyTail(f);
    var p := GroupKeyPrefix(op, j);
    var n := NestedFilterString(f.field);
    if HasRelation(f) {
      ConcatAssoc5(p, "[", f.relation.value, "]", n);
    } else {
      ConcatAssoc(p, n, OperatorSuffix(f.operator));
    }
  }

  /** A filter with a relation gives the same pair whatever its operator is. */
  lemma RelationDropsOperator(f: Filter, op: Option<ComparisonOperator>, g: LogicalOperator, j: nat)
    requires HasRelation(f)
    ensures FilterPair(f.(operator := op)) == FilterPair(f)
    ensures GroupChildPair(g, j, f.(operator := op)) == GroupChildPair(g, j, f)
  {
  }

  /**
   * Values: a group child without a relation writes its value as a top-level filter does, and so
   * does any filter whose value is not an array. A group child with a relation writes an array
   * with `String`, so a number array loses the brackets its top-level form has.
   */
  lemma ChildValues(op: LogicalOperator, j: nat, f: Filter)
    ensures !HasRelation(f) || !f.value.Array? ==> GroupChildPair(op, j, f).1 == FilterPair(f).1
    ensures HasRelation(f) && f.value.Array? && (forall i :: 0 <= i < |f.value.items| ==> f.value.items[i].SNum?)
        ==> FilterPair(f).1 == "[" + GroupChildPair(op, j, f).1 + "]"
  {
    if f.value.Array? && forall i :: 0 <= i < |f.value.items| ==> f.value.items[i].SNum? {
      NumberArrayTexts(f.value.items);
    }
  }

  /**
   * A logical group with k children gives k pairs, the pair at position j being child j's, with
   * its key under `filters[op][j]`.
   */
  lemma LogicalItemPairs(op: LogicalOperator, children: seq<Filter>)
    ensures |ItemPairs(Logical(op, children))| == |children|
    ensures forall j :: 0 <= j < |children| ==>
      ItemPairs(Logical(op, children))[j].0 == "filters" + Brackets([LogicalToken(op), NatToString(j)] + KeySegments(children[j]))
  {
    forall j | 0 <= j < |children|
      ensures ItemPairs(Logical(op, children))[j].0 == "filters" + Brackets([LogicalToken(op), NatToString(j)] + KeySegments(children[j]))
    {
      GroupChildKey(op, j, children[j]);
    }
  }

  /**
   * The index in a child's key names that child: the key of child j begins with the prefix
   * `filters[op][k]` of the same group exactly when k is j.
   */
  lemma GroupChildIndex(op: LogicalOperator, j: nat, k: nat, f: Filter)
    ensures HasPrefix(GroupChildPair(op, j, f).0, GroupKeyPrefix(op, k)) <==> j == k
  {
    var head := "filters[" + LogicalToken(op) + "][";
    var tail := Brackets(KeySegments(f));
    GroupChildSplit(op, j, f);
    if HasPrefix(GroupChildPair(op, j, f).0, GroupKeyPrefix(op, k)) {
      assert GroupKeyPrefix(op, k) == head + (NatToString(k) + "]");
      HasPrefixCancel(head, NatToString(j) + "]" + tail, NatToString(k) + "]");
      DigitsBeforeBracket(NatToString(k), NatToString(j), tail);
      NatToStringInjective(j, k);
    }
  }

  /** The key of a group child, cut after the head `filters[op][`. */
  lemma GroupChildSplit(op: LogicalOperator, j: nat, f: Filter)
    ensures GroupChildPair(op, j, f).0 == "filters[" + LogicalToken(op) + "][" + (NatToString(j) + "]" + Brackets(KeySegments(f)))
  {
    GroupChildTail(op, j, f);
    var h, d, t := "filters[" + LogicalToken(op) + "][", NatToString(j), Brackets(KeySegments(f));
    assert GroupKeyPrefix(op, j) == h + d + "]";
    assert (h + d + "]") + t == h + (d + "]" + t);
  }

  /** The number of pairs one element of `filters` gives. */
  function ItemPairCount(item: FilterItem): nat
  {
    match item
    case Plain(_) => 1
    case Logical(_, children) => |children|
  }

  function FilterPairCount(items: seq<FilterItem>): nat
  {
    if |items| == 0 then 0 else FilterPairCount(items[..|items| - 1]) + ItemPairCount(items[|items| - 1])
  }

  /** One pair per plain filter and one per child of each logical group. */
  lemma {:induction false} FilterPairsLength(items: seq<FilterItem>)
    ensures |FilterPairs(items)| == FilterPairCount(items)
  {
    if |items| > 0 {
      FilterPairsLength(items[..|items| - 1]);
      if items[|items| - 1].Logical? {
        LogicalItemPairs(items[|items| - 1].op, items[|items| - 1].filters);
      }
    }
  }

  /** No pairs come from filters exactly when every element is a logical group without children. */
  lemma {:induction false} FilterPairCountZero(items: seq<FilterItem>)
    ensures FilterPairCount(items) == 0
        <==> forall i :: 0 <= i < |items| ==> items[i].Logical? && items[i].filters == []
  {
    if |items| > 0 {
      var n := |items| - 1;
      FilterPairCountZero(items[..n]);
      assert forall i :: 0 <= i < n ==> items[..n][i] == items[i];
    }
  }

  // Populate

  /** `if (settings.populate)`: any array, even an empty one, is truthy; a string only when non-empty. */
  predicate PopulateTruthy(p: Populate)
  {
    match p
    case Relations(_) => true
    case Joined(text) => text != ""
  }

  function PopulateValue(p: Populate): string
  {
    match p
    case Relations(names) => Join(names, ",")
    case Joined(text) => text
  }

  function PopulatePairs(p: Option<Populate>): seq<Pair>
  {
    if p.Some? && PopulateTruthy(p.value) then [("populate", PopulateValue(p.value))] else []
  }

  /** Every pair the builder appends, in the order it appends them. */
  function QueryPairs(settings: Settings): seq<Pair>
  {
    SortSection(settings.sort) + FilterSection(settings.filters)
    + PaginationPairs(settings.pagination) + PopulatePairs(settings.populate)
  }

  /** The pairs of a list of filters are those of its first part, then those of the rest. */
  lemma FilterPairsAppend(items: seq<FilterItem>, item: FilterItem)
    ensures FilterPairs(items + [item]) == FilterPairs(items) + ItemPairs(item)
  {
    assert (items + [item])[..|items|] == items;
  }

  lemma {:induction false} FilterPairsConcat(a: seq<FilterItem>, b: seq<FilterItem>)
    ensures FilterPairs(a + b) == FilterPairs(a) + FilterPairs(b)
  {
    if |b| == 0 {
      assert a + b == a;
    } else {
      var init, last := b[..|b| - 1], b[|b| - 1];
      assert b == init + [last];
      assert a + b == (a + init) + [last];
      FilterPairsConcat(a, init);
      FilterPairsAppend(a + init, last);
      FilterPairsAppend(init, last);
      ConcatAssoc(FilterPairs(a), FilterPairs(init), ItemPairs(last));
    }
  }

  // The order of the whole query

  lemma ItemPairsSection(item: FilterItem)
    ensures AllInSection(ItemPairs(item), 1)
  {
    match item
    case Plain(f) =>
      FilterPairKey(f);
      FiltersKeySection(KeySegments(f));
    case Logical(op, children) =>
      forall j | 0 <= j < |children|
        ensures Section(ItemPairs(item)[j].0) == 1
      {
        GroupChildKey(op, j, children[j]);
        FiltersKeySection([LogicalToken(op), NatToString(j)] + KeySegments(children[j]));
      }
  }

  lemma {:induction false} FilterPairsSection(items: seq<FilterItem>)
    ensures AllInSection(FilterPairs(items), 1)
  {
    if |items| > 0 {
      var n := |items| - 1;
      FilterPairsSection(items[..n]);
      ItemPairsSection(items[n]);
      AllInSectionConcat(FilterPairs(items[..n]), ItemPairs(items[n]), 1);
    }
  }

  lemma PopulateSection(p: Option<Populate>)
    ensures AllInSection(PopulatePairs(p), 3)
  {
    var name := "populate";
    assert name[0] != "sort["[0] && name[0] != "filters["[0];
    assert !HasPrefix(name, "pagination[");
  }

  /**
   * The query holds its sort pairs first, then the filter pairs, then pagination, then
   * populate: no pair belongs to an earlier part than a pair before it.
   */
  lemma QueryPairsOrdered(settings: Settings)
    ensures InSectionOrder(QueryPairs(settings))
  {
    if settings.sort.Some? {
      SortPairsSection(settings.sort.value);
    }
    if settings.filters.Some? {
      FilterPairsSection(settings.filters.value);
    }
    PaginationSection(settings.pagination);
    PopulateSection(settings.populate);
    SectionsInOrder(SortSection(settings.sort), FilterSection(settings.filters),
                    PaginationPairs(settings.pagination), PopulatePairs(settings.populate));
  }

  /** How many pairs the query holds, part by part. */
  lemma QueryPairsLength(settings: Settings)
    ensures |QueryPairs(settings)|
         == (if settings.sort.Some? then |settings.sort.value| + DescCount(settings.sort.value) else 0)
          + (if settings.filters.Some? then FilterPairCount(settings.filters.value) else 0)
          + (if settings.pagination.None? then 0 else if settings.pagination.value.offset.None? then 1 else 2)
          + (if settings.populate.Some? && PopulateTruthy(settings.populate.value) then 1 else 0)
  {
    if settings.sort.Some? {
      SortPairsLength(settings.sort.value);
    }
    if settings.filters.Some? {
      FilterPairsLength(settings.filters.value);
    }
    PaginationValues(settings.pagination);
  }

  /**
   * The query is empty exactly when there is no sort entry, every element of `filters` is a
   * logical group without children, pagination is absent and populate is absent or the empty
   * string; its text is then empty.
   */
  lemma NoPairs(settings: Settings)
    ensures QueryPairs(settings) == []
        <==> ((settings.sort.None? || settings.sort.value == [])
              && (settings.filters.None?
                  || forall i :: 0 <= i < |settings.filters.value| ==>
                       settings.filters.value[i].Logical? && settings.filters.value[i].filters == [])
              && settings.pagination.None?
              && (settings.populate.None? || settings.populate.value == Joined("")))
    ensures QueryPairs(settings) == [] ==> Serialize(QueryPairs(settings)) == ""
  {
    QueryPairsLength(settings);
    if settings.filters.Some? {
      FilterPairCountZero(settings.filters.value);
    }
  }

  // Populate and examples

  /**
   * A list of relation names and the same names joined with commas give the same pair unless
   * the joined text is empty: a list always gives one pair, even an empty list, and the empty
   * string gives none.
   */
  lemma PopulateForms(names: seq<string>)
    ensures |PopulatePairs(Some(Relations(names)))| == 1
    ensures PopulatePairs(Some(Relations(names))) == PopulatePairs(Some(Joined(Join(names, ","))))
        <==> Join(names, ",") != ""
    ensures PopulatePairs(Some(Joined(""))) == []
  {
  }

  lemma PopulateExample()
    ensures PopulatePairs(Some(Relations(["department", "projects"])))
         == PopulatePairs(Some(Joined("department,projects")))
         == [("populate", "department,projects")]
  {
    assert ["department", "projects"][1..] == ["projects"];
    assert Join(["department", "projects"], ",") == "department" + "," + Join(["projects"], ",");
    assert "department" + "," + "projects" == "department,projects";
  }

  lemma NatToString123()
    ensures IntToString(123) == "123"
  {
    assert NatToString(1) == "1";
    assert NatToString(12) == NatToString(1) + "2";
    assert NatToString(123) == NatToString(12) + "3";
  }

  lemma DottedFilterKey()
    ensures FilterPair(Filter("center.id", Some(Eq), Num(123), None)).0 == "filters[center][id][$eq]"
  {
    assert "filters" + "[center][id]" + ("[" + "$eq" + "]") == "filters[center][id][$eq]";
    NestedFilterStringCenterId();
    assert OperatorSuffix(Some(Eq)) == "[" + "$eq" + "]";
  }

  /** The filter on `center.id` with `$eq` and 123 gives the pair `filters[center][id][$eq]=123`. */
  lemma DottedFilterPair()
    ensures FilterPair(Filter("center.id", Some(Eq), Num(123), None)) == ("filters[center][id][$eq]", "123")
  {
    var f := Filter("center.id", Some(Eq), Num(123), None);
    DottedFilterKey();
    NatToString123();
    assert FilterPair(f).1 == ToJsString(Num(123)) == IntToString(123);
  }

  /** A query with only that filter holds exactly its one pair. */
  lemma DottedFilterExample()
    ensures QueryPairs(Settings(None, Some([Plain(Filter("center.id", Some(Eq), Num(123), None))]), None, None))
         == [("filters[center][id][$eq]", "123")]
  {
    var f := Filter("center.id", Some(Eq), Num(123), None);
    DottedFilterPair();
    assert [Plain(f)][..0] == [];
    assert FilterPairs([Plain(f)]) == [FilterPair(f)];
    assert QueryPairs(Settings(None, Some([Plain(f)]), None, None)) == [] + FilterPairs([Plain(f)]) + [] + [];
  }



  /** A descending sort entry gives two pairs under `sort[0]`: its field, then `:desc`. */
  lemma DescendingSortExample()
    ensures QueryPairs(Settings(Some([Sort("title", Desc)]), None, None, None))
         == [("sort[0]", "title"), ("sort[0]", ":desc")]
  {
    var s := [Sort("title", Desc)];
    assert NatToString(0) == "0";
    assert s[..0] == [];
    assert SortPairs(s) == SortEntryPairs(0, s[0]);
    assert SortKey(0) == "sort[0]";
    assert ":" + OrderToken(Desc) == ":desc";
  }

  /** Pagination with limit 10 and no offset gives the one pair `pagination[limit]=10`. */
  lemma PaginationExample()
    ensures QueryPairs(Settings(None, None, Some(Pagination(10, None)), None)) == [("pagination[limit]", "10")]
  {
    assert NatToString(10) == NatToString(1) + [DigitChar(0)];
    assert IntToString(10) == "10";
    assert PaginationPairs(Some(Pagination(10, None))) == [("pagination[limit]", IntToString(10))];
  }

  lemma PaginationPartsUnreserved()
    ensures forall i :: 0 <= i < |"pagination"| ==> IsUnreservedChar("pagination"[i])
    ensures forall i :: 0 <= i < |"limit"| ==> IsUnreservedChar("limit"[i])
    ensures forall i :: 0 <= i < |"10"| ==> IsUnreservedChar("10"[i])
  {
  }

  /** The settings `{ pagination: { limit: 10 } }` serialize to `pagination%5Blimit%5D=10`. */
  lemma PaginationQueryText()
    ensures Serialize(QueryPairs(Settings(None, None, Some(Pagination(10, None)), None)))
         == "pagination%5Blimit%5D=10"
  {
    assert "pagination" + "[" + "limit" + "]" == "pagination[limit]";
    assert "pagination" + "%5B" + "limit" + "%5D=" + "10" == "pagination%5Blimit%5D=10";
    PaginationExample();
    PaginationPartsUnreserved();
    SerializeBracketedPair("pagination", "limit", "10");
  }

  /**
   * `queryBuilder`: appends the pairs to one `URLSearchParams` and returns its text, from which
   * the urlencoded parser recovers exactly `QueryPairs(settings)`.
   */
  method QueryBuilder(settings: Settings) returns (query: string)
    ensures query == Serialize(QueryPairs(settings))
    ensures Parse(query) == Some(QueryPairs(settings))
  {
    var params := new URLSearchParams();

    // Sorting
    if settings.sort.Some? && |settings.sort.value| > 0 {
      AppendSort(params, settings.sort.value);
    }
    assert params.pairs == SortSection(settings.sort);

    // Filtering
    if settings.filters.Some? && |settings.filters.value| > 0 {
      AppendFilters(params, settings.filters.value);
    }
    AppendPagination(params, settings.pagination);
    AppendPopulate(params, settings.populate);
    assert params.pairs == QueryPairs(settings);

    query := params.ToString();
    SerializeRoundTrip(QueryPairs(settings));
  }

  /** The populate pass: a list is joined with commas, a string is used as it is. */
  method AppendPopulate(params: URLSearchParams, populate: Option<Populate>)
    modifies params
    ensures params.pairs == old(params.pairs) + PopulatePairs(populate)
  {
    if populate.Some? && PopulateTruthy(populate.value) {
      var populateValue := match populate.value
        case Relations(names) => Join(names, ",")
        case Joined(text) => text;
      params.Append("populate", populateValue);
    }
  }

  /** The filter pass: the elements of `filters` in order. */
  method AppendFilters(params: URLSearchParams, filters: seq<FilterItem>)
    modifies params
    ensures params.pairs == old(params.pairs) + FilterPairs(filters)
  {
    ghost var start := params.pairs;
    var i := 0;
    while i < |filters|
      invariant 0 <= i <= |filters|
      invariant params.pairs == start + FilterPairs(filters[..i])
    {
      ghost var done := FilterPairs(filters[..i]);
      AppendFilterItem(params, filters[i]);
      FilterPairsSnoc(filters, i);
      assert start + done + ItemPairs(filters[i]) == start + (done + ItemPairs(filters[i]));
      i := i + 1;
    }
    assert filters[..i] == filters;
  }

  /** One element of `filters`: its one pair, or one pair per child of a logical group. */
  method AppendFilterItem(params: URLSearchParams, filter: FilterItem)
    modifies params
    ensures params.pairs == old(params.pairs) + ItemPairs(filter)
  {
    LogicalGroupIff(filter);
    if IsLogicalGroup(filter) {
      var op, subFilters := filter.op, filter.filters;
      var subIndex := 0;
      while subIndex < |subFilters|
        invariant 0 <= subIndex <= |subFilters|
        invariant params.pairs == old(params.pairs) + GroupPairs(op, subFilters[..subIndex])
      {
        var subFilter := subFilters[subIndex];
        var filterKey := GroupKeyPrefix(op, subIndex);
        if HasRelation(subFilter) {
          params.Append(filterKey + "[" + subFilter.relation.value + "]" + NestedFilterString(subFilter.field),
                        ToJsString(subFilter.value));
        } else {
          var operatorStr := OperatorSuffix(subFilter.operator);
          params.Append(filterKey + NestedFilterString(subFilter.field) + operatorStr, ValueText(subFilter.value));
        }
        assert GroupPairs(op, subFilters[..subIndex + 1])
            == GroupPairs(op, subFilters[..subIndex]) + [GroupChildPair(op, subIndex, subFilter)];
        subIndex := subIndex + 1;
      }
      assert subFilters[..subIndex] == subFilters;
    } else {
      var f := filter.filter;
      if HasRelation(f) {
        params.Append("filters[" + f.relation.value + "]" + NestedFilterString(f.field), ValueText(f.value));
      } else {
        var operatorStr := OperatorSuffix(f.operator);
        params.Append("filters" + NestedFilterString(f.field) + operatorStr, ValueText(f.value));
      }
    }
  }

  /**
   * An element is handled as a logical group exactly when it is one: no comparison operator
   * has the text of a logical one.
   */
  lemma LogicalGroupIff(item: FilterItem)
    ensures IsLogicalGroup(item) <==> item.Logical?
  {
    if item.Plain? && item.filter.operator.Some? {
      var t := ComparisonToken(item.filter.operator.value);
      assert t[1] != "$and"[1] || |t| != 4;
      assert t[1] != "$or"[1] || |t| != 3;
      assert t[1] != "$not"[1] || |t| != 4;
    }
  }
}
