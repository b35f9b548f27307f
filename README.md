# query-builder in Dafny

A model of `queryBuilder`, the function of DDDASHXD/query-builder that turns a typed settings
record into the query string of a REST API with bracket-path filters. The settings hold
sort entries, filters, pagination and populate. Both revisions of the builder are modelled:

- the current one in `src/index.ts`, with its helper `getNestedFilterString`;
- the earlier one in `index.ts`.

Each revision appends `(name, value)` pairs to one `URLSearchParams` and returns its
`toString()`. The model does the same:

- `URLSearchParams` is a class whose `pairs: seq<(string, string)>` field grows by `Append`;
- `ToString` is a loop over those pairs.

Each builder is a method that runs the same passes as the source, in the same order:
sort, filters (plain filters and logical groups), pagination, and populate in the current
revision only. Each pass is proved to append exactly the pairs that a specification function
describes (`QueryPairs`). The lemmas then state what that pair list holds:

- the key of each filter, bracket group by bracket group;
- the value text of each filter;
- how many pairs each part gives, and the order of the parts;
- the values read back for each sort index and for pagination;
- the equivalence of the two forms of `populate`;
- where the two revisions agree and where they differ.

Modules:

- `Wrappers`: `Option`, plus two sequence associativity helpers.
- `Strings`: `join`, one-character `split`, character replacement, and the laws that connect them.
- `Decimal`: decimal text of integers (`String(n)`, `n.toString()`) and its parser.
- `JsValues`: the filter value union, `String(value)`, and `JSON.stringify` of an array of strings and numbers, including string escaping.
- `SearchParams`: the `URLSearchParams` class, and the application/x-www-form-urlencoded serializer of the WHATWG URL Standard (UTF-8, then percent-encoding with `+` for space). It also has the matching parser, used to prove that the serialized text reads back as the pair list.
- `QueryCommon`: what both revisions share. That covers the sort, logical-operator and pagination types; the sort and pagination passes; filter values; bracket groups; and the division of parameter names into the four parts of a query.
- `QueryBuilder`: `src/index.ts`.
- `LegacyQueryBuilder`: `index.ts`, with the lemmas that relate it to `QueryBuilder`.

Three behaviours of the code that are easy to misread:

- **Relation children of logical groups.** A child of a logical group that has a `relation` writes its value with `String(value)`, even for an array. A number array `[1,2]` is therefore written `1,2`, without the brackets the JSON text has (`src/index.ts:119-125`, `index.ts:103-107`).
- **Relations in the earlier revision.** The earlier revision does not replace the field by the relation. Its key is `filters[relation][field]`: the relation first, then the field in one bracket group with its dots kept (`index.ts:123-127`).
- **Empty `populate`.** A `populate` array is always truthy. An empty array gives the pair `populate=` with an empty value. An empty string is falsy and gives no pair (`src/index.ts:169-174`).

## Model

| member | source | states |
|---|---|---|
| QueryBuilder.QueryBuilder | src/index.ts:94-177 | the returned text is the urlencoded form of `QueryPairs(settings)`, and parsing it gives back exactly that pair list, duplicates and order included |
| QueryBuilder.AppendFilters | src/index.ts:108-157 | the filter pass appends the pairs of the elements of `filters`, element by element in input order |
| QueryBuilder.AppendFilterItem | src/index.ts:109-156 | one element appends one pair if it is a plain filter, and one pair per child, in child order, if it is a logical group |
| QueryBuilder.AppendPopulate | src/index.ts:169-174 | appends one `populate` pair exactly when populate is truthy: any array, joined with commas, or a non-empty string as it is |
| QueryCommon.AppendSort | src/index.ts:98-105 | appends `(sort[i], field)` for each entry in order, then `(sort[i], ":desc")` for a descending one; `index.ts:82-89` is the same code |
| QueryCommon.AppendPagination | src/index.ts:160-166 | appends `pagination[limit]` whenever pagination is given, then `pagination[offset]` exactly when the offset is a number; `index.ts:140-146` is the same code |
| QueryBuilder.LogicalGroupIff | src/index.ts:110-115 | the operator test treats an element as a logical group exactly when it is one; no comparison operator has the text `$and`, `$or` or `$not` |
| QueryBuilder.NestedFilterString | src/index.ts:70-75 | `getNestedFilterString`: the `.`-separated parts of the path, each in brackets, joined with nothing between; its closed form and length are stated by `NestedFilterStringShape`, the segment round trip by `NestedFilterStringSegments` |
| QueryBuilder.BracketsOfSplit | src/index.ts:71-74 | bracketing each `.`-separated part and joining them gives the whole path in one bracket pair, with every `.` turned into `][` |
| QueryBuilder.NestedFilterStringShape | src/index.ts:70-75 | `getNestedFilterString(field)` is `[` + field with each `.` replaced by `][` + `]`, so it is \|field\| + (number of dots) + 2 long |
| QueryBuilder.NestedFilterStringSegments | src/index.ts:70-75 | a path joined from dot-free segments gives one bracket group per segment, left to right, with nothing else |
| QueryBuilder.NestedFilterStringPlain | src/index.ts:70-75 | a field without dots gives `[field]` |
| QueryBuilder.NestedFilterStringCenterId | src/index.ts:67-68 | `center.id` gives `[center][id]` |
| QueryBuilder.FilterPairKey | src/index.ts:143-154 | a plain filter's key is `filters` then its groups: relation (if any), the path segments, and the operator only when there is no relation and one is set |
| QueryBuilder.GroupChildKey | src/index.ts:117-133 | the key of child j of a group is `filters[op][j]` followed by the child's groups, built by the same rule as a plain filter's |
| QueryBuilder.RelationDropsOperator | src/index.ts:143-147 | a filter with a non-empty relation gives the same pair whatever its operator, at the top level and inside a group |
| QueryBuilder.ChildValues | src/index.ts:119-137 | a group child writes its value as a top-level filter does, unless it has a relation and an array value; then a number array loses its JSON brackets |
| QueryBuilder.LogicalItemPairs | src/index.ts:117-139 | a group with k children gives exactly k pairs, the j-th keyed under `filters[op][j]` with child j's groups |
| QueryBuilder.GroupChildIndex | src/index.ts:118 | the key of child j starts with the prefix `filters[op][k]` of its group exactly when k = j |
| QueryBuilder.FilterPairsLength | src/index.ts:108-157 | the filters give one pair per plain filter plus one per child of each group |
| QueryBuilder.FilterPairCountZero | src/index.ts:108-157 | the filters give no pair exactly when every element is a logical group without children |
| QueryBuilder.FilterPairsConcat | src/index.ts:109-156 | the pairs of a concatenation of filter lists are the pairs of the first list followed by those of the second |
| QueryBuilder.QueryPairsOrdered | src/index.ts:95-176 | all sort pairs come first, then filter pairs, then pagination, then populate |
| QueryBuilder.QueryPairsLength | src/index.ts:95-176 | the number of pairs is the number of sort entries plus the descending ones, plus the filter pairs, plus 0, 1 or 2 for pagination, plus 1 for a truthy populate |
| QueryBuilder.NoPairs | src/index.ts:95-176 | the query is empty exactly when there is no sort entry, every filter element is an empty group, pagination is absent, and populate is absent or `""`; the text is then empty |
| QueryBuilder.PopulateForms | src/index.ts:169-174 | an array always gives one pair; an array and its comma join give the same pair exactly when the join is non-empty; `""` gives none |
| QueryBuilder.PopulateExample | src/index.ts:90 | `["department", "projects"]` and `"department,projects"` both give `populate=department,projects` |
| QueryBuilder.DottedFilterKey | src/index.ts:87 | the filter on `center.id` with `$eq` is keyed `filters[center][id][$eq]` |
| QueryBuilder.DottedFilterPair | src/index.ts:87 | that filter gives the pair `filters[center][id][$eq]` = `123` |
| QueryBuilder.DottedFilterExample | src/index.ts:87 | `center.id` with `$eq` and 123 gives the single pair `filters[center][id][$eq]` = `123` |
| QueryBuilder.DescendingSortExample | src/index.ts:101-103 | a descending sort on `title` gives `sort[0]=title` and then `sort[0]=:desc` |
| QueryBuilder.PaginationExample | src/index.ts:89 | `{ limit: 10 }` gives the single pair `pagination[limit]` = `10` |
| QueryBuilder.PaginationQueryText | src/index.ts:89 | `{ limit: 10 }` gives the query text `pagination%5Blimit%5D=10`, brackets percent-encoded |
| QueryCommon.SortPairsLength | src/index.ts:98-105 | one pair per ascending entry and two per descending entry |
| QueryCommon.SortPairsAt | src/index.ts:99-104 | reading name `sort[i]` gives entry i's field, then `:desc` exactly when entry i is descending; no other entry writes that name |
| QueryCommon.SortPairsBeyond | src/index.ts:99-104 | no pair is named `sort[i]` for an index past the end of the list |
| QueryCommon.SortEntryValues | src/index.ts:100-103 | one entry writes only under its own name `sort[i]`: the field, then `:desc` if descending |
| QueryCommon.SortKeyInjective | src/index.ts:100 | distinct positions give distinct sort names |
| QueryCommon.PaginationValues | src/index.ts:160-166 | the limit is read back whenever pagination is given; the offset exactly when it is a number, 0 included; 0, 1 or 2 pairs |
| QueryCommon.ValueText | src/index.ts:134-136 | the value text of a filter: JSON text, in brackets, for an array, and `String(value)` otherwise; the same rule at src/index.ts:146 and 152, and `ChildValues` states where a group child departs from it |
| SearchParams.URLSearchParams.constructor | src/index.ts:95 | a new parameter list is empty |
| SearchParams.URLSearchParams.Append | src/index.ts:100-102 | `append` adds the pair at the end and keeps any earlier pair with the same name |
| SearchParams.URLSearchParams.ToString | src/index.ts:176 | `toString` is the urlencoded serialization of the pairs, in order |
| SearchParams.SerializeRoundTrip | src/index.ts:176 | parsing the serialized text gives back the pair list |
| SearchParams.SerializeSeparators | src/index.ts:176 | the text has one `&` fewer than there are pairs |
| SearchParams.SerializeSingle | src/index.ts:176 | one pair is written as encoded name, `=`, encoded value |
| SearchParams.PairTextRoundTrip | src/index.ts:176 | a serialized pair is non-empty, has no `&`, and reads back as the pair |
| SearchParams.FormRoundTrip | src/index.ts:176 | an encoded name or value decodes to the original string |
| SearchParams.PercentRoundTrip | src/index.ts:176 | percent-encoded bytes decode to the same bytes |
| SearchParams.Utf8RoundTrip | src/index.ts:176 | UTF-8 decoding of the encoding of a string gives the string |
| SearchParams.Utf8Char | src/index.ts:176 | a character takes 1 to 4 bytes, 1 exactly for ASCII, and every byte after the first is a continuation byte |
| SearchParams.PercentEncode | src/index.ts:176 | encoded text holds only ASCII letters, digits, `*-._`, `%` and `+`, so no `&` or `=` |
| SearchParams.FormEncodeConcat | src/index.ts:176 | the encoding of a concatenation is the concatenation of the encodings |
| SearchParams.FormEncodeUnreserved | src/index.ts:176 | ASCII letters, digits and `*-._` are written unchanged |
| SearchParams.FormEncodeBracketed | src/index.ts:176 | a name `a[b]` with unreserved `a` and `b` is written `a%5Bb%5D` |
| SearchParams.SerializeBracketedPair | src/index.ts:176 | a single pair named `a[b]`, with unreserved parts and value, is written `a%5Bb%5D=v` |
| JsValues.ToJsString | src/index.ts:124 | `String(value)`: a number's text is non-empty and starts with `-` exactly for a negative number; a one-element array prints as its element, without brackets |
| JsValues.NumberTextRoundTrip | src/index.ts:136 | reading back `String(n)` for a number n gives n |
| JsValues.JsonArray | src/index.ts:135 | `JSON.stringify` of an array: text that opens with `[` and closes with `]`, exactly `[]` for an empty array; `JsonEscapeRoundTrip` and `NumberArrayTexts` state its contents |
| JsValues.JsonEscape | src/index.ts:135 | the escaped text of a string holds no control character |
| JsValues.JsonEscapeRoundTrip | src/index.ts:135 | the escaped body of a JSON string reads back as the original string |
| JsValues.NumberArrayTexts | src/index.ts:134-136 | for an array of numbers, `JSON.stringify` is `String` in brackets |
| Decimal.IntToString | src/index.ts:162-164 | `n.toString()`: non-empty, a leading `-` exactly for a negative number, and only digits after it; `IntToStringRoundTrip` reads it back |
| Decimal.NatToString | src/index.ts:100 | the decimal text of an index is non-empty, all digits, and starts with `0` only for 0 |
| Decimal.ParseNatToString | src/index.ts:100 | reading the decimal text of a natural number gives the number back |
| Decimal.IntToStringRoundTrip | src/index.ts:162-164 | reading `n.toString()` back gives n |
| Decimal.IntToStringInjective | src/index.ts:162-164 | distinct integers have distinct texts |
| Strings.Join | src/index.ts:71-74 | `.join(sep)`, also used for populate at src/index.ts:171: the parts with the separator between each two; `JoinSplit` and `SplitJoin` pair it with `Split` |
| Strings.Split | src/index.ts:72 | `.split(".")`: at least one part; `SplitCount`, `SplitPartsWithoutSeparator` and `JoinSplit` state the rest |
| Strings.JoinSplit | src/index.ts:71-74 | joining the parts of a split with the separator gives the text back |
| Strings.SplitJoin | src/index.ts:71-74 | splitting a join of separator-free parts gives the parts back |
| Strings.SplitCount | src/index.ts:72 | a split has one more part than the text has separators |
| Strings.SplitPartsWithoutSeparator | src/index.ts:72 | no part of a split contains the separator |
| LegacyQueryBuilder.QueryBuilder | index.ts:78-149 | the returned text is the urlencoded form of the earlier revision's `QueryPairs(settings)` and parses back to it |
| LegacyQueryBuilder.AppendFilters | index.ts:92-137 | the filter pass appends the pairs of the elements of `filters` in input order |
| LegacyQueryBuilder.AppendFilterItem | index.ts:93-136 | one pair per plain filter, and one per child, in order, for a logical group |
| LegacyQueryBuilder.LogicalGroupIff | index.ts:94-99 | an element is handled as a logical group exactly when it is one |
| LegacyQueryBuilder.FilterPairKey | index.ts:122-134 | the key is `filters[relation][field]` with a relation, else `filters[field]` plus `[operator]` when one is set; the field is one group, dots kept |
| LegacyQueryBuilder.GroupChildKey | index.ts:101-117 | the key of child j is `filters[op][j]` followed by the child's groups |
| LegacyQueryBuilder.LogicalItemPairs | index.ts:101-119 | a group with k children gives exactly k pairs, the j-th keyed under `filters[op][j]` |
| LegacyQueryBuilder.ChildValues | index.ts:103-117 | values as in the later revision: a relation child writes an array with `String` |
| LegacyQueryBuilder.QueryPairsOrdered | index.ts:79-148 | sort pairs, then filter pairs, then pagination, and nothing after pagination |
| LegacyQueryBuilder.LiftOperator | index.ts:14-21 | every earlier operator has the same token in the later revision, and none of them is `$like` |
| LegacyQueryBuilder.SameFilterPair | index.ts:122-134 | for a field without dots, a plain filter gives the same pair in both revisions |
| LegacyQueryBuilder.SameGroupChildPair | index.ts:101-117 | for a field without dots, a group child gives the same pair in both revisions |
| LegacyQueryBuilder.SameAsLaterRevision | index.ts:78-149 | when no field has a dot, the earlier revision builds exactly the pairs the later one builds for the same settings without populate |
| LegacyQueryBuilder.DottedFieldKeys | index.ts:128-133 | for a filter without relation whose field has a dot, the earlier key keeps the dot, the later key has none, so the pairs differ |
| LegacyQueryBuilder.DottedFieldKey | index.ts:131 | `center.id` with `$eq` is keyed `filters[center.id][$eq]`, the dot inside one bracket |
| LegacyQueryBuilder.DottedFieldExample | index.ts:131 | `center.id` with `$eq` is keyed `filters[center.id][$eq]` here and `filters[center][id][$eq]` in the later revision |

## Left out

- Numbers are modelled as integers written in decimal. JavaScript's formatting of other doubles is not modelled: fractions, exponent form from 1e21 up, `NaN`, `Infinity` and `-0`. This covers `limit.toString()`, `offset.toString()`, `String(value)` and the numbers inside `JSON.stringify`.
- Strings are sequences of Unicode scalar values. A JavaScript string can hold a lone surrogate; the serializer would replace it with U+FFFD and `JSON.stringify` would escape it. Neither case can be represented here.
- Filter values are the declared union of string, number, boolean, null and an array of strings and numbers. Other runtime values (`undefined`, objects, nested arrays) are not modelled.
- A `Filter` and a `LogicalFilter` are a tagged union. The source's duck-typed test (`"operator" in filter` and its value) is modelled as `IsLogicalGroup`, and `LogicalGroupIff` proves it agrees with the tag. Objects that fit neither interface cannot be represented.
- The parsers (`Parse`, `PercentDecode`, `Utf8Decode`, `JsonUnescape`, `ParseNat`, `ParseInt`) are not operations of the source. They are the reading side, used to state round trips.
- `GetAll` is the standard reading of a name's values. It is used only to state the sort and pagination properties.
- The source only reads its input and is deterministic; with an immutable value as input, both hold by construction and are not stated separately.
- `test.ts` is not part of this model: it prints results built from the current date and asserts nothing.
- The `export type` lists, and the comment example on line 1 of both files, are not modelled.
