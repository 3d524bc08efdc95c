# TDI table schema: field resolution

A Dafny model of the field-resolution layer of TDI's `TableInfo`
(`src/tdi_json_parser/tdi_table_info.cpp`). A table schema holds key fields,
common data fields and actions, and each action has data fields of its own.
Data fields can be containers that hold further data fields. The layer answers
read-only questions about that schema:

- which key field ids exist, in ascending order;
- which id a key field name resolves to, with sentinel `0` for an unknown name;
- which key field an id names, or null;
- which data field ids are visible under an action, sorted, with duplicates kept;
- which data field an (id, action) pair names, where the action's field overrides the common one;
- where a field id or name lives inside nested containers, following an optional container-id path (the disabled `getDataField`/`getDataFieldHelper` code).

The schema is an immutable value: `Schema.TableInfo` and the datatypes beside
it. Each `std::map` of the source is an `IdMap` or `NameMap`, a sequence of
entries in iteration order. `std::map`'s own guarantee is that keys are unique
and ascending. The model states that as `IdKeysAscending` / `NameKeysAscending`
and assumes it only in the lemmas that need it. The two vector-building
queries are methods: a `push_back` loop (`Schema.PushBackKeys`) followed by an
insertion sort over an array (`Sorting.Sort`). The lookups are functions. The
container search is a pair of mutually recursive functions:
`GetDataFieldHelper`, and `SearchContainers` for its loop over sibling
entries. The same pair exists by name.

Files: `types.dfy` (Option, Id, Status), `string_order.dfy` (std::string
ordering), `annotations.dfy`, `schema.dfy`, `sorting.dfy`, `key_fields.dfy`,
`data_fields.dfy`, `containers.dfy` (the recursive search),
`nested_lookup.dfy` (the `getDataField` entry points).

## Model

| member | source | states |
|---|---|---|
| StringOrder.LexLess | src/tdi_json_parser/tdi_table_info.cpp:31 | `std::string` ordering: a string is never less than itself, and a proper prefix is less than the longer string |
| Annotations.Less | src/tdi_json_parser/tdi_table_info.cpp:30-32 | `operator<` compares the full names; annotations it orders are distinct and are not ordered the other way |
| Annotations.Equals | src/tdi_json_parser/tdi_table_info.cpp:33-35 | `operator==` on annotations holds exactly for the same annotation value |
| Annotations.EqualsString | src/tdi_json_parser/tdi_table_info.cpp:36-38 | `operator==` against a string holds exactly when the annotation is the one built from that string |
| Annotations.LessIsStrictTotalOrder | src/tdi_json_parser/tdi_table_info.cpp:30-32 | `operator<` on annotations is irreflexive, asymmetric, transitive and total up to equal names, so it can key a sorted set |
| Annotations.EqualsIffIncomparable | src/tdi_json_parser/tdi_table_info.cpp:30-35 | two annotations are `==` exactly when neither is `<` the other |
| Annotations.EqualsAgreesWithName | src/tdi_json_parser/tdi_table_info.cpp:33-38 | both `operator==` overloads agree: equal to an annotation iff equal to its name string, iff the same value |
| Annotations.FullNameGet | src/tdi_json_parser/tdi_table_info.cpp:39-42 | always returns success, and the name it returns compares equal to the annotation and rebuilds it |
| Schema.Find | src/tdi_json_parser/tdi_table_info.cpp:178-180 | `find`/`at`: found iff some entry has the key; the result is the first entry stored under it |
| Schema.FindInAscending | src/tdi_json_parser/tdi_table_info.cpp:122-123 | in an id map with unique ascending keys, a lookup returns the one entry stored under the key |
| Schema.FindInNameAscending | src/tdi_json_parser/tdi_table_info.cpp:234-235 | the same for a name-keyed map ordered by string comparison |
| Schema.PushBackKeys | src/tdi_json_parser/tdi_table_info.cpp:46-49 | the `push_back` loop appends exactly the map's keys, in iteration order, to the vector |
| Sorting.Sort | src/tdi_json_parser/tdi_table_info.cpp:50 | `std::sort`: the result is ascending and a permutation of the input |
| Sorting.SortedUnique | src/tdi_json_parser/tdi_table_info.cpp:104 | two ascending sequences with the same multiset of ids are equal, so the sorted id list is fully determined |
| Sorting.SortedPermutationOfAscending | src/tdi_json_parser/tdi_table_info.cpp:45-51 | sorting ids that are already strictly ascending gives them back unchanged and strictly ascending |
| KeyFields.KeyFieldIdListGet | src/tdi_json_parser/tdi_table_info.cpp:45-52 | sorted, a permutation of the key map's ids; for a map with unique ascending keys exactly those ids, each once; `keyFieldGet` finds every listed id, and the field found has that id |
| KeyFields.FindByName | src/tdi_json_parser/tdi_table_info.cpp:55-59 | `find_if` by name: found iff some key field has exactly that name; the result is the first such field |
| KeyFields.KeyFieldIdGet | src/tdi_json_parser/tdi_table_info.cpp:54-70 | if some key field has the name, the id of such a field; otherwise the sentinel `0` |
| KeyFields.KeyFieldGet | src/tdi_json_parser/tdi_table_info.cpp:72-82 | non-null iff the id is a key of the map, and then the field stored under it |
| KeyFields.KeyNameRoundTrip | src/tdi_json_parser/tdi_table_info.cpp:54-82 | in a well-formed table every key field's name resolves to its id, and that id leads back to the same field |
| KeyFields.KeyFieldIdGetZero | src/tdi_json_parser/tdi_table_info.cpp:60-69 | when no key field has id `0`, a `0` result means exactly that no key field has the name |
| KeyFields.KeyFieldGetIffListed | src/tdi_json_parser/tdi_table_info.cpp:45-82 | an id is in the key id list exactly when `keyFieldGet` finds it |
| KeyFields.ExampleKeyLookups | src/tdi_json_parser/tdi_table_info.cpp:54-82 | with keys ("ipv4_addr", 1) and ("port", 2): "port" resolves to 2, "bogus" to 0, and id 3 to null |
| DataFields.ActionFields | src/tdi_json_parser/tdi_table_info.cpp:87-98 | an action's fields are consulted only for a non-zero action id that the action map holds |
| DataFields.DataFieldIds | src/tdi_json_parser/tdi_table_info.cpp:86-103 | the collected ids number the common fields plus, if the action is consulted, the action's fields |
| DataFields.DataFieldIdListGet | src/tdi_json_parser/tdi_table_info.cpp:84-106 | sorted, and as a multiset the action's ids plus the common ids, duplicates kept; the unknown-action flag is raised exactly for a non-zero id the map lacks; with no action consulted, the common ids alone (exactly them when ascending) |
| DataFields.DataFieldIdListGetCommon | src/tdi_json_parser/tdi_table_info.cpp:108-110 | sorted and a permutation of the common ids |
| DataFields.DataFieldGet | src/tdi_json_parser/tdi_table_info.cpp:112-126 | non-null iff the id is among the collected ids of that action; the action's entry when the action is consulted and holds the id, otherwise the common map's lookup |
| DataFields.DataFieldGetCommon | src/tdi_json_parser/tdi_table_info.cpp:128-130 | consults the common map only: non-null iff the id is a common key, and then its entry |
| DataFields.DataFieldListedIffFound | src/tdi_json_parser/tdi_table_info.cpp:84-126 | an id is listed under an action exactly when `dataFieldGet` finds it under that action; its multiplicity is its count in the action map plus in the common map |
| DataFields.NoActionMeansCommon | src/tdi_json_parser/tdi_table_info.cpp:87-124 | for action `0` or an unknown action, the collected ids are the common ids and lookup equals the common-only lookup |
| DataFields.ExampleListWithAction | src/tdi_json_parser/tdi_table_info.cpp:84-106 | action fields {5, 6} with common fields {5, 7} list as [5, 5, 6, 7] |
| DataFields.ExampleListWithoutAction | src/tdi_json_parser/tdi_table_info.cpp:108-110 | the same table lists [5, 7] with no action |
| DataFields.ExampleLookups | src/tdi_json_parser/tdi_table_info.cpp:112-126 | on that table, id 5 under the action is the action's field, id 7 the common one, and id 5 with no action the common one |
| Containers.GetDataFieldHelper | src/tdi_json_parser/tdi_table_info.cpp:172-199 | a direct hit in the current map is returned whatever the path and depth |
| Containers.Descends | src/tdi_json_parser/tdi_table_info.cpp:187-190 | the loop guard: with a non-empty path used up no container is entered; with the empty path exactly the valid containers are |
| Containers.SearchContainers | src/tdi_json_parser/tdi_table_info.cpp:186-198 | the loop finds something only through a container at or after entry `i` that the guard admits, and never once a non-empty path is used up |
| Containers.HelperFindsIffOccurs | src/tdi_json_parser/tdi_table_info.cpp:172-199 | the search finds a field iff one is stored under the id in the map or in a container the guard lets it enter (completeness); what it finds is stored there (soundness) |
| Containers.SearchFindsIffOccurs | src/tdi_json_parser/tdi_table_info.cpp:186-198 | the loop from entry `i` succeeds iff some later enterable container's subtree holds a match, and its result lies in such a subtree |
| Containers.ExhaustedPathStopsDescent | src/tdi_json_parser/tdi_table_info.cpp:187-189 | once a non-empty path is used up, no container is entered: the result is the direct lookup alone |
| Containers.EmptyPathIsWildcard | src/tdi_json_parser/tdi_table_info.cpp:184-190 | with an empty path, a field is found iff it is stored anywhere in the container tree |
| Containers.PathSelectsOneContainer | src/tdi_json_parser/tdi_table_info.cpp:186-196 | with a path entry for this depth and unique ascending keys, only the container stored under `path[depth]` is searched, if it is a valid container |
| Containers.FirstDescentWins | src/tdi_json_parser/tdi_table_info.cpp:186-197 | tie-break: without a direct hit, the result is that of the first enterable container in ascending key order whose search succeeds |
| Containers.GetDataFieldHelperByName | src/tdi_json_parser/tdi_table_info.cpp:229-255 | a direct hit by name in the current map is returned whatever the path and depth |
| Containers.DescendsByName | src/tdi_json_parser/tdi_table_info.cpp:243-246 | the name search's guard, comparing the field's own id: no container once a non-empty path is used up; every valid container with the empty path |
| Containers.SearchContainersByName | src/tdi_json_parser/tdi_table_info.cpp:242-254 | the name loop finds something only through an admitted container at or after entry `i`, and never once a non-empty path is used up |
| Containers.HelperByNameFindsIffOccurs | src/tdi_json_parser/tdi_table_info.cpp:229-255 | soundness and completeness of the name search, entering a container only when the path entry equals the field's own id |
| Containers.SearchByNameFindsIffOccurs | src/tdi_json_parser/tdi_table_info.cpp:242-254 | the name search's loop from entry `i` succeeds iff some later enterable container's subtree holds the name |
| Containers.ExhaustedPathStopsDescentByName | src/tdi_json_parser/tdi_table_info.cpp:243-245 | the name search also enters no container once a non-empty path is used up |
| Containers.EmptyPathIsWildcardByName | src/tdi_json_parser/tdi_table_info.cpp:240-246 | with an empty path the name search finds a name iff it is stored anywhere in the container tree |
| Containers.FirstDescentWinsByName | src/tdi_json_parser/tdi_table_info.cpp:242-253 | tie-break of the name search: the first enterable container, in name order, whose search succeeds |
| NestedLookup.GetDataField | src/tdi_json_parser/tdi_table_info.cpp:145-170 | success iff a field is returned; a field is returned iff the action's tree (when the action map holds the id, `0` included) or the common tree holds a reachable match; it lies in one of them; when the action's tree has a match the result is that tree's search result, otherwise it is the common tree's search result |
| NestedLookup.GetDataFieldInAction | src/tdi_json_parser/tdi_table_info.cpp:138-143 | the path-taking lookup with the empty path; so found iff the id is stored anywhere in the action's tree or the common tree |
| NestedLookup.GetDataFieldNoAction | src/tdi_json_parser/tdi_table_info.cpp:133-136 | the action-taking lookup with action `0`; so found iff in the tree of an action stored under `0`, if any, or in the common tree |
| NestedLookup.GetDataFieldByName | src/tdi_json_parser/tdi_table_info.cpp:201-227 | the name lookup: success iff found, found iff reachable in the action's or the common name tree; the action tree's search result when it has a match, otherwise the common name tree's search result |
| NestedLookup.ExtendsDataFieldGet | src/tdi_json_parser/tdi_table_info.cpp:145-161 | for a non-zero action, when `dataFieldGet` finds a field and no deeper match in the action's tree comes first, the container-aware lookup returns the same field |
| NestedLookup.ShallowContainerExample | src/tdi_json_parser/tdi_table_info.cpp:145-199 | X (20) inside C (10) is found with paths [] and [10], and not with [11] |
| NestedLookup.ShortPathExample | src/tdi_json_parser/tdi_table_info.cpp:186-197 | X (20) inside D (11) inside C (10) is found with [] and [10, 11], but not with [10] |
| NestedLookup.ActionZeroExample | src/tdi_json_parser/tdi_table_info.cpp:150 | the container-aware lookup searches an action stored under id `0`, which `dataFieldGet(field_id)` never does |

## Behaviour worth noting

- A container path does not fall back to a wildcard once it is used up. With a
  non-empty path, the guard at `tdi_table_info.cpp:187-189` admits no
  container once `depth` reaches the path's length. So a path shorter than the
  nesting finds nothing below its last container
  (`Containers.ExhaustedPathStopsDescent`, `NestedLookup.ShortPathExample`).
  Only the empty path searches every container.
- `dataFieldIdListGet(0)` and `dataFieldIdListGet()` return the sorted common
  ids; a table with common fields {5, 7} gives [5, 7]
  (`DataFields.ExampleListWithoutAction`).
- The container-aware `getDataField` consults an action stored under id `0`
  (`tdi_table_info.cpp:150`), whereas `dataFieldGet` and `dataFieldIdListGet`
  treat action id `0` as "no action" (`NestedLookup.ActionZeroExample`).

## Left out

- Diagnostics (`LOG_ERROR`, `LOG_WARN`, `LOG_TRACE`) are left out. The only
  one kept is the unknown-action error of `dataFieldIdListGet`, returned as a
  flag by `DataFields.DataFieldIdListGet`.
- The JSON schema loader behind the includes is not part of this model. Tables
  are given as already-populated values.
- Ownership and pointers (`std::unique_ptr`, raw `TableDataField *`) are not
  modelled. Lookups return field values, so two distinct field objects with
  equal contents cannot be told apart.
- The header that defines `isContainerValid`, `containerMapGet`,
  `containerNameMapGet`, `nameGet` and `idGet` is not part of this model. They
  are record fields of `Schema.DataFieldInfo` and `Schema.KeyFieldInfo`.
  Nothing ties a container's id-keyed map to its name-keyed map, and nothing
  ties a key field's `idGet()` to its map key except the
  `KeyFields.KeyIdsMatchKeys` predicate assumed by the lemmas that need it.
- `std::sort`'s algorithm is not modelled. `Sorting.Sort` is an insertion
  sort, and only its result (ascending, a permutation) stands for `std::sort`.
- `tdi_id_t` is taken to be a 32-bit unsigned id; its header is not part of
  this model. The search depth is an unbounded `nat`, so the wrap of the
  source's `uint32_t` `depth + 1` at 2^32 - 1 is not modelled.
- Names are Dafny strings of Unicode characters compared by code point.
  `std::string` compares bytes as `unsigned char`, and UTF-8 byte order equals
  code-point order, so UTF-8 names order the same. Names that are not valid
  UTF-8 have no faithful value in the model.
- The disabled code at `tdi_table_info.cpp:132-258` belongs to a class `Table`
  with `action_info_list`, `common_data_fields` and
  `common_data_fields_names`. It is modelled over the same `TableInfo` value,
  using its action map, its common map and its common name map.
