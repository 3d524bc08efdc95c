/**
 * The path-guided, pre-order depth-first search through container data
 * fields: both `getDataFieldHelper` overloads
 * (src/tdi_json_parser/tdi_table_info.cpp:172-199 by id, :229-255 by name).
 *
 * A direct hit in the current map wins at once. Otherwise the containers of
 * the map are tried in iteration order, and the first one whose sub-search
 * succeeds gives the result. With an empty path every container may be
 * entered; with a non-empty path, at depth `d` only a container whose id is
 * `path[d]`, and once `d` reaches the path's length none at all.
 *
 * The `for` loop over the map's entries is the function `SearchContainers`,
 * recursive in the index of the entry it examines.
 */
module Containers {
  import opened Types
  import opened Schema

  /** The path part of the loop guard: may a container with this id be entered at `depth`? */
  predicate Admits(path: seq<Id>, depth: nat, containerId: Id)
  {
    (|path| >= depth + 1 && path[depth] == containerId) || |path| == 0
  }

  /**
   * The whole loop guard of the id-keyed search; the id compared is the map
   * key. A used-up non-empty path enters nothing; the empty path enters every
   * valid container.
   */
  predicate Descends(path: seq<Id>, depth: nat, e: Entry<Id, DataFieldInfo>)
    ensures |path| > 0 && depth >= |path| ==> !Descends(path, depth, e)
    ensures |path| == 0 ==> (Descends(path, depth, e) <==> e.value.isContainerValid)
  {
    Admits(path, depth, e.key) && e.value.isContainerValid
  }

  /**
   * The whole loop guard of the name-keyed search; the id compared is the
   * field's own id. Used-up and empty paths behave as for `Descends`.
   */
  predicate DescendsByName(path: seq<Id>, depth: nat, e: Entry<string, DataFieldInfo>)
    ensures |path| > 0 && depth >= |path| ==> !DescendsByName(path, depth, e)
    ensures |path| == 0 ==> (DescendsByName(path, depth, e) <==> e.value.isContainerValid)
  {
    Admits(path, depth, e.value.id) && e.value.isContainerValid
  }

  // ---------------------------------------------------------------------------
  // Order-free reference definitions of what the search may reach.

  /** Some field is stored under `fieldId` here or in a container the guard lets the search enter. */
  ghost predicate Occurs(fieldId: Id, path: seq<Id>, depth: nat, m: IdMap<DataFieldInfo>)
    decreases m
  {
    || HasKey(m.entries, fieldId)
    || exists i :: 0 <= i < |m.entries| && Descends(path, depth, m.entries[i])
                   && Occurs(fieldId, path, depth + 1, m.entries[i].value.containerMap)
  }

  /** `f` is stored under `fieldId` here or in a container the guard lets the search enter. */
  ghost predicate Located(fieldId: Id, path: seq<Id>, depth: nat, m: IdMap<DataFieldInfo>, f: DataFieldInfo)
    decreases m
  {
    || Entry(fieldId, f) in m.entries
    || exists i :: 0 <= i < |m.entries| && Descends(path, depth, m.entries[i])
                   && Located(fieldId, path, depth + 1, m.entries[i].value.containerMap, f)
  }

  /** A field is stored under `fieldId` somewhere in the container tree of `m`, whatever the ids on the way. */
  ghost predicate InSubtree(fieldId: Id, m: IdMap<DataFieldInfo>)
    decreases m
  {
    || HasKey(m.entries, fieldId)
    || exists i :: 0 <= i < |m.entries| && m.entries[i].value.isContainerValid
                   && InSubtree(fieldId, m.entries[i].value.containerMap)
  }

  ghost predicate OccursByName(name: string, path: seq<Id>, depth: nat, m: NameMap<DataFieldInfo>)
    decreases m
  {
    || HasKey(m.entries, name)
    || exists i :: 0 <= i < |m.entries| && DescendsByName(path, depth, m.entries[i])
                   && OccursByName(name, path, depth + 1, m.entries[i].value.containerNameMap)
  }

  ghost predicate LocatedByName(name: string, path: seq<Id>, depth: nat, m: NameMap<DataFieldInfo>, f: DataFieldInfo)
    decreases m
  {
    || Entry(name, f) in m.entries
    || exists i :: 0 <= i < |m.entries| && DescendsByName(path, depth, m.entries[i])
                   && LocatedByName(name, path, depth + 1, m.entries[i].value.containerNameMap, f)
  }

  ghost predicate InSubtreeByName(name: string, m: NameMap<DataFieldInfo>)
    decreases m
  {
    || HasKey(m.entries, name)
    || exists i :: 0 <= i < |m.entries| && m.entries[i].value.isContainerValid
                   && InSubtreeByName(name, m.entries[i].value.containerNameMap)
  }

  // ---------------------------------------------------------------------------
  // The search by id.

  /**
   * `getDataFieldHelper(field_id, container_id_vec, depth, field_map)`.
   * A direct hit in `fieldMap` is returned whatever the path and depth.
   */
  function GetDataFieldHelper(fieldId: Id, path: seq<Id>, depth: nat, fieldMap: IdMap<DataFieldInfo>): (r: Option<DataFieldInfo>)
    ensures HasKey(fieldMap.entries, fieldId) ==> r == Find(fieldMap.entries, fieldId)
    decreases fieldMap, 1
  {
    match Find(fieldMap.entries, fieldId)
    case Some(field) => Some(field)
    case None => SearchContainers(fieldId, path, depth, fieldMap, 0)
  }

  /**
   * The loop of `getDataFieldHelper`, from entry `i` on. It finds something
   * only through a container at or after `i` that the guard admits, so never
   * once a non-empty path is used up.
   */
  function SearchContainers(fieldId: Id, path: seq<Id>, depth: nat, fieldMap: IdMap<DataFieldInfo>, i: nat): (r: Option<DataFieldInfo>)
    requires i <= |fieldMap.entries|
    ensures r.Some? ==> exists j :: i <= j < |fieldMap.entries| && Descends(path, depth, fieldMap.entries[j])
    ensures r.Some? ==> |path| == 0 || depth < |path|
    decreases fieldMap, 0, |fieldMap.entries| - i
  {
    if i == |fieldMap.entries| then None
    else
      var p := fieldMap.entries[i];
      var field := if Descends(path, depth, p)
                   then GetDataFieldHelper(fieldId, path, depth + 1, p.value.containerMap)
                   else None;
      if field.Some? then field else SearchContainers(fieldId, path, depth, fieldMap, i + 1)
  }

  /**
   * Soundness and completeness: the search finds a field exactly when one is
   * reachable, and what it finds is stored under `fieldId` in a map it was
   * allowed to enter.
   */
  lemma {:induction false} HelperFindsIffOccurs(fieldId: Id, path: seq<Id>, depth: nat, m: IdMap<DataFieldInfo>)
    ensures GetDataFieldHelper(fieldId, path, depth, m).Some? <==> Occurs(fieldId, path, depth, m)
    ensures GetDataFieldHelper(fieldId, path, depth, m).Some? ==>
              Located(fieldId, path, depth, m, GetDataFieldHelper(fieldId, path, depth, m).value)
    decreases m, 1
  {
    if !HasKey(m.entries, fieldId) {
      SearchFindsIffOccurs(fieldId, path, depth, m, 0);
    }
  }

  lemma {:induction false} SearchFindsIffOccurs(fieldId: Id, path: seq<Id>, depth: nat, m: IdMap<DataFieldInfo>, i: nat)
    requires i <= |m.entries|
    ensures SearchContainers(fieldId, path, depth, m, i).Some? <==>
              exists j :: i <= j < |m.entries| && Descends(path, depth, m.entries[j])
                          && Occurs(fieldId, path, depth + 1, m.entries[j].value.containerMap)
    ensures SearchContainers(fieldId, path, depth, m, i).Some? ==>
              exists j :: i <= j < |m.entries| && Descends(path, depth, m.entries[j])
                          && Located(fieldId, path, depth + 1, m.entries[j].value.containerMap,
                                     SearchContainers(fieldId, path, depth, m, i).value)
    decreases m, 0, |m.entries| - i
  {
    if i < |m.entries| {
      var p := m.entries[i];
      if Descends(path, depth, p) {
        HelperFindsIffOccurs(fieldId, path, depth + 1, p.value.containerMap);
      }
      SearchFindsIffOccurs(fieldId, path, depth, m, i + 1);
    }
  }

  /** Once a non-empty path is used up, no container is entered: only a direct hit is found. */
  lemma ExhaustedPathStopsDescent(fieldId: Id, path: seq<Id>, depth: nat, m: IdMap<DataFieldInfo>)
    requires 0 < |path| <= depth
    ensures GetDataFieldHelper(fieldId, path, depth, m) == Find(m.entries, fieldId)
  {
    if !HasKey(m.entries, fieldId) {
      SearchFindsIffOccurs(fieldId, path, depth, m, 0);
    }
  }

  /** With an empty path the search finds a field wherever in the container tree it is stored. */
  lemma EmptyPathIsWildcard(fieldId: Id, depth: nat, m: IdMap<DataFieldInfo>)
    ensures GetDataFieldHelper(fieldId, [], depth, m).Some? <==> InSubtree(fieldId, m)
  {
    HelperFindsIffOccurs(fieldId, [], depth, m);
    OccursWithEmptyPath(fieldId, depth, m);
  }

  lemma {:induction false} OccursWithEmptyPath(fieldId: Id, depth: nat, m: IdMap<DataFieldInfo>)
    ensures Occurs(fieldId, [], depth, m) <==> InSubtree(fieldId, m)
    decreases m
  {
    forall i | 0 <= i < |m.entries|
      ensures Occurs(fieldId, [], depth + 1, m.entries[i].value.containerMap) <==> InSubtree(fieldId, m.entries[i].value.containerMap)
    {
      OccursWithEmptyPath(fieldId, depth + 1, m.entries[i].value.containerMap);
    }
  }

  /**
   * With a path entry for this depth and keys unique and ascending, only the
   * container stored under `path[depth]` is entered.
   */
  lemma PathSelectsOneContainer(fieldId: Id, path: seq<Id>, depth: nat, m: IdMap<DataFieldInfo>)
    requires IdKeysAscending(m)
    requires depth < |path|
    requires !HasKey(m.entries, fieldId)
    ensures GetDataFieldHelper(fieldId, path, depth, m) == SelectedContainer(fieldId, path, depth, m)
  {
    SearchSelects(fieldId, path, depth, m, 0);
    assert IdMap(m.entries[0..]) == m;
  }

  /** What the search yields when only the container stored under `path[depth]` may be entered. */
  function SelectedContainer(fieldId: Id, path: seq<Id>, depth: nat, m: IdMap<DataFieldInfo>): Option<DataFieldInfo>
    requires depth < |path|
    decreases m, 2
  {
    match Find(m.entries, path[depth])
    case Some(c) =>
      if c.isContainerValid then GetDataFieldHelper(fieldId, path, depth + 1, c.containerMap) else None
    case None => None
  }

  lemma {:induction false} SearchSelects(fieldId: Id, path: seq<Id>, depth: nat, m: IdMap<DataFieldInfo>, i: nat)
    requires IdKeysAscending(m)
    requires depth < |path|
    requires i <= |m.entries|
    ensures SearchContainers(fieldId, path, depth, m, i) == SelectedContainer(fieldId, path, depth, IdMap(m.entries[i..]))
    decreases |m.entries| - i
  {
    if i < |m.entries| {
      SearchSelects(fieldId, path, depth, m, i + 1);
      assert m.entries[i..][1..] == m.entries[i + 1..];
      if m.entries[i].key == path[depth] {
        assert forall j :: i < j < |m.entries| ==> m.entries[j].key != path[depth];
        assert !HasKey(m.entries[i + 1..], path[depth]);
      }
    }
  }

  /**
   * Tie-break: without a direct hit, the result is that of the first
   * enterable container, in iteration order, whose sub-search succeeds.
   */
  lemma FirstDescentWins(fieldId: Id, path: seq<Id>, depth: nat, m: IdMap<DataFieldInfo>, k: nat)
    requires !HasKey(m.entries, fieldId)
    requires k < |m.entries| && Descends(path, depth, m.entries[k])
    requires GetDataFieldHelper(fieldId, path, depth + 1, m.entries[k].value.containerMap).Some?
    requires forall j :: 0 <= j < k && Descends(path, depth, m.entries[j]) ==>
               GetDataFieldHelper(fieldId, path, depth + 1, m.entries[j].value.containerMap).None?
    ensures GetDataFieldHelper(fieldId, path, depth, m) == GetDataFieldHelper(fieldId, path, depth + 1, m.entries[k].value.containerMap)
  {
    SearchFirst(fieldId, path, depth, m, k, 0);
  }

  lemma {:induction false} SearchFirst(fieldId: Id, path: seq<Id>, depth: nat, m: IdMap<DataFieldInfo>, k: nat, i: nat)
    requires i <= k < |m.entries| && Descends(path, depth, m.entries[k])
    requires GetDataFieldHelper(fieldId, path, depth + 1, m.entries[k].value.containerMap).Some?
    requires forall j :: i <= j < k && Descends(path, depth, m.entries[j]) ==>
               GetDataFieldHelper(fieldId, path, depth + 1, m.entries[j].value.containerMap).None?
    ensures SearchContainers(fieldId, path, depth, m, i) == GetDataFieldHelper(fieldId, path, depth + 1, m.entries[k].value.containerMap)
    decreases k - i
  {
    if i < k {
      SearchFirst(fieldId, path, depth, m, k, i + 1);
      if Descends(path, depth, m.entries[i]) {
        assert GetDataFieldHelper(fieldId, path, depth + 1, m.entries[i].value.containerMap).None?;
      }
    }
  }

  // ---------------------------------------------------------------------------
  // The search by name. The maps are keyed by name; the path still holds
  // container ids, compared with each field's own id.

  /** `getDataFieldHelper(field_name, container_id_vec, depth, field_map)`. */
  function GetDataFieldHelperByName(name: string, path: seq<Id>, depth: nat, fieldMap: NameMap<DataFieldInfo>): (r: Option<DataFieldInfo>)
    ensures HasKey(fieldMap.entries, name) ==> r == Find(fieldMap.entries, name)
    decreases fieldMap, 1
  {
    match Find(fieldMap.entries, name)
    case Some(field) => Some(field)
    case None => SearchContainersByName(name, path, depth, fieldMap, 0)
  }

  /**
   * The loop of the name-keyed `getDataFieldHelper`, from entry `i` on. As for
   * `SearchContainers`, a result comes only through an admitted container.
   */
  function SearchContainersByName(name: string, path: seq<Id>, depth: nat, fieldMap: NameMap<DataFieldInfo>, i: nat): (r: Option<DataFieldInfo>)
    requires i <= |fieldMap.entries|
    ensures r.Some? ==> exists j :: i <= j < |fieldMap.entries| && DescendsByName(path, depth, fieldMap.entries[j])
    ensures r.Some? ==> |path| == 0 || depth < |path|
    decreases fieldMap, 0, |fieldMap.entries| - i
  {
    if i == |fieldMap.entries| then None
    else
      var p := fieldMap.entries[i];
      var field := if DescendsByName(path, depth, p)
                   then GetDataFieldHelperByName(name, path, depth + 1, p.value.containerNameMap)
                   else None;
      if field.Some? then field else SearchContainersByName(name, path, depth, fieldMap, i + 1)
  }

  /** Soundness and completeness of the name-keyed search. */
  lemma {:induction false} HelperByNameFindsIffOccurs(name: string, path: seq<Id>, depth: nat, m: NameMap<DataFieldInfo>)
    ensures GetDataFieldHelperByName(name, path, depth, m).Some? <==> OccursByName(name, path, depth, m)
    ensures GetDataFieldHelperByName(name, path, depth, m).Some? ==>
              LocatedByName(name, path, depth, m, GetDataFieldHelperByName(name, path, depth, m).value)
    decreases m, 1
  {
    if !HasKey(m.entries, name) {
      SearchByNameFindsIffOccurs(name, path, depth, m, 0);
    }
  }

  lemma {:induction false} SearchByNameFindsIffOccurs(name: string, path: seq<Id>, depth: nat, m: NameMap<DataFieldInfo>, i: nat)
    requires i <= |m.entries|
    ensures SearchContainersByName(name, path, depth, m, i).Some? <==>
              exists j :: i <= j < |m.entries| && DescendsByName(path, depth, m.entries[j])
                          && OccursByName(name, path, depth + 1, m.entries[j].value.containerNameMap)
    ensures SearchContainersByName(name, path, depth, m, i).Some? ==>
              exists j :: i <= j < |m.entries| && DescendsByName(path, depth, m.entries[j])
                          && LocatedByName(name, path, depth + 1, m.entries[j].value.containerNameMap,
                                           SearchContainersByName(name, path, depth, m, i).value)
    decreases m, 0, |m.entries| - i
  {
    if i < |m.entries| {
      var p := m.entries[i];
      if DescendsByName(path, depth, p) {
        HelperByNameFindsIffOccurs(name, path, depth + 1, p.value.containerNameMap);
      }
      SearchByNameFindsIffOccurs(name, path, depth, m, i + 1);
    }
  }

  /** Once a non-empty path is used up, the name-keyed search enters no container either. */
  lemma ExhaustedPathStopsDescentByName(name: string, path: seq<Id>, depth: nat, m: NameMap<DataFieldInfo>)
    requires 0 < |path| <= depth
    ensures GetDataFieldHelperByName(name, path, depth, m) == Find(m.entries, name)
  {
    if !HasKey(m.entries, name) {
      SearchByNameFindsIffOccurs(name, path, depth, m, 0);
    }
  }

  lemma EmptyPathIsWildcardByName(name: string, depth: nat, m: NameMap<DataFieldInfo>)
    ensures GetDataFieldHelperByName(name, [], depth, m).Some? <==> InSubtreeByName(name, m)
  {
    HelperByNameFindsIffOccurs(name, [], depth, m);
    OccursByNameWithEmptyPath(name, depth, m);
  }

  lemma {:induction false} OccursByNameWithEmptyPath(name: string, depth: nat, m: NameMap<DataFieldInfo>)
    ensures OccursByName(name, [], depth, m) <==> InSubtreeByName(name, m)
    decreases m
  {
    forall i | 0 <= i < |m.entries|
      ensures OccursByName(name, [], depth + 1, m.entries[i].value.containerNameMap) <==> InSubtreeByName(name, m.entries[i].value.containerNameMap)
    {
      OccursByNameWithEmptyPath(name, depth + 1, m.entries[i].value.containerNameMap);
    }
  }

  /** Tie-break of the name-keyed search: the first enterable container whose sub-search succeeds. */
  lemma FirstDescentWinsByName(name: string, path: seq<Id>, depth: nat, m: NameMap<DataFieldInfo>, k: nat)
    requires !HasKey(m.entries, name)
    requires k < |m.entries| && DescendsByName(path, depth, m.entries[k])
    requires GetDataFieldHelperByName(name, path, depth + 1, m.entries[k].value.containerNameMap).Some?
    requires forall j :: 0 <= j < k && DescendsByName(path, depth, m.entries[j]) ==>
               GetDataFieldHelperByName(name, path, depth + 1, m.entries[j].value.containerNameMap).None?
    ensures GetDataFieldHelperByName(name, path, depth, m) == GetDataFieldHelperByName(name, path, depth + 1, m.entries[k].value.containerNameMap)
  {
    SearchFirstByName(name, path, depth, m, k, 0);
  }

  lemma {:induction false} SearchFirstByName(name: string, path: seq<Id>, depth: nat, m: NameMap<DataFieldInfo>, k: nat, i: nat)
    requires i <= k < |m.entries| && DescendsByName(path, depth, m.entries[k])
    requires GetDataFieldHelperByName(name, path, depth + 1, m.entries[k].value.containerNameMap).Some?
    requires forall j :: i <= j < k && DescendsByName(path, depth, m.entries[j]) ==>
               GetDataFieldHelperByName(name, path, depth + 1, m.entries[j].value.containerNameMap).None?
    ensures SearchContainersByName(name, path, depth, m, i) == GetDataFieldHelperByName(name, path, depth + 1, m.entries[k].value.containerNameMap)
    decreases k - i
  {
    if i < k {
      SearchFirstByName(name, path, depth, m, k, i + 1);
      if DescendsByName(path, depth, m.entries[i]) {
        assert GetDataFieldHelperByName(name, path, depth + 1, m.entries[i].value.containerNameMap).None?;
      }
    }
  }
}
