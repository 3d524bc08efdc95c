/**
 * Data-field scope queries of `TableInfo`
 * (src/tdi_json_parser/tdi_table_info.cpp:84-130). A table's data fields are
 * the common ones, visible under every action, plus the fields of the
 * selected action. Action id `0` means "no action" and never consults the
 * action map. The error logged for an unknown action is returned as a flag.
 */
module DataFields {
  import opened Types
  import opened Schema
  import opened Sorting

  /**
   * The data fields of the action that `actionId` selects: none for `0` or
   * for an id the action map does not hold.
   */
  function ActionFields(t: TableInfo, actionId: Id): (r: Option<IdMap<DataFieldInfo>>)
    ensures r.Some? <==> actionId != 0 && HasKey(t.actionMap.entries, actionId)
    ensures r.Some? ==> exists i :: 0 <= i < |t.actionMap.entries| && t.actionMap.entries[i].key == actionId
                                    && t.actionMap.entries[i].value.dataFields == r.value
  {
    if actionId == 0 then None
    else match Find(t.actionMap.entries, actionId)
      case Some(action) => Some(action.dataFields)
      case None => None
  }

  /** The ids `dataFieldIdListGet` collects before sorting: the action's, then the common ones. */
  function DataFieldIds(t: TableInfo, actionId: Id): (ids: seq<Id>)
    ensures |ids| == |t.dataMap.entries| + (if ActionFields(t, actionId).Some? then |ActionFields(t, actionId).value.entries| else 0)
  {
    (match ActionFields(t, actionId)
     case Some(fields) => Keys(fields.entries)
     case None => []) + Keys(t.dataMap.entries)
  }

  /**
   * `dataFieldIdListGet(action_id)`: the sorted ids of the action's fields and
   * the common fields, duplicates kept.
   */
  method DataFieldIdListGet(t: TableInfo, actionId: Id) returns (ids: seq<Id>, unknownAction: bool)
    ensures unknownAction <==> actionId != 0 && !HasKey(t.actionMap.entries, actionId)
    ensures Sorted(ids)
    ensures multiset(ids) == multiset(DataFieldIds(t, actionId))
    ensures ActionFields(t, actionId).None? ==> multiset(ids) == multiset(Keys(t.dataMap.entries))
    ensures ActionFields(t, actionId).None? && IdKeysAscending(t.dataMap) ==> ids == Keys(t.dataMap.entries)
  {
    var idVec: seq<Id> := [];
    unknownAction := false;
    if actionId != 0 {
      match Find(t.actionMap.entries, actionId)
      case None =>
        unknownAction := true;
      case Some(action) =>
        idVec := PushBackKeys(idVec, action.dataFields);
    }
    idVec := PushBackKeys(idVec, t.dataMap);
    ids := Sort(idVec);
    if ActionFields(t, actionId).None? && IdKeysAscending(t.dataMap) {
      SortedPermutationOfAscending(ids, Keys(t.dataMap.entries));
    }
  }

  /** `dataFieldIdListGet()`: the sorted common data field ids. */
  method DataFieldIdListGetCommon(t: TableInfo) returns (ids: seq<Id>)
    ensures Sorted(ids)
    ensures multiset(ids) == multiset(Keys(t.dataMap.entries))
  {
    var unknownAction;
    ids, unknownAction := DataFieldIdListGet(t, 0);
  }

  /**
   * `dataFieldGet(field_id, action_id)`: a field of the selected action
   * overrides a common field with the same id; null when neither has it.
   */
  function DataFieldGet(t: TableInfo, fieldId: Id, actionId: Id): (r: Option<DataFieldInfo>)
    ensures r.Some? <==> fieldId in DataFieldIds(t, actionId)
    ensures ActionFields(t, actionId).Some? && HasKey(ActionFields(t, actionId).value.entries, fieldId) ==>
              Entry(fieldId, r.value) in ActionFields(t, actionId).value.entries
    ensures !(ActionFields(t, actionId).Some? && HasKey(ActionFields(t, actionId).value.entries, fieldId)) ==>
              r == Find(t.dataMap.entries, fieldId)
  {
    var fromAction := match ActionFields(t, actionId)
                      case Some(fields) => Find(fields.entries, fieldId)
                      case None => None;
    if fromAction.Some? then fromAction else Find(t.dataMap.entries, fieldId)
  }

  /** `dataFieldGet(field_id)`: consults the common fields only. */
  function DataFieldGetCommon(t: TableInfo, fieldId: Id): (r: Option<DataFieldInfo>)
    ensures r.Some? <==> fieldId in Keys(t.dataMap.entries)
    ensures r.Some? ==> Entry(fieldId, r.value) in t.dataMap.entries
  {
    DataFieldGet(t, fieldId, 0)
  }

  /**
   * Every id the list holds is found by `dataFieldGet` under the same action,
   * and only those; `dataFieldIdListGet` always lists each field once per scope
   * that holds it, so an id in both scopes appears twice.
   */
  lemma DataFieldListedIffFound(t: TableInfo, actionId: Id, ids: seq<Id>, fieldId: Id)
    requires multiset(ids) == multiset(DataFieldIds(t, actionId))
    ensures fieldId in ids <==> DataFieldGet(t, fieldId, actionId).Some?
    ensures ActionFields(t, actionId).Some? ==>
              multiset(ids)[fieldId] == multiset(Keys<Id, DataFieldInfo>(ActionFields(t, actionId).value.entries))[fieldId]
                                        + multiset(Keys<Id, DataFieldInfo>(t.dataMap.entries))[fieldId]
  {
    assert fieldId in ids <==> fieldId in multiset(ids);
    assert fieldId in DataFieldIds(t, actionId) <==> fieldId in multiset(DataFieldIds(t, actionId));
  }

  /** With no action, or an unknown one, exactly the common fields are listed and found. */
  lemma NoActionMeansCommon(t: TableInfo, actionId: Id, fieldId: Id)
    requires actionId == 0 || !HasKey(t.actionMap.entries, actionId)
    ensures DataFieldIds(t, actionId) == Keys(t.dataMap.entries)
    ensures DataFieldGet(t, fieldId, actionId) == DataFieldGetCommon(t, fieldId)
  {
  }

  /**
   * A table with one action, id 1, holding fields {5, 6}, and common fields
   * {5, 7}.
   */
  function ExampleTable(): TableInfo
  {
    var f5a := DataFieldInfo(5, "f5_action", false, IdMap([]), NameMap([]));
    var f6 := DataFieldInfo(6, "f6", false, IdMap([]), NameMap([]));
    var f5c := DataFieldInfo(5, "f5_common", false, IdMap([]), NameMap([]));
    var f7 := DataFieldInfo(7, "f7", false, IdMap([]), NameMap([]));
    TableInfo("example", IdMap([]),
              IdMap([Entry(5, f5c), Entry(7, f7)]), NameMap([]),
              IdMap([Entry(1, ActionInfo(1, "act", IdMap([Entry(5, f5a), Entry(6, f6)]), NameMap([])))]))
  }

  /** Under action 1 the sorted list is [5, 5, 6, 7]: the shared id 5 is listed twice. */
  lemma ExampleListWithAction(ids: seq<Id>)
    requires Sorted(ids) && multiset(ids) == multiset(DataFieldIds(ExampleTable(), 1))
    ensures ids == [5, 5, 6, 7]
  {
    assert DataFieldIds(ExampleTable(), 1) == [5, 6, 5, 7];
    assert multiset([5, 6, 5, 7]) == multiset([5, 5, 6, 7]);
    SortedUnique(ids, [5, 5, 6, 7]);
  }

  /** With no action the list is the common ids [5, 7]. */
  lemma ExampleListWithoutAction(ids: seq<Id>)
    requires Sorted(ids) && multiset(ids) == multiset(DataFieldIds(ExampleTable(), 0))
    ensures ids == [5, 7]
  {
    assert DataFieldIds(ExampleTable(), 0) == [5, 7];
    SortedUnique(ids, [5, 7]);
  }

  /** The action's field 5 overrides the common one; field 7 comes from the common map. */
  lemma ExampleLookups()
    ensures DataFieldGet(ExampleTable(), 5, 1) == Some(DataFieldInfo(5, "f5_action", false, IdMap([]), NameMap([])))
    ensures DataFieldGet(ExampleTable(), 7, 1) == Some(DataFieldInfo(7, "f7", false, IdMap([]), NameMap([])))
    ensures DataFieldGet(ExampleTable(), 5, 0) == Some(DataFieldInfo(5, "f5_common", false, IdMap([]), NameMap([])))
  {
    var t := ExampleTable();
    var fields := t.actionMap.entries[0].value.dataFields.entries;
    assert ActionFields(t, 1) == Some(t.actionMap.entries[0].value.dataFields);
    assert Find(fields[1..], 7) == None;
    assert Find(fields, 7) == None;
    assert Find(t.dataMap.entries[1..], 7) == Some(DataFieldInfo(7, "f7", false, IdMap([]), NameMap([])));
  }
}
