/**
 * The `getDataField` entry points of the container-aware lookup
 * (src/tdi_json_parser/tdi_table_info.cpp:133-170 by id, :201-227 by name).
 * They clear `*field`, search the selected action's fields when the action
 * map holds `action_id` (the id `0` is not excluded here), then the common
 * fields, and report success exactly when a field was found. The warning
 * logged on failure is left out.
 */
module NestedLookup {
  import opened Types
  import opened Schema
  import opened Containers
  import DataFields

  /** The status returned and the field left in `*field`. */
  datatype Lookup = Lookup(status: Status, field: Option<DataFieldInfo>)

  /** `getDataField(field_id, action_id, container_id_vec, field)` */
  function GetDataField(t: TableInfo, fieldId: Id, actionId: Id, path: seq<Id>): (r: Lookup)
    ensures r.status == Success <==> r.field.Some?
    ensures r.field.Some? <==>
              || (match Find(t.actionMap.entries, actionId)
                  case Some(action) => Occurs(fieldId, path, 0, action.dataFields)
                  case None => false)
              || Occurs(fieldId, path, 0, t.dataMap)
    ensures r.field.Some? ==>
              || (match Find(t.actionMap.entries, actionId)
                  case Some(action) => Located(fieldId, path, 0, action.dataFields, r.field.value)
                  case None => false)
              || Located(fieldId, path, 0, t.dataMap, r.field.value)
    ensures match Find(t.actionMap.entries, actionId)
            case Some(action) =>
              Occurs(fieldId, path, 0, action.dataFields) ==>
                r.field == GetDataFieldHelper(fieldId, path, 0, action.dataFields)
            case None => true
    ensures (match Find(t.actionMap.entries, actionId)
             case Some(action) => !Occurs(fieldId, path, 0, action.dataFields)
             case None => true) ==>
              r.field == GetDataFieldHelper(fieldId, path, 0, t.dataMap)
  {
    HelperFindsIffOccurs(fieldId, path, 0, t.dataMap);
    var fromAction := (match Find(t.actionMap.entries, actionId)
                       case Some(action) =>
                         HelperFindsIffOccurs(fieldId, path, 0, action.dataFields);
                         GetDataFieldHelper(fieldId, path, 0, action.dataFields)
                       case None => None);
    if fromAction.Some? then Lookup(Success, fromAction)
    else
      var fromCommon := GetDataFieldHelper(fieldId, path, 0, t.dataMap);
      if fromCommon.Some? then Lookup(Success, fromCommon) else Lookup(ObjectNotFound, None)
  }

  /** `getDataField(field_id, action_id, field)`: an empty path, so any container may be entered. */
  function GetDataFieldInAction(t: TableInfo, fieldId: Id, actionId: Id): (r: Lookup)
    ensures r == GetDataField(t, fieldId, actionId, [])
    ensures r.status == Success <==> r.field.Some?
    ensures r.field.Some? <==>
              || (match Find(t.actionMap.entries, actionId)
                  case Some(action) => InSubtree(fieldId, action.dataFields)
                  case None => false)
              || InSubtree(fieldId, t.dataMap)
  {
    EmptyPathIsWildcard(fieldId, 0, t.dataMap);
    HelperFindsIffOccurs(fieldId, [], 0, t.dataMap);
    match Find(t.actionMap.entries, actionId)
    case Some(action) =>
      EmptyPathIsWildcard(fieldId, 0, action.dataFields);
      HelperFindsIffOccurs(fieldId, [], 0, action.dataFields);
      GetDataField(t, fieldId, actionId, [])
    case None =>
      GetDataField(t, fieldId, actionId, [])
  }

  /**
   * `getDataField(field_id, field)`: action id `0`, which this lookup does
   * not treat as "no action": an action stored under `0` is searched.
   */
  function GetDataFieldNoAction(t: TableInfo, fieldId: Id): (r: Lookup)
    ensures r == GetDataFieldInAction(t, fieldId, 0)
    ensures r.status == Success <==> r.field.Some?
    ensures r.field.Some? <==>
              || (match Find(t.actionMap.entries, 0)
                  case Some(action) => InSubtree(fieldId, action.dataFields)
                  case None => false)
              || InSubtree(fieldId, t.dataMap)
  {
    GetDataFieldInAction(t, fieldId, 0)
  }

  /** `getDataField(field_name, action_id, container_id_vec, field)` */
  function GetDataFieldByName(t: TableInfo, name: string, actionId: Id, path: seq<Id>): (r: Lookup)
    ensures r.status == Success <==> r.field.Some?
    ensures r.field.Some? <==>
              || (match Find(t.actionMap.entries, actionId)
                  case Some(action) => OccursByName(name, path, 0, action.dataFieldsNames)
                  case None => false)
              || OccursByName(name, path, 0, t.dataNameMap)
    ensures r.field.Some? ==>
              || (match Find(t.actionMap.entries, actionId)
                  case Some(action) => LocatedByName(name, path, 0, action.dataFieldsNames, r.field.value)
                  case None => false)
              || LocatedByName(name, path, 0, t.dataNameMap, r.field.value)
    ensures match Find(t.actionMap.entries, actionId)
            case Some(action) =>
              OccursByName(name, path, 0, action.dataFieldsNames) ==>
                r.field == GetDataFieldHelperByName(name, path, 0, action.dataFieldsNames)
            case None => true
    ensures (match Find(t.actionMap.entries, actionId)
             case Some(action) => !OccursByName(name, path, 0, action.dataFieldsNames)
             case None => true) ==>
              r.field == GetDataFieldHelperByName(name, path, 0, t.dataNameMap)
  {
    HelperByNameFindsIffOccurs(name, path, 0, t.dataNameMap);
    var fromAction := (match Find(t.actionMap.entries, actionId)
                       case Some(action) =>
                         HelperByNameFindsIffOccurs(name, path, 0, action.dataFieldsNames);
                         GetDataFieldHelperByName(name, path, 0, action.dataFieldsNames)
                       case None => None);
    if fromAction.Some? then Lookup(Success, fromAction)
    else
      var fromCommon := GetDataFieldHelperByName(name, path, 0, t.dataNameMap);
      if fromCommon.Some? then Lookup(Success, fromCommon) else Lookup(ObjectNotFound, None)
  }

  /**
   * The container-aware lookup extends `dataFieldGet`: for a real action id,
   * when `dataFieldGet` finds a field and the action's fields hold no match
   * deeper down that would be reached first, both return the same field.
   */
  lemma ExtendsDataFieldGet(t: TableInfo, fieldId: Id, actionId: Id, path: seq<Id>)
    requires actionId != 0
    requires DataFields.DataFieldGet(t, fieldId, actionId).Some?
    requires match Find(t.actionMap.entries, actionId)
             case Some(action) => HasKey(action.dataFields.entries, fieldId) || !Occurs(fieldId, path, 0, action.dataFields)
             case None => true
    ensures GetDataField(t, fieldId, actionId, path).field == DataFields.DataFieldGet(t, fieldId, actionId)
  {
    match Find(t.actionMap.entries, actionId)
    case Some(action) =>
      HelperFindsIffOccurs(fieldId, path, 0, action.dataFields);
    case None =>
  }

  // ---------------------------------------------------------------------------
  // Examples.

  function Leaf(id: Id, name: string): DataFieldInfo
  {
    DataFieldInfo(id, name, false, IdMap([]), NameMap([]))
  }

  function Container(id: Id, name: string, sub: DataFieldInfo): DataFieldInfo
  {
    DataFieldInfo(id, name, true, IdMap([Entry(sub.id, sub)]), NameMap([Entry(sub.name, sub)]))
  }

  /** Common fields: container C (id 10) holding X (id 20). */
  function ShallowTable(): TableInfo
  {
    var c := Container(10, "C", Leaf(20, "X"));
    TableInfo("shallow", IdMap([]), IdMap([Entry(10, c)]), NameMap([Entry("C", c)]), IdMap([]))
  }

  /** X is found with no path and with the path [10]; the path [11] names no container, so it is not. */
  lemma ShallowContainerExample()
    ensures GetDataField(ShallowTable(), 20, 0, []) == Lookup(Success, Some(Leaf(20, "X")))
    ensures GetDataField(ShallowTable(), 20, 0, [10]) == Lookup(Success, Some(Leaf(20, "X")))
    ensures GetDataField(ShallowTable(), 20, 0, [11]) == Lookup(ObjectNotFound, None)
    ensures GetDataFieldByName(ShallowTable(), "X", 0, [10]) == Lookup(Success, Some(Leaf(20, "X")))
  {
    var c := ShallowTable().dataMap.entries[0].value;
    assert Find(ShallowTable().dataMap.entries, 20) == None;
    assert Find(c.containerMap.entries, 20) == Some(Leaf(20, "X"));
    assert SearchContainers(20, [11], 0, ShallowTable().dataMap, 1) == None;
    assert Find(ShallowTable().dataNameMap.entries, "X") == None;
    assert Find(c.containerNameMap.entries, "X") == Some(Leaf(20, "X"));
  }

  /** Common fields: container C (id 10) holding container D (id 11) holding X (id 20). */
  function DeepTable(): TableInfo
  {
    var c := Container(10, "C", Container(11, "D", Leaf(20, "X")));
    TableInfo("deep", IdMap([]), IdMap([Entry(10, c)]), NameMap([Entry("C", c)]), IdMap([]))
  }

  /**
   * A path shorter than the nesting does not fall back to a wildcard: with
   * the path [10] the search enters C but may not enter D, so X is not found.
   */
  lemma ShortPathExample()
    ensures GetDataField(DeepTable(), 20, 0, [10]) == Lookup(ObjectNotFound, None)
    ensures GetDataField(DeepTable(), 20, 0, [10, 11]) == Lookup(Success, Some(Leaf(20, "X")))
    ensures GetDataField(DeepTable(), 20, 0, []) == Lookup(Success, Some(Leaf(20, "X")))
  {
    var t := DeepTable();
    var c := t.dataMap.entries[0].value;
    var d := c.containerMap.entries[0].value;
    assert Find(t.dataMap.entries, 20) == None;
    assert Find(c.containerMap.entries, 20) == None;
    assert Find(d.containerMap.entries, 20) == Some(Leaf(20, "X"));
    ExhaustedPathStopsDescent(20, [10], 1, c.containerMap);
    assert SearchContainers(20, [10], 0, t.dataMap, 1) == None;
  }

  /**
   * The container-aware lookup searches an action stored under id `0`;
   * `dataFieldGet(field_id)` never does.
   */
  lemma ActionZeroExample()
    ensures GetDataFieldNoAction(ActionZeroTable(), 5).field == Some(Leaf(5, "f"))
    ensures DataFields.DataFieldGetCommon(ActionZeroTable(), 5) == None
  {
    var t := ActionZeroTable();
    assert Find(t.actionMap.entries, 0) == Some(t.actionMap.entries[0].value);
    assert Find(t.actionMap.entries[0].value.dataFields.entries, 5) == Some(Leaf(5, "f"));
  }

  /** A table whose only data field, 5, belongs to an action stored under id `0`. */
  function ActionZeroTable(): TableInfo
  {
    TableInfo("action_zero", IdMap([]), IdMap([]), NameMap([]),
              IdMap([Entry(0, ActionInfo(0, "a0", IdMap([Entry(5, Leaf(5, "f"))]), NameMap([])))]))
  }
}
