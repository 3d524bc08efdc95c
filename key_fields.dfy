/**
 * Key-field queries of `TableInfo` (src/tdi_json_parser/tdi_table_info.cpp:45-82):
 * the sorted list of key ids, name-to-id resolution with sentinel `0`, and
 * lookup by id with null for an absent id. The error logging on the two
 * not-found paths is left out.
 */
module KeyFields {
  import opened Types
  import opened Schema
  import opened Sorting

  /** Every key field's own id is the id it is stored under. */
  predicate KeyIdsMatchKeys(t: TableInfo)
  {
    forall i :: 0 <= i < |t.keyMap.entries| ==> t.keyMap.entries[i].value.id == t.keyMap.entries[i].key
  }

  /** No two key fields share a name. */
  predicate KeyNamesUnique(t: TableInfo)
  {
    forall i, j :: 0 <= i < j < |t.keyMap.entries| ==> t.keyMap.entries[i].value.name != t.keyMap.entries[j].value.name
  }

  /** `keyFieldIdListGet`: collects the map's ids in iteration order, then sorts them. */
  method KeyFieldIdListGet(t: TableInfo) returns (ids: seq<Id>)
    ensures Sorted(ids)
    ensures multiset(ids) == multiset(Keys(t.keyMap.entries))
    ensures IdKeysAscending(t.keyMap) ==> ids == Keys(t.keyMap.entries) && StrictlyAscending(ids)
    ensures forall id :: id in ids ==> KeyFieldGet(t, id).Some?
    ensures KeyIdsMatchKeys(t) ==> forall id :: id in ids ==> KeyFieldGet(t, id).value.id == id
  {
    var idVec := PushBackKeys([], t.keyMap);
    ids := Sort(idVec);
    if IdKeysAscending(t.keyMap) {
      SortedPermutationOfAscending(ids, idVec);
    }
    forall id | id in ids
      ensures KeyFieldGet(t, id).Some?
      ensures KeyIdsMatchKeys(t) ==> KeyFieldGet(t, id).value.id == id
    {
      assert id in multiset(idVec);
      var k :| 0 <= k < |idVec| && idVec[k] == id;
      assert t.keyMap.entries[k].key == id;
    }
  }

  /** `std::find_if` over the key map by name: the first key field with exactly that name. */
  function FindByName(m: seq<Entry<Id, KeyFieldInfo>>, name: string): (r: Option<KeyFieldInfo>)
    ensures r.Some? <==> exists i :: 0 <= i < |m| && m[i].value.name == name
    ensures r.Some? ==> exists i :: 0 <= i < |m| && m[i].value == r.value && r.value.name == name
                                    && forall j :: 0 <= j < i ==> m[j].value.name != name
  {
    if |m| == 0 then None
    else if m[0].value.name == name then Some(m[0].value)
    else
      var r := FindByName(m[1..], name);
      assert forall i :: 0 <= i < |m| - 1 ==> m[1..][i] == m[i + 1];
      r
  }

  /** `keyFieldIdGet`: the id of the first key field named `name`, or the sentinel `0`. */
  function KeyFieldIdGet(t: TableInfo, name: string): (id: Id)
    ensures (exists i :: 0 <= i < |t.keyMap.entries| && t.keyMap.entries[i].value.name == name) ==>
              exists i :: 0 <= i < |t.keyMap.entries| && t.keyMap.entries[i].value.name == name && id == t.keyMap.entries[i].value.id
    ensures (forall i :: 0 <= i < |t.keyMap.entries| ==> t.keyMap.entries[i].value.name != name) ==> id == 0
  {
    match FindByName(t.keyMap.entries, name)
    case Some(field) => field.id
    case None => 0
  }

  /** `keyFieldGet`: the key field stored under `id`, or null. */
  function KeyFieldGet(t: TableInfo, id: Id): (r: Option<KeyFieldInfo>)
    ensures r.Some? <==> id in Keys(t.keyMap.entries)
    ensures r.Some? ==> Entry(id, r.value) in t.keyMap.entries
  {
    Find(t.keyMap.entries, id)
  }

  /**
   * In a well-formed table, every stored key field is found by its name, and
   * the id found leads back to that same field.
   */
  lemma KeyNameRoundTrip(t: TableInfo, i: int)
    requires IdKeysAscending(t.keyMap) && KeyIdsMatchKeys(t) && KeyNamesUnique(t)
    requires 0 <= i < |t.keyMap.entries|
    ensures KeyFieldIdGet(t, t.keyMap.entries[i].value.name) == t.keyMap.entries[i].key
    ensures KeyFieldGet(t, KeyFieldIdGet(t, t.keyMap.entries[i].value.name)) == Some(t.keyMap.entries[i].value)
  {
    var name := t.keyMap.entries[i].value.name;
    var f := FindByName(t.keyMap.entries, name).value;
    var j :| 0 <= j < |t.keyMap.entries| && t.keyMap.entries[j].value == f && f.name == name
             && forall k :: 0 <= k < j ==> t.keyMap.entries[k].value.name != name;
    assert j == i;
    FindInAscending(t.keyMap, i);
  }

  /**
   * The sentinel `0` means "not found" only when no key field has id `0`;
   * otherwise a found field and an absent name give the same answer.
   */
  lemma KeyFieldIdGetZero(t: TableInfo, name: string)
    requires forall i :: 0 <= i < |t.keyMap.entries| ==> t.keyMap.entries[i].value.id != 0
    ensures KeyFieldIdGet(t, name) == 0 <==>
              forall i :: 0 <= i < |t.keyMap.entries| ==> t.keyMap.entries[i].value.name != name
  {
  }

  /** The key id list and lookup by id agree: an id is listed exactly when `keyFieldGet` finds it. */
  lemma KeyFieldGetIffListed(t: TableInfo, ids: seq<Id>, id: Id)
    requires multiset(ids) == multiset(Keys(t.keyMap.entries))
    ensures id in ids <==> KeyFieldGet(t, id).Some?
  {
    assert id in ids <==> id in multiset(ids);
    assert id in Keys(t.keyMap.entries) <==> id in multiset(Keys(t.keyMap.entries));
  }

  /** A table with key fields ("ipv4_addr", 1) and ("port", 2). */
  function ExampleKeyTable(): TableInfo
  {
    TableInfo("example",
              IdMap([Entry(1, KeyFieldInfo(1, "ipv4_addr")), Entry(2, KeyFieldInfo(2, "port"))]),
              IdMap([]), NameMap([]), IdMap([]))
  }

  lemma ExampleKeyLookups()
    ensures KeyFieldIdGet(ExampleKeyTable(), "port") == 2
    ensures KeyFieldIdGet(ExampleKeyTable(), "bogus") == 0
    ensures KeyFieldGet(ExampleKeyTable(), 3) == None
  {
    var m := ExampleKeyTable().keyMap.entries;
    assert FindByName(m[1..], "port") == Some(KeyFieldInfo(2, "port"));
    assert FindByName(m[1..][1..], "bogus") == None;
    assert FindByName(m[1..], "bogus") == None;
    assert Find(m[1..][1..], 3) == None;
    assert Find(m[1..], 3) == None;
  }
}
