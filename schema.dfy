/**
 * The table schema: key fields, common data fields and actions, each action
 * with its own data fields; data fields that are containers hold nested maps
 * of further data fields.
 *
 * Every `std::map` of the source is a sequence of entries. `std::map` keeps
 * its keys unique and iterates them in ascending order; the predicates
 * `IdKeysAscending` and `NameKeysAscending` state that, and the lemmas below
 * say what follows from it.
 */
module Schema {
  import opened Types
  import opened StringOrder

  datatype Entry<K, V> = Entry(key: K, value: V)

  /** `std::map<tdi_id_t, std::unique_ptr<V>>`: its entries in iteration order. */
  datatype IdMap<V> = IdMap(entries: seq<Entry<Id, V>>)

  /** `std::map<std::string, V *>`: its entries in iteration order. */
  datatype NameMap<V> = NameMap(entries: seq<Entry<string, V>>)

  datatype KeyFieldInfo = KeyFieldInfo(id: Id, name: string)

  /**
   * A data field. `isContainerValid`, `containerMap` and `containerNameMap`
   * stand for the accessors of the same names; a container's sub-fields are
   * reachable by id through the first map and by name through the second.
   */
  datatype DataFieldInfo = DataFieldInfo(
    id: Id,
    name: string,
    isContainerValid: bool,
    containerMap: IdMap<DataFieldInfo>,
    containerNameMap: NameMap<DataFieldInfo>)

  datatype ActionInfo = ActionInfo(
    id: Id,
    name: string,
    dataFields: IdMap<DataFieldInfo>,
    dataFieldsNames: NameMap<DataFieldInfo>)

  datatype TableInfo = TableInfo(
    name: string,
    keyMap: IdMap<KeyFieldInfo>,
    dataMap: IdMap<DataFieldInfo>,
    dataNameMap: NameMap<DataFieldInfo>,
    actionMap: IdMap<ActionInfo>)

  predicate HasKey<K(==), V>(m: seq<Entry<K, V>>, k: K)
  {
    exists i :: 0 <= i < |m| && m[i].key == k
  }

  /** `map.find(k)` followed by `map.at(k)`: the first entry stored under `k`, or null. */
  function Find<K(==), V>(m: seq<Entry<K, V>>, k: K): (r: Option<V>)
    ensures r.Some? <==> HasKey(m, k)
    ensures r.Some? ==> exists i :: 0 <= i < |m| && m[i] == Entry(k, r.value)
                                    && forall j :: 0 <= j < i ==> m[j].key != k
  {
    if |m| == 0 then None
    else if m[0].key == k then Some(m[0].value)
    else
      var r := Find(m[1..], k);
      assert forall i :: 0 <= i < |m| - 1 ==> m[1..][i] == m[i + 1];
      r
  }

  /** The keys of a map, in iteration order. */
  function Keys<K, V>(m: seq<Entry<K, V>>): (ks: seq<K>)
    ensures |ks| == |m|
    ensures forall i :: 0 <= i < |m| ==> ks[i] == m[i].key
  {
    seq(|m|, i requires 0 <= i < |m| => m[i].key)
  }

  /** Appends the keys of `m` to `vec` one by one, in iteration order (`push_back` in a range-for). */
  method PushBackKeys<V>(vec: seq<Id>, m: IdMap<V>) returns (r: seq<Id>)
    ensures r == vec + Keys(m.entries)
  {
    r := vec;
    for i := 0 to |m.entries|
      invariant |r| == |vec| + i
      invariant r[..|vec|] == vec
      invariant forall k :: 0 <= k < i ==> r[|vec| + k] == m.entries[k].key
    {
      r := r + [m.entries[i].key];
    }
  }

  predicate IdKeysAscending<V>(m: IdMap<V>)
  {
    forall i, j :: 0 <= i < j < |m.entries| ==> m.entries[i].key < m.entries[j].key
  }

  predicate NameKeysAscending<V>(m: NameMap<V>)
  {
    forall i, j :: 0 <= i < j < |m.entries| ==> LexLess(m.entries[i].key, m.entries[j].key)
  }

  /** In a well-formed id map, `find` returns the one entry stored under the key. */
  lemma FindInAscending<V>(m: IdMap<V>, i: int)
    requires IdKeysAscending(m)
    requires 0 <= i < |m.entries|
    ensures Find(m.entries, m.entries[i].key) == Some(m.entries[i].value)
  {
  }

  /** In a well-formed name map, `find` returns the one entry stored under the key. */
  lemma FindInNameAscending<V>(m: NameMap<V>, i: int)
    requires NameKeysAscending(m)
    requires 0 <= i < |m.entries|
    ensures Find(m.entries, m.entries[i].key) == Some(m.entries[i].value)
  {
    LexLessIrreflexive(m.entries[i].key);
  }
}
