/**
 * The tables and arrays of src/toml/toml.c. A pointer to one is its position in the order of allocation, so that the
 * writers update in place and every pointer kept elsewhere sees the update.
 */
module TomlTree {
  import opened Common
  import opened TomlKeys

  type Raw = seq<byte>
  type TableId = nat
  type ArrayId = nat

  datatype KeyVal = KeyVal(key: Key, val: Raw)

  datatype Table = Table(key: Key, implicit: bool, kvals: seq<KeyVal>, arrays: seq<ArrayId>, tables: seq<TableId>)

  datatype ElementKind = Unset | Values | Arrays | Tables

  datatype ValueType = Text | Boolean | Integer | Double | Timestamp | Date | Time | Unknown

  /** An array has elements of one kind only; `valueType` counts once there are values. */
  datatype Array = Array(
    key: Key, kind: ElementKind, valueType: ValueType, vals: seq<Raw>, arrays: seq<ArrayId>, tables: seq<TableId>)

  datatype Heap = Heap(tables: seq<Table>, arrays: seq<Array>)

  const ROOT: TableId := 0
  const EMPTY_ROOT: Heap := Heap([Table([], false, [], [], [])], [])
  /** "__anon__", the key of the tables in an array. */
  const ANON: Key := [0x5f, 0x5f, 0x61, 0x6e, 0x6f, 0x6e, 0x5f, 0x5f]

  // ---------------------------------------------------------------- pointers are good

  predicate TableSound(h: Heap, t: TableId)
    requires t < |h.tables|
  {
    && (forall i :: 0 <= i < |h.tables[t].tables| ==> t < h.tables[t].tables[i] < |h.tables|)
    && (forall i :: 0 <= i < |h.tables[t].arrays| ==> h.tables[t].arrays[i] < |h.arrays|)
  }

  predicate ArraySound(h: Heap, a: ArrayId)
    requires a < |h.arrays|
  {
    && (forall i :: 0 <= i < |h.arrays[a].tables| ==> h.arrays[a].tables[i] < |h.tables|)
    && (forall i :: 0 <= i < |h.arrays[a].arrays| ==> a < h.arrays[a].arrays[i] < |h.arrays|)
  }

  predicate Sound(h: Heap) {
    && h.tables != []
    && (forall t :: 0 <= t < |h.tables| ==> TableSound(h, t))
    && (forall a :: 0 <= a < |h.arrays| ==> ArraySound(h, a))
  }

  // ---------------------------------------------------------------- looking up

  function KvalKeys(h: Heap, t: TableId): (r: seq<Key>)
    requires t < |h.tables|
    ensures |r| == |h.tables[t].kvals|
  {
    seq(|h.tables[t].kvals|, i requires 0 <= i < |h.tables[t].kvals| => h.tables[t].kvals[i].key)
  }

  function ArrayKeys(h: Heap, t: TableId): (r: seq<Key>)
    requires Sound(h) && t < |h.tables|
    ensures |r| == |h.tables[t].arrays|
  {
    seq(|h.tables[t].arrays|, i requires 0 <= i < |h.tables[t].arrays| =>
      assert TableSound(h, t); h.arrays[h.tables[t].arrays[i]].key)
  }

  function TableKeys(h: Heap, t: TableId): (r: seq<Key>)
    requires Sound(h) && t < |h.tables|
    ensures |r| == |h.tables[t].tables|
  {
    seq(|h.tables[t].tables|, i requires 0 <= i < |h.tables[t].tables| =>
      assert TableSound(h, t); h.tables[h.tables[t].tables[i]].key)
  }

  /** All keys of a table: of its key-values, then of its arrays, then of its tables. */
  function Keys(h: Heap, t: TableId): seq<Key>
    requires Sound(h) && t < |h.tables|
  {
    KvalKeys(h, t) + ArrayKeys(h, t) + TableKeys(h, t)
  }

  /** The first position of a key, or the length. */
  function Find(keys: seq<Key>, key: Key): (i: nat)
    ensures i <= |keys| && (i < |keys| ==> keys[i] == key)
    ensures forall j :: 0 <= j < i ==> keys[j] != key
    ensures i < |keys| <==> key in keys
  {
    if keys == [] || keys[0] == key then 0 else 1 + Find(keys[1..], key)
  }

  datatype Found = Absent | AsValue(index: nat) | AsArray(a: ArrayId) | AsTable(t: TableId)

  /** check_key. */
  function CheckKey(h: Heap, t: TableId, key: Key): Found
    requires Sound(h) && t < |h.tables|
  {
    if key in KvalKeys(h, t) then AsValue(Find(KvalKeys(h, t), key))
    else if key in ArrayKeys(h, t) then AsArray(h.tables[t].arrays[Find(ArrayKeys(h, t), key)])
    else if key in TableKeys(h, t) then AsTable(h.tables[t].tables[Find(TableKeys(h, t), key)])
    else Absent
  }

  method LookUp(h: Heap, t: TableId, key: Key) returns (found: Found)
    requires Sound(h) && t < |h.tables|
    ensures found == CheckKey(h, t, key)
  {
    var tab := h.tables[t];
    for i := 0 to |tab.kvals|
      invariant key !in KvalKeys(h, t)[..i]
    {
      if tab.kvals[i].key == key {
        FindFirst(KvalKeys(h, t), key, i);
        return AsValue(i);
      }
    }
    assert KvalKeys(h, t)[..|tab.kvals|] == KvalKeys(h, t);
    for i := 0 to |tab.arrays|
      invariant key !in ArrayKeys(h, t)[..i]
    {
      assert TableSound(h, t);
      if h.arrays[tab.arrays[i]].key == key {
        FindFirst(ArrayKeys(h, t), key, i);
        return AsArray(tab.arrays[i]);
      }
    }
    assert ArrayKeys(h, t)[..|tab.arrays|] == ArrayKeys(h, t);
    for i := 0 to |tab.tables|
      invariant key !in TableKeys(h, t)[..i]
    {
      assert TableSound(h, t);
      if h.tables[tab.tables[i]].key == key {
        FindFirst(TableKeys(h, t), key, i);
        return AsTable(tab.tables[i]);
      }
    }
    assert TableKeys(h, t)[..|tab.tables|] == TableKeys(h, t);
    return Absent;
  }

  lemma FindFirst(keys: seq<Key>, key: Key, i: nat)
    requires i < |keys| && keys[i] == key && key !in keys[..i]
    ensures key in keys && Find(keys, key) == i
  {
    forall j | 0 <= j < i ensures keys[j] != key {
      assert keys[..i][j] == keys[j];
    }
  }

  /** toml_raw_in, toml_array_in, toml_table_in: each looks at its own kind only. */
  function RawIn(h: Heap, t: TableId, key: Key): Option<Raw>
    requires t < |h.tables|
  {
    var i := Find(KvalKeys(h, t), key);
    if i < |h.tables[t].kvals| then Some(h.tables[t].kvals[i].val) else None
  }

  function ArrayIn(h: Heap, t: TableId, key: Key): Option<ArrayId>
    requires Sound(h) && t < |h.tables|
  {
    var i := Find(ArrayKeys(h, t), key);
    if i < |h.tables[t].arrays| then Some(h.tables[t].arrays[i]) else None
  }

  function TableIn(h: Heap, t: TableId, key: Key): Option<TableId>
    requires Sound(h) && t < |h.tables|
  {
    var i := Find(TableKeys(h, t), key);
    if i < |h.tables[t].tables| then Some(h.tables[t].tables[i]) else None
  }

  /** toml_key_in: the key at a position counted through all three kinds. */
  function KeyIn(h: Heap, t: TableId, index: nat): Option<Key>
    requires Sound(h) && t < |h.tables|
  {
    var tab := h.tables[t];
    if index < |tab.kvals| then Some(tab.kvals[index].key)
    else if index - |tab.kvals| < |tab.arrays| then
      assert TableSound(h, t);
      Some(h.arrays[tab.arrays[index - |tab.kvals|]].key)
    else if index - |tab.kvals| - |tab.arrays| < |tab.tables| then
      assert TableSound(h, t);
      Some(h.tables[tab.tables[index - |tab.kvals| - |tab.arrays|]].key)
    else None
  }

  // ---------------------------------------------------------------- writing

  function UpdateTable(h: Heap, t: TableId, tab: Table): Heap
    requires t < |h.tables|
  {
    h.(tables := h.tables[t := tab])
  }

  function UpdateArray(h: Heap, a: ArrayId, arr: Array): Heap
    requires a < |h.arrays|
  {
    h.(arrays := h.arrays[a := arr])
  }

  /** A new key-value at the end of a table. */
  function AddValue(h: Heap, t: TableId, key: Key, val: Raw): Heap
    requires t < |h.tables|
  {
    UpdateTable(h, t, h.tables[t].(kvals := h.tables[t].kvals + [KeyVal(key, val)]))
  }

  /** A new table, empty, at the end of a table; its id is |h.tables|. */
  function AddTable(h: Heap, t: TableId, key: Key, implicit: bool): Heap
    requires t < |h.tables|
  {
    var h1 := UpdateTable(h, t, h.tables[t].(tables := h.tables[t].tables + [|h.tables|]));
    h1.(tables := h1.tables + [Table(key, implicit, [], [], [])])
  }

  function MakeExplicit(h: Heap, t: TableId): Heap
    requires t < |h.tables|
  {
    UpdateTable(h, t, h.tables[t].(implicit := false))
  }

  /** A new array at the end of a table; its id is |h.arrays|. */
  function AddArray(h: Heap, t: TableId, key: Key, kind: ElementKind): Heap
    requires t < |h.tables|
  {
    var h1 := UpdateTable(h, t, h.tables[t].(arrays := h.tables[t].arrays + [|h.arrays|]));
    h1.(arrays := h1.arrays + [Array(key, kind, Unknown, [], [], [])])
  }

  /** The kind of an array is set by its first element. */
  function SetKind(h: Heap, a: ArrayId, kind: ElementKind): Heap
    requires a < |h.arrays|
  {
    if h.arrays[a].kind == Unset then UpdateArray(h, a, h.arrays[a].(kind := kind)) else h
  }

  function PushValue(h: Heap, a: ArrayId, val: Raw, valueType: ValueType): Heap
    requires a < |h.arrays|
  {
    UpdateArray(h, a, h.arrays[a].(vals := h.arrays[a].vals + [val], valueType := valueType))
  }

  /** create_array_in_array; the id is |h.arrays|. */
  function PushArray(h: Heap, a: ArrayId): Heap
    requires a < |h.arrays|
  {
    var h1 := UpdateArray(h, a, h.arrays[a].(arrays := h.arrays[a].arrays + [|h.arrays|]));
    h1.(arrays := h1.arrays + [Array([], Unset, Unknown, [], [], [])])
  }

  /** create_table_in_array; the id is |h.tables|. */
  function PushTable(h: Heap, a: ArrayId, key: Key): Heap
    requires a < |h.arrays|
  {
    var h1 := UpdateArray(h, a, h.arrays[a].(tables := h.arrays[a].tables + [|h.tables|]));
    h1.(tables := h1.tables + [Table(key, false, [], [], [])])
  }

  // ---------------------------------------------------------------- writers only add

  predicate TableGrows(tab: Table, tab': Table) {
    && tab'.key == tab.key
    && (tab'.implicit ==> tab.implicit)
    && tab.kvals <= tab'.kvals && tab.arrays <= tab'.arrays && tab.tables <= tab'.tables
  }

  predicate ArrayGrows(arr: Array, arr': Array) {
    && arr'.key == arr.key
    && (arr'.kind == arr.kind || arr.kind == Unset)
    && (arr.vals != [] ==> arr'.valueType == arr.valueType)
    && arr.vals <= arr'.vals && arr.arrays <= arr'.arrays && arr.tables <= arr'.tables
  }

  /** Nothing that was there has been changed or removed; only implicit tables may have become explicit. */
  predicate Grows(h: Heap, h': Heap) {
    && |h.tables| <= |h'.tables| && |h.arrays| <= |h'.arrays|
    && (forall t :: 0 <= t < |h.tables| ==> TableGrows(h.tables[t], h'.tables[t]))
    && (forall a :: 0 <= a < |h.arrays| ==> ArrayGrows(h.arrays[a], h'.arrays[a]))
  }

  lemma GrowsTransitive(h: Heap, m: Heap, h': Heap)
    requires Grows(h, m) && Grows(m, h')
    ensures Grows(h, h')
  {
    forall t | 0 <= t < |h.tables| ensures TableGrows(h.tables[t], h'.tables[t]) {
      assert TableGrows(h.tables[t], m.tables[t]) && TableGrows(m.tables[t], h'.tables[t]);
    }
    forall a | 0 <= a < |h.arrays| ensures ArrayGrows(h.arrays[a], h'.arrays[a]) {
      assert ArrayGrows(h.arrays[a], m.arrays[a]) && ArrayGrows(m.arrays[a], h'.arrays[a]);
    }
  }

  // ---------------------------------------------------------------- the invariant of the tree

  predicate Distinct(keys: seq<Key>) {
    forall i, j :: 0 <= i < j < |keys| ==> keys[i] != keys[j]
  }

  /** An array is homogeneous: its kind decides what it holds, and its values have one type. */
  predicate Homogeneous(arr: Array, valtype: Raw -> ValueType) {
    && (arr.kind != Values ==> arr.vals == [])
    && (arr.kind != Arrays ==> arr.arrays == [])
    && (arr.kind != Tables ==> arr.tables == [])
    && (forall i :: 0 <= i < |arr.vals| ==> valtype(arr.vals[i]) == arr.valueType)
  }

  predicate WellFormed(h: Heap, valtype: Raw -> ValueType) {
    && Sound(h)
    && (forall t :: 0 <= t < |h.tables| ==> Distinct(Keys(h, t)))
    && (forall a :: 0 <= a < |h.arrays| ==> Homogeneous(h.arrays[a], valtype))
  }
}
