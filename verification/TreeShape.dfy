/** The tables and arrays of a parse form a tree: one parent each, and a way down from the root to every one. */
module TreeShape {
  import opened TomlKeys
  import opened TomlTree

  /** A place that refers to a table or an array: an entry of a table, or an element of an array. */
  datatype Slot = InTable(t: TableId, i: nat) | InArray(a: ArrayId, i: nat)

  predicate HoldsTable(h: Heap, s: Slot, id: TableId) {
    match s
    case InTable(t, i) => t < |h.tables| && i < |h.tables[t].tables| && h.tables[t].tables[i] == id
    case InArray(a, i) => a < |h.arrays| && i < |h.arrays[a].tables| && h.arrays[a].tables[i] == id
  }

  predicate HoldsArray(h: Heap, s: Slot, id: ArrayId) {
    match s
    case InTable(t, i) => t < |h.tables| && i < |h.tables[t].arrays| && h.tables[t].arrays[i] == id
    case InArray(a, i) => a < |h.arrays| && i < |h.arrays[a].arrays| && h.arrays[a].arrays[i] == id
  }

  /** For each table and each array the slot that holds it, and its distance from the root. */
  datatype Layout = Layout(tableSlots: seq<Slot>, arraySlots: seq<Slot>, tableDepths: seq<nat>, arrayDepths: seq<nat>)

  /** The depth of the table or array that the slot is in. */
  function OwnerDepth(l: Layout, s: Slot): nat {
    match s
    case InTable(t, _) => if t < |l.tableDepths| then l.tableDepths[t] else 0
    case InArray(a, _) => if a < |l.arrayDepths| then l.arrayDepths[a] else 0
  }

  predicate Fits(h: Heap, l: Layout) {
    |l.tableSlots| == |l.tableDepths| == |h.tables| && |l.arraySlots| == |l.arrayDepths| == |h.arrays|
  }

  ghost predicate LaysOutTables(h: Heap, l: Layout)
    requires Fits(h, l)
  {
    && (forall s, id: nat :: HoldsTable(h, s, id) <==> ROOT < id < |h.tables| && s == l.tableSlots[id])
    && (forall id: nat :: ROOT < id < |h.tables| ==> l.tableDepths[id] == OwnerDepth(l, l.tableSlots[id]) + 1)
  }

  ghost predicate LaysOutArrays(h: Heap, l: Layout)
    requires Fits(h, l)
  {
    && (forall s, id: nat :: HoldsArray(h, s, id) <==> id < |h.arrays| && s == l.arraySlots[id])
    && (forall id: nat :: 0 <= id < |h.arrays| ==> l.arrayDepths[id] == OwnerDepth(l, l.arraySlots[id]) + 1)
  }

  ghost predicate LaysOut(h: Heap, l: Layout) {
    Fits(h, l) && LaysOutTables(h, l) && LaysOutArrays(h, l)
  }

  /**
   * The root is in no slot, every other table and every array is in exactly one, and each is one step further from the
   * root than what holds it - so that none is reachable from itself.
   */
  ghost predicate IsTree(h: Heap) {
    exists l :: LaysOut(h, l)
  }

  /** In a tree nothing has two parents, and nothing but the root has none. */
  lemma OneParent(h: Heap, s1: Slot, s2: Slot, id: nat)
    requires IsTree(h)
    ensures HoldsTable(h, s1, id) && HoldsTable(h, s2, id) ==> s1 == s2
    ensures HoldsArray(h, s1, id) && HoldsArray(h, s2, id) ==> s1 == s2
    ensures ROOT < id < |h.tables| ==> exists s :: HoldsTable(h, s, id)
    ensures id < |h.arrays| ==> exists s :: HoldsArray(h, s, id)
    ensures !HoldsTable(h, s1, ROOT)
  {
    var l :| LaysOut(h, l);
    if ROOT < id < |h.tables| {
      assert HoldsTable(h, l.tableSlots[id], id);
    }
    if id < |h.arrays| {
      assert HoldsArray(h, l.arraySlots[id], id);
    }
  }

  /** A table or an array, as the end of a way down. */
  datatype Node = TableNode(t: TableId) | ArrayNode(a: ArrayId)

  predicate Exists(h: Heap, n: Node) {
    match n
    case TableNode(t) => t < |h.tables|
    case ArrayNode(a) => a < |h.arrays|
  }

  function Owner(s: Slot): Node {
    match s
    case InTable(t, _) => TableNode(t)
    case InArray(a, _) => ArrayNode(a)
  }

  predicate Holds(h: Heap, s: Slot, n: Node) {
    match n
    case TableNode(t) => HoldsTable(h, s, t)
    case ArrayNode(a) => HoldsArray(h, s, a)
  }

  /** `way` leads from the root down to `n`: each slot is in what the one before it holds. */
  predicate LeadsTo(h: Heap, way: seq<Slot>, n: Node)
    decreases |way|
  {
    if way == [] then n == TableNode(ROOT)
    else Holds(h, way[|way| - 1], n) && LeadsTo(h, way[..|way| - 1], Owner(way[|way| - 1]))
  }

  function Depth(l: Layout, n: Node): nat {
    match n
    case TableNode(t) => if t < |l.tableDepths| then l.tableDepths[t] else 0
    case ArrayNode(a) => if a < |l.arrayDepths| then l.arrayDepths[a] else 0
  }

  lemma {:induction false} LaidOutWay(h: Heap, l: Layout, n: Node) returns (way: seq<Slot>)
    requires LaysOut(h, l) && Exists(h, n)
    ensures LeadsTo(h, way, n) && forall other :: LeadsTo(h, other, n) ==> other == way
    decreases Depth(l, n)
  {
    if n == TableNode(ROOT) {
      way := [];
      assert forall s :: !Holds(h, s, n);
    } else {
      var s := if n.TableNode? then l.tableSlots[n.t] else l.arraySlots[n.a];
      assert Holds(h, s, n) && Depth(l, n) == OwnerDepth(l, s) + 1;
      var before := LaidOutWay(h, l, Owner(s));
      way := before + [s];
      assert way[..|way| - 1] == before;
      forall other | LeadsTo(h, other, n) ensures other == way {
        var last := other[|other| - 1];
        assert Holds(h, last, n) && last == s && LeadsTo(h, other[..|other| - 1], Owner(s));
        assert other == other[..|other| - 1] + [last];
      }
    }
  }

  /** Everything in a tree is reached from the root in exactly one way. */
  lemma OneWay(h: Heap, n: Node) returns (way: seq<Slot>)
    requires IsTree(h) && Exists(h, n)
    ensures LeadsTo(h, way, n) && forall other :: LeadsTo(h, other, n) ==> other == way
  {
    var l :| LaysOut(h, l);
    way := LaidOutWay(h, l, n);
  }

  // ---------------------------------------------------------------- writers keep the tree

  /** What changes no slot. */
  lemma SameSlots(h: Heap, h': Heap)
    requires |h'.tables| == |h.tables| && |h'.arrays| == |h.arrays|
    requires forall t :: 0 <= t < |h.tables| ==>
      h'.tables[t].tables == h.tables[t].tables && h'.tables[t].arrays == h.tables[t].arrays
    requires forall a :: 0 <= a < |h.arrays| ==>
      h'.arrays[a].tables == h.arrays[a].tables && h'.arrays[a].arrays == h.arrays[a].arrays
    requires IsTree(h)
    ensures IsTree(h')
  {
    var l :| LaysOut(h, l);
    assert forall s, id: nat :: HoldsTable(h', s, id) <==> HoldsTable(h, s, id);
    assert forall s, id: nat :: HoldsArray(h', s, id) <==> HoldsArray(h, s, id);
    assert LaysOut(h', l);
  }

  /** One more table, in one more slot of what was there. */
  lemma OneMoreTable(h: Heap, h': Heap, slot: Slot)
    requires |h'.tables| == |h.tables| + 1 && |h'.arrays| == |h.arrays| && h.tables != [] && Exists(h, Owner(slot))
    requires forall s, id: nat :: HoldsTable(h', s, id) <==> HoldsTable(h, s, id) || (s == slot && id == |h.tables|)
    requires forall s, id: nat :: HoldsArray(h', s, id) <==> HoldsArray(h, s, id)
    requires IsTree(h)
    ensures IsTree(h')
  {
    var l :| LaysOut(h, l);
    var l' := l.(tableSlots := l.tableSlots + [slot], tableDepths := l.tableDepths + [OwnerDepth(l, slot) + 1]);
    forall id | ROOT < id < |h.tables| ensures OwnerDepth(l', l.tableSlots[id]) == OwnerDepth(l, l.tableSlots[id]) {
      assert HoldsTable(h, l.tableSlots[id], id);
    }
    forall id | 0 <= id < |h.arrays| ensures OwnerDepth(l', l.arraySlots[id]) == OwnerDepth(l, l.arraySlots[id]) {
      assert HoldsArray(h, l.arraySlots[id], id);
    }
    assert LaysOut(h', l');
  }

  lemma OneMoreArray(h: Heap, h': Heap, slot: Slot)
    requires |h'.tables| == |h.tables| && |h'.arrays| == |h.arrays| + 1 && Exists(h, Owner(slot))
    requires forall s, id: nat :: HoldsArray(h', s, id) <==> HoldsArray(h, s, id) || (s == slot && id == |h.arrays|)
    requires forall s, id: nat :: HoldsTable(h', s, id) <==> HoldsTable(h, s, id)
    requires IsTree(h)
    ensures IsTree(h')
  {
    var l :| LaysOut(h, l);
    var l' := l.(arraySlots := l.arraySlots + [slot], arrayDepths := l.arrayDepths + [OwnerDepth(l, slot) + 1]);
    forall id | ROOT < id < |h.tables| ensures OwnerDepth(l', l.tableSlots[id]) == OwnerDepth(l, l.tableSlots[id]) {
      assert HoldsTable(h, l.tableSlots[id], id);
    }
    forall id | 0 <= id < |h.arrays| ensures OwnerDepth(l', l.arraySlots[id]) == OwnerDepth(l, l.arraySlots[id]) {
      assert HoldsArray(h, l.arraySlots[id], id);
    }
    assert LaysOut(h', l');
  }

  lemma AddTableStays(h: Heap, t: TableId, key: Key, implicit: bool)
    requires t < |h.tables| && IsTree(h)
    ensures IsTree(AddTable(h, t, key, implicit))
  {
    OneMoreTable(h, AddTable(h, t, key, implicit), InTable(t, |h.tables[t].tables|));
  }

  lemma AddArrayStays(h: Heap, t: TableId, key: Key, kind: ElementKind)
    requires t < |h.tables| && IsTree(h)
    ensures IsTree(AddArray(h, t, key, kind))
  {
    OneMoreArray(h, AddArray(h, t, key, kind), InTable(t, |h.tables[t].arrays|));
  }

  lemma PushTableStays(h: Heap, a: ArrayId, key: Key)
    requires a < |h.arrays| && h.tables != [] && IsTree(h)
    ensures IsTree(PushTable(h, a, key))
  {
    OneMoreTable(h, PushTable(h, a, key), InArray(a, |h.arrays[a].tables|));
  }

  lemma PushArrayStays(h: Heap, a: ArrayId)
    requires a < |h.arrays| && IsTree(h)
    ensures IsTree(PushArray(h, a))
  {
    OneMoreArray(h, PushArray(h, a), InArray(a, |h.arrays[a].arrays|));
  }

  lemma RootIsTree(h: Heap)
    requires |h.tables| == 1 && h.tables[0].arrays == [] && h.tables[0].tables == [] && h.arrays == []
    ensures IsTree(h)
  {
    assert LaysOut(h, Layout([InTable(ROOT, 0)], [], [0], []));
  }
}
