/** Table headers: whatever their order, a list of [a.b.c] headers makes the same tree. */
module TableHeaders {
  import opened Common
  import opened Lexer
  import opened TomlKeys
  import opened TomlTree
  import opened TomlGrammar

  type Path = seq<Key>

  /** The table that a path of keys leads to from `t`. */
  function Lookup(h: Heap, t: TableId, p: Path): (r: Option<TableId>)
    requires Sound(h) && t < |h.tables|
    ensures r.Some? ==> r.value < |h.tables|
    decreases |p|
  {
    if p == [] then Some(t)
    else
      match TableIn(h, t, p[0])
      case None => None
      case Some(next) =>
        assert TableSound(h, t);
        Lookup(h, next, p[1..])
  }

  function At(h: Heap, p: Path): (r: Option<TableId>)
    requires Sound(h)
    ensures r.Some? ==> r.value < |h.tables|
  {
    Lookup(h, ROOT, p)
  }

  /** No key-values and no arrays. */
  predicate OnlyTables(h: Heap) {
    h.arrays == [] && forall t :: 0 <= t < |h.tables| ==> h.tables[t].kvals == [] && h.tables[t].arrays == []
  }

  /**
   * The tree of tables in `h` has exactly the paths `nodes`, of which exactly `explicit` were asked for by a header
   * of their own, and no two paths share a table.
   */
  ghost predicate Shape(h: Heap, nodes: set<Path>, explicit: set<Path>) {
    && Sound(h) && OnlyTables(h)
    && (forall p :: At(h, p).Some? <==> p in nodes)
    && (forall p :: p in nodes ==> (h.tables[At(h, p).value].implicit <==> p !in explicit))
    && (forall p, q :: p in nodes && q in nodes && At(h, p) == At(h, q) ==> p == q)
  }

  // ---------------------------------------------------------------- one more table

  lemma {:induction false} FindAppended(keys: seq<Key>, key: Key, k: Key)
    requires key !in keys
    ensures Find(keys + [key], k) == if k == key then |keys| else if k in keys then Find(keys, k) else |keys| + 1
  {
    if keys == [] {
      assert keys + [key] == [key];
      assert [key][1..] == [];
    } else if keys[0] != k {
      assert (keys + [key])[1..] == keys[1..] + [key];
      FindAppended(keys[1..], key, k);
      assert keys == [keys[0]] + keys[1..];
    }
  }

  lemma ChildrenAfterAdd(h: Heap, t: TableId, key: Key, implicit: bool, u: TableId, k: Key)
    requires Sound(h) && t < |h.tables| && u <= |h.tables| && TableIn(h, t, key).None?
    ensures Sound(AddTable(h, t, key, implicit))
    ensures TableIn(AddTable(h, t, key, implicit), u, k) ==
            if u == |h.tables| then None
            else if u == t && k == key then Some(|h.tables|)
            else TableIn(h, u, k)
  {
    var h' := AddTable(h, t, key, implicit);
    SoundTables(h, t, key, implicit);
    if u < |h.tables| {
      assert TableSound(h, u) && TableSound(h', u);
      if u == t {
        assert TableKeys(h', t) == TableKeys(h, t) + [key];
        FindAppended(TableKeys(h, t), key, k);
      } else {
        assert TableKeys(h', u) == TableKeys(h, u);
      }
    } else {
      assert TableKeys(h', u) == [];
    }
  }

  lemma {:induction false} LookupAfterAdd(h: Heap, t: TableId, key: Key, implicit: bool, u: TableId, p: Path)
    requires Sound(h) && t < |h.tables| && u < |h.tables| && TableIn(h, t, key).None?
    ensures Sound(AddTable(h, t, key, implicit))
    ensures Lookup(AddTable(h, t, key, implicit), u, p) ==
            if p != [] && p[|p| - 1] == key && Lookup(h, u, p[..|p| - 1]) == Some(t) then Some(|h.tables|)
            else Lookup(h, u, p)
    decreases |p|
  {
    var h' := AddTable(h, t, key, implicit);
    SoundTables(h, t, key, implicit);
    if p != [] {
      var k, rest := p[0], p[1..];
      ChildrenAfterAdd(h, t, key, implicit, u, k);
      if rest != [] {
        assert p[..|p| - 1][1..] == rest[..|rest| - 1] && rest[|rest| - 1] == p[|p| - 1];
      }
      if u == t && k == key {
        if rest != [] {
          ChildrenAfterAdd(h, t, key, implicit, |h.tables|, rest[0]);
        }
      } else if TableIn(h, u, k).Some? {
        assert TableSound(h, u);
        LookupAfterAdd(h, t, key, implicit, TableIn(h, u, k).value, rest);
      }
    }
  }

  lemma {:induction false} LookupExtends(h: Heap, u: TableId, p: Path, k: Key)
    requires Sound(h) && u < |h.tables|
    ensures Lookup(h, u, p + [k]) == if Lookup(h, u, p).Some? then TableIn(h, Lookup(h, u, p).value, k) else None
    decreases |p|
  {
    if p == [] {
      assert (p + [k])[1..] == [];
      assert TableSound(h, u);
    } else {
      assert (p + [k])[1..] == p[1..] + [k];
      if TableIn(h, u, p[0]).Some? {
        assert TableSound(h, u);
        LookupExtends(h, TableIn(h, u, p[0]).value, p[1..], k);
      }
    }
  }

  lemma OnlyTablesFound(h: Heap, t: TableId, key: Key)
    requires Sound(h) && OnlyTables(h) && t < |h.tables|
    ensures CheckKey(h, t, key) ==
            match TableIn(h, t, key) { case None => Absent case Some(id) => AsTable(id) }
  {
    assert KvalKeys(h, t) == [] && ArrayKeys(h, t) == [];
  }

  lemma AtAfterAdd(h: Heap, q: Path, key: Key, implicit: bool, p: Path)
    requires Sound(h) && At(h, q).Some? && At(h, q + [key]).None?
    requires At(h, p[..if p == [] then 0 else |p| - 1]) == At(h, q) ==> p[..if p == [] then 0 else |p| - 1] == q
    ensures var h' := AddTable(h, At(h, q).value, key, implicit);
            Sound(h') && At(h', p) == if p == q + [key] then Some(|h.tables|) else At(h, p)
  {
    var t := At(h, q).value;
    LookupExtends(h, ROOT, q, key);
    LookupAfterAdd(h, t, key, implicit, ROOT, p);
    if p != [] {
      assert p == p[..|p| - 1] + [p[|p| - 1]];
    }
  }

  /** A path in the tree after a table was added below `q`: it is new, or it was there with the same table. */
  lemma AddedAt(h: Heap, nodes: set<Path>, explicit: set<Path>, q: Path, key: Key, implicit: bool, p: Path)
    requires Shape(h, nodes, explicit) && q in nodes && q + [key] !in nodes
    ensures var h' := AddTable(h, At(h, q).value, key, implicit);
            Sound(h') && At(h', p) == if p == q + [key] then Some(|h.tables|) else At(h, p)
  {
    assert At(h, q + [key]).None? by {
      assert q + [key] !in nodes;
    }
    AtAfterAdd(h, q, key, implicit, p);
  }

  /** Adding a table below the path `q` adds that one path to the tree. */
  lemma AddShapes(h: Heap, nodes: set<Path>, explicit: set<Path>, q: Path, key: Key, implicit: bool)
    requires Shape(h, nodes, explicit) && q in nodes && q + [key] !in nodes && q + [key] !in explicit
    ensures var h' := AddTable(h, At(h, q).value, key, implicit);
            && Shape(h', nodes + {q + [key]}, if implicit then explicit else explicit + {q + [key]})
            && At(h', q + [key]) == Some(|h.tables|)
  {
    var h' := AddTable(h, At(h, q).value, key, implicit);
    SoundTables(h, At(h, q).value, key, implicit);
    forall p ensures At(h', p) == if p == q + [key] then Some(|h.tables|) else At(h, p) {
      AddedAt(h, nodes, explicit, q, key, implicit, p);
    }
    NewShape(h, h', nodes, explicit, q + [key], implicit);
  }

  /** A tree with one more path and one more table behind the others. */
  lemma NewShape(h: Heap, h': Heap, nodes: set<Path>, explicit: set<Path>, new': Path, implicit: bool)
    requires Shape(h, nodes, explicit) && new' !in nodes && new' !in explicit && Sound(h') && OnlyTables(h')
    requires forall p :: At(h', p) == if p == new' then Some(|h.tables|) else At(h, p)
    requires |h'.tables| == |h.tables| + 1 && h'.tables[|h.tables|].implicit == implicit
    requires forall t :: 0 <= t < |h.tables| ==> h'.tables[t].implicit == h.tables[t].implicit
    ensures Shape(h', nodes + {new'}, if implicit then explicit else explicit + {new'})
  {
  }

  lemma ExplicitKeepsTables(h: Heap, id: TableId, u: TableId, p: Path)
    requires Sound(h) && id < |h.tables| && u < |h.tables|
    ensures Sound(MakeExplicit(h, id)) && Lookup(MakeExplicit(h, id), u, p) == Lookup(h, u, p)
    decreases |p|
  {
    var h' := MakeExplicit(h, id);
    SoundUpdates(h, id, h.tables[id].(implicit := false));
    if p != [] {
      assert TableSound(h, u);
      assert TableKeys(h', u) == TableKeys(h, u);
      if TableIn(h, u, p[0]).Some? {
        ExplicitKeepsTables(h, id, TableIn(h, u, p[0]).value, p[1..]);
      }
    }
  }

  lemma ExplicitShapes(h: Heap, nodes: set<Path>, explicit: set<Path>, q: Path)
    requires Shape(h, nodes, explicit) && q in nodes
    ensures Shape(MakeExplicit(h, At(h, q).value), nodes, explicit + {q})
  {
    var h' := MakeExplicit(h, At(h, q).value);
    forall p ensures Sound(h') && At(h', p) == At(h, p) {
      ExplicitKeepsTables(h, At(h, q).value, ROOT, p);
    }
  }

  // ---------------------------------------------------------------- one header

  function KeysOf(path: seq<Segment>): (p: Path)
    ensures |p| == |path|
  {
    seq(|path|, i requires 0 <= i < |path| => path[i].key)
  }

  function Prefixes(p: Path): set<Path> {
    set i | 0 <= i <= |p| :: p[..i]
  }

  lemma StepShapes(h: Heap, nodes: set<Path>, explicit: set<Path>, q: Path, segment: Segment)
    requires Shape(h, nodes, explicit) && explicit <= nodes && q in nodes
    ensures var step := WalkStep(h, At(h, q).value, segment);
            && step.Ok?
            && Shape(step.value.0, nodes + {q + [segment.key]}, explicit)
            && At(step.value.0, q + [segment.key]) == Some(step.value.1)
  {
    var t, q' := At(h, q).value, q + [segment.key];
    LookupExtends(h, ROOT, q, segment.key);
    OnlyTablesFound(h, t, segment.key);
    if TableIn(h, t, segment.key).None? {
      AddShapes(h, nodes, explicit, q, segment.key, true);
    } else {
      assert nodes + {q'} == nodes;
    }
  }

  lemma {:induction false} WalkShapes(h: Heap, nodes: set<Path>, explicit: set<Path>, q: Path, path: seq<Segment>)
    requires Shape(h, nodes, explicit) && explicit <= nodes && q in nodes
    ensures var walked := Walk(h, At(h, q).value, path);
            && walked.Ok?
            && Shape(walked.value.0, nodes + Below(q, KeysOf(path)), explicit)
            && At(walked.value.0, q + KeysOf(path)) == Some(walked.value.1)
    decreases |path|
  {
    if path == [] {
      assert KeysOf(path) == [] && q + [] == q;
      BelowNothing(q);
      assert nodes + {q} == nodes;
    } else {
      var q' := q + [path[0].key];
      StepShapes(h, nodes, explicit, q, path[0]);
      var step := WalkStep(h, At(h, q).value, path[0]).value;
      WalkShapes(step.0, nodes + {q'}, explicit, q', path[1..]);
      WalkedPaths(nodes, q, path);
    }
  }

  lemma WalkedPaths(nodes: set<Path>, q: Path, path: seq<Segment>)
    requires path != [] && q in nodes
    ensures var q' := q + [path[0].key];
            && q' + KeysOf(path[1..]) == q + KeysOf(path)
            && nodes + {q'} + Below(q', KeysOf(path[1..])) == nodes + Below(q, KeysOf(path))
  {
    var key, q', rest := path[0].key, q + [path[0].key], KeysOf(path[1..]);
    assert KeysOf(path) == [key] + rest;
    BelowStep(q, key, rest);
    assert q' in Below(q', rest) by {
      assert q' + rest[..0] == q';
    }
  }

  lemma BelowNothing(q: Path)
    ensures Below(q, []) == {q}
  {
    var nothing: Path := [];
    assert q + nothing[..0] == q;
  }

  /** The paths from `q` down to q + p. */
  function Below(q: Path, p: Path): set<Path> {
    set i | 0 <= i <= |p| :: q + p[..i]
  }

  lemma BelowStep(q: Path, key: Key, p: Path)
    ensures Below(q, [key] + p) == {q} + Below(q + [key], p)
  {
    var all := [key] + p;
    assert q + all[..0] == q;
    forall i | 0 <= i <= |p| ensures q + all[..i + 1] == q + [key] + p[..i] {
      assert all[..i + 1] == [key] + p[..i];
    }
    forall x | x in Below(q, all) ensures x in {q} + Below(q + [key], p) {
      var i :| 0 <= i <= |all| && x == q + all[..i];
      if i > 0 {
        assert x == q + [key] + p[..i - 1];
      }
    }
    forall x | x in Below(q + [key], p) ensures x in Below(q, all) {
      var i :| 0 <= i <= |p| && x == q + [key] + p[..i];
      assert x == q + all[..i + 1];
    }
  }

  /** A header [x.y.z] adds its prefixes and makes its own path explicit, and is refused exactly if it was already. */
  lemma HeaderShapes(h: Heap, nodes: set<Path>, explicit: set<Path>, path: seq<Segment>)
    requires Shape(h, nodes, explicit) && explicit <= nodes && [] in explicit && path != []
    ensures var selected := SelectTable(h, path);
            && (selected.Ok? <==> KeysOf(path) !in explicit)
            && (selected.Ok? ==>
                  && Shape(selected.value.0, nodes + Prefixes(KeysOf(path)), explicit + {KeysOf(path)})
                  && At(selected.value.0, KeysOf(path)) == Some(selected.value.1))
  {
    var front, z := path[..|path| - 1], path[|path| - 1];
    var p, q := KeysOf(path), KeysOf(front);
    assert p == q + [z.key];
    WalkShapes(h, nodes, explicit, [], front);
    assert [] + q == q;
    var (h1, t) := Walk(h, ROOT, front).value;
    var nodes1 := nodes + Below([], q);
    assert q in Below([], q) by {
      assert [] + q[..|q|] == q;
    }
    PrefixesGrow(q, z.key);
    assert nodes1 + {p} == nodes + Prefixes(p);
    ClaimShapes(h1, nodes1, explicit, q, z.key);
  }

  lemma ClaimShapes(h: Heap, nodes: set<Path>, explicit: set<Path>, q: Path, key: Key)
    requires Shape(h, nodes, explicit) && explicit <= nodes && q in nodes
    ensures var claimed := ClaimTable(h, At(h, q).value, key);
            && (claimed.Some? <==> q + [key] !in explicit)
            && (claimed.Some? ==>
                  && Shape(claimed.value.0, nodes + {q + [key]}, explicit + {q + [key]})
                  && At(claimed.value.0, q + [key]) == Some(claimed.value.1))
  {
    var t, p := At(h, q).value, q + [key];
    LookupExtends(h, ROOT, q, key);
    OnlyTablesFound(h, t, key);
    if TableIn(h, t, key).None? {
      AddShapes(h, nodes, explicit, q, key, false);
    } else {
      var id := TableIn(h, t, key).value;
      assert At(h, p) == Some(id) && p in nodes;
      assert nodes + {p} == nodes;
      if h.tables[id].implicit {
        ExplicitShapes(h, nodes, explicit, p);
        ExplicitKeepsTables(h, id, ROOT, p);
      }
    }
  }

  lemma PrefixesGrow(q: Path, key: Key)
    ensures Prefixes(q + [key]) == Below([], q) + {q + [key]}
  {
    var p := q + [key];
    assert p[..|p|] == p;
    forall i | 0 <= i <= |q| ensures p[..i] == [] + q[..i] {
    }
    forall x | x in Prefixes(p) ensures x in Below([], q) + {p} {
      var i :| 0 <= i <= |p| && x == p[..i];
      if i <= |q| {
        assert x == [] + q[..i];
      }
    }
    forall x | x in Below([], q) ensures x in Prefixes(p) {
      var i :| 0 <= i <= |q| && x == [] + q[..i];
      assert x == p[..i];
    }
  }

  // ---------------------------------------------------------------- any list of headers

  /** The tree after a list of headers, or the first refusal. */
  function SelectAll(h: Heap, paths: seq<seq<Segment>>): Result<Heap, Failure>
    requires Sound(h) && forall i :: 0 <= i < |paths| ==> paths[i] != []
    decreases |paths|
  {
    if paths == [] then Ok(h)
    else
      var selected :- SelectTable(h, paths[0]);
      SelectAll(selected.0, paths[1..])
  }

  function Listed(paths: seq<seq<Segment>>): set<Path> {
    set i | 0 <= i < |paths| :: KeysOf(paths[i])
  }

  function Closure(paths: seq<seq<Segment>>): set<Path> {
    set i, j | 0 <= i < |paths| && 0 <= j <= |paths[i]| :: KeysOf(paths[i])[..j]
  }

  predicate AllDistinct(paths: seq<seq<Segment>>) {
    forall i, j :: 0 <= i < j < |paths| ==> KeysOf(paths[i]) != KeysOf(paths[j])
  }

  lemma ListedStep(paths: seq<seq<Segment>>)
    requires paths != []
    ensures Listed(paths) == {KeysOf(paths[0])} + Listed(paths[1..])
    ensures Closure(paths) == Prefixes(KeysOf(paths[0])) + Closure(paths[1..])
    ensures AllDistinct(paths) <==> KeysOf(paths[0]) !in Listed(paths[1..]) && AllDistinct(paths[1..])
  {
    var rest := paths[1..];
    assert forall i :: 0 <= i < |rest| ==> rest[i] == paths[i + 1];
    forall x | x in Listed(paths) ensures x in {KeysOf(paths[0])} + Listed(rest) {
      var i :| 0 <= i < |paths| && x == KeysOf(paths[i]);
      assert i > 0 ==> x == KeysOf(rest[i - 1]);
    }
    forall x | x in Listed(rest) ensures x in Listed(paths) {
      var i :| 0 <= i < |rest| && x == KeysOf(rest[i]);
      assert x == KeysOf(paths[i + 1]);
    }
    forall x | x in Closure(paths) ensures x in Prefixes(KeysOf(paths[0])) + Closure(rest) {
      var i, j :| 0 <= i < |paths| && 0 <= j <= |paths[i]| && x == KeysOf(paths[i])[..j];
      assert i > 0 ==> x == KeysOf(rest[i - 1])[..j];
    }
    forall x | x in Closure(rest) ensures x in Closure(paths) {
      var i, j :| 0 <= i < |rest| && 0 <= j <= |rest[i]| && x == KeysOf(rest[i])[..j];
      assert x == KeysOf(paths[i + 1])[..j];
    }
    forall x | x in Prefixes(KeysOf(paths[0])) ensures x in Closure(paths) {
      var j :| 0 <= j <= |KeysOf(paths[0])| && x == KeysOf(paths[0])[..j];
      assert x == KeysOf(paths[0])[..j];
    }
    if KeysOf(paths[0]) !in Listed(rest) && AllDistinct(rest) {
      forall i, j | 0 <= i < j < |paths| ensures KeysOf(paths[i]) != KeysOf(paths[j]) {
        assert paths[j] == rest[j - 1];
        if i > 0 {
          assert paths[i] == rest[i - 1];
        }
      }
    } else if AllDistinct(paths) {
      forall i, j | 0 <= i < j < |rest| ensures KeysOf(rest[i]) != KeysOf(rest[j]) {
        assert rest[i] == paths[i + 1] && rest[j] == paths[j + 1];
      }
    }
  }

  lemma {:induction false} AllShape(h: Heap, nodes: set<Path>, explicit: set<Path>, paths: seq<seq<Segment>>)
    requires Shape(h, nodes, explicit) && explicit <= nodes && [] in explicit
    requires forall i :: 0 <= i < |paths| ==> paths[i] != []
    ensures var all := SelectAll(h, paths);
            && (all.Ok? <==> AllDistinct(paths) && Listed(paths) !! explicit)
            && (all.Ok? ==> Shape(all.value, nodes + Closure(paths), explicit + Listed(paths)))
    decreases |paths|
  {
    if paths == [] {
      assert nodes + Closure(paths) == nodes && explicit + Listed(paths) == explicit;
    } else {
      var p := KeysOf(paths[0]);
      HeaderShapes(h, nodes, explicit, paths[0]);
      HeaderPaths(nodes, explicit, paths);
      if p !in explicit {
        AllShape(SelectTable(h, paths[0]).value.0, nodes + Prefixes(p), explicit + {p}, paths[1..]);
      }
    }
  }

  lemma HeaderPaths(nodes: set<Path>, explicit: set<Path>, paths: seq<seq<Segment>>)
    requires paths != []
    ensures var p := KeysOf(paths[0]);
            && p in Prefixes(p)
            && nodes + Prefixes(p) + Closure(paths[1..]) == nodes + Closure(paths)
            && explicit + {p} + Listed(paths[1..]) == explicit + Listed(paths)
            && (AllDistinct(paths) && Listed(paths) !! explicit <==>
                p !in explicit && AllDistinct(paths[1..]) && Listed(paths[1..]) !! (explicit + {p}))
  {
    ListedStep(paths);
    assert KeysOf(paths[0])[..|paths[0]|] == KeysOf(paths[0]);
  }

  lemma RootShape(h: Heap)
    requires h.tables == [Table([], false, [], [], [])] && h.arrays == [] && Sound(h)
    ensures Shape(h, {[]}, {[]})
  {
    forall p ensures At(h, p).Some? <==> p == [] {
      if p != [] {
        assert TableKeys(h, ROOT) == [];
      }
    }
  }

  /**
   * For any list of headers, whatever the order: the parse of them succeeds exactly if no path comes twice, and then
   * the tree has exactly the prefixes of the paths, each implicit exactly when it is no path of the list itself.
   */
  lemma HeadersMakeClosure(h: Heap, paths: seq<seq<Segment>>)
    requires h.tables == [Table([], false, [], [], [])] && h.arrays == [] && Sound(h)
    requires forall i :: 0 <= i < |paths| ==> paths[i] != []
    ensures var all := SelectAll(h, paths);
            && (all.Ok? <==> AllDistinct(paths))
            && (all.Ok? ==> Shape(all.value, {[]} + Closure(paths), {[]} + Listed(paths)))
  {
    RootShape(h);
    AllShape(h, {[]}, {[]}, paths);
    assert Listed(paths) !! {[]};
  }

  /** The headers of two lists are the same up to order. */
  predicate SamePaths(a: seq<seq<Segment>>, b: seq<seq<Segment>>) {
    Listed(a) == Listed(b)
  }

  /** Two orders of the same headers, each path once: the same paths are there, implicit in both or in neither. */
  lemma HeadersInAnyOrder(h: Heap, a: seq<seq<Segment>>, b: seq<seq<Segment>>)
    requires h.tables == [Table([], false, [], [], [])] && h.arrays == [] && Sound(h)
    requires forall i :: 0 <= i < |a| ==> a[i] != []
    requires forall i :: 0 <= i < |b| ==> b[i] != []
    requires SamePaths(a, b) && AllDistinct(a) && AllDistinct(b)
    ensures SelectAll(h, a).Ok? && SelectAll(h, b).Ok?
    ensures var ta, tb := SelectAll(h, a).value, SelectAll(h, b).value;
            && Sound(ta) && Sound(tb)
            && forall p :: (At(ta, p).Some? <==> At(tb, p).Some?) &&
                 (At(ta, p).Some? ==> ta.tables[At(ta, p).value].implicit == tb.tables[At(tb, p).value].implicit)
  {
    HeadersMakeClosure(h, a);
    HeadersMakeClosure(h, b);
    SameClosure(a, b);
    SameClosure(b, a);
    assert Closure(a) == Closure(b);
  }

  lemma SameClosure(a: seq<seq<Segment>>, b: seq<seq<Segment>>)
    requires Listed(a) <= Listed(b)
    ensures Closure(a) <= Closure(b)
  {
    forall x | x in Closure(a) ensures x in Closure(b) {
      var i, j :| 0 <= i < |a| && 0 <= j <= |a[i]| && x == KeysOf(a[i])[..j];
      assert KeysOf(a[i]) in Listed(b);
      var k :| 0 <= k < |b| && KeysOf(b[k]) == KeysOf(a[i]);
      assert x == KeysOf(b[k])[..j];
    }
  }
}
