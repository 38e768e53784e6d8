/** What every parse keeps: the tree is well formed after each statement, and no statement takes anything away. */
module TomlProperties {
  import opened Common
  import opened Lexer
  import opened TomlKeys
  import opened TomlTree
  import opened TomlGrammar
  import opened TreeShape

  /** From `h` to `h'` the tree has only grown, and it is well formed, and a tree, if it was. */
  ghost predicate Kept(h: Heap, h': Heap, valtype: Raw -> ValueType) {
    Grows(h, h') && (WellFormed(h, valtype) ==> WellFormed(h', valtype)) && (IsTree(h) ==> IsTree(h'))
  }

  lemma KeptSame(h: Heap, valtype: Raw -> ValueType)
    ensures Kept(h, h, valtype)
  {
  }

  lemma KeptTransitive(h: Heap, m: Heap, h': Heap, valtype: Raw -> ValueType)
    requires Kept(h, m, valtype) && Kept(m, h', valtype)
    ensures Kept(h, h', valtype)
  {
    GrowsTransitive(h, m, h');
  }

  // ---------------------------------------------------------------- keys under updates

  /** A table whose own entries are untouched keeps its keys while the tree grows around it. */
  lemma KeysFrame(h: Heap, h': Heap, u: TableId)
    requires Sound(h) && Sound(h') && Grows(h, h') && u < |h.tables|
    requires h'.tables[u].kvals == h.tables[u].kvals
    requires h'.tables[u].arrays == h.tables[u].arrays && h'.tables[u].tables == h.tables[u].tables
    ensures Keys(h', u) == Keys(h, u)
  {
    assert TableSound(h, u);
    assert KvalKeys(h', u) == KvalKeys(h, u);
    forall i | 0 <= i < |h.tables[u].arrays| ensures ArrayKeys(h', u)[i] == ArrayKeys(h, u)[i] {
      assert ArrayGrows(h.arrays[h.tables[u].arrays[i]], h'.arrays[h.tables[u].arrays[i]]);
    }
    assert ArrayKeys(h', u) == ArrayKeys(h, u);
    forall i | 0 <= i < |h.tables[u].tables| ensures TableKeys(h', u)[i] == TableKeys(h, u)[i] {
      assert TableGrows(h.tables[h.tables[u].tables[i]], h'.tables[h.tables[u].tables[i]]);
    }
    assert TableKeys(h', u) == TableKeys(h, u);
  }

  lemma DistinctInsert(a: seq<Key>, key: Key, b: seq<Key>)
    requires Distinct(a + b) && key !in a && key !in b
    ensures Distinct(a + [key] + b)
  {
    var r := a + [key] + b;
    forall i, j | 0 <= i < j < |r| ensures r[i] != r[j] {
      assert i < |a| ==> r[i] == a[i] == (a + b)[i];
      assert i > |a| ==> r[i] == b[i - |a| - 1] == (a + b)[i - 1];
      assert j < |a| ==> r[j] == a[j] == (a + b)[j];
      assert j > |a| ==> r[j] == b[j - |a| - 1] == (a + b)[j - 1];
    }
  }

  // ---------------------------------------------------------------- each writer

  lemma ValueDistinct(h: Heap, t: TableId, key: Key, val: Raw)
    requires Sound(h) && t < |h.tables| && CheckKey(h, t, key).Absent? && Distinct(Keys(h, t))
    requires Sound(AddValue(h, t, key, val)) && Grows(h, AddValue(h, t, key, val))
    ensures Distinct(Keys(AddValue(h, t, key, val), t))
  {
    var h' := AddValue(h, t, key, val);
    TailKeys(h, h', t);
    assert KvalKeys(h', t) == KvalKeys(h, t) + [key];
    assert Keys(h, t) == KvalKeys(h, t) + (ArrayKeys(h, t) + TableKeys(h, t));
    DistinctInsert(KvalKeys(h, t), key, ArrayKeys(h, t) + TableKeys(h, t));
    assert Keys(h', t) == KvalKeys(h, t) + [key] + (ArrayKeys(h, t) + TableKeys(h, t));
  }

  lemma AddValueKeeps(h: Heap, t: TableId, key: Key, val: Raw, valtype: Raw -> ValueType)
    requires Sound(h) && t < |h.tables| && CheckKey(h, t, key).Absent?
    requires Sound(AddValue(h, t, key, val))
    ensures Kept(h, AddValue(h, t, key, val), valtype)
  {
    var h' := AddValue(h, t, key, val);
    assert Grows(h, h');
    if IsTree(h) {
      SameSlots(h, h');
    }
    if WellFormed(h, valtype) {
      forall u | 0 <= u < |h'.tables| ensures Distinct(Keys(h', u)) {
        if u == t {
          ValueDistinct(h, t, key, val);
        } else {
          KeysFrame(h, h', u);
        }
      }
    }
  }

  /** The keys of the arrays and tables that a table had already. */
  lemma TailKeys(h: Heap, h': Heap, t: TableId)
    requires Sound(h) && Sound(h') && Grows(h, h') && t < |h.tables|
    ensures ArrayKeys(h, t) <= ArrayKeys(h', t) && TableKeys(h, t) <= TableKeys(h', t)
  {
    assert TableSound(h, t);
    assert TableGrows(h.tables[t], h'.tables[t]);
    forall i | 0 <= i < |h.tables[t].arrays| ensures ArrayKeys(h', t)[i] == ArrayKeys(h, t)[i] {
      assert ArrayGrows(h.arrays[h.tables[t].arrays[i]], h'.arrays[h.tables[t].arrays[i]]);
    }
    forall i | 0 <= i < |h.tables[t].tables| ensures TableKeys(h', t)[i] == TableKeys(h, t)[i] {
      assert TableGrows(h.tables[h.tables[t].tables[i]], h'.tables[h.tables[t].tables[i]]);
    }
  }

  lemma AddTableGrows(h: Heap, t: TableId, key: Key, implicit: bool)
    requires t < |h.tables|
    ensures Grows(h, AddTable(h, t, key, implicit))
  {
  }

  lemma AddTableKeeps(h: Heap, t: TableId, key: Key, implicit: bool, valtype: Raw -> ValueType)
    requires Sound(h) && t < |h.tables| && CheckKey(h, t, key).Absent?
    ensures Kept(h, AddTable(h, t, key, implicit), valtype)
  {
    var h' := AddTable(h, t, key, implicit);
    AddTableGrows(h, t, key, implicit);
    SoundTables(h, t, key, implicit);
    if IsTree(h) {
      AddTableStays(h, t, key, implicit);
    }
    if WellFormed(h, valtype) {
      forall u | 0 <= u < |h'.tables| ensures Distinct(Keys(h', u)) {
        if u == t {
          TailKeys(h, h', t);
          assert KvalKeys(h', t) == KvalKeys(h, t);
          assert TableKeys(h', t) == TableKeys(h, t) + [key];
          DistinctInsert(Keys(h, t), key, []);
          assert Keys(h, t) + [] == Keys(h, t);
          assert Keys(h', t) == Keys(h, t) + [key] + [];
        } else if u < |h.tables| {
          KeysFrame(h, h', u);
        } else {
          assert Keys(h', u) == [];
        }
      }
    }
  }

  lemma AddArrayKeeps(h: Heap, t: TableId, key: Key, kind: ElementKind, valtype: Raw -> ValueType)
    requires Sound(h) && t < |h.tables| && CheckKey(h, t, key).Absent?
    ensures Kept(h, AddArray(h, t, key, kind), valtype)
  {
    var h' := AddArray(h, t, key, kind);
    assert Grows(h, h');
    SoundArrays(h, t, key, kind);
    if IsTree(h) {
      AddArrayStays(h, t, key, kind);
    }
    if WellFormed(h, valtype) {
      forall u | 0 <= u < |h'.tables| ensures Distinct(Keys(h', u)) {
        if u == t {
          TailKeys(h, h', t);
          assert KvalKeys(h', t) == KvalKeys(h, t) && TableKeys(h', t) == TableKeys(h, t);
          assert ArrayKeys(h', t) == ArrayKeys(h, t) + [key];
          assert Distinct(Keys(h, t));
          DistinctInsert(KvalKeys(h, t) + ArrayKeys(h, t), key, TableKeys(h, t));
          assert Keys(h', t) == KvalKeys(h, t) + ArrayKeys(h, t) + [key] + TableKeys(h, t);
        } else {
          KeysFrame(h, h', u);
        }
      }
      forall a | 0 <= a < |h'.arrays| ensures Homogeneous(h'.arrays[a], valtype) {
        assert a < |h.arrays| ==> h'.arrays[a] == h.arrays[a];
      }
    }
  }

  /** Changes that touch no entry of a table. */
  lemma EntriesKept(h: Heap, h': Heap, valtype: Raw -> ValueType)
    requires Sound(h) && Sound(h') && Grows(h, h')
    requires forall u :: 0 <= u < |h.tables| ==>
      && h'.tables[u].kvals == h.tables[u].kvals
      && h'.tables[u].arrays == h.tables[u].arrays && h'.tables[u].tables == h.tables[u].tables
    requires forall u :: |h.tables| <= u < |h'.tables| ==>
      h'.tables[u].kvals == [] && h'.tables[u].arrays == [] && h'.tables[u].tables == []
    requires WellFormed(h, valtype) ==> forall a :: 0 <= a < |h'.arrays| ==> Homogeneous(h'.arrays[a], valtype)
    requires IsTree(h) ==> IsTree(h')
    ensures Kept(h, h', valtype)
  {
    if WellFormed(h, valtype) {
      forall u | 0 <= u < |h'.tables| ensures Distinct(Keys(h', u)) {
        if u < |h.tables| {
          KeysFrame(h, h', u);
        } else {
          assert Keys(h', u) == [];
        }
      }
    }
  }

  lemma ClaimKeeps(h: Heap, t: TableId, key: Key, valtype: Raw -> ValueType)
    requires Sound(h) && t < |h.tables| && ClaimTable(h, t, key).Some?
    ensures Kept(h, ClaimTable(h, t, key).value.0, valtype)
  {
    match CheckKey(h, t, key) {
      case Absent => AddTableKeeps(h, t, key, false, valtype);
      case AsTable(id) =>
        assert TableSound(h, t);
        SoundUpdates(h, id, h.tables[id].(implicit := false));
        if IsTree(h) {
          SameSlots(h, MakeExplicit(h, id));
        }
        EntriesKept(h, MakeExplicit(h, id), valtype);
    }
  }

  lemma KindKeeps(h: Heap, a: ArrayId, kind: ElementKind, valtype: Raw -> ValueType)
    requires Sound(h) && a < |h.arrays|
    ensures Kept(h, SetKind(h, a, kind), valtype)
  {
    SoundKind(h, a, kind);
    var h' := SetKind(h, a, kind);
    if IsTree(h) {
      SameSlots(h, h');
    }
    if WellFormed(h, valtype) {
      forall b | 0 <= b < |h'.arrays| ensures Homogeneous(h'.arrays[b], valtype) {
        assert Homogeneous(h.arrays[b], valtype);
      }
    }
    EntriesKept(h, h', valtype);
  }

  lemma ElementKeeps(h: Heap, a: ArrayId, val: Raw, valtype: Raw -> ValueType)
    requires Sound(h) && a < |h.arrays| && PushElement(h, a, val, valtype).Some?
    ensures Kept(h, PushElement(h, a, val, valtype).value, valtype)
  {
    var h1, h' := SetKind(h, a, Values), PushElement(h, a, val, valtype).value;
    SoundElement(h, a, val, valtype);
    SoundKind(h, a, Values);
    KindKeeps(h, a, Values, valtype);
    if IsTree(h1) {
      SameSlots(h1, h');
    }
    if WellFormed(h1, valtype) {
      forall b | 0 <= b < |h'.arrays| ensures Homogeneous(h'.arrays[b], valtype) {
        assert Homogeneous(h1.arrays[b], valtype);
      }
    }
    EntriesKept(h1, h', valtype);
    KeptTransitive(h, h1, h', valtype);
  }

  lemma PushKeeps(h: Heap, a: ArrayId, key: Key, valtype: Raw -> ValueType)
    requires Sound(h) && a < |h.arrays|
    ensures h.arrays[a].kind == Arrays ==> Kept(h, PushArray(h, a), valtype)
    ensures h.arrays[a].kind == Tables ==> Kept(h, PushTable(h, a, key), valtype)
  {
    SoundPushes(h, a, key);
    if WellFormed(h, valtype) {
      assert Homogeneous(h.arrays[a], valtype);
    }
    if IsTree(h) {
      PushArrayStays(h, a);
      PushTableStays(h, a, key);
    }
    if h.arrays[a].kind == Arrays {
      EntriesKept(h, PushArray(h, a), valtype);
    }
    if h.arrays[a].kind == Tables {
      EntriesKept(h, PushTable(h, a, key), valtype);
    }
  }

  // ---------------------------------------------------------------- each statement

  lemma {:induction false} ParseTableKeeps(text: seq<byte>, valtype: Raw -> ValueType, s: State, t: TableId)
    requires Ready(text, s) && t < |s.heap.tables| && ParseTable(text, valtype, s, t).Ok?
    ensures Kept(s.heap, ParseTable(text, valtype, s, t).value.heap, valtype)
    decreases Fuel(text, s.tok), 0
  {
    var s1 := Eat(text, s, LBrace, true).value;
    ParseTableItemsKeeps(text, valtype, s1, t);
  }

  lemma {:induction false} ParseTableItemsKeeps(text: seq<byte>, valtype: Raw -> ValueType, s: State, t: TableId)
    requires Ready(text, s) && t < |s.heap.tables| && ParseTableItems(text, valtype, s, t).Ok?
    ensures Kept(s.heap, ParseTableItems(text, valtype, s, t).value.heap, valtype)
    decreases Fuel(text, s.tok), 2
  {
    if s.tok.kind != RBrace {
      ParseKeyvalKeeps(text, valtype, s, t);
      var s1 := ParseKeyval(text, valtype, s, t).value;
      if s1.tok.kind == Comma {
        var s2 := Eat(text, s1, Comma, true).value;
        ParseTableItemsKeeps(text, valtype, s2, t);
        KeptTransitive(s.heap, s1.heap, ParseTableItems(text, valtype, s2, t).value.heap, valtype);
      }
    }
  }

  lemma {:induction false} ParseArrayKeeps(text: seq<byte>, valtype: Raw -> ValueType, s: State, a: ArrayId)
    requires Ready(text, s) && a < |s.heap.arrays| && ParseArray(text, valtype, s, a).Ok?
    ensures Kept(s.heap, ParseArray(text, valtype, s, a).value.heap, valtype)
    decreases Fuel(text, s.tok), 0
  {
    var s1 :| Eat(text, s, LBracket, false) == Ok(s1);
    ParseArrayItemsKeeps(text, valtype, s1, a);
  }

  lemma {:induction false} ParseArrayItemsKeeps(text: seq<byte>, valtype: Raw -> ValueType, s: State, a: ArrayId)
    requires Ready(text, s) && a < |s.heap.arrays| && ParseArrayItems(text, valtype, s, a).Ok?
    ensures Kept(s.heap, ParseArrayItems(text, valtype, s, a).value.heap, valtype)
    decreases Fuel(text, s.tok), 2
  {
    var s1 := SkipNewlines(text, s, false).value;
    if s1.tok.kind != RBracket {
      ParseElementKeeps(text, valtype, s1, a);
      var s2 := ParseElement(text, valtype, s1, a).value;
      var s3 := SkipNewlines(text, s2, false).value;
      if s3.tok.kind == Comma {
        var s4 := Eat(text, s3, Comma, false).value;
        ParseArrayItemsKeeps(text, valtype, s4, a);
        KeptTransitive(s.heap, s2.heap, ParseArrayItems(text, valtype, s4, a).value.heap, valtype);
      }
    }
  }

  lemma {:induction false} ParseElementKeeps(text: seq<byte>, valtype: Raw -> ValueType, s: State, a: ArrayId)
    requires Ready(text, s) && a < |s.heap.arrays| && ParseElement(text, valtype, s, a).Ok?
    ensures Kept(s.heap, ParseElement(text, valtype, s, a).value.heap, valtype)
    decreases Fuel(text, s.tok), 1
  {
    var r := ParseElement(text, valtype, s, a).value.heap;
    match s.tok.kind {
      case Str =>
        ElementKeeps(s.heap, a, RawText(text, s.tok), valtype);
      case LBracket =>
        var h := SetKind(s.heap, a, Arrays);
        SoundKind(s.heap, a, Arrays);
        KindKeeps(s.heap, a, Arrays, valtype);
        SoundPushes(h, a, []);
        PushKeeps(h, a, [], valtype);
        KeptTransitive(s.heap, h, PushArray(h, a), valtype);
        ParseArrayKeeps(text, valtype, s.(heap := PushArray(h, a)), |h.arrays|);
        KeptTransitive(s.heap, PushArray(h, a), r, valtype);
      case LBrace =>
        var h := SetKind(s.heap, a, Tables);
        SoundKind(s.heap, a, Tables);
        KindKeeps(s.heap, a, Tables, valtype);
        SoundPushes(h, a, []);
        PushKeeps(h, a, [], valtype);
        KeptTransitive(s.heap, h, PushTable(h, a, []), valtype);
        ParseTableKeeps(text, valtype, s.(heap := PushTable(h, a, [])), |h.tables|);
        KeptTransitive(s.heap, PushTable(h, a, []), r, valtype);
    }
  }

  lemma SubtableKeeps(text: seq<byte>, h: Heap, t: TableId, tok: Token, valtype: Raw -> ValueType)
    requires IsString(text, tok) && Sound(h) && t < |h.tables| && Subtable(text, h, t, tok).Ok?
    ensures Kept(h, Subtable(text, h, t, tok).value.0, valtype)
  {
    var key := NormalizeKey(text, tok).value;
    if TableIn(h, t, key).None? {
      ClaimKeeps(h, t, key, valtype);
    }
  }

  lemma {:induction false} ParseKeyvalKeeps(text: seq<byte>, valtype: Raw -> ValueType, s: State, t: TableId)
    requires Ready(text, s) && t < |s.heap.tables| && ParseKeyval(text, valtype, s, t).Ok?
    ensures Kept(s.heap, ParseKeyval(text, valtype, s, t).value.heap, valtype)
    decreases Fuel(text, s.tok), 1
  {
    var s1 := Eat(text, s, Str, true).value;
    if s1.tok.kind == Dot {
      var sub := Subtable(text, s1.heap, t, s.tok).value;
      SubtableKeeps(text, s1.heap, t, s.tok, valtype);
      var s2 := Next(text, s1.(heap := sub.0), true).value;
      ParseKeyvalKeeps(text, valtype, s2, sub.1);
      KeptTransitive(s.heap, sub.0, ParseKeyval(text, valtype, s2, sub.1).value.heap, valtype);
    } else {
      var s2 := Next(text, s1, false).value;
      ParseKeyValueKeeps(text, valtype, s2, t, s.tok);
    }
  }

  lemma {:induction false} ParseKeyValueKeeps(
    text: seq<byte>, valtype: Raw -> ValueType, s: State, t: TableId, key: Token)
    requires Ready(text, s) && t < |s.heap.tables| && IsString(text, key)
    requires ParseKeyValue(text, valtype, s, t, key).Ok?
    ensures Kept(s.heap, ParseKeyValue(text, valtype, s, t, key).value.heap, valtype)
    decreases Fuel(text, s.tok), 1
  {
    var name := NormalizeKey(text, key).value;
    var r := ParseKeyValue(text, valtype, s, t, key).value.heap;
    match s.tok.kind {
      case Str =>
        AddValueKeeps(s.heap, t, name, RawText(text, s.tok), valtype);
      case LBracket =>
        var created := CreateKeyarray(text, s.heap, t, key, Unset).value;
        AddArrayKeeps(s.heap, t, name, Unset, valtype);
        ParseArrayKeeps(text, valtype, s.(heap := created.0), created.1);
        KeptTransitive(s.heap, created.0, r, valtype);
      case LBrace =>
        var created := CreateKeytable(text, s.heap, t, key).value;
        ClaimKeeps(s.heap, t, name, valtype);
        ParseTableKeeps(text, valtype, s.(heap := created.0), created.1);
        KeptTransitive(s.heap, created.0, r, valtype);
    }
  }

  lemma WalkStepKeeps(h: Heap, t: TableId, segment: Segment, valtype: Raw -> ValueType)
    requires Sound(h) && t < |h.tables| && WalkStep(h, t, segment).Ok?
    ensures Kept(h, WalkStep(h, t, segment).value.0, valtype)
  {
    if CheckKey(h, t, segment.key).Absent? {
      AddTableKeeps(h, t, segment.key, true, valtype);
    } else {
      KeptSame(h, valtype);
    }
  }

  lemma {:induction false} WalkKeeps(h: Heap, t: TableId, path: seq<Segment>, valtype: Raw -> ValueType)
    requires Sound(h) && t < |h.tables| && Walk(h, t, path).Ok?
    ensures Kept(h, Walk(h, t, path).value.0, valtype)
    decreases |path|
  {
    if path != [] {
      var step := WalkStep(h, t, path[0]).value;
      WalkStepKeeps(h, t, path[0], valtype);
      WalkKeeps(step.0, step.1, path[1..], valtype);
      KeptTransitive(h, step.0, Walk(h, t, path).value.0, valtype);
    }
  }

  lemma SelectTableKeeps(h: Heap, path: seq<Segment>, valtype: Raw -> ValueType)
    requires Sound(h) && path != [] && SelectTable(h, path).Ok?
    ensures Kept(h, SelectTable(h, path).value.0, valtype)
  {
    var z := path[|path| - 1];
    var walked := Walk(h, ROOT, path[..|path| - 1]).value;
    WalkKeeps(h, ROOT, path[..|path| - 1], valtype);
    ClaimKeeps(walked.0, walked.1, z.key, valtype);
    KeptTransitive(h, walked.0, SelectTable(h, path).value.0, valtype);
  }

  lemma SelectElementKeeps(h: Heap, path: seq<Segment>, valtype: Raw -> ValueType)
    requires Sound(h) && path != [] && SelectElement(h, path).Ok?
    ensures Kept(h, SelectElement(h, path).value.0, valtype)
  {
    var (h1, t) := Walk(h, ROOT, path[..|path| - 1]).value;
    WalkKeeps(h, ROOT, path[..|path| - 1], valtype);
    NewElementKeeps(h1, t, path[|path| - 1].key, valtype);
    KeptTransitive(h, h1, SelectElement(h, path).value.0, valtype);
  }

  /** One more table at the end of the array of tables `key`, made if there is none. */
  lemma NewElementKeeps(h: Heap, t: TableId, key: Key, valtype: Raw -> ValueType)
    requires Sound(h) && t < |h.tables| && (ArrayIn(h, t, key).None? ==> CheckKey(h, t, key).Absent?)
    ensures var found := ArrayIn(h, t, key);
            var h2 := if found.None? then AddArray(h, t, key, Tables) else h;
            var a := if found.None? then |h.arrays| else found.value;
            Sound(h2) && a < |h2.arrays| && (h2.arrays[a].kind == Tables ==> Kept(h, PushTable(h2, a, ANON), valtype))
  {
    assert TableSound(h, t);
    SoundArrays(h, t, key, Tables);
    if ArrayIn(h, t, key).None? {
      var h2 := AddArray(h, t, key, Tables);
      AddArrayKeeps(h, t, key, Tables, valtype);
      PushKeeps(h2, |h.arrays|, ANON, valtype);
      KeptTransitive(h, h2, PushTable(h2, |h.arrays|, ANON), valtype);
    } else if h.arrays[ArrayIn(h, t, key).value].kind == Tables {
      PushKeeps(h, ArrayIn(h, t, key).value, ANON, valtype);
    }
  }

  lemma ParseSelectKeeps(text: seq<byte>, s: State, valtype: Raw -> ValueType)
    requires Ready(text, s) && s.tok.kind == LBracket && ParseSelect(text, s).Ok?
    ensures Kept(s.heap, ParseSelect(text, s).value.heap, valtype)
  {
    var double := SameByteBehind(text, s.tok, 0x5b);
    var first := OpenHeader(text, s, double).value;
    SelectHeaderKeeps(s.heap, FillTabpath(text, first, first.tok.lineno, []).value.1, double, valtype);
  }

  lemma SelectHeaderKeeps(h: Heap, path: seq<Segment>, double: bool, valtype: Raw -> ValueType)
    requires Sound(h) && path != [] && SelectHeader(h, path, double).Ok?
    ensures Kept(h, SelectHeader(h, path, double).value.0, valtype)
  {
    if double {
      SelectElementKeeps(h, path, valtype);
    } else {
      SelectTableKeeps(h, path, valtype);
    }
  }

  /** Over any number of lines the tree only grows and stays well formed. */
  lemma {:induction false} ParseLinesKeeps(text: seq<byte>, valtype: Raw -> ValueType, s: State)
    requires Ready(text, s) && ParseLines(text, valtype, s).Ok?
    ensures Kept(s.heap, ParseLines(text, valtype, s).value.heap, valtype)
    decreases Fuel(text, s.tok)
  {
    var r := ParseLines(text, valtype, s).value.heap;
    if s.tok.eof {
      KeptSame(s.heap, valtype);
    } else {
      match s.tok.kind {
        case Newline =>
          ParseLinesKeeps(text, valtype, Next(text, s, true).value);
        case Str =>
          var s1 := ParseKeyval(text, valtype, s, s.curtab).value;
          ParseKeyvalKeeps(text, valtype, s, s.curtab);
          ParseLinesKeeps(text, valtype, Eat(text, s1, Newline, true).value);
          KeptTransitive(s.heap, s1.heap, r, valtype);
        case LBracket =>
          var s1 := ParseSelect(text, s).value;
          ParseSelectKeeps(text, s, valtype);
          ParseLinesKeeps(text, valtype, s1);
          KeptTransitive(s.heap, s1.heap, r, valtype);
      }
    }
  }

  lemma LinesAreWellFormed(text: seq<byte>, valtype: Raw -> ValueType, s: State)
    requires Ready(text, s) && WellFormed(s.heap, valtype) && ParseLines(text, valtype, s).Ok?
    ensures WellFormed(ParseLines(text, valtype, s).value.heap, valtype)
    ensures IsTree(s.heap) ==> IsTree(ParseLines(text, valtype, s).value.heap)
  {
    ParseLinesKeeps(text, valtype, s);
  }

  /** What a parse ends with is well formed, and a tree. */
  lemma ParsedTreeIsWellFormed(text: seq<byte>, valtype: Raw -> ValueType)
    requires Parse(text, valtype).Ok?
    ensures WellFormed(Parse(text, valtype).value, valtype) && IsTree(Parse(text, valtype).value)
  {
    var s := ParseBegins(text, valtype);
    EmptyIsWellFormed(s.heap, valtype);
    RootIsTree(s.heap);
    LinesAreWellFormed(text, valtype, s);
  }

  lemma EmptyIsWellFormed(h: Heap, valtype: Raw -> ValueType)
    requires h.tables == [Table([], false, [], [], [])] && h.arrays == [] && Sound(h)
    ensures WellFormed(h, valtype)
  {
    forall t | 0 <= t < |h.tables| ensures Distinct(Keys(h, t)) {
      assert Keys(h, t) == [];
    }
  }

  // ---------------------------------------------------------------- what that means for lookups

  /**
   * In a well-formed tree a key of a table is found by exactly one of the three lookups, and by none if it is no key;
   * toml_key_in enumerates every key at exactly one position.
   */
  lemma LookupsExclude(h: Heap, t: TableId, key: Key, valtype: Raw -> ValueType)
    requires WellFormed(h, valtype) && t < |h.tables|
    ensures var n := (if RawIn(h, t, key).Some? then 1 else 0) + (if ArrayIn(h, t, key).Some? then 1 else 0)
                   + (if TableIn(h, t, key).Some? then 1 else 0);
            n == if key in Keys(h, t) then 1 else 0
    ensures key in Keys(h, t) <==> exists i: nat :: KeyIn(h, t, i) == Some(key)
    ensures forall i: nat, j: nat :: KeyIn(h, t, i) == KeyIn(h, t, j) == Some(key) ==> i == j
  {
    var a, b, c := KvalKeys(h, t), ArrayKeys(h, t), TableKeys(h, t);
    var all := Keys(h, t);
    KeyInIsKeys(h, t);
    if key in a {
      var i := Find(a, key);
      assert all[i] == key && KeyIn(h, t, i) == Some(key);
    }
    if key in b {
      var i := Find(b, key) + |a|;
      assert all[i] == key && KeyIn(h, t, i) == Some(key);
    }
    if key in c {
      var i := Find(c, key) + |a| + |b|;
      assert all[i] == key && KeyIn(h, t, i) == Some(key);
    }
    assert key in all <==> key in a || key in b || key in c;
  }

  lemma {:induction false} FindStays(keys: seq<Key>, more: seq<Key>, key: Key)
    requires keys <= more && key in keys
    ensures Find(more, key) == Find(keys, key)
  {
    if keys[0] != key {
      assert more[1..][..|keys| - 1] == keys[1..];
      assert keys == [keys[0]] + keys[1..];
      FindStays(keys[1..], more[1..], key);
    }
  }

  /** The answers of the three lookups stand. */
  predicate SameAnswers(h: Heap, h': Heap, t: TableId, key: Key)
    requires Sound(h) && Sound(h') && t < |h.tables| <= |h'.tables|
  {
    && (RawIn(h, t, key).Some? ==> RawIn(h', t, key) == RawIn(h, t, key))
    && (ArrayIn(h, t, key).Some? ==> ArrayIn(h', t, key) == ArrayIn(h, t, key))
    && (TableIn(h, t, key).Some? ==> TableIn(h', t, key) == TableIn(h, t, key))
  }

  lemma LookupsStay(h: Heap, h': Heap, t: TableId, key: Key)
    requires Sound(h) && Sound(h') && Grows(h, h') && t < |h.tables|
    ensures SameAnswers(h, h', t, key)
  {
    assert TableGrows(h.tables[t], h'.tables[t]);
    KeysStay(h, h', t);
    if key in KvalKeys(h, t) {
      FindStays(KvalKeys(h, t), KvalKeys(h', t), key);
    }
    if key in ArrayKeys(h, t) {
      FindStays(ArrayKeys(h, t), ArrayKeys(h', t), key);
    }
    if key in TableKeys(h, t) {
      FindStays(TableKeys(h, t), TableKeys(h', t), key);
    }
  }

  lemma KeysStay(h: Heap, h': Heap, t: TableId)
    requires Sound(h) && Sound(h') && Grows(h, h') && t < |h.tables|
    ensures KvalKeys(h, t) <= KvalKeys(h', t)
    ensures ArrayKeys(h, t) <= ArrayKeys(h', t) && TableKeys(h, t) <= TableKeys(h', t)
  {
    assert TableGrows(h.tables[t], h'.tables[t]);
    TailKeys(h, h', t);
    assert KvalKeys(h', t)[..|KvalKeys(h, t)|] == KvalKeys(h, t);
  }

  /** Whatever statements are still to come, what a lookup finds now it finds in the end. */
  lemma LookupsStayToTheEnd(text: seq<byte>, valtype: Raw -> ValueType, s: State, t: TableId, key: Key)
    requires Ready(text, s) && t < |s.heap.tables| && ParseLines(text, valtype, s).Ok?
    ensures var h' := ParseLines(text, valtype, s).value.heap;
            |s.heap.tables| <= |h'.tables| && SameAnswers(s.heap, h', t, key)
  {
    ParseLinesKeeps(text, valtype, s);
    LookupsStay(s.heap, ParseLines(text, valtype, s).value.heap, t, key);
  }

  lemma KeyInIsKeys(h: Heap, t: TableId)
    requires Sound(h) && t < |h.tables|
    ensures forall i: nat :: KeyIn(h, t, i) == if i < |Keys(h, t)| then Some(Keys(h, t)[i]) else None
  {
  }
}
