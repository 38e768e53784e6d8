/**
 * The recursive-descent parser of src/toml/toml.c as functions from one state to the next. An error abandons the parse
 * and the tree with it. That the functions are total is the termination of toml_parse on every input.
 */
module TomlGrammar {
  import opened Common
  import opened Lexer
  import opened TomlKeys
  import opened TomlTree

  datatype State = State(tok: Token, heap: Heap, curtab: TableId)

  type Parsed = Result<State, Failure>

  // ---------------------------------------------------------------- tokens

  /** What is known of a token the lexer has made. */
  predicate Good(text: seq<byte>, tok: Token) {
    && TokenOk(text, tok)
    && (tok.kind == Str ==> IsString(text, tok) && !tok.eof)
    && (tok.kind != Str && tok.kind != Newline ==> tok.len == 1 && !tok.eof)
    && (tok.eof ==> tok.End() == |text| && tok.len == 0)
    && (tok.Stuck() ==> forall dot :: NextToken(text, tok, dot) == Ok(tok))
  }

  /** Nothing more will come of this token. */
  predicate Spent(tok: Token) {
    tok.eof || tok.Stuck()
  }

  /** What is left to read. It falls with every token until the end of the text, or a STRING of no characters. */
  function Fuel(text: seq<byte>, tok: Token): nat
    requires Within(text, tok)
  {
    2 * (|text| - tok.End()) + if Spent(tok) then 0 else 1
  }

  lemma TokenMade(text: seq<byte>, p: nat, lineno: nat, dot: bool)
    requires p <= |text| && TokenAt(text, p, lineno, dot).Ok?
    ensures var tok := TokenAt(text, p, lineno, dot).value;
            && (tok.kind == Str ==> IsString(text, tok) && !tok.eof)
            && (tok.kind != Str && tok.kind != Newline ==> tok.len == 1 && !tok.eof)
            && (tok.eof <==> p == |text|) && (tok.eof ==> tok.len == 0 && tok.kind == Newline) && tok.ptr == p
  {
  }

  lemma NextIsGood(text: seq<byte>, tok: Token, dot: bool)
    requires Good(text, tok) && NextToken(text, tok, dot).Ok?
    ensures Good(text, NextToken(text, tok, dot).value)
  {
    TokenFollows(text, tok, dot);
    TokenProgress(text, tok, dot);
    NextMade(text, tok, dot);
  }

  lemma NextMade(text: seq<byte>, tok: Token, dot: bool)
    requires Within(text, tok) && NextToken(text, tok, dot).Ok?
    ensures var next := NextToken(text, tok, dot).value;
            && (next.kind == Str ==> IsString(text, next) && !next.eof)
            && (next.kind != Str && next.kind != Newline ==> next.len == 1 && !next.eof)
            && (next.eof <==> next.ptr == |text|) && (next.eof ==> next.len == 0 && next.kind == Newline)
  {
    TokenMade(text, GapEnd(text, tok.End()), tok.lineno + Newlines(text[tok.ptr..tok.End()]), dot);
  }

  lemma NextBurns(text: seq<byte>, tok: Token, dot: bool)
    requires Good(text, tok) && NextToken(text, tok, dot).Ok?
    ensures var next := NextToken(text, tok, dot).value;
            && Within(text, next)
            && (if Spent(tok) then Spent(next) && Fuel(text, next) == Fuel(text, tok)
                else Fuel(text, next) < Fuel(text, tok))
            && (tok.Stuck() ==> next == tok)
            && (tok.eof ==> next.eof)
  {
    TokenProgress(text, tok, dot);
    if tok.eof {
      assert GapEnd(text, tok.End()) == |text|;
    }
  }

  // ---------------------------------------------------------------- states

  predicate Ready(text: seq<byte>, s: State) {
    Good(text, s.tok) && Sound(s.heap) && s.curtab < |s.heap.tables|
  }

  /** Every pointer that was good still is, and nothing read comes back. */
  predicate Advances(text: seq<byte>, s: State, r: State) {
    && Ready(text, r)
    && Within(text, s.tok) && Fuel(text, r.tok) <= Fuel(text, s.tok)
    && |s.heap.tables| <= |r.heap.tables| && |s.heap.arrays| <= |r.heap.arrays|
  }

  function Next(text: seq<byte>, s: State, dot: bool): (r: Parsed)
    requires Ready(text, s)
    ensures r.Ok? ==>
      && Advances(text, s, r.value) && r.value == s.(tok := r.value.tok)
      && (!Spent(s.tok) ==> Fuel(text, r.value.tok) < Fuel(text, s.tok))
      && (s.tok.Stuck() ==> r.value == s) && (s.tok.eof ==> r.value.tok.eof)
  {
    var tok :- NextToken(text, s.tok, dot);
    NextIsGood(text, s.tok, dot);
    NextBurns(text, s.tok, dot);
    Ok(s.(tok := tok))
  }

  /** EAT_TOKEN. */
  function Eat(text: seq<byte>, s: State, kind: Kind, dot: bool): (r: Parsed)
    requires Ready(text, s)
    ensures r.Ok? ==> s.tok.kind == kind && r == Next(text, s, dot)
  {
    if s.tok.kind != kind then Err(Failure(0, InternalError)) else Next(text, s, dot)
  }

  function SkipNewlines(text: seq<byte>, s: State, dot: bool): (r: Parsed)
    requires Ready(text, s)
    ensures r.Ok? ==> Advances(text, s, r.value) && r.value == s.(tok := r.value.tok)
    decreases Fuel(text, s.tok)
  {
    if s.tok.kind != Newline then Ok(s)
    else
      var s1 :- Next(text, s, dot);
      if s1.tok.eof then Ok(s1) else SkipNewlines(text, s1, dot)
  }

  function Syntax<T>(s: State): Result<T, Failure> {
    Err(Failure(s.tok.lineno, SyntaxError))
  }

  function RawText(text: seq<byte>, tok: Token): Raw
    requires Within(text, tok)
  {
    text[tok.ptr..tok.End()]
  }

  // ---------------------------------------------------------------- new entries of a table

  lemma SoundTables(h: Heap, t: TableId, key: Key, implicit: bool)
    requires Sound(h) && t < |h.tables|
    ensures Sound(AddTable(h, t, key, implicit))
  {
    var h' := AddTable(h, t, key, implicit);
    forall u | 0 <= u < |h'.tables| ensures TableSound(h', u) {
      assert u < |h.tables| ==> TableSound(h, u);
    }
    forall a | 0 <= a < |h'.arrays| ensures ArraySound(h', a) {
      assert ArraySound(h, a);
    }
  }

  lemma SoundArrays(h: Heap, t: TableId, key: Key, kind: ElementKind)
    requires Sound(h) && t < |h.tables|
    ensures Sound(AddArray(h, t, key, kind))
  {
    var h' := AddArray(h, t, key, kind);
    forall u | 0 <= u < |h'.tables| ensures TableSound(h', u) {
      assert TableSound(h, u);
    }
    forall a | 0 <= a < |h'.arrays| ensures ArraySound(h', a) {
      assert a < |h.arrays| ==> ArraySound(h, a);
    }
  }

  /** Updates that leave the pointers of one table or array alone. */
  lemma SoundUpdates(h: Heap, t: TableId, tab: Table)
    requires Sound(h) && t < |h.tables| && tab.tables == h.tables[t].tables && tab.arrays == h.tables[t].arrays
    ensures Sound(UpdateTable(h, t, tab))
  {
    var h' := UpdateTable(h, t, tab);
    forall u | 0 <= u < |h'.tables| ensures TableSound(h', u) {
      assert TableSound(h, u);
    }
    forall a | 0 <= a < |h'.arrays| ensures ArraySound(h', a) {
      assert ArraySound(h, a);
    }
  }

  lemma SoundArrayUpdates(h: Heap, a: ArrayId, arr: Array)
    requires Sound(h) && a < |h.arrays| && arr.tables == h.arrays[a].tables && arr.arrays == h.arrays[a].arrays
    ensures Sound(UpdateArray(h, a, arr))
  {
    var h' := UpdateArray(h, a, arr);
    forall u | 0 <= u < |h'.tables| ensures TableSound(h', u) {
      assert TableSound(h, u);
    }
    forall b | 0 <= b < |h'.arrays| ensures ArraySound(h', b) {
      assert ArraySound(h, b);
    }
  }

  lemma SoundPushes(h: Heap, a: ArrayId, key: Key)
    requires Sound(h) && a < |h.arrays|
    ensures Sound(PushArray(h, a)) && Sound(PushTable(h, a, key))
  {
    var h1, h2 := PushArray(h, a), PushTable(h, a, key);
    forall u | 0 <= u < |h2.tables| ensures TableSound(h2, u) && (u < |h1.tables| ==> TableSound(h1, u)) {
      assert u < |h.tables| ==> TableSound(h, u);
    }
    forall b | 0 <= b < |h1.arrays| ensures ArraySound(h1, b) && (b < |h2.arrays| ==> ArraySound(h2, b)) {
      assert b < |h.arrays| ==> ArraySound(h, b);
    }
  }

  /** The table `key` that a header or an inline table asks for: a new one, or an implicit one made explicit. */
  function ClaimTable(h: Heap, t: TableId, key: Key): Option<(Heap, TableId)>
    requires Sound(h) && t < |h.tables|
  {
    match CheckKey(h, t, key)
    case Absent => Some((AddTable(h, t, key, false), |h.tables|))
    case AsTable(id) =>
      assert TableSound(h, t);
      if h.tables[id].implicit then Some((MakeExplicit(h, id), id)) else None
    case _ => None
  }

  lemma SoundClaims(h: Heap, t: TableId, key: Key)
    requires Sound(h) && t < |h.tables| && ClaimTable(h, t, key).Some?
    ensures var (h', id) := ClaimTable(h, t, key).value;
            && Sound(h') && id < |h'.tables|
            && |h.tables| <= |h'.tables| && |h.arrays| == |h'.arrays|
  {
    assert TableSound(h, t);
    match CheckKey(h, t, key) {
      case Absent => SoundTables(h, t, key, false);
      case AsTable(id) => SoundUpdates(h, id, h.tables[id].(implicit := false));
    }
  }

  /** create_keyval_in_table, with its value. */
  function CreateKeyval(text: seq<byte>, h: Heap, t: TableId, tok: Token, val: Raw): (r: Result<Heap, Failure>)
    requires IsString(text, tok) && Sound(h) && t < |h.tables|
    ensures r.Ok? ==> Sound(r.value) && |r.value.tables| == |h.tables| && |r.value.arrays| == |h.arrays|
  {
    var key :- NormalizeKey(text, tok);
    SoundUpdates(h, t, h.tables[t].(kvals := h.tables[t].kvals + [KeyVal(key, val)]));
    if CheckKey(h, t, key).Absent? then Ok(AddValue(h, t, key, val)) else Err(Failure(tok.lineno, KeyExists))
  }

  /** create_keytable_in_table. */
  function CreateKeytable(text: seq<byte>, h: Heap, t: TableId, tok: Token): (r: Result<(Heap, TableId), Failure>)
    requires IsString(text, tok) && Sound(h) && t < |h.tables|
    ensures r.Ok? ==> && Sound(r.value.0) && r.value.1 < |r.value.0.tables|
                      && |h.tables| <= |r.value.0.tables| && |h.arrays| == |r.value.0.arrays|
  {
    var key :- NormalizeKey(text, tok);
    match ClaimTable(h, t, key)
    case Some(claimed) =>
      SoundClaims(h, t, key);
      Ok(claimed)
    case None => Err(Failure(tok.lineno, KeyExists))
  }

  /** create_keyarray_in_table. */
  function CreateKeyarray(text: seq<byte>, h: Heap, t: TableId, tok: Token, kind: ElementKind)
    : (r: Result<(Heap, ArrayId), Failure>)
    requires IsString(text, tok) && Sound(h) && t < |h.tables|
    ensures r.Ok? ==> && Sound(r.value.0) && r.value.1 < |r.value.0.arrays|
                      && |h.tables| == |r.value.0.tables| && |h.arrays| <= |r.value.0.arrays|
  {
    var key :- NormalizeKey(text, tok);
    SoundArrays(h, t, key, kind);
    if CheckKey(h, t, key).Absent? then Ok((AddArray(h, t, key, kind), |h.arrays|))
    else Err(Failure(tok.lineno, KeyExists))
  }

  // ---------------------------------------------------------------- values

  /** The element of an array at a STRING token. */
  function PushElement(h: Heap, a: ArrayId, val: Raw, valtype: Raw -> ValueType): Option<Heap>
    requires a < |h.arrays|
  {
    var h1 := SetKind(h, a, Values);
    if h1.arrays[a].kind != Values || (h1.arrays[a].vals != [] && h1.arrays[a].valueType != valtype(val)) then None
    else Some(PushValue(h1, a, val, valtype(val)))
  }

  lemma SoundElement(h: Heap, a: ArrayId, val: Raw, valtype: Raw -> ValueType)
    requires Sound(h) && a < |h.arrays| && PushElement(h, a, val, valtype).Some?
    ensures var h' := PushElement(h, a, val, valtype).value;
            Sound(h') && |h'.tables| == |h.tables| && |h'.arrays| == |h.arrays|
  {
    SoundKind(h, a, Values);
    var h1 := SetKind(h, a, Values);
    SoundArrayUpdates(h1, a, h1.arrays[a].(vals := h1.arrays[a].vals + [val], valueType := valtype(val)));
  }

  lemma SoundKind(h: Heap, a: ArrayId, kind: ElementKind)
    requires Sound(h) && a < |h.arrays|
    ensures Sound(SetKind(h, a, kind)) && |SetKind(h, a, kind).arrays| == |h.arrays|
    ensures SetKind(h, a, kind).tables == h.tables
  {
    SoundArrayUpdates(h, a, h.arrays[a].(kind := kind));
  }

  /** parse_table: an inline table. */
  function ParseTable(text: seq<byte>, valtype: Raw -> ValueType, s: State, t: TableId): (r: Parsed)
    requires Ready(text, s) && t < |s.heap.tables|
    ensures r.Ok? ==> Advances(text, s, r.value) && r.value.curtab == s.curtab
    ensures r.Ok? ==> Fuel(text, r.value.tok) < Fuel(text, s.tok)
    decreases Fuel(text, s.tok), 0
  {
    var s1 :- Eat(text, s, LBrace, true);
    var s2 :- ParseTableItems(text, valtype, s1, t);
    if s2.tok.kind != RBrace then Syntax(s2) else Eat(text, s2, RBrace, true)
  }

  function ParseTableItems(text: seq<byte>, valtype: Raw -> ValueType, s: State, t: TableId): (r: Parsed)
    requires Ready(text, s) && t < |s.heap.tables|
    ensures r.Ok? ==> Advances(text, s, r.value) && r.value.curtab == s.curtab
    decreases Fuel(text, s.tok), 2
  {
    if s.tok.kind == Newline then Syntax(s)
    else if s.tok.kind == RBrace then Ok(s)
    else if s.tok.kind != Str then Syntax(s)
    else
      var s1 :- ParseKeyval(text, valtype, s, t);
      if s1.tok.kind == Newline then Syntax(s1)
      else if s1.tok.kind == Comma then
        var s2 :- Eat(text, s1, Comma, true);
        ParseTableItems(text, valtype, s2, t)
      else Ok(s1)
  }

  /** parse_array. */
  function ParseArray(text: seq<byte>, valtype: Raw -> ValueType, s: State, a: ArrayId): (r: Parsed)
    requires Ready(text, s) && a < |s.heap.arrays|
    ensures r.Ok? ==> Advances(text, s, r.value) && r.value.curtab == s.curtab
    ensures r.Ok? ==> Fuel(text, r.value.tok) < Fuel(text, s.tok)
    decreases Fuel(text, s.tok), 0
  {
    var s1 :- Eat(text, s, LBracket, false);
    var s2 :- ParseArrayItems(text, valtype, s1, a);
    if s2.tok.kind != RBracket then Syntax(s2) else Eat(text, s2, RBracket, true)
  }

  function ParseArrayItems(text: seq<byte>, valtype: Raw -> ValueType, s: State, a: ArrayId): (r: Parsed)
    requires Ready(text, s) && a < |s.heap.arrays|
    ensures r.Ok? ==> Advances(text, s, r.value) && r.value.curtab == s.curtab
    decreases Fuel(text, s.tok), 2
  {
    var s1 :- SkipNewlines(text, s, false);
    if s1.tok.kind == RBracket then Ok(s1)
    else
      var s2 :- ParseElement(text, valtype, s1, a);
      var s3 :- SkipNewlines(text, s2, false);
      if s3.tok.kind == Comma then
        var s4 :- Eat(text, s3, Comma, false);
        ParseArrayItems(text, valtype, s4, a)
      else Ok(s3)
  }

  /** One element: a value, an array or an inline table, of the kind of those before it. */
  function ParseElement(text: seq<byte>, valtype: Raw -> ValueType, s: State, a: ArrayId): (r: Parsed)
    requires Ready(text, s) && a < |s.heap.arrays|
    ensures r.Ok? ==> Advances(text, s, r.value) && r.value.curtab == s.curtab
    decreases Fuel(text, s.tok), 1
  {
    match s.tok.kind
    case Str =>
      var val := RawText(text, s.tok);
      (match PushElement(s.heap, a, val, valtype)
       case None => Syntax(s)
       case Some(h) =>
         SoundElement(s.heap, a, val, valtype);
         Eat(text, s.(heap := h), Str, false))
    case LBracket =>
      var h := SetKind(s.heap, a, Arrays);
      SoundKind(s.heap, a, Arrays);
      SoundPushes(h, a, []);
      if h.arrays[a].kind != Arrays then Syntax(s)
      else ParseArray(text, valtype, s.(heap := PushArray(h, a)), |h.arrays|)
    case LBrace =>
      var h := SetKind(s.heap, a, Tables);
      SoundKind(s.heap, a, Tables);
      SoundPushes(h, a, []);
      if h.arrays[a].kind != Tables then Syntax(s)
      else ParseTable(text, valtype, s.(heap := PushTable(h, a, [])), |h.tables|)
    case _ => Syntax(s)
  }

  /** The table that a dotted key leads through: an existing one, or a new one. */
  function Subtable(text: seq<byte>, h: Heap, t: TableId, tok: Token): (r: Result<(Heap, TableId), Failure>)
    requires IsString(text, tok) && Sound(h) && t < |h.tables|
    ensures r.Ok? ==> && Sound(r.value.0) && r.value.1 < |r.value.0.tables|
                      && |h.tables| <= |r.value.0.tables| && |h.arrays| == |r.value.0.arrays|
  {
    var key :- NormalizeKey(text, tok);
    match TableIn(h, t, key)
    case Some(id) =>
      assert TableSound(h, t);
      Ok((h, id))
    case None =>
      CreateKeytable(text, h, t, tok)
  }

  /** parse_keyval: key = value, with a value, an array or an inline table, under a plain or a dotted key. */
  function ParseKeyval(text: seq<byte>, valtype: Raw -> ValueType, s: State, t: TableId): (r: Parsed)
    requires Ready(text, s) && t < |s.heap.tables|
    ensures r.Ok? ==> Advances(text, s, r.value) && r.value.curtab == s.curtab
    ensures r.Ok? ==> Fuel(text, r.value.tok) < Fuel(text, s.tok)
    decreases Fuel(text, s.tok), 1
  {
    var key := s.tok;
    var s1 :- Eat(text, s, Str, true);
    if s1.tok.kind == Dot then
      var sub :- Subtable(text, s1.heap, t, key);
      var s2 :- Next(text, s1.(heap := sub.0), true);
      ParseKeyval(text, valtype, s2, sub.1)
    else if s1.tok.kind != Equal then Syntax(s1)
    else
      var s2 :- Next(text, s1, false);
      ParseKeyValue(text, valtype, s2, t, key)
  }

  /** What comes behind the equals sign. */
  function ParseKeyValue(text: seq<byte>, valtype: Raw -> ValueType, s: State, t: TableId, key: Token): (r: Parsed)
    requires Ready(text, s) && t < |s.heap.tables| && IsString(text, key)
    ensures r.Ok? ==> Advances(text, s, r.value) && r.value.curtab == s.curtab
    decreases Fuel(text, s.tok), 1
  {
    match s.tok.kind
    case Str =>
      var h :- CreateKeyval(text, s.heap, t, key, RawText(text, s.tok));
      Next(text, s.(heap := h), true)
    case LBracket =>
      var created :- CreateKeyarray(text, s.heap, t, key, Unset);
      ParseArray(text, valtype, s.(heap := created.0), created.1)
    case LBrace =>
      var created :- CreateKeytable(text, s.heap, t, key);
      ParseTable(text, valtype, s.(heap := created.0), created.1)
    case _ => Syntax(s)
  }

  // ---------------------------------------------------------------- headers

  const MAX_DEPTH := 10

  datatype Segment = Segment(key: Key, tok: Token)

  /** Every segment is the key of its token. */
  predicate PathRead(text: seq<byte>, path: seq<Segment>) {
    forall i :: 0 <= i < |path| ==>
      IsString(text, path[i].tok) && NormalizeKey(text, path[i].tok) == Ok(path[i].key)
  }

  lemma PathReadOn(text: seq<byte>, path: seq<Segment>, segment: Segment)
    requires PathRead(text, path) && IsString(text, segment.tok) && NormalizeKey(text, segment.tok) == Ok(segment.key)
    ensures PathRead(text, path + [segment])
  {
  }

  /** fill_tabpath: the segments up to the closing bracket, and the state at it. */
  function FillTabpath(text: seq<byte>, s: State, lineno: nat, path: seq<Segment>)
    : (r: Result<(State, seq<Segment>), Failure>)
    requires Ready(text, s)
    ensures r.Ok? ==> Advances(text, s, r.value.0) && r.value.0 == s.(tok := r.value.0.tok)
    ensures r.Ok? ==> |path| < |r.value.1| <= MAX_DEPTH && r.value.0.tok.kind == RBracket
    decreases Fuel(text, s.tok)
  {
    if |path| >= MAX_DEPTH then Err(Failure(lineno, TooDeep))
    else if s.tok.kind != Str then Err(Failure(lineno, SyntaxError))
    else
      var key :- NormalizeKey(text, s.tok);
      var s1 :- Next(text, s, true);
      if s1.tok.kind == RBracket then Ok((s1, path + [Segment(key, s.tok)]))
      else if s1.tok.kind != Dot then Err(Failure(lineno, SyntaxError))
      else
        var s2 :- Next(text, s1, true);
        FillTabpath(text, s2, lineno, path + [Segment(key, s.tok)])
  }

  /** One step of walk_tabpath: into a table, into the last table of an array, or into a new implicit table. */
  function WalkStep(h: Heap, t: TableId, segment: Segment): (r: Result<(Heap, TableId), Failure>)
    requires Sound(h) && t < |h.tables|
    ensures r.Ok? ==> && Sound(r.value.0) && r.value.1 < |r.value.0.tables|
                      && |h.tables| <= |r.value.0.tables| && |h.arrays| == |r.value.0.arrays|
  {
    assert TableSound(h, t);
    match CheckKey(h, t, segment.key)
    case AsTable(id) => Ok((h, id))
    case AsArray(a) =>
      var arr := h.arrays[a];
      assert ArraySound(h, a);
      if arr.kind != Tables || arr.tables == [] then Err(Failure(0, InternalError))
      else Ok((h, arr.tables[|arr.tables| - 1]))
    case AsValue(_) => Err(Failure(segment.tok.lineno, KeyExists))
    case Absent =>
      SoundTables(h, t, segment.key, true);
      Ok((AddTable(h, t, segment.key, true), |h.tables|))
  }

  /** walk_tabpath from `t`. */
  function Walk(h: Heap, t: TableId, path: seq<Segment>): (r: Result<(Heap, TableId), Failure>)
    requires Sound(h) && t < |h.tables|
    ensures r.Ok? ==> && Sound(r.value.0) && r.value.1 < |r.value.0.tables|
                      && |h.tables| <= |r.value.0.tables| && |h.arrays| == |r.value.0.arrays|
    decreases |path|
  {
    if path == [] then Ok((h, t))
    else
      var step :- WalkStep(h, t, path[0]);
      Walk(step.0, step.1, path[1..])
  }

  /** The table that [x.y.z] selects. */
  function SelectTable(h: Heap, path: seq<Segment>): (r: Result<(Heap, TableId), Failure>)
    requires Sound(h) && path != []
    ensures r.Ok? ==> && Sound(r.value.0) && r.value.1 < |r.value.0.tables|
                      && |h.tables| <= |r.value.0.tables| && |h.arrays| <= |r.value.0.arrays|
  {
    var z := path[|path| - 1];
    var walked :- Walk(h, ROOT, path[..|path| - 1]);
    match ClaimTable(walked.0, walked.1, z.key)
    case None => Err(Failure(z.tok.lineno, KeyExists))
    case Some(claimed) =>
      SoundClaims(walked.0, walked.1, z.key);
      Ok(claimed)
  }

  /** The table that [[x.y.z]] selects: a new one at the end of the array of tables z. */
  function SelectElement(h: Heap, path: seq<Segment>): (r: Result<(Heap, TableId), Failure>)
    requires Sound(h) && path != []
    ensures r.Ok? ==> && Sound(r.value.0) && r.value.1 < |r.value.0.tables|
                      && |h.tables| <= |r.value.0.tables| && |h.arrays| <= |r.value.0.arrays|
  {
    var z := path[|path| - 1];
    var walked :- Walk(h, ROOT, path[..|path| - 1]);
    var (h1, t) := walked;
    assert TableSound(h1, t);
    var found := ArrayIn(h1, t, z.key);
    if found.None? && !CheckKey(h1, t, z.key).Absent? then Err(Failure(z.tok.lineno, KeyExists))
    else
      var (h2, a) := if found.None? then (AddArray(h1, t, z.key, Tables), |h1.arrays|) else (h1, found.value);
      SoundArrays(h1, t, z.key, Tables);
      if h2.arrays[a].kind != Tables then Err(Failure(z.tok.lineno, SyntaxError))
      else
        SoundPushes(h2, a, ANON);
        Ok((PushTable(h2, a, ANON), |h2.tables|))
  }

  predicate SameByteBehind(text: seq<byte>, tok: Token, b: byte) {
    tok.ptr + 1 < |text| && text[tok.ptr + 1] == b
  }

  /** The start of a header line: [ or [[. */
  function OpenHeader(text: seq<byte>, s: State, double: bool): (r: Parsed)
    requires Ready(text, s) && s.tok.kind == LBracket
    ensures r.Ok? ==> Advances(text, s, r.value) && r.value == s.(tok := r.value.tok)
    ensures r.Ok? ==> Fuel(text, r.value.tok) < Fuel(text, s.tok)
  {
    var s1 :- Eat(text, s, LBracket, true);
    if double then Eat(text, s1, LBracket, true) else Ok(s1)
  }

  function SelectHeader(h: Heap, path: seq<Segment>, double: bool): (r: Result<(Heap, TableId), Failure>)
    requires Sound(h) && path != []
    ensures r.Ok? ==> && Sound(r.value.0) && r.value.1 < |r.value.0.tables|
                      && |h.tables| <= |r.value.0.tables| && |h.arrays| <= |r.value.0.arrays|
  {
    if double then SelectElement(h, path) else SelectTable(h, path)
  }

  /** The end of a header line: ] or ]], and a newline. */
  function CloseHeader(text: seq<byte>, s: State, double: bool): (r: Parsed)
    requires Ready(text, s)
    ensures r.Ok? ==> Advances(text, s, r.value) && r.value == s.(tok := r.value.tok)
  {
    var s1 :- if double then CloseFirst(text, s) else Ok(s);
    CloseLast(text, s1)
  }

  /** The first of ]]. */
  function CloseFirst(text: seq<byte>, s: State): (r: Parsed)
    requires Ready(text, s)
    ensures r.Ok? ==> Advances(text, s, r.value) && r.value == s.(tok := r.value.tok)
  {
    if !SameByteBehind(text, s.tok, 0x5d) then Syntax(s) else Eat(text, s, RBracket, true)
  }

  function CloseLast(text: seq<byte>, s: State): (r: Parsed)
    requires Ready(text, s)
    ensures r.Ok? ==> Advances(text, s, r.value) && r.value == s.(tok := r.value.tok)
  {
    var s1 :- Eat(text, s, RBracket, true);
    if s1.tok.kind != Newline then Syntax(s1) else Ok(s1)
  }

  /** parse_select: a line like [x.y.z] or [[x.y.z]]. */
  function ParseSelect(text: seq<byte>, s: State): (r: Parsed)
    requires Ready(text, s) && s.tok.kind == LBracket
    ensures r.Ok? ==> Advances(text, s, r.value) && Fuel(text, r.value.tok) < Fuel(text, s.tok)
  {
    var double := SameByteBehind(text, s.tok, 0x5b);
    var first :- OpenHeader(text, s, double);
    var filled :- FillTabpath(text, first, first.tok.lineno, []);
    var selected :- SelectHeader(first.heap, filled.1, double);
    CloseHeader(text, State(filled.0.tok, selected.0, selected.1), double)
  }

  /** The loop of toml_parse. */
  function ParseLines(text: seq<byte>, valtype: Raw -> ValueType, s: State): (r: Parsed)
    requires Ready(text, s)
    ensures r.Ok? ==> Advances(text, s, r.value) && r.value.tok.eof
    decreases Fuel(text, s.tok)
  {
    if s.tok.eof then Ok(s)
    else
      match s.tok.kind
      case Newline =>
        var s1 :- Next(text, s, true);
        ParseLines(text, valtype, s1)
      case Str =>
        var s1 :- ParseKeyval(text, valtype, s, s.curtab);
        if s1.tok.kind != Newline then Syntax(s1)
        else
          var s2 :- Eat(text, s1, Newline, true);
          ParseLines(text, valtype, s2)
      case LBracket =>
        var s1 :- ParseSelect(text, s);
        ParseLines(text, valtype, s1)
      case _ => Syntax(s)
  }

  /** An artificial newline of no characters, and an empty root that is selected. */
  const START := State(FIRST_TOKEN, EMPTY_ROOT, ROOT)

  lemma StartIsReady(text: seq<byte>, s: State)
    requires s == START
    ensures Ready(text, s)
  {
    var tok, h := s.tok, s.heap;
    assert tok.kind == Newline && !tok.Stuck() && !tok.eof;
    assert text[..tok.ptr] == [];
    assert Good(text, tok);
    assert h.tables == [Table([], false, [], [], [])] && h.arrays == [];
    forall t | 0 <= t < |h.tables| ensures TableSound(h, t) {
      assert h.tables[t].tables == [] && h.tables[t].arrays == [];
    }
  }

  function TreeOf(end: Parsed): Result<Heap, Failure> {
    match end
    case Ok(s) => Ok(s.heap)
    case Err(failure) => Err(failure)
  }

  /** toml_parse: the tree of a text, or the first error. */
  function Parse(text: seq<byte>, valtype: Raw -> ValueType): Result<Heap, Failure> {
    var s := START;
    assert Ready(text, s) by { StartIsReady(text, s); }
    TreeOf(ParseLines(text, valtype, s))
  }

  /** Where a parse begins: an artificial newline of no characters before the text, and an empty root. */
  predicate Begins(s: State) {
    && s.tok.kind == Newline && !s.tok.eof && s.tok.End() == 0
    && s.heap.tables == [Table([], false, [], [], [])] && s.heap.arrays == [] && s.curtab == ROOT
  }

  lemma ParseBegins(text: seq<byte>, valtype: Raw -> ValueType) returns (s: State)
    ensures Begins(s) && Ready(text, s)
    ensures Parse(text, valtype) == TreeOf(ParseLines(text, valtype, s))
  {
    s :| s == START;
    StartIsReady(text, s);
  }

  lemma ParseFromStart(text: seq<byte>, valtype: Raw -> ValueType, s: State)
    requires s == START
    ensures Ready(text, s)
    ensures Parse(text, valtype) == TreeOf(ParseLines(text, valtype, s))
  {
    StartIsReady(text, s);
  }
}
