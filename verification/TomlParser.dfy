/**
 * The parser of src/toml/toml.c in place: a context whose current token, tree, selected table and header path are
 * updated by each method, proved against the functions of TomlGrammar. A Fail stands for the longjmp to toml_parse.
 */
module TomlParser {
  import opened Common
  import opened Lexer
  import opened TomlKeys
  import opened TomlTree
  import G = TomlGrammar

  /** A method did what the function says: it reached that state, or failed that way. */
  predicate Did(r: Outcome<Failure>, parsed: G.Parsed, s: G.State) {
    parsed == match r { case Pass => Ok(s) case Fail(error) => Err(error) }
  }

  class Context {
    const text: seq<byte>
    const valtype: Raw -> ValueType
    var tok: Token
    var heap: Heap
    var curtab: TableId
    var tpath: seq<G.Segment>

    function State(): G.State
      reads this
    {
      G.State(tok, heap, curtab)
    }

    constructor (text: seq<byte>, valtype: Raw -> ValueType)
      ensures this.text == text && this.valtype == valtype
      ensures G.Ready(text, State())
      ensures G.Parse(text, valtype) == G.TreeOf(G.ParseLines(text, valtype, State()))
    {
      this.text, this.valtype := text, valtype;
      tok, heap, curtab, tpath := FIRST_TOKEN, EMPTY_ROOT, ROOT, [];
      new;
      ghost var start :| start == G.START;
      G.ParseFromStart(text, valtype, start);
      assert State() == start;
    }

    /** next_token. */
    method NextToken(dot: bool) returns (r: Outcome<Failure>)
      requires G.Ready(text, State())
      modifies this`tok
      ensures Did(r, G.Next(text, old(State()), dot), State())
    {
      var next := ReadToken(text, tok, dot);
      match next {
        case Ok(token) => tok := token;
        case Err(failure) => return Fail(failure);
      }
      return Pass;
    }

    /** EAT_TOKEN. */
    method Eat(kind: Kind, dot: bool) returns (r: Outcome<Failure>)
      requires G.Ready(text, State())
      modifies this`tok
      ensures Did(r, G.Eat(text, old(State()), kind, dot), State())
    {
      if tok.kind != kind {
        return Fail(Failure(0, InternalError));
      }
      r := NextToken(dot);
    }

    method Reject() returns (r: Outcome<Failure>)
      ensures r == Fail(Failure(tok.lineno, SyntaxError))
    {
      r := Fail(Failure(tok.lineno, SyntaxError));
    }

    /** skip_newlines. */
    method SkipNewlines(dot: bool) returns (r: Outcome<Failure>)
      requires G.Ready(text, State())
      modifies this`tok
      ensures Did(r, G.SkipNewlines(text, old(State()), dot), State())
    {
      while tok.kind == Newline
        invariant G.Ready(text, State())
        invariant G.SkipNewlines(text, State(), dot) == G.SkipNewlines(text, old(State()), dot)
        decreases G.Fuel(text, tok)
      {
        :- NextToken(dot);
        if tok.eof {
          return Pass;
        }
      }
      return Pass;
    }

    // -------------------------------------------------------------- writers

    /** create_keyval_in_table, and the value put into the new entry. */
    method CreateKeyval(t: TableId, key: Token, val: Raw) returns (r: Outcome<Failure>)
      requires IsString(text, key) && Sound(heap) && t < |heap.tables|
      modifies this`heap
      ensures var created := G.CreateKeyval(text, old(heap), t, key, val);
              created == match r { case Pass => Ok(heap) case Fail(error) => Err(error) }
    {
      var newkey := ReadKey(text, key);
      if newkey.Err? {
        return Fail(newkey.error);
      }
      var found := LookUp(heap, t, newkey.value);
      if found != Absent {
        return Fail(Failure(key.lineno, KeyExists));
      }
      var tab := heap.tables[t];
      heap := heap.(tables := heap.tables[t := tab.(kvals := tab.kvals + [KeyVal(newkey.value, val)])]);
      return Pass;
    }

    /** create_keytable_in_table: `dest` is the new table, or the implicit one that is now explicit. */
    method CreateKeytable(t: TableId, key: Token) returns (r: Outcome<Failure>, dest: TableId)
      requires IsString(text, key) && Sound(heap) && t < |heap.tables|
      modifies this`heap
      ensures var created := G.CreateKeytable(text, old(heap), t, key);
              created == match r { case Pass => Ok((heap, dest)) case Fail(error) => Err(error) }
    {
      dest := t;
      var newkey := ReadKey(text, key);
      if newkey.Err? {
        return Fail(newkey.error), t;
      }
      var found := LookUp(heap, t, newkey.value);
      if found != Absent {
        assert TableSound(heap, t);
        if found.AsTable? && heap.tables[found.t].implicit {
          dest := found.t;
          heap := heap.(tables := heap.tables[dest := heap.tables[dest].(implicit := false)]);
          return Pass, dest;
        }
        return Fail(Failure(key.lineno, KeyExists)), t;
      }
      dest := NewTable(t, newkey.value, false);
      return Pass, dest;
    }

    /** A new, empty table at the end of the tables of `t`. */
    method NewTable(t: TableId, key: Key, implicit: bool) returns (dest: TableId)
      requires t < |heap.tables|
      modifies this`heap
      ensures heap == AddTable(old(heap), t, key, implicit) && dest == |old(heap).tables|
    {
      dest := |heap.tables|;
      var tab := heap.tables[t];
      var tables := heap.tables[t := tab.(tables := tab.tables + [dest])];
      heap := heap.(tables := tables + [Table(key, implicit, [], [], [])]);
    }

    /** create_keyarray_in_table. */
    method CreateKeyarray(t: TableId, key: Token, kind: ElementKind) returns (r: Outcome<Failure>, dest: ArrayId)
      requires IsString(text, key) && Sound(heap) && t < |heap.tables|
      modifies this`heap
      ensures var created := G.CreateKeyarray(text, old(heap), t, key, kind);
              created == match r { case Pass => Ok((heap, dest)) case Fail(error) => Err(error) }
    {
      dest := |heap.arrays|;
      var newkey := ReadKey(text, key);
      if newkey.Err? {
        return Fail(newkey.error), dest;
      }
      var found := LookUp(heap, t, newkey.value);
      if found != Absent {
        return Fail(Failure(key.lineno, KeyExists)), dest;
      }
      var tab := heap.tables[t];
      heap := heap.(tables := heap.tables[t := tab.(arrays := tab.arrays + [dest])],
                    arrays := heap.arrays + [Array(newkey.value, kind, Unknown, [], [], [])]);
      return Pass, dest;
    }

    // -------------------------------------------------------------- values

    /** parse_table. */
    method ParseTable(t: TableId) returns (r: Outcome<Failure>)
      requires G.Ready(text, State()) && t < |heap.tables|
      modifies this
      ensures Did(r, G.ParseTable(text, valtype, old(State()), t), State())
      decreases G.Fuel(text, tok), 0
    {
      r := Eat(LBrace, true);
      :- r;
      ghost var s1 := State();
      while true
        invariant G.Ready(text, State()) && G.Advances(text, s1, State())
        invariant G.ParseTableItems(text, valtype, State(), t) == G.ParseTableItems(text, valtype, s1, t)
        decreases G.Fuel(text, tok)
      {
        if tok.kind == Newline {
          r := Reject();
          return;
        }
        if tok.kind == RBrace {
          break;
        }
        if tok.kind != Str {
          r := Reject();
          return;
        }
        :- ParseKeyval(t);
        if tok.kind == Newline {
          r := Reject();
          return;
        }
        if tok.kind == Comma {
          :- Eat(Comma, true);
          continue;
        }
        break;
      }
      if tok.kind != RBrace {
        r := Reject();
        return;
      }
      r := Eat(RBrace, true);
    }

    /** parse_array. */
    method ParseArray(a: ArrayId) returns (r: Outcome<Failure>)
      requires G.Ready(text, State()) && a < |heap.arrays|
      modifies this
      ensures Did(r, G.ParseArray(text, valtype, old(State()), a), State())
      decreases G.Fuel(text, tok), 0
    {
      r := Eat(LBracket, false);
      :- r;
      ghost var s1 := State();
      while true
        invariant G.Ready(text, State()) && G.Advances(text, s1, State())
        invariant G.ParseArrayItems(text, valtype, State(), a) == G.ParseArrayItems(text, valtype, s1, a)
        decreases G.Fuel(text, tok)
      {
        :- SkipNewlines(false);
        if tok.kind == RBracket {
          break;
        }
        :- ParseElement(a);
        :- SkipNewlines(false);
        if tok.kind == Comma {
          :- Eat(Comma, false);
          continue;
        }
        break;
      }
      if tok.kind != RBracket {
        r := Reject();
        return;
      }
      r := Eat(RBracket, true);
    }

    /** The switch of parse_array on what starts an element. */
    method ParseElement(a: ArrayId) returns (r: Outcome<Failure>)
      requires G.Ready(text, State()) && a < |heap.arrays|
      modifies this
      ensures Did(r, G.ParseElement(text, valtype, old(State()), a), State())
      decreases G.Fuel(text, tok), 1
    {
      match tok.kind {
        case Str =>
          var val := text[tok.ptr..tok.End()];
          ghost var before := heap;
          heap := SetKind(heap, a, Values);
          var arr := heap.arrays[a];
          if arr.kind != Values || (arr.vals != [] && arr.valueType != valtype(val)) {
            r := Reject();
            return;
          }
          heap := PushValue(heap, a, val, valtype(val));
          G.SoundElement(before, a, val, valtype);
          r := Eat(Str, false);
        case LBracket =>
          G.SoundKind(heap, a, Arrays);
          heap := SetKind(heap, a, Arrays);
          G.SoundPushes(heap, a, []);
          if heap.arrays[a].kind != Arrays {
            r := Reject();
            return;
          }
          var inner := |heap.arrays|;
          heap := PushArray(heap, a);
          r := ParseArray(inner);
        case LBrace =>
          G.SoundKind(heap, a, Tables);
          heap := SetKind(heap, a, Tables);
          G.SoundPushes(heap, a, []);
          if heap.arrays[a].kind != Tables {
            r := Reject();
            return;
          }
          var inner := |heap.tables|;
          heap := PushTable(heap, a, []);
          r := ParseTable(inner);
        case _ =>
          r := Reject();
      }
    }

    /** parse_keyval. */
    method ParseKeyval(t: TableId) returns (r: Outcome<Failure>)
      requires G.Ready(text, State()) && t < |heap.tables|
      modifies this
      ensures Did(r, G.ParseKeyval(text, valtype, old(State()), t), State())
      decreases G.Fuel(text, tok), 1
    {
      var key := tok;
      :- Eat(Str, true);
      if tok.kind == Dot {
        var sub := t;
        r, sub := FindSubtable(t, key);
        :- r;
        :- NextToken(true);
        r := ParseKeyval(sub);
        return;
      }
      if tok.kind != Equal {
        r := Reject();
        return;
      }
      :- NextToken(false);
      match tok.kind {
        case Str =>
          var val := text[tok.ptr..tok.End()];
          :- CreateKeyval(t, key, val);
          r := NextToken(true);
        case LBracket =>
          var arr;
          r, arr := CreateKeyarray(t, key, Unset);
          :- r;
          r := ParseArray(arr);
        case LBrace =>
          var tab;
          r, tab := CreateKeytable(t, key);
          :- r;
          r := ParseTable(tab);
        case _ =>
          r := Reject();
      }
    }

    /** The table that a dotted key leads through. */
    method FindSubtable(t: TableId, key: Token) returns (r: Outcome<Failure>, dest: TableId)
      requires IsString(text, key) && Sound(heap) && t < |heap.tables|
      modifies this`heap
      ensures var found := G.Subtable(text, old(heap), t, key);
              found == match r { case Pass => Ok((heap, dest)) case Fail(error) => Err(error) }
    {
      var name := ReadKey(text, key);
      if name.Err? {
        return Fail(name.error), t;
      }
      var sub := TableIn(heap, t, name.value);
      if sub.Some? {
        return Pass, sub.value;
      }
      r, dest := CreateKeytable(t, key);
    }

    // -------------------------------------------------------------- headers

    /** fill_tabpath. */
    method FillTabpath() returns (r: Outcome<Failure>)
      requires G.Ready(text, State())
      modifies this`tok, this`tpath
      ensures var filled := G.FillTabpath(text, old(State()), old(tok.lineno), []);
              filled == match r { case Pass => Ok((State(), tpath)) case Fail(error) => Err(error) }
      ensures r.Pass? ==> G.PathRead(text, tpath)
    {
      var lineno := tok.lineno;
      tpath := [];
      while true
        invariant G.Ready(text, State())
        invariant G.FillTabpath(text, State(), lineno, tpath) == G.FillTabpath(text, old(State()), lineno, [])
        invariant G.PathRead(text, tpath)
        decreases G.Fuel(text, tok)
      {
        if |tpath| >= G.MAX_DEPTH {
          return Fail(Failure(lineno, TooDeep));
        }
        if tok.kind != Str {
          return Fail(Failure(lineno, SyntaxError));
        }
        var key := ReadKey(text, tok);
        if key.Err? {
          return Fail(key.error);
        }
        G.PathReadOn(text, tpath, G.Segment(key.value, tok));
        tpath := tpath + [G.Segment(key.value, tok)];
        :- NextToken(true);
        if tok.kind == RBracket {
          break;
        }
        if tok.kind != Dot {
          return Fail(Failure(lineno, SyntaxError));
        }
        :- NextToken(true);
      }
      return Pass;
    }

    /** walk_tabpath: from the root along `path`, creating implicit tables on the way; `dest` is the table reached. */
    method WalkTabpath(path: seq<G.Segment>) returns (r: Outcome<Failure>, dest: TableId)
      requires Sound(heap)
      modifies this`heap
      ensures var walked := G.Walk(old(heap), ROOT, path);
              walked == match r { case Pass => Ok((heap, dest)) case Fail(error) => Err(error) }
    {
      dest := ROOT;
      for i := 0 to |path|
        invariant Sound(heap) && dest < |heap.tables|
        invariant G.Walk(heap, dest, path[i..]) == G.Walk(old(heap), ROOT, path)
      {
        assert path[i..][1..] == path[i + 1..];
        r, dest := WalkInto(dest, path[i]);
        if r.Fail? {
          return r, dest;
        }
      }
      return Pass, dest;
    }

    /** One turn of that loop. */
    method WalkInto(t: TableId, segment: G.Segment) returns (r: Outcome<Failure>, dest: TableId)
      requires Sound(heap) && t < |heap.tables|
      modifies this`heap
      ensures var step := G.WalkStep(old(heap), t, segment);
              step == match r { case Pass => Ok((heap, dest)) case Fail(error) => Err(error) }
    {
      var found := LookUp(heap, t, segment.key);
      assert TableSound(heap, t);
      match found {
        case AsTable(id) =>
          return Pass, id;
        case AsArray(a) =>
          assert ArraySound(heap, a);
          var arr := heap.arrays[a];
          if arr.kind != Tables || |arr.tables| == 0 {
            return Fail(Failure(0, InternalError)), t;
          }
          return Pass, arr.tables[|arr.tables| - 1];
        case AsValue(_) =>
          return Fail(Failure(segment.tok.lineno, KeyExists)), t;
        case Absent =>
          G.SoundTables(heap, t, segment.key, true);
          dest := NewTable(t, segment.key, true);
          return Pass, dest;
      }
    }

    /** The [x.y.z] half of parse_select. */
    method SelectTable(path: seq<G.Segment>) returns (r: Outcome<Failure>)
      requires Sound(heap) && path != [] && G.PathRead(text, path)
      modifies this`heap, this`curtab
      ensures var selected := G.SelectTable(old(heap), path);
              selected == match r { case Pass => Ok((heap, curtab)) case Fail(error) => Err(error) }
    {
      var z := path[|path| - 1];
      var dest;
      r, dest := WalkTabpath(path[..|path| - 1]);
      :- r;
      r, curtab := CreateKeytable(dest, z.tok);
    }

    /** The [[x.y.z]] half of parse_select. */
    method SelectElement(path: seq<G.Segment>) returns (r: Outcome<Failure>)
      requires Sound(heap) && path != [] && G.PathRead(text, path)
      modifies this`heap, this`curtab
      ensures var selected := G.SelectElement(old(heap), path);
              selected == match r { case Pass => Ok((heap, curtab)) case Fail(error) => Err(error) }
    {
      var z := path[|path| - 1];
      var dest;
      r, dest := WalkTabpath(path[..|path| - 1]);
      :- r;
      var found := ArrayIn(heap, dest, z.key);
      assert TableSound(heap, dest);
      var arr;
      if found.None? {
        G.SoundArrays(heap, dest, z.key, Tables);
        r, arr := CreateKeyarray(dest, z.tok, Tables);
        :- r;
      } else {
        arr := found.value;
      }
      if heap.arrays[arr].kind != Tables {
        return Fail(Failure(z.tok.lineno, SyntaxError));
      }
      G.SoundPushes(heap, arr, ANON);
      curtab := |heap.tables|;
      heap := PushTable(heap, arr, ANON);
      return Pass;
    }

    /** parse_select. */
    method ParseSelect() returns (r: Outcome<Failure>)
      requires G.Ready(text, State()) && tok.kind == LBracket
      modifies this
      ensures Did(r, G.ParseSelect(text, old(State())), State())
    {
      var double := tok.ptr + 1 < |text| && text[tok.ptr + 1] == 0x5b;
      :- OpenHeader(double);
      :- FillTabpath();
      :- SelectHeader(double);
      r := CloseHeader(double);
    }

    /** The start of parse_select: [ or [[. */
    method OpenHeader(double: bool) returns (r: Outcome<Failure>)
      requires G.Ready(text, State()) && tok.kind == LBracket
      modifies this`tok
      ensures Did(r, G.OpenHeader(text, old(State()), double), State())
    {
      r := Eat(LBracket, true);
      :- r;
      if double {
        r := Eat(LBracket, true);
        return;
      }
      return Pass;
    }

    method SelectHeader(double: bool) returns (r: Outcome<Failure>)
      requires Sound(heap) && tpath != [] && G.PathRead(text, tpath)
      modifies this`heap, this`curtab
      ensures var selected := G.SelectHeader(old(heap), tpath, double);
              selected == match r { case Pass => Ok((heap, curtab)) case Fail(error) => Err(error) }
    {
      if double {
        r := SelectElement(tpath);
      } else {
        r := SelectTable(tpath);
      }
    }

    /** The end of parse_select: ] or ]], and the newline behind it. */
    method CloseHeader(double: bool) returns (r: Outcome<Failure>)
      requires G.Ready(text, State())
      modifies this`tok
      ensures Did(r, G.CloseHeader(text, old(State()), double), State())
    {
      if double {
        if !(tok.ptr + 1 < |text| && text[tok.ptr + 1] == 0x5d) {
          r := Reject();
          return;
        }
        :- Eat(RBracket, true);
      }
      :- Eat(RBracket, true);
      if tok.kind != Newline {
        r := Reject();
        return;
      }
      return Pass;
    }

    /** The loop of toml_parse. */
    method ParseLines() returns (r: Outcome<Failure>)
      requires G.Ready(text, State())
      modifies this
      ensures Did(r, G.ParseLines(text, valtype, old(State())), State())
    {
      while !tok.eof
        invariant G.Ready(text, State())
        invariant G.ParseLines(text, valtype, State()) == G.ParseLines(text, valtype, old(State()))
        decreases G.Fuel(text, tok)
      {
        match tok.kind {
          case Newline =>
            :- NextToken(true);
          case Str =>
            :- ParseKeyval(curtab);
            if tok.kind != Newline {
              r := Reject();
              return;
            }
            :- Eat(Newline, true);
          case LBracket =>
            :- ParseSelect();
          case _ =>
            r := Reject();
            return;
        }
      }
      return Pass;
    }
  }

  /** toml_parse: terminates on every text, with the tree of all its lines or with the first error. */
  method TomlParse(text: seq<byte>, valtype: Raw -> ValueType) returns (r: Result<Heap, Failure>)
    ensures r == G.Parse(text, valtype)
  {
    var ctx := new Context(text, valtype);
    var outcome := ctx.ParseLines();
    match outcome {
      case Pass => return Ok(ctx.heap);
      case Fail(failure) => return Err(failure);
    }
  }
}
