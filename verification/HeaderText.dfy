/**
 * From the text of table headers to the tree: the lexer, the unescaper, the parser and the writers together. Keys are
 * bare or quoted, and there may be blanks around them, comments behind headers, and lines without one.
 */
module HeaderText {
  import opened Common
  import opened BasicString
  import opened StringAgreement
  import opened Lexer
  import opened TomlKeys
  import opened TomlTree
  import opened TomlGrammar
  import opened TableHeaders
  import opened HeaderKeys

  const OPEN: byte := 0x5b

  // ---------------------------------------------------------------- texts of headers

  /** A key of a header with the blanks around it. */
  datatype Part = Part(before: seq<byte>, name: Spelling, after: seq<byte>)

  /** The end of a line: blanks, and perhaps a comment. */
  datatype Gap = Gap(blanks: seq<byte>, comment: seq<byte>)

  /** A line without a header, or one like [a.b.c]. */
  datatype Line = Empty(gap: Gap) | Header(lead: seq<byte>, parts: seq<Part>, gap: Gap)

  predicate Blanks(s: seq<byte>) {
    forall i :: 0 <= i < |s| ==> IsBlank(s[i])
  }

  predicate LegalPart(part: Part) {
    Blanks(part.before) && Legal(part.name) && Blanks(part.after)
  }

  predicate LegalGap(gap: Gap) {
    Blanks(gap.blanks) && (gap.comment != [] ==> gap.comment[0] == HASH && NEWLINE !in gap.comment)
  }

  predicate LegalParts(parts: seq<Part>) {
    parts != [] && forall i :: 0 <= i < |parts| ==> LegalPart(parts[i])
  }

  predicate LegalLine(line: Line) {
    LegalGap(line.gap) && (line.Header? ==> Blanks(line.lead) && LegalParts(line.parts))
  }

  predicate LegalLines(lines: seq<Line>) {
    forall i :: 0 <= i < |lines| ==> LegalLine(lines[i])
  }

  /** The character behind a part: a dot, or the closing bracket behind the last one. */
  function Mark(parts: seq<Part>): byte
    requires parts != []
  {
    if |parts| == 1 then CLOSE else PERIOD
  }

  function PartText(part: Part): seq<byte> {
    part.before + Spelled(part.name) + part.after
  }

  /** The keys of a header between its brackets, and the closing bracket. */
  function Inside(parts: seq<Part>): seq<byte>
    requires parts != []
  {
    PartText(parts[0]) + [Mark(parts)] + if |parts| == 1 then [] else Inside(parts[1..])
  }

  function GapText(gap: Gap): seq<byte> {
    gap.blanks + gap.comment
  }

  function LineText(line: Line): seq<byte>
    requires LegalLine(line)
  {
    match line
    case Empty(gap) => GapText(gap) + [NEWLINE]
    case Header(lead, parts, gap) => lead + [OPEN] + Inside(parts) + (GapText(gap) + [NEWLINE])
  }

  function Render(lines: seq<Line>): seq<byte>
    requires LegalLines(lines)
  {
    if lines == [] then [] else LineText(lines[0]) + Render(lines[1..])
  }

  /** The keys that the parts of a header mean. */
  function PathOf(parts: seq<Part>): (p: Path)
    requires forall i :: 0 <= i < |parts| ==> LegalPart(parts[i])
    ensures |p| == |parts|
  {
    seq(|parts|, i requires 0 <= i < |parts| => assert LegalPart(parts[i]); KeyOf(parts[i].name))
  }

  function PathsOf(lines: seq<Line>): (r: seq<Path>)
    requires LegalLines(lines)
    ensures forall i :: 0 <= i < |r| ==> r[i] != []
  {
    if lines == [] then []
    else if lines[0].Empty? then PathsOf(lines[1..])
    else [PathOf(lines[0].parts)] + PathsOf(lines[1..])
  }

  /** Every key is taken whole. */
  predicate AllWhole(parts: seq<Part>)
    decreases |parts|
  {
    parts == [] || (Whole(parts[0].name, parts[0].after, Mark(parts)) && AllWhole(parts[1..]))
  }

  /** The headers that the parser reads: of at most ten keys, all taken whole. */
  predicate Readable(line: Line) {
    line.Header? ==> |line.parts| <= MAX_DEPTH && AllWhole(line.parts)
  }

  predicate AllReadable(lines: seq<Line>) {
    forall i :: 0 <= i < |lines| ==> Readable(lines[i])
  }

  // ---------------------------------------------------------------- pieces of a text

  predicate Here(text: seq<byte>, p: nat, piece: seq<byte>) {
    p + |piece| <= |text| && text[p..p + |piece|] == piece
  }

  lemma HereSplits(text: seq<byte>, p: nat, a: seq<byte>, q: nat, b: seq<byte>)
    requires Here(text, p, a + b) && q == p + |a|
    ensures Here(text, p, a) && Here(text, q, b)
  {
    assert text[p..p + |a|] == (a + b)[..|a|];
    assert text[p + |a|..p + |a| + |b|] == (a + b)[|a|..];
  }

  lemma HereThrice(text: seq<byte>, p: nat, a: seq<byte>, q: nat, b: seq<byte>, r: nat, c: seq<byte>)
    requires Here(text, p, (a + b) + c) && q == p + |a| && r == q + |b|
    ensures Here(text, p, a) && Here(text, q, b) && Here(text, r, c)
  {
    HereSplits(text, p, a + b, r, c);
    HereSplits(text, p, a, q, b);
  }

  lemma HereFirst(text: seq<byte>, p: nat, piece: seq<byte>)
    requires Here(text, p, piece) && piece != []
    ensures text[p] == piece[0]
  {
    assert text[p..p + |piece|][0] == text[p];
  }

  lemma HereBlank(text: seq<byte>, p: nat, q: nat, piece: seq<byte>)
    requires Here(text, p, piece) && Blanks(piece) && q == p + |piece|
    ensures BlankFrom(text, p, q)
  {
    forall i | p <= i < q ensures IsBlank(text[i]) {
      assert text[p..q][i - p] == text[i];
    }
  }

  // ---------------------------------------------------------------- gaps

  lemma {:induction false} BlanksSkip(text: seq<byte>, p: nat, q: nat)
    requires BlankFrom(text, p, q)
    ensures GapEnd(text, p) == GapEnd(text, q)
    decreases q - p
  {
    if p < q {
      BlanksSkip(text, p + 1, q);
    }
  }

  lemma {:induction false} CommentSkips(text: seq<byte>, p: nat, q: nat)
    requires p <= q < |text| && text[q] == NEWLINE && forall i :: p <= i < q ==> text[i] != NEWLINE
    ensures CommentEnd(text, p) == q
    decreases q - p
  {
    if p < q {
      CommentSkips(text, p + 1, q);
    }
  }

  /** The gap at the end of a line is skipped to its newline. */
  lemma GapSkips(text: seq<byte>, p: nat, gap: Gap, q: nat)
    requires LegalGap(gap) && Here(text, p, GapText(gap) + [NEWLINE]) && q == p + |GapText(gap)|
    ensures q < |text| && text[q] == NEWLINE && GapEnd(text, p) == q
  {
    var m := p + |gap.blanks|;
    HereThrice(text, p, gap.blanks, m, gap.comment, q, [NEWLINE]);
    HereFirst(text, q, [NEWLINE]);
    HereBlank(text, p, m, gap.blanks);
    BlanksSkip(text, p, m);
    if gap.comment != [] {
      HereFirst(text, m, gap.comment);
      forall i | m <= i < q ensures text[i] != NEWLINE {
        assert text[m..q][i - m] == text[i] && text[i] in gap.comment;
      }
      CommentSkips(text, m + 1, q);
    }
  }

  // ---------------------------------------------------------------- tokens

  /** The next token is the one behind the gap. */
  lemma NextPast(text: seq<byte>, s: State, q: nat)
    requires Ready(text, s) && q < |text| && GapEnd(text, s.tok.End()) == q
    ensures var lineno := s.tok.lineno + Newlines(text[s.tok.ptr..s.tok.End()]);
            NextToken(text, s.tok, true) == TokenAt(text, q, lineno, true)
  {
  }

  /** A special character is its own token. */
  lemma MarkFollows(text: seq<byte>, s: State, q: nat, kind: Kind) returns (s1: State)
    requires Ready(text, s) && q < |text| && GapEnd(text, s.tok.End()) == q && SpecialKind(text[q], true) == Some(kind)
    ensures Next(text, s, true) == Ok(s1) && s1 == s.(tok := s1.tok) && Ready(text, s1)
    ensures s1.tok.kind == kind && s1.tok.ptr == q && s1.tok.len == 1 && !s1.tok.eof
  {
    NextPast(text, s, q);
    assert Next(text, s, true).Ok?;
    s1 :| Next(text, s, true) == Ok(s1);
  }

  /** The newline behind the gap at the end of a line. */
  lemma NewlineFollows(text: seq<byte>, s: State, p: nat, gap: Gap, end: nat) returns (s1: State)
    requires Ready(text, s) && p == s.tok.End()
    requires LegalGap(gap) && Here(text, p, GapText(gap) + [NEWLINE]) && end == p + |GapText(gap)| + 1
    ensures Next(text, s, true) == Ok(s1) && s1 == s.(tok := s1.tok) && Ready(text, s1)
    ensures s1.tok.kind == Newline && s1.tok.End() == end && !s1.tok.eof
  {
    GapSkips(text, p, gap, end - 1);
    s1 := MarkFollows(text, s, end - 1, Newline);
  }

  lemma EndFollows(text: seq<byte>, s: State)
    requires Ready(text, s) && s.tok.End() == |text|
    ensures var r := Next(text, s, true);
            r.Ok? && r.value == s.(tok := r.value.tok) && r.value.tok.eof
  {
    assert GapEnd(text, |text|) == |text|;
  }

  /** A STRING starts behind the gap, and ends where scan_string says. */
  lemma StringFollows(text: seq<byte>, s: State, p: nat)
    requires Ready(text, s) && p < |text| && GapEnd(text, s.tok.End()) == p && SpecialKind(text[p], true).None?
    ensures var r, end := Next(text, s, true), ScanString(text, p, true);
            && (r.Ok? <==> end.Ok?)
            && (r.Ok? ==>
                  && r.value == s.(tok := r.value.tok)
                  && r.value.tok.kind == Str && r.value.tok.ptr == p && r.value.tok.End() == end.value)
  {
    NextPast(text, s, p);
  }

  /** A part of a header in the text: blanks from `p`, the key from `k`, blanks from `q`, and the mark at `r`. */
  predicate PartHere(text: seq<byte>, p: nat, k: nat, q: nat, r: nat, part: Part, mark: byte) {
    && LegalPart(part) && mark in {PERIOD, CLOSE}
    && BlankFrom(text, p, k) && k < q <= |text| && text[k..q] == Spelled(part.name)
    && Delimited(text, q, r) && text[q..r] == part.after && text[r] == mark
  }

  lemma NameFirst(text: seq<byte>, k: nat, q: nat, n: Spelling)
    requires Legal(n) && k < q <= |text| && text[k..q] == Spelled(n)
    ensures SpecialKind(text[k], true).None? && text[k] != HASH && !IsBlank(text[k]) && text[k] != OPEN
  {
    assert text[k..q][0] == text[k];
  }

  /** What a key of a header begins with, behind its blanks. */
  lemma NameStarts(text: seq<byte>, p: nat, k: nat, q: nat, r: nat, part: Part, mark: byte)
    requires PartHere(text, p, k, q, r, part, mark)
    ensures GapEnd(text, p) == k && SpecialKind(text[k], true).None?
  {
    NameFirst(text, k, q, part.name);
    BlanksSkip(text, p, k);
  }

  /** The scanner on a key that it takes whole, and the key it is read as. */
  lemma WholeScans(text: seq<byte>, p: nat, k: nat, q: nat, r: nat, part: Part, mark: byte)
    requires PartHere(text, p, k, q, r, part, mark) && Whole(part.name, part.after, mark)
    ensures ScanString(text, k, true) == Ok(q)
    ensures !part.name.Bare? ==> !Thrice(text, k, text[k])
  {
    match part.name
    case Bare(_) => BareKeyScans(text, k, q, r, part.name);
    case Basic(content) => BasicKeyScans(text, k, q, content);
    case Literal(content) => LiteralKeyScans(text, k, q, content);
  }

  lemma WholeReads(text: seq<byte>, tok: Token, part: Part)
    requires IsString(text, tok) && tok.ptr < tok.End() <= |text| && LegalPart(part)
    requires text[tok.ptr..tok.End()] == Spelled(part.name)
    requires !part.name.Bare? ==> !Thrice(text, tok.ptr, text[tok.ptr])
    ensures NormalizeKey(text, tok) == Ok(KeyOf(part.name))
  {
    if part.name.Bare? {
      BareKeyReads(text, tok, part.name);
    } else {
      QuotedKeyReads(text, tok, part.name);
    }
  }

  /** A key that is taken whole is the next token, and is read as the key. */
  lemma WholeFollows(text: seq<byte>, s: State, p: nat, k: nat, q: nat, r: nat, part: Part, mark: byte)
    requires Ready(text, s) && p == s.tok.End() && PartHere(text, p, k, q, r, part, mark)
    requires Whole(part.name, part.after, mark)
    ensures var next := Next(text, s, true);
            && next.Ok? && next.value == s.(tok := next.value.tok)
            && next.value.tok.kind == Str && next.value.tok.End() == q
            && NormalizeKey(text, next.value.tok) == Ok(KeyOf(part.name))
  {
    NameStarts(text, p, k, q, r, part, mark);
    WholeScans(text, p, k, q, r, part, mark);
    StringFollows(text, s, k);
    WholeReads(text, Next(text, s, true).value.tok, part);
  }

  /** The key, and the mark behind it. */
  lemma PartFollows(text: seq<byte>, s: State, p: nat, k: nat, q: nat, r: nat, m: nat, part: Part, mark: byte)
    returns (s1: State, s2: State)
    requires Ready(text, s) && p == s.tok.End() && PartHere(text, p, k, q, r, part, mark) && m == r + 1
    requires Whole(part.name, part.after, mark)
    ensures Next(text, s, true) == Ok(s1) && s1.tok.kind == Str && Ready(text, s1)
    ensures NormalizeKey(text, s1.tok) == Ok(KeyOf(part.name))
    ensures Next(text, s1, true) == Ok(s2) && s2 == s.(tok := s2.tok) && Ready(text, s2)
    ensures s2.tok.kind == (if mark == CLOSE then RBracket else Dot) && s2.tok.End() == m
  {
    WholeFollows(text, s, p, k, q, r, part, mark);
    s1 :| Next(text, s, true) == Ok(s1);
    BlanksSkip(text, q, r);
    s2 := MarkFollows(text, s1, r, if mark == CLOSE then RBracket else Dot);
  }

  /** After that token the header cannot be read any further. */
  predicate Breaks(text: seq<byte>, s: State)
    requires Ready(text, s) && s.tok.kind == Str
  {
    NormalizeKey(text, s.tok).Err? || Next(text, s, true).Err? || Next(text, s, true).value.tok.kind == Str
  }

  /** A key that is not taken whole breaks the header. */
  lemma BrokenFollows(text: seq<byte>, s: State, p: nat, k: nat, q: nat, r: nat, part: Part, mark: byte)
    requires Ready(text, s) && p == s.tok.End() && PartHere(text, p, k, q, r, part, mark)
    requires !Whole(part.name, part.after, mark)
    ensures var next := Next(text, s, true);
            next.Ok? ==> next.value.tok.kind == Str && Breaks(text, next.value)
  {
    NameStarts(text, p, k, q, r, part, mark);
    BareKeyBreaks(text, k, q, r, part.name);
    StringFollows(text, s, k);
    var next := Next(text, s, true);
    if next.Ok? {
      if text[r] == PERIOD && r < next.value.tok.End() {
        DotSwallowed(text, next.value.tok, k, q, r, part.name);
      } else {
        BrokenInside(text, next.value, k, q, part.name);
      }
    }
  }

  lemma DotSwallowed(text: seq<byte>, tok: Token, k: nat, q: nat, r: nat, n: Spelling)
    requires IsString(text, tok) && tok.ptr == k && BareHere(text, k, q, n)
    requires q <= r < tok.End() <= |text| && text[r] == PERIOD
    ensures NormalizeKey(text, tok).Err?
  {
    BareAt(text, k, q, n, k);
    assert text[k..tok.End()][r - k] == PERIOD;
  }

  lemma BrokenInside(text: seq<byte>, s: State, k: nat, q: nat, n: Spelling)
    requires Ready(text, s) && s.tok.kind == Str && BareHere(text, k, q, n) && k < s.tok.End() < q
    ensures Breaks(text, s)
  {
    BareAt(text, k, q, n, s.tok.End());
    StringFollows(text, s, s.tok.End());
  }

  // ---------------------------------------------------------------- selecting by keys

  lemma KeysTail(a: seq<Segment>)
    requires a != []
    ensures a[0].key == KeysOf(a)[0] && KeysOf(a[1..]) == KeysOf(a)[1..]
  {
  }

  lemma StepByKey(h: Heap, t: TableId, a: Segment, b: Segment)
    requires Sound(h) && t < |h.tables| && a.key == b.key
    ensures WalkStep(h, t, a).Ok? <==> WalkStep(h, t, b).Ok?
    ensures WalkStep(h, t, a).Ok? ==> WalkStep(h, t, a) == WalkStep(h, t, b)
  {
  }

  /** What a header does depends on its keys only; its tokens matter for the line number of an error. */
  lemma {:induction false} WalkByKeys(h: Heap, t: TableId, a: seq<Segment>, b: seq<Segment>)
    requires Sound(h) && t < |h.tables| && KeysOf(a) == KeysOf(b)
    ensures Walk(h, t, a).Ok? <==> Walk(h, t, b).Ok?
    ensures Walk(h, t, a).Ok? ==> Walk(h, t, a) == Walk(h, t, b)
    decreases |a|
  {
    assert |a| == |KeysOf(a)| == |b|;
    if a != [] {
      KeysTail(a);
      KeysTail(b);
      StepByKey(h, t, a[0], b[0]);
      if WalkStep(h, t, a[0]).Ok? {
        var step := WalkStep(h, t, a[0]).value;
        WalkByKeys(step.0, step.1, a[1..], b[1..]);
      }
    }
  }

  lemma SelectByKeys(h: Heap, a: seq<Segment>, b: seq<Segment>)
    requires Sound(h) && a != [] && b != [] && KeysOf(a) == KeysOf(b)
    ensures SelectTable(h, a).Ok? <==> SelectTable(h, b).Ok?
    ensures SelectTable(h, a).Ok? ==> SelectTable(h, a) == SelectTable(h, b)
  {
    var n := |a| - 1;
    assert |a| == |KeysOf(a)| == |b|;
    assert a[n].key == KeysOf(a)[n] == KeysOf(b)[n] == b[n].key;
    assert KeysOf(a[..n]) == KeysOf(a)[..n] == KeysOf(b)[..n] == KeysOf(b[..n]);
    WalkByKeys(h, ROOT, a[..n], b[..n]);
  }

  /** Segments with the given keys. */
  function Segments(path: Path): (r: seq<Segment>)
    ensures KeysOf(r) == path
  {
    seq(|path|, i requires 0 <= i < |path| => Segment(path[i], FIRST_TOKEN))
  }

  function AllSegments(paths: seq<Path>): (r: seq<seq<Segment>>)
    ensures |r| == |paths| && forall i :: 0 <= i < |r| ==> KeysOf(r[i]) == paths[i]
  {
    seq(|paths|, i requires 0 <= i < |paths| => Segments(paths[i]))
  }

  // ---------------------------------------------------------------- one header

  /** fill_tabpath from the token before a header's next key. */
  function Filled(text: seq<byte>, s: State, lineno: nat, before: seq<Segment>): Result<(State, seq<Segment>), Failure>
    requires Ready(text, s)
  {
    var next :- Next(text, s, true);
    FillTabpath(text, next, lineno, before)
  }

  /** The parts behind the first, which start at `m`, or the end of the header. */
  predicate RestHere(text: seq<byte>, p: nat, m: nat, parts: seq<Part>)
    requires parts != []
  {
    if |parts| == 1 then m == p + |Inside(parts)|
    else Here(text, m, Inside(parts[1..])) && m + |Inside(parts[1..])| == p + |Inside(parts)|
  }

  /** The first of the parts at `p`, and where the others are. */
  lemma PartsSplit(text: seq<byte>, p: nat, parts: seq<Part>) returns (k: nat, q: nat, r: nat, m: nat)
    requires LegalParts(parts) && Here(text, p, Inside(parts))
    ensures PartHere(text, p, k, q, r, parts[0], Mark(parts)) && m == r + 1 && RestHere(text, p, m, parts)
  {
    r := p + |PartText(parts[0])|;
    var rest := if |parts| == 1 then [] else Inside(parts[1..]);
    m := r + 1;
    HereThrice(text, p, PartText(parts[0]), r, [Mark(parts)], m, rest);
    HereFirst(text, r, [Mark(parts)]);
    k, q := PartSplits(text, p, parts[0], r, Mark(parts));
  }

  lemma PartSplits(text: seq<byte>, p: nat, part: Part, r: nat, mark: byte) returns (k: nat, q: nat)
    requires LegalPart(part) && Here(text, p, PartText(part)) && r == p + |PartText(part)|
    requires r < |text| && text[r] == mark && mark in {PERIOD, CLOSE}
    ensures PartHere(text, p, k, q, r, part, mark)
  {
    k := p + |part.before|;
    q := k + |Spelled(part.name)|;
    HereThrice(text, p, part.before, k, Spelled(part.name), q, part.after);
    HereBlank(text, p, k, part.before);
    HereBlank(text, q, r, part.after);
  }

  lemma LegalRest(parts: seq<Part>)
    requires LegalParts(parts) && |parts| > 1
    ensures LegalParts(parts[1..]) && PathOf(parts) == [KeyOf(parts[0].name)] + PathOf(parts[1..])
  {
    assert forall i :: 0 <= i < |parts[1..]| ==> parts[1..][i] == parts[i + 1];
  }

  lemma KeysAppend(before: seq<Segment>, segment: Segment, rest: Path)
    ensures KeysOf(before + [segment]) + rest == KeysOf(before) + ([segment.key] + rest)
  {
    assert KeysOf(before + [segment]) == KeysOf(before) + [segment.key];
  }

  /** What reading the parts of a header comes to, with the segments before them. */
  ghost predicate ReadsParts(text: seq<byte>, s: State, end: nat, lineno: nat, before: seq<Segment>, parts: seq<Part>)
    requires Ready(text, s) && LegalParts(parts)
  {
    var filled := Filled(text, s, lineno, before);
    && (filled.Ok? <==> AllWhole(parts) && |before| + |parts| <= MAX_DEPTH)
    && (filled.Ok? ==>
          && KeysOf(filled.value.1) == KeysOf(before) + PathOf(parts)
          && filled.value.0 == s.(tok := filled.value.0.tok) && filled.value.0.tok.End() == end)
  }

  /** fill_tabpath succeeds exactly on at most ten keys that are taken whole, and ends at the closing bracket. */
  lemma {:induction false} FillReads(
    text: seq<byte>, s: State, p: nat, lineno: nat, before: seq<Segment>, parts: seq<Part>)
    requires Ready(text, s) && LegalParts(parts) && p == s.tok.End() && Here(text, p, Inside(parts))
    ensures ReadsParts(text, s, p + |Inside(parts)|, lineno, before, parts)
    decreases |parts|
  {
    if !Whole(parts[0].name, parts[0].after, Mark(parts)) {
      FirstBreaks(text, s, p, lineno, before, parts);
    } else {
      var s1, s2, m := FirstFollows(text, s, p, parts);
      var segment := Segment(KeyOf(parts[0].name), s1.tok);
      if |parts| == 1 {
        ReadsLast(text, s, s1, s2, lineno, before, segment, parts);
      } else {
        LegalRest(parts);
        FillReads(text, s2, m, lineno, before + [segment], parts[1..]);
        ReadsMore(text, s, s1, s2, p + |Inside(parts)|, lineno, before, segment, parts);
      }
    }
  }

  lemma FirstFollows(text: seq<byte>, s: State, p: nat, parts: seq<Part>) returns (s1: State, s2: State, m: nat)
    requires Ready(text, s) && LegalParts(parts) && p == s.tok.End() && Here(text, p, Inside(parts))
    requires Whole(parts[0].name, parts[0].after, Mark(parts))
    ensures Next(text, s, true) == Ok(s1) && s1.tok.kind == Str && Ready(text, s1)
    ensures NormalizeKey(text, s1.tok) == Ok(KeyOf(parts[0].name))
    ensures Next(text, s1, true) == Ok(s2) && s2 == s.(tok := s2.tok) && Ready(text, s2)
    ensures s2.tok.kind == if |parts| == 1 then RBracket else Dot
    ensures m == s2.tok.End() && RestHere(text, p, m, parts)
  {
    var k, q, r;
    k, q, r, m := PartsSplit(text, p, parts);
    s1, s2 := PartFollows(text, s, p, k, q, r, m, parts[0], Mark(parts));
  }

  lemma FirstBreaks(text: seq<byte>, s: State, p: nat, lineno: nat, before: seq<Segment>, parts: seq<Part>)
    requires Ready(text, s) && LegalParts(parts) && p == s.tok.End() && Here(text, p, Inside(parts))
    requires !Whole(parts[0].name, parts[0].after, Mark(parts))
    ensures ReadsParts(text, s, p + |Inside(parts)|, lineno, before, parts)
  {
    var k, q, r, m := PartsSplit(text, p, parts);
    BrokenFollows(text, s, p, k, q, r, parts[0], Mark(parts));
    if Next(text, s, true).Ok? {
      var s1 :| Next(text, s, true) == Ok(s1);
      BreaksOff(text, s1, lineno, before);
    }
  }

  lemma BreaksOff(text: seq<byte>, s: State, lineno: nat, before: seq<Segment>)
    requires Ready(text, s) && s.tok.kind == Str && Breaks(text, s)
    ensures FillTabpath(text, s, lineno, before).Err?
  {
    if NormalizeKey(text, s.tok).Ok? && Next(text, s, true).Ok? {
      var s1 :| Next(text, s, true) == Ok(s1);
      TwoStrings(text, s, s1, lineno, before);
    }
  }

  lemma TwoStrings(text: seq<byte>, s: State, s1: State, lineno: nat, before: seq<Segment>)
    requires Ready(text, s) && s.tok.kind == Str && Next(text, s, true) == Ok(s1) && s1.tok.kind == Str
    ensures FillTabpath(text, s, lineno, before).Err?
  {
  }

  lemma FillLast(text: seq<byte>, s: State, s1: State, s2: State, lineno: nat, before: seq<Segment>, segment: Segment)
    requires Ready(text, s) && Next(text, s, true) == Ok(s1) && s1.tok.kind == Str
    requires NormalizeKey(text, s1.tok) == Ok(segment.key) && segment.tok == s1.tok
    requires Next(text, s1, true) == Ok(s2) && s2.tok.kind == RBracket
    ensures Filled(text, s, lineno, before) ==
            if |before| >= MAX_DEPTH then Err(Failure(lineno, TooDeep)) else Ok((s2, before + [segment]))
  {
  }

  lemma FillMore(text: seq<byte>, s: State, s1: State, s2: State, lineno: nat, before: seq<Segment>, segment: Segment)
    requires Ready(text, s) && Next(text, s, true) == Ok(s1) && s1.tok.kind == Str
    requires NormalizeKey(text, s1.tok) == Ok(segment.key) && segment.tok == s1.tok
    requires Next(text, s1, true) == Ok(s2) && s2.tok.kind == Dot && Ready(text, s2)
    ensures Filled(text, s, lineno, before) ==
            if |before| >= MAX_DEPTH then Err(Failure(lineno, TooDeep))
            else Filled(text, s2, lineno, before + [segment])
  {
  }

  lemma ReadsLast(
    text: seq<byte>, s: State, s1: State, s2: State, lineno: nat, before: seq<Segment>, segment: Segment,
    parts: seq<Part>)
    requires Ready(text, s) && Next(text, s, true) == Ok(s1) && s1.tok.kind == Str
    requires NormalizeKey(text, s1.tok) == Ok(segment.key) && segment.tok == s1.tok
    requires Next(text, s1, true) == Ok(s2) && s2.tok.kind == RBracket && s2 == s.(tok := s2.tok)
    requires LegalParts(parts) && |parts| == 1 && segment.key == KeyOf(parts[0].name) && AllWhole(parts)
    ensures ReadsParts(text, s, s2.tok.End(), lineno, before, parts)
  {
    FillLast(text, s, s1, s2, lineno, before, segment);
    KeysAppend(before, segment, []);
    assert PathOf(parts) == [segment.key] + [] && KeysOf(before + [segment]) + [] == KeysOf(before + [segment]);
  }

  lemma ReadsMore(
    text: seq<byte>, s: State, s1: State, s2: State, end: nat, lineno: nat, before: seq<Segment>, segment: Segment,
    parts: seq<Part>)
    requires Ready(text, s) && Next(text, s, true) == Ok(s1) && s1.tok.kind == Str
    requires NormalizeKey(text, s1.tok) == Ok(segment.key) && segment.tok == s1.tok
    requires Next(text, s1, true) == Ok(s2) && s2.tok.kind == Dot && Ready(text, s2) && s2 == s.(tok := s2.tok)
    requires LegalParts(parts) && |parts| > 1 && LegalParts(parts[1..]) && segment.key == KeyOf(parts[0].name)
    requires Whole(parts[0].name, parts[0].after, Mark(parts))
    requires ReadsParts(text, s2, end, lineno, before + [segment], parts[1..])
    ensures ReadsParts(text, s, end, lineno, before, parts)
  {
    LegalRest(parts);
    FillMore(text, s, s1, s2, lineno, before, segment);
    KeysAppend(before, segment, PathOf(parts[1..]));
  }

  /** The parser at a header and the selection of its path agree, up to the newline before `end`. */
  ghost predicate SelectsAlike(text: seq<byte>, s: State, readable: bool, path: Path, end: nat)
    requires Ready(text, s) && s.tok.kind == LBracket && path != []
  {
    var selected, r := SelectTable(s.heap, Segments(path)), ParseSelect(text, s);
    && (r.Ok? <==> readable && selected.Ok?)
    && (r.Ok? ==>
          && r.value.heap == selected.value.0
          && r.value.tok.kind == Newline && !r.value.tok.eof
          && r.value.tok.End() == end)
  }

  /** The parts of a header at `p` and the gap behind them at `q` select the table of their path. */
  lemma HeaderSelects(text: seq<byte>, s: State, p: nat, parts: seq<Part>, q: nat, gap: Gap, end: nat)
    requires Ready(text, s) && s.tok.kind == LBracket && s.tok.len == 1 && p == s.tok.End() && LegalParts(parts)
    requires Here(text, p, Inside(parts)) && q == p + |Inside(parts)|
    requires LegalGap(gap) && Here(text, q, GapText(gap) + [NEWLINE]) && end == q + |GapText(gap)| + 1
    ensures SelectsAlike(text, s, |parts| <= MAX_DEPTH && AllWhole(parts), PathOf(parts), end)
  {
    SingleBracket(text, s, p, parts);
    if Next(text, s, true).Err? {
      FillReads(text, s, p, 0, [], parts);
    } else {
      var s1 :| Next(text, s, true) == Ok(s1);
      FillReads(text, s, p, s1.tok.lineno, [], parts);
      SelectsFilled(text, s, s1, parts, q, gap, end);
    }
  }

  lemma SingleBracket(text: seq<byte>, s: State, p: nat, parts: seq<Part>)
    requires Ready(text, s) && s.tok.len == 1 && p == s.tok.End() && LegalParts(parts) && Here(text, p, Inside(parts))
    ensures !SameByteBehind(text, s.tok, OPEN)
  {
    var k, q, r, m := PartsSplit(text, p, parts);
    FirstBehind(text, p, k, q, r, parts[0], Mark(parts));
  }

  lemma FirstBehind(text: seq<byte>, p: nat, k: nat, q: nat, r: nat, part: Part, mark: byte)
    requires PartHere(text, p, k, q, r, part, mark)
    ensures p < |text| && text[p] != OPEN
  {
    NameFirst(text, k, q, part.name);
  }

  lemma SelectsFilled(text: seq<byte>, s: State, s1: State, parts: seq<Part>, q: nat, gap: Gap, end: nat)
    requires Ready(text, s) && s.tok.kind == LBracket && !SameByteBehind(text, s.tok, OPEN) && LegalParts(parts)
    requires Next(text, s, true) == Ok(s1) && ReadsParts(text, s, q, s1.tok.lineno, [], parts)
    requires LegalGap(gap) && Here(text, q, GapText(gap) + [NEWLINE]) && end == q + |GapText(gap)| + 1
    ensures SelectsAlike(text, s, |parts| <= MAX_DEPTH && AllWhole(parts), PathOf(parts), end)
  {
    var filled := FillTabpath(text, s1, s1.tok.lineno, []);
    if filled.Err? {
      SelectFails(text, s, s1);
    } else {
      var (last, segments) := filled.value;
      assert KeysOf([]) + PathOf(parts) == PathOf(parts);
      SelectIsClosed(text, s, s1, last, segments);
      assert |segments| == |KeysOf(segments)|;
      SelectByKeys(s.heap, segments, Segments(PathOf(parts)));
      var selected := SelectTable(s.heap, segments);
      if selected.Ok? {
        var closing := State(last.tok, selected.value.0, selected.value.1);
        var closed := NewlineFollows(text, closing, q, gap, end);
        ClosesWith(text, closing, closed);
      }
    }
  }

  lemma SelectFails(text: seq<byte>, s: State, s1: State)
    requires Ready(text, s) && s.tok.kind == LBracket && !SameByteBehind(text, s.tok, OPEN)
    requires Next(text, s, true) == Ok(s1) && FillTabpath(text, s1, s1.tok.lineno, []).Err?
    ensures ParseSelect(text, s).Err?
  {
  }

  /** parse_select of a single bracket, in two halves. */
  lemma SelectIsClosed(text: seq<byte>, s: State, s1: State, last: State, segments: seq<Segment>)
    requires Ready(text, s) && s.tok.kind == LBracket && !SameByteBehind(text, s.tok, OPEN)
    requires Next(text, s, true) == Ok(s1) && FillTabpath(text, s1, s1.tok.lineno, []) == Ok((last, segments))
    requires Ready(text, last) && segments != []
    ensures var selected := SelectTable(s.heap, segments);
            && (selected.Err? ==> ParseSelect(text, s).Err?)
            && (selected.Ok? ==>
                  ParseSelect(text, s) == CloseLast(text, State(last.tok, selected.value.0, selected.value.1)))
  {
  }

  lemma ClosesWith(text: seq<byte>, s: State, closed: State)
    requires Ready(text, s) && s.tok.kind == RBracket && Next(text, s, true) == Ok(closed) && closed.tok.kind == Newline
    ensures CloseLast(text, s) == Ok(closed)
  {
  }

  // ---------------------------------------------------------------- all lines

  lemma NewlineFirst(text: seq<byte>, valtype: Raw -> ValueType, s: State, s1: State)
    requires Ready(text, s) && s.tok.kind == Newline && !s.tok.eof && Next(text, s, true) == Ok(s1)
    ensures Ready(text, s1) && ParseLines(text, valtype, s) == ParseLines(text, valtype, s1)
  {
  }

  lemma BracketFirst(text: seq<byte>, valtype: Raw -> ValueType, s: State)
    requires Ready(text, s) && s.tok.kind == LBracket && !s.tok.eof
    ensures var selected := ParseSelect(text, s);
            ParseLines(text, valtype, s) == if selected.Ok? then ParseLines(text, valtype, selected.value) else selected
  {
  }

  /** A line without a header is a newline for the parser. */
  lemma EmptyLineFirst(text: seq<byte>, valtype: Raw -> ValueType, s: State, p: nat, gap: Gap) returns (s1: State)
    requires Ready(text, s) && s.tok.kind == Newline && !s.tok.eof && p == s.tok.End()
    requires LegalGap(gap) && Here(text, p, GapText(gap) + [NEWLINE])
    ensures Ready(text, s1) && s1.tok.kind == Newline && !s1.tok.eof && s1 == s.(tok := s1.tok)
    ensures s1.tok.End() == p + |GapText(gap)| + 1 && ParseLines(text, valtype, s) == ParseLines(text, valtype, s1)
  {
    s1 := NewlineFollows(text, s, p, gap, p + |GapText(gap)| + 1);
    NewlineFirst(text, valtype, s, s1);
  }

  /** The bracket of a header, and the gap behind it. */
  lemma HeaderSplits(text: seq<byte>, p: nat, line: Line) returns (open: nat, q: nat)
    requires LegalLine(line) && line.Header? && Here(text, p, LineText(line))
    ensures open < |text| && text[open] == OPEN && GapEnd(text, p) == open
    ensures Here(text, open + 1, Inside(line.parts)) && q == open + 1 + |Inside(line.parts)|
    ensures Here(text, q, GapText(line.gap) + [NEWLINE]) && q + |GapText(line.gap)| + 1 == p + |LineText(line)|
  {
    open := p + |line.lead|;
    q := open + 1 + |Inside(line.parts)|;
    HereThrice(text, p, line.lead + [OPEN], open + 1, Inside(line.parts), q, GapText(line.gap) + [NEWLINE]);
    HereSplits(text, p, line.lead, open, [OPEN]);
    HereFirst(text, open, [OPEN]);
    HereBlank(text, p, open, line.lead);
    BlanksSkip(text, p, open);
  }

  /** The bracket that opens a line with a header. */
  lemma HeaderFirst(text: seq<byte>, valtype: Raw -> ValueType, s: State, p: nat, line: Line, end: nat)
    returns (s1: State)
    requires Ready(text, s) && s.tok.kind == Newline && !s.tok.eof && p == s.tok.End()
    requires LegalLine(line) && line.Header? && Here(text, p, LineText(line)) && end == p + |LineText(line)|
    ensures Ready(text, s1) && s1.tok.kind == LBracket && !s1.tok.eof && s1 == s.(tok := s1.tok)
    ensures ParseLines(text, valtype, s) == ParseLines(text, valtype, s1)
    ensures SelectsAlike(text, s1, Readable(line), PathOf(line.parts), end)
  {
    var open, q := HeaderSplits(text, p, line);
    s1 := MarkFollows(text, s, open, LBracket);
    NewlineFirst(text, valtype, s, s1);
    HeaderSelects(text, s1, open + 1, line.parts, q, line.gap, end);
  }

  lemma LegalTail(lines: seq<Line>)
    requires LegalLines(lines) && lines != []
    ensures LegalLine(lines[0]) && LegalLines(lines[1..])
    ensures AllReadable(lines) <==> Readable(lines[0]) && AllReadable(lines[1..])
  {
    assert forall i :: 0 <= i < |lines[1..]| ==> lines[1..][i] == lines[i + 1];
    assert forall i :: 0 < i < |lines| ==> lines[i] == lines[1..][i - 1];
  }

  lemma SelectFirst(h: Heap, path: Path, paths: seq<Path>)
    requires Sound(h) && path != [] && forall i :: 0 <= i < |paths| ==> paths[i] != []
    ensures var selected, all := SelectTable(h, Segments(path)), SelectAll(h, AllSegments([path] + paths));
            && (selected.Ok? ==> all == SelectAll(selected.value.0, AllSegments(paths)))
            && (selected.Err? ==> all.Err?)
  {
    var all := AllSegments([path] + paths);
    assert all[0] == Segments(path) && all[1..] == AllSegments(paths);
  }

  /** What parsing the lines comes to: every header must be readable and select its table. */
  ghost predicate ParsesLines(text: seq<byte>, valtype: Raw -> ValueType, s: State, lines: seq<Line>)
    requires Ready(text, s) && LegalLines(lines)
  {
    var r, all := ParseLines(text, valtype, s), SelectAll(s.heap, AllSegments(PathsOf(lines)));
    && (r.Ok? <==> AllReadable(lines) && all.Ok?)
    && (r.Ok? ==> r.value.heap == all.value)
  }

  /** Behind a newline, the lines are parsed into the tree that their paths select one by one. */
  lemma {:induction false} LinesSelect(
    text: seq<byte>, valtype: Raw -> ValueType, s: State, p: nat, lines: seq<Line>)
    requires Ready(text, s) && s.tok.kind == Newline && !s.tok.eof && LegalLines(lines)
    requires p == s.tok.End() && Here(text, p, Render(lines)) && p + |Render(lines)| == |text|
    ensures ParsesLines(text, valtype, s, lines)
    decreases |lines|
  {
    if lines == [] {
      EndFollows(text, s);
    } else {
      LegalTail(lines);
      var end := p + |LineText(lines[0])|;
      HereSplits(text, p, LineText(lines[0]), end, Render(lines[1..]));
      if lines[0].Empty? {
        var s1 := EmptyLineFirst(text, valtype, s, p, lines[0].gap);
        LinesSelect(text, valtype, s1, end, lines[1..]);
      } else {
        var s1 := HeaderFirst(text, valtype, s, p, lines[0], end);
        if ParseSelect(text, s1).Ok? {
          LinesSelect(text, valtype, ParseSelect(text, s1).value, end, lines[1..]);
        }
        HeaderLine(text, valtype, s1, lines, end);
      }
    }
  }

  /** The header line at the parser's bracket, and the lines behind it. */
  lemma HeaderLine(text: seq<byte>, valtype: Raw -> ValueType, s: State, lines: seq<Line>, end: nat)
    requires Ready(text, s) && s.tok.kind == LBracket && !s.tok.eof && LegalLines(lines) && lines != []
    requires lines[0].Header? && LegalLines(lines[1..])
    requires AllReadable(lines) <==> Readable(lines[0]) && AllReadable(lines[1..])
    requires SelectsAlike(text, s, Readable(lines[0]), PathOf(lines[0].parts), end)
    requires ParseSelect(text, s).Ok? ==> ParsesLines(text, valtype, ParseSelect(text, s).value, lines[1..])
    ensures ParsesLines(text, valtype, s, lines)
  {
    var paths, path, rest := PathsOf(lines), PathOf(lines[0].parts), PathsOf(lines[1..]);
    assert paths == [path] + rest;
    BracketFirst(text, valtype, s);
    SelectFirst(s.heap, path, rest);
  }

  /** `r` is what parsing the headers of `paths` should end with. */
  ghost predicate MakesClosure(r: Result<Heap, Failure>, readable: bool, paths: seq<Path>) {
    && (r.Ok? <==> readable && AllDistinct(AllSegments(paths)))
    && (r.Ok? ==> Shape(r.value, {[]} + Closure(AllSegments(paths)), {[]} + Listed(AllSegments(paths))))
  }

  lemma ParseSelectsFrom(
    text: seq<byte>, valtype: Raw -> ValueType, s: State, lines: seq<Line>, r: Result<Heap, Failure>)
    requires LegalLines(lines) && text == Render(lines)
    requires Ready(text, s) && s.tok.kind == Newline && !s.tok.eof && s.tok.End() == 0
    requires s.heap.tables == [Table([], false, [], [], [])] && s.heap.arrays == []
    requires r == TreeOf(ParseLines(text, valtype, s))
    ensures MakesClosure(r, AllReadable(lines), PathsOf(lines))
  {
    assert text[0..|text|] == text;
    LinesSelect(text, valtype, s, 0, lines);
    HeadersMakeClosure(s.heap, AllSegments(PathsOf(lines)));
  }

  /** The tree has exactly the prefixes of the paths, and implicit tables exactly where no path ends. */
  ghost predicate IsClosureOf(h: Heap, paths: seq<Path>) {
    && Sound(h) && OnlyTables(h)
    && (forall p :: At(h, p).Some? <==> p == [] || exists i :: 0 <= i < |paths| && p <= paths[i])
    && (forall p :: At(h, p).Some? && p != [] ==> (h.tables[At(h, p).value].implicit <==> p !in paths))
  }

  predicate DistinctPaths(paths: seq<Path>) {
    forall i, j :: 0 <= i < j < |paths| ==> paths[i] != paths[j]
  }

  /**
   * From text to tree: lines of headers parse exactly if each header has at most ten keys, all taken whole, and no
   * path comes twice. Then every prefix of a path is a table and nothing else is, and a table is implicit exactly if
   * no header of its own asks for it.
   */
  lemma HeaderTextParses(valtype: Raw -> ValueType, lines: seq<Line>)
    requires LegalLines(lines)
    ensures var r := Parse(Render(lines), valtype);
            && (r.Ok? <==> AllReadable(lines) && DistinctPaths(PathsOf(lines)))
            && (r.Ok? ==> IsClosureOf(r.value, PathsOf(lines)))
  {
    var r := RenderedParses(Render(lines), valtype, lines);
    SegmentsDistinct(PathsOf(lines));
    if r.Ok? {
      ShapeIsClosure(r.value, PathsOf(lines));
    }
  }

  lemma RenderedParses(text: seq<byte>, valtype: Raw -> ValueType, lines: seq<Line>)
    returns (r: Result<Heap, Failure>)
    requires LegalLines(lines) && text == Render(lines)
    ensures r == Parse(text, valtype) && MakesClosure(r, AllReadable(lines), PathsOf(lines))
  {
    var s := ParseBegins(text, valtype);
    r := TreeOf(ParseLines(text, valtype, s));
    ParseSelectsFrom(text, valtype, s, lines, r);
  }

  /** The same tables at the same paths, implicit in both trees or in neither. */
  ghost predicate SameTables(a: Heap, b: Heap) {
    && Sound(a) && Sound(b) && OnlyTables(a) && OnlyTables(b)
    && (forall p :: At(a, p).Some? <==> At(b, p).Some?)
    && (forall p :: At(a, p).Some? && p != [] ==>
          (a.tables[At(a, p).value].implicit <==> b.tables[At(b, p).value].implicit))
  }

  /** Two texts with headers for the same paths, in any order and however they are written, give the same tables. */
  lemma TextsInAnyOrder(valtype: Raw -> ValueType, a: seq<Line>, b: seq<Line>)
    requires LegalLines(a) && LegalLines(b) && AllReadable(a) && AllReadable(b)
    requires DistinctPaths(PathsOf(a)) && DistinctPaths(PathsOf(b))
    requires forall p :: p in PathsOf(a) <==> p in PathsOf(b)
    ensures var ra, rb := Parse(Render(a), valtype), Parse(Render(b), valtype);
            ra.Ok? && rb.Ok? && SameTables(ra.value, rb.value)
  {
    HeaderTextParses(valtype, a);
    HeaderTextParses(valtype, b);
    ClosuresAlike(Parse(Render(a), valtype).value, PathsOf(a), Parse(Render(b), valtype).value, PathsOf(b));
  }

  lemma ClosuresAlike(ha: Heap, a: seq<Path>, hb: Heap, b: seq<Path>)
    requires IsClosureOf(ha, a) && IsClosureOf(hb, b) && forall p :: p in a <==> p in b
    ensures SameTables(ha, hb)
  {
    forall p ensures At(ha, p).Some? <==> At(hb, p).Some? {
      PrefixesAlike(a, b, p);
      PrefixesAlike(b, a, p);
    }
  }

  lemma PrefixesAlike(a: seq<Path>, b: seq<Path>, p: Path)
    requires forall q :: q in a ==> q in b
    ensures (exists i :: 0 <= i < |a| && p <= a[i]) ==> exists i :: 0 <= i < |b| && p <= b[i]
  {
    if i :| 0 <= i < |a| && p <= a[i] {
      assert a[i] in b;
      var j :| 0 <= j < |b| && b[j] == a[i];
    }
  }

  lemma SegmentsDistinct(paths: seq<Path>)
    ensures AllDistinct(AllSegments(paths)) <==> forall i, j :: 0 <= i < j < |paths| ==> paths[i] != paths[j]
  {
  }

  lemma ShapeIsClosure(h: Heap, paths: seq<Path>)
    requires Shape(h, {[]} + Closure(AllSegments(paths)), {[]} + Listed(AllSegments(paths)))
    ensures IsClosureOf(h, paths)
  {
    forall p ensures At(h, p).Some? <==> p == [] || exists i :: 0 <= i < |paths| && p <= paths[i] {
      ClosureIsPrefixes(paths, p);
    }
    forall p | At(h, p).Some? && p != [] ensures h.tables[At(h, p).value].implicit <==> p !in paths {
      ListedIsListed(paths, p);
    }
  }

  lemma ClosureIsPrefixes(paths: seq<Path>, p: Path)
    ensures p in Closure(AllSegments(paths)) <==> exists i :: 0 <= i < |paths| && p <= paths[i]
  {
    var segments := AllSegments(paths);
    if p in Closure(segments) {
      var i, j :| 0 <= i < |segments| && 0 <= j <= |segments[i]| && p == KeysOf(segments[i])[..j];
      assert p <= paths[i];
    }
    if exists i :: 0 <= i < |paths| && p <= paths[i] {
      var i :| 0 <= i < |paths| && p <= paths[i];
      assert p == KeysOf(segments[i])[..|p|];
    }
  }

  lemma ListedIsListed(paths: seq<Path>, p: Path)
    ensures p in Listed(AllSegments(paths)) <==> p in paths
  {
    var segments := AllSegments(paths);
    if p in paths {
      var i :| 0 <= i < |paths| && paths[i] == p;
      assert p == KeysOf(segments[i]);
    }
  }

  // ---------------------------------------------------------------- a key that looks like a date

  /** 2020-01-01 */
  const DAY: seq<byte> := [0x32, 0x30, 0x32, 0x30, 0x2d, 0x30, 0x31, 0x2d, 0x30, 0x31]

  lemma TwoParts(parts: seq<Part>, a: Part, b: Part)
    requires parts == [a, b] && LegalPart(a) && LegalPart(b)
    ensures LegalParts(parts) && PathOf(parts) == [KeyOf(a.name), KeyOf(b.name)]
    ensures Inside(parts) == PartText(a) + [PERIOD] + (PartText(b) + [CLOSE])
    ensures AllWhole(parts) <==> Whole(a.name, a.after, PERIOD) && Whole(b.name, b.after, CLOSE)
  {
    var rest := parts[1..];
    assert rest == [b] && rest[1..] == [];
    assert Inside(rest) == PartText(b) + [CLOSE];
    assert AllWhole(rest) <==> Whole(b.name, b.after, CLOSE);
  }

  lemma OneLine(lines: seq<Line>, line: Line)
    requires lines == [line] && LegalLine(line) && line.Header?
    ensures LegalLines(lines) && Render(lines) == LineText(line)
    ensures PathsOf(lines) == [PathOf(line.parts)] && DistinctPaths(PathsOf(lines))
    ensures AllReadable(lines) <==> Readable(line)
  {
    assert lines[1..] == [] && Render(lines) == LineText(line) + [];
    assert PathsOf(lines) == [PathOf(line.parts)] + [];
  }

  /** A line with the key `n`, a dot, and a bare key that does not look like a date. */
  lemma DottedLine(n: Spelling, rest: seq<byte>, none: seq<byte>) returns (lines: seq<Line>)
    requires Legal(n) && rest != [] && AllBare(rest) && !DateAt(rest, 0) && none == []
    ensures LegalLines(lines) && Render(lines) == [OPEN] + (Spelled(n) + [PERIOD] + (rest + [CLOSE])) + [NEWLINE]
    ensures PathsOf(lines) == [[KeyOf(n), rest]] && DistinctPaths(PathsOf(lines))
    ensures AllReadable(lines) <==> Whole(n, none, PERIOD)
  {
    var a, b := Part(none, n, none), Part(none, Bare(rest), none);
    var parts := [a, b];
    var line := Header(none, parts, Gap(none, none));
    TwoParts(parts, a, b);
    lines := [line];
    OneLine(lines, line);
    NothingAround(Spelled(n), none);
    NothingAround(rest, none);
    assert LineText(line) == none + [OPEN] + Inside(parts) + (GapText(line.gap) + [NEWLINE]);
    assert GapText(line.gap) == none;
    LineBytes(none, Inside(parts));
  }

  lemma NothingAround(s: seq<byte>, none: seq<byte>)
    requires none == []
    ensures none + s + none == s
  {
  }

  lemma LineBytes(none: seq<byte>, inside: seq<byte>)
    requires none == []
    ensures none + [OPEN] + inside + (none + [NEWLINE]) == [OPEN] + inside + [NEWLINE]
  {
  }

  /** Two spellings of one header: with the day bare, the lexer does not take it whole. */
  lemma DottedDays() returns (bare: seq<Line>, quoted: seq<Line>)
    ensures LegalLines(bare) && Render(bare) == [OPEN] + DAY + [PERIOD, 0x61, CLOSE, NEWLINE]
    ensures LegalLines(quoted) && PathsOf(quoted) == PathsOf(bare) && DistinctPaths(PathsOf(quoted))
    ensures !AllReadable(bare) && AllReadable(quoted)
  {
    var day: seq<byte>, rest: seq<byte>, none: seq<byte> :| day == DAY && rest == [0x61] && none == [];
    DayIsDate(day);
    bare := DottedLine(Bare(day), rest, none);
    quoted := DottedLine(Literal(day), rest, none);
    BytesJoin(day, rest);
  }

  lemma BytesJoin(day: seq<byte>, rest: seq<byte>)
    requires rest == [0x61]
    ensures [OPEN] + (day + [PERIOD] + (rest + [CLOSE])) + [NEWLINE] == [OPEN] + day + [PERIOD, 0x61, CLOSE, NEWLINE]
  {
  }

  /**
   * The header [2020-01-01.a] has two bare keys, and is refused: the lexer takes the dot for a part of a date. With
   * the first key in quotes, for the same path, the header is read.
   */
  lemma DottedDateRefused(valtype: Raw -> ValueType) returns (bare: seq<Line>, quoted: seq<Line>)
    ensures LegalLines(bare) && Render(bare) == [OPEN] + DAY + [PERIOD, 0x61, CLOSE, NEWLINE]
    ensures LegalLines(quoted) && PathsOf(quoted) == PathsOf(bare)
    ensures Parse(Render(bare), valtype).Err? && Parse(Render(quoted), valtype).Ok?
  {
    bare, quoted := DottedDays();
    DayParses(valtype, bare, quoted);
  }

  lemma DayIsDate(day: seq<byte>)
    requires day == DAY
    ensures AllBare(day) && StartsAsDate(Bare(day)) && Legal(Literal(day))
  {
  }

  lemma DayParses(valtype: Raw -> ValueType, bare: seq<Line>, quoted: seq<Line>)
    requires LegalLines(bare) && LegalLines(quoted) && !AllReadable(bare) && AllReadable(quoted)
    requires DistinctPaths(PathsOf(quoted))
    ensures Parse(Render(bare), valtype).Err? && Parse(Render(quoted), valtype).Ok?
  {
    HeaderTextParses(valtype, bare);
    HeaderTextParses(valtype, quoted);
  }
}
