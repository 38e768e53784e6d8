/** The lexer of src/toml/toml.c. `text` is the C string being parsed, without its NUL. */
module Lexer {
  import opened Common
  import opened BasicString
  import opened StringAgreement

  datatype Kind = Dot | Comma | Equal | LBrace | RBrace | Newline | LBracket | RBracket | Str

  datatype Token = Token(kind: Kind, lineno: nat, ptr: nat, len: nat, eof: bool) {
    function End(): nat { ptr + len }

    /** A STRING token of no characters: the lexer makes one where it cannot make anything else. */
    predicate Stuck() { kind == Str && len == 0 }
  }

  datatype Problem =
    | BadString(error: ScanError)  // an escape, a hexadecimal digit, or the end of a quoted string
    | Overrun                      // a date or time at the very end: the C loop passes the NUL and reads on
    | SyntaxError
    | KeyExists
    | BadKey
    | TooDeep
    | InternalError

  datatype Failure = Failure(lineno: nat, problem: Problem)

  const HASH: byte := 0x23
  const PERIOD: byte := 0x2e

  predicate IsDigit(b: byte) { 0x30 <= b <= 0x39 }
  predicate IsLetter(b: byte) { 0x41 <= b <= 0x5a || 0x61 <= b <= 0x7a }

  // ---------------------------------------------------------------- strings and literals

  predicate Thrice(text: seq<byte>, p: nat, b: byte) {
    p + 3 <= |text| && text[p] == b && text[p + 1] == b && text[p + 2] == b
  }

  /** strstr: where three apostrophes come first, if anywhere. */
  function FindThrice(text: seq<byte>, p: nat): (r: Result<nat, ScanError>)
    requires p <= |text|
    ensures r.Ok? ==> p <= r.value && Thrice(text, r.value, APOSTROPHE)
    decreases |text| - p
  {
    if Thrice(text, p, APOSTROPHE) then Ok(p)
    else if p == |text| then Err(Unterminated)
    else FindThrice(text, p + 1)
  }

  /** The loop of scan_string inside a triple-quoted basic string; escapes leave the count of quotes as it is. */
  function ScanTriple(text: seq<byte>, p: nat, escape: bool, hexreq: nat, quotes: nat): (r: Result<nat, ScanError>)
    requires p <= |text| && quotes <= 3
    ensures r.Ok? ==> p <= r.value <= |text|
    decreases |text| - p
  {
    if quotes == 3 then Ok(p)
    else if p == |text| then Err(Unterminated)
    else if escape then
      if SimpleEscape(text[p]).Some? then ScanTriple(text, p + 1, false, hexreq, quotes)
      else if HexDigits(text[p]) > 0 then ScanTriple(text, p + 1, false, HexDigits(text[p]), quotes)
      else if LineEnds(text[p..]) then ScanTriple(text, p + 1, false, hexreq, quotes)
      else Err(BadEscape)
    else if hexreq > 0 then
      if IsHex(text[p]) then ScanTriple(text, p + 1, false, hexreq - 1, quotes) else Err(ExpectHex)
    else if text[p] == BACKSLASH then ScanTriple(text, p + 1, true, 0, quotes)
    else ScanTriple(text, p + 1, false, 0, if text[p] == QUOTE then quotes + 1 else 0)
  }

  /** The end of a single-line literal string. */
  function ScanLiteralString(text: seq<byte>, p: nat): (r: Result<nat, ScanError>)
    requires p <= |text|
    ensures r.Ok? ==> p <= r.value < |text|
    decreases |text| - p
  {
    if p == |text| || text[p] == NEWLINE then Err(Unterminated)
    else if text[p] == APOSTROPHE then Ok(p)
    else ScanLiteralString(text, p + 1)
  }

  predicate DigitsAt(text: seq<byte>, p: nat, n: nat) {
    p + n <= |text| && forall i :: p <= i < p + n ==> IsDigit(text[i])
  }

  predicate DateAt(text: seq<byte>, p: nat) {
    && DigitsAt(text, p, 4) && DigitsAt(text, p + 5, 2) && DigitsAt(text, p + 8, 2)
    && text[p + 4] == 0x2d && text[p + 7] == 0x2d
  }

  predicate TimeAt(text: seq<byte>, p: nat) {
    && DigitsAt(text, p, 2) && DigitsAt(text, p + 3, 2) && DigitsAt(text, p + 6, 2)
    && text[p + 2] == 0x3a && text[p + 5] == 0x3a
  }

  /** The characters of a date or time, in upper case: digits, '.', ':', '+', '-', 'T', ' ', 'Z'. */
  predicate InStamp(b: byte) {
    IsDigit(b) || b in {0x2e, 0x3a, 0x2b, 0x2d, SPACE, 0x54, 0x74, 0x5a, 0x7a}
  }

  function StampEnd(text: seq<byte>, p: nat): (q: nat)
    requires p <= |text|
    ensures p <= q <= |text|
    decreases |text| - p
  {
    if p < |text| && InStamp(text[p]) then StampEnd(text, p + 1) else p
  }

  /** Back over trailing spaces, but not before `p`. */
  function TrimSpaces(text: seq<byte>, p: nat, q: nat): (r: nat)
    requires p <= q <= |text|
    ensures p <= r <= q
    decreases q
  {
    if q > p && text[q - 1] == SPACE then TrimSpaces(text, p, q - 1) else q
  }

  predicate InLiteral(b: byte, dotIsSpecial: bool) {
    IsLetter(b) || IsDigit(b) || b in {0x2b, 0x2d, 0x5f} || (b == PERIOD && !dotIsSpecial)
  }

  function LiteralEnd(text: seq<byte>, p: nat, dotIsSpecial: bool): (q: nat)
    requires p <= |text|
    ensures p <= q <= |text|
    ensures q > p <==> p < |text| && InLiteral(text[p], dotIsSpecial)
    decreases |text| - p
  {
    if p < |text| && InLiteral(text[p], dotIsSpecial) then LiteralEnd(text, p + 1, dotIsSpecial) else p
  }

  function ToEnd(r: Result<nat, ScanError>, more: nat): Result<nat, Problem> {
    match r
    case Ok(q) => Ok(q + more)
    case Err(e) => Err(BadString(e))
  }

  /** scan_string: the end of the STRING token at `p`. */
  function ScanString(text: seq<byte>, p: nat, dotIsSpecial: bool): (r: Result<nat, Problem>)
    requires p < |text|
    ensures r.Ok? ==> p <= r.value <= |text|
  {
    if Thrice(text, p, APOSTROPHE) then ToEnd(FindThrice(text, p + 3), 3)
    else if Thrice(text, p, QUOTE) then ToEnd(ScanTriple(text, p + 3, false, 0, 0), 0)
    else if text[p] == APOSTROPHE then ToEnd(ScanLiteralString(text, p + 1), 1)
    else if text[p] == QUOTE then ToEnd(ScanBasic(text, p + 1, false, 0), 1)
    else if DateAt(text, p) || TimeAt(text, p) then
      var q := StampEnd(text, p);
      if q == |text| then Err(Overrun) else Ok(TrimSpaces(text, p, q))
    else Ok(LiteralEnd(text, p, dotIsSpecial))
  }

  method ScanTripleString(text: seq<byte>, start: nat) returns (r: Result<nat, ScanError>)
    requires start <= |text|
    ensures r == ScanTriple(text, start, false, 0, 0)
  {
    var p, escape, hexreq, quotes := start, false, 0, 0;
    while p < |text| && quotes < 3
      invariant p <= |text| && quotes <= 3
      invariant ScanTriple(text, start, false, 0, 0) == ScanTriple(text, p, escape, hexreq, quotes)
      decreases |text| - p
    {
      var b := text[p];
      if escape {
        escape := false;
        if SimpleEscape(b).Some? {
        } else if HexDigits(b) > 0 {
          hexreq := HexDigits(b);
        } else if !LineEnds(text[p..]) {
          return Err(BadEscape);
        }
      } else if hexreq > 0 {
        hexreq := hexreq - 1;
        if !IsHex(b) {
          return Err(ExpectHex);
        }
      } else if b == BACKSLASH {
        escape := true;
      } else {
        quotes := if b == QUOTE then quotes + 1 else 0;
      }
      p := p + 1;
    }
    r := if quotes != 3 then Err(Unterminated) else Ok(p);
  }

  method ScanBasicString(text: seq<byte>, start: nat) returns (r: Result<nat, ScanError>)
    requires start <= |text|
    ensures r == ScanBasic(text, start, false, 0)
  {
    var p, escape, hexreq := start, false, 0;
    while p < |text|
      invariant p <= |text|
      invariant ScanBasic(text, start, false, 0) == ScanBasic(text, p, escape, hexreq)
      decreases |text| - p
    {
      var b := text[p];
      if escape {
        escape := false;
        if SimpleEscape(b).Some? {
        } else if HexDigits(b) > 0 {
          hexreq := HexDigits(b);
        } else {
          return Err(BadEscape);
        }
      } else if hexreq > 0 {
        hexreq := hexreq - 1;
        if !IsHex(b) {
          return Err(ExpectHex);
        }
      } else if b == BACKSLASH {
        escape := true;
      } else if b == NEWLINE {
        return Err(Unterminated);
      } else if b == QUOTE {
        return Ok(p);
      }
      p := p + 1;
    }
    return Err(Unterminated);
  }

  method ScanStringAt(text: seq<byte>, start: nat, dotIsSpecial: bool) returns (r: Result<nat, Problem>)
    requires start < |text|
    ensures r == ScanString(text, start, dotIsSpecial)
  {
    var p := start;
    if Thrice(text, p, APOSTROPHE) {
      p := p + 3;
      while p < |text| && !Thrice(text, p, APOSTROPHE)
        invariant start + 3 <= p <= |text| && FindThrice(text, start + 3) == FindThrice(text, p)
      {
        p := p + 1;
      }
      return if p == |text| then Err(BadString(Unterminated)) else Ok(p + 3);
    }
    if Thrice(text, p, QUOTE) {
      var end := ScanTripleString(text, p + 3);
      return ToEnd(end, 0);
    }
    if text[p] == APOSTROPHE {
      p := p + 1;
      while p < |text| && text[p] != NEWLINE && text[p] != APOSTROPHE
        invariant start + 1 <= p <= |text| && ScanLiteralString(text, start + 1) == ScanLiteralString(text, p)
      {
        p := p + 1;
      }
      return if p < |text| && text[p] == APOSTROPHE then Ok(p + 1) else Err(BadString(Unterminated));
    }
    if text[p] == QUOTE {
      var end := ScanBasicString(text, p + 1);
      return ToEnd(end, 1);
    }
    if DateAt(text, p) || TimeAt(text, p) {
      while p < |text| && InStamp(text[p])
        invariant start <= p <= |text| && StampEnd(text, start) == StampEnd(text, p)
      {
        p := p + 1;
      }
      if p == |text| {
        return Err(Overrun);
      }
      ghost var q := p;
      while p > start && text[p - 1] == SPACE
        invariant start <= p <= q && TrimSpaces(text, start, q) == TrimSpaces(text, start, p)
      {
        p := p - 1;
      }
      return Ok(p);
    }
    while p < |text| && InLiteral(text[p], dotIsSpecial)
      invariant start <= p <= |text| && LiteralEnd(text, start, dotIsSpecial) == LiteralEnd(text, p, dotIsSpecial)
    {
      p := p + 1;
    }
    return Ok(p);
  }

  // ---------------------------------------------------------------- tokens

  function Newlines(s: seq<byte>): nat {
    if s == [] then 0 else Newlines(s[..|s| - 1]) + if s[|s| - 1] == NEWLINE then 1 else 0
  }

  predicate IsBlank(b: byte) { b in {SPACE, TAB, RETURN} }

  function CommentEnd(text: seq<byte>, p: nat): (q: nat)
    requires p <= |text|
    ensures p <= q <= |text| && (q < |text| ==> text[q] == NEWLINE)
    ensures forall i :: p <= i < q ==> text[i] != NEWLINE
    decreases |text| - p
  {
    if p == |text| || text[p] == NEWLINE then p else CommentEnd(text, p + 1)
  }

  /** Where the next token starts, behind blanks and comments. */
  function GapEnd(text: seq<byte>, p: nat): (q: nat)
    requires p <= |text|
    ensures p <= q <= |text| && (q < |text| ==> text[q] != HASH && !IsBlank(text[q]))
    decreases |text| - p
  {
    if p < |text| && text[p] == HASH then GapEnd(text, CommentEnd(text, p + 1))
    else if p < |text| && IsBlank(text[p]) then GapEnd(text, p + 1)
    else p
  }

  function SpecialKind(b: byte, dotIsSpecial: bool): Option<Kind> {
    if dotIsSpecial && b == PERIOD then Some(Dot)
    else if b == 0x2c then Some(Comma)
    else if b == 0x3d then Some(Equal)
    else if b == 0x7b then Some(LBrace)
    else if b == 0x7d then Some(RBrace)
    else if b == 0x5b then Some(LBracket)
    else if b == 0x5d then Some(RBracket)
    else if b == NEWLINE then Some(Newline)
    else None
  }

  /** The token that starts at `p`. */
  function TokenAt(text: seq<byte>, p: nat, lineno: nat, dotIsSpecial: bool): Result<Token, Failure>
    requires p <= |text|
  {
    if p == |text| then Ok(Token(Newline, lineno, p, 0, true))
    else
      match SpecialKind(text[p], dotIsSpecial)
      case Some(kind) => Ok(Token(kind, lineno, p, 1, false))
      case None =>
        match ScanString(text, p, dotIsSpecial)
        case Ok(end) => Ok(Token(Str, lineno, p, end - p, false))
        case Err(problem) => Err(Failure(lineno, problem))
  }

  predicate Within(text: seq<byte>, tok: Token) {
    tok.End() <= |text|
  }

  /** next_token. */
  function NextToken(text: seq<byte>, tok: Token, dotIsSpecial: bool): Result<Token, Failure>
    requires Within(text, tok)
  {
    TokenAt(text, GapEnd(text, tok.End()), tok.lineno + Newlines(text[tok.ptr..tok.End()]), dotIsSpecial)
  }

  method ReadToken(text: seq<byte>, tok: Token, dotIsSpecial: bool) returns (r: Result<Token, Failure>)
    requires Within(text, tok)
    ensures r == NextToken(text, tok, dotIsSpecial)
  {
    var lineno, p := tok.lineno, tok.ptr;
    for i := 0 to tok.len
      invariant p == tok.ptr + i && lineno == tok.lineno + Newlines(text[tok.ptr..p])
    {
      assert text[tok.ptr..p + 1][..i] == text[tok.ptr..p];
      if text[p] == NEWLINE {
        lineno := lineno + 1;
      }
      p := p + 1;
    }
    p := SkipGap(text, p);
    if p == |text| {
      return Ok(Token(Newline, lineno, p, 0, true));
    }
    if SpecialKind(text[p], dotIsSpecial).Some? {
      return Ok(Token(SpecialKind(text[p], dotIsSpecial).value, lineno, p, 1, false));
    }
    var end := ScanStringAt(text, p, dotIsSpecial);
    match end {
      case Ok(q) => return Ok(Token(Str, lineno, p, q - p, false));
      case Err(problem) => return Err(Failure(lineno, problem));
    }
  }

  /** The blanks and comments that next_token passes over; a comment stops just before its newline. */
  method SkipGap(text: seq<byte>, start: nat) returns (p: nat)
    requires start <= |text|
    ensures p == GapEnd(text, start)
  {
    p := start;
    while p < |text| && (text[p] == HASH || IsBlank(text[p]))
      invariant start <= p <= |text| && GapEnd(text, start) == GapEnd(text, p)
      decreases |text| - p
    {
      if text[p] == HASH {
        p := p + 1;
        ghost var from := p;
        while p < |text| && text[p] != NEWLINE
          invariant from <= p <= |text| && CommentEnd(text, from) == CommentEnd(text, p)
        {
          p := p + 1;
        }
      } else {
        p := p + 1;
      }
    }
  }

  // ---------------------------------------------------------------- tokens partition the text

  lemma {:induction false} NewlinesJoin(a: seq<byte>, b: seq<byte>)
    ensures Newlines(a + b) == Newlines(a) + Newlines(b)
  {
    if b == [] {
      assert a + b == a;
    } else {
      NewlinesJoin(a, b[..|b| - 1]);
      assert (a + b)[..|a + b| - 1] == a + b[..|b| - 1];
    }
  }

  /** Each byte of a gap is a blank, or belongs to a comment that began in the gap. */
  ghost predicate IsGap(text: seq<byte>, p: nat, q: nat)
    requires p <= q <= |text|
  {
    forall i :: p <= i < q ==> IsBlank(text[i]) || InComment(text, p, i)
  }

  ghost predicate InComment(text: seq<byte>, p: nat, i: nat)
    requires p <= i < |text|
  {
    exists j :: p <= j <= i && text[j] == HASH && forall k :: j <= k <= i ==> text[k] != NEWLINE
  }

  lemma GapsJoin(text: seq<byte>, p: nat, m: nat, q: nat)
    requires p <= m <= q <= |text| && IsGap(text, p, m) && IsGap(text, m, q)
    ensures IsGap(text, p, q)
  {
    forall i | p <= i < q ensures IsBlank(text[i]) || InComment(text, p, i) {
      if m <= i && !IsBlank(text[i]) {
        var j :| m <= j <= i && text[j] == HASH && forall k :: j <= k <= i ==> text[k] != NEWLINE;
        assert InComment(text, p, i);
      }
    }
  }

  predicate BareGap(text: seq<byte>, p: nat, q: nat)
    requires p <= q <= |text|
  {
    Newlines(text[p..q]) == 0
  }

  lemma BareGapsJoin(text: seq<byte>, p: nat, m: nat, q: nat)
    requires p <= m <= q <= |text|
    requires IsGap(text, p, m) && IsGap(text, m, q) && BareGap(text, p, m) && BareGap(text, m, q)
    ensures IsGap(text, p, q) && BareGap(text, p, q)
  {
    GapsJoin(text, p, m, q);
    assert text[p..q] == text[p..m] + text[m..q];
    NewlinesJoin(text[p..m], text[m..q]);
  }

  /** One blank, or one comment. */
  function GapItemEnd(text: seq<byte>, p: nat): nat
    requires p < |text|
  {
    if text[p] == HASH then CommentEnd(text, p + 1) else p + 1
  }

  lemma GapItemIsGap(text: seq<byte>, p: nat)
    requires p < |text| && (text[p] == HASH || IsBlank(text[p]))
    ensures IsGap(text, p, GapItemEnd(text, p)) && BareGap(text, p, GapItemEnd(text, p))
  {
    var m := GapItemEnd(text, p);
    forall i | p <= i < m ensures IsBlank(text[i]) || InComment(text, p, i) {
      assert forall k :: p <= k <= i ==> text[k] != NEWLINE;
    }
    NoNewlines(text[p..m]);
  }

  lemma {:induction false} GapEndIsGap(text: seq<byte>, p: nat)
    requires p <= |text|
    ensures IsGap(text, p, GapEnd(text, p)) && BareGap(text, p, GapEnd(text, p))
    decreases |text| - p
  {
    if p < |text| && (text[p] == HASH || IsBlank(text[p])) {
      var m := GapItemEnd(text, p);
      GapItemIsGap(text, p);
      GapEndIsGap(text, m);
      BareGapsJoin(text, p, m, GapEnd(text, p));
    } else {
      assert text[p..p] == [];
    }
  }

  lemma {:induction false} NoNewlines(s: seq<byte>)
    requires forall i :: 0 <= i < |s| ==> s[i] != NEWLINE
    ensures Newlines(s) == 0
  {
    if s != [] {
      NoNewlines(s[..|s| - 1]);
    }
  }

  /** A token lies in the text, and its line is one more than the newlines before it. */
  predicate TokenOk(text: seq<byte>, tok: Token) {
    Within(text, tok) && tok.lineno == 1 + Newlines(text[..tok.ptr])
  }

  /** The next token comes after the last, with only blanks and comments between them, on the line it says. */
  predicate Follows(text: seq<byte>, tok: Token, next: Token) {
    && TokenOk(text, next)
    && tok.End() <= next.ptr
    && (next.eof <==> next.ptr == |text|)
    && (next.eof ==> next.kind == Newline && next.len == 0)
    && (!next.eof && next.kind != Str ==> next.len == 1)
  }

  lemma TokenFollows(text: seq<byte>, tok: Token, dotIsSpecial: bool)
    requires TokenOk(text, tok) && NextToken(text, tok, dotIsSpecial).Ok?
    ensures var next := NextToken(text, tok, dotIsSpecial).value;
            Follows(text, tok, next) && IsGap(text, tok.End(), next.ptr)
  {
    GapEndIsGap(text, tok.End());
    LinesAdd(text, tok.ptr, tok.End(), GapEnd(text, tok.End()));
  }

  lemma LinesAdd(text: seq<byte>, p: nat, q: nat, r: nat)
    requires p <= q <= r <= |text|
    ensures Newlines(text[..r]) == Newlines(text[..p]) + Newlines(text[p..q]) + Newlines(text[q..r])
  {
    assert text[..q] == text[..p] + text[p..q];
    NewlinesJoin(text[..p], text[p..q]);
    assert text[..r] == text[..q] + text[q..r];
    NewlinesJoin(text[..q], text[q..r]);
  }

  /** The tokens read with the given settings of the dot, up to the first that is none. */
  function Tokens(text: seq<byte>, tok: Token, dots: seq<bool>): seq<Token>
    requires TokenOk(text, tok)
    decreases |dots|
  {
    if dots == [] || NextToken(text, tok, dots[0]).Err? then []
    else
      var next := NextToken(text, tok, dots[0]).value;
      TokenFollows(text, tok, dots[0]);
      [next] + Tokens(text, next, dots[1..])
  }

  /** The artificial first token of toml_parse. */
  const FIRST_TOKEN := Token(Newline, 1, 0, 0, false)

  ghost predicate Adjacent(text: seq<byte>, ts: seq<Token>, i: nat)
    requires i + 1 < |ts|
  {
    Follows(text, ts[i], ts[i + 1]) && IsGap(text, ts[i].End(), ts[i + 1].ptr)
  }

  lemma {:induction false} TokensAdjacent(text: seq<byte>, tok: Token, dots: seq<bool>, i: nat)
    requires TokenOk(text, tok) && i < |Tokens(text, tok, dots)|
    ensures Adjacent(text, [tok] + Tokens(text, tok, dots), i)
    decreases |dots|
  {
    var next := NextToken(text, tok, dots[0]).value;
    TokenFollows(text, tok, dots[0]);
    var ts, rest := [tok] + Tokens(text, tok, dots), [next] + Tokens(text, next, dots[1..]);
    if i > 0 {
      TokensAdjacent(text, next, dots[1..], i - 1);
      assert ts[i] == rest[i - 1] && ts[i + 1] == rest[i];
    } else {
      assert ts[0] == tok && ts[1] == next;
    }
  }

  /**
   * However the dot is treated, the tokens read one after another are ordered and disjoint, only blanks and comments
   * lie between them, and each carries the number of its line - behind multi-line strings and at the end too.
   */
  lemma TokensPartition(text: seq<byte>, dots: seq<bool>)
    ensures TokenOk(text, FIRST_TOKEN)
    ensures var ts := [FIRST_TOKEN] + Tokens(text, FIRST_TOKEN, dots);
            forall i :: 0 <= i < |ts| - 1 ==> Adjacent(text, ts, i)
  {
    assert text[..0] == [];
    forall i | 0 <= i < |Tokens(text, FIRST_TOKEN, dots)|
      ensures Adjacent(text, [FIRST_TOKEN] + Tokens(text, FIRST_TOKEN, dots), i)
    {
      TokensAdjacent(text, FIRST_TOKEN, dots, i);
    }
  }

  // ---------------------------------------------------------------- progress

  /**
   * Every token moves on, except at the end of the text and for a STRING of no characters; and where such a STRING
   * was made, the lexer makes it again, whatever the setting of the dot.
   */
  lemma TokenProgress(text: seq<byte>, tok: Token, dotIsSpecial: bool)
    requires Within(text, tok) && NextToken(text, tok, dotIsSpecial).Ok?
    ensures var next := NextToken(text, tok, dotIsSpecial).value;
            && tok.End() <= next.ptr && Within(text, next)
            && (next.eof || next.Stuck() || tok.End() < next.End())
            && (next.Stuck() ==> forall dot :: NextToken(text, next, dot) == Ok(next))
  {
    var next := NextToken(text, tok, dotIsSpecial).value;
    if next.Stuck() {
      var p := next.ptr;
      assert text[p..p] == [] && GapEnd(text, p) == p;
      StuckAt(text, p, dotIsSpecial);
    }
  }

  lemma StuckAt(text: seq<byte>, p: nat, dotIsSpecial: bool)
    requires p < |text| && SpecialKind(text[p], dotIsSpecial).None?
    requires ScanString(text, p, dotIsSpecial) == Ok(p)
    ensures forall dot :: SpecialKind(text[p], dot).None? && ScanString(text, p, dot) == Ok(p)
  {
    if DateAt(text, p) || TimeAt(text, p) {
      assert IsDigit(text[p]);
      TrimKeeps(text, p, StampEnd(text, p));
    }
  }

  lemma {:induction false} TrimKeeps(text: seq<byte>, p: nat, q: nat)
    requires p < q <= |text| && text[p] != SPACE
    ensures TrimSpaces(text, p, q) > p
    decreases q
  {
    if q - 1 > p && text[q - 1] == SPACE {
      TrimKeeps(text, p, q - 1);
    }
  }
}
