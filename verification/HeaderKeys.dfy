/** How a key may be written in a header - bare, or in either kind of quotes - and when the lexer takes it whole. */
module HeaderKeys {
  import opened Common
  import opened BasicString
  import opened StringAgreement
  import opened Lexer
  import opened TomlKeys

  const CLOSE: byte := 0x5d

  datatype Spelling = Bare(text: seq<byte>) | Basic(content: seq<byte>) | Literal(content: seq<byte>)

  function Spelled(n: Spelling): seq<byte> {
    match n
    case Bare(text) => text
    case Basic(content) => [QUOTE] + content + [QUOTE]
    case Literal(content) => [APOSTROPHE] + content + [APOSTROPHE]
  }

  /** What section "Keys" of TOML v0.5.0 allows, as far as the code checks it. */
  predicate Legal(n: Spelling) {
    match n
    case Bare(text) => text != [] && AllBare(text)
    case Basic(content) =>
      NoBareQuote(content) && Unescape(content, false).Some? && NEWLINE !in CString(Unescape(content, false).value)
    case Literal(content) => forall b :: b in content ==> b !in {APOSTROPHE, NEWLINE, 0}
  }

  /** The key that is meant. */
  function KeyOf(n: Spelling): Key
    requires Legal(n)
  {
    match n
    case Bare(text) => text
    case Basic(content) => CString(Unescape(content, false).value)
    case Literal(content) => content
  }

  /** Some blanks from `q` to `r`. */
  predicate BlankFrom(text: seq<byte>, q: nat, r: nat) {
    q <= r <= |text| && forall i :: q <= i < r ==> IsBlank(text[i])
  }

  /** Behind a key there are blanks and then a dot or the closing bracket. */
  predicate Delimited(text: seq<byte>, q: nat, r: nat) {
    BlankFrom(text, q, r) && r < |text| && text[r] in {PERIOD, CLOSE}
  }

  /** A bare key that starts like a date, such as 2020-01-01. */
  predicate StartsAsDate(n: Spelling) {
    n.Bare? && DateAt(n.text, 0)
  }

  /**
   * Whether the lexer takes the key whole. The one that starts like a date must consist of the characters of dates,
   * and no dot may come behind it or behind the spaces that follow it.
   */
  predicate Whole(n: Spelling, blanks: seq<byte>, mark: byte) {
    StartsAsDate(n) ==>
      (forall b :: b in n.text ==> InStamp(b)) && !(mark == PERIOD && forall b :: b in blanks ==> b == SPACE)
  }

  // ---------------------------------------------------------------- quoted keys

  lemma {:induction false} LiteralScans(text: seq<byte>, p: nat, q: nat)
    requires p <= q < |text| && text[q] == APOSTROPHE
    requires forall i :: p <= i < q ==> text[i] !in {APOSTROPHE, NEWLINE}
    ensures ScanLiteralString(text, p) == Ok(q)
    decreases q - p
  {
    if p < q {
      LiteralScans(text, p + 1, q);
    }
  }

  /** The quotes and the content of a quoted key in a text. */
  lemma QuotedPieces(text: seq<byte>, p: nat, q: nat, b: byte, content: seq<byte>)
    requires p <= q <= |text| && text[p..q] == [b] + content + [b]
    ensures q == p + 2 + |content| && text[p] == b && text[q - 1] == b && text[p + 1..q - 1] == content
    ensures content != [] ==> text[p + 1] == content[0]
  {
    var raw := text[p..q];
    assert raw[0] == text[p] && raw[|raw| - 1] == text[q - 1];
    Subslice(text, p, q, 1, |raw| - 1);
    if content != [] {
      assert raw[1] == text[p + 1];
    }
  }

  lemma BasicKeyScans(text: seq<byte>, p: nat, q: nat, content: seq<byte>)
    requires p <= q < |text| && text[p..q] == [QUOTE] + content + [QUOTE] && text[q] != QUOTE
    requires NoBareQuote(content) && Unescape(content, false).Some?
    ensures text[p] == QUOTE && !Thrice(text, p, QUOTE) && ScanString(text, p, true) == Ok(q)
  {
    QuotedPieces(text, p, q, QUOTE, content);
    UnescaperAgrees(text, p + 1, q - 1);
    BasicScans(text, p, q - 1, true);
  }

  lemma LiteralKeyScans(text: seq<byte>, p: nat, q: nat, content: seq<byte>)
    requires p <= q < |text| && text[p..q] == [APOSTROPHE] + content + [APOSTROPHE] && text[q] != APOSTROPHE
    requires forall b :: b in content ==> b !in {APOSTROPHE, NEWLINE}
    ensures text[p] == APOSTROPHE && !Thrice(text, p, APOSTROPHE) && ScanString(text, p, true) == Ok(q)
  {
    QuotedPieces(text, p, q, APOSTROPHE, content);
    forall i | p + 1 <= i < q - 1 ensures text[i] !in {APOSTROPHE, NEWLINE} {
      assert content[i - (p + 1)] == text[p + 1..q - 1][i - (p + 1)] == text[i] && text[i] in content;
    }
    assert content != [] ==> content[0] != APOSTROPHE;
    LiteralScans(text, p + 1, q - 1);
  }

  lemma {:induction false} NoNul(s: seq<byte>)
    requires 0 !in s
    ensures CString(s) == s
  {
    if s == [] {
    } else {
      NoNul(s[1..]);
      assert s == [s[0]] + s[1..];
    }
  }

  /** The token of a quoted key is read as the key. */
  lemma QuotedKeyReads(text: seq<byte>, tok: Token, n: Spelling)
    requires IsString(text, tok) && tok.End() <= |text| && !n.Bare? && Legal(n)
    requires text[tok.ptr..tok.End()] == Spelled(n) && !Thrice(text, tok.ptr, text[tok.ptr])
    ensures NormalizeKey(text, tok) == Ok(KeyOf(n))
  {
    match n
    case Basic(content) =>
      QuotedPieces(text, tok.ptr, tok.End(), QUOTE, content);
      SingleQuoted(text, tok, QUOTE, content);
    case Literal(content) =>
      QuotedPieces(text, tok.ptr, tok.End(), APOSTROPHE, content);
      SingleQuoted(text, tok, APOSTROPHE, content);
      NoNul(content);
  }

  lemma SingleQuoted(text: seq<byte>, tok: Token, b: byte, content: seq<byte>)
    requires IsString(text, tok) && tok.ptr + 2 <= tok.End() <= |text| && b in {QUOTE, APOSTROPHE}
    requires text[tok.ptr] == b && !Thrice(text, tok.ptr, b) && text[tok.ptr + 1..tok.End() - 1] == content
    ensures NormalizeKey(text, tok) == QuotedKey(content, b, false, tok.lineno)
  {
  }

  // ---------------------------------------------------------------- bare keys

  lemma {:induction false} LiteralRuns(text: seq<byte>, p: nat, q: nat)
    requires p <= q < |text| && !InLiteral(text[q], true)
    requires forall i :: p <= i < q ==> InLiteral(text[i], true)
    ensures LiteralEnd(text, p, true) == q
    decreases q - p
  {
    if p < q {
      LiteralRuns(text, p + 1, q);
    }
  }

  lemma {:induction false} StampRuns(text: seq<byte>, p: nat, q: nat)
    requires p <= q <= |text| && forall i :: p <= i < q ==> InStamp(text[i])
    ensures StampEnd(text, p) == StampEnd(text, q) >= q
    decreases q - p
  {
    if p < q {
      StampRuns(text, p + 1, q);
    }
  }

  /** A stamp that cannot run on to a dot ends among the blanks behind it, after spaces only. */
  lemma {:induction false} StampStops(text: seq<byte>, q: nat, r: nat)
    requires Delimited(text, q, r)
    requires text[r] == CLOSE || exists i :: q <= i < r && text[i] != SPACE
    ensures var e := StampEnd(text, q);
            q <= e <= r && forall i :: q <= i < e ==> text[i] == SPACE
    decreases r - q
  {
    if q < r && text[q] == SPACE {
      StampStops(text, q + 1, r);
    }
  }

  lemma {:induction false} TrimsTo(text: seq<byte>, p: nat, q: nat, e: nat)
    requires p < q <= e <= |text| && text[q - 1] != SPACE && forall i :: q <= i < e ==> text[i] == SPACE
    ensures TrimSpaces(text, p, e) == q
    decreases e
  {
    if q < e {
      TrimsTo(text, p, q, e - 1);
    }
  }

  lemma {:induction false} TrimsBehind(text: seq<byte>, p: nat, d: nat, e: nat)
    requires p <= d < e <= |text| && text[d] != SPACE
    ensures TrimSpaces(text, p, e) > d
    decreases e
  {
    if d < e - 1 && text[e - 1] == SPACE {
      TrimsBehind(text, p, d, e - 1);
    }
  }

  predicate BareHere(text: seq<byte>, p: nat, q: nat, n: Spelling) {
    n.Bare? && Legal(n) && p < q <= |text| && text[p..q] == n.text
  }

  lemma BareAt(text: seq<byte>, p: nat, q: nat, n: Spelling, i: nat)
    requires BareHere(text, p, q, n) && p <= i < q
    ensures text[i] == n.text[i - p] && IsBare(text[i])
  {
    assert text[p..q][i - p] == text[i];
  }

  /** A delimited bare key starts like a date in the text exactly if it does by itself, and never like a time. */
  lemma DateIsInKey(text: seq<byte>, p: nat, q: nat, r: nat, n: Spelling)
    requires BareHere(text, p, q, n) && Delimited(text, q, r)
    ensures DateAt(text, p) <==> StartsAsDate(n)
    ensures !TimeAt(text, p)
  {
    forall i | p <= i < q ensures text[i] == n.text[i - p] && IsBare(text[i]) {
      BareAt(text, p, q, n, i);
    }
    assert !IsDigit(text[q]) && text[q] !in {0x2d, 0x3a};
    if q < p + 10 {
      assert !DateAt(text, p) && !StartsAsDate(n);
    } else {
      DatesAlike(text, p, q, n);
    }
  }

  lemma DatesAlike(text: seq<byte>, p: nat, q: nat, n: Spelling)
    requires BareHere(text, p, q, n) && p + 10 <= q
    ensures DateAt(text, p) <==> StartsAsDate(n)
  {
    assert forall i :: p <= i < q ==> text[i] == n.text[i - p];
    assert forall j :: 0 <= j < |n.text| ==> n.text[j] == text[p + j];
  }

  lemma BareKeyScans(text: seq<byte>, p: nat, q: nat, r: nat, n: Spelling)
    requires BareHere(text, p, q, n) && Delimited(text, q, r) && Whole(n, text[q..r], text[r])
    ensures ScanString(text, p, true) == Ok(q)
  {
    DateIsInKey(text, p, q, r, n);
    forall i | p <= i < q ensures IsBare(text[i]) && text[i] in n.text {
      BareAt(text, p, q, n, i);
    }
    assert IsBare(text[p]);
    if StartsAsDate(n) {
      StampRuns(text, p, q);
      BlanksStop(text, q, r);
      StampStops(text, q, r);
      assert IsBare(text[q - 1]);
      TrimsTo(text, p, q, StampEnd(text, q));
    } else {
      LiteralRuns(text, p, q);
    }
  }

  lemma BlanksStop(text: seq<byte>, q: nat, r: nat)
    requires Delimited(text, q, r) && !(text[r] == PERIOD && forall b :: b in text[q..r] ==> b == SPACE)
    ensures text[r] == CLOSE || exists i :: q <= i < r && text[i] != SPACE
  {
    if text[r] == PERIOD {
      var b :| b in text[q..r] && b != SPACE;
      var i :| 0 <= i < |text[q..r]| && text[q..r][i] == b;
      assert text[q + i] == b;
    }
  }

  lemma BareKeyReads(text: seq<byte>, tok: Token, n: Spelling)
    requires IsString(text, tok) && BareHere(text, tok.ptr, tok.End(), n)
    ensures NormalizeKey(text, tok) == Ok(KeyOf(n))
  {
    BareAt(text, tok.ptr, tok.End(), n, tok.ptr);
    NoNul(n.text);
  }

  /**
   * A bare key that is not taken whole: either the lexer refuses it, or its token runs over the dot behind it,
   * or the token ends inside of it.
   */
  lemma BareKeyBreaks(text: seq<byte>, p: nat, q: nat, r: nat, n: Spelling)
    requires BareHere(text, p, q, n) && Delimited(text, q, r) && !Whole(n, text[q..r], text[r])
    ensures var end := ScanString(text, p, true);
            end.Ok? ==> (text[r] == PERIOD && r < end.value) || (p < end.value < q)
  {
    DateIsInKey(text, p, q, r, n);
    forall i | p <= i < q ensures IsBare(text[i]) && text[i] == n.text[i - p] {
      BareAt(text, p, q, n, i);
    }
    assert IsBare(text[p]);
    var e := StampEnd(text, p);
    if forall b :: b in n.text ==> InStamp(b) {
      forall i | p <= i < r + 1 ensures InStamp(text[i]) {
        if i < q {
          assert text[i] in n.text;
        } else if i < r {
          assert text[q..r][i - q] == text[i] && text[i] in text[q..r];
        }
      }
      StampRuns(text, p, r + 1);
      TrimsBehind(text, p, r, e);
    } else {
      StampInside(text, p, q, n);
      TrimsBehind(text, p, p, e);
    }
  }

  /** A stamp that breaks off inside of the key. */
  lemma StampInside(text: seq<byte>, p: nat, q: nat, n: Spelling)
    requires BareHere(text, p, q, n) && StartsAsDate(n) && !forall b :: b in n.text ==> InStamp(b)
    ensures p < StampEnd(text, p) < q
  {
    var b :| b in n.text && !InStamp(b);
    var j :| 0 <= j < |n.text| && n.text[j] == b;
    BareAt(text, p, q, n, p + j);
    StampBefore(text, p, p + j);
    BareAt(text, p, q, n, p);
    assert IsDigit(n.text[0]) && StampEnd(text, p) == StampEnd(text, p + 1);
  }

  lemma {:induction false} StampBefore(text: seq<byte>, p: nat, i: nat)
    requires p <= i < |text| && !InStamp(text[i])
    ensures StampEnd(text, p) <= i
    decreases i - p
  {
    if p < i {
      StampBefore(text, p + 1, i);
    }
  }
}
