/** Keys and string values of src/toml/toml.c: from the raw text of a token to the C string it stands for. */
module TomlKeys {
  import opened Common
  import opened Utf8
  import opened BasicString
  import opened StringAgreement
  import opened Lexer

  type Key = seq<byte>

  /** What C sees of a buffer: an escape may have put a NUL into it. */
  function CString(s: seq<byte>): seq<byte> {
    if s == [] || s[0] == 0 then [] else [s[0]] + CString(s[1..])
  }

  /** A STRING token of the lexer. */
  predicate IsString(text: seq<byte>, tok: Token) {
    && tok.kind == Str && tok.ptr < |text|
    && (ScanString(text, tok.ptr, true) == Ok(tok.End()) || ScanString(text, tok.ptr, false) == Ok(tok.End()))
  }

  predicate IsBare(b: byte) {
    IsLetter(b) || IsDigit(b) || b == 0x5f || b == 0x2d
  }

  predicate AllBare(s: seq<byte>) {
    forall i :: 0 <= i < |s| ==> IsBare(s[i])
  }

  /** A triple-quoted token has its quotes on both ends. */
  lemma QuotedLength(text: seq<byte>, tok: Token)
    requires IsString(text, tok)
    ensures text[tok.ptr] in {QUOTE, APOSTROPHE} ==>
            tok.End() <= |text| && tok.len >= if Thrice(text, tok.ptr, text[tok.ptr]) then 6 else 2
  {
    if Thrice(text, tok.ptr, QUOTE) {
      TripleLength(text, tok.ptr + 3, false, 0, 0);
    }
  }

  lemma {:induction false} TripleLength(text: seq<byte>, p: nat, escape: bool, hexreq: nat, quotes: nat)
    requires p <= |text| && quotes <= 3
    ensures var r := ScanTriple(text, p, escape, hexreq, quotes);
            r.Ok? ==> r.value >= p + (3 - quotes)
    decreases |text| - p
  {
    if quotes == 3 || p == |text| {
    } else if escape {
      TripleLength(text, p + 1, false, hexreq, quotes);
      TripleLength(text, p + 1, false, HexDigits(text[p]), quotes);
    } else if hexreq > 0 {
      TripleLength(text, p + 1, false, hexreq - 1, quotes);
    } else if text[p] == BACKSLASH {
      TripleLength(text, p + 1, true, 0, quotes);
    } else {
      TripleLength(text, p + 1, false, 0, if text[p] == QUOTE then quotes + 1 else 0);
    }
  }

  /** The key that the content between quotes `q` stands for; newlines are not allowed in keys. */
  function QuotedKey(content: seq<byte>, q: byte, multiline: bool, lineno: nat): Result<Key, Failure> {
    var value := if q == APOSTROPHE then Some(content) else Unescape(content, multiline);
    if value.None? then Err(Failure(lineno, BadString(BadEscape)))
    else if NEWLINE in CString(value.value) then Err(Failure(lineno, BadKey))
    else Ok(CString(value.value))
  }

  /** normalize_key. */
  function NormalizeKey(text: seq<byte>, tok: Token): Result<Key, Failure>
    requires IsString(text, tok)
  {
    var q := text[tok.ptr];
    if q == QUOTE || q == APOSTROPHE then
      QuotedLength(text, tok);
      var multiline := Thrice(text, tok.ptr, q);
      var n := if multiline then 3 else 1;
      QuotedKey(text[tok.ptr + n..tok.End() - n], q, multiline, tok.lineno)
    else if AllBare(text[tok.ptr..tok.End()]) then
      Ok(CString(text[tok.ptr..tok.End()]))
    else
      Err(Failure(tok.lineno, BadKey))
  }

  method ReadKey(text: seq<byte>, tok: Token) returns (r: Result<Key, Failure>)
    requires IsString(text, tok)
    ensures r == NormalizeKey(text, tok)
  {
    var sp, sq := tok.ptr, tok.End();
    var q := text[sp];
    if q == QUOTE || q == APOSTROPHE {
      QuotedLength(text, tok);
      var multiline := Thrice(text, sp, q);
      if multiline {
        sp, sq := sp + 3, sq - 3;
      } else {
        sp, sq := sp + 1, sq - 1;
      }
      var value := text[sp..sq];
      if q == QUOTE {
        var ok, dst, len := NormBasicStr(text[sp..sq], multiline);
        if !ok {
          return Err(Failure(tok.lineno, BadString(BadEscape)));
        }
        value := dst[..len];
      }
      if NEWLINE in CString(value) {
        return Err(Failure(tok.lineno, BadKey));
      }
      return Ok(CString(value));
    }
    var raw := text[sp..sq];
    for i := 0 to |raw|
      invariant AllBare(raw[..i])
    {
      if !IsBare(raw[i]) {
        return Err(Failure(tok.lineno, BadKey));
      }
      assert raw[..i + 1] == raw[..i] + [raw[i]];
    }
    assert raw[..|raw|] == raw;
    return Ok(CString(raw));
  }

  // ---------------------------------------------------------------- values

  /** norm_lit_str. */
  predicate LiteralOk(s: seq<byte>, multiline: bool) {
    forall i :: 0 <= i < |s| ==> !Forbidden(s[i]) || (multiline && s[i] in {RETURN, NEWLINE})
  }

  /** norm_lit_str copies into a buffer that grows like that of norm_basic_str. */
  method NormLitStr(s: seq<byte>, multiline: bool) returns (ok: bool, dst: array<byte>, len: nat)
    ensures ok <==> LiteralOk(s, multiline)
    ensures ok ==> len == |s| < dst.Length && dst[..len] == s && dst[len] == 0
  {
    dst := new byte[0];
    var max, off := 0, 0;
    while true
      invariant off <= |s| && dst.Length == max && fresh(dst) && (if max == 0 then off == 0 else off <= max - SLACK)
      invariant dst[..off] == s[..off] && LiteralOk(s[..off], multiline)
      decreases |s| - off
    {
      if off >= max - SLACK {
        max := max + GROWTH;
        dst := Grow(dst, max);
      }
      if off >= |s| {
        break;
      }
      var ch := s[off];
      if Forbidden(ch) && !(multiline && (ch == RETURN || ch == NEWLINE)) {
        return false, dst, 0;
      }
      ghost var done := dst[..off];
      dst[off] := ch;
      assert dst[..off + 1] == done + [ch] && s[..off + 1] == s[..off] + [ch];
      off := off + 1;
    }
    assert s[..off] == s;
    dst[off] := 0;
    ok, len := true, off;
  }

  /** toml_rtos: the string that a raw value stands for, if it is one. */
  function Rtos(src: seq<byte>): Option<seq<byte>> {
    if src == [] || src[0] !in {QUOTE, APOSTROPHE} then None
    else
      var q := src[0];
      var multiline := Thrice(src, 0, q);
      var n := if multiline then 3 else 1;
      var sq := |src| - n;
      if sq < n || src[sq] != q || (multiline && !Thrice(src, sq, q)) then None
      else
        var sp := if !multiline then n
                  else if src[n] == NEWLINE then n + 1
                  else if src[n] == RETURN && src[n + 1] == NEWLINE then n + 2
                  else n;
        if q == APOSTROPHE then (if LiteralOk(src[sp..sq], multiline) then Some(CString(src[sp..sq])) else None)
        else
          match Unescape(src[sp..sq], multiline)
          case None => None
          case Some(value) => Some(CString(value))
  }

  method ReadString(src: seq<byte>) returns (r: Option<seq<byte>>)
    ensures r == Rtos(src)
  {
    if src == [] || (src[0] != APOSTROPHE && src[0] != QUOTE) {
      return None;
    }
    var q := src[0];
    var multiline := Thrice(src, 0, q);
    var sp, sq := 1, |src| - 1;
    if multiline {
      sp, sq := 3, |src| - 3;
      if !(sp <= sq && Thrice(src, sq, q)) {
        return None;
      }
      if src[sp] == NEWLINE {
        sp := sp + 1;
      } else if src[sp] == RETURN && src[sp + 1] == NEWLINE {
        sp := sp + 2;
      }
    } else if !(sp <= sq && src[sq] == q) {
      return None;
    }
    var ok, dst, len;
    if q == APOSTROPHE {
      ok, dst, len := NormLitStr(src[sp..sq], multiline);
    } else {
      ok, dst, len := NormBasicStr(src[sp..sq], multiline);
    }
    return if ok then Some(CString(dst[..len])) else None;
  }

  /**
   * Lexer and unescaper agree on whole tokens: a single-line basic string that the lexer made a token is a string for
   * toml_rtos exactly when it holds no raw control character other than a tab and no code without an encoding.
   */
  lemma TokensAgree(text: seq<byte>, p: nat, end: nat, dot: bool)
    requires p < |text| && text[p] == QUOTE && !Thrice(text, p, QUOTE) && ScanString(text, p, dot) == Ok(end)
    ensures p + 2 <= end <= |text| && text[end - 1] == QUOTE
    ensures var content := text[p + 1..end - 1];
            Rtos(text[p..end]).Some? <==>
            (forall b :: b in content ==> !Forbidden(b)) && (forall code :: code in Codes(content) ==> Encodable(code))
  {
    var q := end - 1;
    assert ScanBasic(text, p + 1, false, 0) == Ok(q);
    LexerAgrees(text, p + 1, q);
    RtosUnescapes(text, p, end);
  }

  lemma RtosUnescapes(text: seq<byte>, p: nat, end: nat)
    requires p + 2 <= end <= |text| && text[p] == QUOTE && text[end - 1] == QUOTE && !Thrice(text, p, QUOTE)
    ensures Rtos(text[p..end]).Some? <==> Unescape(text[p + 1..end - 1], false).Some?
  {
    var src := text[p..end];
    assert !Thrice(src, 0, QUOTE);
    Subslice(text, p, end, 1, |src| - 1);
  }

  /** The quoted form of a string. */
  function Quoted(s: seq<byte>): seq<byte> {
    [QUOTE] + Escape(s) + [QUOTE]
  }

  lemma {:induction false} CStringWhole(s: seq<byte>)
    requires Printable(s)
    ensures CString(s) == s
  {
    if s != [] {
      PrintableTail(s);
      CStringWhole(s[1..]);
      assert s[0] != 0;
      assert s == [s[0]] + s[1..];
    }
  }

  lemma EscapeStart(s: seq<byte>)
    ensures s != [] ==> Escape(s) != [] && Escape(s)[0] != QUOTE
  {
  }

  /**
   * Printed and quoted anywhere in a text, a string whose control characters have escapes is one token, unless it is
   * empty and a quote follows: then the lexer sees the start of a triple-quoted string.
   */
  lemma QuotedScans(before: seq<byte>, s: seq<byte>, after: seq<byte>, dot: bool)
    requires Printable(s) && !(s == [] && after != [] && after[0] == QUOTE)
    ensures ScanString(before + Quoted(s) + after, |before|, dot) == Ok(|before| + |Quoted(s)|)
  {
    var text, p := before + Quoted(s) + after, |before|;
    var q := p + 1 + |Escape(s)|;
    assert text[p] == QUOTE && text[q] == QUOTE;
    assert text[p + 1..q] == Escape(s);
    assert !Thrice(text, p, QUOTE) by {
      EscapeStart(s);
      assert s != [] ==> text[p + 1] == Escape(s)[0];
      assert s == [] && after != [] ==> text[p + 2] == after[0];
    }
    EscapeScans(text, p + 1, q, s);
    BasicScans(text, p, q, dot);
  }

  lemma EscapeScans(text: seq<byte>, p: nat, q: nat, s: seq<byte>)
    requires Printable(s) && p <= q < |text| && text[q] == QUOTE && text[p..q] == Escape(s)
    ensures ScanBasic(text, p, false, 0) == Ok(q)
  {
    EscapeRoundTrip(s);
    UnescaperAgrees(text, p, q);
  }

  lemma BasicScans(text: seq<byte>, p: nat, q: nat, dot: bool)
    requires p < |text| && text[p] == QUOTE && !Thrice(text, p, QUOTE) && ScanBasic(text, p + 1, false, 0) == Ok(q)
    ensures ScanString(text, p, dot) == Ok(q + 1)
  {
  }

  lemma QuotedReads(s: seq<byte>)
    ensures Rtos(Quoted(s)) == if Printable(s) then Some(s) else None
  {
    var src := Quoted(s);
    EscapeRoundTrip(s);
    EscapeStart(s);
    assert src[1..|src| - 1] == Escape(s);
    if s != [] {
      assert src[1] == Escape(s)[0];
    }
    if Printable(s) {
      CStringWhole(s);
    }
  }

  /**
   * String print and parse round trip: in any text, the printed and quoted string is lexed as one token and that
   * token reads back as the original, if and only if its control characters have escapes and it is not
   * the empty string with another quote behind it.
   */
  lemma PrintParseRoundTrip(before: seq<byte>, s: seq<byte>, after: seq<byte>, dot: bool)
    ensures var text := before + Quoted(s) + after;
            var end := ScanString(text, |before|, dot);
            (end == Ok(|before| + |Quoted(s)|) && Rtos(text[|before|..end.value]) == Some(s)) <==>
            (Printable(s) && !(s == [] && after != [] && after[0] == QUOTE))
  {
    var text := before + Quoted(s) + after;
    assert text[|before|..|before| + |Quoted(s)|] == Quoted(s);
    QuotedReads(s);
    if Printable(s) && !(s == [] && after != [] && after[0] == QUOTE) {
      QuotedScans(before, s, after, dot);
    } else if s == [] && after != [] && after[0] == QUOTE {
      assert Thrice(text, |before|, QUOTE) by {
        assert text[|before| + 2] == after[0];
      }
      TripleLength(text, |before| + 3, false, 0, 0);
    }
  }

  /** A control character without an escape is printed raw, and refused; "" before a quote is not one token. */
  lemma PrintingFails(dot: bool)
    ensures Rtos(Quoted([1])) == None
    ensures ScanString(Quoted([]) + [QUOTE], 0, dot) != Ok(|Quoted([])|)
  {
    var control: seq<byte>, empty: seq<byte> :| control == [1] && empty == [];
    QuotedReads(control);
    assert control[0] == 1 && !Printable(control);
    PrintParseRoundTrip(empty, empty, [QUOTE], dot);
    QuotedReads(empty);
    assert empty + Quoted(empty) + [QUOTE] == Quoted(empty) + [QUOTE];
    assert (Quoted(empty) + [QUOTE])[0..|Quoted(empty)|] == Quoted(empty);
  }
}
