/**
 * The two readers of a basic string - the lexer that looks for its end, and the unescaper of its content - accept the
 * same strings; and what the printer of src/toml/toml_json.c writes, both read back.
 */
module StringAgreement {
  import opened Common
  import opened Utf8
  import opened BasicString

  datatype ScanError = BadEscape | ExpectHex | Unterminated

  /**
   * The loop of scan_string inside a basic string: the position of the closing quote. `escape` is set behind a
   * backslash, and `hexreq` counts the hexadecimal digits still due.
   */
  function ScanBasic(text: seq<byte>, p: nat, escape: bool, hexreq: nat): (r: Result<nat, ScanError>)
    requires p <= |text|
    ensures r.Ok? ==> p <= r.value < |text| && text[r.value] == QUOTE
    decreases |text| - p
  {
    if p == |text| then Err(Unterminated)
    else if escape then
      if SimpleEscape(text[p]).Some? then ScanBasic(text, p + 1, false, hexreq)
      else if HexDigits(text[p]) > 0 then ScanBasic(text, p + 1, false, HexDigits(text[p]))
      else Err(BadEscape)
    else if hexreq > 0 then
      if IsHex(text[p]) then ScanBasic(text, p + 1, false, hexreq - 1) else Err(ExpectHex)
    else if text[p] == BACKSLASH then ScanBasic(text, p + 1, true, 0)
    else if text[p] == NEWLINE then Err(Unterminated)
    else if text[p] == QUOTE then Ok(p)
    else ScanBasic(text, p + 1, false, 0)
  }

  /** The number of bytes of the escape or plain character that starts a content. */
  function ItemLength(s: seq<byte>): (n: nat)
    requires s != []
    ensures n >= 1
  {
    if s[0] != BACKSLASH || |s| == 1 then 1 else 2 + HexDigits(s[1])
  }

  /** The codes written with \u and \U in a content. */
  function Codes(s: seq<byte>): seq<nat>
    decreases |s|
  {
    if s == [] || |s| < ItemLength(s) then []
    else
      var n := ItemLength(s);
      (if n > 2 && AllHex(s[2..n]) then [HexValue(s[2..n])] else []) + Codes(s[n..])
  }

  /** Scanning over the hexadecimal digits that are due. */
  lemma {:induction false} ScanHex(text: seq<byte>, p: nat, n: nat)
    requires p <= |text|
    ensures p + n <= |text| && AllHex(text[p..p + n]) ==>
            ScanBasic(text, p, false, n) == ScanBasic(text, p + n, false, 0)
    ensures ScanBasic(text, p, false, n).Ok? ==> p + n <= |text| && AllHex(text[p..p + n])
    decreases n
  {
    if n == 0 || p == |text| {
    } else {
      ScanHex(text, p + 1, n - 1);
      if p + n <= |text| {
        assert text[p..p + n] == [text[p]] + text[p + 1..p + n];
      }
    }
  }

  lemma Subslice(text: seq<byte>, p: nat, q: nat, i: nat, j: nat)
    requires p <= q <= |text| && i <= j <= q - p
    ensures text[p..q][i..j] == text[p + i..p + j]
  {
    forall k | 0 <= k < j - i ensures text[p..q][i..j][k] == text[p + i..p + j][k] {
      assert text[p..q][i..j][k] == text[p..q][i + k] == text[p + i + k];
    }
  }

  /** One item at a time: the scanner either ends at a bare quote, or takes a whole escape or character. */
  lemma ScanItem(text: seq<byte>, p: nat, q: nat)
    requires p <= |text| && ScanBasic(text, p, false, 0) == Ok(q) && p < q
    ensures var s := text[p..q];
            var n := ItemLength(s);
            && n <= |s| && ScanBasic(text, p + n, false, 0) == Ok(q)
            && (n == 1 ==> s[0] != BACKSLASH && s[0] != QUOTE && s[0] != NEWLINE)
            && (n == 2 ==> s[0] == BACKSLASH && SimpleEscape(s[1]).Some?)
            && (n > 2 ==> s[0] == BACKSLASH && n == 2 + HexDigits(s[1]) && AllHex(s[2..n]))
  {
    if text[p] == BACKSLASH {
      assert ScanBasic(text, p + 1, true, 0) == Ok(q);
      var n := HexDigits(text[p + 1]);
      if n > 0 {
        ScanHex(text, p + 2, n);
        assert ScanBasic(text, p + 2 + n, false, 0) == Ok(q) && p + 2 + n <= q;
        Subslice(text, p, q, 2, 2 + n);
      }
    }
  }

  /**
   * Lexer and unescaper agree: the content of every token the lexer takes for a basic string is accepted by the
   * unescaper, exactly when it holds no raw control character other than a tab and no code without an encoding.
   */
  lemma {:induction false} LexerAgrees(text: seq<byte>, p: nat, q: nat)
    requires p <= |text| && ScanBasic(text, p, false, 0) == Ok(q)
    ensures Unescape(text[p..q], false).Some? <==>
            && (forall b :: b in text[p..q] ==> !Forbidden(b))
            && (forall code :: code in Codes(text[p..q]) ==> Encodable(code))
    decreases q - p
  {
    var s := text[p..q];
    if p == q {
      assert s == [];
    } else {
      ScanItem(text, p, q);
      var n := ItemLength(s);
      LexerAgrees(text, p + n, q);
      Subslice(text, p, q, n, q - p);
      ItemUnescapes(s, n);
      ItemAdds(s, n);
    }
  }

  /** Unescaping goes on behind the first item, unless that is a control character or a code without an encoding. */
  lemma ItemUnescapes(s: seq<byte>, n: nat)
    requires s != [] && n == ItemLength(s) <= |s|
    requires n == 1 ==> s[0] != BACKSLASH
    requires n == 2 ==> SimpleEscape(s[1]).Some?
    requires n > 2 ==> AllHex(s[2..n])
    ensures Unescape(s, false).Some? <==>
            && (n == 1 ==> !Forbidden(s[0]))
            && (n > 2 ==> Encodable(HexValue(s[2..n])))
            && Unescape(s[n..], false).Some?
  {
  }

  /** The first item adds its own bytes to the content, and its code, if any, to the codes. */
  lemma ItemAdds(s: seq<byte>, n: nat)
    requires s != [] && n == ItemLength(s) <= |s|
    requires n == 2 ==> SimpleEscape(s[1]).Some?
    requires n > 2 ==> AllHex(s[2..n])
    ensures (forall b :: b in s ==> !Forbidden(b)) <==>
            (n == 1 ==> !Forbidden(s[0])) && (forall b :: b in s[n..] ==> !Forbidden(b))
    ensures (forall code :: code in Codes(s) ==> Encodable(code)) <==>
            (n > 2 ==> Encodable(HexValue(s[2..n]))) && (forall code :: code in Codes(s[n..]) ==> Encodable(code))
  {
    ItemClean(s, n);
    assert s == s[..n] + s[n..];
    if n > 2 {
      assert Codes(s) == [HexValue(s[2..n])] + Codes(s[n..]);
    } else {
      assert Codes(s) == Codes(s[n..]);
    }
  }

  /** Only a plain character can be a control character: escapes are made of others. */
  lemma ItemClean(s: seq<byte>, n: nat)
    requires s != [] && n == ItemLength(s) <= |s|
    requires n == 2 ==> SimpleEscape(s[1]).Some?
    requires n > 2 ==> AllHex(s[2..n])
    ensures (forall b :: b in s[..n] ==> !Forbidden(b)) <==> (n == 1 ==> !Forbidden(s[0]))
  {
    if n == 1 {
      assert s[..1] == [s[0]];
    } else if n == 2 {
      assert s[..2] == [s[0], s[1]];
    } else {
      assert s[..n] == [s[0], s[1]] + s[2..n];
    }
  }

  // ---------------------------------------------------------------- the other direction

  /** Every quote in the content is escaped. */
  predicate NoBareQuote(s: seq<byte>)
    decreases |s|
  {
    s == [] || (s[0] != QUOTE && (|s| < ItemLength(s) || NoBareQuote(s[ItemLength(s)..])))
  }

  /** A content that the unescaper accepts and that holds no bare quote, the lexer takes to its very end. */
  lemma {:induction false} UnescaperAgrees(text: seq<byte>, p: nat, q: nat)
    requires p <= q < |text| && text[q] == QUOTE
    requires Unescape(text[p..q], false).Some? && NoBareQuote(text[p..q])
    ensures ScanBasic(text, p, false, 0) == Ok(q)
    decreases q - p
  {
    var s := text[p..q];
    if p == q {
    } else {
      var n := ItemLength(s);
      AcceptedItem(s);
      Subslice(text, p, q, n, q - p);
      UnescaperAgrees(text, p + n, q);
      AcceptedScans(text, p, q);
    }
  }

  /** The unescaper accepts a content item by item. */
  lemma AcceptedItem(s: seq<byte>)
    requires s != [] && Unescape(s, false).Some?
    ensures var n := ItemLength(s);
            && n <= |s| && Unescape(s[n..], false).Some?
            && (n == 1 ==> s[0] != BACKSLASH && s[0] != NEWLINE)
            && (n == 2 ==> SimpleEscape(s[1]).Some?)
            && (n > 2 ==> AllHex(s[2..n]))
  {
  }

  lemma AcceptedScans(text: seq<byte>, p: nat, q: nat)
    requires p < q < |text| && Unescape(text[p..q], false).Some? && NoBareQuote(text[p..q])
    ensures var n := ItemLength(text[p..q]);
            p + n <= q && ScanBasic(text, p, false, 0) == ScanBasic(text, p + n, false, 0)
  {
    var s := text[p..q];
    var n := ItemLength(s);
    AcceptedItem(s);
    if n > 2 {
      Subslice(text, p, q, 2, n);
      ScanHex(text, p + 2, n - 2);
    }
  }

  // ---------------------------------------------------------------- printing and parsing back

  /** What print_escape_string writes for a byte. */
  function EscapeByte(b: byte): seq<byte> {
    if b == 0x08 then [BACKSLASH, 0x62]
    else if b == TAB then [BACKSLASH, 0x74]
    else if b == NEWLINE then [BACKSLASH, 0x6e]
    else if b == 0x0c then [BACKSLASH, 0x66]
    else if b == RETURN then [BACKSLASH, 0x72]
    else if b == QUOTE then [BACKSLASH, QUOTE]
    else if b == BACKSLASH then [BACKSLASH, BACKSLASH]
    else [b]
  }

  function Escape(s: seq<byte>): seq<byte> {
    if s == [] then [] else EscapeByte(s[0]) + Escape(s[1..])
  }

  /** print_escape_string. */
  method PrintEscapeString(s: seq<byte>) returns (out: seq<byte>)
    ensures out == Escape(s)
  {
    out := [];
    assert s[0..] == s;
    for i := 0 to |s|
      invariant Escape(s) == out + Escape(s[i..])
    {
      assert s[i..][1..] == s[i + 1..];
      out := out + EscapeByte(s[i]);
    }
    assert s[|s|..] == [];
  }

  /** The strings whose control characters all have an escape: \b \t \n \f \r. */
  predicate Printable(s: seq<byte>) {
    forall i :: 0 <= i < |s| ==> Forbidden(s[i]) ==> s[i] in {0x08, 0x0a, 0x0c, 0x0d}
  }

  /** What was printed unescapes to the original string if and only if each of its control characters has an escape. */
  lemma {:induction false} EscapeRoundTrip(s: seq<byte>)
    ensures Unescape(Escape(s), false) == if Printable(s) then Some(s) else None
    ensures Printable(s) ==> NoBareQuote(Escape(s))
    decreases |s|
  {
    if s == [] {
    } else {
      EscapeRoundTrip(s[1..]);
      EscapeUnescapes(s[0], Escape(s[1..]));
      assert s == [s[0]] + s[1..];
      PrintableTail(s);
    }
  }

  lemma PrintableTail(s: seq<byte>)
    requires s != []
    ensures Printable(s) <==> (Forbidden(s[0]) ==> s[0] in {0x08, 0x0a, 0x0c, 0x0d}) && Printable(s[1..])
  {
    assert forall i :: 0 <= i < |s[1..]| ==> s[1..][i] == s[i + 1];
    if Printable(s[1..]) && (Forbidden(s[0]) ==> s[0] in {0x08, 0x0a, 0x0c, 0x0d}) {
      forall i | 0 <= i < |s| && Forbidden(s[i]) ensures s[i] in {0x08, 0x0a, 0x0c, 0x0d} {
        assert i > 0 ==> s[i] == s[1..][i - 1];
      }
    }
  }

  /** The escape of one byte is read back as that byte, unless it is a control character without an escape. */
  lemma EscapeUnescapes(b: byte, rest: seq<byte>)
    ensures Unescape(EscapeByte(b) + rest, false) ==
            if Forbidden(b) && b !in {0x08, 0x0a, 0x0c, 0x0d} then None else Prepend([b], Unescape(rest, false))
    ensures NoBareQuote(EscapeByte(b) + rest) <==> NoBareQuote(rest)
  {
    var e := EscapeByte(b);
    assert (e + rest)[|e|..] == rest;
  }
}
