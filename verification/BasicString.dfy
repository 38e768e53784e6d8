/**
 * The strings of src/toml/toml.c: how the lexer finds the end of a single-line basic string, how its content is
 * unescaped into a growing buffer, and how src/toml/toml_json.c writes one.
 */
module BasicString {
  import opened Common
  import opened Utf8

  const TAB: byte := 0x09
  const NEWLINE: byte := 0x0a
  const RETURN: byte := 0x0d
  const SPACE: byte := 0x20
  const QUOTE: byte := 0x22
  const APOSTROPHE: byte := 0x27
  const BACKSLASH: byte := 0x5c

  /** Control characters other than the tab: U+0000 to U+0008, U+000A to U+001F, U+007F. */
  predicate Forbidden(b: byte) {
    b <= 0x08 || 0x0a <= b <= 0x1f || b == 0x7f
  }

  predicate IsHex(b: byte) {
    0x30 <= b <= 0x39 || 0x41 <= b <= 0x46
  }

  function HexDigit(b: byte): (v: nat)
    requires IsHex(b)
    ensures v < 16
  {
    if b <= 0x39 then b - 0x30 else b - 0x41 + 10
  }

  predicate AllHex(bs: seq<byte>) {
    forall i :: 0 <= i < |bs| ==> IsHex(bs[i])
  }

  function HexValue(bs: seq<byte>): nat
    requires AllHex(bs)
  {
    if bs == [] then 0 else HexValue(bs[..|bs| - 1]) * 16 + HexDigit(bs[|bs| - 1])
  }

  /** The number of hexadecimal digits behind \u and \U; none behind any other escape. */
  function HexDigits(b: byte): nat {
    if b == 0x75 then 4 else if b == 0x55 then 8 else 0
  }

  /** What the one-character escapes \b \t \n \f \r \" \\ stand for. */
  function SimpleEscape(b: byte): Option<byte> {
    if b == 0x62 then Some(0x08)
    else if b == 0x74 then Some(TAB)
    else if b == 0x6e then Some(NEWLINE)
    else if b == 0x66 then Some(0x0c)
    else if b == 0x72 then Some(RETURN)
    else if b == QUOTE then Some(QUOTE)
    else if b == BACKSLASH then Some(BACKSLASH)
    else None
  }

  /** strspn: the length of the run of bytes from `set` at the start. */
  function Span(s: seq<byte>, accept: set<byte>): (n: nat)
    ensures n <= |s|
    ensures n < |s| ==> s[n] !in accept
  {
    if s != [] && s[0] in accept then 1 + Span(s[1..], accept) else 0
  }

  const BLANKS: set<byte> := {SPACE, TAB, RETURN}
  const SPACES: set<byte> := {SPACE, TAB, RETURN, NEWLINE}

  /** Only blanks are left on the line. */
  predicate LineEnds(s: seq<byte>) {
    var n := Span(s, BLANKS);
    n < |s| && s[n] == NEWLINE
  }

  function Prepend(bs: seq<byte>, r: Option<seq<byte>>): Option<seq<byte>> {
    match r
    case None => None
    case Some(rest) => Some(bs + rest)
  }

  /** norm_basic_str: the content `s` between the quotes without its escapes, or None when it is invalid. */
  function Unescape(s: seq<byte>, multiline: bool): Option<seq<byte>>
    decreases |s|
  {
    if s == [] then Some([])
    else if s[0] != BACKSLASH then
      if Forbidden(s[0]) && !(multiline && s[0] in {RETURN, NEWLINE}) then None
      else Prepend([s[0]], Unescape(s[1..], multiline))
    else if |s| == 1 then None
    else if multiline && LineEnds(s[1..]) then
      Unescape(s[1 + Span(s[1..], SPACES)..], multiline)
    else if HexDigits(s[1]) > 0 then
      var end := 2 + HexDigits(s[1]);
      if |s| < end || !AllHex(s[2..end]) || !Encodable(HexValue(s[2..end])) then None
      else Prepend(Encode(HexValue(s[2..end])), Unescape(s[end..], multiline))
    else
      match SimpleEscape(s[1])
      case None => None
      case Some(b) => Prepend([b], Unescape(s[2..], multiline))
  }

  // ---------------------------------------------------------------- the growing buffer

  const GROWTH := 50
  const SLACK := 10

  /** realloc: a larger buffer with the same content. */
  method Grow(dst: array<byte>, max: nat) returns (larger: array<byte>)
    requires dst.Length <= max
    ensures fresh(larger) && larger.Length == max
    ensures larger[..dst.Length] == dst[..]
  {
    larger := new byte[max](i => 0);
    for i := 0 to dst.Length
      invariant larger[..i] == dst[..i]
    {
      larger[i] := dst[i];
    }
  }

  /** The next `n` hexadecimal digits from `i` on, as a code. */
  method ReadHex(s: seq<byte>, i: nat, n: nat) returns (ok: bool, code: nat)
    requires i <= |s|
    ensures ok <==> i + n <= |s| && AllHex(s[i..i + n])
    ensures ok ==> code == HexValue(s[i..i + n])
  {
    code := 0;
    for k := 0 to n
      invariant i + k <= |s| && AllHex(s[i..i + k]) && code == HexValue(s[i..i + k])
    {
      if i + k >= |s| {
        return false, 0;
      }
      var b := s[i + k];
      assert s[i..i + k + 1] == s[i..i + k] + [b];
      if !IsHex(b) {
        assert i + n <= |s| ==> s[i..i + n][k] == b;
        return false, 0;
      }
      code := code * 16 + HexDigit(b);
    }
    ok := true;
  }

  /** `done` is what s[..i] unescapes to. */
  ghost predicate UnescapedTo(s: seq<byte>, multiline: bool, done: seq<byte>, i: nat)
    requires i <= |s|
  {
    Unescape(s, multiline) == Prepend(done, Unescape(s[i..], multiline))
  }

  lemma UnescapesOn(s: seq<byte>, multiline: bool, done: seq<byte>, i: nat, next: seq<byte>, j: nat)
    requires i <= |s| && j <= |s| && UnescapedTo(s, multiline, done, i)
    requires Unescape(s[i..], multiline) == Prepend(next, Unescape(s[j..], multiline))
    ensures UnescapedTo(s, multiline, done + next, j)
  {
    PrependTwice(done, next, Unescape(s[j..], multiline));
  }

  /** The escape whose backslash is at i - 1 and that ends no line, written at `off`. */
  method UnescapeOne(s: seq<byte>, i: nat, multiline: bool, dst: array<byte>, off: nat)
    returns (ok: bool, j: nat, end: nat)
    requires 0 < i < |s| && s[i - 1] == BACKSLASH && !(multiline && LineEnds(s[i..]))
    requires off + 6 <= dst.Length
    modifies dst
    ensures !ok ==> Unescape(s[i - 1..], multiline).None?
    ensures ok ==> i < j <= |s| && off <= end <= off + 6 && end - off <= j - (i - 1)
    ensures ok ==> dst[..off] == old(dst[..off])
    ensures ok ==> Unescape(s[i - 1..], multiline) == Prepend(dst[off..end], Unescape(s[j..], multiline))
  {
    var ch := s[i];
    ghost var rest := s[i - 1..];
    assert rest[1..] == s[i..];
    var nhex := HexDigits(ch);
    if nhex > 0 {
      assert i + 1 + nhex <= |s| ==> s[i + 1..i + 1 + nhex] == rest[2..2 + nhex];
      var hex, code := ReadHex(s, i + 1, nhex);
      if !hex {
        return false, i, off;
      }
      var n := UcsToUtf8(code, dst, off);
      if n == -1 {
        return false, i, off;
      }
      assert dst[off..off + n] == Encode(code);
      assert s[i + 1 + nhex..] == rest[2 + nhex..];
      return true, i + 1 + nhex, off + n;
    }
    if SimpleEscape(ch).None? {
      return false, i, off;
    }
    dst[off] := SimpleEscape(ch).value;
    assert dst[off..off + 1] == [SimpleEscape(ch).value] && s[i + 1..] == rest[2..];
    return true, i + 1, off + 1;
  }

  lemma PlainUnescapes(s: seq<byte>, i: nat, multiline: bool)
    requires i < |s| && s[i] != BACKSLASH
    ensures Unescape(s[i..], multiline) ==
            if Forbidden(s[i]) && !(multiline && s[i] in {RETURN, NEWLINE}) then None
            else Prepend([s[i]], Unescape(s[i + 1..], multiline))
  {
    assert s[i..][1..] == s[i + 1..];
  }

  lemma LineEndUnescapes(s: seq<byte>, i: nat, j: nat, multiline: bool)
    requires i + 1 < |s| && s[i] == BACKSLASH && multiline && LineEnds(s[i + 1..])
    requires j == i + 1 + Span(s[i + 1..], SPACES)
    ensures i < j <= |s| && Unescape(s[i..], multiline) == Prepend([], Unescape(s[j..], multiline))
  {
    assert s[i..][1..] == s[i + 1..];
    assert s[i..][j - i..] == s[j..];
    PrependNothing(Unescape(s[i..], multiline));
  }

  lemma LastBackslash(s: seq<byte>, i: nat, multiline: bool)
    requires i + 1 == |s| && s[i] == BACKSLASH
    ensures Unescape(s[i..], multiline).None?
  {
  }

  /** A plain character at `i`, copied to `off`. */
  method CopyOne(s: seq<byte>, i: nat, multiline: bool, dst: array<byte>, off: nat) returns (ok: bool)
    requires i < |s| && s[i] != BACKSLASH && off < dst.Length
    modifies dst
    ensures !ok ==> Unescape(s[i..], multiline).None?
    ensures ok ==> dst[..off] == old(dst[..off])
    ensures ok ==> Unescape(s[i..], multiline) == Prepend(dst[off..off + 1], Unescape(s[i + 1..], multiline))
  {
    var ch := s[i];
    PlainUnescapes(s, i, multiline);
    if Forbidden(ch) && !(multiline && (ch == RETURN || ch == NEWLINE)) {
      return false;
    }
    dst[off] := ch;
    assert dst[off..off + 1] == [ch];
    return true;
  }

  /** One turn of the loop of norm_basic_str: what starts at `i` is written at `off`. */
  method UnescapeNext(s: seq<byte>, i: nat, multiline: bool, dst: array<byte>, off: nat)
    returns (ok: bool, j: nat, end: nat)
    requires i < |s| && off + 6 <= dst.Length
    modifies dst
    ensures !ok ==> Unescape(s[i..], multiline).None?
    ensures ok ==> i < j <= |s| && off <= end <= off + 6 && end - off <= j - i
    ensures ok ==> dst[..off] == old(dst[..off])
    ensures ok ==> Unescape(s[i..], multiline) == Prepend(dst[off..end], Unescape(s[j..], multiline))
  {
    if s[i] != BACKSLASH {
      ok := CopyOne(s, i, multiline, dst, off);
      return ok, i + 1, off + 1;
    }
    if i + 1 >= |s| {
      LastBackslash(s, i, multiline);
      return false, i, off;
    }
    if multiline && LineEnds(s[i + 1..]) {
      j := i + 1 + Span(s[i + 1..], SPACES);
      LineEndUnescapes(s, i, j, multiline);
      assert dst[off..off] == [];
      return true, j, off;
    }
    ok, j, end := UnescapeOne(s, i + 1, multiline, dst, off);
  }

  /**
   * norm_basic_str writes into a buffer that grows by 50 whenever no more than 10 bytes are left. Every write, of up
   * to six bytes at once and of the final NUL, is within the buffer, and never are more bytes written than were read.
   */
  method NormBasicStr(s: seq<byte>, multiline: bool) returns (ok: bool, dst: array<byte>, len: nat)
    ensures ok <==> Unescape(s, multiline).Some?
    ensures ok ==> len < dst.Length && dst[..len] == Unescape(s, multiline).value && dst[len] == 0
    ensures ok ==> len <= |s|
  {
    dst := new byte[0];
    var max, off, i := 0, 0, 0;
    assert s[0..] == s && dst[..0] == [];
    PrependNothing(Unescape(s, multiline));
    while true
      invariant 0 <= off <= i <= |s| && dst.Length == max && off <= max && fresh(dst)
      invariant max > 0 ==> off < max - 4
      invariant UnescapedTo(s, multiline, dst[..off], i)
      decreases |s| - i
    {
      ghost var done := dst[..off];
      if off >= max - SLACK {
        max := max + GROWTH;
        dst := Grow(dst, max);
        assert dst[..off] == done;
      }
      if i >= |s| {
        break;
      }
      var valid, j, end := UnescapeNext(s, i, multiline, dst, off);
      if !valid {
        return false, dst, 0;
      }
      assert dst[..end] == done + dst[off..end];
      UnescapesOn(s, multiline, done, i, dst[off..end], j);
      i, off := j, end;
    }
    assert s[i..] == [] && dst[..off] + [] == dst[..off];
    dst[off] := 0;
    ok, len := true, off;
  }

  lemma PrependNothing(r: Option<seq<byte>>)
    ensures Prepend([], r) == r
  {
    if r.Some? {
      assert [] + r.value == r.value;
    }
  }

  lemma PrependTwice(a: seq<byte>, b: seq<byte>, r: Option<seq<byte>>)
    ensures Prepend(a, Prepend(b, r)) == Prepend(a + b, r)
  {
    if r.Some? {
      assert a + (b + r.value) == a + b + r.value;
    }
  }

  /** Unescaping never needs more bytes than it consumes. */
  lemma {:induction false} UnescapeShrinks(s: seq<byte>, multiline: bool)
    ensures var r := Unescape(s, multiline);
            r.Some? ==> |r.value| <= |s|
    decreases |s|
  {
    if s == [] || Unescape(s, multiline).None? {
    } else if s[0] != BACKSLASH {
      UnescapeShrinks(s[1..], multiline);
    } else if multiline && LineEnds(s[1..]) {
      UnescapeShrinks(s[1 + Span(s[1..], SPACES)..], multiline);
    } else if HexDigits(s[1]) > 0 {
      UnescapeShrinks(s[2 + HexDigits(s[1])..], multiline);
      if HexDigits(s[1]) == 4 {
        HexBound(s[2..6]);
      }
    } else {
      UnescapeShrinks(s[2..], multiline);
    }
  }

  /** Four hexadecimal digits stay below 0x10000, and so fit three bytes. */
  lemma HexBound(bs: seq<byte>)
    requires AllHex(bs) && |bs| == 4
    ensures HexValue(bs) <= 0xFFFF
  {
    assert HexValue(bs[..1]) < 16;
    assert bs[..2][..1] == bs[..1] && HexValue(bs[..2]) < 0x100;
    assert bs[..3][..2] == bs[..2] && HexValue(bs[..3]) < 0x1000;
  }
}
