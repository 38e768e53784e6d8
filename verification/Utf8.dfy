/**
 * The UTF-8 codec of src/toml/toml.c: one to six bytes, as in section 2 of RFC 2279.
 * Shifts and masks are written as divisions and remainders by powers of two.
 */
module Utf8 {
  import opened Common

  const MAX_CODE := 0x7FFF_FFFF

  /** The codes that toml_ucs_to_utf8 refuses: surrogates, two noncharacters, and those out of range. */
  predicate Encodable(code: int) {
    0 <= code <= MAX_CODE && !(0xd800 <= code <= 0xdfff) && !(0xfffe <= code <= 0xffff)
  }

  /** The number of bytes of a code. */
  function Length(code: int): (n: nat)
    ensures 1 <= n <= 6
  {
    if code <= 0x7F then 1
    else if code <= 0x7FF then 2
    else if code <= 0xFFFF then 3
    else if code <= 0x1F_FFFF then 4
    else if code <= 0x3FF_FFFF then 5
    else 6
  }

  function Continuation(bits: nat): byte {
    0x80 + bits % 0x40
  }

  /** The bits of a code above its last `k` groups of six. */
  function Top(code: nat, k: nat): nat {
    if k == 0 then code else Top(code / 0x40, k - 1)
  }

  /** The last `k` groups of six bits, as continuation bytes. */
  function Tail(code: nat, k: nat): (bs: seq<byte>)
    ensures |bs| == k
  {
    if k == 0 then [] else Tail(code / 0x40, k - 1) + [Continuation(code)]
  }

  /** The marker of a lead byte that `k` bytes continue. */
  function Marker(k: nat): byte
    requires k <= 5
  {
    if k == 0 then 0 else if k == 1 then 0xc0 else if k == 2 then 0xe0
    else if k == 3 then 0xf0 else if k == 4 then 0xf8 else 0xfc
  }

  lemma TopFits(code: nat)
    requires code <= MAX_CODE
    ensures var k := Length(code) - 1;
            Marker(k) + Top(code, k) < 0x100 && Following(Marker(k) + Top(code, k)) == k &&
            LeadBits(Marker(k) + Top(code, k), k) == Top(code, k)
  {
    TopDivides(code);
  }

  lemma TopDivides(code: nat)
    ensures Top(code, 1) == code / 0x40
    ensures Top(code, 2) == code / 0x1000
    ensures Top(code, 3) == code / 0x4_0000
    ensures Top(code, 4) == code / 0x100_0000
    ensures Top(code, 5) == code / 0x4000_0000
  {
    var c1, c2, c3, c4 := code / 0x40, code / 0x1000, code / 0x4_0000, code / 0x100_0000;
    assert c1 / 0x40 == c2 && c2 / 0x40 == c3 && c3 / 0x40 == c4 && c4 / 0x40 == code / 0x4000_0000;
    assert Top(c4, 1) == Top(code / 0x4000_0000, 0);
    assert Top(c3, 2) == Top(c4, 1) && Top(c3, 1) == Top(c4, 0);
    assert Top(c2, 3) == Top(c3, 2) && Top(c2, 2) == Top(c3, 1) && Top(c2, 1) == Top(c3, 0);
    assert Top(c1, 4) == Top(c2, 3) && Top(c1, 3) == Top(c2, 2) && Top(c1, 2) == Top(c2, 1) && Top(c1, 1) == Top(c2, 0);
  }

  /** The bytes of an encodable code. */
  function Encode(code: int): (bs: seq<byte>)
    requires Encodable(code)
    ensures |bs| == Length(code)
  {
    var k := Length(code) - 1;
    TopFits(code);
    [Marker(k) + Top(code, k)] + Tail(code, k)
  }

  /** Where each byte of a code comes from. */
  lemma EncodeAt(code: int)
    requires Encodable(code)
    ensures var k := Length(code) - 1;
            && Encode(code)[0] == Marker(k) + Top(code, k)
            && forall i :: 1 <= i <= k ==> Encode(code)[i] == Continuation(Top(code, k - i))
  {
    TailAt(code, Length(code) - 1);
  }

  lemma {:induction false} TailAt(code: nat, k: nat)
    ensures forall i :: 0 <= i < k ==> Tail(code, k)[i] == Continuation(Top(code, k - 1 - i))
  {
    if k == 0 {
    } else {
      TailAt(code / 0x40, k - 1);
      forall i | 0 <= i < k ensures Tail(code, k)[i] == Continuation(Top(code, k - 1 - i)) {
        if i < k - 1 {
          assert Tail(code, k)[i] == Tail(code / 0x40, k - 1)[i];
        }
      }
    }
  }

  /** The bytes written out, range by range. */
  lemma EncodeBytes(code: int)
    requires Encodable(code)
    ensures var c0, c1, c2 := Continuation(code), Continuation(code / 0x40), Continuation(code / 0x1000);
            var c3, c4 := Continuation(code / 0x4_0000), Continuation(code / 0x100_0000);
            Encode(code) ==
            if code <= 0x7F then [code]
            else if code <= 0x7FF then [0xc0 + code / 0x40, c0]
            else if code <= 0xFFFF then [0xe0 + code / 0x1000, c1, c0]
            else if code <= 0x1F_FFFF then [0xf0 + code / 0x4_0000, c2, c1, c0]
            else if code <= 0x3FF_FFFF then [0xf8 + code / 0x100_0000, c3, c2, c1, c0]
            else [0xfc + code / 0x4000_0000, c4, c3, c2, c1, c0]
  {
    TopDivides(code);
    EncodeAt(code);
  }

  /** toml_ucs_to_utf8 into buf[off..]; -1 and an untouched buffer for a refused code. */
  method UcsToUtf8(code: int, buf: array<byte>, off: nat) returns (n: int)
    requires off + 6 <= buf.Length
    modifies buf
    ensures n == if Encodable(code) then Length(code) else -1
    ensures Encodable(code) ==> forall i :: 0 <= i < n ==> buf[off + i] == Encode(code)[i]
    ensures forall i :: 0 <= i < buf.Length && !(off <= i < off + n) ==> buf[i] == old(buf[i])
  {
    if 0xd800 <= code <= 0xdfff { return -1; }
    if 0xfffe <= code <= 0xffff { return -1; }
    if code < 0 { return -1; }
    if code <= 0x7F {
      EncodeBytes(code);
      buf[off] := code;
      return 1;
    }
    if code <= 0x7FF {
      var lead, c0 := 0xc0 + code / 0x40, Continuation(code);
      assert Encode(code) == [lead, c0] by { EncodeBytes(code); }
      buf[off], buf[off + 1] := lead, c0;
      return 2;
    }
    if code <= 0xFFFF {
      var lead, c1, c0 := 0xe0 + code / 0x1000, Continuation(code / 0x40), Continuation(code);
      assert Encode(code) == [lead, c1, c0] by { EncodeBytes(code); }
      buf[off], buf[off + 1], buf[off + 2] := lead, c1, c0;
      return 3;
    }
    if code <= 0x1F_FFFF {
      var lead, c2 := 0xf0 + code / 0x4_0000, Continuation(code / 0x1000);
      var c1, c0 := Continuation(code / 0x40), Continuation(code);
      assert Encode(code) == [lead, c2, c1, c0] by { EncodeBytes(code); }
      buf[off], buf[off + 1], buf[off + 2], buf[off + 3] := lead, c2, c1, c0;
      return 4;
    }
    if code <= 0x3FF_FFFF {
      var lead, c3 := 0xf8 + code / 0x100_0000, Continuation(code / 0x4_0000);
      var c2, c1, c0 := Continuation(code / 0x1000), Continuation(code / 0x40), Continuation(code);
      assert Encode(code) == [lead, c3, c2, c1, c0] by { EncodeBytes(code); }
      buf[off], buf[off + 1], buf[off + 2], buf[off + 3], buf[off + 4] := lead, c3, c2, c1, c0;
      return 5;
    }
    if code <= MAX_CODE {
      var lead, c4 := 0xfc + code / 0x4000_0000, Continuation(code / 0x100_0000);
      var c3, c2 := Continuation(code / 0x4_0000), Continuation(code / 0x1000);
      var c1, c0 := Continuation(code / 0x40), Continuation(code);
      assert Encode(code) == [lead, c4, c3, c2, c1, c0] by { EncodeBytes(code); }
      buf[off], buf[off + 1], buf[off + 2], buf[off + 3], buf[off + 4], buf[off + 5] := lead, c4, c3, c2, c1, c0;
      return 6;
    }
    return -1;
  }

  /** A lead byte announces the number of bytes that continue it, or nothing valid. */
  function Following(lead: byte): (k: int)
    ensures -1 <= k <= 5
  {
    if lead / 0x80 == 0 then 0
    else if lead / 0x20 == 0x6 then 1
    else if lead / 0x10 == 0xE then 2
    else if lead / 0x08 == 0x1E then 3
    else if lead / 0x04 == 0x3E then 4
    else if lead / 0x02 == 0x7E then 5
    else -1
  }

  /** The bits of the code in a lead byte that `k` bytes continue. */
  function LeadBits(lead: byte, k: nat): nat
    requires k <= 5
  {
    if k == 0 then lead
    else if k == 1 then lead % 0x20
    else if k == 2 then lead % 0x10
    else if k == 3 then lead % 0x08
    else if k == 4 then lead % 0x04
    else lead % 0x02
  }

  predicate IsContinuation(b: byte) {
    b / 0x40 == 0x2
  }

  /** The code once the first `k` bytes of `bs` have continued it. */
  function Continued(v: nat, bs: seq<byte>, k: nat): nat
    requires k <= |bs|
  {
    if k == 0 then v else Continued(v, bs, k - 1) * 0x40 + bs[k - 1] % 0x40
  }

  datatype Decoded = Decoded(code: nat, consumed: nat)

  /** What the first bytes decode to, if they are a code. */
  function Decode(bs: seq<byte>): (r: Option<Decoded>)
    ensures r.Some? ==> 1 <= r.value.consumed <= |bs|
  {
    if bs == [] then None
    else
      var k := Following(bs[0]);
      if k == -1 || |bs| < k + 1 || exists i :: 1 <= i <= k && !IsContinuation(bs[i]) then None
      else Some(Decoded(Continued(LeadBits(bs[0], k), bs[1..], k), k + 1))
  }

  /** toml_utf8_to_ucs on the bytes from `off` on. */
  method Utf8ToUcs(bs: seq<byte>, off: nat) returns (n: int, code: nat)
    requires off < |bs|
    ensures n == -1 || n >= 1
    ensures Decode(bs[off..]) == if n == -1 then None else Some(Decoded(code, n))
  {
    var lead := bs[off];
    var k := Following(lead);
    if k == -1 || |bs| - off < k + 1 {
      return -1, 0;
    }
    code := LeadBits(lead, k);
    for j := 0 to k
      invariant code == Continued(LeadBits(lead, k), bs[off..][1..], j)
      invariant forall i :: 1 <= i <= j ==> IsContinuation(bs[off..][i])
    {
      var b := bs[off + 1 + j];
      assert b == bs[off..][1 + j] == bs[off..][1..][j];
      if !IsContinuation(b) {
        return -1, 0;
      }
      code := code * 0x40 + b % 0x40;
    }
    n := k + 1;
  }

  // ---------------------------------------------------------------- round trips

  lemma {:induction false} ContinuedTail(code: nat, k: nat, rest: seq<byte>)
    ensures Continued(Top(code, k), Tail(code, k) + rest, k) == code
    ensures forall i :: 0 <= i < k ==> IsContinuation((Tail(code, k) + rest)[i])
  {
    if k == 0 {
    } else {
      ContinuedTail(code / 0x40, k - 1, [Continuation(code)] + rest);
      assert Tail(code, k) + rest == Tail(code / 0x40, k - 1) + ([Continuation(code)] + rest);
    }
  }

  /** Decoding what was encoded gives the code back, and takes its bytes and no more. */
  lemma DecodeEncode(code: int, rest: seq<byte>)
    requires Encodable(code)
    ensures Decode(Encode(code) + rest) == Some(Decoded(code, Length(code)))
  {
    var k := Length(code) - 1;
    var bs := Encode(code) + rest;
    TopFits(code);
    ContinuedTail(code, k, rest);
    assert bs[1..] == Tail(code, k) + rest;
    assert forall i :: 1 <= i <= k ==> bs[i] == bs[1..][i - 1];
  }

  function EncodeAll(codes: seq<int>): seq<byte>
    requires forall i :: 0 <= i < |codes| ==> Encodable(codes[i])
  {
    if codes == [] then [] else Encode(codes[0]) + EncodeAll(codes[1..])
  }

  /** Decoding until the bytes are used up; None if some byte does not start a code. */
  function DecodeAll(bs: seq<byte>): Option<seq<int>>
    decreases |bs|
  {
    if bs == [] then Some([])
    else
      match Decode(bs)
      case None => None
      case Some(d) =>
        match DecodeAll(bs[d.consumed..])
        case None => None
        case Some(codes) => Some([d.code] + codes)
  }

  /** Any list of encodable codes comes back from its bytes, every one of them consumed. */
  lemma {:induction false} RoundTrip(codes: seq<int>)
    requires forall i :: 0 <= i < |codes| ==> Encodable(codes[i])
    ensures DecodeAll(EncodeAll(codes)) == Some(codes)
  {
    if codes == [] {
    } else {
      var rest := EncodeAll(codes[1..]);
      DecodeEncode(codes[0], rest);
      RoundTrip(codes[1..]);
      assert (Encode(codes[0]) + rest)[Length(codes[0])..] == rest;
      assert codes == [codes[0]] + codes[1..];
    }
  }

  lemma {:induction false} TailContinued(v: nat, bs: seq<byte>, k: nat)
    requires k <= |bs| && forall i :: 0 <= i < k ==> IsContinuation(bs[i])
    ensures Top(Continued(v, bs, k), k) == v && Tail(Continued(v, bs, k), k) == bs[..k]
  {
    if k == 0 {
    } else {
      TailContinued(v, bs, k - 1);
      var c := Continued(v, bs, k);
      assert c / 0x40 == Continued(v, bs, k - 1) && c % 0x40 == bs[k - 1] % 0x40;
      assert bs[..k] == bs[..k - 1] + [bs[k - 1]];
    }
  }

  /**
   * The other way round: bytes that decode are the encoding of their code exactly when the code is encodable and was
   * not written with more bytes than it needs. The decoder refuses neither kind itself.
   */
  lemma EncodeDecode(bs: seq<byte>)
    requires Decode(bs).Some?
    ensures var d := Decode(bs).value;
            && d.code <= MAX_CODE
            && (Encodable(d.code) && Encode(d.code) == bs[..d.consumed] <==>
                Encodable(d.code) && d.consumed == Length(d.code))
  {
    var d := Decode(bs).value;
    var k := d.consumed - 1;
    var lead := bs[0];
    assert forall i :: 0 <= i < k ==> bs[1..][i] == bs[i + 1];
    TailContinued(LeadBits(lead, k), bs[1..], k);
    ContinuedBound(LeadBits(lead, k), bs[1..], k);
    if Encodable(d.code) && d.consumed == Length(d.code) {
      assert lead == Marker(k) + LeadBits(lead, k);
      assert bs[..d.consumed] == [lead] + bs[1..][..k];
    }
  }

  lemma ContinuedBound(v: nat, bs: seq<byte>, k: nat)
    requires k <= |bs| && k <= 5
    requires v < (if k == 0 then 0x80 else if k == 1 then 0x20 else if k == 2 then 0x10
                  else if k == 3 then 0x08 else if k == 4 then 0x04 else 0x02)
    ensures Continued(v, bs, k) <= MAX_CODE
  {
    assert k >= 1 ==> Continued(v, bs, 1) < (v + 1) * 0x40;
    assert k >= 2 ==> Continued(v, bs, 2) < (v + 1) * 0x1000;
    assert k >= 3 ==> Continued(v, bs, 3) < (v + 1) * 0x4_0000;
    assert k >= 4 ==> Continued(v, bs, 4) < (v + 1) * 0x100_0000;
    assert k >= 5 ==> Continued(v, bs, 5) < (v + 1) * 0x4000_0000;
  }

  /** The decoder takes the surrogate U+D800, which has no encoding, and an overlong form of U+0000. */
  lemma DecodesTooMuch()
    ensures Decode([0xed, 0xa0, 0x80]) == Some(Decoded(0xd800, 3)) && !Encodable(0xd800)
    ensures Decode([0xc0, 0x80]) == Some(Decoded(0, 2)) && Encode(0) == [0]
  {
    var surrogate: seq<byte>, overlong: seq<byte> :| surrogate == [0xed, 0xa0, 0x80] && overlong == [0xc0, 0x80];
    assert Following(surrogate[0]) == 2 && LeadBits(surrogate[0], 2) == 0xd;
    assert Continued(0xd, surrogate[1..], 1) == 0x360;
    assert Continued(0xd, surrogate[1..], 2) == 0xd800;
    assert Following(overlong[0]) == 1 && LeadBits(overlong[0], 1) == 0;
    assert Continued(0, overlong[1..], 1) == 0;
    EncodeBytes(0);
  }
}
