/**
 * UTF-8 as RFC 3629 defines it (section 3): the octets of one Unicode scalar
 * value, and the decoding of one multi-octet group back to the value. The
 * decoder accepts exactly the shortest-form encodings of scalar values, as
 * the Decode operation of section 19.2.6.5 of ECMA-262 requires.
 */
module Utf8 {
  import opened Wrappers
  import opened JsStrings

  type Byte = b: int | 0 <= b < 0x100

  /** Number of leading one bits of an octet (8 for 0xFF). */
  function LeadingOnes(b: Byte): (n: nat)
    ensures n <= 8
    ensures n == 0 <==> b < 0x80
    ensures n == 1 <==> 0x80 <= b < 0xC0
  {
    if b < 0x80 then 0
    else if b < 0xC0 then 1
    else if b < 0xE0 then 2
    else if b < 0xF0 then 3
    else if b < 0xF8 then 4
    else if b < 0xFC then 5
    else if b < 0xFE then 6
    else if b < 0xFF then 7
    else 8
  }

  /** A continuation octet 10xxxxxx. */
  predicate IsContinuation(b: Byte) { 0x80 <= b < 0xC0 }

  /** The octet length of a scalar value in UTF-8. */
  function EncodedLength(cp: int): nat {
    if cp < 0x80 then 1 else if cp < 0x800 then 2 else if cp < 0x1_0000 then 3 else 4
  }

  /** Continuation octet carrying the six bits of `x` below 64. */
  function Cont(x: int): Byte
    requires x >= 0
  {
    0x80 + x % 64
  }

  /** The UTF-8 octets of one scalar value (section 3 of RFC 3629). */
  function Encode(cp: int): (bs: seq<Byte>)
    requires IsScalarValue(cp)
    ensures |bs| == EncodedLength(cp)
    ensures |bs| == 1 <==> LeadingOnes(bs[0]) == 0
    ensures |bs| > 1 ==> LeadingOnes(bs[0]) == |bs|
    ensures forall k :: 1 <= k < |bs| ==> IsContinuation(bs[k])
  {
    if cp < 0x80 then [cp]
    else if cp < 0x800 then [0xC0 + cp / 64, Cont(cp)]
    else if cp < 0x1_0000 then [0xE0 + cp / 64 / 64, Cont(cp / 64), Cont(cp)]
    else [0xF0 + cp / 64 / 64 / 64, Cont(cp / 64 / 64), Cont(cp / 64), Cont(cp)]
  }

  /** The bits a group of `|bs|` octets carries, continuation markers removed. */
  function GroupValue(bs: seq<Byte>): int
    requires 2 <= |bs| <= 4
  {
    var b0: int, b1: int := bs[0], bs[1];
    if |bs| == 2 then (b0 % 32) * 64 + b1 % 64
    else
      var b2: int := bs[2];
      if |bs| == 3 then ((b0 % 16) * 64 + b1 % 64) * 64 + b2 % 64
      else
        var b3: int := bs[3];
        (((b0 % 8) * 64 + b1 % 64) * 64 + b2 % 64) * 64 + b3 % 64
  }

  /**
   * Decodes one multi-octet group whose first octet announces its length.
   * Fails on a missing continuation octet, an overlong form, a surrogate and
   * a value above U+10FFFF; what it accepts encodes back to the same octets.
   */
  function Decode(bs: seq<Byte>): (r: Option<int>)
    requires 2 <= |bs| <= 4 && LeadingOnes(bs[0]) == |bs|
    ensures r.Some? ==> IsScalarValue(r.value) && Encode(r.value) == bs
  {
    if exists k :: 1 <= k < |bs| && !IsContinuation(bs[k]) then None
    else
      var cp := GroupValue(bs);
      if EncodedLength(cp) != |bs| || !IsScalarValue(cp) then None
      else
        GroupValueEncodes(bs);
        Some(cp)
  }

  /** Six low bits appended to `q`: dividing by 64 gives `q` back, and the bits. */
  lemma Shift6(q: int, r: int)
    requires 0 <= r < 64
    ensures (q * 64 + r) / 64 == q && (q * 64 + r) % 64 == r
  {
  }

  /** A two-octet group is the encoding of the value it carries. */
  lemma Encodes2(b0: Byte, b1: Byte)
    requires 0xC0 <= b0 < 0xE0 && IsContinuation(b1)
    requires 0x80 <= (b0 % 32) * 64 + b1 % 64 < 0x800
    ensures Encode((b0 % 32) * 64 + b1 % 64) == [b0, b1]
  {
    Shift6(b0 % 32, b1 % 64);
  }

  /** A three-octet group is the encoding of the value it carries. */
  lemma Encodes3(b0: Byte, b1: Byte, b2: Byte)
    requires 0xE0 <= b0 < 0xF0 && IsContinuation(b1) && IsContinuation(b2)
    requires var cp := ((b0 % 16) * 64 + b1 % 64) * 64 + b2 % 64; IsScalarValue(cp) && 0x800 <= cp < 0x1_0000
    ensures Encode(((b0 % 16) * 64 + b1 % 64) * 64 + b2 % 64) == [b0, b1, b2]
  {
    assert b0 % 16 == b0 - 0xE0 && b1 % 64 == b1 - 0x80 && b2 % 64 == b2 - 0x80;
    var hi := (b0 % 16) * 64 + b1 % 64;
    Shift6(hi, b2 % 64);
    Shift6(b0 % 16, b1 % 64);
  }

  /** A four-octet group is the encoding of the value it carries. */
  lemma Encodes4(b0: Byte, b1: Byte, b2: Byte, b3: Byte)
    requires 0xF0 <= b0 < 0xF8 && IsContinuation(b1) && IsContinuation(b2) && IsContinuation(b3)
    requires var cp := (((b0 % 8) * 64 + b1 % 64) * 64 + b2 % 64) * 64 + b3 % 64; IsScalarValue(cp) && 0x1_0000 <= cp
    ensures Encode((((b0 % 8) * 64 + b1 % 64) * 64 + b2 % 64) * 64 + b3 % 64) == [b0, b1, b2, b3]
  {
    assert b0 % 8 == b0 - 0xF0 && b1 % 64 == b1 - 0x80 && b2 % 64 == b2 - 0x80 && b3 % 64 == b3 - 0x80;
    var top := (b0 % 8) * 64 + b1 % 64;
    var hi := top * 64 + b2 % 64;
    Shift6(hi, b3 % 64);
    Shift6(top, b2 % 64);
    Shift6(b0 % 8, b1 % 64);
  }

  /** A group that passes the decoder's tests is the encoding of its value. */
  lemma GroupValueEncodes(bs: seq<Byte>)
    requires 2 <= |bs| <= 4 && LeadingOnes(bs[0]) == |bs|
    requires forall k :: 1 <= k < |bs| ==> IsContinuation(bs[k])
    requires IsScalarValue(GroupValue(bs)) && EncodedLength(GroupValue(bs)) == |bs|
    ensures Encode(GroupValue(bs)) == bs
  {
    assert IsContinuation(bs[1]);
    if |bs| == 2 {
      Encodes2(bs[0], bs[1]);
      assert bs == [bs[0], bs[1]];
    } else if |bs| == 3 {
      assert IsContinuation(bs[2]);
      Encodes3(bs[0], bs[1], bs[2]);
      assert bs == [bs[0], bs[1], bs[2]];
    } else {
      assert IsContinuation(bs[2]) && IsContinuation(bs[3]);
      Encodes4(bs[0], bs[1], bs[2], bs[3]);
      assert bs == [bs[0], bs[1], bs[2], bs[3]];
    }
  }

  /** A value is its quotient by 64 and its six low bits. */
  lemma Split6(x: int)
    ensures x == (x / 64) * 64 + x % 64 && 0 <= x % 64 < 64
  {
  }

  lemma DecodeEncode2(cp: int)
    requires 0x80 <= cp < 0x800
    ensures Decode(Encode(cp)) == Some(cp)
  {
    Split6(cp);
    assert GroupValue(Encode(cp)) == cp;
  }

  lemma DecodeEncode3(cp: int)
    requires IsScalarValue(cp) && 0x800 <= cp < 0x1_0000
    ensures Decode(Encode(cp)) == Some(cp)
  {
    Split6(cp);
    Split6(cp / 64);
    assert GroupValue(Encode(cp)) == cp;
  }

  lemma DecodeEncode4(cp: int)
    requires IsScalarValue(cp) && 0x1_0000 <= cp
    ensures Decode(Encode(cp)) == Some(cp)
  {
    Split6(cp);
    Split6(cp / 64);
    Split6(cp / 64 / 64);
    assert GroupValue(Encode(cp)) == cp;
  }

  /** Every multi-octet encoding decodes back to its scalar value. */
  lemma DecodeEncode(cp: int)
    requires IsScalarValue(cp) && cp >= 0x80
    ensures Decode(Encode(cp)) == Some(cp)
  {
    if cp < 0x800 {
      DecodeEncode2(cp);
    } else if cp < 0x1_0000 {
      DecodeEncode3(cp);
    } else {
      DecodeEncode4(cp);
    }
  }

  /** A group decodes to `cp` exactly when it is the encoding of `cp`. */
  lemma DecodeIffEncoding(bs: seq<Byte>, cp: int)
    requires 2 <= |bs| <= 4 && LeadingOnes(bs[0]) == |bs| && IsScalarValue(cp)
    ensures Decode(bs) == Some(cp) <==> Encode(cp) == bs
  {
    if Encode(cp) == bs {
      DecodeEncode(cp);
    }
  }
}
