/**
 * encodeURIComponent and decodeURIComponent (sections 19.2.6.5, 19.2.6.6 and
 * 19.2.6.1-19.2.6.2 of ECMA-262). A throwing call (URIError) is `None`.
 */
module UriComponent {
  import opened Wrappers
  import opened JsStrings
  import Utf8

  const Percent: CodeUnit := '%' as int

  predicate IsAsciiLetter(u: int) { 'A' as int <= u <= 'Z' as int || 'a' as int <= u <= 'z' as int }

  /** The units encodeURIComponent leaves as they are: letters, digits and - _ . ! ~ * ' ( ). */
  predicate IsUnreserved(u: int) {
    IsAsciiLetter(u) || IsDigit(u)
    || u == '-' as int || u == '_' as int || u == '.' as int || u == '!' as int
    || u == '~' as int || u == '*' as int || u == '\'' as int || u == '(' as int || u == ')' as int
  }

  /** Upper-case hexadecimal digit of a value below 16. */
  function HexDigit(x: int): (u: CodeUnit)
    requires 0 <= x < 16
    ensures IsUnreserved(u)
  {
    if x < 10 then '0' as int + x else 'A' as int + (x - 10)
  }

  /** The value of a hexadecimal digit of either case. */
  function HexValue(u: CodeUnit): (r: Option<int>)
    ensures r.Some? ==> 0 <= r.value < 16
  {
    if IsDigit(u) then Some(u - '0' as int)
    else if 'A' as int <= u <= 'F' as int then Some(u - 'A' as int + 10)
    else if 'a' as int <= u <= 'f' as int then Some(u - 'a' as int + 10)
    else None
  }

  lemma HexValueOfDigit(x: int)
    requires 0 <= x < 16
    ensures HexValue(HexDigit(x)) == Some(x)
  {
  }

  /** Octets written as %XY escapes, upper-case hex. */
  function Escape(bs: seq<Utf8.Byte>): (r: JsString)
    ensures |r| == 3 * |bs|
  {
    if bs == [] then [] else [Percent, HexDigit(bs[0] / 16), HexDigit(bs[0] % 16)] + Escape(bs[1..])
  }

  /** encodeURIComponent: None when `s` holds an unpaired surrogate. */
  function Encode(s: JsString): (r: Option<JsString>)
    ensures r.Some? ==> |r.value| >= |s|
    decreases |s|
  {
    if s == [] then Some([])
    else if IsUnreserved(s[0]) then
      match Encode(s[1..])
      case None => None
      case Some(rest) => Some([s[0]] + rest)
    else
      match LeadCodePoint(s)
      case None => None
      case Some((cp, k)) =>
        match Encode(s[k..])
        case None => None
        case Some(rest) => Some(Escape(Utf8.Encode(cp)) + rest)
  }

  /** The octet a %XY escape at the start of `s` stands for. */
  function ParseEscape(s: JsString): Option<Utf8.Byte> {
    if |s| < 3 || s[0] != Percent then None
    else
      match (HexValue(s[1]), HexValue(s[2]))
      case (Some(hi), Some(lo)) => Some(hi * 16 + lo)
      case _ => None
  }

  /** `m` escapes of continuation octets at the start of `s`. */
  function ParseContinuations(s: JsString, m: nat): (r: Option<seq<Utf8.Byte>>)
    ensures r.Some? ==>
      (|r.value| == m && 3 * m <= |s| && forall k :: 0 <= k < m ==> Utf8.IsContinuation(r.value[k]))
  {
    if m == 0 then Some([])
    else
      match ParseEscape(s)
      case None => None
      case Some(b) =>
        if !Utf8.IsContinuation(b) then None
        else
          match ParseContinuations(s[3..], m - 1)
          case None => None
          case Some(cs) => Some([b] + cs)
  }

  /** decodeURIComponent: None on a malformed escape or an invalid UTF-8 sequence. */
  function Decode(s: JsString): (r: Option<JsString>)
    ensures r.Some? ==> |r.value| <= |s|
    decreases |s|
  {
    if s == [] then Some([])
    else if s[0] != Percent then
      match Decode(s[1..])
      case None => None
      case Some(rest) => Some([s[0]] + rest)
    else
      match ParseEscape(s)
      case None => None
      case Some(b) =>
        var n := Utf8.LeadingOnes(b);
        if n == 0 then
          match Decode(s[3..])
          case None => None
          case Some(rest) => Some([b] + rest)
        else if n == 1 || n > 4 then None
        else
          match ParseContinuations(s[3..], n - 1)
          case None => None
          case Some(cs) =>
            match Utf8.Decode([b] + cs)
            case None => None
            case Some(cp) =>
              match Decode(s[3 * n..])
              case None => None
              case Some(rest) => Some(Utf16(cp) + rest)
  }

  /** encodeURIComponent throws exactly on strings with an unpaired surrogate. */
  lemma {:induction false} EncodeSucceedsIffWellFormed(s: JsString)
    ensures Encode(s).Some? <==> WellFormed(s)
    decreases |s|
  {
    if s != [] {
      var k := LeadCodePoint(s);
      if k.Some? {
        EncodeSucceedsIffWellFormed(s[k.value.1..]);
        if IsUnreserved(s[0]) {
          assert k.value.1 == 1;
        }
      }
    }
  }

  /** Its output holds only unreserved units and '%'. */
  lemma {:induction false} EncodeAlphabet(s: JsString)
    requires Encode(s).Some?
    ensures forall i :: 0 <= i < |Encode(s).value| ==>
      IsUnreserved(Encode(s).value[i]) || Encode(s).value[i] == Percent
    decreases |s|
  {
    if s != [] {
      if IsUnreserved(s[0]) {
        EncodeAlphabet(s[1..]);
      } else {
        var (cp, k) := LeadCodePoint(s).value;
        EncodeAlphabet(s[k..]);
        EscapeAlphabet(Utf8.Encode(cp));
      }
    }
  }

  predicate IsAsciiAlnum(u: int) { IsAsciiLetter(u) || IsDigit(u) }

  /** Escapes are made of '%' and hexadecimal digits. */
  lemma {:induction false} EscapeAlphabet(bs: seq<Utf8.Byte>)
    ensures forall i :: 0 <= i < |Escape(bs)| ==> IsAsciiAlnum(Escape(bs)[i]) || Escape(bs)[i] == Percent
  {
    if bs != [] {
      EscapeAlphabet(bs[1..]);
    }
  }

  lemma ParseEscapeOfEscape(b: Utf8.Byte, rest: JsString)
    ensures ParseEscape(Escape([b]) + rest) == Some(b)
  {
    var s := Escape([b]) + rest;
    assert s[0] == Percent && s[1] == HexDigit(b / 16) && s[2] == HexDigit(b % 16);
    HexValueOfDigit(b / 16);
    HexValueOfDigit(b % 16);
  }

  lemma {:induction false} ParseContinuationsOfEscape(cs: seq<Utf8.Byte>, rest: JsString)
    requires forall k :: 0 <= k < |cs| ==> Utf8.IsContinuation(cs[k])
    ensures ParseContinuations(Escape(cs) + rest, |cs|) == Some(cs)
  {
    if cs != [] {
      var s := Escape(cs) + rest;
      assert s == Escape([cs[0]]) + (Escape(cs[1..]) + rest);
      ParseEscapeOfEscape(cs[0], Escape(cs[1..]) + rest);
      assert s[3..] == Escape(cs[1..]) + rest;
      ParseContinuationsOfEscape(cs[1..], rest);
      assert [cs[0]] + cs[1..] == cs;
    }
  }

  /** The escapes of a group of octets that Utf8.Decode accepts decode to its value's units. */
  lemma DecodeEscapedGroup(bs: seq<Utf8.Byte>, cp: int, rest: JsString)
    requires 2 <= |bs| <= 4 && Utf8.LeadingOnes(bs[0]) == |bs|
    requires forall k :: 1 <= k < |bs| ==> Utf8.IsContinuation(bs[k])
    requires Utf8.Decode(bs) == Some(cp)
    ensures Decode(Escape(bs) + rest) ==
      match Decode(rest)
      case None => None
      case Some(d) => Some(Utf16(cp) + d)
  {
    var s := Escape(bs) + rest;
    assert s == Escape([bs[0]]) + (Escape(bs[1..]) + rest);
    ParseEscapeOfEscape(bs[0], Escape(bs[1..]) + rest);
    assert s[3..] == Escape(bs[1..]) + rest;
    ParseContinuationsOfEscape(bs[1..], rest);
    assert [bs[0]] + bs[1..] == bs;
    assert s[3 * |bs|..] == rest;
  }

  /** Decoding the escapes of one code point gives back its UTF-16 units. */
  lemma DecodeEscapedCodePoint(cp: int, rest: JsString)
    requires IsScalarValue(cp)
    ensures Decode(Escape(Utf8.Encode(cp)) + rest) ==
      match Decode(rest)
      case None => None
      case Some(d) => Some(Utf16(cp) + d)
  {
    var bs := Utf8.Encode(cp);
    if |bs| == 1 {
      var s := Escape(bs) + rest;
      assert s == Escape([bs[0]]) + rest;
      ParseEscapeOfEscape(bs[0], rest);
      assert s[3..] == rest;
    } else {
      Utf8.DecodeEncode(cp);
      DecodeEscapedGroup(bs, cp, rest);
    }
  }

  /** An unreserved unit decodes to itself. */
  lemma DecodeUnreserved(u: CodeUnit, rest: JsString)
    requires IsUnreserved(u)
    ensures Decode([u] + rest) ==
      match Decode(rest)
      case None => None
      case Some(d) => Some([u] + d)
  {
    assert ([u] + rest)[1..] == rest;
  }

  /** One escaped code point ahead of a part that already round-trips. */
  lemma DecodeEncodeEscaped(s: JsString, cp: int, k: nat)
    requires s != [] && !IsUnreserved(s[0]) && LeadCodePoint(s) == Some((cp, k))
    requires Encode(s).Some? && Encode(s[k..]).Some? && Decode(Encode(s[k..]).value) == Some(s[k..])
    ensures Decode(Encode(s).value) == Some(s)
  {
    var rest := Encode(s[k..]).value;
    assert Encode(s).value == Escape(Utf8.Encode(cp)) + rest;
    DecodeEscapedCodePoint(cp, rest);
    assert s == Utf16(cp) + s[k..];
  }

  /** decodeURIComponent undoes encodeURIComponent. */
  lemma {:induction false} DecodeEncode(s: JsString)
    requires WellFormed(s)
    ensures Encode(s).Some? && Decode(Encode(s).value) == Some(s)
    decreases |s|
  {
    EncodeSucceedsIffWellFormed(s);
    if s != [] {
      var (cp, k) := LeadCodePoint(s).value;
      DecodeEncode(s[k..]);
      if IsUnreserved(s[0]) {
        assert k == 1;
        DecodeUnreserved(s[0], Encode(s[1..]).value);
        assert s == [s[0]] + s[1..];
      } else {
        DecodeEncodeEscaped(s, cp, k);
      }
    }
  }


  /**
   * A string whose only unreserved units are letters and digits encodes to
   * letters, digits and '%'.
   */
  lemma {:induction false} EncodeAlnumAlphabet(s: JsString)
    requires forall i :: 0 <= i < |s| ==> IsUnreserved(s[i]) ==> IsAsciiAlnum(s[i])
    requires Encode(s).Some?
    ensures forall i :: 0 <= i < |Encode(s).value| ==>
      IsAsciiAlnum(Encode(s).value[i]) || Encode(s).value[i] == Percent
    decreases |s|
  {
    if s != [] {
      if IsUnreserved(s[0]) {
        EncodeAlnumAlphabet(s[1..]);
      } else {
        var (cp, k) := LeadCodePoint(s).value;
        EncodeAlnumAlphabet(s[k..]);
        EscapeAlphabet(Utf8.Encode(cp));
      }
    }
  }

  /** A string without '%' decodes to itself. */
  lemma {:induction false} DecodeWithoutPercent(s: JsString)
    requires forall i :: 0 <= i < |s| ==> s[i] != Percent
    ensures Decode(s) == Some(s)
    decreases |s|
  {
    if s != [] {
      DecodeWithoutPercent(s[1..]);
      assert [s[0]] + s[1..] == s;
    }
  }

  /** A string of unreserved units encodes to itself. */
  lemma {:induction false} EncodeUnreserved(s: JsString)
    requires forall i :: 0 <= i < |s| ==> IsUnreserved(s[i])
    ensures Encode(s) == Some(s)
    decreases |s|
  {
    if s != [] {
      EncodeUnreserved(s[1..]);
      assert [s[0]] + s[1..] == s;
    }
  }

  /** A parsed escape is '%' and two hexadecimal digits, neither of them '%'. */
  lemma ParseEscapeShape(t: JsString)
    requires ParseEscape(t).Some?
    ensures |t| >= 3 && t[0] == Percent && t[1] != Percent && t[2] != Percent
  {
  }

  /** Every '%' inside parsed continuation escapes opens one of them. */
  lemma {:induction false} ParseContinuationsCover(s: JsString, m: nat, k: nat)
    requires ParseContinuations(s, m).Some? && k < 3 * m && s[k] == Percent
    ensures ParseEscape(s[k..]).Some?
    decreases m
  {
    ParseEscapeShape(s);
    if k == 0 {
      assert s[k..] == s;
    } else {
      assert k >= 3;
      assert s[3..][k - 3..] == s[k..];
      ParseContinuationsCover(s[3..], m - 1, k - 3);
    }
  }

  /** A '%' anywhere that is not followed by two hexadecimal digits makes decodeURIComponent throw. */
  lemma {:induction false} DecodeRejectsBadEscape(s: JsString, i: nat)
    requires i < |s| && s[i] == Percent && ParseEscape(s[i..]).None?
    ensures Decode(s).None?
    decreases |s|
  {
    if s[0] != Percent {
      assert s[1..][i - 1..] == s[i..];
      DecodeRejectsBadEscape(s[1..], i - 1);
    } else if ParseEscape(s).Some? {
      var b := ParseEscape(s).value;
      ParseEscapeShape(s);
      assert s[0..] == s;
      assert i >= 3;
      var n := Utf8.LeadingOnes(b);
      if n == 0 {
        assert s[3..][i - 3..] == s[i..];
        DecodeRejectsBadEscape(s[3..], i - 3);
      } else if 2 <= n <= 4 && ParseContinuations(s[3..], n - 1).Some? {
        if i < 3 * n {
          assert s[3..][i - 3..] == s[i..];
          ParseContinuationsCover(s[3..], n - 1, i - 3);
          assert false;
        } else {
          assert s[3 * n..][i - 3 * n..] == s[i..];
          DecodeRejectsBadEscape(s[3 * n..], i - 3 * n);
        }
      }
    }
  }

  /** An escaped continuation octet, or an octet no UTF-8 sequence starts with, makes it throw. */
  lemma DecodeRejectsStrayOctet(b: Utf8.Byte, rest: JsString)
    requires Utf8.LeadingOnes(b) == 1 || Utf8.LeadingOnes(b) > 4
    ensures Decode(Escape([b]) + rest).None?
  {
    ParseEscapeOfEscape(b, rest);
  }

  /** A lead octet not followed by enough escaped continuation octets makes it throw. */
  lemma DecodeRejectsShortGroup(b: Utf8.Byte, rest: JsString)
    requires 2 <= Utf8.LeadingOnes(b) <= 4
    requires ParseContinuations(rest, Utf8.LeadingOnes(b) - 1).None?
    ensures Decode(Escape([b]) + rest).None?
  {
    ParseEscapeOfEscape(b, rest);
    assert (Escape([b]) + rest)[3..] == rest;
  }

  /**
   * Escapes of a lead octet and its continuation octets that encode no
   * scalar value (an overlong form, a surrogate, a value above 0x10FFFF)
   * make it throw.
   */
  lemma DecodeRejectsBadGroup(bs: seq<Utf8.Byte>, rest: JsString)
    requires 2 <= |bs| <= 4 && Utf8.LeadingOnes(bs[0]) == |bs|
    requires forall k :: 1 <= k < |bs| ==> Utf8.IsContinuation(bs[k])
    requires forall cp :: IsScalarValue(cp) ==> Utf8.Encode(cp) != bs
    ensures Decode(Escape(bs) + rest).None?
  {
    var s := Escape(bs) + rest;
    assert s == Escape([bs[0]]) + (Escape(bs[1..]) + rest);
    ParseEscapeOfEscape(bs[0], Escape(bs[1..]) + rest);
    assert s[3..] == Escape(bs[1..]) + rest;
    ParseContinuationsOfEscape(bs[1..], rest);
    assert [bs[0]] + bs[1..] == bs;
  }
}
