/**
 * JavaScript strings as the engine holds them: sequences of UTF-16 code units.
 * A string may hold an unpaired surrogate; `WellFormed` says it does not.
 * Also the few String.prototype operations the core uses: `trim`, `startsWith`,
 * `includes`, and the decimal form of a non-negative integer.
 */
module JsStrings {
  import opened Wrappers

  /** One UTF-16 code unit. */
  type CodeUnit = u: int | 0 <= u < 0x1_0000
  type JsString = seq<CodeUnit>

  predicate IsHighSurrogate(u: int) { 0xD800 <= u < 0xDC00 }
  predicate IsLowSurrogate(u: int) { 0xDC00 <= u < 0xE000 }
  predicate IsScalarValue(cp: int) { 0 <= cp < 0xD800 || 0xE000 <= cp < 0x11_0000 }

  /** The UTF-16 form of one Unicode scalar value: one unit, or a surrogate pair above U+FFFF. */
  function Utf16(cp: int): (us: JsString)
    requires IsScalarValue(cp)
    ensures |us| == (if cp < 0x1_0000 then 1 else 2)
    ensures cp < 0x1_0000 ==> us[0] == cp && !IsHighSurrogate(cp) && !IsLowSurrogate(cp)
    ensures cp >= 0x1_0000 ==>
      (IsHighSurrogate(us[0]) && IsLowSurrogate(us[1]) && PairValue(us[0], us[1]) == cp)
  {
    if cp < 0x1_0000 then [cp]
    else [0xD800 + (cp - 0x1_0000) / 0x400, 0xDC00 + (cp - 0x1_0000) % 0x400]
  }

  /** The code point a surrogate pair stands for. */
  function PairValue(hi: int, lo: int): int {
    (hi - 0xD800) * 0x400 + (lo - 0xDC00) + 0x1_0000
  }

  /**
   * One character of a literal of the source as a code unit. Every literal
   * of the source lies in the Basic Multilingual Plane; a character beyond
   * it would stand for U+FFFD here.
   */
  function Unit(c: char): CodeUnit {
    if c as int < 0x1_0000 then c as int else 0xFFFD
  }

  /** A string literal of the source as the engine holds it. */
  function Str(s: string): (r: JsString)
    ensures |r| == |s| && forall i :: 0 <= i < |s| ==> r[i] == Unit(s[i])
  {
    seq(|s|, i requires 0 <= i < |s| => Unit(s[i]))
  }

  /**
   * The code point that starts `s` and how many units it spans, as ECMAScript's
   * CodePointAt(s, 0) gives it; None when the first unit is an unpaired surrogate.
   */
  function LeadCodePoint(s: JsString): (r: Option<(int, nat)>)
    requires |s| > 0
    ensures r.Some? ==>
      (IsScalarValue(r.value.0) && 1 <= r.value.1 <= |s| && Utf16(r.value.0) == s[..r.value.1])
    ensures r.None? <==> (IsLowSurrogate(s[0]) || (IsHighSurrogate(s[0]) && (|s| < 2 || !IsLowSurrogate(s[1]))))
  {
    if IsHighSurrogate(s[0]) && |s| >= 2 && IsLowSurrogate(s[1]) then
      var cp := PairValue(s[0], s[1]);
      assert Utf16(cp) == s[..2];
      Some((cp, 2))
    else if IsHighSurrogate(s[0]) || IsLowSurrogate(s[0]) then None
    else
      assert Utf16(s[0]) == s[..1];
      Some((s[0] as int, 1))
  }

  /** No unpaired surrogate anywhere in `s`. */
  predicate WellFormed(s: JsString)
    decreases |s|
  {
    s == [] || (LeadCodePoint(s).Some? && WellFormed(s[LeadCodePoint(s).value.1..]))
  }

  /** The first code point of a well-formed string, re-encoded, gives back its first units. */
  lemma LeadCodePointOfUtf16(cp: int, rest: JsString)
    requires IsScalarValue(cp)
    ensures LeadCodePoint(Utf16(cp) + rest) == Some((cp, |Utf16(cp)|))
  {
    var s := Utf16(cp) + rest;
    assert s[..|Utf16(cp)|] == Utf16(cp);
  }

  /** A string without surrogate units is well formed. */
  lemma {:induction false} NoSurrogatesWellFormed(s: JsString)
    requires forall i :: 0 <= i < |s| ==> !IsHighSurrogate(s[i]) && !IsLowSurrogate(s[i])
    ensures WellFormed(s)
    decreases |s|
  {
    if s != [] {
      NoSurrogatesWellFormed(s[1..]);
    }
  }

  /** Every literal of the source is well formed. */
  lemma StrWellFormed(s: string)
    ensures WellFormed(Str(s))
  {
    NoSurrogatesWellFormed(Str(s));
  }

  /** WhiteSpace and LineTerminator code points of ECMAScript (sections 12.2 and 12.3 of ECMA-262). */
  predicate IsJsWhitespace(u: int) {
    u == 0x09 || u == 0x0B || u == 0x0C || u == 0x20 || u == 0xA0 || u == 0xFEFF
    || u == 0x1680 || 0x2000 <= u <= 0x200A || u == 0x202F || u == 0x205F || u == 0x3000
    || u == 0x0A || u == 0x0D || u == 0x2028 || u == 0x2029
  }

  /** Nothing but white space (true of the empty string). */
  predicate IsBlank(s: JsString) {
    forall i :: 0 <= i < |s| ==> IsJsWhitespace(s[i])
  }

  function TrimStart(s: JsString): (r: JsString)
    ensures |r| <= |s| && r == s[|s| - |r|..]
    ensures forall i :: 0 <= i < |s| - |r| ==> IsJsWhitespace(s[i])
    ensures r == [] || !IsJsWhitespace(r[0])
    decreases |s|
  {
    if s != [] && IsJsWhitespace(s[0]) then TrimStart(s[1..]) else s
  }

  function TrimEnd(s: JsString): (r: JsString)
    ensures |r| <= |s| && r == s[..|r|]
    ensures forall i :: |r| <= i < |s| ==> IsJsWhitespace(s[i])
    ensures r == [] || !IsJsWhitespace(r[|r| - 1])
    decreases |s|
  {
    if s != [] && IsJsWhitespace(s[|s| - 1]) then TrimEnd(s[..|s| - 1]) else s
  }

  /** String.prototype.trim: `s` without its leading and trailing white space. */
  function Trim(s: JsString): (r: JsString)
    ensures r == [] || (!IsJsWhitespace(r[0]) && !IsJsWhitespace(r[|r| - 1]))
    ensures r == [] <==> IsBlank(s)
  {
    var t := TrimStart(s);
    var r := TrimEnd(t);
    assert r != [] ==> r[0] == t[0];
    assert r == [] ==> t == [];
    assert r != [] ==> s[|s| - |t|] == r[0];
    r
  }

  /** What trim removes is white space at either end: the result is a slice of `s`. */
  lemma TrimSlice(s: JsString) returns (a: nat)
    ensures a + |Trim(s)| <= |s| && Trim(s) == s[a..a + |Trim(s)|]
    ensures forall i :: 0 <= i < a ==> IsJsWhitespace(s[i])
    ensures forall i :: a + |Trim(s)| <= i < |s| ==> IsJsWhitespace(s[i])
  {
    var t := TrimStart(s);
    var r := TrimEnd(t);
    a := |s| - |t|;
    assert r == t[..|r|] && t == s[a..];
    forall i | a + |r| <= i < |s| ensures IsJsWhitespace(s[i]) {
      assert s[i] == t[i - a];
    }
  }

  /** Trimming twice is trimming once. */
  lemma TrimIdempotent(s: JsString)
    ensures Trim(Trim(s)) == Trim(s)
  {
    var r := Trim(s);
    assert TrimStart(r) == r;
    assert TrimEnd(r) == r;
  }

  /** Trimming does not change a string that starts and ends with a visible unit. */
  lemma TrimUnpadded(s: JsString)
    requires s != [] && !IsJsWhitespace(s[0]) && !IsJsWhitespace(s[|s| - 1])
    ensures Trim(s) == s
  {
  }

  predicate StartsWith(s: JsString, prefix: JsString) {
    |prefix| <= |s| && s[..|prefix|] == prefix
  }

  predicate EndsWith(s: JsString, suffix: JsString) {
    |suffix| <= |s| && s[|s| - |suffix|..] == suffix
  }

  /** String.prototype.includes. */
  predicate Includes(s: JsString, sub: JsString)
    decreases |s|
  {
    StartsWith(s, sub) || (s != [] && Includes(s[1..], sub))
  }

  /** `includes` finds `sub` wherever it occurs. */
  lemma {:induction false} IncludesInfix(a: JsString, sub: JsString, b: JsString)
    ensures Includes(a + sub + b, sub)
  {
    if a == [] {
      assert (a + sub + b)[..|sub|] == sub;
    } else {
      assert (a + sub + b)[1..] == a[1..] + sub + b;
      IncludesInfix(a[1..], sub, b);
    }
  }

  /** `includes` succeeds only where `sub` occurs at some position. */
  lemma {:induction false} IncludesAt(s: JsString, sub: JsString) returns (i: nat)
    requires Includes(s, sub)
    ensures i + |sub| <= |s| && s[i..i + |sub|] == sub
    decreases |s|
  {
    if StartsWith(s, sub) {
      i := 0;
    } else {
      var j := IncludesAt(s[1..], sub);
      assert s[1..][j..j + |sub|] == s[j + 1..j + 1 + |sub|];
      i := j + 1;
    }
  }

  predicate IsDigit(u: int) { '0' as int <= u <= '9' as int }

  /** Number.prototype.toString for a non-negative integer: decimal digits, no leading zero. */
  function Decimal(n: nat): (r: JsString)
    ensures 0 < |r| && forall i :: 0 <= i < |r| ==> IsDigit(r[i])
    ensures |r| > 1 ==> r[0] != '0' as int
    ensures n < 10 <==> |r| == 1
  {
    if n < 10 then ['0' as int + n] else Decimal(n / 10) + ['0' as int + n % 10]
  }

  /** The value of a string of decimal digits. */
  function DigitsValue(s: JsString): nat
    requires forall i :: 0 <= i < |s| ==> IsDigit(s[i])
  {
    if s == [] then 0
    else
      var d := s[|s| - 1];
      assert IsDigit(d);
      10 * DigitsValue(s[..|s| - 1]) + (d - '0' as int)
  }

  /** Reading the decimal form back gives the number. */
  lemma {:induction false} DecimalValue(n: nat)
    ensures DigitsValue(Decimal(n)) == n
  {
    if n >= 10 {
      var d := Decimal(n);
      assert d[..|d| - 1] == Decimal(n / 10);
      DecimalValue(n / 10);
    }
  }
}
