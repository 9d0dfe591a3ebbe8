/**
 * The identifier generator of js/storage.js: the template
 * xxxxxxxx-xxxx-4xxx-yxxx-xxxxxxxxxxxx in which every `x` becomes a random
 * lower-case hexadecimal digit and the `y` a digit with its two high bits
 * forced to 10 (`r & 0x3 | 0x8`), the layout of a version-4 UUID. The random
 * draws are a parameter: `draws[i]` is the value drawn for position `i`
 * (only the positions of `x` and `y` use theirs).
 */
module IdTemplate {
  import opened JsStrings

  /** The value `Math.random() * 16 | 0` yields. */
  type Nibble = n: int | 0 <= n < 16

  const Template: JsString := Str("xxxxxxxx-xxxx-4xxx-yxxx-xxxxxxxxxxxx")

  /** `Number.prototype.toString(16)` of a nibble: one lower-case digit. */
  function LowerHex(n: Nibble): CodeUnit {
    if n < 10 then '0' as int + n else 'a' as int + (n - 10)
  }

  predicate IsLowerHex(u: int) { '0' as int <= u <= '9' as int || 'a' as int <= u <= 'f' as int }

  /** The value of a lower-case hexadecimal digit. */
  function LowerHexValue(u: int): Nibble
    requires IsLowerHex(u)
  {
    if u <= '9' as int then u - '0' as int else u - 'a' as int + 10
  }

  /** What the replacement callback returns for one template unit. */
  function Substitute(c: CodeUnit, r: Nibble): CodeUnit {
    if c == 'x' as int then LowerHex(r)
    else if c == 'y' as int then LowerHex(r % 4 + 8)
    else c
  }

  function GenerateId(draws: seq<Nibble>): (id: JsString)
    requires |draws| == |Template|
    ensures |id| == |Template|
    ensures forall i :: 0 <= i < |id| ==> id[i] == Substitute(Template[i], draws[i])
  {
    seq(|Template|, i requires 0 <= i < |Template| => Substitute(Template[i], draws[i]))
  }

  /** The variant digit of a version-4 UUID: one of 8 9 a b. */
  predicate IsVariantDigit(u: int) { u == '8' as int || u == '9' as int || u == 'a' as int || u == 'b' as int }

  /** The textual shape of a version-4 UUID in lower case. */
  predicate IsUuidV4(s: JsString) {
    |s| == 36
    && (forall i :: 0 <= i < 36 && (i == 8 || i == 13 || i == 18 || i == 23) ==> s[i] == '-' as int)
    && s[14] == '4' as int
    && IsVariantDigit(s[19])
    && (forall i :: 0 <= i < 36 && i != 8 && i != 13 && i != 14 && i != 18 && i != 19 && i != 23 ==> IsLowerHex(s[i]))
  }

  /** Whatever is drawn, the identifier has the version-4 UUID shape. */
  lemma GenerateIdShape(draws: seq<Nibble>)
    requires |draws| == |Template|
    ensures IsUuidV4(GenerateId(draws))
  {
    var id := GenerateId(draws);
    forall i | 0 <= i < 36
      ensures Template[i] == (if i == 8 || i == 13 || i == 18 || i == 23 then '-' as int
        else if i == 14 then '4' as int else if i == 19 then 'y' as int else 'x' as int)
    {
    }
  }

  /** Every string of that shape is the identifier of some draws. */
  lemma GenerateIdOnto(s: JsString) returns (draws: seq<Nibble>)
    requires IsUuidV4(s)
    ensures |draws| == |Template| && GenerateId(draws) == s
  {
    draws := seq(36, i requires 0 <= i < 36 =>
      if i == 8 || i == 13 || i == 14 || i == 18 || i == 23 then 0
      else if i == 19 then LowerHexValue(s[19]) - 8
      else LowerHexValue(s[i]));
    var id := GenerateId(draws);
    forall i | 0 <= i < 36 ensures id[i] == s[i] {
      if i == 8 || i == 13 || i == 18 || i == 23 {
        assert Template[i] == '-' as int;
      } else if i == 14 {
        assert Template[i] == '4' as int;
      } else if i == 19 {
        assert Template[i] == 'y' as int;
      } else {
        assert Template[i] == 'x' as int;
      }
    }
  }
}
