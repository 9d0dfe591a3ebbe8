/**
 * The browser's btoa and atob. btoa encodes a string of 8-bit units as in
 * section 4 of RFC 4648, with '=' padding, and throws when a unit is above
 * 0xFF. atob is the forgiving-base64 decode of the WHATWG Infra standard:
 * it drops ASCII white space, accepts a missing padding, and throws on
 * anything outside the alphabet or on a length that leaves one stray
 * character. A throwing call is `None`.
 */
module Base64 {
  import opened Wrappers
  import opened JsStrings

  /** A six-bit value, one base64 character. */
  type Sextet = v: int | 0 <= v < 64

  const PadChar: CodeUnit := '=' as int

  /** A "binary string": every unit fits in one octet. */
  predicate IsBinary(s: JsString) {
    forall i :: 0 <= i < |s| ==> s[i] < 0x100
  }

  /** The alphabet of Table 1 of RFC 4648. */
  function Char(v: Sextet): (u: CodeUnit)
    ensures u != PadChar
  {
    if v < 26 then 'A' as int + v
    else if v < 52 then 'a' as int + (v - 26)
    else if v < 62 then '0' as int + (v - 52)
    else if v == 62 then '+' as int
    else '/' as int
  }

  /** The value of an alphabet character. */
  function Value(u: CodeUnit): (r: Option<Sextet>)
    ensures r.Some? ==> Char(r.value) == u
  {
    if 'A' as int <= u <= 'Z' as int then Some(u - 'A' as int)
    else if 'a' as int <= u <= 'z' as int then Some(u - 'a' as int + 26)
    else if '0' as int <= u <= '9' as int then Some(u - '0' as int + 52)
    else if u == '+' as int then Some(62)
    else if u == '/' as int then Some(63)
    else None
  }

  lemma ValueOfChar(v: Sextet)
    ensures Value(Char(v)) == Some(v)
  {
  }

  /** The sextets of a binary string, three octets to four sextets, the tail unpadded. */
  function Sextets(s: JsString): (vs: seq<Sextet>)
    requires IsBinary(s)
    ensures |vs| == 4 * (|s| / 3) + (if |s| % 3 == 0 then 0 else |s| % 3 + 1)
  {
    if |s| == 0 then []
    else
      var b0 := s[0];
      if |s| == 1 then [b0 / 4, (b0 % 4) * 16]
      else
        var b1 := s[1];
        if |s| == 2 then [b0 / 4, (b0 % 4) * 16 + b1 / 16, (b1 % 16) * 4]
        else
          var b2 := s[2];
          [b0 / 4, (b0 % 4) * 16 + b1 / 16, (b1 % 16) * 4 + b2 / 64, b2 % 64] + Sextets(s[3..])
  }

  function Chars(vs: seq<Sextet>): (r: JsString)
    ensures |r| == |vs|
    ensures forall i :: 0 <= i < |r| ==> r[i] == Char(vs[i])
  {
    if vs == [] then [] else [Char(vs[0])] + Chars(vs[1..])
  }

  /** The '=' characters that complete the last group. */
  function Padding(n: nat): (r: JsString)
    ensures forall i :: 0 <= i < |r| ==> r[i] == PadChar
  {
    if n % 3 == 1 then [PadChar, PadChar] else if n % 3 == 2 then [PadChar] else []
  }

  /** btoa: None when a unit does not fit in one octet. */
  function Btoa(s: JsString): (r: Option<JsString>)
    ensures r.Some? <==> IsBinary(s)
    ensures r.Some? ==> |r.value| % 4 == 0 && |r.value| >= |s|
  {
    if IsBinary(s) then Some(Chars(Sextets(s)) + Padding(|s|)) else None
  }

  /** ASCII white space as the Infra standard defines it: TAB, LF, FF, CR, SPACE. */
  predicate IsAsciiWhitespace(u: int) { u == 0x09 || u == 0x0A || u == 0x0C || u == 0x0D || u == 0x20 }

  function RemoveWhitespace(s: JsString): (r: JsString)
    ensures |r| <= |s|
    ensures forall i :: 0 <= i < |r| ==> !IsAsciiWhitespace(r[i])
  {
    if s == [] then []
    else if IsAsciiWhitespace(s[0]) then RemoveWhitespace(s[1..])
    else [s[0]] + RemoveWhitespace(s[1..])
  }

  /** When the length is a multiple of four, one or two trailing '=' are removed. */
  function RemovePadding(s: JsString): (r: JsString)
    ensures |s| - 2 <= |r| <= |s| && r == s[..|r|]
  {
    if |s| % 4 != 0 then s
    else if EndsWith(s, [PadChar, PadChar]) then s[..|s| - 2]
    else if EndsWith(s, [PadChar]) then s[..|s| - 1]
    else s
  }

  /** Octets from sextets, leftover bits of a short last group discarded. */
  function Octets(vs: seq<Sextet>): (r: JsString)
    requires |vs| % 4 != 1
    ensures IsBinary(r)
  {
    if |vs| == 0 then []
    else
      var v0: int, v1: int := vs[0], vs[1];
      if |vs| == 2 then [v0 * 4 + v1 / 16]
      else
        var v2: int := vs[2];
        if |vs| == 3 then [v0 * 4 + v1 / 16, (v1 % 16) * 16 + v2 / 4]
        else
          var v3: int := vs[3];
          [v0 * 4 + v1 / 16, (v1 % 16) * 16 + v2 / 4, (v2 % 4) * 64 + v3] + Octets(vs[4..])
  }

  function Values(s: JsString): (vs: seq<Sextet>)
    requires forall i :: 0 <= i < |s| ==> Value(s[i]).Some?
    ensures |vs| == |s|
    ensures forall i :: 0 <= i < |s| ==> Some(vs[i]) == Value(s[i])
  {
    if s == [] then [] else [Value(s[0]).value] + Values(s[1..])
  }

  /** atob: None when the data is not forgiving-base64. */
  function Atob(s: JsString): (r: Option<JsString>)
    ensures r.Some? ==> IsBinary(r.value)
  {
    var d := RemovePadding(RemoveWhitespace(s));
    if |d| % 4 == 1 then None
    else if exists i :: 0 <= i < |d| && Value(d[i]).None? then None
    else Some(Octets(Values(d)))
  }

  /** RemovePadding removes nothing but '='. */
  lemma RemovePaddingRemovesPads(s: JsString)
    ensures forall i :: |RemovePadding(s)| <= i < |s| ==> s[i] == PadChar
  {
  }

  /** Every unit that is not white space survives RemoveWhitespace. */
  lemma {:induction false} RemoveWhitespaceKeeps(s: JsString, i: nat)
    requires i < |s| && !IsAsciiWhitespace(s[i])
    ensures exists j :: 0 <= j < |RemoveWhitespace(s)| && RemoveWhitespace(s)[j] == s[i]
    decreases |s|
  {
    if i == 0 {
      assert RemoveWhitespace(s)[0] == s[0];
    } else {
      RemoveWhitespaceKeeps(s[1..], i - 1);
      var j :| 0 <= j < |RemoveWhitespace(s[1..])| && RemoveWhitespace(s[1..])[j] == s[i];
      if !IsAsciiWhitespace(s[0]) {
        assert RemoveWhitespace(s)[j + 1] == s[i];
      } else {
        assert RemoveWhitespace(s)[j] == s[i];
      }
    }
  }

  /**
   * atob throws exactly when, once white space and the padding are gone,
   * one character is left over in the last group or a character lies
   * outside the alphabet.
   */
  lemma AtobRefusesIff(s: JsString)
    ensures Atob(s).None? <==>
      (var d := RemovePadding(RemoveWhitespace(s));
       |d| % 4 == 1 || exists i :: 0 <= i < |d| && Value(d[i]).None?)
  {
  }

  /** A unit that is neither white space, '=' nor a base64 character makes atob throw. */
  lemma AtobRejectsForeign(s: JsString, i: nat)
    requires i < |s| && !IsAsciiWhitespace(s[i]) && s[i] != PadChar && Value(s[i]).None?
    ensures Atob(s).None?
  {
    var w := RemoveWhitespace(s);
    var d := RemovePadding(w);
    RemovePaddingRemovesPads(w);
    RemoveWhitespaceKeeps(s, i);
    var j :| 0 <= j < |w| && w[j] == s[i];
    assert j < |d| && Value(d[j]).None?;
  }

  /** Data whose length without white space leaves one stray character makes atob throw. */
  lemma AtobRejectsStray(s: JsString)
    requires |RemoveWhitespace(s)| % 4 == 1
    ensures Atob(s).None?
  {
  }

  /** Unpadded alphabet characters are accepted whenever no character is left over. */
  lemma AtobAcceptsAlphabet(s: JsString)
    requires |s| % 4 != 1 && forall i :: 0 <= i < |s| ==> Value(s[i]).Some?
    ensures Atob(s).Some?
  {
    forall i | 0 <= i < |s| ensures !IsAsciiWhitespace(s[i]) {
      assert Value(s[i]).Some?;
    }
    RemoveWhitespaceUnchanged(s);
    assert RemovePadding(s) == s by {
      if |s| % 4 == 0 && |s| > 0 {
        assert Char(Value(s[|s| - 1]).value) == s[|s| - 1];
        assert !EndsWith(s, [PadChar, PadChar]) && !EndsWith(s, [PadChar]);
      }
    }
    assert !exists i :: 0 <= i < |s| && Value(s[i]).None?;
  }

  /** btoa's output uses only the base64 alphabet and '='. */
  lemma BtoaAlphabet(s: JsString)
    requires IsBinary(s)
    ensures forall i :: 0 <= i < |Btoa(s).value| ==>
      Value(Btoa(s).value[i]).Some? || Btoa(s).value[i] == PadChar
  {
    var vs := Sextets(s);
    var r := Btoa(s).value;
    forall i | 0 <= i < |r| ensures Value(r[i]).Some? || r[i] == PadChar {
      if i < |vs| {
        ValueOfChar(vs[i]);
      }
    }
  }

  lemma RemoveWhitespaceUnchanged(s: JsString)
    requires forall i :: 0 <= i < |s| ==> !IsAsciiWhitespace(s[i])
    ensures RemoveWhitespace(s) == s
  {
    if s != [] {
      RemoveWhitespaceUnchanged(s[1..]);
      assert [s[0]] + s[1..] == s;
    }
  }

  /** Three octets survive a trip through four sextets. */
  lemma GroupRoundTrip(b0: int, b1: int, b2: int)
    requires 0 <= b0 < 0x100 && 0 <= b1 < 0x100 && 0 <= b2 < 0x100
    ensures (b0 / 4) * 4 + ((b0 % 4) * 16 + b1 / 16) / 16 == b0
    ensures (((b0 % 4) * 16 + b1 / 16) % 16) * 16 + ((b1 % 16) * 4 + b2 / 64) / 4 == b1
    ensures (((b1 % 16) * 4 + b2 / 64) % 4) * 64 + b2 % 64 == b2
  {
  }

  /** One full group of sextets decodes to its three octets, ahead of the rest. */
  lemma OctetsOfGroup(b0: int, b1: int, b2: int, vs: seq<Sextet>)
    requires 0 <= b0 < 0x100 && 0 <= b1 < 0x100 && 0 <= b2 < 0x100 && |vs| >= 4 && |vs| % 4 != 1
    requires vs[0] == b0 / 4 && vs[1] == (b0 % 4) * 16 + b1 / 16
    requires vs[2] == (b1 % 16) * 4 + b2 / 64 && vs[3] == b2 % 64
    ensures Octets(vs) == [b0, b1, b2] + Octets(vs[4..])
  {
    GroupRoundTrip(b0, b1, b2);
  }

  lemma {:induction false} OctetsOfSextets(s: JsString)
    requires IsBinary(s)
    ensures Octets(Sextets(s)) == s
    decreases |s|
  {
    if |s| > 0 {
      var b0: int := s[0];
      if |s| == 1 {
        GroupRoundTrip(b0, 0, 0);
      } else if |s| == 2 {
        GroupRoundTrip(b0, s[1], 0);
      } else {
        var b1: int, b2: int := s[1], s[2];
        SextetCount(s);
        var vs := Sextets(s);
        assert vs[4..] == Sextets(s[3..]);
        OctetsOfGroup(b0, b1, b2, vs);
        OctetsOfSextets(s[3..]);
        assert s == [b0, b1, b2] + s[3..];
      }
    }
  }

  lemma {:induction false} ValuesOfChars(vs: seq<Sextet>)
    ensures forall i :: 0 <= i < |Chars(vs)| ==> Value(Chars(vs)[i]).Some?
    ensures Values(Chars(vs)) == vs
  {
    forall i | 0 <= i < |vs| ensures Value(Chars(vs)[i]) == Some(vs[i]) {
      ValueOfChar(vs[i]);
    }
  }

  /** Up to two '=' after a last character that is not '=' are exactly what RemovePadding removes. */
  lemma RemovePaddingOf(c: JsString, p: JsString)
    requires |c + p| % 4 == 0 && |p| <= 2 && forall i :: 0 <= i < |p| ==> p[i] == PadChar
    requires c == [] || c[|c| - 1] != PadChar
    requires p != [] ==> c != []
    ensures RemovePadding(c + p) == c
  {
    var e := c + p;
    if p == [] {
      assert e == c;
    } else {
      assert e[..|c|] == c;
      if |p| == 1 {
        assert e[|e| - 2] == c[|c| - 1];
      }
    }
  }

  /** Removing the padding of btoa's output leaves the alphabet characters. */
  lemma RemovePaddingOfBtoa(s: JsString)
    requires IsBinary(s)
    ensures RemovePadding(Btoa(s).value) == Chars(Sextets(s))
  {
    var c := Chars(Sextets(s));
    RemovePaddingOf(c, Padding(|s|));
  }

  lemma AtobOfChars(e: JsString, vs: seq<Sextet>)
    requires RemovePadding(RemoveWhitespace(e)) == Chars(vs) && |vs| % 4 != 1
    ensures Atob(e) == Some(Octets(vs))
  {
    var d := Chars(vs);
    ValuesOfChars(vs);
    assert !exists i :: 0 <= i < |d| && Value(d[i]).None?;
  }

  lemma BtoaNoWhitespace(s: JsString)
    requires IsBinary(s)
    ensures RemoveWhitespace(Btoa(s).value) == Btoa(s).value
  {
    var vs := Sextets(s);
    var e := Btoa(s).value;
    forall i | 0 <= i < |e| ensures !IsAsciiWhitespace(e[i]) {
      if i < |vs| {
        assert e[i] == Char(vs[i]);
      } else {
        assert e[i] == PadChar;
      }
    }
    RemoveWhitespaceUnchanged(e);
  }

  /** btoa never leaves a single character in a last group. */
  lemma {:induction false} SextetCount(s: JsString)
    requires IsBinary(s)
    ensures |Sextets(s)| % 4 != 1
    decreases |s|
  {
    if |s| >= 3 {
      assert Sextets(s)[4..] == Sextets(s[3..]);
      SextetCount(s[3..]);
    }
  }

  /** atob undoes btoa. */
  lemma AtobBtoa(s: JsString)
    requires IsBinary(s)
    ensures Atob(Btoa(s).value) == Some(s)
  {
    var e := Btoa(s).value;
    BtoaNoWhitespace(s);
    RemovePaddingOfBtoa(s);
    SextetCount(s);
    AtobOfChars(e, Sextets(s));
    OctetsOfSextets(s);
  }
}
