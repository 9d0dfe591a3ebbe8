/**
 * The share-link token: encodeURIComponent(btoa(encodeURIComponent(payload))).
 * The inner layer (btoa of the percent-encoded payload) is the haiku link's
 * whole token. Encoding yields '' where a step throws; decoding yields None.
 */
module ShareToken {
  import opened Wrappers
  import opened JsStrings
  import UriComponent
  import Base64
  import JsonCodec

  /** btoa(encodeURIComponent(payload)); None where either call throws. */
  function EncodeInner(payload: JsString): Option<JsString> {
    match UriComponent.Encode(payload)
    case None => None
    case Some(e) => Base64.Btoa(e)
  }

  /** decodeURIComponent(atob(b)); None where either call throws. */
  function DecodeInner(b: JsString): Option<JsString> {
    match Base64.Atob(b)
    case None => None
    case Some(e) => UriComponent.Decode(e)
  }

  /** The three-layer token; '' where encoding throws. */
  function Encode(payload: JsString): (token: JsString)
    ensures token != [] ==> |token| >= |payload|
  {
    assert EncodeInner(payload).Some? ==> |EncodeInner(payload).value| >= |payload| by {
      UriComponent.EncodeSucceedsIffWellFormed(payload);
      if WellFormed(payload) {
        EncodeInnerDefined(payload);
      }
    }
    match EncodeInner(payload)
    case None => []
    case Some(b) => UriComponent.Encode(b).GetOr([])
  }

  /**
   * decodeURIComponent(atob(decodeURIComponent(token))); None where a call
   * throws. A token without '%' passes the outer layer unchanged.
   */
  function Decode(token: JsString): (r: Option<JsString>)
    ensures (forall i :: 0 <= i < |token| ==> token[i] != UriComponent.Percent) ==> r == DecodeInner(token)
  {
    assert (forall i :: 0 <= i < |token| ==> token[i] != UriComponent.Percent) ==>
      UriComponent.Decode(token) == Some(token) by {
      if forall i :: 0 <= i < |token| ==> token[i] != UriComponent.Percent {
        UriComponent.DecodeWithoutPercent(token);
      }
    }
    match UriComponent.Decode(token)
    case None => None
    case Some(b) => DecodeInner(b)
  }

  /** A base64 character or '='. */
  predicate IsBase64Output(u: int) {
    (0 <= u < 0x1_0000 && Base64.Value(u).Some?) || u == Base64.PadChar
  }

  /** The inner layer succeeds on every well-formed payload and yields base64 text. */
  lemma EncodeInnerDefined(payload: JsString)
    requires WellFormed(payload)
    ensures EncodeInner(payload).Some?
    ensures var b := EncodeInner(payload).value;
      |b| >= |payload| && forall i :: 0 <= i < |b| ==> IsBase64Output(b[i])
  {
    UriComponent.EncodeSucceedsIffWellFormed(payload);
    var e := UriComponent.Encode(payload).value;
    UriComponent.EncodeAlphabet(payload);
    assert Base64.IsBinary(e) by {
      forall i | 0 <= i < |e| ensures e[i] < 0x100 {
        assert UriComponent.IsUnreserved(e[i]) || e[i] == UriComponent.Percent;
      }
    }
    Base64.BtoaAlphabet(e);
  }

  /** The inner layer round-trips every well-formed payload. */
  lemma DecodeEncodeInner(payload: JsString)
    requires WellFormed(payload)
    ensures EncodeInner(payload).Some? && DecodeInner(EncodeInner(payload).value) == Some(payload)
  {
    EncodeInnerDefined(payload);
    UriComponent.DecodeEncode(payload);
    UriComponent.EncodeAlphabet(payload);
    Base64.AtobBtoa(UriComponent.Encode(payload).value);
  }

  /** Base64 text has no surrogate, no '%', and only letters and digits among the unreserved units. */
  lemma Base64TextFacts(b: JsString)
    requires forall i :: 0 <= i < |b| ==> IsBase64Output(b[i])
    ensures WellFormed(b)
    ensures forall i :: 0 <= i < |b| ==> b[i] != UriComponent.Percent
    ensures forall i :: 0 <= i < |b| ==> UriComponent.IsUnreserved(b[i]) ==> UriComponent.IsAsciiAlnum(b[i])
  {
    NoSurrogatesWellFormed(b);
  }

  /** decode(encode(payload)) == payload for every well-formed payload. */
  lemma DecodeEncode(payload: JsString)
    requires WellFormed(payload)
    ensures Decode(Encode(payload)) == Some(payload)
  {
    DecodeEncodeInner(payload);
    var b := EncodeInner(payload).value;
    EncodeInnerDefined(payload);
    Base64TextFacts(b);
    UriComponent.DecodeEncode(b);
  }

  /**
   * URLSearchParams hands the page the token already percent-decoded once;
   * decoding that form gives the payload back as well.
   */
  lemma DecodePercentDecodedToken(payload: JsString)
    requires WellFormed(payload)
    ensures UriComponent.Decode(Encode(payload)) == EncodeInner(payload)
    ensures Decode(UriComponent.Decode(Encode(payload)).value) == Some(payload)
  {
    DecodeEncodeInner(payload);
    var b := EncodeInner(payload).value;
    EncodeInnerDefined(payload);
    Base64TextFacts(b);
    UriComponent.DecodeEncode(b);
    UriComponent.DecodeWithoutPercent(b);
  }

  /** The token is made of ASCII letters, digits and '%'. */
  lemma EncodeAlphabet(payload: JsString)
    ensures forall i :: 0 <= i < |Encode(payload)| ==>
      UriComponent.IsAsciiAlnum(Encode(payload)[i]) || Encode(payload)[i] == UriComponent.Percent
  {
    if WellFormed(payload) {
      EncodeInnerDefined(payload);
      var b := EncodeInner(payload).value;
      Base64TextFacts(b);
      UriComponent.EncodeSucceedsIffWellFormed(b);
      UriComponent.EncodeAlnumAlphabet(b);
    } else {
      UriComponent.EncodeSucceedsIffWellFormed(payload);
    }
  }

  /** The token is '' exactly when the payload is '' or holds an unpaired surrogate. */
  lemma EncodeEmptyIff(payload: JsString)
    ensures Encode(payload) == [] <==> payload == [] || !WellFormed(payload)
  {
    UriComponent.EncodeSucceedsIffWellFormed(payload);
    if WellFormed(payload) {
      EncodeInnerDefined(payload);
      var b := EncodeInner(payload).value;
      Base64TextFacts(b);
      UriComponent.EncodeSucceedsIffWellFormed(b);
    }
  }

  /** The token of a JSON value: the three layers over JSON.stringify. */
  function EncodeValue<T(!new)>(codec: JsonCodec.Codec<T>, v: T): (token: JsString)
    ensures JsonCodec.Lawful(codec) ==> |token| > 0
  {
    var json := codec.stringify(v);
    assert JsonCodec.Lawful(codec) ==> |Encode(json)| > 0 by {
      EncodeEmptyIff(json);
    }
    Encode(json)
  }

  /** JSON.parse over the decoded token; None where a step throws or parses to null. */
  function DecodeValue<T(!new)>(codec: JsonCodec.Codec<T>, token: JsString): Option<T> {
    match Decode(token)
    case None => None
    case Some(json) => codec.parse(json)
  }

  /** With a lawful JSON codec, a value survives its token, raw or percent-decoded once. */
  lemma DecodeEncodeValue<T(!new)>(codec: JsonCodec.Codec<T>, v: T)
    requires JsonCodec.Lawful(codec)
    ensures DecodeValue(codec, EncodeValue(codec, v)) == Some(v)
    ensures UriComponent.Decode(EncodeValue(codec, v)).Some?
    ensures var once := UriComponent.Decode(EncodeValue(codec, v)).value;
      |once| > 0 && DecodeValue(codec, once) == Some(v)
  {
    var json := codec.stringify(v);
    DecodeEncode(json);
    DecodePercentDecodedToken(json);
    EncodeInnerDefined(json);
  }
}
