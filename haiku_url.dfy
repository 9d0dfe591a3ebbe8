/**
 * Share links for haikus (src/utils/haikuUrl.ts). The token is
 * btoa(encodeURIComponent(JSON.stringify({text, extraHopeloosheid}))), with no
 * outer percent layer, set as the `h` parameter of the current address.
 */
module HaikuUrl {
  import opened Wrappers
  import opened JsStrings
  import opened Items
  import ShareToken
  import SearchParams
  import JsonCodec

  const Param: JsString := Str("h")

  /** A page address: everything but the query, and the query's pairs. */
  datatype Location = Location(base: JsString, params: SearchParams.Params)

  /**
   * createHaikuShareUrl: the current address with `h` set to the token;
   * None where encoding throws (the source does not catch it).
   */
  function CreateHaikuShareUrl(codec: JsonCodec.Codec<HaikuContent>, here: Location, h: Haiku): (r: Option<Location>)
    ensures JsonCodec.Lawful(codec) ==> r.Some?
    ensures r.Some? <==> ShareToken.EncodeInner(codec.stringify(HaikuContent(h.text, Some(h.extraHopeloosheid)))).Some?
    ensures r.Some? ==>
      (r.value.base == here.base
       && SearchParams.Get(r.value.params, Param)
          == ShareToken.EncodeInner(codec.stringify(HaikuContent(h.text, Some(h.extraHopeloosheid))))
       && forall other :: other != Param ==>
            SearchParams.Get(r.value.params, other) == SearchParams.Get(here.params, other))
  {
    var json := codec.stringify(HaikuContent(h.text, Some(h.extraHopeloosheid)));
    assert JsonCodec.Lawful(codec) ==> ShareToken.EncodeInner(json).Some? by {
      if JsonCodec.Lawful(codec) {
        ShareToken.EncodeInnerDefined(json);
      }
    }
    match ShareToken.EncodeInner(json)
    case None => None
    case Some(token) =>
      var ps := SearchParams.Set(here.params, Param, token);
      SearchParams.GetAfterSet(here.params, Param, token);
      assert forall other :: other != Param ==> SearchParams.Get(ps, other) == SearchParams.Get(here.params, other) by {
        forall other | other != Param {
          SearchParams.GetOtherAfterSet(here.params, Param, token, other);
        }
      }
      Some(Location(here.base, ps))
  }

  /**
   * getHaikuFromUrl over the page's query parameters: None when `h` is missing
   * or empty, or when atob, decodeURIComponent or JSON.parse throws; a missing
   * or false `extraHopeloosheid` becomes false.
   */
  function GetHaikuFromUrl(codec: JsonCodec.Codec<HaikuContent>, params: SearchParams.Params, id: JsString, now: JsString): (r: Option<Haiku>)
    ensures SearchParams.Get(params, Param) in {None, Some([])} ==> r.None?
    ensures r.Some? <==>
      (var e := SearchParams.Get(params, Param);
       e.Some? && e.value != [] && ShareToken.DecodeInner(e.value).Some?
       && codec.parse(ShareToken.DecodeInner(e.value).value).Some?)
    ensures r.Some? ==>
      (var data := codec.parse(ShareToken.DecodeInner(SearchParams.Get(params, Param).value).value).value;
       r.value.id == id && r.value.createdAt == now
       && r.value.text == data.text
       && r.value.extraHopeloosheid == (data.extraHopeloosheid == Some(true)))
  {
    match SearchParams.Get(params, Param)
    case None => None
    case Some(encoded) =>
      if encoded == [] then None
      else
        match ShareToken.DecodeInner(encoded)
        case None => None
        case Some(json) =>
          match codec.parse(json)
          case None => None
          case Some(data) => Some(Haiku(id, data.text, data.extraHopeloosheid == Some(true), now))
  }

  /** A flag the parsed object lacks, or holds as false, reads as false. */
  lemma MissingFlagReadsFalse(codec: JsonCodec.Codec<HaikuContent>, params: SearchParams.Params, id: JsString, now: JsString)
    requires var enc := SearchParams.Get(params, Param);
      enc.Some? && ShareToken.DecodeInner(enc.value).Some?
      && codec.parse(ShareToken.DecodeInner(enc.value).value).Some?
      && codec.parse(ShareToken.DecodeInner(enc.value).value).value.extraHopeloosheid in {None, Some(false)}
    ensures GetHaikuFromUrl(codec, params, id, now).Some? ==> !GetHaikuFromUrl(codec, params, id, now).value.extraHopeloosheid
  {
  }

  /** Reading back a link made by createHaikuShareUrl yields the same text and flag. */
  lemma ShareRoundTrip(codec: JsonCodec.Codec<HaikuContent>, here: Location, h: Haiku, id: JsString, now: JsString)
    requires JsonCodec.Lawful(codec)
    ensures CreateHaikuShareUrl(codec, here, h).Some?
    ensures GetHaikuFromUrl(codec, CreateHaikuShareUrl(codec, here, h).value.params, id, now)
      == Some(Haiku(id, h.text, h.extraHopeloosheid, now))
  {
    var json := codec.stringify(HaikuContent(h.text, Some(h.extraHopeloosheid)));
    ShareToken.DecodeEncodeInner(json);
    ShareToken.EncodeInnerDefined(json);
    var token := ShareToken.EncodeInner(json).value;
    SearchParams.GetAfterSet(here.params, Param, token);
  }
}
