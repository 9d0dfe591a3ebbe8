/**
 * Share links for excuses (src/utils/excuusUrl.ts): the `e` query parameter
 * carries the token of the JSON object {situatie, excuus, lengte}.
 * Decoding does not check the fields; whatever JSON.parse yields is used.
 */
module ExcuusUrl {
  import opened Wrappers
  import opened JsStrings
  import opened Items
  import UriComponent
  import ShareToken
  import SearchParams
  import JsonCodec

  const Param: JsString := Str("e")
  const Query: JsString := Str("?e=")

  /** encodeExcuus: the token of the JSON object, '' where encoding throws. */
  function EncodeExcuus(codec: JsonCodec.Codec<ExcuusContent>, situatie: JsString, excuus: JsString, lengte: JsString): (token: JsString)
    ensures forall i :: 0 <= i < |token| ==>
      UriComponent.IsAsciiAlnum(token[i]) || token[i] == UriComponent.Percent
    ensures JsonCodec.Lawful(codec) ==> token != []
  {
    ShareToken.EncodeAlphabet(codec.stringify(ExcuusContent(situatie, excuus, lengte)));
    ShareToken.EncodeValue(codec, ExcuusContent(situatie, excuus, lengte))
  }

  /** decodeExcuus: the parsed object, None where a decoding step or JSON.parse throws. */
  function DecodeExcuus(codec: JsonCodec.Codec<ExcuusContent>, token: JsString): (r: Option<ExcuusContent>)
    ensures JsonCodec.Lawful(codec) ==>
      forall situatie, excuus, lengte :: token == EncodeExcuus(codec, situatie, excuus, lengte) ==> r == Some(ExcuusContent(situatie, excuus, lengte))
  {
    assert JsonCodec.Lawful(codec) ==>
      forall situatie, excuus, lengte :: token == EncodeExcuus(codec, situatie, excuus, lengte) ==>
        ShareToken.DecodeValue(codec, token) == Some(ExcuusContent(situatie, excuus, lengte)) by {
      if JsonCodec.Lawful(codec) {
        forall situatie, excuus, lengte | token == EncodeExcuus(codec, situatie, excuus, lengte) {
          ShareToken.DecodeEncodeValue(codec, ExcuusContent(situatie, excuus, lengte));
        }
      }
    }
    ShareToken.DecodeValue(codec, token)
  }

  /** createExcuusShareUrl: the page's address without its query, then `?e=` and the token of the content. */
  function CreateExcuusShareUrl(codec: JsonCodec.Codec<ExcuusContent>, baseUrl: JsString, d: Excuus): (url: JsString)
    ensures StartsWith(url, baseUrl + Query)
    ensures JsonCodec.Lawful(codec) ==>
      DecodeExcuus(codec, url[|baseUrl + Query|..]) == Some(ExcuusContent(d.situatie, d.excuus, d.lengte))
  {
    var url := baseUrl + Query + EncodeExcuus(codec, d.situatie, d.excuus, d.lengte);
    assert url[|baseUrl + Query|..] == EncodeExcuus(codec, d.situatie, d.excuus, d.lengte);
    url
  }

  /**
   * getExcuusFromUrl over the page's query parameters: None when `e` is missing
   * or empty or decoding fails; otherwise the content with the given fresh id
   * and timestamp.
   */
  function GetExcuusFromUrl(codec: JsonCodec.Codec<ExcuusContent>, params: SearchParams.Params, id: JsString, now: JsString): (r: Option<Excuus>)
    ensures SearchParams.Get(params, Param) in {None, Some([])} ==> r.None?
    ensures r.Some? <==>
      (SearchParams.Get(params, Param).Some? && SearchParams.Get(params, Param).value != []
       && DecodeExcuus(codec, SearchParams.Get(params, Param).value).Some?)
    ensures r.Some? ==>
      (r.value.id == id && r.value.createdAt == now
       && DecodeExcuus(codec, SearchParams.Get(params, Param).value) == Some(ExcuusContent(r.value.situatie, r.value.excuus, r.value.lengte)))
  {
    match SearchParams.Get(params, Param)
    case None => None
    case Some(encoded) =>
      if encoded == [] then None
      else
        match DecodeExcuus(codec, encoded)
        case None => None
        case Some(data) => Some(Excuus(id, data.situatie, data.excuus, data.lengte, now))
  }

  /**
   * A shared link gives back the shared content under a fresh id and
   * timestamp, whether the query value reaches the page as the token or
   * percent-decoded once.
   */
  lemma ShareRoundTrip(codec: JsonCodec.Codec<ExcuusContent>, baseUrl: JsString, d: Excuus, params: SearchParams.Params, id: JsString, now: JsString)
    requires JsonCodec.Lawful(codec)
    requires var token := CreateExcuusShareUrl(codec, baseUrl, d)[|baseUrl + Query|..];
      SearchParams.Get(params, Param) in {Some(token), UriComponent.Decode(token)}
    ensures GetExcuusFromUrl(codec, params, id, now) == Some(d.(id := id, createdAt := now))
  {
    var token := CreateExcuusShareUrl(codec, baseUrl, d)[|baseUrl + Query|..];
    assert token == EncodeExcuus(codec, d.situatie, d.excuus, d.lengte);
    ShareToken.DecodeEncodeValue(codec, ExcuusContent(d.situatie, d.excuus, d.lengte));
  }
}
