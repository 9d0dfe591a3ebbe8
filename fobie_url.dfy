/**
 * Share links for fobieen (src/utils/fobieUrl.ts): the `f` query parameter
 * carries the token of the JSON object {naam, beschrijving}.
 * Decoding does not check the fields; whatever JSON.parse yields is used.
 */
module FobieUrl {
  import opened Wrappers
  import opened JsStrings
  import opened Items
  import UriComponent
  import ShareToken
  import SearchParams
  import JsonCodec

  const Param: JsString := Str("f")
  const Query: JsString := Str("?f=")

  /** encodeFobie: the token of the JSON object, '' where encoding throws. */
  function EncodeFobie(codec: JsonCodec.Codec<FobieContent>, naam: JsString, beschrijving: JsString): (token: JsString)
    ensures forall i :: 0 <= i < |token| ==>
      UriComponent.IsAsciiAlnum(token[i]) || token[i] == UriComponent.Percent
    ensures JsonCodec.Lawful(codec) ==> token != []
  {
    ShareToken.EncodeAlphabet(codec.stringify(FobieContent(naam, beschrijving)));
    ShareToken.EncodeValue(codec, FobieContent(naam, beschrijving))
  }

  /** decodeFobie: the parsed object, None where a decoding step or JSON.parse throws. */
  function DecodeFobie(codec: JsonCodec.Codec<FobieContent>, token: JsString): (r: Option<FobieContent>)
    ensures JsonCodec.Lawful(codec) ==>
      forall naam, beschrijving :: token == EncodeFobie(codec, naam, beschrijving) ==> r == Some(FobieContent(naam, beschrijving))
  {
    assert JsonCodec.Lawful(codec) ==>
      forall naam, beschrijving :: token == EncodeFobie(codec, naam, beschrijving) ==>
        ShareToken.DecodeValue(codec, token) == Some(FobieContent(naam, beschrijving)) by {
      if JsonCodec.Lawful(codec) {
        forall naam, beschrijving | token == EncodeFobie(codec, naam, beschrijving) {
          ShareToken.DecodeEncodeValue(codec, FobieContent(naam, beschrijving));
        }
      }
    }
    ShareToken.DecodeValue(codec, token)
  }

  /** createFobieShareUrl: the page's address without its query, then `?f=` and the token of the content. */
  function CreateFobieShareUrl(codec: JsonCodec.Codec<FobieContent>, baseUrl: JsString, d: Fobie): (url: JsString)
    ensures StartsWith(url, baseUrl + Query)
    ensures JsonCodec.Lawful(codec) ==>
      DecodeFobie(codec, url[|baseUrl + Query|..]) == Some(FobieContent(d.naam, d.beschrijving))
  {
    var url := baseUrl + Query + EncodeFobie(codec, d.naam, d.beschrijving);
    assert url[|baseUrl + Query|..] == EncodeFobie(codec, d.naam, d.beschrijving);
    url
  }

  /**
   * getFobieFromUrl over the page's query parameters: None when `f` is missing
   * or empty or decoding fails; otherwise the content with the given fresh id
   * and timestamp.
   */
  function GetFobieFromUrl(codec: JsonCodec.Codec<FobieContent>, params: SearchParams.Params, id: JsString, now: JsString): (r: Option<Fobie>)
    ensures SearchParams.Get(params, Param) in {None, Some([])} ==> r.None?
    ensures r.Some? <==>
      (SearchParams.Get(params, Param).Some? && SearchParams.Get(params, Param).value != []
       && DecodeFobie(codec, SearchParams.Get(params, Param).value).Some?)
    ensures r.Some? ==>
      (r.value.id == id && r.value.createdAt == now
       && DecodeFobie(codec, SearchParams.Get(params, Param).value) == Some(FobieContent(r.value.naam, r.value.beschrijving)))
  {
    match SearchParams.Get(params, Param)
    case None => None
    case Some(encoded) =>
      if encoded == [] then None
      else
        match DecodeFobie(codec, encoded)
        case None => None
        case Some(data) => Some(Fobie(id, data.naam, data.beschrijving, now))
  }

  /**
   * A shared link gives back the shared content under a fresh id and
   * timestamp, whether the query value reaches the page as the token or
   * percent-decoded once.
   */
  lemma ShareRoundTrip(codec: JsonCodec.Codec<FobieContent>, baseUrl: JsString, d: Fobie, params: SearchParams.Params, id: JsString, now: JsString)
    requires JsonCodec.Lawful(codec)
    requires var token := CreateFobieShareUrl(codec, baseUrl, d)[|baseUrl + Query|..];
      SearchParams.Get(params, Param) in {Some(token), UriComponent.Decode(token)}
    ensures GetFobieFromUrl(codec, params, id, now) == Some(d.(id := id, createdAt := now))
  {
    var token := CreateFobieShareUrl(codec, baseUrl, d)[|baseUrl + Query|..];
    assert token == EncodeFobie(codec, d.naam, d.beschrijving);
    ShareToken.DecodeEncodeValue(codec, FobieContent(d.naam, d.beschrijving));
  }
}
