/**
 * Share links for draaiboeken (src/utils/draaiboekUrl.ts): the `d` query parameter
 * carries the token of the JSON object {taak, draaiboek, moeilijkheidsgraad}.
 * Decoding does not check the fields; whatever JSON.parse yields is used.
 */
module DraaiboekUrl {
  import opened Wrappers
  import opened JsStrings
  import opened Items
  import UriComponent
  import ShareToken
  import SearchParams
  import JsonCodec

  const Param: JsString := Str("d")
  const Query: JsString := Str("?d=")

  /** encodeDraaiboek: the token of the JSON object, '' where encoding throws. */
  function EncodeDraaiboek(codec: JsonCodec.Codec<DraaiboekContent>, taak: JsString, draaiboek: JsString, moeilijkheidsgraad: JsString): (token: JsString)
    ensures forall i :: 0 <= i < |token| ==>
      UriComponent.IsAsciiAlnum(token[i]) || token[i] == UriComponent.Percent
    ensures JsonCodec.Lawful(codec) ==> token != []
  {
    ShareToken.EncodeAlphabet(codec.stringify(DraaiboekContent(taak, draaiboek, moeilijkheidsgraad)));
    ShareToken.EncodeValue(codec, DraaiboekContent(taak, draaiboek, moeilijkheidsgraad))
  }

  /** decodeDraaiboek: the parsed object, None where a decoding step or JSON.parse throws. */
  function DecodeDraaiboek(codec: JsonCodec.Codec<DraaiboekContent>, token: JsString): (r: Option<DraaiboekContent>)
    ensures JsonCodec.Lawful(codec) ==>
      forall taak, draaiboek, moeilijkheidsgraad :: token == EncodeDraaiboek(codec, taak, draaiboek, moeilijkheidsgraad) ==> r == Some(DraaiboekContent(taak, draaiboek, moeilijkheidsgraad))
  {
    assert JsonCodec.Lawful(codec) ==>
      forall taak, draaiboek, moeilijkheidsgraad :: token == EncodeDraaiboek(codec, taak, draaiboek, moeilijkheidsgraad) ==>
        ShareToken.DecodeValue(codec, token) == Some(DraaiboekContent(taak, draaiboek, moeilijkheidsgraad)) by {
      if JsonCodec.Lawful(codec) {
        forall taak, draaiboek, moeilijkheidsgraad | token == EncodeDraaiboek(codec, taak, draaiboek, moeilijkheidsgraad) {
          ShareToken.DecodeEncodeValue(codec, DraaiboekContent(taak, draaiboek, moeilijkheidsgraad));
        }
      }
    }
    ShareToken.DecodeValue(codec, token)
  }

  /** createDraaiboekShareUrl: the page's address without its query, then `?d=` and the token of the content. */
  function CreateDraaiboekShareUrl(codec: JsonCodec.Codec<DraaiboekContent>, baseUrl: JsString, d: Draaiboek): (url: JsString)
    ensures StartsWith(url, baseUrl + Query)
    ensures JsonCodec.Lawful(codec) ==>
      DecodeDraaiboek(codec, url[|baseUrl + Query|..]) == Some(DraaiboekContent(d.taak, d.draaiboek, d.moeilijkheidsgraad))
  {
    var url := baseUrl + Query + EncodeDraaiboek(codec, d.taak, d.draaiboek, d.moeilijkheidsgraad);
    assert url[|baseUrl + Query|..] == EncodeDraaiboek(codec, d.taak, d.draaiboek, d.moeilijkheidsgraad);
    url
  }

  /**
   * getDraaiboekFromUrl over the page's query parameters: None when `d` is missing
   * or empty or decoding fails; otherwise the content with the given fresh id
   * and timestamp.
   */
  function GetDraaiboekFromUrl(codec: JsonCodec.Codec<DraaiboekContent>, params: SearchParams.Params, id: JsString, now: JsString): (r: Option<Draaiboek>)
    ensures SearchParams.Get(params, Param) in {None, Some([])} ==> r.None?
    ensures r.Some? <==>
      (SearchParams.Get(params, Param).Some? && SearchParams.Get(params, Param).value != []
       && DecodeDraaiboek(codec, SearchParams.Get(params, Param).value).Some?)
    ensures r.Some? ==>
      (r.value.id == id && r.value.createdAt == now
       && DecodeDraaiboek(codec, SearchParams.Get(params, Param).value) == Some(DraaiboekContent(r.value.taak, r.value.draaiboek, r.value.moeilijkheidsgraad)))
  {
    match SearchParams.Get(params, Param)
    case None => None
    case Some(encoded) =>
      if encoded == [] then None
      else
        match DecodeDraaiboek(codec, encoded)
        case None => None
        case Some(data) => Some(Draaiboek(id, data.taak, data.draaiboek, data.moeilijkheidsgraad, now))
  }

  /**
   * A shared link gives back the shared content under a fresh id and
   * timestamp, whether the query value reaches the page as the token or
   * percent-decoded once.
   */
  lemma ShareRoundTrip(codec: JsonCodec.Codec<DraaiboekContent>, baseUrl: JsString, d: Draaiboek, params: SearchParams.Params, id: JsString, now: JsString)
    requires JsonCodec.Lawful(codec)
    requires var token := CreateDraaiboekShareUrl(codec, baseUrl, d)[|baseUrl + Query|..];
      SearchParams.Get(params, Param) in {Some(token), UriComponent.Decode(token)}
    ensures GetDraaiboekFromUrl(codec, params, id, now) == Some(d.(id := id, createdAt := now))
  {
    var token := CreateDraaiboekShareUrl(codec, baseUrl, d)[|baseUrl + Query|..];
    assert token == EncodeDraaiboek(codec, d.taak, d.draaiboek, d.moeilijkheidsgraad);
    ShareToken.DecodeEncodeValue(codec, DraaiboekContent(d.taak, d.draaiboek, d.moeilijkheidsgraad));
  }
}
