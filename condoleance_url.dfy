/**
 * Share links for condoleances (src/utils/url.ts): the `c` query parameter
 * carries the token of the text alone.
 */
module CondoleanceUrl {
  import opened Wrappers
  import opened JsStrings
  import opened Items
  import UriComponent
  import ShareToken
  import SearchParams

  const Param: JsString := Str("c")
  const Query: JsString := Str("?c=")

  /** encodeCondoleance: the token of the text, '' where encoding throws. */
  function EncodeCondoleance(text: JsString): (token: JsString)
    ensures forall i :: 0 <= i < |token| ==>
      UriComponent.IsAsciiAlnum(token[i]) || token[i] == UriComponent.Percent
    ensures token == [] <==> text == [] || !WellFormed(text)
  {
    ShareToken.EncodeAlphabet(text);
    ShareToken.EncodeEmptyIff(text);
    ShareToken.Encode(text)
  }

  /** decodeCondoleance: the text, None where a decoding step throws. */
  function DecodeCondoleance(token: JsString): (r: Option<JsString>)
    ensures forall text :: WellFormed(text) && token == EncodeCondoleance(text) ==> r == Some(text)
  {
    assert forall text :: WellFormed(text) && token == EncodeCondoleance(text) ==> ShareToken.Decode(token) == Some(text) by {
      forall text | WellFormed(text) && token == EncodeCondoleance(text) {
        ShareToken.DecodeEncode(text);
      }
    }
    ShareToken.Decode(token)
  }

  /** createShareUrl: the page's address without its query, then `?c=` and the token. */
  function CreateShareUrl(baseUrl: JsString, c: Condoleance): (url: JsString)
    ensures StartsWith(url, baseUrl + Query)
    ensures WellFormed(c.text) ==> DecodeCondoleance(url[|baseUrl + Query|..]) == Some(c.text)
  {
    var url := baseUrl + Query + EncodeCondoleance(c.text);
    assert url[|baseUrl + Query|..] == EncodeCondoleance(c.text);
    url
  }

  /**
   * getCondoleanceFromUrl over the page's query parameters: None when `c` is
   * missing or empty, when decoding throws, or when the text is empty;
   * otherwise the text with the given fresh id and timestamp.
   */
  function GetCondoleanceFromUrl(params: SearchParams.Params, id: JsString, now: JsString): (r: Option<Condoleance>)
    ensures SearchParams.Get(params, Param) in {None, Some([])} ==> r.None?
    ensures r.Some? <==>
      (SearchParams.Get(params, Param).Some?
       && DecodeCondoleance(SearchParams.Get(params, Param).value) !in {None, Some([])})
    ensures r.Some? ==>
      (r.value.id == id && r.value.createdAt == now && r.value.text != []
       && Some(r.value.text) == DecodeCondoleance(SearchParams.Get(params, Param).value))
  {
    match SearchParams.Get(params, Param)
    case None => None
    case Some(encoded) =>
      if encoded == [] then None
      else
        match DecodeCondoleance(encoded)
        case None => None
        case Some(text) => if text == [] then None else Some(TextItem(id, text, now))
  }

  /**
   * A shared link gives back its text under a fresh id and timestamp, whether
   * the query value reaches the page as the token or percent-decoded once.
   */
  lemma ShareRoundTrip(baseUrl: JsString, c: Condoleance, params: SearchParams.Params, id: JsString, now: JsString)
    requires WellFormed(c.text) && c.text != []
    requires var token := CreateShareUrl(baseUrl, c)[|baseUrl + Query|..];
      SearchParams.Get(params, Param) in {Some(token), UriComponent.Decode(token)}
    ensures GetCondoleanceFromUrl(params, id, now) == Some(TextItem(id, c.text, now))
  {
    var token := CreateShareUrl(baseUrl, c)[|baseUrl + Query|..];
    assert token == EncodeCondoleance(c.text);
    ShareToken.DecodePercentDecodedToken(c.text);
    ShareToken.EncodeInnerDefined(c.text);
  }
}
