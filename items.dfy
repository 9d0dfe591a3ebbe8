/**
 * The records the pages keep in their histories, and the content that a
 * share link carries for each (every field but the id and the timestamp).
 */
module Items {
  import opened Wrappers
  import opened JsStrings

  /** A condoleance (src/types/index.ts) and a tongbreker (js/storage.js) share this shape. */
  datatype TextItem = TextItem(id: JsString, text: JsString, createdAt: JsString)

  type Condoleance = TextItem
  type Tongbreker = TextItem

  /** `moeilijkheidsgraad` is one of 'lichte-mislukking', 'gure-ramp', 'volledige-catastrofe' when the page made it. */
  datatype Draaiboek = Draaiboek(id: JsString, taak: JsString, draaiboek: JsString, moeilijkheidsgraad: JsString, createdAt: JsString)

  /** `lengte` is one of 'kort', 'normaal', 'episch' when the page made it. */
  datatype Excuus = Excuus(id: JsString, situatie: JsString, excuus: JsString, lengte: JsString, createdAt: JsString)

  datatype Fobie = Fobie(id: JsString, naam: JsString, beschrijving: JsString, createdAt: JsString)

  datatype Haiku = Haiku(id: JsString, text: JsString, extraHopeloosheid: bool, createdAt: JsString)

  /** The JSON objects the share links carry. */
  datatype DraaiboekContent = DraaiboekContent(taak: JsString, draaiboek: JsString, moeilijkheidsgraad: JsString)
  datatype ExcuusContent = ExcuusContent(situatie: JsString, excuus: JsString, lengte: JsString)
  datatype FobieContent = FobieContent(naam: JsString, beschrijving: JsString)
  /** `extraHopeloosheid` is None when the parsed object lacks the property. */
  datatype HaikuContent = HaikuContent(text: JsString, extraHopeloosheid: Option<bool>)
}
