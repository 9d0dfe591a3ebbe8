/**
 * JSON.stringify and JSON.parse, taken abstractly. Only the laws the share
 * links rely on are stated: stringify's output is a non-empty, well-formed
 * string (JSON.stringify escapes lone surrogates), and parse undoes it.
 * `parse` yields None where JSON.parse throws or the parsed value is `null`.
 */
module JsonCodec {
  import opened Wrappers
  import opened JsStrings

  datatype Codec<!T> = Codec(stringify: T -> JsString, parse: JsString -> Option<T>)

  /** `parse` is a left inverse of `stringify`. */
  ghost predicate Lawful<T(!new)>(c: Codec<T>) {
    forall v :: WellFormed(c.stringify(v)) && |c.stringify(v)| > 0 && c.parse(c.stringify(v)) == Some(v)
  }
}
