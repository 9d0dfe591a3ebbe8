/**
 * The key input the condoleance page shows (src/components/ApiKeyInput.tsx):
 * its text field and its error line. Saving hands the trimmed key to the
 * page only when it passes `validateApiKey`; the page's own handler is the
 * caller's next step and is modelled with each page.
 */
module ApiKeyForm {
  import opened Wrappers
  import opened JsStrings
  import opened ApiKey

  const EmptyKeyError: JsString := Str("Voer een API key in")
  const BadFormatError: JsString :=
    Str("Ongeldige API key formaat. ") + Str("Gemini keys beginnen met \"AIza\"")

  /** What `handleSave` decides on: a blank text trims to nothing, and a key valid once trimmed was valid before. */
  lemma SaveVerdict(text: JsString)
    ensures Trim(text) == [] <==> IsBlank(text)
    ensures ValidateApiKey(Trim(text)) ==> ValidateApiKey(text) && !IsBlank(Trim(text))
  {
    ValidateApiKeyTrimmed(text);
    if ValidateApiKey(Trim(text)) {
      ValidKeyNotBlank(Trim(text));
    }
  }

  class ApiKeyInput {
    /** The field's text, as typed. */
    var text: JsString
    /** The error line; empty when none is shown. */
    var error: JsString

    constructor()
      ensures text == [] && error == []
    {
      text := [];
      error := [];
    }

    /** The field's `onChange`: new text, and any error goes away. */
    method Edit(value: JsString)
      modifies this
      ensures text == value && error == []
    {
      text := value;
      error := [];
    }

    /**
     * `handleSave`: a blank field shows the empty-key error, a key of the
     * wrong form the format error, and both keep the text; a valid key is
     * handed on trimmed (`saved`) and the field and the error are cleared.
     */
    method HandleSave() returns (saved: Option<JsString>)
      modifies this
      ensures saved.Some? <==> ValidateApiKey(Trim(old(text)))
      ensures saved.Some? ==>
        saved.value == Trim(old(text)) && ValidateApiKey(old(text)) && !IsBlank(saved.value)
        && text == [] && error == []
      ensures saved.None? ==>
        text == old(text) && error == (if IsBlank(old(text)) then EmptyKeyError else BadFormatError)
    {
      var trimmed := Trim(text);
      SaveVerdict(text);
      if trimmed == [] {
        error := EmptyKeyError;
        return None;
      }
      if !ValidateApiKey(trimmed) {
        error := BadFormatError;
        return None;
      }
      saved := Some(trimmed);
      text := [];
      error := [];
    }
  }
}
