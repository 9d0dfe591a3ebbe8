/**
 * The haiku page (src/pages/HopelozeHaikusPage.tsx) over the haiku store.
 * Unlike the other pages it keeps the key as the text of its input field
 * (empty at first, filled from the store at mount), shows its own error
 * line, merges a shared haiku without a duplicate test, and has no fallback
 * to a build-time key. The key text and the extraHopeloosheid checkbox are
 * set by the user between handler calls. Service replies, identifiers and
 * timestamps are parameters; a failed store write is a `writeOk` of false,
 * which the page ignores.
 */
module HaikusPage {
  import opened Wrappers
  import opened JsStrings
  import opened Items
  import opened GeminiReply
  import opened BoundedHistory
  import opened HistoryStore
  import opened PageCommon
  import StoreKeys
  import JsonCodec
  import SearchParams
  import HaikuUrl
  import Services

  const NoKeyError: JsString := Str("Voer eerst een API key in")
  const GenerateError: JsString := Str("Er ging iets mis bij het genereren") + Str(" van de haiku")

  class HopelozeHaikusPage {
    const store: Store<Haiku>
    var haikus: seq<Haiku>
    /** The key input's text; the key every generation uses. */
    var apiKey: JsString
    /** The error line; empty when none is shown. */
    var error: JsString
    var showApiInput: bool
    /** The checkbox. */
    var extraHopeloosheid: bool
    var query: SearchParams.Params

    ghost predicate Valid()
      reads this, store
    {
      store.Valid() && store.idOf == StoreKeys.HaikuId && !store.trimsKey
    }

    /** The store holds the front of the shown list. */
    ghost predicate InStep()
      reads this, store
    {
      store.Stored() <= haikus
    }

    /** The initial state: nothing shown, no key text, no error, the box unchecked. */
    constructor(store: Store<Haiku>, query: SearchParams.Params)
      requires store.Valid() && store.idOf == StoreKeys.HaikuId && !store.trimsKey
      ensures Valid()
      ensures this.store == store && this.query == query
      ensures haikus == [] && apiKey == [] && error == [] && !showApiInput && !extraHopeloosheid
    {
      this.store := store;
      this.query := query;
      haikus := [];
      apiKey := [];
      error := [];
      showApiInput := false;
      extraHopeloosheid := false;
    }

    /**
     * The mount effect: load the list; take a non-empty stored key into the
     * field, or open the key input; put a shared haiku in front (saving it)
     * whether or not the list already holds it, and clear the query.
     */
    method Mount(codec: JsonCodec.Codec<HaikuContent>, id: JsString, now: JsString, writeOk: bool)
      requires Valid()
      modifies this, store
      ensures Valid() && (writeOk ==> InStep())
      ensures Truthy(old(store.StoredKey())) ==>
        apiKey == old(store.StoredKey()).value && showApiInput == old(showApiInput)
      ensures !Truthy(old(store.StoredKey())) ==> apiKey == old(apiKey) && showApiInput
      ensures var shared := HaikuUrl.GetHaikuFromUrl(codec, old(query), id, now);
        (shared.None? ==>
          haikus == old(store.Stored()) && query == old(query) && store.slots == old(store.slots))
        && (shared.Some? ==>
          haikus == [shared.value] + old(store.Stored()) && query == []
          && store.slots ==
            (if writeOk then old(store.slots)[store.itemsKey := Items(Prepended(old(store.Stored()), shared.value))]
             else old(store.slots)))
      ensures error == old(error) && extraHopeloosheid == old(extraHopeloosheid)
    {
      haikus := store.GetItems();
      var storedKey := store.GetApiKey();
      if Truthy(storedKey) {
        apiKey := storedKey.value;
      } else {
        showApiInput := true;
      }
      TakeShared(HaikuUrl.GetHaikuFromUrl(codec, query, id, now), writeOk);
    }

    /** The shared-link part of the mount effect: a shared haiku goes in front and the query is cleared. */
    method TakeShared(shared: Option<Haiku>, writeOk: bool)
      requires Valid()
      modifies this, store
      ensures Valid()
      ensures shared.None? ==> haikus == old(haikus) && query == old(query) && store.slots == old(store.slots)
      ensures shared.Some? ==>
        haikus == [shared.value] + old(haikus) && query == []
        && store.slots ==
          (if writeOk then old(store.slots)[store.itemsKey := Items(Prepended(old(store.Stored()), shared.value))]
           else old(store.slots))
      ensures apiKey == old(apiKey) && error == old(error) && showApiInput == old(showApiInput)
      ensures extraHopeloosheid == old(extraHopeloosheid)
      ensures old(InStep()) && writeOk ==> InStep()
    {
      if shared.Some? {
        Add(shared.value, writeOk);
        query := [];
      }
    }

    /**
     * `handleGenerate`: with an empty key, show the key error and open the
     * input; otherwise clear the error, call the service with the key and
     * the checkbox, and save and prepend the haiku it returns, or show the
     * generation error whatever went wrong.
     */
    method Generate(reply: Reply, id: JsString, now: JsString, writeOk: bool)
      requires Valid()
      modifies this, store
      ensures Valid()
      ensures apiKey == old(apiKey) && extraHopeloosheid == old(extraHopeloosheid) && query == old(query)
      ensures apiKey == [] ==>
        error == NoKeyError && showApiInput && haikus == old(haikus) && store.slots == old(store.slots)
      ensures apiKey != [] ==>
        var outcome := Services.GenerateHaiku(apiKey, Some(extraHopeloosheid), reply).outcome;
        showApiInput == old(showApiInput)
        && (outcome.Success? ==>
          var h := Haiku(id, outcome.value, extraHopeloosheid, now);
          error == [] && haikus == [h] + old(haikus)
          && store.slots ==
            (if writeOk then old(store.slots)[store.itemsKey := Items(Prepended(old(store.Stored()), h))]
             else old(store.slots)))
        && (outcome.Failure? ==>
          error == GenerateError && haikus == old(haikus) && store.slots == old(store.slots))
      ensures old(InStep()) && writeOk ==> InStep()
    {
      if apiKey == [] {
        error := NoKeyError;
        showApiInput := true;
        return;
      }
      error := [];
      Settle(Services.GenerateHaiku(apiKey, Some(extraHopeloosheid), reply).outcome, id, now, writeOk);
    }

    /** The `try` block after the call: keep the haiku, or show the generation error. */
    method Settle(outcome: Outcome<JsString>, id: JsString, now: JsString, writeOk: bool)
      requires Valid()
      modifies this, store
      ensures Valid()
      ensures apiKey == old(apiKey) && extraHopeloosheid == old(extraHopeloosheid) && query == old(query)
      ensures showApiInput == old(showApiInput)
      ensures outcome.Success? ==>
        var h := Haiku(id, outcome.value, extraHopeloosheid, now);
        error == old(error) && haikus == [h] + old(haikus)
        && store.slots ==
          (if writeOk then old(store.slots)[store.itemsKey := Items(Prepended(old(store.Stored()), h))]
           else old(store.slots))
      ensures outcome.Failure? ==>
        error == GenerateError && haikus == old(haikus) && store.slots == old(store.slots)
      ensures old(InStep()) && writeOk ==> InStep()
    {
      match outcome
      case Success(text) =>
        Add(Haiku(id, text, extraHopeloosheid, now), writeOk);
      case Failure(_) =>
        error := GenerateError;
    }

    /** `saveHaiku(h)` and `setHaikus(prev => [h, ...prev])`: the store caps its list, the page does not. */
    method Add(h: Haiku, writeOk: bool)
      requires Valid()
      modifies this, store
      ensures Valid()
      ensures haikus == [h] + old(haikus)
      ensures store.slots ==
        (if writeOk then old(store.slots)[store.itemsKey := Items(Prepended(old(store.Stored()), h))]
         else old(store.slots))
      ensures apiKey == old(apiKey) && error == old(error) && showApiInput == old(showApiInput)
      ensures extraHopeloosheid == old(extraHopeloosheid) && query == old(query)
      ensures old(InStep()) && writeOk ==> InStep()
    {
      var saved := store.Save(h, writeOk);
      haikus := [h] + haikus;
      if old(InStep()) {
        PrefixAfterPrepend(old(store.Stored()), old(haikus), h);
      }
    }

    /**
     * `handleSaveApiKey`: a key text that is not blank is stored trimmed,
     * the input closes and the error clears; a blank one changes nothing.
     * The field itself keeps the untrimmed text.
     */
    method SaveApiKey(writeOk: bool)
      requires Valid()
      modifies this, store
      ensures Valid()
      ensures apiKey == old(apiKey) && haikus == old(haikus) && query == old(query)
      ensures extraHopeloosheid == old(extraHopeloosheid)
      ensures IsBlank(apiKey) ==>
        store.slots == old(store.slots) && showApiInput == old(showApiInput) && error == old(error)
      ensures !IsBlank(apiKey) ==>
        !showApiInput && error == []
        && store.slots == (if writeOk then old(store.slots)[store.apiKeyKey := Slot.Text(Trim(apiKey))] else old(store.slots))
      ensures !IsBlank(apiKey) && writeOk ==> store.HasApiKey() && store.StoredKey() == Some(Trim(apiKey))
      ensures old(InStep()) ==> InStep()
    {
      if !IsBlank(apiKey) {
        var saved := store.SaveApiKey(Trim(apiKey), writeOk);
        showApiInput := false;
        error := [];
      }
    }

    /** The cancel button, offered only while the store holds a non-empty key, closes the key input. */
    method CancelApiKeyInput()
      requires Valid()
      modifies this
      ensures showApiInput == (old(showApiInput) && !store.HasApiKey())
      ensures apiKey == old(apiKey) && error == old(error) && haikus == old(haikus) && query == old(query)
      ensures extraHopeloosheid == old(extraHopeloosheid)
    {
      if store.HasApiKey() {
        showApiInput := false;
      }
    }

    /** `handleDelete`: remove the id from the store and from the shown list. */
    method Delete(id: JsString, writeOk: bool)
      requires Valid()
      modifies this, store
      ensures Valid()
      ensures haikus == WithoutId(old(haikus), StoreKeys.HaikuId, id)
      ensures apiKey == old(apiKey) && error == old(error) && showApiInput == old(showApiInput)
      ensures extraHopeloosheid == old(extraHopeloosheid) && query == old(query)
      ensures store.slots ==
        (if writeOk then old(store.slots)[store.itemsKey := Items(WithoutId(old(store.Stored()), StoreKeys.HaikuId, id))]
         else old(store.slots))
      ensures old(InStep()) && writeOk ==> InStep()
    {
      var deleted := store.Delete(id, writeOk);
      haikus := WithoutId(haikus, StoreKeys.HaikuId, id);
      if old(InStep()) {
        PrefixAfterDelete(old(store.Stored()), old(haikus), StoreKeys.HaikuId, id);
      }
    }
  }
}
