/**
 * The draaiboek page (src/pages/DestructieveDraaiboeken.tsx) over the
 * draaiboek store: the list it shows, the key state, the taak typed in and
 * the moeilijkheidsgraad chosen, whether the key input is open, and the query
 * of its URL. The input fields are set by the user between handler calls.
 * Service replies, identifiers and timestamps are parameters; a failed store
 * write is a `writeOk` of false, which the page ignores.
 */
module DraaiboekenPage {
  import opened Wrappers
  import opened JsStrings
  import opened Items
  import opened GeminiReply
  import opened BoundedHistory
  import opened HistoryStore
  import opened PageCommon
  import StoreKeys
  import JsonCodec
  import SearchParams
  import DraaiboekUrl
  import Services

  /** The duplicate test of a shared draaiboek: the same taak and the same draaiboek text. */
  predicate SameDraaiboek(a: Draaiboek, b: Draaiboek) {
    a.taak == b.taak && a.draaiboek == b.draaiboek
  }

  class DestructieveDraaiboeken {
    const store: Store<Draaiboek>
    /** The build-time key, VITE_GEMINI_API_KEY. */
    const envApiKey: Option<JsString>
    var draaiboeken: seq<Draaiboek>
    var apiKey: Option<JsString>
    /** The text field, as typed. */
    var taak: JsString
    var moeilijkheidsgraad: Services.Moeilijkheidsgraad
    var showApiKeyInput: bool
    var query: SearchParams.Params

    ghost predicate Valid()
      reads this, store
    {
      store.Valid() && store.idOf == StoreKeys.DraaiboekId
    }

    /** The store holds the front of the shown list. */
    ghost predicate InStep()
      reads this, store
    {
      store.Stored() <= draaiboeken
    }

    /** The initial state: nothing shown, an empty taak, 'gure-ramp'. */
    constructor(store: Store<Draaiboek>, envApiKey: Option<JsString>, query: SearchParams.Params)
      requires store.Valid() && store.idOf == StoreKeys.DraaiboekId
      ensures Valid()
      ensures this.store == store && this.envApiKey == envApiKey && this.query == query
      ensures draaiboeken == [] && apiKey.None? && taak == [] && moeilijkheidsgraad == Services.GureRamp && !showApiKeyInput
    {
      this.store := store;
      this.envApiKey := envApiKey;
      this.query := query;
      draaiboeken := [];
      apiKey := None;
      taak := [];
      moeilijkheidsgraad := Services.GureRamp;
      showApiKeyInput := false;
    }

    /**
     * The mount effect and the key effect after it: load the list and the
     * key, merge a shared draaiboek unless one with the same taak and
     * draaiboek text is loaded (saving it), clear the query whenever one was shared,
     * and open the key input exactly when there is no active key.
     */
    method Mount(codec: JsonCodec.Codec<DraaiboekContent>, id: JsString, now: JsString, writeOk: bool)
      requires Valid()
      modifies this, store
      ensures Valid() && (writeOk ==> InStep())
      ensures var shared := DraaiboekUrl.GetDraaiboekFromUrl(codec, old(query), id, now);
        draaiboeken == Merge(old(store.Stored()), shared, SameDraaiboek)
        && query == (if shared.Some? then [] else old(query))
        && store.slots ==
          (if shared.Some? && !HasSame(old(store.Stored()), shared.value, SameDraaiboek) && writeOk
           then old(store.slots)[store.itemsKey := Items(Prepended(old(store.Stored()), shared.value))]
           else old(store.slots))
      ensures taak == old(taak) && moeilijkheidsgraad == old(moeilijkheidsgraad)
      ensures apiKey == store.StoredKey() && showApiKeyInput == ActiveKey(apiKey, envApiKey).None?
    {
      draaiboeken := store.GetItems();
      apiKey := store.GetApiKey();
      MergeShared(DraaiboekUrl.GetDraaiboekFromUrl(codec, query, id, now), writeOk);
      showApiKeyInput := ActiveKey(apiKey, envApiKey).None?;
    }

    /**
     * The shared-link part of the mount effect: add a shared draaiboek unless
     * one with the same content is shown, and clear the query either way.
     */
    method MergeShared(shared: Option<Draaiboek>, writeOk: bool)
      requires Valid()
      modifies this, store
      ensures Valid()
      ensures draaiboeken == Merge(old(draaiboeken), shared, SameDraaiboek)
      ensures query == (if shared.Some? then [] else old(query))
      ensures store.slots ==
        (if shared.Some? && !HasSame(old(draaiboeken), shared.value, SameDraaiboek) && writeOk
         then old(store.slots)[store.itemsKey := Items(Prepended(old(store.Stored()), shared.value))]
         else old(store.slots))
      ensures apiKey == old(apiKey) && showApiKeyInput == old(showApiKeyInput)
      ensures taak == old(taak) && moeilijkheidsgraad == old(moeilijkheidsgraad)
      ensures old(InStep()) && writeOk ==> InStep()
    {
      if shared.Some? {
        if !HasSame(draaiboeken, shared.value, SameDraaiboek) {
          Add(shared.value, writeOk);
        }
        query := [];
      }
    }

    /** `handleSaveApiKey`, then the key effect, as on the fobie page. */
    method SaveApiKey(key: JsString, writeOk: bool)
      requires Valid()
      modifies this, store
      ensures Valid()
      ensures apiKey == Some(key) && draaiboeken == old(draaiboeken) && query == old(query)
      ensures taak == old(taak) && moeilijkheidsgraad == old(moeilijkheidsgraad)
      ensures store.slots == (if writeOk then old(store.slots)[store.apiKeyKey := Slot.Text(key)] else old(store.slots))
      ensures showApiKeyInput ==
        (ActiveKey(apiKey, envApiKey).None? && ActiveKey(old(apiKey), envApiKey).Some?)
      ensures key != [] ==> !showApiKeyInput && ActiveKey(apiKey, envApiKey) == Some(key)
      ensures old(InStep()) ==> InStep()
    {
      var before := ActiveKey(apiKey, envApiKey);
      var saved := store.SaveApiKey(key, writeOk);
      apiKey := Some(key);
      showApiKeyInput := false;
      var after := ActiveKey(apiKey, envApiKey);
      if after != before {
        showApiKeyInput := after.None?;
      }
    }

    /**
     * `handleGenerate`: without an active key, open the key input; with a
     * blank taak, do nothing; otherwise call the service with the
     * taak as typed, then save and prepend a draaiboek carrying
     * the trimmed taak and clear the field, or reopen the key input when
     * the error is a rate limit.
     */
    method Generate(reply: Reply, id: JsString, now: JsString, writeOk: bool)
      requires Valid()
      modifies this, store
      ensures Valid()
      ensures apiKey == old(apiKey) && query == old(query) && moeilijkheidsgraad == old(moeilijkheidsgraad)
      ensures ActiveKey(apiKey, envApiKey).None? ==>
        showApiKeyInput && draaiboeken == old(draaiboeken) && taak == old(taak) && store.slots == old(store.slots)
      ensures ActiveKey(apiKey, envApiKey).Some? && IsBlank(old(taak)) ==>
        showApiKeyInput == old(showApiKeyInput) && draaiboeken == old(draaiboeken) && taak == old(taak)
        && store.slots == old(store.slots)
      ensures ActiveKey(apiKey, envApiKey).Some? && !IsBlank(old(taak)) ==>
        var outcome := Services.GenerateDraaiboek(ActiveKey(apiKey, envApiKey).value, old(taak), moeilijkheidsgraad, reply).outcome;
        (outcome.Success? ==>
          var d := Draaiboek(id, Trim(old(taak)), outcome.value, Services.GraadName(moeilijkheidsgraad), now);
          draaiboeken == [d] + old(draaiboeken) && taak == [] && showApiKeyInput == old(showApiKeyInput)
          && store.slots ==
            (if writeOk then old(store.slots)[store.itemsKey := Items(Prepended(old(store.Stored()), d))]
             else old(store.slots)))
        && (outcome.Failure? ==>
          draaiboeken == old(draaiboeken) && taak == old(taak) && store.slots == old(store.slots)
          && showApiKeyInput == (old(showApiKeyInput) || IsRateLimited(outcome.error)))
      ensures old(InStep()) && writeOk ==> InStep()
    {
      var key := ActiveKey(apiKey, envApiKey);
      if key.None? {
        showApiKeyInput := true;
        return;
      }
      if IsBlank(taak) {
        return;
      }
      var outcome := Services.GenerateDraaiboek(key.value, taak, moeilijkheidsgraad, reply).outcome;
      Settle(outcome, Draaiboek(id, Trim(taak), [], Services.GraadName(moeilijkheidsgraad), now), writeOk);
    }

    /**
     * The `try` block after the call: keep the draaiboek the service
     * returned (`draft` with its text) and clear the field, or reopen the key input
     * when the error is a rate limit.
     */
    method Settle(outcome: Outcome<JsString>, draft: Draaiboek, writeOk: bool)
      requires Valid()
      modifies this, store
      ensures Valid()
      ensures apiKey == old(apiKey) && query == old(query) && moeilijkheidsgraad == old(moeilijkheidsgraad)
      ensures outcome.Success? ==>
        var d := draft.(draaiboek := outcome.value);
        draaiboeken == [d] + old(draaiboeken) && taak == [] && showApiKeyInput == old(showApiKeyInput)
        && store.slots ==
          (if writeOk then old(store.slots)[store.itemsKey := Items(Prepended(old(store.Stored()), d))]
           else old(store.slots))
      ensures outcome.Failure? ==>
        draaiboeken == old(draaiboeken) && taak == old(taak) && store.slots == old(store.slots)
        && showApiKeyInput == (old(showApiKeyInput) || IsRateLimited(outcome.error))
      ensures old(InStep()) && writeOk ==> InStep()
    {
      match outcome
      case Success(text) =>
        Add(draft.(draaiboek := text), writeOk);
        taak := [];
      case Failure(err) =>
        if IsRateLimited(err) {
          showApiKeyInput := true;
        }
    }

    /** `saveDraaiboek(d)` and `setDraaiboeken(prev => [d, ...prev])`: the store caps its list, the page does not. */
    method Add(d: Draaiboek, writeOk: bool)
      requires Valid()
      modifies this, store
      ensures Valid()
      ensures draaiboeken == [d] + old(draaiboeken)
      ensures store.slots ==
        (if writeOk then old(store.slots)[store.itemsKey := Items(Prepended(old(store.Stored()), d))]
         else old(store.slots))
      ensures apiKey == old(apiKey) && showApiKeyInput == old(showApiKeyInput) && query == old(query)
      ensures taak == old(taak) && moeilijkheidsgraad == old(moeilijkheidsgraad)
      ensures old(InStep()) && writeOk ==> InStep()
    {
      var saved := store.Save(d, writeOk);
      draaiboeken := [d] + draaiboeken;
      if old(InStep()) {
        PrefixAfterPrepend(old(store.Stored()), old(draaiboeken), d);
      }
    }

    /** `handleDelete`: remove the id from the store and from the shown list. */
    method Delete(id: JsString, writeOk: bool)
      requires Valid()
      modifies this, store
      ensures Valid()
      ensures draaiboeken == WithoutId(old(draaiboeken), StoreKeys.DraaiboekId, id)
      ensures apiKey == old(apiKey) && showApiKeyInput == old(showApiKeyInput) && query == old(query)
      ensures taak == old(taak) && moeilijkheidsgraad == old(moeilijkheidsgraad)
      ensures store.slots ==
        (if writeOk then old(store.slots)[store.itemsKey := Items(WithoutId(old(store.Stored()), StoreKeys.DraaiboekId, id))]
         else old(store.slots))
      ensures old(InStep()) && writeOk ==> InStep()
    {
      var deleted := store.Delete(id, writeOk);
      draaiboeken := WithoutId(draaiboeken, StoreKeys.DraaiboekId, id);
      if old(InStep()) {
        PrefixAfterDelete(old(store.Stored()), old(draaiboeken), StoreKeys.DraaiboekId, id);
      }
    }
  }
}
