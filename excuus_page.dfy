/**
 * The excuse page (src/pages/ExcuusExMachinaPage.tsx) over the excuus store:
 * the list it shows, the key state, the situatie typed in and the length
 * chosen, whether the key input is open, and the query of its URL. The input
 * fields are set by the user between handler calls. Service replies,
 * identifiers and timestamps are parameters; a failed store write is a
 * `writeOk` of false, which the page ignores.
 */
module ExcuusPage {
  import opened Wrappers
  import opened JsStrings
  import opened Items
  import opened GeminiReply
  import opened BoundedHistory
  import opened HistoryStore
  import opened PageCommon
  import StoreKeys
  import JsonCodec
  import SearchParams
  import ExcuusUrl
  import Services

  /** The duplicate test of a shared excuse: the same situatie and the same excuus. */
  predicate SameExcuus(a: Excuus, b: Excuus) {
    a.situatie == b.situatie && a.excuus == b.excuus
  }

  class ExcuusExMachinaPage {
    const store: Store<Excuus>
    /** The build-time key, VITE_GEMINI_API_KEY. */
    const envApiKey: Option<JsString>
    var excuses: seq<Excuus>
    var apiKey: Option<JsString>
    /** The text field, as typed. */
    var situatie: JsString
    var lengte: Services.Lengte
    var showApiKeyInput: bool
    var query: SearchParams.Params

    ghost predicate Valid()
      reads this, store
    {
      store.Valid() && store.idOf == StoreKeys.ExcuusId
    }

    /** The store holds the front of the shown list. */
    ghost predicate InStep()
      reads this, store
    {
      store.Stored() <= excuses
    }

    /** The initial state: nothing shown, an empty situatie, length `normaal`. */
    constructor(store: Store<Excuus>, envApiKey: Option<JsString>, query: SearchParams.Params)
      requires store.Valid() && store.idOf == StoreKeys.ExcuusId
      ensures Valid()
      ensures this.store == store && this.envApiKey == envApiKey && this.query == query
      ensures excuses == [] && apiKey.None? && situatie == [] && lengte == Services.Normaal && !showApiKeyInput
    {
      this.store := store;
      this.envApiKey := envApiKey;
      this.query := query;
      excuses := [];
      apiKey := None;
      situatie := [];
      lengte := Services.Normaal;
      showApiKeyInput := false;
    }

    /**
     * The mount effect and the key effect after it: load the list and the
     * key, merge a shared excuse unless one with the same situatie and
     * excuus is loaded (saving it), clear the query whenever one was shared,
     * and open the key input exactly when there is no active key.
     */
    method Mount(codec: JsonCodec.Codec<ExcuusContent>, id: JsString, now: JsString, writeOk: bool)
      requires Valid()
      modifies this, store
      ensures Valid() && (writeOk ==> InStep())
      ensures var shared := ExcuusUrl.GetExcuusFromUrl(codec, old(query), id, now);
        excuses == Merge(old(store.Stored()), shared, SameExcuus)
        && query == (if shared.Some? then [] else old(query))
        && store.slots ==
          (if shared.Some? && !HasSame(old(store.Stored()), shared.value, SameExcuus) && writeOk
           then old(store.slots)[store.itemsKey := Items(Prepended(old(store.Stored()), shared.value))]
           else old(store.slots))
      ensures situatie == old(situatie) && lengte == old(lengte)
      ensures apiKey == store.StoredKey() && showApiKeyInput == ActiveKey(apiKey, envApiKey).None?
    {
      excuses := store.GetItems();
      apiKey := store.GetApiKey();
      MergeShared(ExcuusUrl.GetExcuusFromUrl(codec, query, id, now), writeOk);
      showApiKeyInput := ActiveKey(apiKey, envApiKey).None?;
    }

    /**
     * The shared-link part of the mount effect: add a shared excuse unless
     * one with the same content is shown, and clear the query either way.
     */
    method MergeShared(shared: Option<Excuus>, writeOk: bool)
      requires Valid()
      modifies this, store
      ensures Valid()
      ensures excuses == Merge(old(excuses), shared, SameExcuus)
      ensures query == (if shared.Some? then [] else old(query))
      ensures store.slots ==
        (if shared.Some? && !HasSame(old(excuses), shared.value, SameExcuus) && writeOk
         then old(store.slots)[store.itemsKey := Items(Prepended(old(store.Stored()), shared.value))]
         else old(store.slots))
      ensures apiKey == old(apiKey) && showApiKeyInput == old(showApiKeyInput)
      ensures situatie == old(situatie) && lengte == old(lengte)
      ensures old(InStep()) && writeOk ==> InStep()
    {
      if shared.Some? {
        if !HasSame(excuses, shared.value, SameExcuus) {
          Add(shared.value, writeOk);
        }
        query := [];
      }
    }

    /** `handleSaveApiKey`, then the key effect, as on the fobie page. */
    method SaveApiKey(key: JsString, writeOk: bool)
      requires Valid()
      modifies this, store
      ensures Valid()
      ensures apiKey == Some(key) && excuses == old(excuses) && query == old(query)
      ensures situatie == old(situatie) && lengte == old(lengte)
      ensures store.slots == (if writeOk then old(store.slots)[store.apiKeyKey := Slot.Text(key)] else old(store.slots))
      ensures showApiKeyInput ==
        (ActiveKey(apiKey, envApiKey).None? && ActiveKey(old(apiKey), envApiKey).Some?)
      ensures key != [] ==> !showApiKeyInput && ActiveKey(apiKey, envApiKey) == Some(key)
      ensures old(InStep()) ==> InStep()
    {
      var before := ActiveKey(apiKey, envApiKey);
      var saved := store.SaveApiKey(key, writeOk);
      apiKey := Some(key);
      showApiKeyInput := false;
      var after := ActiveKey(apiKey, envApiKey);
      if after != before {
        showApiKeyInput := after.None?;
      }
    }

    /**
     * `handleGenerate`: without an active key, open the key input; with a
     * blank situatie, do nothing; otherwise call the service with the
     * situatie as typed, then save and prepend an excuse carrying the
     * trimmed situatie and clear the field, or reopen the key input when
     * the error is a rate limit.
     */
    method Generate(reply: Reply, id: JsString, now: JsString, writeOk: bool)
      requires Valid()
      modifies this, store
      ensures Valid()
      ensures apiKey == old(apiKey) && query == old(query) && lengte == old(lengte)
      ensures ActiveKey(apiKey, envApiKey).None? ==>
        showApiKeyInput && excuses == old(excuses) && situatie == old(situatie) && store.slots == old(store.slots)
      ensures ActiveKey(apiKey, envApiKey).Some? && IsBlank(old(situatie)) ==>
        showApiKeyInput == old(showApiKeyInput) && excuses == old(excuses) && situatie == old(situatie)
        && store.slots == old(store.slots)
      ensures ActiveKey(apiKey, envApiKey).Some? && !IsBlank(old(situatie)) ==>
        var outcome := Services.GenerateExcuus(ActiveKey(apiKey, envApiKey).value, old(situatie), lengte, reply).outcome;
        (outcome.Success? ==>
          var e := Excuus(id, Trim(old(situatie)), outcome.value, Services.LengteName(lengte), now);
          excuses == [e] + old(excuses) && situatie == [] && showApiKeyInput == old(showApiKeyInput)
          && store.slots ==
            (if writeOk then old(store.slots)[store.itemsKey := Items(Prepended(old(store.Stored()), e))]
             else old(store.slots)))
        && (outcome.Failure? ==>
          excuses == old(excuses) && situatie == old(situatie) && store.slots == old(store.slots)
          && showApiKeyInput == (old(showApiKeyInput) || IsRateLimited(outcome.error)))
      ensures old(InStep()) && writeOk ==> InStep()
    {
      var key := ActiveKey(apiKey, envApiKey);
      if key.None? {
        showApiKeyInput := true;
        return;
      }
      if IsBlank(situatie) {
        return;
      }
      var outcome := Services.GenerateExcuus(key.value, situatie, lengte, reply).outcome;
      Settle(outcome, Excuus(id, Trim(situatie), [], Services.LengteName(lengte), now), writeOk);
    }

    /**
     * The `try` block after the call: keep the excuse the service returned
     * (`draft` with its text) and clear the field, or reopen the key input
     * when the error is a rate limit.
     */
    method Settle(outcome: Outcome<JsString>, draft: Excuus, writeOk: bool)
      requires Valid()
      modifies this, store
      ensures Valid()
      ensures apiKey == old(apiKey) && query == old(query) && lengte == old(lengte)
      ensures outcome.Success? ==>
        var e := draft.(excuus := outcome.value);
        excuses == [e] + old(excuses) && situatie == [] && showApiKeyInput == old(showApiKeyInput)
        && store.slots ==
          (if writeOk then old(store.slots)[store.itemsKey := Items(Prepended(old(store.Stored()), e))]
           else old(store.slots))
      ensures outcome.Failure? ==>
        excuses == old(excuses) && situatie == old(situatie) && store.slots == old(store.slots)
        && showApiKeyInput == (old(showApiKeyInput) || IsRateLimited(outcome.error))
      ensures old(InStep()) && writeOk ==> InStep()
    {
      match outcome
      case Success(text) =>
        Add(draft.(excuus := text), writeOk);
        situatie := [];
      case Failure(err) =>
        if IsRateLimited(err) {
          showApiKeyInput := true;
        }
    }

    /** `saveExcuus(e)` and `setExcuses(prev => [e, ...prev])`: the store caps its list, the page does not. */
    method Add(e: Excuus, writeOk: bool)
      requires Valid()
      modifies this, store
      ensures Valid()
      ensures excuses == [e] + old(excuses)
      ensures store.slots ==
        (if writeOk then old(store.slots)[store.itemsKey := Items(Prepended(old(store.Stored()), e))]
         else old(store.slots))
      ensures apiKey == old(apiKey) && showApiKeyInput == old(showApiKeyInput) && query == old(query)
      ensures situatie == old(situatie) && lengte == old(lengte)
      ensures old(InStep()) && writeOk ==> InStep()
    {
      var saved := store.Save(e, writeOk);
      excuses := [e] + excuses;
      if old(InStep()) {
        PrefixAfterPrepend(old(store.Stored()), old(excuses), e);
      }
    }

    /** `handleDelete`: remove the id from the store and from the shown list. */
    method Delete(id: JsString, writeOk: bool)
      requires Valid()
      modifies this, store
      ensures Valid()
      ensures excuses == WithoutId(old(excuses), StoreKeys.ExcuusId, id)
      ensures apiKey == old(apiKey) && showApiKeyInput == old(showApiKeyInput) && query == old(query)
      ensures situatie == old(situatie) && lengte == old(lengte)
      ensures store.slots ==
        (if writeOk then old(store.slots)[store.itemsKey := Items(WithoutId(old(store.Stored()), StoreKeys.ExcuusId, id))]
         else old(store.slots))
      ensures old(InStep()) && writeOk ==> InStep()
    {
      var deleted := store.Delete(id, writeOk);
      excuses := WithoutId(excuses, StoreKeys.ExcuusId, id);
      if old(InStep()) {
        PrefixAfterDelete(old(store.Stored()), old(excuses), StoreKeys.ExcuusId, id);
      }
    }
  }
}
