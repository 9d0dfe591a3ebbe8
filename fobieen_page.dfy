/**
 * The fobie page (src/pages/FobieenPage.tsx): the list it shows, the key it
 * generates with, whether the key input is open, and the query of its URL,
 * over the fobie store. Service replies, identifiers and timestamps are
 * parameters; a store write that fails is a `writeOk` of false, and the page
 * ignores the result of every write.
 */
module Fobieen {
  import opened Wrappers
  import opened JsStrings
  import opened Items
  import opened GeminiReply
  import opened BoundedHistory
  import opened HistoryStore
  import opened PageCommon
  import StoreKeys
  import JsonCodec
  import SearchParams
  import FobieUrl
  import FobieService

  /** The duplicate test of a shared fobie: the same naam and the same beschrijving. */
  predicate SameFobie(a: Fobie, b: Fobie) {
    a.naam == b.naam && a.beschrijving == b.beschrijving
  }

  class FobieenPage {
    const store: Store<Fobie>
    /** The build-time key, VITE_GEMINI_API_KEY. */
    const envApiKey: Option<JsString>
    /** The list on the page. */
    var fobieen: seq<Fobie>
    /** The key state: what the store gave at mount, or the last key saved. */
    var apiKey: Option<JsString>
    var showApiKeyInput: bool
    /** The query of the page's URL. */
    var query: SearchParams.Params

    ghost predicate Valid()
      reads this, store
    {
      store.Valid() && store.idOf == StoreKeys.FobieId
    }

    /** The store holds the front of the shown list. */
    ghost predicate InStep()
      reads this, store
    {
      store.Stored() <= fobieen
    }

    constructor(store: Store<Fobie>, envApiKey: Option<JsString>, query: SearchParams.Params)
      requires store.Valid() && store.idOf == StoreKeys.FobieId
      ensures Valid()
      ensures this.store == store && this.envApiKey == envApiKey && this.query == query
      ensures fobieen == [] && apiKey.None? && !showApiKeyInput
    {
      this.store := store;
      this.envApiKey := envApiKey;
      this.query := query;
      fobieen := [];
      apiKey := None;
      showApiKeyInput := false;
    }

    /**
     * The mount effect and the key effect after it: load the list and the
     * key, merge a shared fobie unless one with the same content is loaded
     * (saving it to the store), clear the query whenever a fobie was shared,
     * and open the key input exactly when there is no active key.
     */
    method Mount(codec: JsonCodec.Codec<FobieContent>, id: JsString, now: JsString, writeOk: bool)
      requires Valid()
      modifies this, store
      ensures Valid() && (writeOk ==> InStep())
      ensures var shared := FobieUrl.GetFobieFromUrl(codec, old(query), id, now);
        fobieen == Merge(old(store.Stored()), shared, SameFobie)
        && query == (if shared.Some? then [] else old(query))
        && store.slots ==
          (if shared.Some? && !HasSame(old(store.Stored()), shared.value, SameFobie) && writeOk
           then old(store.slots)[store.itemsKey := Items(Prepended(old(store.Stored()), shared.value))]
           else old(store.slots))
      ensures apiKey == store.StoredKey() && showApiKeyInput == ActiveKey(apiKey, envApiKey).None?
    {
      fobieen := store.GetItems();
      apiKey := store.GetApiKey();
      MergeShared(FobieUrl.GetFobieFromUrl(codec, query, id, now), writeOk);
      showApiKeyInput := ActiveKey(apiKey, envApiKey).None?;
    }

    /**
     * The shared-link part of the mount effect: add a shared fobie unless
     * one with the same content is shown, and clear the query either way.
     */
    method MergeShared(shared: Option<Fobie>, writeOk: bool)
      requires Valid()
      modifies this, store
      ensures Valid()
      ensures fobieen == Merge(old(fobieen), shared, SameFobie)
      ensures query == (if shared.Some? then [] else old(query))
      ensures store.slots ==
        (if shared.Some? && !HasSame(old(fobieen), shared.value, SameFobie) && writeOk
         then old(store.slots)[store.itemsKey := Items(Prepended(old(store.Stored()), shared.value))]
         else old(store.slots))
      ensures apiKey == old(apiKey) && showApiKeyInput == old(showApiKeyInput)
      ensures old(InStep()) && writeOk ==> InStep()
    {
      if shared.Some? {
        if !HasSame(fobieen, shared.value, SameFobie) {
          Add(shared.value, writeOk);
        }
        query := [];
      }
    }

    /**
     * `handleSaveApiKey`, then the key effect: store the key, hide the input,
     * and reopen it only when the active key changed to none.
     */
    method SaveApiKey(key: JsString, writeOk: bool)
      requires Valid()
      modifies this, store
      ensures Valid()
      ensures apiKey == Some(key) && fobieen == old(fobieen) && query == old(query)
      ensures store.slots == (if writeOk then old(store.slots)[store.apiKeyKey := Slot.Text(key)] else old(store.slots))
      ensures showApiKeyInput ==
        (ActiveKey(apiKey, envApiKey).None? && ActiveKey(old(apiKey), envApiKey).Some?)
      ensures key != [] ==> !showApiKeyInput && ActiveKey(apiKey, envApiKey) == Some(key)
      ensures old(InStep()) ==> InStep()
    {
      var before := ActiveKey(apiKey, envApiKey);
      var saved := store.SaveApiKey(key, writeOk);
      apiKey := Some(key);
      showApiKeyInput := false;
      var after := ActiveKey(apiKey, envApiKey);
      if after != before {
        showApiKeyInput := after.None?;
      }
    }

    /**
     * `handleGenerate`: without an active key, open the key input and call
     * nothing; otherwise call the service with it, save and prepend the
     * fobie it returns, or reopen the key input when its error is a rate limit.
     */
    method Generate(reply: Reply, parse: JsString -> FobieService.FobieJson,
      extract: JsString -> Option<FobieContent>, id: JsString, now: JsString, writeOk: bool)
      requires Valid()
      modifies this, store
      ensures Valid()
      ensures apiKey == old(apiKey) && query == old(query)
      ensures ActiveKey(apiKey, envApiKey).None? ==>
        showApiKeyInput && fobieen == old(fobieen) && store.slots == old(store.slots)
      ensures ActiveKey(apiKey, envApiKey).Some? ==>
        var outcome := FobieService.GenerateFobie(ActiveKey(apiKey, envApiKey).value, reply, parse, extract).outcome;
        (outcome.Success? ==>
          var f := Fobie(id, outcome.value.naam, outcome.value.beschrijving, now);
          fobieen == [f] + old(fobieen) && showApiKeyInput == old(showApiKeyInput)
          && store.slots ==
            (if writeOk then old(store.slots)[store.itemsKey := Items(Prepended(old(store.Stored()), f))]
             else old(store.slots)))
        && (outcome.Failure? ==>
          fobieen == old(fobieen) && store.slots == old(store.slots)
          && showApiKeyInput == (old(showApiKeyInput) || IsRateLimited(outcome.error)))
      ensures old(InStep()) && writeOk ==> InStep()
    {
      var key := ActiveKey(apiKey, envApiKey);
      if key.None? {
        showApiKeyInput := true;
        return;
      }
      Settle(FobieService.GenerateFobie(key.value, reply, parse, extract).outcome, id, now, writeOk);
    }

    /**
     * The `try` block after the call: keep the fobie the service returned,
     * with a fresh id and timestamp, or reopen the key input when the error
     * is a rate limit.
     */
    method Settle(outcome: Outcome<FobieContent>, id: JsString, now: JsString, writeOk: bool)
      requires Valid()
      modifies this, store
      ensures Valid()
      ensures apiKey == old(apiKey) && query == old(query)
      ensures outcome.Success? ==>
        var f := Fobie(id, outcome.value.naam, outcome.value.beschrijving, now);
        fobieen == [f] + old(fobieen) && showApiKeyInput == old(showApiKeyInput)
        && store.slots ==
          (if writeOk then old(store.slots)[store.itemsKey := Items(Prepended(old(store.Stored()), f))]
           else old(store.slots))
      ensures outcome.Failure? ==>
        fobieen == old(fobieen) && store.slots == old(store.slots)
        && showApiKeyInput == (old(showApiKeyInput) || IsRateLimited(outcome.error))
      ensures old(InStep()) && writeOk ==> InStep()
    {
      match outcome
      case Success(c) =>
        Add(Fobie(id, c.naam, c.beschrijving, now), writeOk);
      case Failure(e) =>
        if IsRateLimited(e) {
          showApiKeyInput := true;
        }
    }

    /** `saveFobie(f)` and `setFobieen(prev => [f, ...prev])`: the store caps its list, the page does not. */
    method Add(f: Fobie, writeOk: bool)
      requires Valid()
      modifies this, store
      ensures Valid()
      ensures fobieen == [f] + old(fobieen)
      ensures store.slots ==
        (if writeOk then old(store.slots)[store.itemsKey := Items(Prepended(old(store.Stored()), f))]
         else old(store.slots))
      ensures apiKey == old(apiKey) && showApiKeyInput == old(showApiKeyInput) && query == old(query)
      ensures old(InStep()) && writeOk ==> InStep()
    {
      var saved := store.Save(f, writeOk);
      fobieen := [f] + fobieen;
      if old(InStep()) {
        PrefixAfterPrepend(old(store.Stored()), old(fobieen), f);
      }
    }

    /** `handleDelete`: remove the id from the store and from the shown list. */
    method Delete(id: JsString, writeOk: bool)
      requires Valid()
      modifies this, store
      ensures Valid()
      ensures fobieen == WithoutId(old(fobieen), StoreKeys.FobieId, id)
      ensures apiKey == old(apiKey) && showApiKeyInput == old(showApiKeyInput) && query == old(query)
      ensures store.slots ==
        (if writeOk then old(store.slots)[store.itemsKey := Items(WithoutId(old(store.Stored()), StoreKeys.FobieId, id))]
         else old(store.slots))
      ensures old(InStep()) && writeOk ==> InStep()
    {
      var deleted := store.Delete(id, writeOk);
      fobieen := WithoutId(fobieen, StoreKeys.FobieId, id);
      if old(InStep()) {
        PrefixAfterDelete(old(store.Stored()), old(fobieen), StoreKeys.FobieId, id);
      }
    }
  }
}
