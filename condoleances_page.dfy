/**
 * The condoleance page (src/pages/CondoleancesPage.tsx). Its list and its key
 * are page state that a hook mirrors to localStorage under
 * 'curieuze_condoleances_history' and 'gemini_api_key'; the hook
 * (src/hooks/useLocalStorage.ts) is not part of this model, so both are plain
 * fields whose first values are what the hook read. The page caps its own
 * list at fifty, merges a shared condoleance by its text, and offers no
 * delete. Service replies, identifiers and timestamps are parameters.
 */
module CondoleancesPage {
  import opened Wrappers
  import opened JsStrings
  import opened Items
  import opened GeminiReply
  import opened BoundedHistory
  import opened PageCommon
  import SearchParams
  import CondoleanceUrl
  import Services

  /** The duplicate test of a shared condoleance: the same text. */
  predicate SameText(a: Condoleance, b: Condoleance) {
    a.text == b.text
  }

  /**
   * The mount effect's updater: the list as it was when some condoleance has
   * the shared text, else the shared one in front, capped at fifty.
   */
  function MergeShared(prev: seq<Condoleance>, shared: Option<Condoleance>): (r: seq<Condoleance>)
    ensures shared.None? ==> r == prev
    ensures shared.Some? ==> HasSame(r, shared.value, SameText)
    ensures shared.Some? && HasSame(prev, shared.value, SameText) ==> r == prev
    ensures shared.Some? && !HasSame(prev, shared.value, SameText) ==>
      |r| == (if |prev| < MaxItems then |prev| + 1 else MaxItems)
      && r[0] == shared.value && r[1..] == prev[..|r| - 1]
    ensures r != prev ==>
      shared.Some? && !HasSame(prev, shared.value, SameText)
      && r[0] == shared.value && r[1..] <= prev && |r| <= MaxItems
  {
    if shared.Some? && !HasSame(prev, shared.value, SameText) then Prepended(prev, shared.value) else prev
  }

  /** Opening a link to a text already shown, or the same link twice, leaves the list as it is. */
  lemma MergeSharedTwice(prev: seq<Condoleance>, c1: Condoleance, c2: Condoleance)
    requires SameText(c1, c2)
    ensures MergeShared(MergeShared(prev, Some(c1)), Some(c2)) == MergeShared(prev, Some(c1))
  {
    var m := MergeShared(prev, Some(c1));
    HasSameIff(m, c1, SameText);
    HasSameIff(m, c2, SameText);
    var i :| 0 <= i < |m| && SameText(m[i], c1);
    assert SameText(m[i], c2);
  }

  class CondoleancesPage {
    /** The build-time key, VITE_GEMINI_API_KEY. */
    const envApiKey: Option<JsString>
    var condoleances: seq<Condoleance>
    var apiKey: Option<JsString>
    var showApiKeyInput: bool
    var query: SearchParams.Params

    /** The hook's initial reads, the build-time key and the URL's query. */
    constructor(condoleances: seq<Condoleance>, apiKey: Option<JsString>, envApiKey: Option<JsString>,
      query: SearchParams.Params)
      ensures this.condoleances == condoleances && this.apiKey == apiKey
      ensures this.envApiKey == envApiKey && this.query == query && !showApiKeyInput
    {
      this.condoleances := condoleances;
      this.apiKey := apiKey;
      this.envApiKey := envApiKey;
      this.query := query;
      showApiKeyInput := false;
    }

    /**
     * The mount effect and the key effect: merge a shared condoleance, clear
     * the query when there was one, and open the key input exactly when
     * there is no active key.
     */
    method Mount(id: JsString, now: JsString)
      modifies this
      ensures var shared := CondoleanceUrl.GetCondoleanceFromUrl(old(query), id, now);
        condoleances == MergeShared(old(condoleances), shared)
        && query == (if shared.Some? then [] else old(query))
      ensures apiKey == old(apiKey) && showApiKeyInput == ActiveKey(apiKey, envApiKey).None?
    {
      var shared := CondoleanceUrl.GetCondoleanceFromUrl(query, id, now);
      if shared.Some? {
        condoleances := MergeShared(condoleances, shared);
        query := [];
      }
      showApiKeyInput := ActiveKey(apiKey, envApiKey).None?;
    }

    /**
     * `handleSaveApiKey`, then the key effect: keep the key, hide the input,
     * and reopen it only when the active key changed to none.
     */
    method SaveApiKey(key: JsString)
      modifies this
      ensures apiKey == Some(key) && condoleances == old(condoleances) && query == old(query)
      ensures showApiKeyInput ==
        (ActiveKey(apiKey, envApiKey).None? && ActiveKey(old(apiKey), envApiKey).Some?)
      ensures key != [] ==> !showApiKeyInput && ActiveKey(apiKey, envApiKey) == Some(key)
    {
      var before := ActiveKey(apiKey, envApiKey);
      apiKey := Some(key);
      showApiKeyInput := false;
      var after := ActiveKey(apiKey, envApiKey);
      if after != before {
        showApiKeyInput := after.None?;
      }
    }

    /**
     * `handleGenerate`: without an active key, open the key input; otherwise
     * put the condoleance the service returns in front, keeping fifty, or
     * reopen the key input when the error is a rate limit.
     */
    method Generate(reply: Reply, id: JsString, now: JsString)
      modifies this
      ensures apiKey == old(apiKey) && query == old(query)
      ensures ActiveKey(apiKey, envApiKey).None? ==> showApiKeyInput && condoleances == old(condoleances)
      ensures ActiveKey(apiKey, envApiKey).Some? ==>
        var outcome := Services.GenerateCondoleance(ActiveKey(apiKey, envApiKey).value, reply).outcome;
        (outcome.Success? ==>
          condoleances == Prepended(old(condoleances), TextItem(id, outcome.value, now))
          && showApiKeyInput == old(showApiKeyInput))
        && (outcome.Failure? ==>
          condoleances == old(condoleances)
          && showApiKeyInput == (old(showApiKeyInput) || IsRateLimited(outcome.error)))
      ensures condoleances != old(condoleances) ==> |condoleances| <= MaxItems && condoleances[0].id == id
    {
      var key := ActiveKey(apiKey, envApiKey);
      if key.None? {
        showApiKeyInput := true;
        return;
      }
      match Services.GenerateCondoleance(key.value, reply).outcome
      case Success(text) =>
        condoleances := Prepended(condoleances, TextItem(id, text, now));
      case Failure(e) =>
        if IsRateLimited(e) {
          showApiKeyInput := true;
        }
    }
  }
}
