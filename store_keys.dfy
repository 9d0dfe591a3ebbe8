/**
 * The six history stores: each one's localStorage keys and its API-key
 * presence rule. Only the haiku store tests the key without trimming it.
 */
module StoreKeys {
  import opened JsStrings
  import opened Items
  import opened HistoryStore

  function TextItemId(t: TextItem): JsString { t.id }
  function DraaiboekId(d: Draaiboek): JsString { d.id }
  function ExcuusId(e: Excuus): JsString { e.id }
  function FobieId(f: Fobie): JsString { f.id }
  function HaikuId(h: Haiku): JsString { h.id }

  /** Two keys that differ at some index in the Basic Multilingual Plane are different keys. */
  lemma KeysDiffer(a: string, b: string, i: nat)
    requires i < |a| && i < |b| && a[i] != b[i] && a[i] as int < 0x1_0000 && b[i] as int < 0x1_0000
    ensures Str(a) != Str(b)
  {
    assert Str(a)[i] != Str(b)[i];
  }

  /** js/storage.js */
  method TongbrekerStore(slots: map<JsString, Slot<Tongbreker>>) returns (s: Store<Tongbreker>)
    requires Str("gemini_api_key") in slots ==> slots[Str("gemini_api_key")].Text?
    ensures fresh(s) && s.Valid() && s.slots == slots && s.trimsKey && s.idOf == TextItemId
    ensures s.itemsKey == Str("tering_tongbrekers_history") && s.apiKeyKey == Str("gemini_api_key")
  {
    KeysDiffer("tering_tongbrekers_history", "gemini_api_key", 0);
    s := new Store(Str("tering_tongbrekers_history"), Str("gemini_api_key"), true, TextItemId, slots);
  }

  /** src/utils/storage.ts */
  method CondoleanceStore(slots: map<JsString, Slot<Condoleance>>) returns (s: Store<Condoleance>)
    requires Str("gemini_api_key") in slots ==> slots[Str("gemini_api_key")].Text?
    ensures fresh(s) && s.Valid() && s.slots == slots && s.trimsKey && s.idOf == TextItemId
    ensures s.itemsKey == Str("curieuze_condoleances_history") && s.apiKeyKey == Str("gemini_api_key")
  {
    KeysDiffer("curieuze_condoleances_history", "gemini_api_key", 0);
    s := new Store(Str("curieuze_condoleances_history"), Str("gemini_api_key"), true, TextItemId, slots);
  }

  /** src/utils/draaiboekStorage.ts */
  method DraaiboekStore(slots: map<JsString, Slot<Draaiboek>>) returns (s: Store<Draaiboek>)
    requires Str("draaiboek_gemini_api_key") in slots ==> slots[Str("draaiboek_gemini_api_key")].Text?
    ensures fresh(s) && s.Valid() && s.slots == slots && s.trimsKey && s.idOf == DraaiboekId
    ensures s.itemsKey == Str("destructieve-draaiboeken-items") && s.apiKeyKey == Str("draaiboek_gemini_api_key")
  {
    KeysDiffer("destructieve-draaiboeken-items", "draaiboek_gemini_api_key", 1);
    s := new Store(Str("destructieve-draaiboeken-items"), Str("draaiboek_gemini_api_key"), true, DraaiboekId, slots);
  }

  /** src/utils/excuusStorage.ts */
  method ExcuusStore(slots: map<JsString, Slot<Excuus>>) returns (s: Store<Excuus>)
    requires Str("excuus_gemini_api_key") in slots ==> slots[Str("excuus_gemini_api_key")].Text?
    ensures fresh(s) && s.Valid() && s.slots == slots && s.trimsKey && s.idOf == ExcuusId
    ensures s.itemsKey == Str("excuus-ex-machina-items") && s.apiKeyKey == Str("excuus_gemini_api_key")
  {
    KeysDiffer("excuus-ex-machina-items", "excuus_gemini_api_key", 6);
    s := new Store(Str("excuus-ex-machina-items"), Str("excuus_gemini_api_key"), true, ExcuusId, slots);
  }

  /** src/utils/fobieStorage.ts */
  method FobieStore(slots: map<JsString, Slot<Fobie>>) returns (s: Store<Fobie>)
    requires Str("fobieen_gemini_api_key") in slots ==> slots[Str("fobieen_gemini_api_key")].Text?
    ensures fresh(s) && s.Valid() && s.slots == slots && s.trimsKey && s.idOf == FobieId
    ensures s.itemsKey == Str("frappante_fobieen_history") && s.apiKeyKey == Str("fobieen_gemini_api_key")
  {
    KeysDiffer("frappante_fobieen_history", "fobieen_gemini_api_key", 1);
    s := new Store(Str("frappante_fobieen_history"), Str("fobieen_gemini_api_key"), true, FobieId, slots);
  }

  /** src/utils/haikuStorage.ts: hasApiKey does not trim. */
  method HaikuStore(slots: map<JsString, Slot<Haiku>>) returns (s: Store<Haiku>)
    requires Str("hopeloze-haikus-api-key") in slots ==> slots[Str("hopeloze-haikus-api-key")].Text?
    ensures fresh(s) && s.Valid() && s.slots == slots && !s.trimsKey && s.idOf == HaikuId
    ensures s.itemsKey == Str("hopeloze-haikus") && s.apiKeyKey == Str("hopeloze-haikus-api-key")
  {
    assert |Str("hopeloze-haikus")| != |Str("hopeloze-haikus-api-key")|;
    s := new Store(Str("hopeloze-haikus"), Str("hopeloze-haikus-api-key"), false, HaikuId, slots);
  }
}
