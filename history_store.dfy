/**
 * A history store over localStorage (js/storage.js and the storage modules of
 * src/utils): one slot holds the JSON list of items, newest first, another
 * the Gemini API key. Every store has the same operations; they differ in their
 * two keys and in whether the presence check trims the key.
 */
module HistoryStore {
  import opened Wrappers
  import opened JsStrings
  import opened BoundedHistory

  /**
   * What getItem returns for a key, as the store reads it: nothing, a value
   * JSON.parse rejects, a JSON list of items, or a plain string (the API key).
   */
  datatype Slot<T> = Absent | Corrupt | Items(items: seq<T>) | Text(text: JsString)

  /** The items a slot holds when read as a list: `[]` unless it parses as one. */
  function ItemsIn<T>(slot: Option<Slot<T>>): (r: seq<T>)
    ensures slot.None? || !slot.value.Items? ==> r == []
  {
    if slot.Some? && slot.value.Items? then slot.value.items else []
  }

  class Store<T> {
    const itemsKey: JsString
    const apiKeyKey: JsString
    /** Whether hasApiKey trims the key before its length test. */
    const trimsKey: bool
    const idOf: T -> JsString
    /** localStorage: the value under each key. */
    var slots: map<JsString, Slot<T>>

    ghost predicate Valid()
      reads this
    {
      itemsKey != apiKeyKey && (apiKeyKey in slots ==> slots[apiKeyKey].Text?)
    }

    /** The list a read of the items slot yields. */
    function Stored(): seq<T>
      reads this
    {
      ItemsIn(if itemsKey in slots then Some(slots[itemsKey]) else None)
    }

    /** The API key a read of its slot yields. */
    function StoredKey(): Option<JsString>
      reads this
    {
      if apiKeyKey in slots && slots[apiKeyKey].Text? then Some(slots[apiKeyKey].text) else None
    }

    constructor(itemsKey: JsString, apiKeyKey: JsString, trimsKey: bool, idOf: T -> JsString, slots: map<JsString, Slot<T>>)
      requires itemsKey != apiKeyKey && (apiKeyKey in slots ==> slots[apiKeyKey].Text?)
      ensures Valid()
      ensures this.itemsKey == itemsKey && this.apiKeyKey == apiKeyKey && this.trimsKey == trimsKey
      ensures this.idOf == idOf && this.slots == slots
    {
      this.itemsKey := itemsKey;
      this.apiKeyKey := apiKeyKey;
      this.trimsKey := trimsKey;
      this.idOf := idOf;
      this.slots := slots;
    }

    /** get…: the stored list; `[]` when the slot is missing or does not parse. */
    method GetItems() returns (items: seq<T>)
      ensures items == Stored()
      ensures itemsKey !in slots || !slots[itemsKey].Items? ==> items == []
    {
      if itemsKey in slots {
        match slots[itemsKey]
        case Items(xs) => items := xs;
        case _ => items := [];
      } else {
        items := [];
      }
    }

    /**
     * save…: unshift the item, keep the first fifty, write the list back.
     * A failed write (`writeOk` false) reports false and changes nothing.
     */
    method Save(item: T, writeOk: bool) returns (ok: bool)
      requires Valid()
      modifies this
      ensures Valid()
      ensures ok == writeOk
      ensures ok ==> slots == old(slots)[itemsKey := Items(Prepended(old(Stored()), item))]
      ensures !ok ==> slots == old(slots)
    {
      var history := GetItems();
      history := [item] + history;
      var trimmed := history[..if |history| < MaxItems then |history| else MaxItems];
      assert trimmed == Prepended(old(Stored()), item);
      if !writeOk {
        return false;
      }
      slots := slots[itemsKey := Items(trimmed)];
      return true;
    }

    /** delete…: write back the items whose id differs; false and no change when the write fails. */
    method Delete(id: JsString, writeOk: bool) returns (ok: bool)
      requires Valid()
      modifies this
      ensures Valid()
      ensures ok == writeOk
      ensures ok ==> slots == old(slots)[itemsKey := Items(WithoutId(old(Stored()), idOf, id))]
      ensures !ok ==> slots == old(slots)
    {
      var history := GetItems();
      var filtered := WithoutId(history, idOf, id);
      if !writeOk {
        return false;
      }
      slots := slots[itemsKey := Items(filtered)];
      return true;
    }

    /** clearAllTongbrekers: remove the items slot; false and no change when removal fails. */
    method Clear(writeOk: bool) returns (ok: bool)
      requires Valid()
      modifies this
      ensures Valid()
      ensures ok == writeOk
      ensures ok ==> slots == old(slots) - {itemsKey} && Stored() == []
      ensures !ok ==> slots == old(slots)
    {
      if !writeOk {
        return false;
      }
      slots := slots - {itemsKey};
      return true;
    }

    /** getApiKey: the stored key, or None. */
    method GetApiKey() returns (key: Option<JsString>)
      ensures key == StoredKey()
      ensures apiKeyKey !in slots ==> key.None?
    {
      if apiKeyKey in slots && slots[apiKeyKey].Text? {
        key := Some(slots[apiKeyKey].text);
      } else {
        key := None;
      }
    }

    /** saveApiKey: store the key verbatim; the items slot is left alone. */
    method SaveApiKey(key: JsString, writeOk: bool) returns (ok: bool)
      requires Valid()
      modifies this
      ensures Valid()
      ensures ok == writeOk
      ensures ok ==> slots == old(slots)[apiKeyKey := Text(key)] && StoredKey() == Some(key)
      ensures Stored() == old(Stored())
      ensures !ok ==> slots == old(slots)
    {
      if !writeOk {
        return false;
      }
      slots := slots[apiKeyKey := Text(key)];
      return true;
    }

    /**
     * hasApiKey: a key is stored and it is not empty; the trimming stores
     * also reject a key of white space only.
     */
    function HasApiKey(): (r: bool)
      reads this
      ensures r <==>
        (StoredKey().Some? && (if trimsKey then !IsBlank(StoredKey().value) else StoredKey().value != []))
    {
      match StoredKey()
      case None => false
      case Some(key) => if trimsKey then |Trim(key)| > 0 else |key| > 0
    }
  }
}
