/** The browser's `localStorage`, shared by the theme toggle and the colour switcher. */
module Storage {
  import opened Wrappers

  class LocalStorage {
    var items: map<string, string>

    constructor (items: map<string, string>)
      ensures this.items == items
    {
      this.items := items;
    }

    /** `localStorage.getItem(key)`: `null` for a key never stored. */
    function GetItem(key: string): (v: Option<string>)
      reads this
      ensures v.Some? <==> key in items
      ensures v.Some? ==> v.value == items[key]
    {
      Lookup(items, key)
    }

    /** `localStorage.setItem(key, value)`: the key now holds the value, every other key is untouched. */
    method SetItem(key: string, value: string)
      modifies this
      ensures items == old(items)[key := value]
    {
      items := items[key := value];
    }
  }

  /** JavaScript truthiness of a value read with `getItem`: `null` and `""` are false. */
  predicate Truthy(v: Option<string>) {
    v.Some? && v.value != ""
  }

  /** What `getItem` returns for `key` in a storage snapshot. */
  function Lookup(items: map<string, string>, key: string): (v: Option<string>)
    ensures v.Some? <==> key in items
    ensures v.Some? ==> v.value == items[key]
  {
    if key in items then Some(items[key]) else None
  }
}
