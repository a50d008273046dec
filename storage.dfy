/** The browser's durable key-value storage, of which the dashboard uses the key "token". */
module Storage {
  import opened Wrappers

  const TokenKey: string := "token"

  class LocalStorage {
    var entries: map<string, string>

    /** Storage outlives the page: it starts with whatever an earlier session left. */
    constructor (entries: map<string, string>)
      ensures this.entries == entries
    {
      this.entries := entries;
    }

    /** `localStorage.getItem(key)`: the stored string, or `null` when the key is absent. */
    function GetItem(key: string): (r: Option<string>)
      reads this
      ensures r.Some? <==> key in entries
      ensures r.Some? ==> r.value == entries[key]
    {
      if key in entries then Some(entries[key]) else None
    }

    method SetItem(key: string, value: string)
      modifies this
      ensures entries == old(entries)[key := value]
    {
      entries := entries[key := value];
    }

    method RemoveItem(key: string)
      modifies this
      ensures entries == old(entries) - {key}
    {
      entries := entries - {key};
    }
  }
}
