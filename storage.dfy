/**
 * The Forge key-value store: `storage.get`, `storage.set` and
 * `storage.delete` on one key at a time.
 */
module ForgeStorage {
  import opened Wrappers
  import opened Values

  class Storage {
    /** Every key that holds a document; a missing key reads as `undefined`. */
    var data: map<string, Value>

    constructor ()
      ensures data == map[]
    {
      data := map[];
    }

    /** `storage.get(key)`. */
    function Get(key: string): Option<Value>
      reads this
    {
      Lookup(data, key)
    }

    /** `storage.set(key, value)`. */
    method Set(key: string, value: Value)
      modifies this
      ensures data == old(data)[key := value]
    {
      data := data[key := value];
    }

    /** `storage.delete(key)`. */
    method Delete(key: string)
      modifies this
      ensures data == old(data) - {key}
    {
      data := data - {key};
    }
  }

  /** `storage.get(key)` on a given state of the store. */
  function Lookup(data: map<string, Value>, key: string): (r: Option<Value>)
    ensures r.Some? <==> key in data
    ensures r.Some? ==> r.value == data[key]
  {
    if key in data then Some(data[key]) else None
  }
}
