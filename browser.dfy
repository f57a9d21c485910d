/**
 * The browser's `localStorage`, as the session store sees it: string keys in
 * the order `key(i)` enumerates them, each mapped to a session record.
 */
module Browser {
  import opened Optional
  import opened Session

  predicate Distinct(keys: seq<string>) {
    forall i, j :: 0 <= i < j < |keys| ==> keys[i] != keys[j]
  }

  /** `keys` with `key` taken out, the others kept in order. */
  function Without(keys: seq<string>, key: string): (r: seq<string>)
    ensures forall k :: k in r <==> k in keys && k != key
    ensures Distinct(keys) ==> Distinct(r)
  {
    if keys == [] then []
    else if keys[0] == key then Without(keys[1..], key)
    else
      var rest := Without(keys[1..], key);
      assert Distinct(keys) ==> keys[0] !in keys[1..];
      [keys[0]] + rest
  }

  class LocalStorage {
    var keys: seq<string>
    var items: map<string, Record>

    /** Every stored key is enumerated exactly once. */
    ghost predicate Valid()
      reads this
    {
      && Distinct(keys)
      && (forall k :: k in items <==> k in keys)
    }

    constructor ()
      ensures Valid() && keys == [] && items == map[]
    {
      keys := [];
      items := map[];
    }

    /** `localStorage.getItem(key)`, already parsed. */
    function GetItem(key: string): (r: Option<Record>)
      reads this
      ensures r.Some? <==> key in items
      ensures r.Some? ==> r.value == items[key]
    {
      if key in items then Some(items[key]) else None
    }

    /** `localStorage.setItem(key, value)`: overwrites in place, or adds the key last. */
    method SetItem(key: string, value: Record)
      requires Valid()
      modifies this
      ensures Valid()
      ensures items == old(items)[key := value]
      ensures keys == if key in old(items) then old(keys) else old(keys) + [key]
    {
      if key !in items {
        keys := keys + [key];
      }
      items := items[key := value];
    }

    /** `localStorage.removeItem(key)`; removing an absent key changes nothing. */
    method RemoveItem(key: string)
      requires Valid()
      modifies this
      ensures Valid()
      ensures items == old(items) - {key}
      ensures keys == Without(old(keys), key)
    {
      keys := Without(keys, key);
      items := items - {key};
    }
  }
}
