/** The look-aside cache the product handler talks to, reduced to what the
    handler can observe: a map from keys to values, each stored with the
    time-to-live it was written with. Every call may fail (the server is
    unreachable, the context is done); the flag `fails` says whether it did,
    and a failed call changes nothing. Expiry, eviction and serialisation are
    not part of this model. */
module KeyValueCache {

  import opened Optional
  import opened ProductStore

  /** What the handler stores: a product list or a single product. */
  datatype Value = ProductsValue(items: seq<Product>) | ProductValue(item: Product)

  /** A stored value and the time-to-live, in seconds, it was written with. */
  datatype Entry = Entry(value: Value, ttl: int)

  type Entries = map<string, Entry>

  /** `Get`: the value under `key`, or nothing when the key is absent or the
      call failed (the handler cannot tell the two apart). */
  function Lookup(m: Entries, key: string, fails: bool): (r: Option<Value>)
    ensures r.Some? <==> !fails && key in m
    ensures r.Some? ==> r.value == m[key].value
  {
    if !fails && key in m then Some(m[key].value) else None
  }

  /** `Set`: overwrite `key`; the other keys keep their entries. */
  function Store(m: Entries, key: string, v: Value, ttl: int, fails: bool): (r: Entries)
    ensures !fails ==> key in r && r[key] == Entry(v, ttl)
    ensures forall k :: k != key ==> (k in r <==> k in m) && (k in r ==> r[k] == m[k])
    ensures fails ==> r == m
  {
    if fails then m else m[key := Entry(v, ttl)]
  }

  /** `Delete(keys...)`: remove every listed key; absent keys are no error;
      the other keys keep their entries. */
  function Evict(m: Entries, keys: set<string>, fails: bool): (r: Entries)
    ensures !fails ==> forall k :: k in keys ==> k !in r
    ensures forall k :: k !in keys ==> (k in r <==> k in m) && (k in r ==> r[k] == m[k])
    ensures fails ==> r == m
  {
    if fails then m else m - keys
  }

  class Cache {
    var entries: Entries

    constructor ()
      ensures entries == map[]
    {
      entries := map[];
    }

    method Get(key: string, fails: bool) returns (r: Option<Value>)
      ensures r == Lookup(entries, key, fails)
    {
      if !fails && key in entries {
        r := Some(entries[key].value);
      } else {
        r := None;
      }
    }

    /** Returns whether the call failed. */
    method Set(key: string, v: Value, ttl: int, fails: bool) returns (failed: bool)
      modifies this
      ensures failed == fails
      ensures entries == Store(old(entries), key, v, ttl, fails)
    {
      if !fails {
        entries := entries[key := Entry(v, ttl)];
      }
      failed := fails;
    }

    /** Returns whether the call failed. */
    method Delete(keys: seq<string>, fails: bool) returns (failed: bool)
      modifies this
      ensures failed == fails
      ensures entries == Evict(old(entries), (set k | k in keys), fails)
    {
      if !fails {
        entries := entries - (set k | k in keys);
      }
      failed := fails;
    }
  }
}
