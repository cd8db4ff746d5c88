/**
 * The dictionary-backed cache manager: one entry per key, replace on add,
 * compute-if-absent reads. Regions and policies are accepted and ignored.
 */
module Cache {
  import opened Wrappers

  /** Expiry settings a caller may pass; this cache never looks at them. */
  datatype CachePolicy = CachePolicy(expiresAfterSeconds: int)

  /**
   * The cache. A stored value is an `Option` because a caller may store null;
   * `None` as a read result is the `default` a reference-typed read returns.
   */
  class DictionaryCacheManager<V> {
    var cache: map<string, Option<V>>

    constructor ()
      ensures cache == map[]
    {
      cache := map[];
    }

    /** `Add(key, value)`: replaces any entry under `key`; always reports true. */
    method Add(key: string, value: Option<V>) returns (r: bool)
      modifies this
      ensures r
      ensures cache == old(cache)[key := value]
    {
      if key in cache {
        cache := cache - {key};
      }
      cache := cache[key := value];
      r := true;
    }

    /** The `Add` overloads taking a region, a policy or both: the same as `Add`. */
    method AddIn(key: string, value: Option<V>, region: Option<string>, policy: Option<CachePolicy>) returns (r: bool)
      modifies this
      ensures r
      ensures cache == old(cache)[key := value]
    {
      r := Add(key, value);
    }

    /** `Clear()`: drops every entry. */
    method Clear()
      modifies this
      ensures cache == map[]
    {
      cache := map[];
    }

    /** `ClearRegion(region)`: drops every entry, whatever the region. */
    method ClearRegion(region: Option<string>)
      modifies this
      ensures cache == map[]
    {
      Clear();
    }

    /** `Exists(key)` and `Exists(key, region)`: the key has an entry, even a null one. */
    function Exists(key: string): (r: bool)
      reads this
      ensures r <==> key in cache
    {
      key in cache
    }

    /** `Get(key)` and `Get(key, region)`: the stored value, or null when absent. */
    function Get(key: string): (r: Option<V>)
      reads this
      ensures key in cache ==> r == cache[key]
      ensures key !in cache ==> r.None?
      ensures r.Some? ==> Exists(key)
    {
      if key in cache then cache[key] else None
    }

    /** `Remove(key)` and `Remove(key, region)`: drops only `key`; always reports true. */
    method Remove(key: string) returns (r: bool)
      modifies this
      ensures r
      ensures cache == old(cache) - {key}
      ensures key !in old(cache) ==> cache == old(cache)
    {
      if key in cache {
        cache := cache - {key};
      }
      r := true;
    }

    /**
     * `Get(key, getItem, region[, policy])`: a non-null cached value is returned
     * and `getItem` is not called; otherwise `item` (what `getItem` returns) is
     * stored and returned, and `called` reports that `getItem` ran.
     */
    method GetOrAdd(key: string, item: Option<V>, region: Option<string>, policy: Option<CachePolicy>)
      returns (r: Option<V>, called: bool)
      modifies this
      ensures called <==> old(Get(key)).None?
      ensures !called ==> r == old(Get(key)) && cache == old(cache)
      ensures called ==> r == item && cache == old(cache)[key := item]
    {
      r := Get(key);
      called := false;
      if r.None? {
        r := item;
        called := true;
        var _ := AddIn(key, r, region, policy);
      }
    }

    /** `GetAsync(key, getItem, region)`: the same compute-if-absent read. */
    method GetAsync(key: string, item: Option<V>, region: Option<string>)
      returns (r: Option<V>, called: bool)
      modifies this
      ensures called <==> old(Get(key)).None?
      ensures !called ==> r == old(Get(key)) && cache == old(cache)
      ensures called ==> r == item && cache == old(cache)[key := item]
    {
      r, called := GetOrAdd(key, item, region, None);
    }
  }

  /** An add is read back; other keys are unaffected. */
  method AddThenGet<V>(c: DictionaryCacheManager<V>, key: string, other: string, value: Option<V>)
    modifies c
    ensures c.Get(key) == value && c.Exists(key)
    ensures other != key ==> c.Get(other) == old(c.Get(other))
  {
    var _ := c.Add(key, value);
  }

  /** Two reads through `GetOrAdd` call `getItem` at most once when it returns a value. */
  method GetOrAddTwice<V>(c: DictionaryCacheManager<V>, key: string, item: V, later: Option<V>)
    returns (first: Option<V>, second: Option<V>, calledAgain: bool)
    modifies c
    ensures !calledAgain && second == first
  {
    var calledFirst;
    first, calledFirst := c.GetOrAdd(key, Some(item), None, None);
    second, calledAgain := c.GetOrAdd(key, later, None, None);
  }

  /** A stored null does not count as a hit: the next read calls `getItem` again. */
  method NullIsRecomputed<V>(c: DictionaryCacheManager<V>, key: string, item: Option<V>)
    returns (called: bool)
    modifies c
    ensures called
  {
    var _ := c.Add(key, None);
    var r;
    r, called := c.GetOrAdd(key, item, None, None);
  }
}
