/**
 * The page URL's query string as the components use it through
 * `useSearchParams`: one string value per key, changed in place by `set`
 * and `delete`, and replaced wholesale by `setSearchParams({})`.
 */
module UrlParams {
  import opened Wrappers

  class SearchParams {
    var entries: map<string, string>

    constructor (initial: map<string, string>)
      ensures entries == initial
    {
      entries := initial;
    }

    /** `searchParams.get(key)`: the value, or None (`null`) when the key is absent. */
    function Get(key: string): (r: Option<string>)
      reads this
      ensures r.Some? <==> key in entries
      ensures r.Some? ==> entries[key] == r.value
    {
      if key in entries then Some(entries[key]) else None
    }

    /** `searchParams.set(key, value)` */
    method Set(key: string, value: string)
      modifies this
      ensures entries == old(entries)[key := value]
    {
      entries := entries[key := value];
    }

    /** `searchParams.delete(key)` */
    method Delete(key: string)
      modifies this
      ensures entries == old(entries) - {key}
    {
      entries := entries - {key};
    }

    /** `setSearchParams({})` */
    method Clear()
      modifies this
      ensures entries == map[]
    {
      entries := map[];
    }
  }
}
