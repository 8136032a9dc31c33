/**
 * The browser's `localStorage` as the client uses it
 * (crud-app/src/lib/local-storage.ts): a key/value store whose values are
 * the JSON documents the client writes. Parsing and serialising are left
 * out; a stored value is kept as the structure that was written.
 */
module BrowserStorage {
  import opened Wrappers
  import opened ItemTypes

  /** One cached answer of GET /api/items, with the params it was fetched for. */
  datatype CacheEntry = CacheEntry(params: QueryParams, data: PageResult)

  /** The two documents the client stores. */
  datatype Stored = QueryCache(entries: seq<CacheEntry>) | CategoryNames(names: seq<string>)

  const ItemsKey := "items"
  const CategoriesKey := "categories"

  /** Each key holds the kind of document the client writes under it. */
  predicate WellTyped(entries: map<string, Stored>) {
    (ItemsKey in entries ==> entries[ItemsKey].QueryCache?) &&
    (CategoriesKey in entries ==> entries[CategoriesKey].CategoryNames?)
  }

  /** `getFromLocalStorage("items") || []`: the cached answers, oldest first. */
  function ItemsCache(entries: map<string, Stored>): (r: seq<CacheEntry>)
    ensures ItemsKey !in entries ==> r == []
    ensures ItemsKey in entries && entries[ItemsKey].QueryCache? ==> r == entries[ItemsKey].entries
  {
    if ItemsKey in entries && entries[ItemsKey].QueryCache? then entries[ItemsKey].entries else []
  }

  /** `getFromLocalStorage("categories")`: the stored list, or None when there is none. */
  function StoredCategories(entries: map<string, Stored>): (r: Option<seq<string>>)
    ensures r.Some? <==> CategoriesKey in entries && entries[CategoriesKey].CategoryNames?
    ensures r.Some? ==> entries[CategoriesKey] == CategoryNames(r.value)
  {
    if CategoriesKey in entries && entries[CategoriesKey].CategoryNames? then Some(entries[CategoriesKey].names) else None
  }

  class Storage {
    var entries: map<string, Stored>

    predicate Valid()
      reads this
    {
      WellTyped(entries)
    }

    constructor ()
      ensures entries == map[]
      ensures Valid()
    {
      entries := map[];
    }

    /** `setToLocalStorage(key, value)`: overwrites the key and nothing else. */
    method SetItem(key: string, value: Stored)
      requires Valid()
      requires key == ItemsKey ==> value.QueryCache?
      requires key == CategoriesKey ==> value.CategoryNames?
      modifies this
      ensures entries == old(entries)[key := value]
      ensures Valid()
    {
      entries := entries[key := value];
    }

    /** `removeFromLocalStorage(key)`: drops the key and nothing else. */
    method RemoveItem(key: string)
      requires Valid()
      modifies this
      ensures entries == old(entries) - {key}
      ensures Valid()
    {
      entries := entries - {key};
    }
  }
}
