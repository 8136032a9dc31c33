/**
 * `fetchCategories` (crud-app/src/api/category-service.ts): a
 * read-through cache of GET /api/categories kept in local storage. The
 * request is a parameter; it is only sent on a miss.
 */
module CategoryService {
  import opened Wrappers
  import opened BrowserStorage
  import opened ItemService

  /**
   * Any stored list is a hit, the empty one included (an array is truthy).
   * On a miss the response is stored under "categories" when the request
   * succeeded, and storage is left alone when it failed.
   */
  method FetchCategories(store: Storage, response: Result<seq<string>, RequestError>)
    returns (r: Result<seq<string>, RequestError>, sent: bool)
    requires store.Valid()
    modifies store
    ensures store.Valid()
    ensures StoredCategories(old(store.entries)).Some? ==>
      r == Ok(StoredCategories(old(store.entries)).value) && !sent && store.entries == old(store.entries)
    ensures StoredCategories(old(store.entries)).None? ==>
      sent && r == response &&
      (r.Ok? ==> store.entries == old(store.entries)[CategoriesKey := CategoryNames(r.value)]) &&
      (r.Err? ==> store.entries == old(store.entries))
    ensures r.Ok? ==> StoredCategories(store.entries) == Some(r.value)
  {
    var cached := StoredCategories(store.entries);
    if cached.Some? {
      return Ok(cached.value), false;
    }
    sent := true;
    r := response;
    if r.Ok? {
      store.SetItem(CategoriesKey, CategoryNames(r.value));
    }
  }

  /** After a successful fetch, the next one returns the same list without a request. */
  method RepeatFetchHits(store: Storage, first: Result<seq<string>, RequestError>, later: Result<seq<string>, RequestError>)
    returns (r1: Result<seq<string>, RequestError>, r2: Result<seq<string>, RequestError>, sent: bool)
    requires store.Valid()
    modifies store
    ensures r1.Ok? ==> r2 == r1 && !sent
  {
    var sent1;
    r1, sent1 := FetchCategories(store, first);
    r2, sent := FetchCategories(store, later);
  }
}
