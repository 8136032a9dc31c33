/**
 * The item requests of the client (crud-app/src/api/item-service.ts):
 * `fetchItems`, a lookup-then-append cache of GET /api/items answers kept
 * in local storage, and `AddItem`, `EditItem`, `DeleteItem`, which drop
 * that cache after a successful change. The HTTP calls are parameters.
 */
module ItemService {
  import opened Wrappers
  import opened ItemTypes
  import opened BrowserStorage
  import Sequences

  /** Why a request failed (a rejected axios promise). */
  datatype RequestError = RequestError(status: int)

  /** The value of the first entry with `key`, as property access on the object reads it. */
  function Lookup(params: QueryParams, key: string): (r: Option<ParamValue>)
    ensures r.None? <==> forall k :: 0 <= k < |params| ==> params[k].key != key
    ensures r.Some? ==> Param(key, r.value) in params
  {
    if params == [] then None
    else if params[0].key == key then Some(params[0].value)
    else Lookup(params[1..], key)
  }

  /** The entries rest destructuring keeps when it takes `key` out. */
  function OtherKey(key: string): Param -> bool {
    (x: Param) => x.key != key
  }

  /** `params` without its entries for `key`, the rest in their order (object rest destructuring). */
  function Without(params: QueryParams, key: string): (r: QueryParams)
    ensures r == Sequences.Filter(params, OtherKey(key))
    ensures forall x :: x in r <==> x in params && x.key != key
    ensures Lookup(r, key).None?
    ensures Lookup(params, key).None? ==> r == params
    ensures |r| <= |params|
  {
    if params == [] then []
    else if params[0].key == key then Without(params[1..], key)
    else [params[0]] + Without(params[1..], key)
  }

  /** `category && category === "all"` */
  predicate IsAllCategory(params: QueryParams) {
    Lookup(params, "category") == Some(StrValue("all"))
  }

  /**
   * The params sent and used as the cache key: the category "all" means
   * no category filter, so that entry is dropped; otherwise the params
   * are used as given.
   */
  function PrepareParams(params: QueryParams): (r: QueryParams)
    ensures !IsAllCategory(r)
    ensures IsAllCategory(params) ==> forall x :: x in r <==> x in params && x.key != "category"
    ensures IsAllCategory(params) ==> r == Without(params, "category")
    ensures !IsAllCategory(params) ==> r == params
  {
    if IsAllCategory(params) then Without(params, "category") else params
  }

  /** Taking a key out of two concatenated param lists takes it out of each, in order. */
  lemma {:induction false} WithoutAppend(a: QueryParams, b: QueryParams, key: string)
    ensures Without(a + b, key) == Without(a, key) + Without(b, key)
  {
    if a != [] {
      assert (a + b)[1..] == a[1..] + b;
      WithoutAppend(a[1..], b, key);
    } else {
      assert a + b == b;
    }
  }

  /** A key absent from the front part is read from the back part. */
  lemma {:induction false} LookupAppendAbsent(a: QueryParams, b: QueryParams, key: string)
    requires forall k :: 0 <= k < |a| ==> a[k].key != key
    ensures Lookup(a + b, key) == Lookup(b, key)
  {
    if a != [] {
      assert (a + b)[1..] == a[1..] + b;
      LookupAppendAbsent(a[1..], b, key);
    } else {
      assert a + b == b;
    }
  }

  /** Category "all" anywhere among other params makes the same key as no category at all. */
  lemma AllSameAsAbsent(a: QueryParams, b: QueryParams)
    requires forall k :: 0 <= k < |a| ==> a[k].key != "category"
    requires forall k :: 0 <= k < |b| ==> b[k].key != "category"
    ensures PrepareParams(a + [Param("category", StrValue("all"))] + b) == a + b
  {
    var all := [Param("category", StrValue("all"))];
    var c := [Param("category", StrValue("all"))] + b;
    assert a + all + b == a + c;
    LookupAppendAbsent(a, c, "category");
    assert c[0] == Param("category", StrValue("all"));
    assert IsAllCategory(a + all + b);
    WithoutAppend(a, c, "category");
    assert c[1..] == b;
    assert Without(c, "category") == Without(b, "category");
    assert Lookup(a, "category").None?;
    assert Lookup(b, "category").None?;
  }

  /** Preparing prepared params changes nothing. */
  lemma PrepareParamsIdempotent(params: QueryParams)
    ensures PrepareParams(PrepareParams(params)) == PrepareParams(params)
  {
  }

  /** `cache[k]` is the first entry whose params serialise like `p`. */
  predicate IsFirstMatch(cache: seq<CacheEntry>, p: QueryParams, k: int) {
    0 <= k < |cache| && cache[k].params == p && forall j :: 0 <= j < k ==> cache[j].params != p
  }

  /**
   * `cachedItemsData.find(item => JSON.stringify(item.params) === JSON.stringify(p))`:
   * two param objects serialise alike exactly when they hold the same
   * entries in the same order.
   */
  function FindCached(cache: seq<CacheEntry>, p: QueryParams): (r: Option<PageResult>)
    ensures r.None? <==> forall k :: 0 <= k < |cache| ==> cache[k].params != p
    ensures r.Some? ==> exists k :: IsFirstMatch(cache, p, k) && cache[k].data == r.value
  {
    if cache == [] then None
    else if cache[0].params == p then
      assert IsFirstMatch(cache, p, 0);
      Some(cache[0].data)
    else
      var r := FindCached(cache[1..], p);
      if r.Some? then
        var k :| IsFirstMatch(cache[1..], p, k) && cache[1..][k].data == r.value;
        assert IsFirstMatch(cache, p, k + 1);
        r
      else r
  }

  /** An appended entry is found by its own params, and earlier hits are kept. */
  lemma {:induction false} AppendThenHit(cache: seq<CacheEntry>, p: QueryParams, q: QueryParams, data: PageResult)
    ensures FindCached(cache + [CacheEntry(p, data)], q) ==
      if FindCached(cache, q).Some? then FindCached(cache, q)
      else if q == p then Some(data) else None
  {
    if cache != [] {
      assert (cache + [CacheEntry(p, data)])[1..] == cache[1..] + [CacheEntry(p, data)];
      AppendThenHit(cache[1..], p, q, data);
    }
  }

  /** The same entries in another key order are a different cache key. */
  lemma KeyOrderMatters(data: PageResult)
    ensures var a := [Param("page", NumValue(1.0)), Param("limit", NumValue(10.0))];
      var b := [Param("limit", NumValue(10.0)), Param("page", NumValue(1.0))];
      FindCached([CacheEntry(a, data)], b).None? && FindCached([CacheEntry(a, data)], a) == Some(data)
  {
  }

  /**
   * `fetchItems(params)`. On a hit the cached answer comes back, nothing
   * is sent and storage is untouched. On a miss the prepared params are
   * sent; a successful answer is appended to the cache, a failed request
   * leaves storage as it was.
   */
  method FetchItems(store: Storage, params: QueryParams, get: QueryParams -> Result<PageResult, RequestError>)
    returns (r: Result<PageResult, RequestError>, sent: Option<QueryParams>)
    requires store.Valid()
    modifies store
    ensures store.Valid()
    ensures var p := PrepareParams(params);
      var cache := ItemsCache(old(store.entries));
      match FindCached(cache, p)
      case Some(data) =>
        r == Ok(data) && sent == None && store.entries == old(store.entries)
      case None =>
        sent == Some(p) && r == get(p) &&
        (r.Ok? ==> store.entries == old(store.entries)[ItemsKey := QueryCache(cache + [CacheEntry(p, r.value)])]) &&
        (r.Err? ==> store.entries == old(store.entries))
    ensures r.Ok? ==> FindCached(ItemsCache(store.entries), PrepareParams(params)) == Some(r.value)
  {
    var p := PrepareParams(params);
    var cache := ItemsCache(store.entries);
    if |cache| > 0 {
      var hit := FindCached(cache, p);
      if hit.Some? {
        return Ok(hit.value), None;
      }
    }
    sent := Some(p);
    r := get(p);
    if r.Ok? {
      AppendThenHit(cache, p, p, r.value);
      store.SetItem(ItemsKey, QueryCache(cache + [CacheEntry(p, r.value)]));
    }
  }

  /** A second fetch with the same params after a successful first one is answered from the cache. */
  method RepeatFetchHits(store: Storage, params: QueryParams, get: QueryParams -> Result<PageResult, RequestError>)
    returns (first: Result<PageResult, RequestError>, second: Result<PageResult, RequestError>, sent: Option<QueryParams>)
    requires store.Valid()
    modifies store
    ensures first.Ok? ==> second == first && sent == None
  {
    var sentFirst;
    first, sentFirst := FetchItems(store, params, get);
    second, sent := FetchItems(store, params, get);
  }

  /** `AddItem(body)`: POST, then drop the items cache once the request succeeded. */
  method AddItem(store: Storage, body: ItemBody, post: ItemBody -> Result<Item, RequestError>)
    returns (r: Result<Item, RequestError>)
    requires store.Valid()
    modifies store
    ensures store.Valid()
    ensures r == post(body)
    ensures r.Ok? ==> store.entries == old(store.entries) - {ItemsKey}
    ensures r.Err? ==> store.entries == old(store.entries)
  {
    r := post(body);
    if r.Ok? {
      store.RemoveItem(ItemsKey);
    }
  }

  /** `EditItem(id, body)`: PUT, then drop the items cache once the request succeeded. */
  method EditItem(store: Storage, id: string, body: ItemBody, put: (string, ItemBody) -> Result<Item, RequestError>)
    returns (r: Result<Item, RequestError>)
    requires store.Valid()
    modifies store
    ensures store.Valid()
    ensures r == put(id, body)
    ensures r.Ok? ==> store.entries == old(store.entries) - {ItemsKey}
    ensures r.Err? ==> store.entries == old(store.entries)
  {
    r := put(id, body);
    if r.Ok? {
      store.RemoveItem(ItemsKey);
    }
  }

  /** `DeleteItem(id)`: DELETE, then drop the items cache once the request succeeded. */
  method DeleteItem(store: Storage, id: string, delete: string -> Result<string, RequestError>)
    returns (r: Result<string, RequestError>)
    requires store.Valid()
    modifies store
    ensures store.Valid()
    ensures r == delete(id)
    ensures r.Ok? ==> store.entries == old(store.entries) - {ItemsKey}
    ensures r.Err? ==> store.entries == old(store.entries)
  {
    r := delete(id);
    if r.Ok? {
      store.RemoveItem(ItemsKey);
    }
  }

  /** After a change went through, the next fetch misses whatever was cached before. */
  lemma MutationEmptiesCache(entries: map<string, Stored>, p: QueryParams)
    ensures FindCached(ItemsCache(entries - {ItemsKey}), p).None?
  {
  }
}
