/**
 * The list pipeline of the mock server (mock-api-server/server.js):
 * `applySearch`, `applyFilters`, `applySort` and the pagination of
 * GET /api/items, which run in that fixed order.
 */
module ServerQuery {
  import opened Wrappers
  import opened TextOps
  import opened Sequences
  import opened ItemTypes

  // ---------------------------------------------------------------------
  // applySearch

  /** The item's lower-cased title or description contains the lower-cased term. */
  predicate MatchesSearch(x: Item, term: string) {
    Contains(Lower(x.title), Lower(term)) || Contains(Lower(x.description), Lower(term))
  }

  function SearchTest(term: string): Item -> bool {
    x => MatchesSearch(x, term)
  }

  /** `applySearch(items, searchTerm)`; an absent term is "". */
  function ApplySearch(items: seq<Item>, term: string): (r: seq<Item>)
    ensures term == "" ==> r == items
    ensures forall x :: x in r <==> x in items && (term == "" || MatchesSearch(x, term))
  {
    if term == "" then items else Filter(items, SearchTest(term))
  }

  /** A non-empty search keeps exactly the matching items, in their original order. */
  lemma SearchIsOrderedSelection(items: seq<Item>, term: string)
    requires term != ""
    ensures var r := ApplySearch(items, term);
      var idx := KeptPositions(items, SearchTest(term));
      && IsOrderedSelection(r, items, idx)
      && forall j :: 0 <= j < |items| ==> (MatchesSearch(items[j], term) <==> j in idx)
  {
    FilterIsOrderedSelection(items, SearchTest(term));
  }

  // ---------------------------------------------------------------------
  // applyFilters

  /**
   * The filter object handed to `applyFilters`. Strings are "" when absent;
   * numeric bounds are `None` when absent (the `null` of a missing query
   * parameter) and otherwise hold the parsed number.
   */
  datatype Filters = Filters(
    category: string,
    minPrice: Option<real>,
    maxPrice: Option<real>,
    startDate: string,
    endDate: string,
    minRating: Option<int>,
    minStock: Option<int>)

  /** JavaScript truthiness of a numeric bound: present and not 0. */
  predicate RealSet(b: Option<real>) { b.Some? && b.value != 0.0 }
  predicate IntSet(b: Option<int>) { b.Some? && b.value != 0 }

  /** The callback of `items.filter` in `applyFilters`: no truthy bound rejects the item. */
  predicate ItemMatches(x: Item, f: Filters) {
    && !(f.category != "" && x.category != f.category)
    && !(RealSet(f.minPrice) && x.price < f.minPrice.value)
    && !(RealSet(f.maxPrice) && x.price > f.maxPrice.value)
    && !(f.startDate != "" && LexLess(x.date, f.startDate))
    && !(f.endDate != "" && LexLess(f.endDate, x.date))
    && !(IntSet(f.minRating) && x.rating < f.minRating.value)
    && !(IntSet(f.minStock) && x.stock < f.minStock.value)
  }

  function FilterTest(f: Filters): Item -> bool {
    x => ItemMatches(x, f)
  }

  /** `applyFilters(items, filters)`. */
  function ApplyFilters(items: seq<Item>, f: Filters): (r: seq<Item>)
    ensures |r| <= |items|
    ensures forall x :: x in r <==> x in items && ItemMatches(x, f)
  {
    Filter(items, FilterTest(f))
  }

  /** `a <= b` on strings. */
  predicate LexAtMost(a: string, b: string) { a == b || LexLess(a, b) }

  /**
   * An item passes iff every truthy bound holds: equal category,
   * minPrice <= price <= maxPrice, startDate <= date <= endDate as
   * strings, rating >= minRating and stock >= minStock.
   */
  lemma {:induction false} ItemMatchesBounds(x: Item, f: Filters)
    ensures ItemMatches(x, f) <==>
      && (f.category != "" ==> x.category == f.category)
      && (RealSet(f.minPrice) ==> f.minPrice.value <= x.price)
      && (RealSet(f.maxPrice) ==> x.price <= f.maxPrice.value)
      && (f.startDate != "" ==> LexAtMost(f.startDate, x.date))
      && (f.endDate != "" ==> LexAtMost(x.date, f.endDate))
      && (IntSet(f.minRating) ==> f.minRating.value <= x.rating)
      && (IntSet(f.minStock) ==> f.minStock.value <= x.stock)
  {
    LexLessTrichotomy(x.date, f.startDate);
    LexLessTrichotomy(x.date, f.endDate);
  }

  /** With no truthy bound (every bound absent, 0 or "") nothing is removed. */
  lemma NoBoundsKeepsAll(items: seq<Item>, f: Filters)
    requires f.category == "" && f.startDate == "" && f.endDate == ""
    requires !RealSet(f.minPrice) && !RealSet(f.maxPrice)
    requires !IntSet(f.minRating) && !IntSet(f.minStock)
    ensures ApplyFilters(items, f) == items
  {
    FilterAllPass(items, FilterTest(f));
  }

  lemma {:induction false} FilterAllPass(s: seq<Item>, p: Item -> bool)
    requires forall x :: p(x)
    ensures Filter(s, p) == s
  {
    if s != [] {
      FilterAllPass(s[1..], p);
      assert s == [s[0]] + s[1..];
    }
  }

  /** Applying the same filters twice is applying them once. */
  lemma FiltersIdempotent(items: seq<Item>, f: Filters)
    ensures ApplyFilters(ApplyFilters(items, f), f) == ApplyFilters(items, f)
  {
    FilterIdempotent(items, FilterTest(f));
  }

  /** Filter objects commute: {category=C} then {minPrice=M} equals the reverse. */
  lemma FiltersCommute(items: seq<Item>, f: Filters, g: Filters)
    ensures ApplyFilters(ApplyFilters(items, f), g) == ApplyFilters(ApplyFilters(items, g), f)
  {
    FilterCommutes(items, FilterTest(f), FilterTest(g));
  }

  /** Filtering keeps the surviving items in their input order. */
  lemma FiltersAreOrderedSelection(items: seq<Item>, f: Filters)
    ensures var idx := KeptPositions(items, FilterTest(f));
      && IsOrderedSelection(ApplyFilters(items, f), items, idx)
      && forall j :: 0 <= j < |items| ==> (ItemMatches(items[j], f) <==> j in idx)
  {
    FilterIsOrderedSelection(items, FilterTest(f));
  }

  // ---------------------------------------------------------------------
  // applySort

  /** The value `a[sortField]` that the comparator looks at. */
  datatype SortKey = NumKey(n: real) | TextKey(t: string) | NoKey

  function SortKeyOf(x: Item, field: string): SortKey {
    if field == "id" then NumKey(x.id as real)
    else if field == "title" then TextKey(x.title)
    else if field == "category" then TextKey(x.category)
    else if field == "date" then TextKey(x.date)
    else if field == "price" then NumKey(x.price)
    else if field == "description" then TextKey(x.description)
    else if field == "stock" then NumKey(x.stock as real)
    else if field == "rating" then NumKey(x.rating as real)
    else NoKey
  }

  /** JavaScript `<` on two keys of the same field (`undefined` compares false). */
  predicate KeyLess(a: SortKey, b: SortKey) {
    match (a, b)
    case (NumKey(x), NumKey(y)) => x < y
    case (TextKey(s), TextKey(t)) => LexLess(s, t)
    case _ => false
  }

  /** No two keys are each below the other. */
  lemma KeyLessAsymmetric(a: SortKey, b: SortKey)
    ensures !(KeyLess(a, b) && KeyLess(b, a))
  {
    if a.TextKey? && b.TextKey? { LexLessTrichotomy(a.t, b.t); }
  }

  /** The comparator: 1 when a > b, -1 when a < b, 0 otherwise. */
  function Comparison(a: SortKey, b: SortKey): (c: int)
    ensures -1 <= c <= 1
    ensures c < 0 <==> KeyLess(a, b)
    ensures c > 0 <==> KeyLess(b, a)
  {
    KeyLessAsymmetric(a, b);
    if KeyLess(b, a) then 1 else if KeyLess(a, b) then -1 else 0
  }

  /** `sortOrder === "desc" ? comparison * -1 : comparison`. */
  function Directed(c: int, order: string): int {
    if order == "desc" then -c else c
  }

  /** `x` may stand before `y` in the sorted output. */
  predicate Precedes(x: Item, y: Item, field: string, order: string) {
    Directed(Comparison(SortKeyOf(x, field), SortKeyOf(y, field)), order) <= 0
  }

  ghost predicate SortedBy(s: seq<Item>, field: string, order: string) {
    forall i, j :: 0 <= i < j < |s| ==> Precedes(s[i], s[j], field, order)
  }

  lemma PrecedesTotal(x: Item, y: Item, field: string, order: string)
    ensures Precedes(x, y, field, order) || Precedes(y, x, field, order)
  {
    var a, b := SortKeyOf(x, field), SortKeyOf(y, field);
    if a.TextKey? && b.TextKey? { LexLessTrichotomy(a.t, b.t); }
  }

  lemma PrecedesTransitive(x: Item, y: Item, z: Item, field: string, order: string)
    requires Precedes(x, y, field, order) && Precedes(y, z, field, order)
    ensures Precedes(x, z, field, order)
  {
    var a, b, c := SortKeyOf(x, field), SortKeyOf(y, field), SortKeyOf(z, field);
    if a.TextKey? {
      LexLessTrichotomy(a.t, b.t);
      LexLessTrichotomy(b.t, c.t);
      LexLessTrichotomy(a.t, c.t);
      if LexLess(a.t, b.t) && LexLess(b.t, c.t) { LexLessTransitive(a.t, b.t, c.t); }
      if LexLess(b.t, a.t) && LexLess(c.t, b.t) { LexLessTransitive(c.t, b.t, a.t); }
    }
  }

  /** Insert `x` before the first element it may precede (stable for the head element). */
  function Insert(x: Item, s: seq<Item>, field: string, order: string): seq<Item> {
    if s == [] then [x]
    else if Precedes(x, s[0], field, order) then [x] + s
    else [s[0]] + Insert(x, s[1..], field, order)
  }

  lemma InsertAtFrontSorted(x: Item, s: seq<Item>, field: string, order: string)
    requires SortedBy(s, field, order) && s != [] && Precedes(x, s[0], field, order)
    ensures SortedBy([x] + s, field, order)
  {
    var r := [x] + s;
    forall i, j | 0 <= i < j < |r| ensures Precedes(r[i], r[j], field, order) {
      if i == 0 && j > 1 {
        assert Precedes(s[0], s[j - 1], field, order);
        PrecedesTransitive(x, s[0], s[j - 1], field, order);
      } else if i > 0 {
        assert r[i] == s[i - 1] && r[j] == s[j - 1];
      }
    }
  }

  lemma ConsSorted(y: Item, u: seq<Item>, field: string, order: string)
    requires SortedBy(u, field, order)
    requires forall k :: 0 <= k < |u| ==> Precedes(y, u[k], field, order)
    ensures SortedBy([y] + u, field, order)
  {
    var r := [y] + u;
    forall i, j | 0 <= i < j < |r| ensures Precedes(r[i], r[j], field, order) {
      if i == 0 { assert r[j] == u[j - 1]; } else { assert r[i] == u[i - 1] && r[j] == u[j - 1]; }
    }
  }

  lemma {:induction false} InsertSorted(x: Item, s: seq<Item>, field: string, order: string)
    requires SortedBy(s, field, order)
    ensures multiset(Insert(x, s, field, order)) == multiset(s) + multiset{x}
    ensures SortedBy(Insert(x, s, field, order), field, order)
  {
    if s == [] {
    } else if Precedes(x, s[0], field, order) {
      InsertAtFrontSorted(x, s, field, order);
      assert s == [s[0]] + s[1..];
    } else {
      PrecedesTotal(x, s[0], field, order);
      var t := s[1..];
      assert SortedBy(t, field, order) by {
        forall i, j | 0 <= i < j < |t| ensures Precedes(t[i], t[j], field, order) {
          assert t[i] == s[i + 1] && t[j] == s[j + 1];
        }
      }
      InsertSorted(x, t, field, order);
      var u := Insert(x, t, field, order);
      forall k | 0 <= k < |u| ensures Precedes(s[0], u[k], field, order) {
        assert u[k] in multiset(u);
        if u[k] != x {
          assert u[k] in multiset(t);
          var m :| 0 <= m < |t| && t[m] == u[k];
          assert s[m + 1] == u[k];
        }
      }
      ConsSorted(s[0], u, field, order);
      assert s == [s[0]] + t;
    }
  }

  /** A stable sort by the comparator (Array.prototype.sort is stable). */
  function SortItems(s: seq<Item>, field: string, order: string): (r: seq<Item>)
    ensures multiset(r) == multiset(s)
    ensures SortedBy(r, field, order)
  {
    if s == [] then []
    else
      var t := SortItems(s[1..], field, order);
      InsertSorted(s[0], t, field, order);
      HeadTailMultiset(s);
      Insert(s[0], t, field, order)
  }

  lemma HeadTailMultiset(s: seq<Item>)
    requires s != []
    ensures multiset(s) == multiset(s[1..]) + multiset{s[0]}
  {
    assert s == [s[0]] + s[1..];
  }

  /**
   * `applySort(items, sortField, sortOrder)` on a copy: with no field the
   * input comes back; otherwise a permutation that is nondecreasing in the
   * field, or nonincreasing when the order is "desc".
   */
  function ApplySort(items: seq<Item>, field: string, order: string): (r: seq<Item>)
    ensures field == "" ==> r == items
    ensures multiset(r) == multiset(items)
    ensures field != "" && order != "desc" ==>
      forall i, j :: 0 <= i < j < |r| ==> !KeyLess(SortKeyOf(r[j], field), SortKeyOf(r[i], field))
    ensures field != "" && order == "desc" ==>
      forall i, j :: 0 <= i < j < |r| ==> !KeyLess(SortKeyOf(r[i], field), SortKeyOf(r[j], field))
  {
    if field == "" then items
    else
      var r := SortItems(items, field, order);
      assert forall i, j :: 0 <= i < j < |r| ==> Precedes(r[i], r[j], field, order);
      forall i, j | 0 <= i < j < |r|
        ensures order != "desc" ==> !KeyLess(SortKeyOf(r[j], field), SortKeyOf(r[i], field))
        ensures order == "desc" ==> !KeyLess(SortKeyOf(r[i], field), SortKeyOf(r[j], field))
      {
        assert Precedes(r[i], r[j], field, order);
        var a, b := SortKeyOf(r[i], field), SortKeyOf(r[j], field);
        if a.TextKey? && b.TextKey? { LexLessTrichotomy(a.t, b.t); }
      }
      r
  }

  /** Sorting by price ascending yields nondecreasing prices. */
  lemma SortByPriceAscending(items: seq<Item>, order: string)
    requires order != "desc"
    ensures var r := ApplySort(items, "price", order);
      forall i, j :: 0 <= i < j < |r| ==> r[i].price <= r[j].price
  {
    var r := ApplySort(items, "price", order);
    forall i, j | 0 <= i < j < |r| ensures r[i].price <= r[j].price {
      assert !KeyLess(SortKeyOf(r[j], "price"), SortKeyOf(r[i], "price"));
    }
  }

  /** A field the records do not have compares every pair equal, so the order is kept. */
  lemma {:induction false} SortByUnknownFieldKeepsOrder(items: seq<Item>, field: string, order: string)
    requires forall x :: SortKeyOf(x, field) == NoKey
    ensures SortItems(items, field, order) == items
  {
    if items != [] {
      SortByUnknownFieldKeepsOrder(items[1..], field, order);
      assert items == [items[0]] + items[1..];
    }
  }

  // ---------------------------------------------------------------------
  // Pagination of GET /api/items

  /** Where `Array.prototype.slice` puts a (possibly negative) index. */
  function RelativeIndex(k: int, n: nat): (r: nat)
    ensures r <= n
  {
    if k < 0 then (if n + k < 0 then 0 else n + k) else if k < n then k else n
  }

  /** `s.slice(start, end)`. */
  function JsSlice<T>(s: seq<T>, start: int, end: int): (r: seq<T>)
    ensures |r| <= |s|
    ensures forall x :: x in r ==> x in s
    ensures 0 <= start <= end <= |s| ==> r == s[start..end]
    ensures start >= |s| ==> r == []
  {
    var i := RelativeIndex(start, |s|);
    var j := RelativeIndex(end, |s|);
    if i < j then s[i..j] else []
  }

  /** `Math.ceil(n / d)` for a positive divisor. */
  function CeilDiv(n: nat, d: int): (q: nat)
    requires d >= 1
    ensures n <= q * d
    ensures q == 0 || (q - 1) * d < n
    ensures q == 0 <==> n == 0
  {
    var q := (n + d - 1) / d;
    assert d * q <= n + d - 1 < d * q + d;
    q
  }

  /** The query of GET /api/items; `page` and `limit` default to 1 and 10. */
  datatype ListQuery = ListQuery(
    page: Option<int>,
    limit: Option<int>,
    search: string,
    filters: Filters,
    sortBy: string,
    sortOrder: string)

  function PageOf(q: ListQuery): int { q.page.GetOr(1) }
  function LimitOf(q: ListQuery): int { q.limit.GetOr(10) }

  /** The records that survive search then filter, before sorting and slicing. */
  function Matching(items: seq<Item>, q: ListQuery): seq<Item> {
    ApplyFilters(ApplySearch(items, q.search), q.filters)
  }

  /** The sorted result that the page is cut from. */
  function Ordered(items: seq<Item>, q: ListQuery): seq<Item> {
    ApplySort(Matching(items, q), q.sortBy, q.sortOrder)
  }

  function Clip(k: int, n: nat): (r: nat)
    ensures r <= n
  {
    if k < 0 then 0 else if k < n then k else n
  }

  /** The elements of `s` at the positions `lo <= i < hi` that exist, in order. */
  function Positions<T>(s: seq<T>, lo: int, hi: int): seq<T> {
    var i := Clip(lo, |s|);
    var j := Clip(hi, |s|);
    if i <= j then s[i..j] else []
  }

  /** The facts about `results.slice(lo, lo + limit)` that GET /api/items relies on. */
  lemma SliceFacts<T>(results: seq<T>, lo: int, hi: int, limit: int)
    requires limit >= 1 && hi == lo + limit
    ensures var r := JsSlice(results, lo, hi);
      var n := |results|;
      && |r| <= limit
      && (forall x :: x in r ==> x in results)
      && (lo >= n ==> r == [])
      && (lo >= 0 ==> r == Positions(results, lo, hi))
  {
  }

  lemma MulDistributes(p: int, l: int)
    ensures p * l == (p - 1) * l + l
  {
  }

  lemma {:induction false} MulNonNegative(a: nat, b: nat)
    ensures a * b >= 0
  {
  }

  lemma MulMonotone(a: int, b: int, c: nat)
    requires a <= b
    ensures a * c <= b * c
  {
    MulNonNegative(b - a, c);
    assert b * c == a * c + (b - a) * c;
  }

  /** The page arithmetic: consecutive pages are `limit` apart and the ones past the last start beyond the end. */
  lemma PageArithmetic(n: nat, page: int, limit: int)
    requires limit >= 1
    ensures page * limit == (page - 1) * limit + limit
    ensures page > CeilDiv(n, limit) ==> (page - 1) * limit >= n
    ensures page >= 1 ==> (page - 1) * limit >= 0
  {
    MulDistributes(page, limit);
    var pages := CeilDiv(n, limit);
    if page > pages {
      MulMonotone(pages, page - 1, limit);
    }
    if page >= 1 {
      MulNonNegative(page - 1, limit);
    }
  }

  lemma SortedResultsFacts(items: seq<Item>, q: ListQuery)
    ensures |Ordered(items, q)| == |Matching(items, q)|
    ensures forall x :: x in Ordered(items, q) ==> x in Matching(items, q)
    ensures forall x :: x in Ordered(items, q) ==> x in items
  {
    var results := Ordered(items, q);
    assert |multiset(results)| == |multiset(Matching(items, q))|;
    forall x | x in results ensures x in Matching(items, q) {
      assert x in multiset(results);
    }
  }

  /**
   * GET /api/items. `totalItems` counts the records after search and
   * filter; `totalPages` is its ceiling over `limit`; the items are the
   * slice [(page-1)*limit, page*limit) of the sorted result, so at most
   * `limit` of them and none past the last page.
   */
  function ListItems(items: seq<Item>, q: ListQuery): (r: PageResult)
    requires LimitOf(q) >= 1
    ensures r.totalItems == |Matching(items, q)|
    ensures r.totalPages == 0 <==> r.totalItems == 0
    ensures r.totalItems <= r.totalPages * LimitOf(q)
    ensures r.totalPages == 0 || (r.totalPages - 1) * LimitOf(q) < r.totalItems
    ensures r.currentPage == PageOf(q)
    ensures |r.items| <= LimitOf(q)
    ensures forall x :: x in r.items ==> x in items && x in Matching(items, q)
    ensures PageOf(q) > r.totalPages ==> r.items == []
    ensures PageOf(q) >= 1 ==>
      r.items == Positions(Ordered(items, q), (PageOf(q) - 1) * LimitOf(q), PageOf(q) * LimitOf(q))
  {
    var page, limit := PageOf(q), LimitOf(q);
    var results := Ordered(items, q);
    var n := |results|;
    var lo, hi := (page - 1) * limit, page * limit;
    SortedResultsFacts(items, q);
    PageArithmetic(n, page, limit);
    SliceFacts(results, lo, hi, limit);
    PageResult(JsSlice(results, lo, hi), n, CeilDiv(n, limit), page)
  }
}
