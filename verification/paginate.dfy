/**
 * The pager under the table (crud-app/src/components/paginate-data-table.tsx):
 * the window of up to five page buttons, the first/prev/next/last
 * handlers that write `page` into the URL, the "Showing x to y" line and
 * the disabled states of the four arrow buttons.
 */
module Paginate {
  import opened Wrappers
  import opened TextOps
  import opened ItemTypes
  import opened ServerQuery
  import opened UrlParams

  function Min(a: int, b: int): int { if a <= b then a else b }
  function Max(a: int, b: int): int { if a >= b then a else b }

  /** The number on the `i`-th page button. */
  function PageNumber(currentPage: int, totalPages: int, i: int): (p: int)
    ensures 0 <= i < 5 && i < totalPages ==> 1 <= p <= totalPages
  {
    if totalPages <= 5 then i + 1
    else if currentPage <= 3 then i + 1
    else if currentPage >= totalPages - 2 then totalPages - 4 + i
    else currentPage - 2 + i
  }

  /**
   * The page buttons: `Math.min(5, totalPages)` of them, consecutive and
   * within [1, totalPages] whatever the current page is, and showing the
   * current page whenever it is a real page.
   */
  function PageWindow(currentPage: int, totalPages: int): (w: seq<int>)
    ensures |w| == Max(0, Min(5, totalPages))
    ensures forall i :: 0 <= i < |w| ==> 1 <= w[i] <= totalPages
    ensures forall i :: 0 < i < |w| ==> w[i] == w[i - 1] + 1
    ensures 1 <= currentPage <= totalPages ==> currentPage in w
  {
    var n := Max(0, Min(5, totalPages));
    var w := seq(n, i requires 0 <= i < n => PageNumber(currentPage, totalPages, i));
    assert 1 <= currentPage <= totalPages ==> w[currentPage - w[0]] == currentPage;
    w
  }

  /** The page `nextPage` asks for. */
  function NextTarget(currentPage: int, totalPages: int): (p: int)
    ensures p <= totalPages
    ensures currentPage < totalPages ==> p == currentPage + 1
    ensures currentPage >= totalPages ==> p == totalPages
  {
    Min(currentPage + 1, totalPages)
  }

  /** The page `prevPage` asks for. */
  function PrevTarget(currentPage: int): (p: int)
    ensures p >= 1
    ensures currentPage > 1 ==> p == currentPage - 1
    ensures currentPage <= 1 ==> p == 1
  {
    Max(currentPage - 1, 1)
  }

  /** The URL value the handlers write: `pageNumber.toString()`. */
  function PageText(page: int): (s: string)
    ensures |s| > 0
  {
    IntToString(page)
  }

  /** Rendering page numbers into the URL loses nothing: distinct pages give distinct text. */
  lemma PageTextInjective(a: int, b: int)
    requires a != b
    ensures PageText(a) != PageText(b)
  {
    IntToStringInjective(a, b);
  }

  lemma IntToStringInjective(a: int, b: int)
    requires a != b
    ensures IntToString(a) != IntToString(b)
  {
    var s, t := IntToString(a), IntToString(b);
    if a >= 0 && b >= 0 {
      NatToStringRoundTrip(a);
      NatToStringRoundTrip(b);
    } else if a < 0 && b < 0 {
      NatToStringRoundTrip(-a);
      NatToStringRoundTrip(-b);
      assert s[1..] != t[1..];
    } else if a >= 0 {
      assert IsDigit(s[0]) && t[0] == '-';
    } else {
      assert s[0] == '-' && IsDigit(t[0]);
    }
  }

  /** `paginate(pageNumber)` */
  method GoToPage(url: SearchParams, pageNumber: int)
    modifies url
    ensures url.entries == old(url.entries)["page" := PageText(pageNumber)]
  {
    url.Set("page", PageText(pageNumber));
  }

  /** `nextPage()`: one page forward, never past the last. */
  method NextPage(url: SearchParams, data: PageResult)
    modifies url
    ensures url.entries == old(url.entries)["page" := PageText(NextTarget(data.currentPage, data.totalPages))]
  {
    url.Set("page", PageText(Min(data.currentPage + 1, data.totalPages)));
  }

  /** `prevPage()`: one page back, never before the first. */
  method PrevPage(url: SearchParams, data: PageResult)
    modifies url
    ensures url.entries == old(url.entries)["page" := PageText(PrevTarget(data.currentPage))]
  {
    url.Set("page", PageText(Max(data.currentPage - 1, 1)));
  }

  /** `firstPage()` */
  method FirstPage(url: SearchParams)
    modifies url
    ensures url.entries == old(url.entries)["page" := "1"]
  {
    url.Set("page", "1");
  }

  /** `lastPage()` */
  method LastPage(url: SearchParams, data: PageResult)
    modifies url
    ensures url.entries == old(url.entries)["page" := PageText(data.totalPages)]
  {
    url.Set("page", PageText(data.totalPages));
  }

  /** First and previous are disabled on page 1. */
  predicate BackDisabled(data: PageResult) { data.currentPage == 1 }

  /** Next and last are disabled on the last page. */
  predicate ForwardDisabled(data: PageResult) { data.currentPage == data.totalPages }

  /**
   * On a real page the disabled states are exact: an enabled back button
   * moves one page back and an enabled forward button one page on, while
   * a disabled one would have stayed put.
   */
  lemma DisabledMeansNoMove(data: PageResult)
    requires 1 <= data.currentPage <= data.totalPages
    ensures BackDisabled(data) <==> PrevTarget(data.currentPage) == data.currentPage
    ensures ForwardDisabled(data) <==> NextTarget(data.currentPage, data.totalPages) == data.currentPage
    ensures !BackDisabled(data) ==> PrevTarget(data.currentPage) == data.currentPage - 1
    ensures !ForwardDisabled(data) ==> NextTarget(data.currentPage, data.totalPages) == data.currentPage + 1
  {
  }

  /**
   * With no matching records the server reports page 1 of 0, so the
   * forward buttons stay enabled and "next" asks for page 0.
   */
  lemma EmptyResultNextTargetsPageZero(data: PageResult)
    requires data.currentPage == 1 && data.totalPages == 0
    ensures !ForwardDisabled(data) && NextTarget(data.currentPage, data.totalPages) == 0
    ensures PageWindow(data.currentPage, data.totalPages) == []
  {
  }

  // ---------------------------------------------------------------------
  // "Showing x to y of n entries"

  /** The range the line shows for the URL's `page` and `limit`, as written. */
  function ShowingRange(page: int, limit: int): (r: (int, int))
    ensures r.1 - r.0 + 1 == limit
    ensures r.1 == page * limit
  {
    (page * limit - limit + 1, page * limit)
  }

  /**
   * As written, the last page of a result that does not fill it shows an
   * end past the total: 25 matches at 10 per page give "21 to 30 of 25"
   * while the server sends 5 records. The last page is short exactly
   * when the total is not `totalPages * limit`.
   */
  lemma ShowingRangePassesTotal(items: seq<Item>, q: ListQuery)
    requires LimitOf(q) >= 1
    requires var r := ListItems(items, q);
      r.totalPages >= 1 && PageOf(q) == r.totalPages && r.totalItems != r.totalPages * LimitOf(q)
    ensures var r := ListItems(items, q);
      ShowingRange(PageOf(q), LimitOf(q)).1 > r.totalItems &&
      |r.items| < LimitOf(q)
  {
    var r := ListItems(items, q);
    ShownCount(items, q);
    ShortLastPage(r.totalItems, PageOf(q), LimitOf(q));
  }

  /** A total that does not fill its last page ends below page·limit, on fewer than `limit` entries. */
  lemma ShortLastPage(n: int, page: int, limit: int)
    requires n <= page * limit && n != page * limit
    ensures page * limit > n && n - (page - 1) * limit < limit
  {
  }

  /** The range clamped to the total: what the line evidently means to show. */
  function ClampedShowingRange(page: int, limit: int, totalItems: int): (r: (int, int))
    ensures r.0 == (page - 1) * limit + 1
    ensures r.1 == Min(page * limit, totalItems)
    ensures r.1 <= totalItems
  {
    (page * limit - limit + 1, Min(page * limit, totalItems))
  }

  /**
   * On every existing page the clamped range counts exactly the records
   * the server sent, and lies within 1..totalItems.
   */
  lemma ClampedShowingMatchesPage(items: seq<Item>, q: ListQuery)
    requires LimitOf(q) >= 1
    requires 1 <= PageOf(q) <= ListItems(items, q).totalPages
    ensures var r := ListItems(items, q);
      var range := ClampedShowingRange(PageOf(q), LimitOf(q), r.totalItems);
      1 <= range.0 <= range.1 <= r.totalItems && range.1 - range.0 + 1 == |r.items|
  {
    ShownCount(items, q);
  }

  /** The number of records on an existing page: the rest of the result, at most `limit`. */
  lemma ShownCount(items: seq<Item>, q: ListQuery)
    requires LimitOf(q) >= 1
    requires 1 <= PageOf(q) <= ListItems(items, q).totalPages
    ensures var r := ListItems(items, q);
      var lo := (PageOf(q) - 1) * LimitOf(q);
      0 <= lo < r.totalItems && |r.items| == Min(PageOf(q) * LimitOf(q), r.totalItems) - lo
  {
    var r := ListItems(items, q);
    var page, limit := PageOf(q), LimitOf(q);
    var n := r.totalItems;
    PageArithmetic(n, page, limit);
    MulMonotone(page - 1, r.totalPages - 1, limit);
    SortedResultsFacts(items, q);
  }
}
