/**
 * The table's sort, search and reset handlers
 * (crud-app/src/components/data-table.tsx). The component keeps its sort
 * column, sort direction and search text as state and mirrors them into
 * the URL's query string.
 */
module DataTable {
  import opened Wrappers
  import opened ItemsSlice
  import opened UrlParams

  /** The direction a click on the sorted column switches to. */
  function ToggleDirection(direction: string): (r: string)
    ensures r == "asc" || r == "desc"
    ensures r == "desc" <==> direction == "asc"
  {
    if direction == "asc" then "desc" else "asc"
  }

  /** Two clicks on the same column come back to the start exactly when it was "asc" or "desc". */
  lemma ToggleTwiceRestores(direction: string)
    ensures ToggleDirection(ToggleDirection(direction)) == direction <==> direction == "asc" || direction == "desc"
  {
  }

  /** `(searchParams.get("sortOrder") as "asc" | "desc") || "asc"`: an absent or empty value means "asc". */
  function InitialDirection(sortOrder: Option<string>): (r: string)
    ensures sortOrder.None? ==> r == "asc"
    ensures sortOrder.Some? && sortOrder.value != "" ==> r == sortOrder.value
    ensures r != ""
  {
    if sortOrder.Some? && sortOrder.value != "" then sortOrder.value else "asc"
  }

  class Table {
    const url: SearchParams
    var sortField: Option<string>
    var sortDirection: string
    var query: string

    /** The component's first render reads its state from the URL. */
    constructor (url: SearchParams)
      ensures this.url == url
      ensures sortField == url.Get("sortBy")
      ensures sortDirection == InitialDirection(url.Get("sortOrder"))
      ensures query == url.Get("search").GetOr("")
    {
      this.url := url;
      sortField := url.Get("sortBy");
      sortDirection := InitialDirection(url.Get("sortOrder"));
      query := url.Get("search").GetOr("");
    }

    /**
     * `handleSort(field)`: on the sorted column the direction flips; on
     * another column that column becomes the sort key, ascending. Only
     * `sortBy` and `sortOrder` change in the URL.
     */
    method HandleSort(field: string)
      modifies this, url
      ensures old(sortField) == Some(field) ==>
        sortField == old(sortField) && sortDirection == ToggleDirection(old(sortDirection)) &&
        url.entries == old(url.entries)["sortOrder" := ToggleDirection(old(sortDirection))]
      ensures old(sortField) != Some(field) ==>
        sortField == Some(field) && sortDirection == "asc" &&
        url.entries == old(url.entries)["sortBy" := field]["sortOrder" := "asc"]
      ensures forall k :: k in old(url.entries) && k != "sortBy" && k != "sortOrder" ==>
        k in url.entries && url.entries[k] == old(url.entries)[k]
      ensures query == old(query)
    {
      if sortField == Some(field) {
        var next := ToggleDirection(sortDirection);
        sortDirection := next;
        url.Set("sortOrder", next);
      } else {
        sortField := Some(field);
        sortDirection := "asc";
        url.Set("sortBy", field);
        url.Set("sortOrder", "asc");
      }
    }

    /** `handleSearch(query)`: a non-empty query is written to the URL, an empty one removes the key. */
    method HandleSearch(text: string)
      modifies this, url
      ensures query == text
      ensures text != "" ==> url.entries == old(url.entries)["search" := text]
      ensures text == "" ==> url.entries == old(url.entries) - {"search"}
      ensures sortField == old(sortField) && sortDirection == old(sortDirection)
    {
      query := text;
      if text != "" {
        url.Set("search", text);
      } else {
        url.Delete("search");
      }
    }

    /** `resetFilters()`: the store's query params go back to their defaults and the URL is emptied. */
    method ResetFilters(store: ItemsState)
      modifies store, url
      ensures store.queryParams == DefaultQueryParams
      ensures url.entries == map[]
      ensures store.action == old(store.action) && store.isMutateLoading == old(store.isMutateLoading)
      ensures store.isOpenDialog == old(store.isOpenDialog) && store.itemEditing == old(store.itemEditing)
    {
      store.SetQueryParams(DefaultQueryParams);
      url.Clear();
    }
  }

  /** Sorting twice by the same column returns the URL and the direction to where they were after the first click. */
  method SortTwiceByColumn(table: Table, field: string)
    requires table.sortField == Some(field)
    requires table.sortDirection == "asc" || table.sortDirection == "desc"
    requires "sortOrder" in table.url.entries && table.url.entries["sortOrder"] == table.sortDirection
    modifies table, table.url
    ensures table.sortDirection == old(table.sortDirection)
    ensures table.url.entries == old(table.url.entries)
  {
    table.HandleSort(field);
    table.HandleSort(field);
  }
}
