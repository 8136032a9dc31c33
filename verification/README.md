# crud-table in Dafny

A model of crud-table, a product catalogue that you page, search, filter, sort and edit. It has two halves.

**The mock API server** (`mock-api-server/server.js`) keeps the records in an in-memory array. It answers these requests:

- `GET /api/items`: search, then filter, then sort, then paginate.
- `GET /api/items/:id`: read one record.
- `POST`, `PUT` and `DELETE`: edit the array in place.
- `GET /api/categories`: the distinct categories.

**The React client** (`crud-app/src`) covers these parts:

- It turns the numeric-looking strings of the URL into numbers.
- It caches list answers and the category list in `localStorage`.
- Its Redux `items` slice holds the current query and the dialog state.
- The pager shows up to five page buttons and writes `page` into the URL.
- The table's sort and search handlers write `sortBy`, `sortOrder` and `search` into the URL.
- A form checks the title, description, price, stock and rating of a record.

The model follows the code. One module per component:

| file | module | models |
|---|---|---|
| `wrappers.dfy` | `Wrappers` | `Option` (undefined/null), `Result` (a request or lookup that can fail) |
| `text_ops.dfy` | `TextOps` | `toLowerCase`, `includes`, string `<`, `trim`, integer `toString` |
| `sequences.dfy` | `Sequences` | `Array.prototype.filter` and `[...new Set(xs)]` |
| `item_types.dfy` | `ItemTypes` | the record, the request body, the page answer and the query params |
| `server_query.dfy` | `ServerQuery` | `applySearch`, `applyFilters`, `applySort` and the pagination of GET /api/items |
| `server_store.dfy` | `ServerStore` | the record array (`class ItemStore`) with GET by id, POST, PUT and DELETE, plus GET /api/categories |
| `numeric_params.dfy` | `NumericParams` | `isNumericString` and `convertToNumObjProps` |
| `browser_storage.dfy` | `BrowserStorage` | `localStorage` as a key/value map (`class Storage`) |
| `item_service.dfy` | `ItemService` | `fetchItems`, `AddItem`, `EditItem`, `DeleteItem` |
| `category_service.dfy` | `CategoryService` | `fetchCategories` |
| `items_slice.dfy` | `ItemsSlice` | the `items` slice: its initial state and nine reducers (`class ItemsState`) |
| `url_params.dfy` | `UrlParams` | the URL query string (`class SearchParams`) |
| `paginate.dfy` | `Paginate` | the page window, first/prev/next/last, "Showing x to y", the disabled states |
| `data_table.dfy` | `DataTable` | `handleSort`, `handleSearch`, `resetFilters` (`class Table`) |
| `item_form.dfy` | `ItemForm` | the field rules of the add/edit form |

Code that changes state step by step is modelled with classes and methods:

- the server's `items` array;
- `localStorage`;
- the Redux slice;
- the URL search params;
- the table component's state.

Pure code becomes functions, with lemmas that state its properties:

- the server's list helpers;
- the numeric recogniser;
- the page arithmetic;
- the form rules.

Each HTTP call of `fetchItems`, `AddItem`, `EditItem` and `DeleteItem` is a function parameter of the method that models it, and the method continues with whatever that function returns. `fetchCategories` takes the server's answer itself as a parameter, since it sends at most one fixed request.

## Model

| member | source | states |
|---|---|---|
| TextOps.Lower | mock-api-server/server.js:91 | lower-casing keeps the length and maps each character through the ASCII `toLowerCase` |
| TextOps.Contains | mock-api-server/server.js:94-95 | `includes` holds iff the needle occurs at some position of the haystack |
| TextOps.LexLessTrichotomy | mock-api-server/server.js:77-81 | for two strings exactly one of `a < b`, `a == b`, `b < a` holds, so the comparator is consistent |
| TextOps.LexLessTransitive | mock-api-server/server.js:77-81 | string `<` is transitive |
| TextOps.LexLessIrreflexive | mock-api-server/server.js:77-81 | no string is `<` itself |
| TextOps.IntToString | crud-app/src/components/paginate-data-table.tsx:16 | `toString` of an integer: non-empty, only digits for n ≥ 0, and a '-' followed by digits for n < 0 |
| TextOps.Trim | crud-app/src/components/item-form.tsx:45 | `trim` removes only whitespace, from both ends, and leaves none at either end |
| TextOps.NatToStringRoundTrip | crud-app/src/components/paginate-data-table.tsx:16 | the decimal text that `toString` writes for a page number reads back as that number |
| Sequences.Filter | mock-api-server/server.js:58 | `filter` keeps exactly the elements that pass and never grows |
| Sequences.FilterIsOrderedSelection | mock-api-server/server.js:58-67 | the result of `filter` is the input read at the increasing positions where the test holds |
| Sequences.FilterIdempotent | mock-api-server/server.js:58-67 | filtering twice with one test is filtering once |
| Sequences.FilterCommutes | mock-api-server/server.js:58-67 | two filters give the same result in either order |
| Sequences.FilterMultiplicity | mock-api-server/server.js:58-67 | each passing value keeps its count and each failing value disappears |
| Sequences.Distinct | mock-api-server/server.js:201 | `[...new Set(xs)]` holds each value of `xs` exactly once |
| Sequences.DistinctKeepsFirstOccurrenceOrder | mock-api-server/server.js:201 | the distinct values come out in the order of their first occurrence |
| ServerQuery.ApplySearch | mock-api-server/server.js:88-97 | an empty term returns the input; otherwise it keeps the records whose lower-cased title or description contains the lower-cased term |
| ServerQuery.SearchIsOrderedSelection | mock-api-server/server.js:92-96 | search keeps exactly the matching records, in input order |
| ServerQuery.ApplyFilters | mock-api-server/server.js:57-68 | a record survives iff no truthy bound rejects it |
| ServerQuery.ItemMatches | mock-api-server/server.js:58-66 | the filter callback's early-return chain: a record fails iff some truthy bound rejects it |
| ServerQuery.ItemMatchesBounds | mock-api-server/server.js:59-65 | a record passes iff every truthy bound holds: equal category, minPrice ≤ price ≤ maxPrice, startDate ≤ date ≤ endDate as strings, rating ≥ minRating, stock ≥ minStock |
| ServerQuery.NoBoundsKeepsAll | mock-api-server/server.js:59-66 | bounds that are absent, 0 or "" remove nothing |
| ServerQuery.FiltersIdempotent | mock-api-server/server.js:57-68 | applying the same filters twice is applying them once |
| ServerQuery.FiltersCommute | mock-api-server/server.js:57-68 | two filter objects give the same result in either order |
| ServerQuery.FiltersAreOrderedSelection | mock-api-server/server.js:57-68 | the surviving records keep their input order |
| ServerQuery.SortKeyOf | mock-api-server/server.js:77-79 | `a[sortField]`: the record's value for one of its eight fields, `undefined` for any other name |
| ServerQuery.KeyLessAsymmetric | mock-api-server/server.js:77-79 | no two keys are each `<` the other |
| ServerQuery.Comparison | mock-api-server/server.js:76-81 | the comparison is -1, 0 or 1; negative iff a < b and positive iff b < a |
| ServerQuery.PrecedesTotal | mock-api-server/server.js:74-84 | the comparator orders every pair one way or the other |
| ServerQuery.PrecedesTransitive | mock-api-server/server.js:74-84 | the comparator is transitive |
| ServerQuery.InsertSorted | mock-api-server/server.js:74-84 | inserting into a sorted list adds exactly that record and keeps the list sorted |
| ServerQuery.SortItems | mock-api-server/server.js:74-84 | the stable sort returns a permutation of its input that is sorted by the comparator |
| ServerQuery.ApplySort | mock-api-server/server.js:71-85 | a falsy field returns the input; otherwise a permutation that is nondecreasing in the field, or nonincreasing for "desc" |
| ServerQuery.SortByPriceAscending | mock-api-server/server.js:77-83 | sorting by price ascending gives nondecreasing prices |
| ServerQuery.SortByUnknownFieldKeepsOrder | mock-api-server/server.js:74-84 | when the field is not a record field, all records compare equal and the input order is kept |
| ServerQuery.CeilDiv | mock-api-server/server.js:141 | `Math.ceil(n / limit)` is the least page count that covers n records, and 0 only for n = 0 |
| ServerQuery.JsSlice | mock-api-server/server.js:136 | `slice` returns at most the input's length, only input elements, exactly `s[start..end]` for in-range bounds, and [] from a start at or past the end |
| ServerQuery.SliceFacts | mock-api-server/server.js:134-136 | `slice(lo, lo + limit)` has at most `limit` records, all from the input, none once lo is past the end, and positions lo up to lo + limit when lo ≥ 0 |
| ServerQuery.PageArithmetic | mock-api-server/server.js:134-135 | consecutive pages are `limit` apart, and every page past the last starts beyond the results |
| ServerQuery.SortedResultsFacts | mock-api-server/server.js:131 | sorting keeps the count and the records of the matching results |
| ServerQuery.ListItems | mock-api-server/server.js:100-144 | totalItems counts after search and filter; totalPages is its ceiling over limit; currentPage echoes page; items are positions [(page-1)·limit, page·limit) of the sorted results: at most limit, and none past the last page |
| ServerStore.IndexOfId | mock-api-server/server.js:172 | `findIndex` gives the first position with the id, or -1 when no record has it |
| ServerStore.FindById | mock-api-server/server.js:147-151 | GET by id answers 404 iff no record has the id, and otherwise the first record with it |
| ServerStore.NewItem | mock-api-server/server.js:155-164 | POST builds id = length + 1 from the body, with `date` defaulting to today and a falsy rating to 1 |
| ServerStore.CreateThenFind | mock-api-server/server.js:154-168 | when no record already holds id length + 1, GET finds the created record by its id |
| ServerStore.CreateFreshWhileDense | mock-api-server/server.js:156 | while ids are exactly 1..n (no deletes yet), POST keeps them unique and dense |
| ServerStore.CreateAfterDeleteDuplicatesId | mock-api-server/server.js:156 | records 1, 2, 3; deleting 1 and then posting creates a second id 3, and GET /api/items/3 still returns the old record |
| ServerStore.MaxId | mock-api-server/server.js:156 | max(0, largest id in use): at least every id, and either 0 or the id of some record; 0 for an empty store |
| ServerStore.NewItemWithFreshId | mock-api-server/server.js:155-164 | a corrected POST record: id above every live id, other fields as in POST |
| ServerStore.FreshIdRoundTrip | mock-api-server/server.js:154-168 | with the corrected id, creating keeps ids unique and GET finds the new record |
| ServerStore.Merged | mock-api-server/server.js:175-184 | PUT keeps the id; each other field takes the body's value when truthy, else the stored one |
| ServerStore.EmptyBodyKeepsItem | mock-api-server/server.js:177-183 | an all-empty or all-zero body leaves the record unchanged |
| ServerStore.MergeIdempotent | mock-api-server/server.js:175-186 | applying the same PUT twice equals applying it once |
| ServerStore.RemoveAt | mock-api-server/server.js:195 | `splice(i, 1)` removes exactly position i and keeps the others in order |
| ServerStore.DeleteThenFindMisses | mock-api-server/server.js:190-197 | with unique ids, GET answers 404 after a DELETE of that id |
| ServerStore.DeleteKeepsUniqueIds | mock-api-server/server.js:195 | DELETE keeps unique ids unique |
| ServerStore.Categories | mock-api-server/server.js:199-203 | GET /api/categories lists each category of some record exactly once, and nothing else |
| ServerStore.CategoriesInFirstOccurrenceOrder | mock-api-server/server.js:201 | categories appear in the order of their first record |
| ServerStore.ItemStore.Create | mock-api-server/server.js:154-168 | POST appends exactly one record built by `NewItem`; the earlier records are unchanged |
| ServerStore.ItemStore.CreateWithFreshId | mock-api-server/server.js:154-168 | the corrected POST appends one record, keeps ids unique, and GET finds the new record |
| ServerStore.ItemStore.Update | mock-api-server/server.js:171-188 | a missing id gives 404 and no change; otherwise only the first record with that id is replaced by the merged record, and the length is kept |
| ServerStore.ItemStore.Delete | mock-api-server/server.js:190-197 | a missing id gives 404 and no change; otherwise exactly the first record with that id is removed |
| ServerStore.ItemStore.Get | mock-api-server/server.js:147-151 | GET by id over the current records: a record holding the id, or 404 iff there is none |
| NumericParams.IsNumericString | crud-app/src/lib/utils.ts:8-12 | the one-pass recogniser of the regex; an accepted string holds at least one digit (its full meaning is NumericStringIffPattern) |
| NumericParams.NumericStringIffPattern | crud-app/src/lib/utils.ts:8-12 | the one-pass scanner accepts exactly the strings of the pattern: an optional sign, then digits with an optional dot and fraction or a dot and at least one digit, then an optional exponent `[eE][+-]?\d+` |
| NumericParams.ScannerAcceptsOnlyPattern | crud-app/src/lib/utils.ts:10 | every accepted string splits into sign, mantissa and exponent |
| NumericParams.PatternAcceptedByScanner | crud-app/src/lib/utils.ts:10 | every string of the pattern is accepted |
| NumericParams.ExponentAtMatches | crud-app/src/lib/utils.ts:10 | the exponent check accepts exactly "" or `[eE][+-]?\d+` |
| NumericParams.NumericStringAlphabet | crud-app/src/lib/utils.ts:10 | an accepted string is non-empty and holds only digits, signs, dots and `e`/`E`: no whitespace and no other text |
| NumericParams.AcceptedExamples | crud-app/src/lib/utils.ts:10 | "1.", "-12.5" and ".5" are accepted |
| NumericParams.AcceptedExponentExamples | crud-app/src/lib/utils.ts:10 | "+1e10" and "2E-3" are accepted |
| NumericParams.RejectedWithoutDigits | crud-app/src/lib/utils.ts:10 | "", ".", "+", "+-1" and "abc" are rejected |
| NumericParams.RejectedMalformed | crud-app/src/lib/utils.ts:10 | "1e", "1e+" and "1.2.3" are rejected |
| NumericParams.RejectedPadded | crud-app/src/lib/utils.ts:10 | " 1", "1 " and "1a" are rejected |
| NumericParams.IntToStringIsNumeric | crud-app/src/lib/utils.ts:10 | every integer the client writes into the URL is read back as numeric |
| NumericParams.ConvertToNumObjProps | crud-app/src/lib/utils.ts:14-21 | the same keys in the same order; a value becomes a number iff `isNumericString` accepts it, otherwise it is kept as the same string |
| BrowserStorage.ItemsCache | crud-app/src/api/item-service.ts:19-22 | the stored list of cached answers, or [] when there is none |
| BrowserStorage.StoredCategories | crud-app/src/api/category-service.ts:6 | the stored category list when one is stored, None otherwise |
| BrowserStorage.Storage.SetItem | crud-app/src/lib/local-storage.ts:15-25 | `setToLocalStorage` overwrites one key and nothing else |
| BrowserStorage.Storage.RemoveItem | crud-app/src/lib/local-storage.ts:27-37 | `removeFromLocalStorage` drops one key and nothing else |
| ItemService.Lookup | crud-app/src/api/item-service.ts:13 | reading a key: None iff no entry has it, else a value stored under it |
| ItemService.Without | crud-app/src/api/item-service.ts:13 | rest destructuring is the order-preserving filter that keeps exactly the entries of other keys, and is the identity when the key is absent |
| ItemService.WithoutAppend | crud-app/src/api/item-service.ts:13 | taking a key out of two concatenated param lists takes it out of each, keeping their order |
| ItemService.LookupAppendAbsent | crud-app/src/api/item-service.ts:13 | a key absent from the front entries is read from the back entries |
| ItemService.PrepareParams | crud-app/src/api/item-service.ts:13-16 | category "all" drops the category entry and keeps the other entries in order; any other category, or none, leaves the params as they are; the result never holds category "all" |
| ItemService.AllSameAsAbsent | crud-app/src/api/item-service.ts:13-16 | params with category "all" anywhere among other keys prepare to exactly the params without it, so both make the same cache key |
| ItemService.PrepareParamsIdempotent | crud-app/src/api/item-service.ts:13-16 | preparing twice equals preparing once |
| ItemService.FindCached | crud-app/src/api/item-service.ts:23-31 | the data of the first cached entry whose params equal the prepared params, or None iff no entry has them |
| ItemService.AppendThenHit | crud-app/src/api/item-service.ts:41-50 | appending an entry keeps every earlier hit, and the appended params now hit |
| ItemService.KeyOrderMatters | crud-app/src/api/item-service.ts:25 | the same pairs in a different key order do not match |
| ItemService.FetchItems | crud-app/src/api/item-service.ts:9-53 | a hit returns the cached data, sends nothing and leaves storage unchanged; a miss sends the prepared params, appends exactly one entry when the request succeeds and changes nothing when it fails; afterwards the params hit |
| ItemService.RepeatFetchHits | crud-app/src/api/item-service.ts:23-50 | after a successful fetch, fetching the same params again returns the same data without a request |
| ItemService.AddItem | crud-app/src/api/item-service.ts:55-64 | a successful POST removes the items cache, and a failed one leaves storage unchanged |
| ItemService.EditItem | crud-app/src/api/item-service.ts:66-76 | a successful PUT removes the items cache, and a failed one leaves storage unchanged |
| ItemService.DeleteItem | crud-app/src/api/item-service.ts:78-84 | a successful DELETE removes the items cache, and a failed one leaves storage unchanged |
| ItemService.MutationEmptiesCache | crud-app/src/api/item-service.ts:62 | once the cache is removed, every lookup misses |
| CategoryService.FetchCategories | crud-app/src/api/category-service.ts:4-19 | any stored list, the empty one included, is returned without a request and storage is not changed; on a miss a successful response is stored under "categories" and returned, and a failed one changes nothing |
| CategoryService.RepeatFetchHits | crud-app/src/api/category-service.ts:6-16 | after a successful fetch, the next fetch returns the same list without a request |
| ItemsSlice.ItemsState.constructor | crud-app/src/lib/features/itemsSlice.ts:14-25 | the initial state: query params {page 1, limit 10, minPrice 0, maxPrice 1000}, no action, both flags false, no edited item |
| ItemsSlice.ItemsState.SetQueryParams | crud-app/src/lib/features/itemsSlice.ts:32-34 | replaces the query params wholesale and changes nothing else |
| ItemsSlice.ItemsState.SetIsMutateLoading | crud-app/src/lib/features/itemsSlice.ts:35-37 | sets the loading flag to the payload and changes nothing else |
| ItemsSlice.ItemsState.SetIsOpenDialog | crud-app/src/lib/features/itemsSlice.ts:38-40 | sets the dialog flag to the payload and changes nothing else |
| ItemsSlice.ItemsState.SetItemEditing | crud-app/src/lib/features/itemsSlice.ts:41-44 | records the edited item and opens the dialog, and changes nothing else |
| ItemsSlice.ItemsState.ResetItemEditing | crud-app/src/lib/features/itemsSlice.ts:45-47 | forgets the edited item and leaves the dialog flag as it was |
| ItemsSlice.ItemsState.AddItem | crud-app/src/lib/features/itemsSlice.ts:48-50 | sets action to "add" and changes nothing else |
| ItemsSlice.ItemsState.EditItem | crud-app/src/lib/features/itemsSlice.ts:51-53 | sets action to "update" and changes nothing else |
| ItemsSlice.ItemsState.DeleteItem | crud-app/src/lib/features/itemsSlice.ts:54-56 | sets action to "delete" and changes nothing else |
| ItemsSlice.ItemsState.ResetItemAction | crud-app/src/lib/features/itemsSlice.ts:57-59 | sets action back to null and changes nothing else |
| ItemsSlice.MutationThenReset | crud-app/src/lib/features/itemsSlice.ts:48-59 | a mutation followed by `resetItemAction` restores every field |
| UrlParams.SearchParams.Get | crud-app/src/components/data-table.tsx:54 | `get` returns the value of a present key, and null iff the key is absent |
| UrlParams.SearchParams.Set | crud-app/src/components/paginate-data-table.tsx:16 | `set` overwrites one key and nothing else |
| UrlParams.SearchParams.Delete | crud-app/src/components/data-table.tsx:107 | `delete` drops one key and nothing else |
| UrlParams.SearchParams.Clear | crud-app/src/components/data-table.tsx:99 | `setSearchParams({})` leaves no key |
| Paginate.PageNumber | crud-app/src/components/paginate-data-table.tsx:76-87 | the i-th of the first min(5, totalPages) buttons shows a page between 1 and totalPages, whatever the current page |
| Paginate.PageWindow | crud-app/src/components/paginate-data-table.tsx:76-87 | min(5, totalPages) buttons, consecutive, within [1, totalPages] for any current page, and showing the current page when 1 ≤ currentPage ≤ totalPages |
| Paginate.NextTarget | crud-app/src/components/paginate-data-table.tsx:22 | next is one page on, never above totalPages, and totalPages from the last page on |
| Paginate.PrevTarget | crud-app/src/components/paginate-data-table.tsx:27 | prev is one page back, never below 1 |
| Paginate.PageTextInjective | crud-app/src/components/paginate-data-table.tsx:16 | different page numbers are written as different URL texts |
| Paginate.IntToStringInjective | crud-app/src/components/paginate-data-table.tsx:22 | `toString` of integers is injective, including negative numbers |
| Paginate.GoToPage | crud-app/src/components/paginate-data-table.tsx:15-18 | writes the chosen page and changes no other key |
| Paginate.NextPage | crud-app/src/components/paginate-data-table.tsx:19-25 | writes the next target page and changes no other key |
| Paginate.PrevPage | crud-app/src/components/paginate-data-table.tsx:26-29 | writes the previous target page and changes no other key |
| Paginate.FirstPage | crud-app/src/components/paginate-data-table.tsx:30-33 | writes page "1" and changes no other key |
| Paginate.LastPage | crud-app/src/components/paginate-data-table.tsx:34-37 | writes page totalPages and changes no other key |
| Paginate.BackDisabled | crud-app/src/components/paginate-data-table.tsx:62-70 | first and prev are disabled exactly on page 1 |
| Paginate.ForwardDisabled | crud-app/src/components/paginate-data-table.tsx:103-111 | next and last are disabled exactly when the current page equals totalPages |
| Paginate.DisabledMeansNoMove | crud-app/src/components/paginate-data-table.tsx:59-115 | on a real page, first/prev are disabled iff prev would stay put, next/last iff next would stay put; an enabled button moves exactly one page |
| Paginate.EmptyResultNextTargetsPageZero | crud-app/src/components/paginate-data-table.tsx:19-25 | with no results (page 1 of 0) the forward buttons stay enabled, next asks for page 0, and there are no page buttons |
| Paginate.ShowingRange | crud-app/src/components/paginate-data-table.tsx:45-55 | "Showing x to y" spans exactly `limit` entries and ends at page·limit |
| Paginate.ShowingRangePassesTotal | crud-app/src/components/paginate-data-table.tsx:52-56 | on a short last page the shown end exceeds totalItems, while the server sends fewer than `limit` records |
| Paginate.ClampedShowingRange | crud-app/src/components/paginate-data-table.tsx:45-55 | the corrected range: it starts at (page-1)·limit + 1 and ends at min(page·limit, totalItems) |
| Paginate.ClampedShowingMatchesPage | crud-app/src/components/paginate-data-table.tsx:45-56 | on every existing page the corrected range lies within 1..totalItems and counts exactly the records the server sent |
| Paginate.ShownCount | mock-api-server/server.js:133-143 | an existing page holds min(page·limit, totalItems) − (page−1)·limit records |
| DataTable.ToggleDirection | crud-app/src/components/data-table.tsx:66-67 | the new direction is "desc" iff the old one was "asc", and "asc" otherwise |
| DataTable.ToggleTwiceRestores | crud-app/src/components/data-table.tsx:65-67 | two clicks on the sorted column restore the direction iff it was "asc" or "desc" |
| DataTable.InitialDirection | crud-app/src/components/data-table.tsx:56-58 | the initial direction is the URL's `sortOrder`, or "asc" when it is absent or empty |
| DataTable.Table.constructor | crud-app/src/components/data-table.tsx:52-60 | sort field, direction and query are read from the URL |
| DataTable.Table.HandleSort | crud-app/src/components/data-table.tsx:64-75 | on the sorted column the direction flips and only `sortOrder` is written; on another column that column becomes `sortBy` with `sortOrder` "asc"; every other URL key is preserved |
| DataTable.Table.HandleSearch | crud-app/src/components/data-table.tsx:102-111 | a non-empty query sets `search`, an empty one deletes it; no other URL key changes |
| DataTable.Table.ResetFilters | crud-app/src/components/data-table.tsx:90-100 | the store's query params become the defaults, no other slice field changes, and the URL is emptied |
| DataTable.SortTwiceByColumn | crud-app/src/components/data-table.tsx:64-75 | two clicks on the sorted column, when it is "asc" or "desc", restore both the URL and the direction |
| ItemForm.LengthValid | crud-app/src/components/item-form.tsx:38-39 | `z.string().min(2).max(255)`: a title or description of 2 to 255 characters |
| ItemForm.LengthExamples | crud-app/src/components/item-form.tsx:38-39 | lengths 2 and 255 pass; 0, 1 and 256 fail |
| ItemForm.PriceShape | crud-app/src/components/item-form.tsx:49 | the price pattern: either a lone 0 or digits starting with 1 to 9, then optionally a point and at least one digit |
| ItemForm.PriceValid | crud-app/src/components/item-form.tsx:43-56 | the price rule: the trimmed text has the pattern and a value of at most 1000 |
| ItemForm.PriceBound | crud-app/src/components/item-form.tsx:49 | a price of the pattern is ≤ 1000 iff its integer part is below 1000, or is 1000 with only zeros after the point |
| ItemForm.DigitsValueBelowPow10 | crud-app/src/components/item-form.tsx:49 | n digits have a value below 10ⁿ, so the fraction is below 1 |
| ItemForm.PriceLimitExamples | crud-app/src/components/item-form.tsx:43-56 | "1000.00" is accepted and "1000.01" is not |
| ItemForm.PriceShapeRejects | crud-app/src/components/item-form.tsx:49 | "01", ".5", "1.", "+1", "-1", "1e3" and "" fail the price pattern |
| ItemForm.PriceShapeIsNumeric | crud-app/src/components/item-form.tsx:49 | every price the pattern accepts is numeric, so the submit handler turns it into a number |
| ItemForm.StockValid | crud-app/src/components/item-form.tsx:57-67 | the stock rule: the trimmed text is one or more decimal digits |
| ItemForm.RatingValid | crud-app/src/components/item-form.tsx:68-78 | the rating rule: the trimmed text is a single digit 1 to 5 |
| ItemForm.StockIsNumeric | crud-app/src/components/item-form.tsx:57-67 | accepted stock text is numeric |
| ItemForm.RatingRange | crud-app/src/components/item-form.tsx:68-78 | an accepted rating is a single digit 1 to 5, and numeric |
| ItemForm.StockTextValid | crud-app/src/components/item-form.tsx:101 | the text of any non-negative stock passes the stock rule |
| ItemForm.RatingTextValid | crud-app/src/components/item-form.tsx:102 | the text of a rating passes the rating rule iff the rating is 1 to 5 |
| ItemForm.DefaultsValid | crud-app/src/components/item-form.tsx:100-102 | the new-item defaults: price "0", stock "0" and rating "1" are accepted |

## Left out

- Express routing, body parsing, CORS, `app.listen` and status codes are not modelled. A 404 is the `Err(NotFound)` variant and a DELETE success is its message.
- The random mock data at mock-api-server/server.js:31-54 is not modelled. The store starts from any record set.
- POST reads today's date from the clock. Here it is a parameter.
- ServerQuery.ListItems: requires `limit ≥ 1`. In JavaScript a zero limit gives an `Infinity` page count and a non-numeric one gives `NaN`. A negative limit gives a negative page count and a `slice` counted from the end, so more than |limit| records can be sent: 25 matches with limit -10 and page 1 send the first 15 records with totalPages -2. None of these is modelled.
- ServerQuery.ListItems: `page` and `limit` are integers. The string arithmetic of non-numeric query values, which gives `NaN` indices, is not modelled.
- ServerQuery.ApplySort: keys are compared by the order of exact numbers and by code points. JavaScript compares strings by UTF-16 code units, which differs only outside the Basic Multilingual Plane.
- The sort comparator's `a[sortField]` is modelled for the eight record fields. Any other field reads `undefined` and compares equal.
- `TextOps.Lower`: only ASCII letters are lower-cased. Unicode case mapping is not modelled.
- Numbers are exact (`real`/`int`). `parseFloat`, `parseInt`, `Number(...)` and `toString` on non-integers (floating point) are not modelled.
- `convertToNumObjProps` takes `Number(value)` as a function parameter.
- `ItemForm.PriceValid`: compares the exact decimal value with 1000. The source compares the nearest double, so text like "1000.0000000000000001" that rounds down to 1000 is accepted there and refused here.
- `ItemForm.LengthValid`: counts characters. The form library counts UTF-16 code units, which differs for characters outside the Basic Multilingual Plane.
- Title and description are always strings here. The form's submit handler runs `convertToNumObjProps` over every value (crud-app/src/components/item-form.tsx:108), so a numeric-looking title or description such as "2024" reaches POST and PUT (mock-api-server/server.js:157, 161, 177, 181) as a number. After that, every search throws at `item.title.toLowerCase()` (mock-api-server/server.js:94), and `sortBy=title` compares number keys with string keys. The model cannot represent such a record.
- The request body is modelled with every field present. An absent field is its falsy value ("" or 0). POST copies an absent field as `undefined`, which is not modelled.
- `Object.entries` lists integer-like keys first, which `convertToNumObjProps` inherits. This is not modelled; keys keep their given order.
- `localStorage` values are kept as the structures written. JSON serialisation, parse failures, quota errors and the `typeof window` guard are not modelled.
- Cache keys compare serialised params. Here that is equality of the ordered entry lists.
- The URL's query string is a map from key to one value. Repeated keys and key order are not modelled.
- `setSearchParams(..., { replace: true })` is not modelled: history handling is browser behaviour.
- `DataTable.Table.HandleSearch`: does not model the store update that follows an empty query (crud-app/src/components/data-table.tsx:108). That call spreads the action creator itself rather than the query params, and what it stores depends on Redux Toolkit internals that are not part of this model.
- Async ordering and stale answers (crud-app/src/components/home-page.tsx:32-77) are not modelled. Each request is one step.
- `home-page.tsx`, `filters-data-table.tsx`, `category-select.tsx` and the other React components are not modelled. They are rendering and widget glue.
- The Redux store wiring (`store.ts`) and the categories slice are not modelled.

Two behaviours of the code that the model keeps as they are:

- POST assigns `length + 1`, so an id can repeat after a DELETE (see Findings).
- `GET /api/categories` lists categories in first-occurrence order; `ServerStore.CategoriesInFirstOccurrenceOrder` states it.

## Findings

| source | as written | input that shows it | evidently intended | confidence | as-written member | corrected member |
|---|---|---|---|---|---|---|
| mock-api-server/server.js:156 | a new record gets id `items.length + 1` | records with ids 1, 2, 3; DELETE 1; POST gives a second record with id 3, and GET /api/items/3 returns the old one | an id above every id in use, so ids stay unique | high, not executed | ServerStore.CreateAfterDeleteDuplicatesId | ServerStore.ItemStore.CreateWithFreshId |
| crud-app/src/components/paginate-data-table.tsx:52-55 | "to" shows `page * limit` unclamped | 25 matches, limit 10, page 3 shows "21 to 30 of 25" while 5 records are listed | the end clamped to totalItems, so the range counts the records shown | medium, not executed | Paginate.ShowingRangePassesTotal | Paginate.ClampedShowingMatchesPage |
