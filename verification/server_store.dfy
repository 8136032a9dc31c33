/**
 * The in-memory record set of the mock server (mock-api-server/server.js)
 * and the handlers that read or change it: GET /api/items/:id, POST, PUT,
 * DELETE and GET /api/categories.
 */
module ServerStore {
  import opened Wrappers
  import opened Sequences
  import opened ItemTypes

  /** The 404 answer "Item not found". */
  datatype ServerError = NotFound

  const DeletedMessage := "Item deleted successfully"

  /** `items.findIndex((i) => i.id === id)`: the first position holding `id`, or -1. */
  function IndexOfId(items: seq<Item>, id: int): (r: int)
    ensures -1 <= r < |items|
    ensures r >= 0 ==> items[r].id == id
    ensures forall k :: 0 <= k < |items| && (r < 0 || k < r) ==> items[k].id != id
  {
    if items == [] then -1
    else if items[0].id == id then 0
    else
      var r := IndexOfId(items[1..], id);
      if r < 0 then -1 else r + 1
  }

  /** Position `k` holds the first record with `id`. */
  predicate IsFirstWithId(items: seq<Item>, id: int, k: int) {
    0 <= k < |items| && items[k].id == id && forall j :: 0 <= j < k ==> items[j].id != id
  }

  /** GET /api/items/:id: `items.find(...)`, 404 when no record has the id. */
  function FindById(items: seq<Item>, id: int): (r: Result<Item, ServerError>)
    ensures r.Err? <==> forall x :: x in items ==> x.id != id
    ensures r.Ok? ==> r.value.id == id
    ensures r.Ok? ==> exists k :: IsFirstWithId(items, id, k) && items[k] == r.value
  {
    var i := IndexOfId(items, id);
    if i < 0 then Err(NotFound) else Ok(items[i])
  }

  predicate UniqueIds(items: seq<Item>) {
    forall i, j :: 0 <= i < j < |items| ==> items[i].id != items[j].id
  }

  // ---------------------------------------------------------------------
  // POST /api/items

  /**
   * The record POST builds: id = current length + 1, the body's fields,
   * `date || today` and `rating || 1`.
   */
  function NewItem(items: seq<Item>, body: ItemBody, today: string): (x: Item)
    ensures x.id == |items| + 1
    ensures x.title == body.title && x.category == body.category && x.price == body.price
      && x.description == body.description && x.stock == body.stock
    ensures x.date == (if body.date != "" then body.date else today)
    ensures x.rating == (if body.rating != 0 then body.rating else 1)
  {
    Item(|items| + 1, body.title, body.category,
         if body.date != "" then body.date else today,
         body.price, body.description, body.stock,
         if body.rating != 0 then body.rating else 1)
  }

  /**
   * Reading back a created record by its id gives that record, provided no
   * live record already carries the id `length + 1`.
   */
  lemma CreateThenFind(items: seq<Item>, body: ItemBody, today: string)
    requires forall x :: x in items ==> x.id != |items| + 1
    ensures var x := NewItem(items, body, today);
      FindById(items + [x], x.id) == Ok(x)
  {
    var x := NewItem(items, body, today);
    var s := items + [x];
    assert s[|items|] == x;
    assert forall j :: 0 <= j < |items| ==> s[j] == items[j];
  }

  /** While no record was ever deleted, ids are 1..n and a created id is fresh. */
  lemma {:induction false} CreateFreshWhileDense(items: seq<Item>, body: ItemBody, today: string)
    requires forall k :: 0 <= k < |items| ==> items[k].id == k + 1
    ensures var s := items + [NewItem(items, body, today)];
      UniqueIds(s) && forall k :: 0 <= k < |s| ==> s[k].id == k + 1
  {
  }

  // ---------------------------------------------------------------------
  // The corrected id assignment

  /** The largest id in use, 0 for an empty store. */
  function MaxId(items: seq<Item>): (m: int)
    ensures forall x :: x in items ==> x.id <= m
    ensures items == [] ==> m == 0
    ensures m == 0 || exists x :: x in items && x.id == m
  {
    if items == [] then 0
    else
      var m := MaxId(items[1..]);
      if items[0].id > m then items[0].id else m
  }

  /** POST with an id above every live id. */
  function NewItemWithFreshId(items: seq<Item>, body: ItemBody, today: string): (x: Item)
    ensures forall y :: y in items ==> y.id < x.id
    ensures x == NewItem(items, body, today).(id := x.id)
  {
    NewItem(items, body, today).(id := MaxId(items) + 1)
  }

  /** With fresh ids, creating keeps ids unique and the new record is found by its id. */
  lemma FreshIdRoundTrip(items: seq<Item>, body: ItemBody, today: string)
    requires UniqueIds(items)
    ensures var x := NewItemWithFreshId(items, body, today);
      UniqueIds(items + [x]) && FindById(items + [x], x.id) == Ok(x)
  {
    var x := NewItemWithFreshId(items, body, today);
    var s := items + [x];
    assert s[|items|] == x;
    assert forall j :: 0 <= j < |items| ==> s[j] == items[j] && s[j] in items;
  }

  // ---------------------------------------------------------------------
  // PUT /api/items/:id

  /** Each field takes the body's value when it is truthy, else keeps the stored one; the id never changes. */
  function Merged(stored: Item, body: ItemBody): (r: Item)
    ensures r.id == stored.id
    ensures r.title == (if body.title != "" then body.title else stored.title)
    ensures r.category == (if body.category != "" then body.category else stored.category)
    ensures r.date == (if body.date != "" then body.date else stored.date)
    ensures r.price == (if body.price != 0.0 then body.price else stored.price)
    ensures r.description == (if body.description != "" then body.description else stored.description)
    ensures r.stock == (if body.stock != 0 then body.stock else stored.stock)
    ensures r.rating == (if body.rating != 0 then body.rating else stored.rating)
  {
    Item(stored.id,
         if body.title != "" then body.title else stored.title,
         if body.category != "" then body.category else stored.category,
         if body.date != "" then body.date else stored.date,
         if body.price != 0.0 then body.price else stored.price,
         if body.description != "" then body.description else stored.description,
         if body.stock != 0 then body.stock else stored.stock,
         if body.rating != 0 then body.rating else stored.rating)
  }

  const EmptyBody := ItemBody("", "", "", 0.0, "", 0, 0)

  /** An all-empty (or all-zero) body is a no-op: "set to 0" cannot be told from "no change". */
  lemma EmptyBodyKeepsItem(x: Item)
    ensures Merged(x, EmptyBody) == x
  {
  }

  /** Applying the same update twice is applying it once. */
  lemma MergeIdempotent(x: Item, body: ItemBody)
    ensures Merged(Merged(x, body), body) == Merged(x, body)
  {
  }

  /** Deleting position `i` (`items.splice(i, 1)`). */
  function RemoveAt(items: seq<Item>, i: nat): (r: seq<Item>)
    requires i < |items|
    ensures |r| == |items| - 1
    ensures forall k :: 0 <= k < i ==> r[k] == items[k]
    ensures forall k :: i <= k < |r| ==> r[k] == items[k + 1]
  {
    items[..i] + items[i + 1..]
  }

  /** With unique ids, after DELETE the id is gone: GET then answers 404. */
  lemma DeleteThenFindMisses(items: seq<Item>, id: int)
    requires UniqueIds(items) && IndexOfId(items, id) >= 0
    ensures FindById(RemoveAt(items, IndexOfId(items, id)), id) == Err(NotFound)
  {
    var i := IndexOfId(items, id);
    var r := RemoveAt(items, i);
    forall x | x in r ensures x.id != id {
      var k :| 0 <= k < |r| && r[k] == x;
      if k >= i { assert r[k] == items[k + 1]; }
    }
  }

  /** DELETE keeps every other record unique. */
  lemma DeleteKeepsUniqueIds(items: seq<Item>, i: nat)
    requires UniqueIds(items) && i < |items|
    ensures UniqueIds(RemoveAt(items, i))
  {
    var r := RemoveAt(items, i);
    forall a, b | 0 <= a < b < |r| ensures r[a].id != r[b].id {
      var a', b' := if a < i then a else a + 1, if b < i then b else b + 1;
      assert r[a] == items[a'] && r[b] == items[b'];
    }
  }

  /**
   * As written, POST can reuse a live id: with records 1, 2, 3, deleting 1
   * and posting gives the new record id 3, and GET /api/items/3 still
   * answers the old record.
   */
  lemma CreateAfterDeleteDuplicatesId()
    ensures var body := ItemBody("d", "B", "", 4.0, "dd", 4, 5);
      var items := [Item(1, "a", "A", "2024-01-01", 1.0, "da", 1, 1),
                          Item(2, "b", "A", "2024-01-02", 2.0, "db", 2, 2),
                          Item(3, "c", "B", "2024-01-03", 3.0, "dc", 3, 3)];
      var afterDelete := RemoveAt(items, IndexOfId(items, 1));
      var x := NewItem(afterDelete, body, "2024-02-01");
      var afterCreate := afterDelete + [x];
      && UniqueIds(items)
      && x.id == 3
      && !UniqueIds(afterCreate)
      && FindById(afterCreate, 3) == Ok(items[2])
      && FindById(afterCreate, 3) != Ok(x)
  {
    var items := [Item(1, "a", "A", "2024-01-01", 1.0, "da", 1, 1),
                  Item(2, "b", "A", "2024-01-02", 2.0, "db", 2, 2),
                  Item(3, "c", "B", "2024-01-03", 3.0, "dc", 3, 3)];
    var afterDelete := RemoveAt(items, IndexOfId(items, 1));
    assert afterDelete == items[1..];
    var x := NewItem(afterDelete, ItemBody("d", "B", "", 4.0, "dd", 4, 5), "2024-02-01");
    var afterCreate := afterDelete + [x];
    assert afterCreate[1].id == afterCreate[2].id;
    assert afterCreate[1] == items[2];
    assert IndexOfId(afterCreate, 3) == 1 by {
      assert afterCreate[0].id == 2;
      assert afterCreate[1..][0].id == 3;
    }
  }

  // ---------------------------------------------------------------------
  // GET /api/categories

  function CategoryColumn(items: seq<Item>): (r: seq<string>)
    ensures |r| == |items| && forall k :: 0 <= k < |items| ==> r[k] == items[k].category
  {
    seq(|items|, k requires 0 <= k < |items| => items[k].category)
  }

  /** `[...new Set(items.map((item) => item.category))]`. */
  function Categories(items: seq<Item>): (r: seq<string>)
    ensures forall c :: c in r <==> exists x :: x in items && x.category == c
    ensures forall i, j :: 0 <= i < j < |r| ==> r[i] != r[j]
  {
    var col := CategoryColumn(items);
    assert forall c :: c in col <==> exists x :: x in items && x.category == c by {
      forall c ensures c in col <==> exists x :: x in items && x.category == c {
        if exists x :: x in items && x.category == c {
          var x :| x in items && x.category == c;
          var k :| 0 <= k < |items| && items[k] == x;
          assert col[k] == c;
        }
      }
    }
    Distinct(col)
  }

  /** The categories come out in the order of their first appearance. */
  lemma CategoriesInFirstOccurrenceOrder(items: seq<Item>)
    ensures var col := CategoryColumn(items);
      forall i, j :: 0 <= i < j < |Categories(items)| ==>
        FirstIndex(col, Categories(items)[i]) < FirstIndex(col, Categories(items)[j])
  {
    DistinctKeepsFirstOccurrenceOrder(CategoryColumn(items));
  }

  // ---------------------------------------------------------------------
  // The module-level `items` array and the handlers that change it.

  class ItemStore {
    var items: seq<Item>

    /** The server starts from a record set (randomly generated in the source). */
    constructor (initial: seq<Item>)
      ensures items == initial
    {
      items := initial;
    }

    /** POST /api/items: `items.push(newItem)`; nothing earlier changes. */
    method Create(body: ItemBody, today: string) returns (created: Item)
      modifies this
      ensures created == NewItem(old(items), body, today)
      ensures items == old(items) + [created]
    {
      created := NewItem(items, body, today);
      items := items + [created];
    }

    /** POST with the corrected id assignment. */
    method CreateWithFreshId(body: ItemBody, today: string) returns (created: Item)
      modifies this
      ensures created == NewItemWithFreshId(old(items), body, today)
      ensures items == old(items) + [created]
      ensures UniqueIds(old(items)) ==> UniqueIds(items) && FindById(items, created.id) == Ok(created)
    {
      created := NewItemWithFreshId(items, body, today);
      if UniqueIds(items) { FreshIdRoundTrip(items, body, today); }
      items := items + [created];
    }

    /** PUT /api/items/:id: 404 and no change, or `items[index] = merged`. */
    method Update(id: int, body: ItemBody) returns (r: Result<Item, ServerError>)
      modifies this
      ensures var i := IndexOfId(old(items), id);
        if i < 0 then r == Err(NotFound) && items == old(items)
        else r == Ok(Merged(old(items)[i], body)) && items == old(items)[i := r.value]
      ensures |items| == |old(items)|
    {
      var index := IndexOfId(items, id);
      if index == -1 {
        return Err(NotFound);
      }
      var updated := Merged(items[index], body);
      items := items[index := updated];
      r := Ok(updated);
    }

    /** DELETE /api/items/:id: 404 and no change, or `items.splice(index, 1)`. */
    method Delete(id: int) returns (r: Result<string, ServerError>)
      modifies this
      ensures var i := IndexOfId(old(items), id);
        if i < 0 then r == Err(NotFound) && items == old(items)
        else r == Ok(DeletedMessage) && items == RemoveAt(old(items), i)
    {
      var index := IndexOfId(items, id);
      if index == -1 {
        return Err(NotFound);
      }
      items := RemoveAt(items, index);
      r := Ok(DeletedMessage);
    }

    /** GET /api/items/:id on the current records. */
    function Get(id: int): (r: Result<Item, ServerError>)
      reads this
      ensures r.Ok? ==> r.value in items && r.value.id == id
      ensures r.Err? <==> forall x :: x in items ==> x.id != id
    {
      FindById(items, id)
    }
  }
}
