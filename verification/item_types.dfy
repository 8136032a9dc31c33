/**
 * The shapes shared by the mock server and the client
 * (crud-app/src/types/item.types.ts).
 */
module ItemTypes {

  /** One catalog record. `price` is an exact number; `date` an ISO `YYYY-MM-DD` string. */
  datatype Item = Item(
    id: int,
    title: string,
    category: string,
    date: string,
    price: real,
    description: string,
    stock: int,
    rating: int)

  /**
   * The JSON body of a POST or PUT request. A field the client leaves out
   * is modelled by its falsy value ("" or 0).
   */
  datatype ItemBody = ItemBody(
    title: string,
    category: string,
    date: string,
    price: real,
    description: string,
    stock: int,
    rating: int)

  /** The answer of GET /api/items. */
  datatype PageResult = PageResult(
    items: seq<Item>,
    totalItems: int,
    totalPages: int,
    currentPage: int)

  /** A query-parameter value after normalisation: a string or a number. */
  datatype ParamValue = StrValue(s: string) | NumValue(n: real)

  /** One key/value entry of an `ItemQueryParams` object. */
  datatype Param = Param(key: string, value: ParamValue)

  /** An `ItemQueryParams` object: its entries in insertion order. */
  type QueryParams = seq<Param>
}
