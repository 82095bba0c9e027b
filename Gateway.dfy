/** The HTTP API as the slices see it: the request a fetch makes, the answer or
    failure it gets back, and the payload a fulfilled fetch hands its reducer.
    The transport itself is not modelled; an answer is an input. */
module Gateway {
  import opened Js
  import opened Narrowing
  import opened Paging

  /** `GET /products` or `/users` (`ListAll`), `GET /products/category/{name}`
      (`ByCategory`) and `GET /products/search?q=` or `/users/search?q=` (`SearchFor`),
      each with its `limit` and `skip` parameters. */
  datatype Request =
    | ListAll(limit: int, skip: int)
    | ByCategory(category: string, limit: int, skip: int)
    | SearchFor(query: string, limit: int, skip: int)

  /** The API's answer, `{records, total}`, or a failure carrying the error's message if it had one. */
  datatype Reply = Answered(records: seq<Record>, total: int) | Failed(message: Option<string>)

  /** What a fulfilled fetch hands the reducer: the records to show and the total to paginate by. */
  datatype Payload = Payload(items: seq<Record>, total: int)

  /** How a fetch settles: the fulfilled or the rejected case of the thunk. */
  datatype Outcome = Fulfilled(payload: Payload) | Rejected(message: Option<string>)

  /** The field-filter branch asks the search endpoint for this many rows, from row 0. */
  const SearchWindow := 100

  /** The field-filter branch's local work on the search answer: keep the rows
      whose field matches, count them as the total, and cut the requested page
      out of them. */
  function FilteredPayload(access: Access, rows: seq<Record>, field: string, needle: string,
                           page: int, pageSize: int): (p: Payload)
    ensures p.total == |FilterByField(access, rows, field, needle)| <= |rows|
    ensures pageSize >= 0 ==> |p.items| <= pageSize
    ensures forall r :: r in p.items ==> r in rows && Matches(FieldValue(access, r, field), needle)
    ensures p.items == PageOf(FilterByField(access, rows, field, needle), page, pageSize)
  {
    var kept := FilterByField(access, rows, field, needle);
    Payload(PageOf(kept, page, pageSize), |kept|)
  }

  /** `action.error.message || fallback`: an absent or empty message gives way to the fallback. */
  function ErrorText(message: Option<string>, fallback: string): string {
    if message.Some? && message.value != "" then message.value else fallback
  }
}
