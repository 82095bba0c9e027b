/** The products list-query state (`productsSlice`): its record, the six intent
    reducers, the pending/fulfilled/rejected reducers of `fetchProducts`, and
    what `fetchProducts` asks the API and makes of the answer. */
module ProductsSlice {
  import opened Js
  import opened Narrowing
  import opened Paging
  import opened Gateway

  /** The whole products record, as one value. */
  datatype ProductsState = ProductsState(
    products: seq<Record>,
    loading: bool,
    error: Option<string>,
    pageSize: int,
    searchTerm: string,
    filter: string,
    filterField: string,
    total: int,
    page: int,
    categoryFilter: string)

  const InitialState := ProductsState([], false, None, 5, "", "", "", 0, 1, "all")

  const FetchFailed := "Failed to fetch products"

  /** The fields `fetchProducts` reads. They are also exactly the refetch
      dependencies of the products page, so a change to anything else
      (the search term in particular) triggers no fetch. */
  datatype ProductsQuery = ProductsQuery(
    pageSize: int, page: int, categoryFilter: string, filter: string, filterField: string)

  /** A category other than the sentinel "all" is selected. */
  predicate CategoryActive(q: ProductsQuery) {
    q.categoryFilter != "" && q.categoryFilter != "all"
  }

  /** `filter && filterField`: both halves of the field filter are set. */
  predicate FieldFilterActive(q: ProductsQuery) {
    q.filter != "" && q.filterField != ""
  }

  /** The one API call `fetchProducts` makes: by category first, else a search
      for the filter value, else a plain page. */
  function ProductsRequest(q: ProductsQuery): Request {
    var skip := Skip(q.page, q.pageSize);
    if CategoryActive(q) then ByCategory(q.categoryFilter, q.pageSize, skip)
    else if FieldFilterActive(q) then SearchFor(q.filter, SearchWindow, 0)
    else ListAll(q.pageSize, skip)
  }

  /** How `fetchProducts` settles given the API's reply to `ProductsRequest(q)`:
      a failure rejects; the filter branch filters and pages the search answer
      locally; the other branches pass the answer through. */
  function ProductsOutcome(q: ProductsQuery, reply: Reply): Outcome {
    match reply
    case Failed(message) => Rejected(message)
    case Answered(rows, total) =>
      if ProductsRequest(q).SearchFor? then
        Fulfilled(FilteredPayload(Direct, rows, q.filterField, q.filter, q.page, q.pageSize))
      else
        Fulfilled(Payload(rows, total))
  }

  /** A selected category decides the request whatever field filter is held:
      the filter is ignored, not combined. */
  lemma CategoryTakesPrecedence(q: ProductsQuery, filter: string, filterField: string)
    requires CategoryActive(q)
    ensures ProductsRequest(q.(filter := filter, filterField := filterField)) == ProductsRequest(q)
    ensures ProductsRequest(q) == ByCategory(q.categoryFilter, q.pageSize, (q.page - 1) * q.pageSize)
  {
  }

  /** Without a category or a full field filter, the request is the plain page
      `limit = pageSize`, `skip = (page - 1) * pageSize`. */
  lemma PlainBranch(q: ProductsQuery)
    requires !CategoryActive(q) && !FieldFilterActive(q)
    ensures ProductsRequest(q) == ListAll(q.pageSize, (q.page - 1) * q.pageSize)
  {
  }

  /** The field-filter branch: the search asks for the first 100 rows matching
      the filter value; the payload's total counts the rows whose `filterField`
      matches; its items are those rows' page `[skip, skip + pageSize)`, in order,
      at most `pageSize` of them. */
  lemma FilterBranch(q: ProductsQuery, rows: seq<Record>, total: int)
    requires !CategoryActive(q) && FieldFilterActive(q)
    requires q.page >= 1 && q.pageSize >= 0
    ensures ProductsRequest(q) == SearchFor(q.filter, 100, 0)
    ensures var kept := FilterByField(Direct, rows, q.filterField, q.filter);
      var skip := Skip(q.page, q.pageSize);
      skip >= 0 &&
      ProductsOutcome(q, Answered(rows, total)) ==
        Fulfilled(Payload(kept[Min(skip, |kept|)..Min(skip + q.pageSize, |kept|)], |kept|))
  {
    var kept := FilterByField(Direct, rows, q.filterField, q.filter);
    var payload := FilteredPayload(Direct, rows, q.filterField, q.filter, q.page, q.pageSize);
    SkipNonNegative(q.page, q.pageSize);
    assert ProductsRequest(q).SearchFor?;
    assert ProductsOutcome(q, Answered(rows, total)) == Fulfilled(payload);
    assert payload == Payload(PageOf(kept, q.page, q.pageSize), |kept|);
  }

  /** The rows the field filter keeps are those whose `filterField` value is
      truthy and contains the filter value, ignoring ASCII case. */
  lemma FilterBranchKeeps(q: ProductsQuery, rows: seq<Record>, r: Record)
    ensures r in FilterByField(Direct, rows, q.filterField, q.filter) <==>
      r in rows && Truthy(Member(Obj(r), q.filterField)) &&
      Includes(ToLower(ToText(Member(Obj(r), q.filterField))), ToLower(q.filter))
  {
  }

  /** A failed call rejects with the error's message, whatever the branch. */
  lemma FailureRejects(q: ProductsQuery, message: Option<string>)
    ensures ProductsOutcome(q, Failed(message)) == Rejected(message)
  {
  }

  /** The products record, updated in place by its reducers. */
  class ProductsStore {
    var products: seq<Record>
    var loading: bool
    var error: Option<string>
    var pageSize: int
    var searchTerm: string
    var filter: string
    var filterField: string
    var total: int
    var page: int
    var categoryFilter: string

    function State(): ProductsState
      reads this
    {
      ProductsState(products, loading, error, pageSize, searchTerm, filter, filterField, total, page, categoryFilter)
    }

    function Query(): ProductsQuery
      reads this
    {
      ProductsQuery(pageSize, page, categoryFilter, filter, filterField)
    }

    /** The field filter's two halves are set together or are both empty. */
    predicate Paired()
      reads this
    {
      (filter == "") == (filterField == "")
    }

    /** `initialState`. */
    constructor ()
      ensures State() == InitialState
      ensures Paired()
    {
      products, loading, error := [], false, None;
      pageSize, searchTerm := 5, "";
      filter, filterField := "", "";
      total, page, categoryFilter := 0, 1, "all";
    }

    method SetPageSize(n: int)
      modifies this
      ensures State() == old(State()).(pageSize := n, page := 1)
      ensures old(Paired()) ==> Paired()
    {
      pageSize := n;
      page := 1;
    }

    /** Changes the search term only, so the fetch query, and with it the
        refetch dependencies, stay as they were. */
    method SetSearchTerm(s: string)
      modifies this
      ensures State() == old(State()).(searchTerm := s)
      ensures Query() == old(Query())
      ensures old(Paired()) ==> Paired()
    {
      searchTerm := s;
    }

    /** The reset of the old pair when the field changes is overwritten at once:
        the net effect is the new pair and page 1, whatever was held before.
        The category is left as it is. */
    method SetFilter(field: string, value: string)
      modifies this
      ensures State() == old(State()).(filter := value, filterField := field, page := 1)
      ensures Paired() <==> ((value == "") == (field == ""))
    {
      if filterField != field {
        filter := "";
        filterField := "";
      }
      filter := value;
      filterField := field;
      page := 1;
    }

    method ClearFilters()
      modifies this
      ensures State() == old(State()).(filter := "", filterField := "", page := 1)
      ensures !FieldFilterActive(Query())
      ensures Paired()
    {
      filter := "";
      filterField := "";
      page := 1;
    }

    /** No clamping: any page number is stored as given. */
    method SetPage(p: int)
      modifies this
      ensures State() == old(State()).(page := p)
      ensures old(Paired()) ==> Paired()
    {
      page := p;
    }

    /** Selecting a category cancels the field filter. */
    method SetCategoryFilter(c: string)
      modifies this
      ensures State() == old(State()).(filter := "", filterField := "", categoryFilter := c, page := 1)
      ensures !FieldFilterActive(Query())
      ensures Paired()
    {
      filter := "";
      filterField := "";
      categoryFilter := c;
      page := 1;
    }

    /** `fetchProducts.pending`: the listed products stay until the fetch settles. */
    method Pending()
      modifies this
      ensures State() == old(State()).(loading := true, error := None)
      ensures old(Paired()) ==> Paired()
    {
      loading := true;
      error := None;
    }

    /** `fetchProducts.fulfilled`. */
    method Fulfilled(payload: Payload)
      modifies this
      ensures State() == old(State()).(loading := false, products := payload.items, total := payload.total)
      ensures old(Paired()) ==> Paired()
    {
      loading := false;
      products := payload.items;
      total := payload.total;
    }

    /** `fetchProducts.rejected`: the list is emptied whatever it held; the total is kept. */
    method Rejected(message: Option<string>)
      modifies this
      ensures State() == old(State()).(loading := false, error := Some(ErrorText(message, FetchFailed)), products := [])
      ensures error.Some? && error.value != ""
      ensures old(Paired()) ==> Paired()
    {
      loading := false;
      error := Some(ErrorText(message, FetchFailed));
      products := [];
    }

    /** One fetch run to completion with no other action in between: pending,
        the call chosen by the current query, then the fulfilled or rejected
        reducer. The query is left as it was, so a fetch never triggers another. */
    method Fetch(gateway: Request -> Reply)
      modifies this
      ensures Query() == old(Query()) && searchTerm == old(searchTerm)
      ensures !loading
      ensures var outcome := ProductsOutcome(old(Query()), gateway(ProductsRequest(old(Query()))));
        match outcome
        case Fulfilled(payload) => products == payload.items && total == payload.total && error == None
        case Rejected(message) => products == [] && total == old(total) && error == Some(ErrorText(message, FetchFailed))
      ensures old(Paired()) ==> Paired()
    {
      Pending();
      var q := Query();
      var outcome := ProductsOutcome(q, gateway(ProductsRequest(q)));
      match outcome {
        case Fulfilled(payload) => Fulfilled(payload);
        case Rejected(message) => Rejected(message);
      }
    }
  }

  /** From the initial state, a failed fetch leaves an empty list, an error to
      show and no spinner; a successful one shows what the API answered. */
  method InitialFetch(gateway: Request -> Reply) returns (store: ProductsStore)
    ensures fresh(store)
    ensures gateway(ListAll(5, 0)).Failed? ==>
      store.products == [] && store.error.Some? && !store.loading && store.total == 0
    ensures gateway(ListAll(5, 0)).Answered? ==>
      store.products == gateway(ListAll(5, 0)).records && store.total == gateway(ListAll(5, 0)).total &&
      !store.loading && store.error == None
  {
    store := new ProductsStore();
    store.Fetch(gateway);
  }
}
