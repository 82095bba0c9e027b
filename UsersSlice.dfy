/** The users list-query state (`usersSlice`): its record, the five intent
    reducers, the pending/fulfilled/rejected reducers of `fetchUsers`, and what
    `fetchUsers` asks the API and makes of the answer, with dotted filter fields
    resolved through the `reduce` fold. */
module UsersSlice {
  import opened Js
  import opened Paths
  import opened Narrowing
  import opened Paging
  import opened Gateway

  /** The whole users record, as one value. */
  datatype UsersState = UsersState(
    users: seq<Record>,
    loading: bool,
    error: Option<string>,
    pageSize: int,
    searchTerm: string,
    filter: string,
    filterField: string,
    total: int,
    page: int)

  const InitialState := UsersState([], false, None, 5, "", "", "", 0, 1)

  const FetchFailed := "Failed to fetch users"

  /** The fields `fetchUsers` reads; also the refetch dependencies of the users page. */
  datatype UsersQuery = UsersQuery(pageSize: int, page: int, filter: string, filterField: string)

  /** `filter && filterField`. */
  predicate FieldFilterActive(q: UsersQuery) {
    q.filter != "" && q.filterField != ""
  }

  /** The one API call `fetchUsers` makes: a search for the filter value when a
      field filter is held, else a plain page. */
  function UsersRequest(q: UsersQuery): Request {
    if FieldFilterActive(q) then SearchFor(q.filter, SearchWindow, 0)
    else ListAll(q.pageSize, Skip(q.page, q.pageSize))
  }

  /** How `fetchUsers` settles given the API's reply to `UsersRequest(q)`. */
  function UsersOutcome(q: UsersQuery, reply: Reply): Outcome {
    match reply
    case Failed(message) => Rejected(message)
    case Answered(rows, total) =>
      if FieldFilterActive(q) then
        Fulfilled(FilteredPayload(Dotted, rows, q.filterField, q.filter, q.page, q.pageSize))
      else
        Fulfilled(Payload(rows, total))
  }

  /** Without a field filter, the request is the plain page `limit = pageSize`,
      `skip = (page - 1) * pageSize`; with one, the first 100 search rows. */
  lemma RequestBranches(q: UsersQuery)
    ensures !FieldFilterActive(q) ==> UsersRequest(q) == ListAll(q.pageSize, (q.page - 1) * q.pageSize)
    ensures FieldFilterActive(q) ==> UsersRequest(q) == SearchFor(q.filter, 100, 0)
    ensures !UsersRequest(q).ByCategory?
  {
  }

  /** The field-filter branch: the total counts the search rows whose field
      resolves to a matching value, never more than the search returned; the
      items are those rows' page `[skip, skip + pageSize)`, in order. */
  lemma FilterBranch(q: UsersQuery, rows: seq<Record>, total: int)
    requires FieldFilterActive(q)
    requires q.page >= 1 && q.pageSize >= 0
    ensures var kept := FilterByField(Dotted, rows, q.filterField, q.filter);
      var skip := Skip(q.page, q.pageSize);
      skip >= 0 &&
      UsersOutcome(q, Answered(rows, total)) ==
        Fulfilled(Payload(kept[Min(skip, |kept|)..Min(skip + q.pageSize, |kept|)], |kept|)) &&
      |kept| <= |rows|
  {
    var kept := FilterByField(Dotted, rows, q.filterField, q.filter);
    var payload := FilteredPayload(Dotted, rows, q.filterField, q.filter, q.page, q.pageSize);
    SkipNonNegative(q.page, q.pageSize);
    assert UsersOutcome(q, Answered(rows, total)) == Fulfilled(payload);
    assert payload == Payload(PageOf(kept, q.page, q.pageSize), |kept|);
  }

  /** A user whose filter path meets a missing key part way resolves to a falsy
      value, so the field filter drops that user. */
  lemma MissingSegmentExcluded(q: UsersQuery, rows: seq<Record>, user: Record, i: nat, m: map<string, Value>)
    requires var keys := Split(q.filterField, '.');
      i < |keys| && Walk(Obj(user), keys[..i]) == Obj(m) && keys[i] !in m
    ensures user !in FilterByField(Dotted, rows, q.filterField, q.filter)
  {
    DottedIsFold(user, q.filterField);
    FoldMissingSegment(Obj(user), Split(q.filterField, '.'), i, m);
  }

  /** The users record, updated in place by its reducers. */
  class UsersStore {
    var users: seq<Record>
    var loading: bool
    var error: Option<string>
    var pageSize: int
    var searchTerm: string
    var filter: string
    var filterField: string
    var total: int
    var page: int

    function State(): UsersState
      reads this
    {
      UsersState(users, loading, error, pageSize, searchTerm, filter, filterField, total, page)
    }

    function Query(): UsersQuery
      reads this
    {
      UsersQuery(pageSize, page, filter, filterField)
    }

    /** The field filter's two halves are set together or are both empty. */
    predicate Paired()
      reads this
    {
      (filter == "") == (filterField == "")
    }

    /** `initialState`. */
    constructor ()
      ensures State() == InitialState
      ensures Paired()
    {
      users, loading, error := [], false, None;
      pageSize, searchTerm := 5, "";
      filter, filterField := "", "";
      total, page := 0, 1;
    }

    method SetPageSize(n: int)
      modifies this
      ensures State() == old(State()).(pageSize := n, page := 1)
      ensures old(Paired()) ==> Paired()
    {
      pageSize := n;
      page := 1;
    }

    /** Changes the search term only; the fetch query stays as it was. */
    method SetSearchTerm(s: string)
      modifies this
      ensures State() == old(State()).(searchTerm := s)
      ensures Query() == old(Query())
      ensures old(Paired()) ==> Paired()
    {
      searchTerm := s;
    }

    /** Net effect: the new (field, value) pair and page 1; the conditional reset
        is overwritten, and only one pair is ever held. */
    method SetFilter(field: string, value: string)
      modifies this
      ensures State() == old(State()).(filter := value, filterField := field, page := 1)
      ensures Paired() <==> ((value == "") == (field == ""))
    {
      if filterField != field {
        filter := "";
        filterField := "";
      }
      filter := value;
      filterField := field;
      page := 1;
    }

    method ClearFilters()
      modifies this
      ensures State() == old(State()).(filter := "", filterField := "", page := 1)
      ensures !FieldFilterActive(Query())
      ensures Paired()
    {
      filter := "";
      filterField := "";
      page := 1;
    }

    /** No bounds check: any page number is stored as given. */
    method SetPage(p: int)
      modifies this
      ensures State() == old(State()).(page := p)
      ensures old(Paired()) ==> Paired()
    {
      page := p;
    }

    /** `fetchUsers.pending`. */
    method Pending()
      modifies this
      ensures State() == old(State()).(loading := true, error := None)
      ensures old(Paired()) ==> Paired()
    {
      loading := true;
      error := None;
    }

    /** `fetchUsers.fulfilled`. */
    method Fulfilled(payload: Payload)
      modifies this
      ensures State() == old(State()).(loading := false, users := payload.items, total := payload.total)
      ensures old(Paired()) ==> Paired()
    {
      loading := false;
      users := payload.items;
      total := payload.total;
    }

    /** `fetchUsers.rejected`: the list is emptied; the total is kept. */
    method Rejected(message: Option<string>)
      modifies this
      ensures State() == old(State()).(loading := false, error := Some(ErrorText(message, FetchFailed)), users := [])
      ensures error.Some? && error.value != ""
      ensures old(Paired()) ==> Paired()
    {
      loading := false;
      error := Some(ErrorText(message, FetchFailed));
      users := [];
    }

    /** One fetch run to completion with no other action in between. */
    method Fetch(gateway: Request -> Reply)
      modifies this
      ensures Query() == old(Query()) && searchTerm == old(searchTerm)
      ensures !loading
      ensures var outcome := UsersOutcome(old(Query()), gateway(UsersRequest(old(Query()))));
        match outcome
        case Fulfilled(payload) => users == payload.items && total == payload.total && error == None
        case Rejected(message) => users == [] && total == old(total) && error == Some(ErrorText(message, FetchFailed))
      ensures old(Paired()) ==> Paired()
    {
      Pending();
      var q := Query();
      var outcome := UsersOutcome(q, gateway(UsersRequest(q)));
      match outcome {
        case Fulfilled(payload) => Fulfilled(payload);
        case Rejected(message) => Rejected(message);
      }
    }
  }
}
