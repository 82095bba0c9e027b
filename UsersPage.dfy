/** The users page: its columns (two of them dotted paths), the client-side
    search over the fetched page, and the three local filter inputs kept in
    step with the store's field filter. */
module UsersPage {
  import opened Js
  import opened Paths
  import opened Narrowing
  import opened UsersSlice
  import FilterBar
  import DataTable

  const UserColumns: seq<string> :=
    ["firstName", "lastName", "maidenName", "age", "gender", "email", "username",
     "bloodGroup", "eyeColor", "address.city", "company.name", "phone"]

  /** `filteredUsers`: a dotted column is folded key by key, a plain one read directly. */
  function FilteredUsers(users: seq<Record>, searchTerm: string): seq<Record> {
    SearchNarrow(Dotted, users, UserColumns, searchTerm)
  }

  /** A user the search keeps shows the term in one of its cells (or holds an
      object there), the dotted columns included. */
  lemma SearchHitIsVisible(users: seq<Record>, searchTerm: string, stringify: Value -> string, user: Record)
    requires searchTerm != "" && user in FilteredUsers(users, searchTerm)
    ensures exists j :: 0 <= j < |UserColumns| && (DataTable.CellValue(user, UserColumns[j]).Obj? ||
              Includes(ToLower(DataTable.FormatValue(DataTable.CellValue(user, UserColumns[j]), stringify)),
                       ToLower(searchTerm)))
  {
    DataTable.KeptRowShowsTerm(Dotted, users, UserColumns, searchTerm, stringify, user);
  }

  /** `"address.city".split('.')`. */
  lemma CityPath()
    ensures Split("address.city", '.') == ["address", "city"]
  {
    SplitPrefix("address", '.', "city");
    SplitWithoutSep("city", '.');
    assert "address" + ['.'] + "city" == "address.city";
  }

  /** The table header and the filter label of the city column both read "city". */
  lemma CityColumnLabels()
    ensures DataTable.HeaderLabel("address.city") == "city"
    ensures FilterBar.FormatColumnName("address.city") == "city"
  {
    CityPath();
  }

  /** A user whose address has no city (or who has no address object at all)
      resolves the "address.city" column to a falsy value, which no term matches. */
  lemma MissingCityNeverMatches(user: Record, searchTerm: string)
    requires "address" !in user || (user["address"].Obj? && "city" !in user["address"].fields)
    ensures !Matches(FieldValue(Dotted, user, "address.city"), searchTerm)
  {
    CityPath();
    var keys := ["address", "city"];
    DottedIsFold(user, "address.city");
    if "address" !in user {
      assert keys[..0] == [];
      FoldMissingSegment(Obj(user), keys, 0, user);
    } else {
      assert keys[..1] == ["address"];
      assert Walk(Obj(user), keys[..1]) == user["address"];
      FoldMissingSegment(Obj(user), keys, 1, user["address"].fields);
    }
  }

  /** The filter bar renders inputs for the first five columns only, so the
      email input this page tracks is never on screen. */
  lemma EmailInputNotRendered(activeFilters: map<string, string>)
    ensures forall input :: input in FilterBar.FilterInputs(UserColumns, activeFilters) ==> input.column != "email"
  {
    assert UserColumns[..5] == ["firstName", "lastName", "maidenName", "age", "gender"];
    FilterBar.LaterColumnsHaveNoInput(UserColumns, activeFilters, "email");
  }

  /** With `activeFilters` built from the three tracked inputs only, the
      rendered maiden-name, age and gender inputs always show nothing,
      whatever was typed into them last. */
  lemma UntrackedInputsShowNothing(activeFilters: map<string, string>)
    requires forall k :: k in activeFilters ==> k == "firstName" || k == "lastName" || k == "email"
    ensures var inputs := FilterBar.FilterInputs(UserColumns, activeFilters);
      |inputs| == 5 && inputs[2].value == "" && inputs[3].value == "" && inputs[4].value == ""
  {
    // The untracked names differ from every tracked one in their first letter;
    // naming those letters spares the solver comparing whole literals.
    assert "maidenName" !in activeFilters && "age" !in activeFilters && "gender" !in activeFilters by {
      assert "maidenName"[0] == 'm' && "age"[0] == 'a' && "gender"[0] == 'g';
      assert "firstName"[0] == 'f' && "lastName"[0] == 'l' && "email"[0] == 'e';
    }
    assert UserColumns[2] == "maidenName" && UserColumns[3] == "age" && UserColumns[4] == "gender";
    FilterBar.UntrackedColumnShowsNothing(UserColumns, activeFilters, 2);
    FilterBar.UntrackedColumnShowsNothing(UserColumns, activeFilters, 3);
    FilterBar.UntrackedColumnShowsNothing(UserColumns, activeFilters, 4);
  }

  /** The page's three filter inputs (`useState` slots). */
  class UserFilterInputs {
    var firstNameFilter: string
    var lastNameFilter: string
    var emailFilter: string

    constructor ()
      ensures firstNameFilter == "" && lastNameFilter == "" && emailFilter == ""
    {
      firstNameFilter, lastNameFilter, emailFilter := "", "", "";
    }

    /** At most one input is non-empty. */
    predicate AtMostOne()
      reads this
    {
      (firstNameFilter != "" ==> lastNameFilter == "" && emailFilter == "") &&
      (lastNameFilter != "" ==> emailFilter == "")
    }

    /** A non-empty input shows exactly the field filter the store holds. */
    predicate AgreesWith(store: UsersStore)
      reads this, store
    {
      (firstNameFilter != "" ==> store.filterField == "firstName" && store.filter == firstNameFilter) &&
      (lastNameFilter != "" ==> store.filterField == "lastName" && store.filter == lastNameFilter) &&
      (emailFilter != "" ==> store.filterField == "email" && store.filter == emailFilter)
    }

    /** `handleFilterChange`: a value sets the store's filter and leaves only the
        matching input (if any) holding it; an empty value clears the store's
        filter and every input. */
    method HandleFilterChange(store: UsersStore, field: string, value: string)
      modifies this, store
      ensures value != "" ==> store.State() == old(store.State()).(filter := value, filterField := field, page := 1)
      ensures value == "" ==> store.State() == old(store.State()).(filter := "", filterField := "", page := 1)
      ensures firstNameFilter == (if value != "" && field == "firstName" then value else "")
      ensures lastNameFilter == (if value != "" && field == "lastName" then value else "")
      ensures emailFilter == (if value != "" && field == "email" then value else "")
      ensures AtMostOne() && AgreesWith(store)
      ensures store.Paired() <==> value == "" || field != ""
    {
      if value != "" {
        store.SetFilter(field, value);
        if field == "firstName" { firstNameFilter := value; }
        if field == "lastName" { lastNameFilter := value; }
        if field == "email" { emailFilter := value; }
        if field != "firstName" { firstNameFilter := ""; }
        if field != "lastName" { lastNameFilter := ""; }
        if field != "email" { emailFilter := ""; }
      } else {
        store.ClearFilters();
        firstNameFilter := "";
        lastNameFilter := "";
        emailFilter := "";
      }
    }

    /** `activeFilters`: one entry per non-empty input, keyed by its field. */
    method ActiveFilters() returns (activeFilters: map<string, string>)
      ensures forall k :: k in activeFilters <==>
        (k == "firstName" && firstNameFilter != "") || (k == "lastName" && lastNameFilter != "") ||
        (k == "email" && emailFilter != "")
      ensures "firstName" in activeFilters ==> activeFilters["firstName"] == firstNameFilter
      ensures "lastName" in activeFilters ==> activeFilters["lastName"] == lastNameFilter
      ensures "email" in activeFilters ==> activeFilters["email"] == emailFilter
      ensures AtMostOne() ==> |activeFilters| <= 1
    {
      activeFilters := map[];
      if firstNameFilter != "" { activeFilters := activeFilters["firstName" := firstNameFilter]; }
      if lastNameFilter != "" { activeFilters := activeFilters["lastName" := lastNameFilter]; }
      if emailFilter != "" { activeFilters := activeFilters["email" := emailFilter]; }
    }
  }
}
