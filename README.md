# Users and products dashboard — a verified model of its list logic

The dashboard shows two paginated tables: users and products. Both come from a
remote JSON API. Each table has a Redux slice that holds its list-query state:
page, page size, a free-text search term and one field filter, plus a category
for products. Changing any of these except the search term, through an intent
reducer, triggers a fetch.
The fetch asks the API for a page, or, under a field filter, for the first 100
search hits. It then filters and pages those hits locally. The pages then:

- narrow the fetched page again by the search term;
- draw a table whose dotted columns (`address.city`) are read along nested objects;
- draw a filter bar with labelled inputs for the first five columns;
- draw a pagination control with ellipses.

This project models that logic in Dafny, one module per part:

- `Js` — the JavaScript semantics the code relies on:
  - values with their truthiness and `toString()`;
  - property access;
  - ASCII `toLowerCase`, `includes`, `split('.')`, `pop` and `Array.prototype.slice`.
- `Paths` — `getNestedValue`, as a `Walk` over the keys of a path. It also has
  the `reduce((obj, key) => obj && obj[key], …)` fold of the users code, and
  shows how the two agree.
- `Narrowing` — the order-preserving filters: the field filter of the fetch and
  the search of the pages.
- `Paging` — the `skip`/`slice` page cut and `Math.ceil(total / pageSize)`.
- `Gateway` — the API requests, replies and the payload of a fulfilled fetch.
  The transport is a function parameter.
- `ProductsSlice`, `UsersSlice` — the state records. Each is a class whose
  methods are the reducers. Each also has the request `fetchProducts` or
  `fetchUsers` makes and the outcome it settles with.
- `Pagination` — `getPageNumbers`, a method with its loops, proved equal to
  `PageList`, plus the Previous/Next/page button guards.
- `DataTable` — header labels, cell values, `formatValue` and the "No data
  available." rule.
- `FilterBar` — `formatColumnName`, the page-size choices and the rendered inputs.
- `ProductsPage`, `UsersPage` — the column lists, the search, the page count,
  and the local filter inputs. The inputs are a class kept in step with the store.

Behaviour worth knowing, modelled as the code has it:

- **Single field filter.** `setFilter` keeps one field filter at a time.
  Resetting the old pair when the field changes has no lasting effect, since
  the new pair overwrites it at once.
- **Orphan field.** `setFilter(field, "")` is not the same as `clearFilters`:
  it stores the field with an empty value, so the pair is no longer set
  together (no fetch filters on it, since both halves must be set). The pages
  never send that: their handlers turn an empty value into `clearFilters`.
- **Category is not cleared.** `setFilter` leaves the products category as it
  is. The category then takes precedence, so a field filter set while a
  category is selected has no effect on the request.
- **Ellipsis for one hidden page.** An ellipsis also stands for a single hidden
  page: for page 4 of 10 the list is `1 … 3 4 5 … 10`, with page 2 hidden.
- **Next when there are no pages.** "Next" is disabled only when the current
  page equals the page count. With zero pages, page 1 keeps it enabled.
- **Inputs never rendered.** The filter bar renders inputs only for the first
  five columns. So the brand and category inputs on the products page, and the
  email input on the users page, are tracked but never on screen. Conversely
  the other rendered inputs are not tracked: `activeFilters` never holds their
  column, so they always show nothing.
- **Search deps.** The search term is not among a page's refetch dependencies.
  `SetSearchTerm` leaves the fetch query unchanged. Searching only narrows the
  page already fetched.

## Model

| member | source | states |
|---|---|---|
| Js.ToLower | src/redux/slices/productsSlice.ts:58 | lower-casing keeps the length and maps each character through the ASCII case map |
| Js.IncludesIffOccurs | src/redux/slices/productsSlice.ts:58 | `includes` holds exactly when the needle occurs as a contiguous run at some index |
| Js.JoinSplit | src/components/DataTable.tsx:16 | splitting a path on '.' loses nothing: joining the parts gives the path back, and no part holds a '.' |
| Js.SplitJoin | src/components/DataTable.tsx:16 | splitting a '.'-join of dot-free keys gives those keys back |
| Js.SplitPrefix | src/components/DataTable.tsx:16 | a dot-free prefix before the first '.' is the first part, and the rest splits on its own |
| Js.SplitWithoutSep | src/components/DataTable.tsx:64-66 | an undotted column splits into itself alone |
| Js.LastPartIsTail | src/components/DataTable.tsx:52 | `split('.').pop()` is the suffix after the last '.', holding no '.', or the whole text when there is none |
| Js.JsSlice | src/redux/slices/productsSlice.ts:62 | `slice(start, end)` returns at most `end - start` items, all from the list, and for non-negative bounds exactly the items between the clamped bounds |
| Paths.Walk | src/components/DataTable.tsx:15-27 | definition of `getNestedValue` on a key list; properties in Paths.GetNestedValue, Paths.StopsAtNonObject, Paths.LastStepIsLookup |
| Paths.GetNestedValue | src/components/DataTable.tsx:15-27 | the loop returns the walk along the path's '.'-separated keys: `null` as soon as a non-object is met, else the property reached |
| Paths.WalkAppend | src/components/DataTable.tsx:19-24 | walking two key lists one after the other is walking their concatenation |
| Paths.WalkNull | src/components/DataTable.tsx:20-22 | once `null`, the walk stays `null` |
| Paths.StopsAtNonObject | src/components/DataTable.tsx:19-22 | a non-object met before the last key makes the whole result `null` |
| Paths.LastStepIsLookup | src/components/DataTable.tsx:23 | a step from an object yields its property, or `undefined` when the key is missing |
| Paths.Fold | src/redux/slices/usersSlice.ts:47 | definition of the `reduce((obj, key) => obj && obj[key], …)` fold; properties in Paths.FoldKeepsFalsy, Paths.FoldMissingSegment, Paths.WalkAgreesWithFold |
| Paths.FoldKeepsFalsy | src/redux/slices/usersSlice.ts:47 | the `obj && obj[key]` fold returns the first falsy value it meets unchanged |
| Paths.FoldMissingSegment | src/redux/slices/usersSlice.ts:47 | a key missing part way along the path makes the fold `undefined` |
| Paths.WalkAgreesWithFold | src/pages/UsersPage.tsx:86-88 | the table's walk and the search's fold give the same value, or both give a falsy one |
| Narrowing.FieldValue | src/redux/slices/usersSlice.ts:46-48 | definition of the field read (plain property, or the fold for a dotted users field); properties in Narrowing.DottedIsFold |
| Narrowing.Matches | src/redux/slices/usersSlice.ts:50 | definition of `value && value.toString().toLowerCase().includes(filter.toLowerCase())`; properties in Narrowing.FalsyNeverMatches, ProductsSlice.FilterBranchKeeps |
| Narrowing.DottedIsFold | src/redux/slices/usersSlice.ts:46-48 | the users' field read is the fold along the field's keys, for dotted and plain fields alike |
| Narrowing.Keep | src/redux/slices/productsSlice.ts:56-59 | definition of `rows.filter(p)`: at most as many rows, each passing; properties in Narrowing.KeepMembers, Narrowing.KeepCounts, Narrowing.KeepIsSubsequence |
| Narrowing.KeepMembers | src/redux/slices/productsSlice.ts:56-59 | `filter` keeps exactly the rows satisfying its test |
| Narrowing.KeepCounts | src/redux/slices/productsSlice.ts:56-59 | `filter` keeps every copy of a row that passes and none of one that fails, so the kept count is exact |
| Narrowing.KeepIsSubsequence | src/redux/slices/productsSlice.ts:56-59 | `filter` keeps rows in their original order |
| Narrowing.KeepIdempotent | src/pages/ProductsPage.tsx:101-108 | filtering twice by the same test is filtering once |
| Narrowing.FilterByField | src/redux/slices/productsSlice.ts:56-59 | a row is kept iff its field value is truthy and its text holds the filter value, ignoring ASCII case; order is kept, no row is added, and a kept row keeps every copy it had |
| Narrowing.RepeatedRowsCounted | src/redux/slices/productsSlice.ts:66 | a matching row returned twice by the search is kept, and counted in the total, twice |
| Narrowing.RowMatches | src/pages/ProductsPage.tsx:103-106 | definition of `columns.some(column => matches)` for one row; properties in Narrowing.SearchNarrow |
| Narrowing.SearchNarrow | src/pages/ProductsPage.tsx:101-108 | an empty term shows the page unchanged; otherwise a row is shown iff some column matches the term, in the original order, with every copy it had |
| Narrowing.SearchIdempotent | src/pages/UsersPage.tsx:83-92 | searching the shown rows again for the same term changes nothing |
| Narrowing.FalsyNeverMatches | src/pages/ProductsPage.tsx:105 | `0` and `""` never match, even a search for "0" or for "", while `10` matches "0" |
| Paging.Skip | src/redux/slices/productsSlice.ts:38 | definition of `skip = (page - 1) * pageSize`; properties in Paging.SkipNonNegative, Paging.SkipNext |
| Paging.PageOf | src/redux/slices/productsSlice.ts:62 | the page cut has at most `pageSize` items, all from the list, and for page ≥ 1 is the run `[skip, skip + pageSize)` clamped to the list |
| Paging.Window | src/redux/slices/usersSlice.ts:54 | `slice(skip, skip + width)` has at most `width` items, all from the list, and is the clamped run for non-negative bounds |
| Paging.TotalPages | src/pages/ProductsPage.tsx:110 | `Math.ceil(total / pageSize)` is the least page count whose pages hold `total` rows |
| Paging.PagesTile | src/redux/slices/productsSlice.ts:62 | consecutive pages 1..n joined are the list's first `n * pageSize` rows: no row skipped or repeated |
| Paging.PagesCoverList | src/pages/UsersPage.tsx:94 | pages 1..totalPages joined are the whole list, and any page past the last is empty |
| Gateway.FilteredPayload | src/redux/slices/productsSlice.ts:56-67 | the filter branch's payload counts all matching search rows (never more than returned) and carries their requested page, each item a matching search row |
| Gateway.ErrorText | src/redux/slices/productsSlice.ts:128 | definition of `action.error.message \|\| fallback`; properties in ProductsSlice.ProductsStore.Rejected |
| ProductsSlice.InitialState | src/redux/slices/productsSlice.ts:18-29 | definition of `initialState`; properties in ProductsSlice.ProductsStore.constructor, ProductsPage.PageSizeOffered |
| ProductsSlice.CategoryActive | src/redux/slices/productsSlice.ts:41 | definition of `categoryFilter && categoryFilter !== 'all'`; properties in ProductsSlice.CategoryTakesPrecedence |
| ProductsSlice.FieldFilterActive | src/redux/slices/productsSlice.ts:50 | definition of `filter && filterField`; properties in ProductsSlice.PlainBranch, ProductsSlice.FilterBranch |
| ProductsSlice.ProductsRequest | src/redux/slices/productsSlice.ts:33-72 | definition of the API call `fetchProducts` makes; properties in ProductsSlice.CategoryTakesPrecedence, ProductsSlice.PlainBranch, ProductsSlice.FilterBranch |
| ProductsSlice.ProductsOutcome | src/redux/slices/productsSlice.ts:31-74 | definition of how `fetchProducts` settles on the API's reply; properties in ProductsSlice.FilterBranch, ProductsSlice.FailureRejects, ProductsSlice.ProductsStore.Fetch |
| ProductsSlice.CategoryTakesPrecedence | src/redux/slices/productsSlice.ts:38-47 | a selected category (other than "all") decides the request whatever field filter is held, with `limit = pageSize` and `skip = (page - 1) * pageSize` |
| ProductsSlice.PlainBranch | src/redux/slices/productsSlice.ts:70-72 | without a category or a full field filter the request is the plain page |
| ProductsSlice.FilterBranch | src/redux/slices/productsSlice.ts:49-67 | under a field filter the request is the first 100 search hits, and the fulfilled payload is the matching hits' page with their count as total |
| ProductsSlice.FilterBranchKeeps | src/redux/slices/productsSlice.ts:56-59 | a search hit is kept iff its `filterField` property is truthy and contains the filter value, ignoring ASCII case |
| ProductsSlice.FailureRejects | src/redux/slices/productsSlice.ts:33-73 | a failed API call rejects with its message in every branch |
| ProductsSlice.ProductsStore.Paired | src/redux/slices/productsSlice.ts:24-25 | definition: `filter` and `filterField` are set together or both empty; the constructor establishes it, `ClearFilters` and `SetCategoryFilter` restore it, every other reducer and `Fetch` preserve it, and `SetFilter` keeps it iff field and value are both set or both empty |
| ProductsSlice.ProductsStore.constructor | src/redux/slices/productsSlice.ts:18-29 | the initial state: empty list, page 1 of size 5, no filter, category "all"; the filter pair starts together (`Paired`) |
| ProductsSlice.ProductsStore.SetPageSize | src/redux/slices/productsSlice.ts:80-83 | sets the size and returns to page 1, nothing else changes |
| ProductsSlice.ProductsStore.SetSearchTerm | src/redux/slices/productsSlice.ts:84-86 | sets the term only; the fetch query (the page's refetch dependencies) is unchanged |
| ProductsSlice.ProductsStore.SetFilter | src/redux/slices/productsSlice.ts:87-97 | the new field/value pair replaces any previous one and the page returns to 1; the category is kept; the pair is together afterwards iff field and value are both empty or both set |
| ProductsSlice.ProductsStore.ClearFilters | src/redux/slices/productsSlice.ts:98-102 | empties the field filter and returns to page 1; no field filter is then active and the pair is together |
| ProductsSlice.ProductsStore.SetPage | src/redux/slices/productsSlice.ts:103-105 | stores the page as given, unclamped |
| ProductsSlice.ProductsStore.SetCategoryFilter | src/redux/slices/productsSlice.ts:106-113 | selects the category, cancels the field filter and returns to page 1, leaving the pair together |
| ProductsSlice.ProductsStore.Pending | src/redux/slices/productsSlice.ts:117-120 | sets loading and clears the error; the listed products stay |
| ProductsSlice.ProductsStore.Fulfilled | src/redux/slices/productsSlice.ts:121-125 | stops loading and takes the payload's products and total |
| ProductsSlice.ProductsStore.Rejected | src/redux/slices/productsSlice.ts:126-130 | stops loading, empties the list, keeps the total, and records the message or the fallback text, never an empty error |
| ProductsSlice.ProductsStore.Fetch | src/redux/slices/productsSlice.ts:31-74 | a fetch run to completion leaves the query as it was and settles as the API's reply to the query's request dictates |
| ProductsSlice.InitialFetch | src/pages/ProductsPage.tsx:43-45 | the first fetch asks for page 1 of 5 products; on an answer it ends with the answer's products and total, not loading and no error (so the table shows), on a failure with an empty list, an error and no spinner |
| UsersSlice.InitialState | src/redux/slices/usersSlice.ts:17-27 | definition of `initialState`; properties in UsersSlice.UsersStore.constructor |
| UsersSlice.FieldFilterActive | src/redux/slices/usersSlice.ts:39 | definition of `filter && filterField`; properties in UsersSlice.RequestBranches |
| UsersSlice.UsersRequest | src/redux/slices/usersSlice.ts:31-64 | definition of the API call `fetchUsers` makes; properties in UsersSlice.RequestBranches |
| UsersSlice.UsersOutcome | src/redux/slices/usersSlice.ts:29-66 | definition of how `fetchUsers` settles on the API's reply; properties in UsersSlice.FilterBranch, UsersSlice.MissingSegmentExcluded, UsersSlice.UsersStore.Fetch |
| UsersSlice.RequestBranches | src/redux/slices/usersSlice.ts:36-64 | the request is the plain page without a field filter and the first 100 search hits with one; never a category call |
| UsersSlice.FilterBranch | src/redux/slices/usersSlice.ts:39-59 | the fulfilled payload is the page of search hits whose (possibly dotted) field matches, with their count as total, never above the hits returned |
| UsersSlice.MissingSegmentExcluded | src/redux/slices/usersSlice.ts:45-51 | a user whose filter path meets a missing key part way is dropped by the field filter |
| UsersSlice.UsersStore.Paired | src/redux/slices/usersSlice.ts:23-24 | definition: `filter` and `filterField` are set together or both empty; the constructor establishes it, `ClearFilters` restores it, every other reducer and `Fetch` preserve it, and `SetFilter` keeps it iff field and value are both set or both empty |
| UsersSlice.UsersStore.constructor | src/redux/slices/usersSlice.ts:17-27 | the initial state: empty list, page 1 of size 5, no filter; the filter pair starts together (`Paired`) |
| UsersSlice.UsersStore.SetPageSize | src/redux/slices/usersSlice.ts:72-75 | sets the size and returns to page 1, nothing else changes |
| UsersSlice.UsersStore.SetSearchTerm | src/redux/slices/usersSlice.ts:76-78 | sets the term only; the fetch query is unchanged |
| UsersSlice.UsersStore.SetFilter | src/redux/slices/usersSlice.ts:79-89 | the new field/value pair replaces any previous one and the page returns to 1; the pair is together afterwards iff field and value are both empty or both set |
| UsersSlice.UsersStore.ClearFilters | src/redux/slices/usersSlice.ts:90-94 | empties the field filter and returns to page 1, leaving the pair together |
| UsersSlice.UsersStore.SetPage | src/redux/slices/usersSlice.ts:95-97 | stores the page as given, unclamped |
| UsersSlice.UsersStore.Pending | src/redux/slices/usersSlice.ts:101-104 | sets loading and clears the error |
| UsersSlice.UsersStore.Fulfilled | src/redux/slices/usersSlice.ts:105-109 | stops loading and takes the payload's users and total |
| UsersSlice.UsersStore.Rejected | src/redux/slices/usersSlice.ts:110-114 | stops loading, empties the list, keeps the total, and records a non-empty error |
| UsersSlice.UsersStore.Fetch | src/redux/slices/usersSlice.ts:29-66 | a fetch run to completion leaves the query as it was and settles as the API's reply dictates |
| Pagination.Numbers | src/components/Pagination.tsx:33-35 | the buttons for pages lo..hi, one per page in order, none when lo > hi |
| Pagination.NumbersSnoc | src/components/Pagination.tsx:33-35 | one more loop round appends the next page's button |
| Pagination.PushPages | src/components/Pagination.tsx:16-18 | the loop appends exactly the buttons for pages lo..hi |
| Pagination.StartPage | src/components/Pagination.tsx:24 | definition of `Math.max(2, currentPage - 1)`; properties in Pagination.LargeItems, Pagination.EllipsisPlacement |
| Pagination.EndPage | src/components/Pagination.tsx:25 | definition of `Math.min(totalPages - 1, currentPage + 1)`; properties in Pagination.LargeItems, Pagination.EllipsisPlacement |
| Pagination.PageList | src/components/Pagination.tsx:12-46 | definition of the list `getPageNumbers` returns; properties in Pagination.GetPageNumbers and the lemmas below |
| Pagination.GetPageNumbers | src/components/Pagination.tsx:12-46 | the method builds exactly `PageList(currentPage, totalPages)` |
| Pagination.FewPagesAllShown | src/components/Pagination.tsx:14-18 | with at most seven pages the list is 1, 2, …, totalPages, empty when there are none |
| Pagination.LargeItems | src/components/Pagination.tsx:19-44 | a long range lists page 1, an optional ellipsis, the window start..end, an optional ellipsis, the last page |
| Pagination.BothEllipsesNeedWindow | src/components/Pagination.tsx:24-40 | two ellipses only when the window is the full current-1..current+1 |
| Pagination.LargeListShape | src/components/Pagination.tsx:19-44 | a long range starts at 1, ends at the last page, holds at most seven items, ellipses only second or second to last, never two in a row |
| Pagination.EllipsisPlacement | src/components/Pagination.tsx:28-40 | an ellipsis follows page 1 iff the window starts past page 2, and precedes the last page iff it ends before the page before last |
| Pagination.NumbersIncreaseInRange | src/components/Pagination.tsx:12-46 | page buttons strictly increase and stay within 1..totalPages, for any current page |
| Pagination.LargeInRange | src/components/Pagination.tsx:19-44 | a long range's page buttons stay within 1..totalPages |
| Pagination.LargeIncrease | src/components/Pagination.tsx:19-44 | a long range's page buttons strictly increase |
| Pagination.GapsAreMarked | src/components/Pagination.tsx:12-46 | neighbouring page buttons are consecutive pages, and an ellipsis stands exactly between buttons more than one page apart |
| Pagination.LargeNeighboursConsecutive | src/components/Pagination.tsx:19-44 | in a long range, adjacent page buttons are consecutive |
| Pagination.LargeEllipsesBridgeGaps | src/components/Pagination.tsx:28-40 | in a long range, each ellipsis sits between pages more than one apart |
| Pagination.CurrentPageShown | src/components/Pagination.tsx:12-46 | a current page within range always has its own button |
| Pagination.MiddleExample | src/components/Pagination.tsx:19-44 | page 5 of 10 gives 1 … 4 5 6 … 10 |
| Pagination.SingleHiddenPageExample | src/components/Pagination.tsx:28-30 | page 4 of 10 gives 1 … 3 4 5 … 10, an ellipsis for page 2 alone |
| Pagination.EdgeExamples | src/components/Pagination.tsx:12-46 | page 1 of 10 gives 1 2 … 10; no pages give an empty list |
| Pagination.PrevClick | src/components/Pagination.tsx:49-63 | definition of the Previous button's guarded click; properties in Pagination.ClicksStayInRange |
| Pagination.NextClick | src/components/Pagination.tsx:50-109 | definition of the Next button's guarded click; properties in Pagination.ClicksStayInRange, Pagination.NextEnabledWithoutPages |
| Pagination.PageClick | src/components/Pagination.tsx:83-92 | definition of a page button's guarded click (an ellipsis is no button); properties in Pagination.ClicksStayInRange |
| Pagination.ClicksStayInRange | src/components/Pagination.tsx:49-109 | Previous is disabled exactly on page 1 and Next exactly on the last page; every enabled button asks for another page within 1..totalPages |
| Pagination.NextEnabledWithoutPages | src/components/Pagination.tsx:50 | with zero pages, page 1 keeps Next enabled and it asks for page 2 |
| DataTable.HeaderLabel | src/components/DataTable.tsx:52 | an undotted column is its own label; a dotted one is labelled by the text after its last '.', shorter than the column |
| DataTable.CellValue | src/components/DataTable.tsx:63-66 | definition of the value behind a cell; properties in DataTable.CellIsWalk, DataTable.SearchedValueIsShown |
| DataTable.CellIsWalk | src/components/DataTable.tsx:63-66 | a cell's value is the walk along the column's keys, whether the column is dotted or not |
| DataTable.FormatValue | src/components/DataTable.tsx:30-40 | `null` and `undefined` show "N/A" (not their own text), objects their JSON, anything else its `toString()` |
| DataTable.FalsyValuesShown | src/components/DataTable.tsx:30-40 | `0`, `false` and `""` are shown as they print; only the nullish values become "N/A" |
| DataTable.SearchedValueIsShown | src/components/DataTable.tsx:63-71 | a field value the search or filter matched is visible, case aside, in that field's cell unless it is an object |
| DataTable.KeptRowShowsTerm | src/components/DataTable.tsx:58-75 | every row the pages' search keeps shows the term in some cell, or holds an object there |
| DataTable.Render | src/components/DataTable.tsx:9-80 | "No data available." iff the data is absent or empty; otherwise one header per column and one row of formatted cells per record |
| DataTable.NestedExamples | src/components/DataTable.tsx:15-27 | a present nested key is returned, a missing last key gives `undefined`, a path through a number or a missing key gives `null` |
| FilterBar.PageSizeChoices | src/components/FilterBar.tsx:46-49 | the select offers four positive sizes in increasing order |
| FilterBar.CountUpper | src/components/FilterBar.tsx:31 | helper of FilterBar.FormatColumnName: the number of A-Z letters is at most the length |
| FilterBar.SpaceBeforeCaps | src/components/FilterBar.tsx:31 | the spaced text grows by one character per A-Z letter |
| FilterBar.SpacingStart | src/components/FilterBar.tsx:31 | the spaced text starts with the inserted space or the first character |
| FilterBar.SpacingRoundTrip | src/components/FilterBar.tsx:31 | dropping the inserted spaces gives the column back: no information is lost |
| FilterBar.CapitalizeFirst | src/components/FilterBar.tsx:32 | only the first character changes, upper-cased, unless it is a line terminator |
| FilterBar.FormatColumnName | src/components/FilterBar.tsx:24-33 | a dotted column is named by its last part (or itself); an undotted one grows by one space per capital |
| FilterBar.DottedColumnName | src/components/FilterBar.tsx:25-27 | a dotted column ending in '.' keeps its name; otherwise its name is the non-empty text after the last '.' |
| FilterBar.ColumnNameRoundTrip | src/components/FilterBar.tsx:30-32 | a camelCase column is recovered from its label by lowering the first letter and dropping the inserted spaces |
| FilterBar.SpacingAppend | src/components/FilterBar.tsx:31 | the spacing works piece by piece over a concatenation |
| FilterBar.PlainHasNoDot | src/components/FilterBar.tsx:25 | helper of FilterBar.TwoWordName: text of the plain kind holds no '.' |
| FilterBar.SpacingWithoutCaps | src/components/FilterBar.tsx:31 | text without capitals is left as it is |
| FilterBar.SpacingChar | src/components/FilterBar.tsx:31 | helper of FilterBar.TwoWordName: a single capital gets a space before it, any other character stays alone |
| FilterBar.SpacingTwoWords | src/components/FilterBar.tsx:31 | a plain word followed by a capitalised one gets one space between them |
| FilterBar.NoDotInTwoWords | src/components/FilterBar.tsx:25 | helper of FilterBar.TwoWordName: a two-word camelCase name is undotted |
| FilterBar.CapitalizeTwoWords | src/components/FilterBar.tsx:32 | helper of FilterBar.TwoWordName: capitalising a spaced two-word name changes only its first letter |
| FilterBar.TwoWordName | src/components/FilterBar.tsx:30-32 | a camelCase name of two words is labelled as two capitalised words |
| FilterBar.FirstNameExample | src/components/FilterBar.tsx:30-32 | "firstName" is labelled "First Name" |
| FilterBar.FilterInputs | src/components/FilterBar.tsx:73-82 | inputs for the first five columns only, in order, each labelled by `formatColumnName` and showing the active filter value or nothing |
| FilterBar.UntrackedColumnShowsNothing | src/components/FilterBar.tsx:82 | a rendered input whose column `activeFilters` lacks shows nothing |
| FilterBar.LaterColumnsHaveNoInput | src/components/FilterBar.tsx:73 | a column that appears only from the sixth place on gets no input |
| ProductsPage.FilteredProducts | src/pages/ProductsPage.tsx:101-108 | definition of `filteredProducts`; properties in ProductsPage.SearchHitIsVisible, ProductsPage.TitleHitKept, Narrowing.SearchNarrow |
| ProductsPage.ColumnsUndotted | src/pages/ProductsPage.tsx:88-98 | no product column is a dotted path |
| ProductsPage.SearchHitIsVisible | src/pages/ProductsPage.tsx:101-108 | every product the search keeps shows the term in some cell, or holds an object there |
| ProductsPage.TitleHitKept | src/pages/ProductsPage.tsx:101-108 | a product whose title matches the term is kept whatever its other fields |
| ProductsPage.TotalPagesExamples | src/pages/ProductsPage.tsx:110 | 23 rows of 10 make 3 pages, 20 make 2, none make 0, 1 row of 50 makes 1 |
| ProductsPage.PageSizeOffered | src/redux/slices/productsSlice.ts:22 | the starting page size is one the select offers, and every choice gives a page count that covers the total |
| ProductsPage.BrandAndCategoryInputsNotRendered | src/pages/ProductsPage.tsx:39-41 | the brand and category inputs the page tracks are never among the rendered inputs |
| ProductsPage.UntrackedInputsShowNothing | src/pages/ProductsPage.tsx:113-116 | with `activeFilters` keyed only by title, brand and category, the rendered description, price, discount and rating inputs always show nothing |
| ProductsPage.ProductFilterInputs.constructor | src/pages/ProductsPage.tsx:39-41 | all three inputs start empty |
| ProductsPage.ProductFilterInputs.HandleFilterChange | src/pages/ProductsPage.tsx:55-74 | a value sets the store's filter and only the matching input; an empty value clears the store's filter and every input; at most one input is then set, agreeing with the store; the store's pair is together afterwards unless a value came with an empty field |
| ProductsPage.ProductFilterInputs.HandleCategoryTabChange | src/pages/ProductsPage.tsx:76-82 | selects the category in the store and clears every input, leaving the store's pair together |
| ProductsPage.ProductFilterInputs.ActiveFilters | src/pages/ProductsPage.tsx:113-116 | one entry per non-empty input, keyed by its field, and at most one entry while at most one input is set |
| UsersPage.FilteredUsers | src/pages/UsersPage.tsx:83-92 | definition of `filteredUsers`; properties in UsersPage.SearchHitIsVisible, UsersPage.MissingCityNeverMatches, Narrowing.SearchIdempotent |
| UsersPage.SearchHitIsVisible | src/pages/UsersPage.tsx:83-92 | every user the search keeps shows the term in some cell (dotted columns included), or holds an object there |
| UsersPage.CityPath | src/pages/UsersPage.tsx:77 | "address.city" splits into the keys "address" and "city" |
| UsersPage.CityColumnLabels | src/pages/UsersPage.tsx:77 | the city column's table header and its `formatColumnName` label both read "city" (the filter bar never renders that label: the column is tenth, see FilterBar.LaterColumnsHaveNoInput) |
| UsersPage.MissingCityNeverMatches | src/pages/UsersPage.tsx:86-89 | a user without an address, or whose address has no city, never matches on the city column |
| UsersPage.EmailInputNotRendered | src/pages/UsersPage.tsx:26-28 | the email input the page tracks is never among the rendered inputs |
| UsersPage.UntrackedInputsShowNothing | src/pages/UsersPage.tsx:97-100 | with `activeFilters` keyed only by firstName, lastName and email, the rendered maiden-name, age and gender inputs always show nothing |
| UsersPage.UserFilterInputs.constructor | src/pages/UsersPage.tsx:26-28 | all three inputs start empty |
| UsersPage.UserFilterInputs.HandleFilterChange | src/pages/UsersPage.tsx:42-61 | a value sets the store's filter and only the matching input; an empty value clears all; at most one input is then set, agreeing with the store; the store's pair is together afterwards unless a value came with an empty field |
| UsersPage.UserFilterInputs.ActiveFilters | src/pages/UsersPage.tsx:97-100 | one entry per non-empty input, keyed by its field, at most one while at most one input is set |

## Left out

- The HTTP layer (`src/services/api.ts`, axios, URLs, query strings) is not modelled. An API answer is the value of a gateway function passed to `Fetch`. Response fields other than the records and the total are ignored.
- Redux wiring is not modelled: `createAsyncThunk`, `dispatch`, `useSelector` and the `useEffect` that triggers a refetch. The refetch dependencies appear only as the fields of the query datatypes.
- Concurrency is not modelled. `Fetch` runs pending, call and settle with no other action in between, so overlapping or out-of-order fetches are not captured.
- Rendering is not modelled: JSX, styling, row keys and row striping, loading and error banners. The category tabs, breadcrumbs, the unused search-input and page-size-dropdown components, and the application entry point are not part of this model either.
- `JSON.stringify` is a function parameter, not modelled.
- A number is held as the text `toString()` prints. Number formatting and floating point are not modelled.
- Case mapping is ASCII only. Unicode `toLowerCase`/`toUpperCase` are not modelled.
- JSON arrays are not a value kind. Properties exist only on objects: `"abc"["length"]` or string indexing give `undefined` here, where JavaScript would give a value.
- Paging.TotalPages: requires a positive page size. `Math.ceil(total / 0)` (Infinity or NaN) is not modelled; the select offers only positive sizes.
- Integers are unbounded. JavaScript numbers above 2^53 lose precision, and that is not modelled.
- FilterBar.SpaceBeforeCaps: its contract states only the length. Its content is characterised by `FilterBar.SpacingRoundTrip` and `FilterBar.TwoWordName` instead.
- The type declarations (`src/types/index.ts`) are not part of this model. Records are maps from field names to values.
