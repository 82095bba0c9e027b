/** The products page: its columns, the client-side search over the fetched
    page, the page count, and the three local filter inputs kept in step with
    the store's field filter. */
module ProductsPage {
  import opened Js
  import opened Narrowing
  import opened Paging
  import opened ProductsSlice
  import FilterBar
  import DataTable

  const ProductColumns: seq<string> :=
    ["title", "description", "price", "discountPercentage", "rating", "stock", "brand", "category", "thumbnail"]

  /** `filteredProducts`: the search reads each column as a plain property. */
  function FilteredProducts(products: seq<Record>, searchTerm: string): seq<Record> {
    SearchNarrow(Direct, products, ProductColumns, searchTerm)
  }

  lemma ColumnsUndotted()
    ensures forall j :: 0 <= j < |ProductColumns| ==> '.' !in ProductColumns[j]
  {
  }

  /** No product column is dotted, so a product the search keeps shows the
      term in one of its cells (or holds an object there). */
  lemma SearchHitIsVisible(products: seq<Record>, searchTerm: string, stringify: Value -> string, product: Record)
    requires searchTerm != "" && product in FilteredProducts(products, searchTerm)
    ensures exists j :: 0 <= j < |ProductColumns| && (DataTable.CellValue(product, ProductColumns[j]).Obj? ||
              Includes(ToLower(DataTable.FormatValue(DataTable.CellValue(product, ProductColumns[j]), stringify)),
                       ToLower(searchTerm)))
  {
    ColumnsUndotted();
    DataTable.KeptRowShowsTerm(Direct, products, ProductColumns, searchTerm, stringify, product);
  }

  /** A product whose title holds the term is kept whatever its other fields. */
  lemma TitleHitKept(products: seq<Record>, searchTerm: string, product: Record)
    requires product in products && searchTerm != ""
    requires Matches(Member(Obj(product), "title"), searchTerm)
    ensures product in FilteredProducts(products, searchTerm)
  {
    assert Matches(FieldValue(Direct, product, ProductColumns[0]), searchTerm);
  }

  /** `Math.ceil(total / pageSize)` on a few totals. */
  lemma TotalPagesExamples()
    ensures TotalPages(23, 10) == 3 && TotalPages(20, 10) == 2 && TotalPages(0, 5) == 0 && TotalPages(1, 50) == 1
  {
  }

  /** The page size the store starts with is one the select offers, and every
      choice gives a defined page count. */
  lemma PageSizeOffered(total: int)
    ensures InitialState.pageSize in FilterBar.PageSizeOptions
    ensures forall n :: n in FilterBar.PageSizeOptions ==> n > 0 && TotalPages(total, n) * n >= total
  {
  }

  /** The filter bar renders inputs for the first five columns only, so the
      brand and category inputs this page tracks are never on screen. */
  lemma BrandAndCategoryInputsNotRendered(activeFilters: map<string, string>)
    ensures forall input :: input in FilterBar.FilterInputs(ProductColumns, activeFilters) ==>
      input.column != "brand" && input.column != "category"
  {
    assert ProductColumns[..5] == ["title", "description", "price", "discountPercentage", "rating"];
    FilterBar.LaterColumnsHaveNoInput(ProductColumns, activeFilters, "brand");
    FilterBar.LaterColumnsHaveNoInput(ProductColumns, activeFilters, "category");
  }

  /** With `activeFilters` built from the three tracked inputs only, the four
      other rendered inputs (description, price, discount, rating) always show
      nothing, whatever was typed into them last. */
  lemma UntrackedInputsShowNothing(activeFilters: map<string, string>)
    requires forall k :: k in activeFilters ==> k == "title" || k == "brand" || k == "category"
    ensures var inputs := FilterBar.FilterInputs(ProductColumns, activeFilters);
      |inputs| == 5 && inputs[1].value == "" && inputs[2].value == "" && inputs[3].value == "" &&
      inputs[4].value == ""
  {
    // The untracked names differ from every tracked one in their first letter;
    // naming those letters spares the solver comparing whole literals.
    assert "description" !in activeFilters && "price" !in activeFilters by {
      assert "description"[0] == 'd' && "price"[0] == 'p';
      assert "title"[0] == 't' && "brand"[0] == 'b' && "category"[0] == 'c';
    }
    assert "discountPercentage" !in activeFilters && "rating" !in activeFilters by {
      assert "discountPercentage"[0] == 'd' && "rating"[0] == 'r';
      assert "title"[0] == 't' && "brand"[0] == 'b' && "category"[0] == 'c';
    }
    assert ProductColumns[1] == "description" && ProductColumns[2] == "price";
    assert ProductColumns[3] == "discountPercentage" && ProductColumns[4] == "rating";
    FilterBar.UntrackedColumnShowsNothing(ProductColumns, activeFilters, 1);
    FilterBar.UntrackedColumnShowsNothing(ProductColumns, activeFilters, 2);
    FilterBar.UntrackedColumnShowsNothing(ProductColumns, activeFilters, 3);
    FilterBar.UntrackedColumnShowsNothing(ProductColumns, activeFilters, 4);
  }

  /** The page's three filter inputs (`useState` slots). */
  class ProductFilterInputs {
    var titleFilter: string
    var brandFilter: string
    var categoryInputFilter: string

    constructor ()
      ensures titleFilter == "" && brandFilter == "" && categoryInputFilter == ""
    {
      titleFilter, brandFilter, categoryInputFilter := "", "", "";
    }

    /** At most one input is non-empty. */
    predicate AtMostOne()
      reads this
    {
      (titleFilter != "" ==> brandFilter == "" && categoryInputFilter == "") &&
      (brandFilter != "" ==> categoryInputFilter == "")
    }

    /** A non-empty input shows exactly the field filter the store holds. */
    predicate AgreesWith(store: ProductsStore)
      reads this, store
    {
      (titleFilter != "" ==> store.filterField == "title" && store.filter == titleFilter) &&
      (brandFilter != "" ==> store.filterField == "brand" && store.filter == brandFilter) &&
      (categoryInputFilter != "" ==> store.filterField == "category" && store.filter == categoryInputFilter)
    }

    /** `handleFilterChange`: a value sets the store's filter and leaves only the
        matching input (if any) holding it; an empty value clears the store's
        filter and every input. */
    method HandleFilterChange(store: ProductsStore, field: string, value: string)
      modifies this, store
      ensures value != "" ==> store.State() == old(store.State()).(filter := value, filterField := field, page := 1)
      ensures value == "" ==> store.State() == old(store.State()).(filter := "", filterField := "", page := 1)
      ensures titleFilter == (if value != "" && field == "title" then value else "")
      ensures brandFilter == (if value != "" && field == "brand" then value else "")
      ensures categoryInputFilter == (if value != "" && field == "category" then value else "")
      ensures AtMostOne() && AgreesWith(store)
      ensures store.Paired() <==> value == "" || field != ""
    {
      if value != "" {
        store.SetFilter(field, value);
        if field == "title" { titleFilter := value; }
        if field == "brand" { brandFilter := value; }
        if field == "category" { categoryInputFilter := value; }
        if field != "title" { titleFilter := ""; }
        if field != "brand" { brandFilter := ""; }
        if field != "category" { categoryInputFilter := ""; }
      } else {
        store.ClearFilters();
        titleFilter := "";
        brandFilter := "";
        categoryInputFilter := "";
      }
    }

    /** `handleCategoryTabChange`: select the category in the store and clear every input. */
    method HandleCategoryTabChange(store: ProductsStore, category: string)
      modifies this, store
      ensures store.State() == old(store.State()).(filter := "", filterField := "", categoryFilter := category, page := 1)
      ensures titleFilter == "" && brandFilter == "" && categoryInputFilter == ""
      ensures AtMostOne() && AgreesWith(store)
      ensures store.Paired()
    {
      store.SetCategoryFilter(category);
      titleFilter := "";
      brandFilter := "";
      categoryInputFilter := "";
    }

    /** `activeFilters`: one entry per non-empty input, keyed by its field. */
    method ActiveFilters() returns (activeFilters: map<string, string>)
      ensures forall k :: k in activeFilters <==>
        (k == "title" && titleFilter != "") || (k == "brand" && brandFilter != "") ||
        (k == "category" && categoryInputFilter != "")
      ensures "title" in activeFilters ==> activeFilters["title"] == titleFilter
      ensures "brand" in activeFilters ==> activeFilters["brand"] == brandFilter
      ensures "category" in activeFilters ==> activeFilters["category"] == categoryInputFilter
      ensures AtMostOne() ==> |activeFilters| <= 1
    {
      activeFilters := map[];
      if titleFilter != "" { activeFilters := activeFilters["title" := titleFilter]; }
      if brandFilter != "" { activeFilters := activeFilters["brand" := brandFilter]; }
      if categoryInputFilter != "" { activeFilters := activeFilters["category" := categoryInputFilter]; }
    }
  }
}
