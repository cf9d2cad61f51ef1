/**
 * The product list page of src/app/dashboard/products/page.tsx: the search,
 * category, status and page state its handlers update, the query it sends
 * to `GET /api/products`, the "Showing a to b of n" range, the pagination
 * buttons' guards and the colour class of a stock figure.
 */
module ProductsPage {
  import opened Common
  import ProductsApi
  import DashboardApi
  import Catalog

  /** The page always asks for ten products. */
  const PageSize: ProductsApi.Limit := 10

  /** `...(x && { key: x })`: the parameter is sent only when non-empty. */
  function Param(x: string): (r: Option<string>)
    ensures r.Some? <==> x != ""
    ensures r.Some? ==> r.value == x
  {
    if x == "" then None else Some(x)
  }

  /** The query string the page fetches with, as the handler parses it. */
  function RequestQuery(search: string, category: string, status: string, page: int): ProductsApi.ListQuery
  {
    ProductsApi.ListQuery(Some(page), Some(PageSize), Param(search), Param(category), Param(status), None, None)
  }

  /**
   * The handler reads the request back as sent: the page, ten per page, the
   * newest first, and a filter on exactly the non-empty fields.
   */
  lemma RequestQueryResolves(search: string, category: string, status: string, page: int)
    ensures var params := ProductsApi.Resolve(RequestQuery(search, category, status, page));
            && params.page == page && params.limit == 10
            && params.sortBy == "createdAt" && !params.ascending
            && params.filter.text == Param(search)
            && params.filter.category == Param(category)
            && params.filter.status == Param(status)
  {
    var params := ProductsApi.Resolve(RequestQuery(search, category, status, page));
    assert params.filter.text == ProductsApi.NonEmpty(Param(search));
  }

  /** The first position shown: `(page - 1) * 10 + 1`. */
  function RangeStart(page: int): int
  {
    (page - 1) * PageSize + 1
  }

  /** The last position shown: `Math.min(page * 10, total)`. */
  function RangeEnd(page: int, total: int): int
  {
    if page * PageSize < total then page * PageSize else total
  }

  /**
   * The pagination bar sits in the branch that lists products: it appears
   * only when the page returned some products and there is more than one
   * page.
   */
  predicate ShowPagination(shown: int, totalPages: int)
  {
    shown != 0 && totalPages > 1
  }

  /** Prev is disabled on the first page. */
  predicate PrevEnabled(page: int)
  {
    page != 1
  }

  /** Next is disabled only at `page === totalPages`. */
  predicate NextEnabled(page: int, totalPages: int)
  {
    page != totalPages
  }

  /**
   * On any page that exists, the range names exactly the products the
   * handler returned for that page: it starts at 1 or later, ends at the
   * total at most, and spans as many positions as the page holds.
   */
  lemma RangeCountsThePage<T>(matches: seq<T>, page: int)
    requires 1 <= page <= ProductsApi.CeilDiv(|matches|, PageSize)
    ensures 1 <= RangeStart(page) <= RangeEnd(page, |matches|) <= |matches|
    ensures RangeEnd(page, |matches|) - RangeStart(page) + 1 == |ProductsApi.PageOf(matches, page, PageSize)|
  {
    ProductsApi.CeilDivIsCeiling(|matches|, PageSize);
    assert (page - 1) * PageSize <= (ProductsApi.CeilDiv(|matches|, PageSize) - 1) * PageSize;
  }

  /**
   * The bar shows only on a page that exists, so the guard as written
   * enables Next exactly before the last page.
   */
  lemma PaginationOnlyOnExistingPage<T>(matches: seq<T>, page: int)
    requires 1 <= page
    requires ShowPagination(|ProductsApi.PageOf(matches, page, PageSize)|, ProductsApi.CeilDiv(|matches|, PageSize))
    ensures page <= ProductsApi.CeilDiv(|matches|, PageSize)
    ensures NextEnabled(page, ProductsApi.CeilDiv(|matches|, PageSize)) <==> page < ProductsApi.CeilDiv(|matches|, PageSize)
  {
    var pages := ProductsApi.CeilDiv(|matches|, PageSize);
    assert (page - 1) * PageSize < |matches| by {
      assert ProductsApi.PageOf(matches, page, PageSize)[0] == matches[(page - 1) * PageSize];
    }
    ProductsApi.CeilDivIsCeiling(|matches|, PageSize);
  }

  /**
   * Next, when the bar shows and the guard as written enables it, leads to
   * a page that exists, and its range counts its products.
   */
  lemma NextKeepsPageInRange<T>(matches: seq<T>, page: int)
    requires 1 <= page
    requires ShowPagination(|ProductsApi.PageOf(matches, page, PageSize)|, ProductsApi.CeilDiv(|matches|, PageSize))
    requires NextEnabled(page, ProductsApi.CeilDiv(|matches|, PageSize))
    ensures page + 1 <= ProductsApi.CeilDiv(|matches|, PageSize)
    ensures RangeStart(page + 1) <= RangeEnd(page + 1, |matches|)
  {
    PaginationOnlyOnExistingPage(matches, page);
    RangeCountsThePage(matches, page + 1);
  }

  /** The colour class of a stock figure. */
  datatype StockLevel = OutOfStock | LowStock | InStock

  /** `stock === 0` red, `stock <= 10` amber, otherwise green. */
  function StockLevelOf(stock: int): StockLevel
  {
    if stock == 0 then OutOfStock
    else if stock <= 10 then LowStock
    else InStock
  }

  /**
   * For a stored product the page's colours use the thresholds of the
   * dashboard's counts: red exactly when it counts as out of stock, amber
   * exactly when it counts as low on stock.
   */
  lemma StockLevelAgreesWithDashboard(p: Catalog.Product)
    requires p.stock >= 0
    ensures StockLevelOf(p.stock) == OutOfStock <==> DashboardApi.IsOutOfStock(p)
    ensures StockLevelOf(p.stock) == LowStock <==> DashboardApi.IsLowStock(p)
    ensures StockLevelOf(p.stock) == InStock <==> p.stock > DashboardApi.LowStockThreshold
  {
  }

  /** The page's filter and pagination state. */
  class ListState {
    var search: string
    var category: string
    var status: string
    var page: int

    ghost predicate Valid()
      reads this
    {
      page >= 1
    }

    constructor ()
      ensures Valid()
      ensures search == "" && category == "" && status == "" && page == 1
    {
      search, category, status, page := "", "", "", 1;
    }

    /** The query the page currently fetches. */
    function Query(): (q: ProductsApi.ListQuery)
      reads this
      ensures q.page == Some(page) && q.limit == Some(PageSize)
      ensures q.search == Param(search) && q.category == Param(category) && q.status == Param(status)
      ensures q.sortBy.None? && q.sortOrder.None?
    {
      RequestQuery(search, category, status, page)
    }

    /** Typing in the search box changes the search only; the page stays. */
    method TypeSearch(text: string)
      modifies this
      ensures search == text
      ensures category == old(category) && status == old(status) && page == old(page)
    {
      search := text;
    }

    /** `handleSearch`: submitting the search form goes back to page 1. */
    method SubmitSearch()
      modifies this
      ensures Valid() && page == 1
      ensures search == old(search) && category == old(category) && status == old(status)
    {
      page := 1;
    }

    /** Choosing a category goes back to page 1. */
    method SelectCategory(value: string)
      modifies this
      ensures Valid() && category == value && page == 1
      ensures search == old(search) && status == old(status)
    {
      category := value;
      page := 1;
    }

    /** Choosing a status goes back to page 1. */
    method SelectStatus(value: string)
      modifies this
      ensures Valid() && status == value && page == 1
      ensures search == old(search) && category == old(category)
    {
      status := value;
      page := 1;
    }

    /** Prev, enabled away from the first page. */
    method PrevPage()
      requires Valid() && PrevEnabled(page)
      modifies this
      ensures Valid() && page == old(page) - 1
      ensures search == old(search) && category == old(category) && status == old(status)
    {
      page := page - 1;
    }

    /**
     * Next, pressed while the bar shows for the products `matches` of the
     * current query: it moves to a page that exists.
     */
    method NextPage<T>(matches: seq<T>)
      requires Valid()
      requires ShowPagination(|ProductsApi.PageOf(matches, page, PageSize)|, ProductsApi.CeilDiv(|matches|, PageSize))
      requires NextEnabled(page, ProductsApi.CeilDiv(|matches|, PageSize))
      modifies this
      ensures Valid() && page == old(page) + 1 && page <= ProductsApi.CeilDiv(|matches|, PageSize)
      ensures search == old(search) && category == old(category) && status == old(status)
    {
      PaginationOnlyOnExistingPage(matches, page);
      page := page + 1;
    }
  }
}
