/** The products page: twelve products per server-side page, or the result of
    a text search when the search box holds something. */
module Products {
  import opened Seqs
  import opened Remote
  import Paging

  const ItemsPerPage: nat := 12

  datatype Product = Product(
    id: int,
    title: string,
    brand: string,
    category: string,
    price: real,
    stock: int,
    rating: real,
    thumbnail: string)

  /** The two requests the page can send. */
  datatype ProductsQuery =
    | SearchQuery(query: string)
    | ListQuery(limit: nat, skip: int)

  datatype ProductsResponse = ProductsResponse(products: seq<Product>, total: nat)

  datatype ProductsPage = ProductsPage(
    products: seq<Product>,
    loading: bool,
    error: Option<string>,
    searchQuery: string,
    currentPage: int,
    totalItems: nat)

  const Initial: ProductsPage := ProductsPage([], true, None, "", 1, 0)

  /** The request `fetchProducts(page)` sends: a search for a non-empty
      query (whatever the page), otherwise a `limit`/`skip` page. */
  function RequestFor(searchQuery: string, page: int): (q: ProductsQuery)
    ensures q.SearchQuery? <==> searchQuery != ""
    ensures q.SearchQuery? ==> q.query == searchQuery
    ensures q.ListQuery? ==> q.limit == ItemsPerPage && q.skip == Paging.Offset(page, ItemsPerPage)
  {
    if searchQuery != "" then SearchQuery(searchQuery)
    else ListQuery(ItemsPerPage, Paging.Offset(page, ItemsPerPage))
  }

  /** While a search is active the page number does not reach the request:
      every page asks the same question. */
  lemma SearchIgnoresPage(searchQuery: string, p1: int, p2: int)
    requires searchQuery != ""
    ensures RequestFor(searchQuery, p1) == RequestFor(searchQuery, p2)
  {
  }

  /** Without a search, distinct pages ask for distinct windows. */
  lemma ListingSeparatesPages(p1: int, p2: int)
    requires p1 != p2
    ensures RequestFor("", p1) != RequestFor("", p2)
  {
    if p1 < p2 {
      Paging.MulMonotone(p1, p2 - 1, ItemsPerPage);
    } else {
      Paging.MulMonotone(p2, p1 - 1, ItemsPerPage);
    }
  }

  /** Typing in the search box only stores the text; nothing is requested
      until the form is submitted. */
  function SetSearchQuery(s: ProductsPage, query: string): (r: ProductsPage)
    ensures r.searchQuery == query
    ensures r.products == s.products && r.currentPage == s.currentPage && r.totalItems == s.totalItems
    ensures r.loading == s.loading && r.error == s.error
  {
    s.(searchQuery := query)
  }

  /** Only the text in the box when the form is submitted matters: the last
      text typed wins, and the submit asks for page 1 of exactly that text. */
  lemma TypedQueryReachesNextSubmit(s: ProductsPage, a: string, b: string)
    ensures SetSearchQuery(SetSearchQuery(s, a), b) == SetSearchQuery(s, b)
    ensures SearchRequest(SetSearchQuery(s, b)) == RequestFor(b, 1)
    ensures PaginationShown(SetSearchQuery(s, b)) == PaginationShown(s)
  {
  }

  /** Start of `fetchProducts`. */
  function BeginFetch(s: ProductsPage): (r: ProductsPage)
    ensures r.loading && r.error == None
    ensures r.products == s.products && r.currentPage == s.currentPage && r.totalItems == s.totalItems
    ensures r.searchQuery == s.searchQuery
  {
    s.(loading := true, error := None)
  }

  /** End of `fetchProducts(page)`: on success products, total and page
      change together; on failure only the error is set. */
  function CompleteFetch(s: ProductsPage, page: int, outcome: Fetch<ProductsResponse>): (r: ProductsPage)
    ensures !r.loading && r.searchQuery == s.searchQuery
    ensures outcome.Loaded? ==>
      && r.products == outcome.value.products && r.totalItems == outcome.value.total
      && r.currentPage == page && r.error == s.error
    ensures outcome.Failed? ==>
      && r.products == s.products && r.totalItems == s.totalItems
      && r.currentPage == s.currentPage && r.error == Some(outcome.message)
  {
    match outcome
    case Loaded(resp) => s.(products := resp.products, totalItems := resp.total, currentPage := page, loading := false)
    case Failed(m) => s.(error := Some(m), loading := false)
  }

  /** `handleSearch`: always page 1 of the current query. */
  function SearchRequest(s: ProductsPage): (q: ProductsQuery)
    ensures q.SearchQuery? <==> s.searchQuery != ""
    ensures q.ListQuery? ==> q.skip == 0
  {
    RequestFor(s.searchQuery, 1)
  }

  /** A successful search lands on page 1. */
  lemma SearchLandsOnFirstPage(s: ProductsPage, resp: ProductsResponse)
    ensures CompleteFetch(BeginFetch(s), 1, Loaded(resp)).currentPage == 1
  {
  }

  function TotalPages(s: ProductsPage): nat
  {
    Paging.TotalPages(s.totalItems, ItemsPerPage)
  }

  /** The pager is drawn only after a successful load that returned products. */
  predicate PaginationShown(s: ProductsPage)
  {
    !s.loading && s.error.None? && |s.products| > 0
  }

  /** The pager is hidden during every load, after every failure, and after
      a load that returned no products. */
  lemma PaginationHiddenWhileBusyOrEmpty(s: ProductsPage, page: int, m: string)
    ensures !PaginationShown(BeginFetch(s))
    ensures !PaginationShown(CompleteFetch(s, page, Failed(m)))
    ensures !PaginationShown(CompleteFetch(s, page, Loaded(ProductsResponse([], 0))))
  {
  }
}
