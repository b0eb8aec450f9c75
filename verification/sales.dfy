/** The sales page: thirty carts fetched once, shown ten per page in a table
    whose status column cycles with the row index. */
module Sales {
  import opened Seqs
  import opened Text
  import opened Carts
  import opened Remote
  import Paging
  import Pagination

  const ItemsPerPage: nat := 10

  /** Carts requested from the API (`getCarts(30)`). */
  const RequestedCarts: nat := 30

  datatype SalesPage = SalesPage(
    carts: seq<Cart>,
    loading: bool,
    error: Option<string>,
    currentPage: int)

  /** State at mount: nothing loaded, loading, page 1. */
  const Initial: SalesPage := SalesPage([], true, None, 1)

  /** Start of `fetchSales`: loading, error cleared. */
  function BeginFetch(s: SalesPage): (r: SalesPage)
    ensures r.loading && r.error == None
    ensures r.carts == s.carts && r.currentPage == s.currentPage
  {
    s.(loading := true, error := None)
  }

  /** End of `fetchSales`: the carts replace the old ones on success; on
      failure the error message is kept and the carts are left alone. The
      current page is never touched. */
  function CompleteFetch(s: SalesPage, outcome: Fetch<seq<Cart>>): (r: SalesPage)
    ensures !r.loading && r.currentPage == s.currentPage
    ensures outcome.Loaded? ==> r.carts == outcome.value && r.error == s.error
    ensures outcome.Failed? ==> r.carts == s.carts && r.error == Some(outcome.message)
  {
    match outcome
    case Loaded(cs) => s.(carts := cs, loading := false)
    case Failed(m) => s.(error := Some(m), loading := false)
  }

  /** `handlePageChange`: the requested page, exactly, with no clamping. */
  function PageChange(s: SalesPage, page: int): (r: SalesPage)
    ensures r.currentPage == page
    ensures r.carts == s.carts && r.loading == s.loading && r.error == s.error
  {
    s.(currentPage := page)
  }

  function TotalPages(s: SalesPage): nat
  {
    Paging.TotalPages(|s.carts|, ItemsPerPage)
  }

  function CurrentCarts(s: SalesPage): seq<Cart>
  {
    Paging.PageSlice(s.carts, s.currentPage, ItemsPerPage)
  }

  /** Thai status text of the sales table. */
  function StatusText(st: OrderStatus): string
  {
    match st
    case Completed => "เสร็จสิ้น"
    case Processing => "กำลังดำเนินการ"
    case Pending => "รอดำเนินการ"
  }

  /** One row of the sales table. */
  datatype SalesRow = SalesRow(
    orderLabel: string,
    customerLabel: string,
    amount: real,
    discount: real,
    net: real,
    status: OrderStatus)

  function RowFor(c: Cart, index: nat): SalesRow
  {
    SalesRow(OrderLabel(c.id), "ลูกค้า " + NatToString(c.userId), c.total, Discount(c), c.discountedTotal,
             StatusForRow(index))
  }

  /** The rows of the current page. */
  function Rows(s: SalesPage): (r: seq<SalesRow>)
    ensures |r| == |CurrentCarts(s)| <= ItemsPerPage
  {
    var cur := CurrentCarts(s);
    seq(|cur|, i requires 0 <= i < |cur| => RowFor(cur[i], i))
  }

  /** What each row shows: the cart's padded order number; amount less
      discount is the net amount; and the status restarts at "completed" on
      every page, because it follows the row's index within the page, not
      the cart's position in the whole list. */
  lemma RowsShowCurrentPage(s: SalesPage, i: nat)
    requires i < |Rows(s)|
    ensures Rows(s)[i].orderLabel == OrderLabel(CurrentCarts(s)[i].id)
    ensures Rows(s)[i].amount - Rows(s)[i].discount == Rows(s)[i].net
    ensures Rows(s)[i].status == StatusForRow(i)
    ensures s.currentPage >= 1 && (s.currentPage - 1) * ItemsPerPage + i < |s.carts| ==>
      CurrentCarts(s)[i] == s.carts[(s.currentPage - 1) * ItemsPerPage + i]
  {
  }

  /** The pager is drawn whenever the fetch succeeded, even with no carts. */
  predicate PaginationShown(s: SalesPage)
  {
    !s.loading && s.error.None?
  }

  /** A successful fetch of zero carts draws a pager with zero pages on page
      1, whose next and last buttons are enabled and lead to pages 2 and 0. */
  lemma EmptySalesPagerEscapes()
    ensures var s := CompleteFetch(BeginFetch(Initial), Loaded([]));
      && PaginationShown(s)
      && TotalPages(s) == 0
      && !Pagination.NextButton(s.currentPage, TotalPages(s)).disabled
      && Pagination.NextButton(s.currentPage, TotalPages(s)).target == 2
      && Pagination.LastButton(s.currentPage, TotalPages(s)).target == 0
  {
  }

  /** With the guarded next/last buttons, the same empty pager offers no way
      off page 1. */
  lemma EmptySalesPagerGuarded()
    ensures var s := CompleteFetch(BeginFetch(Initial), Loaded([]));
      && Pagination.GuardedNextButton(s.currentPage, TotalPages(s)).disabled
      && Pagination.GuardedLastButton(s.currentPage, TotalPages(s)).disabled
  {
    Pagination.GuardedNavigationStaysInRange(1, 0);
  }
}
