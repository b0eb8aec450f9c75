/** The dashboard home page: four summary figures and the five most recent
    orders, computed from one products request and one carts request. */
module Dashboard {
  import opened Seqs
  import opened Text
  import opened Carts
  import opened Remote

  /** Products requested for the summary (`getProducts(100)`). */
  const RequestedProducts: nat := 100
  /** Carts requested for the summary (`getCarts(20)`). */
  const RequestedCarts: nat := 20
  /** Orders listed under "recent orders". */
  const RecentCount: nat := 5

  /** The parts of the two responses the page reads: the products' reported
      total, and the carts with their reported total. */
  datatype Responses = Responses(productsTotal: nat, carts: seq<Cart>, cartsTotal: nat)

  datatype DashboardStats = DashboardStats(
    totalSales: real,
    totalOrders: nat,
    totalProducts: nat,
    totalRevenue: real,
    salesChange: real,
    ordersChange: real,
    productsChange: real,
    revenueChange: real)

  function CartTotal(c: Cart): real { c.total }
  function CartNet(c: Cart): real { c.discountedTotal }

  /** The summary figures: revenue and sales summed over the fetched carts,
      orders and products taken from the responses' `total` fields (which
      count more than the fetched page), and the fixed change percentages. */
  function ComputeStats(resp: Responses): (r: DashboardStats)
    ensures r.totalOrders == resp.cartsTotal && r.totalProducts == resp.productsTotal
    ensures r.totalRevenue == Sum(resp.carts, CartTotal) && r.totalSales == Sum(resp.carts, CartNet)
    ensures |resp.carts| == 0 ==> r.totalRevenue == 0.0 && r.totalSales == 0.0
  {
    DashboardStats(
      Sum(resp.carts, CartNet),
      resp.cartsTotal,
      resp.productsTotal,
      Sum(resp.carts, CartTotal),
      12.5, 8.2, -2.4, 15.3)
  }

  /** Revenue exceeds sales by exactly the discounts the sales table lists,
      cart by cart. */
  lemma RevenueMinusSalesIsDiscount(resp: Responses)
    ensures ComputeStats(resp).totalRevenue - ComputeStats(resp).totalSales == Sum(resp.carts, Discount)
  {
    SumDifference(resp.carts, CartTotal, CartNet, Discount);
  }

  /** Adding one more cart adds its amounts to both sums. */
  lemma {:induction false} SumsAppend(carts: seq<Cart>, c: Cart)
    ensures Sum(carts + [c], CartTotal) == Sum(carts, CartTotal) + c.total
    ensures Sum(carts + [c], CartNet) == Sum(carts, CartNet) + c.discountedTotal
    decreases |carts|
  {
    if |carts| > 0 {
      assert (carts + [c])[1..] == carts[1..] + [c];
      SumsAppend(carts[1..], c);
    } else {
      assert carts + [c] == [c];
    }
  }

  /** An entry of the recent-orders list. */
  datatype RecentOrder = RecentOrder(
    id: string,
    customer: string,
    amount: real,
    status: OrderStatus,
    minutesAgo: nat,
    time: string)

  function RecentOrderFor(c: Cart, index: nat): RecentOrder
  {
    var minutes := (index + 1) * 5;
    RecentOrder(OrderLabel(c.id), "Customer " + NatToString(c.userId), c.discountedTotal,
                StatusForRow(index), minutes, NatToString(minutes) + " นาทีที่แล้ว")
  }

  /** `carts.slice(0, 5).map(...)`. */
  function RecentOrders(carts: seq<Cart>): (r: seq<RecentOrder>)
    ensures |r| == if |carts| < RecentCount then |carts| else RecentCount
  {
    var first := if |carts| < RecentCount then carts else carts[..RecentCount];
    seq(|first|, i requires 0 <= i < |first| => RecentOrderFor(first[i], i))
  }

  /** The recent orders are the first carts in their order: entry `i` names
      cart `i` by its order label and shows its net amount; the
      "minutes ago" grow by five down the list; and carts with distinct ids
      get distinct labels. */
  lemma RecentOrdersFollowCarts(carts: seq<Cart>)
    ensures var r := RecentOrders(carts);
      forall i :: 0 <= i < |r| ==>
        && r[i].id == OrderLabel(carts[i].id)
        && r[i].customer == "Customer " + NatToString(carts[i].userId)
        && r[i].amount == carts[i].discountedTotal
        && r[i].status == StatusForRow(i)
        && r[i].minutesAgo == 5 * (i + 1)
    ensures var r := RecentOrders(carts);
      forall i, j :: 0 <= i < j < |r| && carts[i].id != carts[j].id ==> r[i].id != r[j].id
  {
    var r := RecentOrders(carts);
    var first := if |carts| < RecentCount then carts else carts[..RecentCount];
    forall i | 0 <= i < |r|
      ensures r[i] == RecentOrderFor(carts[i], i)
    {
      assert r[i] == RecentOrderFor(first[i], i);
    }
    forall i, j | 0 <= i < j < |r| && carts[i].id != carts[j].id
      ensures r[i].id != r[j].id
    {
      if r[i].id == r[j].id {
        OrderLabelInjective(carts[i].id, carts[j].id);
      }
    }
  }

  datatype DashboardState = DashboardState(
    stats: Option<DashboardStats>,
    recent: seq<RecentOrder>,
    loading: bool,
    error: Option<string>)

  const Initial: DashboardState := DashboardState(None, [], true, None)

  /** Start of `fetchDashboardData`. */
  function BeginFetch(s: DashboardState): (r: DashboardState)
    ensures r.loading && r.error == None && r.stats == s.stats && r.recent == s.recent
  {
    s.(loading := true, error := None)
  }

  /** End of `fetchDashboardData`: both responses in hand set the figures and
      the recent orders; if either request fails, only the error is set. */
  function CompleteFetch(s: DashboardState, outcome: Fetch<Responses>): (r: DashboardState)
    ensures !r.loading
    ensures outcome.Loaded? ==>
      r.stats == Some(ComputeStats(outcome.value)) && r.recent == RecentOrders(outcome.value.carts)
      && r.error == s.error
    ensures outcome.Failed? ==>
      r.error == Some(outcome.message) && r.stats == s.stats && r.recent == s.recent
  {
    match outcome
    case Loaded(resp) => s.(stats := Some(ComputeStats(resp)), recent := RecentOrders(resp.carts), loading := false)
    case Failed(m) => s.(error := Some(m), loading := false)
  }

  /** A first load that fails leaves the figures unset and shows the error. */
  lemma FailedFirstLoadHasNoStats(m: string)
    ensures var s := CompleteFetch(BeginFetch(Initial), Failed(m));
      s.stats == None && s.recent == [] && s.error == Some(m) && !s.loading
  {
  }
}
