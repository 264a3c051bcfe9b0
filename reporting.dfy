/** The admin's read-only views of routes/admin.js: the dashboard figures
    (order counts by status, revenue from paid orders, the ten newest
    orders, the low-stock items) and the paginated order listing. Orders
    are held oldest first, so "newest first" is the reversed collection. */
module Reporting {

  import opened Common
  import opened Catalog
  import opened OrderModel
  import Listing

  /** `countDocuments({ status })`. */
  function CountWithStatus(orders: seq<Order>, s: Status): (n: nat)
    ensures n <= |orders|
  {
    if orders == [] then 0
    else CountWithStatus(orders[..|orders| - 1], s) + (if orders[|orders| - 1].status == s then 1 else 0)
  }

  /** Every order has exactly one of the six statuses. */
  lemma {:induction false} StatusCountsPartition(orders: seq<Order>)
    ensures CountWithStatus(orders, Pending) + CountWithStatus(orders, Confirmed)
            + CountWithStatus(orders, InKitchen) + CountWithStatus(orders, OutForDelivery)
            + CountWithStatus(orders, Delivered) + CountWithStatus(orders, Cancelled) == |orders|
    decreases |orders|
  {
    if orders != [] {
      StatusCountsPartition(orders[..|orders| - 1]);
    }
  }

  /** The `$match` on paid orders and `$sum` of their totals: 0 when no order
      is paid, and never negative when no total is. */
  function Revenue(orders: seq<Order>): (r: int)
    ensures (forall i :: 0 <= i < |orders| ==> orders[i].paymentStatus != Paid) ==> r == 0
    ensures (forall i :: 0 <= i < |orders| ==> orders[i].totalAmount >= 0) ==> r >= 0
  {
    if orders == [] then 0
    else Revenue(orders[..|orders| - 1]) + (if orders[|orders| - 1].paymentStatus == Paid then orders[|orders| - 1].totalAmount else 0)
  }

  lemma {:induction false} RevenueAppend(a: seq<Order>, b: seq<Order>)
    ensures Revenue(a + b) == Revenue(a) + Revenue(b)
    decreases |b|
  {
    if b == [] {
      assert a + b == a;
    } else {
      RevenueAppend(a, b[..|b| - 1]);
      assert (a + b)[..|a + b| - 1] == a + b[..|b| - 1];
    }
  }

  /** `find().sort({ createdAt: -1 }).limit(10)`. */
  function RecentOrders(orders: seq<Order>): (r: seq<Order>)
    ensures |r| == if |orders| < 10 then |orders| else 10
    ensures forall i :: 0 <= i < |r| ==> r[i] == orders[|orders| - 1 - i]
  {
    var n := if |orders| < 10 then |orders| else 10;
    seq(n, i requires 0 <= i < n => orders[|orders| - 1 - i])
  }

  datatype Stats = Stats(
    totalOrders: nat,
    pendingOrders: nat,
    confirmedOrders: nat,
    inKitchenOrders: nat,
    outForDeliveryOrders: nat,
    deliveredOrders: nat,
    totalRevenue: int)

  datatype Dashboard = Dashboard(stats: Stats, recentOrders: seq<Order>, lowStockItems: seq<Item>)

  /** GET dashboard. Cancelled orders are counted in the total only. */
  function DashboardOf(orders: seq<Order>, docs: seq<Item>): (d: Dashboard)
    ensures d.stats.totalOrders == |orders|
    ensures d.stats.pendingOrders + d.stats.confirmedOrders + d.stats.inKitchenOrders
            + d.stats.outForDeliveryOrders + d.stats.deliveredOrders
            == |orders| - CountWithStatus(orders, Cancelled)
    ensures d.stats.pendingOrders == CountWithStatus(orders, Pending)
    ensures d.stats.confirmedOrders == CountWithStatus(orders, Confirmed)
    ensures d.stats.inKitchenOrders == CountWithStatus(orders, InKitchen)
    ensures d.stats.outForDeliveryOrders == CountWithStatus(orders, OutForDelivery)
    ensures d.stats.deliveredOrders == CountWithStatus(orders, Delivered)
    ensures d.stats.totalRevenue == Revenue(orders)
    ensures d.recentOrders == RecentOrders(orders)
    ensures forall x :: x in d.lowStockItems <==> x in docs && x.isAvailable && x.stock <= 20
  {
    StatusCountsPartition(orders);
    Dashboard(
      Stats(|orders|,
            CountWithStatus(orders, Pending), CountWithStatus(orders, Confirmed),
            CountWithStatus(orders, InKitchen), CountWithStatus(orders, OutForDelivery),
            CountWithStatus(orders, Delivered), Revenue(orders)),
      RecentOrders(orders),
      Listing.Filter(docs, Listing.IsLow))
  }

  /** The listing's query: a truthy `status` must equal the stored status
      name (an unknown name matches nothing). */
  predicate Matches(o: Order, status: Option<string>)
  {
    !Truthy(status) || StatusName(o.status) == status.value
  }

  /** `find(query).sort({ createdAt: -1 })`: the matching orders, newest
      first. */
  function Matching(orders: seq<Order>, status: Option<string>): (r: seq<Order>)
    ensures forall o :: o in r <==> o in orders && Matches(o, status)
  {
    if orders == [] then []
    else (if Matches(orders[|orders| - 1], status) then [orders[|orders| - 1]] else []) + Matching(orders[..|orders| - 1], status)
  }

  /** `Math.ceil(total / limit)`; a zero limit divides to Infinity or NaN,
      which the response carries as null. */
  function TotalPages(total: nat, limit: nat): (r: Option<nat>)
    ensures r.None? <==> limit == 0
    ensures r.Some? ==> r.value * limit >= total && (r.value == 0 || (r.value - 1) * limit < total)
  {
    if limit == 0 then None else Some((total + limit - 1) / limit)
  }

  datatype OrderPage = OrderPage(orders: seq<Order>, totalPages: Option<nat>, currentPage: int, total: nat)

  /** GET orders: `limit` orders after skipping `(page - 1) * limit`; a zero
      limit means no limit, and a negative skip is refused by the store. */
  function ListOrders(orders: seq<Order>, status: Option<string>, page: int, limit: nat): (r: Result<OrderPage>)
    ensures r.Err? <==> (page - 1) * limit < 0
    ensures r.Err? ==> r.failure == ServerError
    ensures r.Ok? ==> limit > 0 ==> |r.value.orders| <= limit
    ensures r.Ok? ==> r.value.total == |Matching(orders, status)| && r.value.currentPage == page
    ensures r.Ok? ==> r.value.totalPages == TotalPages(|Matching(orders, status)|, limit)
    ensures r.Ok? ==> forall i :: 0 <= i < |r.value.orders| ==>
              (page - 1) * limit + i < |Matching(orders, status)|
              && r.value.orders[i] == Matching(orders, status)[(page - 1) * limit + i]
    ensures limit == 0 ==> r.Ok? && r.value.orders == Matching(orders, status)
    ensures r.Ok? && limit > 0 && (page - 1) * limit + limit <= |Matching(orders, status)| ==> |r.value.orders| == limit
    ensures r.Ok? && (page - 1) * limit >= |Matching(orders, status)| ==> r.value.orders == []
  {
    var all := Matching(orders, status);
    var skip := (page - 1) * limit;
    if skip < 0 then Err(ServerError)
    else
      var from := if skip < |all| then skip else |all|;
      var to := if limit == 0 || from + limit > |all| then |all| else from + limit;
      assert limit == 0 ==> from == 0 && all[from..to] == all;
      Ok(OrderPage(all[from..to], TotalPages(|all|, limit), page, |all|))
  }

  /** The page and page size the listing uses when the query omits them. */
  const DefaultPage: int := 1
  const DefaultLimit: nat := 10

  /** GET orders with the query's `page` and `limit` possibly absent: an
      absent one takes its default, so a bare request gets the ten newest
      matching orders as page 1. */
  function ListOrdersQuery(orders: seq<Order>, status: Option<string>, page: Option<int>, limit: Option<nat>): (r: Result<OrderPage>)
    ensures page.None? && limit.None? ==>
              r.Ok? && r.value.currentPage == 1
              && r.value.orders == Matching(orders, status)[..if |Matching(orders, status)| < 10 then |Matching(orders, status)| else 10]
    ensures page.None? ==> r.Ok?
    ensures limit.None? && r.Ok? ==> |r.value.orders| <= 10
  {
    var p := if page.Some? then page.value else DefaultPage;
    var l := if limit.Some? then limit.value else DefaultLimit;
    ListOrders(orders, status, p, l)
  }

  lemma MulMonotone(a: int, b: int, c: nat)
    requires a <= b
    ensures a * c <= b * c
  {
  }

  /** Arithmetic of the page holding entry j of n. */
  lemma PageArithmetic(j: nat, n: nat, limit: nat)
    requires limit > 0 && j < n
    ensures (j / limit) * limit + j % limit == j
    ensures 0 <= j / limit && 0 <= j % limit < limit
    ensures j / limit + 1 <= (n + limit - 1) / limit
  {
    var q, p := j / limit, (n + limit - 1) / limit;
    if q + 1 > p {
      MulMonotone(p, q, limit);
      assert false;
    }
  }

  /** Entry i of the page whose skip is `skip`, when it exists, is the
      matching order the skip reaches. */
  lemma PageEntry(orders: seq<Order>, status: Option<string>, page: int, limit: nat, skip: nat, i: nat)
    requires (page - 1) * limit == skip
    requires i < limit && skip + i < |Matching(orders, status)|
    ensures ListOrders(orders, status, page, limit).Ok?
    ensures i < |ListOrders(orders, status, page, limit).value.orders|
    ensures ListOrders(orders, status, page, limit).value.orders[i] == Matching(orders, status)[skip + i]
  {
    var all := Matching(orders, status);
    var to := if skip + limit > |all| then |all| else skip + limit;
    assert ListOrders(orders, status, page, limit).value.orders == all[skip..to];
  }

  /** The page holding entry j of n is one of the listing's pages, and
      its skip and position within it add up to j. */
  lemma PageOf(j: nat, n: nat, limit: nat) returns (page: nat, skip: nat, i: nat)
    requires limit > 0 && j < n
    ensures page == j / limit + 1 && i == j % limit
    ensures (page - 1) * limit == skip && skip + i == j && i < limit
    ensures page <= TotalPages(n, limit).value
  {
    PageArithmetic(j, n, limit);
    page, skip, i := j / limit + 1, (j / limit) * limit, j % limit;
    assert (page - 1) * limit == skip;
  }

  /** Pages 1 to totalPages show every matching order once: order j is
      entry j % limit of page j / limit + 1. */
  lemma PagesCoverListing(orders: seq<Order>, status: Option<string>, limit: nat, j: nat)
    requires limit > 0 && j < |Matching(orders, status)|
    ensures var page := j / limit + 1;
            && page <= TotalPages(|Matching(orders, status)|, limit).value
            && ListOrders(orders, status, page, limit).Ok?
            && j % limit < |ListOrders(orders, status, page, limit).value.orders|
            && ListOrders(orders, status, page, limit).value.orders[j % limit] == Matching(orders, status)[j]
  {
    var page, skip, i := PageOf(j, |Matching(orders, status)|, limit);
    PageEntry(orders, status, page, limit, skip, i);
  }
}
