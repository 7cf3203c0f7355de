/** The admin order screen: the order list with its items, setting an
    order's status, and refunding an order. */
module AdminOrders {
  import opened Common
  import opened Products
  import opened Orders
  import opened OrdersController

  /** The status filter choices: "All", then the six statuses. */
  function FilterStatuses(): (r: seq<string>)
    ensures |r| == 1 + |StatusList| && r[0] == "All" && r[1..] == StatusList
  {
    ["All"] + StatusList
  }

  /** "All" is a filter choice and not a status an order can have. */
  lemma AllIsNoStatus()
    ensures "All" !in StatusList
  {
    assert forall i | 0 <= i < |StatusList| :: StatusList[i][0] != 'A';
  }

  /** The query string of the dashboard. */
  datatype DashboardQuery = DashboardQuery(q: Option<string>, status: Option<string>, refund: Option<string>)

  /** What the dashboard renders. */
  datatype DashboardReply =
    | Dashboard(orders: seq<OrderEntry>, itemsByOrder: map<Id, seq<NamedItem>>, statuses: seq<string>,
                q: string, status: string, orderStatuses: seq<string>, refundAlert: string)
    | DashboardFailed

  /** `dashboard`: lists the orders `adminList` found (`listed`, `None`
      when that query fails), fetches their items (no query for an empty
      list) and groups them by order; the filter fields echo the query,
      with "" and "All" for missing values. */
  method DashboardPage(query: DashboardQuery, listed: Option<seq<OrderEntry>>, table: OrderTable, products: ProductTable, itemsFail: bool)
    returns (reply: DashboardReply)
    ensures listed.None? ==> reply == DashboardFailed
    ensures listed.Some? ==> (reply == DashboardFailed <==> listed.value != [] && itemsFail)
    ensures reply.Dashboard? ==>
      reply.orders == listed.value && reply.statuses == FilterStatuses() && reply.orderStatuses == StatusList &&
      reply.q == OrDefault(query.q, "") && reply.status == OrDefault(query.status, "All") &&
      reply.refundAlert == OrDefault(query.refund, "")
    ensures reply.Dashboard? ==>
      var found := ItemsForOrders(table.items, OrderIds(listed.value), products.rows);
      reply.itemsByOrder.Keys == IdsOf(found) &&
      forall id :: id in reply.itemsByOrder ==> reply.itemsByOrder[id] == BucketOf(found, id)
  {
    if listed.None? {
      return DashboardFailed;
    }
    var ids := OrderIds(listed.value);
    if ids != [] && itemsFail {
      return DashboardFailed;
    }
    var items := ItemsForOrders(table.items, ids, products.rows);
    var itemsByOrder := GroupItems(items);
    reply := Dashboard(listed.value, itemsByOrder, FilterStatuses(), OrDefault(query.q, ""),
                       OrDefault(query.status, "All"), StatusList, OrDefault(query.refund, ""));
  }

  /** The status written when none is given. */
  const Pending := "Pending"

  /** The status `postStatus` writes: the trimmed form value, or "Pending"
      when it is missing or blank. */
  function NewStatus(status: Option<string>): (r: string)
    ensures Truthy(status) && Trim(status.value) != [] ==> r == Trim(status.value)
    ensures !Truthy(status) || Trim(status.value) == [] ==> r == Pending
  {
    if Truthy(status) && Trim(status.value) != [] then Trim(status.value) else Pending
  }

  /** The status written is never blank and is already trimmed. */
  lemma NewStatusTrimmed(status: Option<string>)
    ensures NewStatus(status) != [] && Trim(NewStatus(status)) == NewStatus(status)
  {
    var r := NewStatus(status);
    if Truthy(status) && Trim(status.value) != [] {
      TrimShape(status.value);
    } else {
      assert r[0] == 'P' && r[|r| - 1] == 'g';
    }
    TrimOfTrimmed(r);
  }

  /** Any non-blank trimmed value is written as given, whether or not it
      is one of the six statuses. */
  lemma NewStatusUnchecked(value: string)
    requires value != [] && Trim(value) == value
    ensures NewStatus(Some(value)) == value
  {
  }

  const OrdersPath := "/admin/orders"
  const RefundOk := "/admin/orders?refund=ok"
  const RefundError := "/admin/orders?refund=error"

  /** `postStatus`: writes the new status to that order; a failed update
      is only logged, and the answer is always the order list. */
  method PostStatus(orderId: Id, status: Option<string>, table: OrderTable, updateFails: bool) returns (location: string)
    requires table.Valid()
    modifies table`orders
    ensures table.Valid()
    ensures location == OrdersPath
    ensures table.orders == if !updateFails && orderId in old(table.orders)
      then old(table.orders)[orderId := old(table.orders)[orderId].(status := NewStatus(status))]
      else old(table.orders)
  {
    var s := NewStatus(status);
    if !updateFails {
      var _ := table.UpdateStatus(orderId, s);
    }
    location := OrdersPath;
  }

  /** `postRefund`: marks the order "Refunded" and then, unless
      `no_restock` is "1", calls `Order.restockItems`. That function is not
      defined, so the call throws after the status was written and the
      answer is the error redirect; only a refund without restocking
      reports success. A failed status update writes nothing and reports
      the error. */
  method PostRefund(orderId: Id, noRestock: Option<string>, table: OrderTable, updateFails: bool) returns (location: string)
    requires table.Valid()
    modifies table`orders
    ensures table.Valid()
    ensures location == RefundOk <==> !updateFails && OrDefault(noRestock, "") == "1"
    ensures location != RefundOk ==> location == RefundError
    ensures table.orders == if !updateFails && orderId in old(table.orders)
      then old(table.orders)[orderId := old(table.orders)[orderId].(status := "Refunded")]
      else old(table.orders)
  {
    var skipRestock := OrDefault(noRestock, "") == "1";
    if updateFails {
      return RefundError;
    }
    var _ := table.UpdateStatus(orderId, "Refunded");
    if !skipRestock {
      return RefundError;
    }
    location := RefundOk;
  }
}
