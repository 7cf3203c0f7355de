/** The `orders` and `order_item` tables: creating an order and its items
    in one database transaction, reading items back, and setting an order's
    status. */
module Orders {
  import opened Common
  import opened Products

  /** A row of `orders` (the creation time is left out). */
  datatype OrderRow = OrderRow(
    userId: Id,
    subtotal: real,
    discount: real,
    total: real,
    status: string,
    containsMembership: bool,
    paymentMethod: string)

  /** A row of `order_item`; the table keeps rows in insertion order. */
  datatype OrderItem = OrderItem(orderId: Id, productId: Id, quantity: real, unitPrice: real, lineTotal: real)

  /** A line handed to `createOrder`. */
  datatype LineInput = LineInput(productId: Id, quantity: real, price: real)

  /** An item joined with the name of its product. */
  datatype NamedItem = NamedItem(item: OrderItem, name: string)

  /** Which step of `createOrder` the database refuses, if any. */
  datatype Fault = NoFault | BeginFails | OrderInsertFails | ItemInsertFails(index: nat) | CommitFails

  /** The six statuses an order may be given. */
  const StatusList: seq<string> := ["awaiting_payment", "paid", "shipped", "completed", "cancelled", "refunded"]

  /** The item rows written for the lines of a new order, one per line in
      the same order, each priced at quantity times unit price. */
  function ItemsFor(orderId: Id, lines: seq<LineInput>): (r: seq<OrderItem>)
    ensures |r| == |lines|
    ensures forall i :: 0 <= i < |lines| ==>
      r[i] == OrderItem(orderId, lines[i].productId, lines[i].quantity, lines[i].price, lines[i].quantity * lines[i].price)
  {
    if lines == [] then []
    else ItemsFor(orderId, lines[..|lines| - 1]) + [ItemOf(orderId, lines[|lines| - 1])]
  }

  function ItemOf(orderId: Id, l: LineInput): OrderItem {
    OrderItem(orderId, l.productId, l.quantity, l.price, l.quantity * l.price)
  }

  /** The items of one order, in table order. */
  function ItemsOf(items: seq<OrderItem>, orderId: Id): (r: seq<OrderItem>)
    ensures |r| <= |items|
    ensures forall x :: x in r <==> x in items && x.orderId == orderId
  {
    if items == [] then []
    else
      var rest := ItemsOf(items[..|items| - 1], orderId);
      var last := items[|items| - 1];
      assert items == items[..|items| - 1] + [last];
      if last.orderId == orderId then rest + [last] else rest
  }

  lemma {:induction false} ItemsOfAppend(a: seq<OrderItem>, b: seq<OrderItem>, orderId: Id)
    ensures ItemsOf(a + b, orderId) == ItemsOf(a, orderId) + ItemsOf(b, orderId)
    decreases |b|
  {
    if b == [] {
      assert a + b == a;
    } else {
      var b' := b[..|b| - 1];
      assert (a + b)[..|a + b| - 1] == a + b';
      ItemsOfAppend(a, b', orderId);
    }
  }

  lemma {:induction false} ItemsOfNone(items: seq<OrderItem>, orderId: Id)
    requires forall i :: 0 <= i < |items| ==> items[i].orderId != orderId
    ensures ItemsOf(items, orderId) == []
  {
    if items != [] {
      ItemsOfNone(items[..|items| - 1], orderId);
    }
  }

  lemma {:induction false} ItemsOfAll(items: seq<OrderItem>, orderId: Id)
    requires forall i :: 0 <= i < |items| ==> items[i].orderId == orderId
    ensures ItemsOf(items, orderId) == items
  {
    if items != [] {
      ItemsOfAll(items[..|items| - 1], orderId);
      assert items == items[..|items| - 1] + [items[|items| - 1]];
    }
  }

  /** Reading back the items of a newly created order gives exactly the
      rows written for its lines, whatever the table held before. */
  lemma CreatedItemsReadBack(before: seq<OrderItem>, orderId: Id, lines: seq<LineInput>)
    requires forall i :: 0 <= i < |before| ==> before[i].orderId != orderId
    ensures ItemsOf(before + ItemsFor(orderId, lines), orderId) == ItemsFor(orderId, lines)
  {
    ItemsOfAppend(before, ItemsFor(orderId, lines), orderId);
    ItemsOfNone(before, orderId);
    ItemsOfAll(ItemsFor(orderId, lines), orderId);
  }

  /** Adding the items of a new order leaves the items of every other
      order as they were. */
  lemma CreatedItemsKeepOthers(before: seq<OrderItem>, orderId: Id, lines: seq<LineInput>, other: Id)
    requires other != orderId
    ensures ItemsOf(before + ItemsFor(orderId, lines), other) == ItemsOf(before, other)
  {
    ItemsOfAppend(before, ItemsFor(orderId, lines), other);
    ItemsOfNone(ItemsFor(orderId, lines), other);
  }

  /** `getItemsForOrders`: the items of the listed orders whose product
      still exists, with the product name. The table order is by order key
      and then by insertion, which is the order `ORDER BY order_id,
      order_item_id` asks for. */
  function ItemsForOrders(items: seq<OrderItem>, orderIds: seq<Id>, products: map<Id, Product>): (r: seq<NamedItem>)
    ensures orderIds == [] ==> r == []
    ensures forall x :: x in r ==>
      x.item in items && x.item.orderId in orderIds && x.item.productId in products && x.name == products[x.item.productId].name
    ensures forall i :: 0 <= i < |items| && items[i].orderId in orderIds && items[i].productId in products ==>
      NamedItem(items[i], products[items[i].productId].name) in r
  {
    if orderIds == [] || items == [] then []
    else
      var rest := ItemsForOrders(items[..|items| - 1], orderIds, products);
      var last := items[|items| - 1];
      if last.orderId in orderIds && last.productId in products then rest + [NamedItem(last, products[last.productId].name)]
      else rest
  }

  /** Rows in ascending order key. */
  predicate RowsGrouped(r: seq<NamedItem>) {
    forall i, j :: 0 <= i < j < |r| ==> r[i].item.orderId <= r[j].item.orderId
  }

  /** On a table grouped by order key, the rows come back grouped by
      ascending order key, as `ORDER BY oi.order_id` asks. */
  lemma {:induction false} ItemsForOrdersGrouped(items: seq<OrderItem>, orderIds: seq<Id>, products: map<Id, Product>)
    requires Grouped(items)
    ensures RowsGrouped(ItemsForOrders(items, orderIds, products))
  {
    if orderIds != [] && items != [] {
      var front := items[..|items| - 1];
      var last := items[|items| - 1];
      assert Grouped(front) by {
        assert forall i :: 0 <= i < |front| ==> front[i] == items[i];
      }
      ItemsForOrdersGrouped(front, orderIds, products);
      var rest := ItemsForOrders(front, orderIds, products);
      if last.orderId in orderIds && last.productId in products {
        ItemsBelowLast(items, orderIds, products);
        GroupedAppend(rest, NamedItem(last, products[last.productId].name));
      }
    }
  }

  /** The rows read from all but the last item of a grouped table belong to
      orders no later than the last item's. */
  lemma ItemsBelowLast(items: seq<OrderItem>, orderIds: seq<Id>, products: map<Id, Product>)
    requires Grouped(items) && items != []
    ensures var rest := ItemsForOrders(items[..|items| - 1], orderIds, products);
      forall i :: 0 <= i < |rest| ==> rest[i].item.orderId <= items[|items| - 1].orderId
  {
    var front := items[..|items| - 1];
    var rest := ItemsForOrders(front, orderIds, products);
    forall i | 0 <= i < |rest|
      ensures rest[i].item.orderId <= items[|items| - 1].orderId
    {
      assert rest[i] in rest;
      var k :| 0 <= k < |front| && front[k] == rest[i].item;
      assert items[k] == rest[i].item;
    }
  }

  /** Appending a row of an order no earlier than every row keeps the rows
      grouped. */
  lemma GroupedAppend(rest: seq<NamedItem>, x: NamedItem)
    requires RowsGrouped(rest)
    requires forall i :: 0 <= i < |rest| ==> rest[i].item.orderId <= x.item.orderId
    ensures RowsGrouped(rest + [x])
  {
  }

  /** An order as `getOrdersByUser` lists it: its key and its row. */
  datatype OrderEntry = OrderEntry(id: Id, row: OrderRow)

  /** The orders of `userId` with a key below `bound`, newest first. A
      missing user id (`user_id = NULL`) matches no order. */
  function OrdersBelow(orders: map<Id, OrderRow>, userId: Option<Id>, bound: int): (r: seq<OrderEntry>)
    ensures forall e :: e in r ==> e.id < bound && e.id in orders && orders[e.id] == e.row && userId == Some(e.row.userId)
    ensures forall k :: k in orders && k < bound && userId == Some(orders[k].userId) ==> OrderEntry(k, orders[k]) in r
    ensures forall i, j :: 0 <= i < j < |r| ==> r[i].id > r[j].id
    ensures userId.None? ==> r == []
    decreases bound
  {
    if bound <= 1 then []
    else
      var k := bound - 1;
      var rest := OrdersBelow(orders, userId, k);
      if k in orders && userId == Some(orders[k].userId) then [OrderEntry(k, orders[k])] + rest else rest
  }

  /** Items appear grouped by ascending order key. */
  predicate Grouped(items: seq<OrderItem>) {
    forall i, j :: 0 <= i < j < |items| ==> items[i].orderId <= items[j].orderId
  }

  /** The items of an order whose key is above every earlier one keep the
      table grouped and all belong to that order. */
  lemma AppendKeepsGrouped(before: seq<OrderItem>, orderId: Id, lines: seq<LineInput>)
    requires Grouped(before)
    requires forall i :: 0 <= i < |before| ==> before[i].orderId < orderId
    ensures Grouped(before + ItemsFor(orderId, lines))
    ensures forall i :: |before| <= i < |before + ItemsFor(orderId, lines)| ==>
      (before + ItemsFor(orderId, lines))[i].orderId == orderId
  {
  }

  class OrderTable {
    var orders: map<Id, OrderRow>
    var items: seq<OrderItem>
    /** The next auto-increment key of `orders`. */
    var nextId: Id

    /** Keys are below the counter, every item belongs to a stored order,
        and items are grouped by ascending order key. */
    ghost predicate Valid()
      reads this
    {
      (forall k :: k in orders ==> k < nextId) &&
      (forall i :: 0 <= i < |items| ==> items[i].orderId in orders) &&
      Grouped(items)
    }

    constructor ()
      ensures Valid() && orders == map[] && items == []
    {
      orders := map[];
      items := [];
      nextId := 1;
    }

    /** `createOrder`: in one transaction, an order with status 'paid', no
        membership and the given amounts and method, then one item per
        line. A failed step rolls back, so the tables hold neither the order
        nor any of its items. */
    method CreateOrder(userId: Id, subtotal: real, discount: real, total: real, lines: seq<LineInput>,
                       paymentMethod: string, fault: Fault) returns (r: Result<Id>)
      requires Valid()
      modifies this
      ensures Valid()
      ensures r.Ok? <==> fault == NoFault || (fault.ItemInsertFails? && fault.index >= |lines|)
      ensures r.Err? ==> orders == old(orders) && items == old(items)
      ensures r.Ok? ==> r.value !in old(orders)
      ensures r.Ok? ==> orders == old(orders)[r.value := OrderRow(userId, subtotal, discount, total, "paid", false, paymentMethod)]
      ensures r.Ok? ==> items == old(items) + ItemsFor(r.value, lines)
    {
      if fault == BeginFails {
        return Err("begin failed");
      }
      var savedOrders, savedItems := orders, items;
      if fault == OrderInsertFails {
        orders, items := savedOrders, savedItems;
        return Err("order insert failed");
      }
      var orderId := nextId;
      orders := orders[orderId := OrderRow(userId, subtotal, discount, total, "paid", false, paymentMethod)];
      nextId := nextId + 1;
      var k := 0;
      while k < |lines|
        invariant 0 <= k <= |lines|
        invariant nextId == orderId + 1
        invariant orders == savedOrders[orderId := OrderRow(userId, subtotal, discount, total, "paid", false, paymentMethod)]
        invariant items == savedItems + ItemsFor(orderId, lines[..k])
        invariant !fault.ItemInsertFails? || fault.index >= k
      {
        if fault == ItemInsertFails(k) {
          orders, items := savedOrders, savedItems;
          return Err("item insert failed");
        }
        assert lines[..k + 1][..k] == lines[..k];
        items := items + [ItemOf(orderId, lines[k])];
        k := k + 1;
      }
      assert lines[..k] == lines;
      AppendKeepsGrouped(savedItems, orderId, lines);
      if fault == CommitFails {
        orders, items := savedOrders, savedItems;
        return Err("commit failed");
      }
      r := Ok(orderId);
    }

    /** `getItemsByOrderId`: every item of that order, and only those. */
    function GetItemsByOrderId(orderId: Id): (r: seq<OrderItem>)
      reads this
      ensures forall x :: x in r <==> x in items && x.orderId == orderId
    {
      ItemsOf(items, orderId)
    }

    /** `getOrdersByUser`: every order of that user and no other, newest
        first. Keys grow with creation time, so descending keys stand for
        descending `created_at`. */
    function GetOrdersByUser(userId: Option<Id>): (r: seq<OrderEntry>)
      requires Valid()
      reads this
      ensures forall e :: e in r ==> e.id in orders && orders[e.id] == e.row && userId == Some(e.row.userId)
      ensures forall k :: k in orders && userId == Some(orders[k].userId) ==> OrderEntry(k, orders[k]) in r
      ensures forall i, j :: 0 <= i < j < |r| ==> r[i].id > r[j].id
      ensures userId.None? ==> r == []
    {
      OrdersBelow(orders, userId, nextId)
    }

    /** `updateStatus`: writes any status to that order alone, without
        checking the transition, and reports whether the order exists. */
    method UpdateStatus(orderId: Id, status: string) returns (matched: bool)
      requires Valid()
      modifies this`orders
      ensures Valid()
      ensures matched <==> orderId in old(orders)
      ensures matched ==> orders == old(orders)[orderId := old(orders)[orderId].(status := status)]
      ensures !matched ==> orders == old(orders)
    {
      matched := orderId in orders;
      if matched {
        orders := orders[orderId := orders[orderId].(status := status)];
      }
    }
  }

  /** `statusOptions`: a new array holding the six statuses each time, so a
      caller that changes it changes nothing for later callers. */
  method StatusOptions() returns (a: array<string>)
    ensures fresh(a)
    ensures a[..] == StatusList
  {
    a := new string[6];
    a[0], a[1], a[2] := StatusList[0], StatusList[1], StatusList[2];
    a[3], a[4], a[5] := StatusList[3], StatusList[4], StatusList[5];
  }
}
