/** The customer's order history page, and the grouping of order items by
    order that it shares with the admin order list. */
module OrdersController {
  import opened Common
  import opened Sessions
  import opened Products
  import opened Orders

  /** The items of one order, in the order they were listed. */
  function BucketOf(items: seq<NamedItem>, id: Id): (r: seq<NamedItem>)
    ensures |r| <= |items|
    ensures forall x :: x in r <==> x in items && x.item.orderId == id
  {
    if items == [] then []
    else
      var rest := BucketOf(items[..|items| - 1], id);
      var last := items[|items| - 1];
      assert items == items[..|items| - 1] + [last];
      if last.item.orderId == id then rest + [last] else rest
  }

  /** The order keys that occur among the items. */
  function IdsOf(items: seq<NamedItem>): set<Id> {
    set i | 0 <= i < |items| :: items[i].item.orderId
  }

  lemma BucketAppend(init: seq<NamedItem>, x: NamedItem, id: Id)
    ensures BucketOf(init + [x], id) == BucketOf(init, id) + (if x.item.orderId == id then [x] else [])
  {
    assert (init + [x])[..|init + [x]| - 1] == init;
  }

  lemma IdsAppend(init: seq<NamedItem>, x: NamedItem)
    ensures IdsOf(init + [x]) == IdsOf(init) + {x.item.orderId}
  {
    var items := init + [x];
    assert items[|init|] == x;
    forall i | 0 <= i < |init| ensures items[i] == init[i] { }
  }

  /** An order key that does not occur has an empty bucket. */
  lemma {:induction false} BucketOfAbsent(items: seq<NamedItem>, id: Id)
    requires id !in IdsOf(items)
    ensures BucketOf(items, id) == []
  {
    if items != [] {
      var init, last := items[..|items| - 1], items[|items| - 1];
      assert items == init + [last];
      IdsAppend(init, last);
      BucketOfAbsent(init, id);
    }
  }

  /** `buckets` holds exactly the buckets of `items`. */
  ghost predicate GroupsOf(buckets: map<Id, seq<NamedItem>>, items: seq<NamedItem>) {
    buckets.Keys == IdsOf(items) && forall id :: id in buckets ==> buckets[id] == BucketOf(items, id)
  }

  /** The buckets with one more item pushed onto the bucket of its order. */
  function Pushed(buckets: map<Id, seq<NamedItem>>, it: NamedItem): map<Id, seq<NamedItem>> {
    var id := it.item.orderId;
    buckets[id := (if id in buckets then buckets[id] else []) + [it]]
  }

  /** Pushing the next item keeps the buckets those of the items so far. */
  lemma PushedGroups(buckets: map<Id, seq<NamedItem>>, items: seq<NamedItem>, it: NamedItem)
    requires GroupsOf(buckets, items)
    ensures GroupsOf(Pushed(buckets, it), items + [it])
  {
    IdsAppend(items, it);
    forall id ensures BucketOf(items + [it], id) == BucketOf(items, id) + (if it.item.orderId == id then [it] else []) {
      BucketAppend(items, it, id);
    }
    if it.item.orderId !in buckets {
      BucketOfAbsent(items, it.item.orderId);
    }
  }

  lemma PushedGroupsAt(buckets: map<Id, seq<NamedItem>>, items: seq<NamedItem>, k: nat)
    requires k < |items| && GroupsOf(buckets, items[..k])
    ensures GroupsOf(Pushed(buckets, items[k]), items[..k + 1])
  {
    assert items[..k + 1] == items[..k] + [items[k]];
    PushedGroups(buckets, items[..k], items[k]);
  }

  /** The grouping loop (`itemsByOrder[it.order_id].push(it)`): one bucket
      per order key that occurs, holding that order's items in input
      order. */
  method GroupItems(items: seq<NamedItem>) returns (buckets: map<Id, seq<NamedItem>>)
    ensures buckets.Keys == IdsOf(items)
    ensures forall id :: id in buckets ==> buckets[id] == BucketOf(items, id)
  {
    buckets := map[];
    for k := 0 to |items|
      invariant GroupsOf(buckets, items[..k])
    {
      var it := items[k];
      PushedGroupsAt(buckets, items, k);
      var id := it.item.orderId;
      var bucket := if id in buckets then buckets[id] else [];
      buckets := buckets[id := bucket + [it]];
    }
    assert items[..|items|] == items;
  }

  /** The order keys in the order they first occur. */
  function FirstSeen(items: seq<NamedItem>): (r: seq<Id>)
    ensures forall id :: id in r <==> id in IdsOf(items)
    ensures forall i, j :: 0 <= i < j < |r| ==> r[i] != r[j]
  {
    if items == [] then []
    else
      var init := items[..|items| - 1];
      var rest := FirstSeen(init);
      var id := items[|items| - 1].item.orderId;
      assert IdsOf(items) == IdsOf(init) + {id} by {
        forall i | 0 <= i < |init| ensures items[i] == init[i] { }
      }
      if id in rest then rest else rest + [id]
  }

  /** The sizes of the buckets of `ids`, added up. */
  function SizeSum(items: seq<NamedItem>, ids: seq<Id>): nat {
    if ids == [] then 0
    else SizeSum(items, ids[..|ids| - 1]) + |BucketOf(items, ids[|ids| - 1])|
  }

  /** How often `id` occurs in `ids`. */
  function Occurrences(ids: seq<Id>, id: Id): nat {
    if ids == [] then 0
    else Occurrences(ids[..|ids| - 1], id) + (if ids[|ids| - 1] == id then 1 else 0)
  }

  lemma {:induction false} OccurrencesDistinct(ids: seq<Id>, id: Id)
    requires forall i, j :: 0 <= i < j < |ids| ==> ids[i] != ids[j]
    ensures Occurrences(ids, id) == if id in ids then 1 else 0
  {
    if ids != [] {
      var init := ids[..|ids| - 1];
      OccurrencesDistinct(init, id);
      assert ids == init + [ids[|ids| - 1]];
      assert ids[|ids| - 1] !in init by {
        forall i | 0 <= i < |init| ensures init[i] != ids[|ids| - 1] {
          assert init[i] == ids[i];
        }
      }
    }
  }

  /** One more item adds one to the bucket of its order, once for every
      time that order is listed. */
  lemma {:induction false} SizeSumStep(init: seq<NamedItem>, x: NamedItem, ids: seq<Id>)
    ensures SizeSum(init + [x], ids) == SizeSum(init, ids) + Occurrences(ids, x.item.orderId)
  {
    if ids != [] {
      SizeSumStep(init, x, ids[..|ids| - 1]);
      assert (init + [x])[..|init + [x]| - 1] == init;
    }
  }

  lemma {:induction false} SizeSumAppend(items: seq<NamedItem>, ids: seq<Id>, id: Id)
    ensures SizeSum(items, ids + [id]) == SizeSum(items, ids) + |BucketOf(items, id)|
  {
    assert (ids + [id])[..|ids + [id]| - 1] == ids;
  }

  /** The buckets of the order keys that occur hold every item exactly once
      between them: their sizes add up to the number of items. */
  lemma {:induction false} BucketSizesSum(items: seq<NamedItem>)
    ensures SizeSum(items, FirstSeen(items)) == |items|
  {
    if items != [] {
      var init, x := items[..|items| - 1], items[|items| - 1];
      var ids := FirstSeen(init);
      assert items == init + [x];
      BucketSizesSum(init);
      SizeSumStep(init, x, ids);
      OccurrencesDistinct(ids, x.item.orderId);
      if x.item.orderId !in ids {
        SizeSumAppend(items, ids, x.item.orderId);
        BucketOfAbsent(init, x.item.orderId);
        BucketAppend(init, x, x.item.orderId);
      }
    }
  }

  /** The answer of the order history page. */
  datatype MyOrdersReply = OrdersPage(orders: seq<OrderEntry>, itemsByOrder: map<Id, seq<NamedItem>>) | ServerError

  /** `orders.map(o => o.order_id)`. */
  function OrderIds(orders: seq<OrderEntry>): (r: seq<Id>)
    ensures |r| == |orders|
    ensures forall i :: 0 <= i < |orders| ==> r[i] == orders[i].id
  {
    seq(|orders|, i requires 0 <= i < |orders| => orders[i].id)
  }

  /** `getMyOrders`: without a signed-in user the key lookup throws and the
      page answers 500. The user's orders are listed unchanged; with none,
      the page is empty and no item query is made. Otherwise the items of
      exactly those orders are fetched and grouped by order. A failed
      query answers 500. */
  method GetMyOrders(session: Session, table: OrderTable, products: ProductTable, ordersFail: bool, itemsFail: bool)
    returns (reply: MyOrdersReply)
    requires table.Valid()
    ensures session.user.None? || ordersFail ==> reply == ServerError
    ensures session.user.Some? && !ordersFail && table.GetOrdersByUser(session.user.value.userId) == [] ==>
      reply == OrdersPage([], map[])
    ensures session.user.Some? && !ordersFail && table.GetOrdersByUser(session.user.value.userId) != [] ==>
      (reply == ServerError <==> itemsFail)
    ensures reply.OrdersPage? ==> reply.orders == table.GetOrdersByUser(session.user.value.userId)
    ensures reply.OrdersPage? ==>
      var found := ItemsForOrders(table.items, OrderIds(reply.orders), products.rows);
      reply.itemsByOrder.Keys == IdsOf(found) &&
      forall id :: id in reply.itemsByOrder ==> reply.itemsByOrder[id] == BucketOf(found, id)
    ensures reply.OrdersPage? ==> forall id :: id in reply.itemsByOrder ==>
      id in table.orders && session.user.value.userId == Some(table.orders[id].userId)
  {
    if session.user.None? || ordersFail {
      return ServerError;
    }
    var orders := table.GetOrdersByUser(session.user.value.userId);
    if |orders| == 0 {
      return OrdersPage([], map[]);
    }
    var ids := OrderIds(orders);
    if itemsFail {
      return ServerError;
    }
    var items := ItemsForOrders(table.items, ids, products.rows);
    var itemsByOrder := GroupItems(items);
    reply := OrdersPage(orders, itemsByOrder);
    forall id | id in itemsByOrder
      ensures id in table.orders && session.user.value.userId == Some(table.orders[id].userId)
    {
      var i :| 0 <= i < |items| && items[i].item.orderId == id;
      assert items[i] in items;
      var j :| 0 <= j < |ids| && ids[j] == id;
      assert orders[j] in orders;
    }
  }
}
