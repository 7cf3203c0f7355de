/** Settlement of a NETS QR payment (`completeOrder`): from the NETS ledger
    entry of a retrieval reference and the user's database cart to an
    order, a ledger update, a captured transaction, stock decrements and
    an emptied cart. */
module Nets {
  import opened Common
  import opened Sessions
  import opened Products
  import opened CartItems
  import opened Orders
  import opened NetsTransactions
  import opened Transactions

  // ---------------------------------------------------------------------
  // Stock
  // ---------------------------------------------------------------------

  /** The stock left after taking `qty`: never below zero. */
  function StockAfter(current: int, qty: int): (r: int)
    ensures r >= 0
    ensures qty <= current ==> r == current - qty
    ensures qty > current ==> r == 0
  {
    if current - qty < 0 then 0 else current - qty
  }

  /** The catalogue after one decrement: the product, when it exists, is
      written back whole with the reduced quantity, which stores it again
      through the same normalisation as `update`. */
  function DecrementedStock(rows: map<Id, Product>, productId: Id, qty: int): (r: map<Id, Product>)
    ensures r.Keys == rows.Keys
    ensures forall p :: p in rows && p != productId ==> r[p] == rows[p]
    ensures productId in rows ==> r[productId].quantity == StockAfter(rows[productId].quantity, qty)
  {
    if productId in rows then rows[productId := Stored(rows[productId].(quantity := StockAfter(rows[productId].quantity, qty)))]
    else rows
  }

  /** A decrement keeps a product's name and price and, unless the stored
      type is the empty string, its type. */
  lemma DecrementKeepsProduct(rows: map<Id, Product>, productId: Id, qty: int)
    requires productId in rows
    requires rows[productId].productType == NormalizeType(rows[productId].productType)
    requires rows[productId].productType != Some("")
    ensures DecrementedStock(rows, productId, qty)[productId].productType == rows[productId].productType
    ensures DecrementedStock(rows, productId, qty)[productId].name == rows[productId].name
    ensures DecrementedStock(rows, productId, qty)[productId].price == rows[productId].price
  {
    var t := rows[productId].productType;
    if t.Some? {
      assert Truthy(t);
    }
  }

  /** `decrementProductStock`: a missing product fails; otherwise its
      quantity drops by `Number(quantity || 0)`, not below zero. `fails` is
      a rejected `getById` or `update`: the call fails and, since the write
      is the last step, nothing changes. */
  method DecrementProductStock(products: ProductTable, productId: Id, quantity: int, fails: bool) returns (ok: bool)
    requires products.Valid()
    modifies products`rows
    ensures products.Valid()
    ensures ok <==> !fails && productId in old(products.rows)
    ensures fails ==> products.rows == old(products.rows)
    ensures !fails ==> products.rows == DecrementedStock(old(products.rows), productId, quantity)
  {
    if fails {
      return false;
    }
    var product := products.Lookup(productId);
    if product.None? {
      return false;
    }
    var currentQty := product.value.quantity;
    var newQty := if currentQty - quantity < 0 then 0 else currentQty - quantity;
    ok := products.Update(productId, product.value.(quantity := newQty));
  }

  /** The catalogue after decrementing every line in turn; the lines
      whose positions are in `stockFails` meet a rejected database call
      and leave the stock as it was. */
  function StockAfterAll(rows: map<Id, Product>, items: seq<CartRow>, stockFails: set<nat>): (r: map<Id, Product>)
    ensures r.Keys == rows.Keys
  {
    if items == [] then rows
    else
      var n := |items| - 1;
      var rest := StockAfterAll(rows, items[..n], stockFails);
      if n in stockFails then rest else DecrementedStock(rest, items[n].productId, items[n].quantity)
  }

  /** Settling never leaves a negative stock, and never touches a product
      unless one of its lines went through. */
  lemma {:induction false} StockAfterAllBounds(rows: map<Id, Product>, items: seq<CartRow>, stockFails: set<nat>)
    requires forall p :: p in rows ==> rows[p].quantity >= 0
    ensures forall p :: p in rows ==> StockAfterAll(rows, items, stockFails)[p].quantity >= 0
    ensures forall p :: p in rows && (forall i :: 0 <= i < |items| && items[i].productId == p ==> i in stockFails) ==>
      StockAfterAll(rows, items, stockFails)[p] == rows[p]
  {
    if items != [] {
      var n := |items| - 1;
      assert forall i :: 0 <= i < n ==> items[..n][i] == items[i];
      StockAfterAllBounds(rows, items[..n], stockFails);
    }
  }

  /** The product keys, in cart order, whose decrement failed: those not
      in the catalogue and those whose database call was rejected. */
  function FailedDecrements(items: seq<CartRow>, rows: map<Id, Product>, stockFails: set<nat>): (r: seq<Id>)
    ensures forall p :: p in r <==>
      exists i :: 0 <= i < |items| && items[i].productId == p && (p !in rows || i in stockFails)
  {
    if items == [] then []
    else
      var n := |items| - 1;
      var rest := FailedDecrements(items[..n], rows, stockFails);
      assert forall i :: 0 <= i < n ==> items[..n][i] == items[i];
      if items[n].productId in rows && n !in stockFails then rest else rest + [items[n].productId]
  }

  // ---------------------------------------------------------------------
  // The request
  // ---------------------------------------------------------------------

  /** The NETS payload after `parsePayload` (the JSON parsing is left out):
      the fields `completeOrder` reads, `None` when absent, and the text it
      serialises to. */
  datatype NetsPayload = NetsPayload(
    netTransactionId: Option<string>,
    responseCode: Option<string>,
    networkStatus: Option<int>,
    serialized: Option<string>)

  /** The request body. */
  datatype CompleteBody = CompleteBody(
    txnRetrievalRef: Option<string>,
    payload: Option<NetsPayload>,
    netTransactionId: Option<string>,
    courseInitId: Option<string>)

  /** What `computeCartTotals` returns. */
  datatype Totals = Totals(subtotal: real, cashback: real, total: real)

  /** Which database step fails, if any; `stockFails` holds the positions
      of the cart lines whose stock decrement is rejected. */
  datatype Faults = Faults(readFails: bool, order: Fault, ledgerFails: bool, captureFails: bool,
                           stockFails: set<nat>, cartFails: bool)

  /** The JSON answer. */
  datatype Reply =
    | Unauthorized                                 // 401
    | BadRequest(error: string)                    // 400
    | NotFound                                     // 404
    | AlreadySettled(orderId: Id)                  // success with the recorded order
    | Settled(orderId: Id, failedDecrements: seq<Id>)
    | ServerError                                  // 500

  /** A reply that comes before anything is written. */
  predicate Early(r: Reply) {
    r.Unauthorized? || r.BadRequest? || r.NotFound? || r.AlreadySettled?
  }

  /** The order lines: the cart quantity and `Number(price || 0)`. */
  function OrderLines(items: seq<CartRow>): (r: seq<LineInput>)
    ensures |r| == |items|
    ensures forall i :: 0 <= i < |items| ==>
      r[i] == LineInput(items[i].productId, items[i].quantity as real, items[i].price.GetOr(0.0))
  {
    seq(|items|, i requires 0 <= i < |items| => LineInput(items[i].productId, items[i].quantity as real, items[i].price.GetOr(0.0)))
  }

  function ProductIds(items: seq<CartRow>): (r: seq<Id>)
    ensures |r| == |items|
    ensures forall i :: 0 <= i < |items| ==> r[i] == items[i].productId
  {
    seq(|items|, i requires 0 <= i < |items| => items[i].productId)
  }

  /** The first truthy network status, or null. */
  function FirstStatus(a: Option<int>, b: Option<int>): Option<int> {
    if a.Some? && a.value != 0 then a else if b.Some? && b.value != 0 then b else None
  }

  /** The ledger update written after the order is created: the order key,
      status "success" and the amount, plus the NETS fields taken from the
      body, the payload or the existing entry. */
  function LedgerUpdate(body: CompleteBody, entry: NetsRow, orderId: Id, total: real): (u: NetsUpdates)
    ensures u.orderId == Given(Some(orderId)) && u.status == Given(Some("success"))
    ensures u.amount == Given(Some(total)) && u.userId.Undefined?
  {
    var p := body.payload;
    NetsUpdates(
      Undefined,
      Given(Some(orderId)),
      Given(Some(total)),
      if Truthy(body.netTransactionId) then Given(body.netTransactionId)
      else if p.Some? && p.value.netTransactionId.Some? then Given(p.value.netTransactionId)
      else Undefined,
      Given(if Truthy(body.courseInitId) then body.courseInitId else entry.courseInitId),
      Given(Some("success")),
      Given(if p.Some? && Truthy(p.value.responseCode) then p.value.responseCode else entry.responseCode),
      Given(FirstStatus(if p.Some? then p.value.networkStatus else None, entry.networkStatus)),
      Given(if p.Some? then JsObject(p.value.serialized) else if entry.payload.Some? then JsText(entry.payload.value) else JsNull))
  }

  /** The transaction row of the capture. */
  function Capture(body: CompleteBody, ref: string, orderId: Id, total: real, time: string): TxRow {
    TxRow(orderId, Some("NETS"), None, total, "SGD", "captured", time,
          Some(if Truthy(body.netTransactionId) then body.netTransactionId.value else ref), None)
  }

  /** The contents of the stores `completeOrder` drives. */
  datatype Snapshot = Snapshot(
    ledger: seq<NetsRow>,
    cart: map<Key, int>,
    orders: map<Id, OrderRow>,
    orderItems: seq<OrderItem>,
    products: map<Id, Product>,
    txs: seq<TxRow>)

  /** The stores after a settlement that went through: the order and its
      items added, the ledger entry updated, the capture appended, the
      stock decremented and the settled cart lines removed. */
  function AfterSettle(before: Snapshot, uid: Id, ref: string, entry: NetsRow, items: seq<CartRow>,
                       stockFails: set<nat>, totals: Totals, orderId: Id, body: CompleteBody, time: string): Snapshot
  {
    Snapshot(
      UpdatedRows(before.ledger, ref, LedgerUpdate(body, entry, orderId, totals.total)),
      BulkRemoved(before.cart, uid, ProductIds(items)),
      before.orders[orderId := OrderRow(uid, totals.subtotal, totals.cashback, totals.total, "paid", false, "NETS")],
      before.orderItems + ItemsFor(orderId, OrderLines(items)),
      StockAfterAll(before.products, items, stockFails),
      before.txs + [CreatedTx(Capture(body, ref, orderId, totals.total, time))])
  }

  /** Whether the order insert of `createOrder` goes through for `n` lines. */
  predicate OrderGoesIn(fault: Fault, n: int) {
    fault == NoFault || (fault.ItemInsertFails? && fault.index >= n)
  }

  /** The stores once the order is in, when the writes after it stop at the
      first that fails (there is no transaction around them): a failed
      ledger update leaves only the order and its items; a failed capture
      also leaves the ledger update; a failed cart removal leaves everything
      but the removal of the cart lines. */
  function AfterWrites(before: Snapshot, uid: Id, ref: string, entry: NetsRow, items: seq<CartRow>,
                       totals: Totals, orderId: Id, body: CompleteBody, time: string, faults: Faults): Snapshot
  {
    var after := AfterSettle(before, uid, ref, entry, items, faults.stockFails, totals, orderId, body, time);
    if faults.ledgerFails then before.(orders := after.orders, orderItems := after.orderItems)
    else if faults.captureFails then before.(ledger := after.ledger, orders := after.orders, orderItems := after.orderItems)
    else if faults.cartFails then after.(cart := before.cart)
    else after
  }

  /** A failed ledger update leaves the new order in place while the
      reference's ledger entry still names no order: a retry of the same
      reference does not find the order and goes on to settle again. */
  lemma LedgerFailureLeavesRefOpen(before: Snapshot, uid: Id, ref: string, entry: NetsRow, items: seq<CartRow>,
                                   totals: Totals, orderId: Id, body: CompleteBody, time: string, faults: Faults)
    requires faults.ledgerFails
    requires FirstByRef(before.ledger, ref) == Some(entry) && entry.orderId.None?
    ensures var r := AfterWrites(before, uid, ref, entry, items, totals, orderId, body, time, faults);
      orderId in r.orders && r.orders[orderId].userId == uid &&
      FirstByRef(r.ledger, ref).Some? && FirstByRef(r.ledger, ref).value.orderId.None?
  {
  }

  /** After a settlement the reference leads to the new order, so the next
      settlement of that reference stops at the recorded order. */
  lemma SettledLookup(before: Snapshot, uid: Id, ref: string, entry: NetsRow, items: seq<CartRow>,
                      stockFails: set<nat>, totals: Totals, orderId: Id, body: CompleteBody, time: string)
    requires FirstByRef(before.ledger, ref) == Some(entry)
    ensures var after := AfterSettle(before, uid, ref, entry, items, stockFails, totals, orderId, body, time);
      FirstByRef(after.ledger, ref).Some? && FirstByRef(after.ledger, ref).value.orderId == Some(orderId)
  {
    LookupAfterUpdate(before.ledger, ref, LedgerUpdate(body, entry, orderId, totals.total));
  }

  /** A settlement adds exactly the items of the cart lines to the new
      order, and they read back as such. */
  lemma SettledItems(before: Snapshot, uid: Id, ref: string, entry: NetsRow, items: seq<CartRow>,
                     stockFails: set<nat>, totals: Totals, orderId: Id, body: CompleteBody, time: string)
    requires forall i :: 0 <= i < |before.orderItems| ==> before.orderItems[i].orderId != orderId
    ensures ItemsOf(AfterSettle(before, uid, ref, entry, items, stockFails, totals, orderId, body, time).orderItems, orderId) ==
      ItemsFor(orderId, OrderLines(items))
  {
    CreatedItemsReadBack(before.orderItems, orderId, OrderLines(items));
  }

  /** The stores `completeOrder` drives. */
  class Stores {
    const ledger: NetsTable
    const cart: CartItemTable
    const orders: OrderTable
    const products: ProductTable
    const txs: TransactionTable

    constructor (ledger: NetsTable, cart: CartItemTable, orders: OrderTable, products: ProductTable, txs: TransactionTable)
      ensures this.ledger == ledger && this.cart == cart && this.orders == orders
      ensures this.products == products && this.txs == txs
    {
      this.ledger := ledger;
      this.cart := cart;
      this.orders := orders;
      this.products := products;
      this.txs := txs;
    }

    ghost predicate Valid()
      reads this, orders, products
    {
      orders.Valid() && products.Valid()
    }

    function Snap(): Snapshot
      reads this, ledger, cart, orders, products, txs
    {
      Snapshot(ledger.rows, cart.rows, orders.orders, orders.items, products.rows, txs.rows)
    }
  }

  /** The stock loop of `completeOrder`: decrements each line in turn and
      collects the products whose decrement failed, without stopping; the
      line at position `k` meets a rejected call when `k in stockFails`. */
  method DecrementAll(products: ProductTable, items: seq<CartRow>, stockFails: set<nat>) returns (failed: seq<Id>)
    requires products.Valid()
    modifies products`rows
    ensures products.Valid()
    ensures products.rows == StockAfterAll(old(products.rows), items, stockFails)
    ensures failed == FailedDecrements(items, old(products.rows), stockFails)
  {
    failed := [];
    var k := 0;
    while k < |items|
      invariant 0 <= k <= |items|
      invariant products.Valid()
      invariant products.rows == StockAfterAll(old(products.rows), items[..k], stockFails)
      invariant failed == FailedDecrements(items[..k], old(products.rows), stockFails)
      invariant products.rows.Keys == old(products.rows).Keys
    {
      assert items[..k + 1][..k] == items[..k];
      var ok := DecrementProductStock(products, items[k].productId, items[k].quantity, k in stockFails);
      if !ok {
        failed := failed + [items[k].productId];
      }
      k := k + 1;
    }
    assert items[..k] == items;
  }

  /** The first writes of `completeOrder`: the order with its items, the
      ledger update naming the order, and the captured transaction. A
      failed order insert writes nothing; a later failure keeps what was
      already written. */
  method Record(body: CompleteBody, stores: Stores, uid: Id, ref: string, entry: NetsRow,
                items: seq<CartRow>, totals: Totals, time: string, faults: Faults)
    returns (created: Result<Id>, recorded: bool)
    requires stores.Valid()
    modifies stores.ledger, stores.orders, stores.txs
    ensures stores.Valid()
    ensures created.Ok? <==> faults.order == NoFault || (faults.order.ItemInsertFails? && faults.order.index >= |items|)
    ensures created.Err? ==> stores.Snap() == old(stores.Snap())
    ensures recorded <==> created.Ok? && !faults.ledgerFails && !faults.captureFails
    ensures created.Ok? ==> created.value !in old(stores.orders.orders)
    ensures recorded ==>
      var after := AfterSettle(old(stores.Snap()), uid, ref, entry, items, faults.stockFails, totals, created.value, body, time);
      stores.Snap() == old(stores.Snap()).(ledger := after.ledger, orders := after.orders,
                                           orderItems := after.orderItems, txs := after.txs)
    ensures created.Ok? && faults.ledgerFails ==>
      var after := AfterSettle(old(stores.Snap()), uid, ref, entry, items, faults.stockFails, totals, created.value, body, time);
      stores.Snap() == old(stores.Snap()).(orders := after.orders, orderItems := after.orderItems)
    ensures created.Ok? && !faults.ledgerFails && faults.captureFails ==>
      var after := AfterSettle(old(stores.Snap()), uid, ref, entry, items, faults.stockFails, totals, created.value, body, time);
      stores.Snap() == old(stores.Snap()).(ledger := after.ledger, orders := after.orders, orderItems := after.orderItems)
  {
    recorded := false;
    created := stores.orders.CreateOrder(uid, totals.subtotal, totals.cashback, totals.total, OrderLines(items), "NETS", faults.order);
    if created.Err? || faults.ledgerFails {
      return;
    }
    var orderId := created.value;
    var _ := stores.ledger.UpdateByTxnRetrievalRef(ref, Some(LedgerUpdate(body, entry, orderId, totals.total)));
    recorded := stores.txs.Create(Capture(body, ref, orderId, totals.total, time), faults.captureFails);
  }

  /** The last writes of `completeOrder`: the stock of every line, then the
      user's cart lines and the session cart, unless removing the lines
      fails. */
  method Finish(session: Session, stores: Stores, uid: Id, items: seq<CartRow>, stockFails: set<nat>, cartFails: bool)
    returns (failed: seq<Id>, finished: bool)
    requires stores.Valid()
    modifies session`cart, stores.cart, stores.products`rows
    ensures stores.Valid()
    ensures finished <==> !cartFails
    ensures failed == FailedDecrements(items, old(stores.products.rows), stockFails)
    ensures finished ==>
      stores.Snap() == old(stores.Snap()).(cart := BulkRemoved(old(stores.cart.rows), uid, ProductIds(items)),
                                           products := StockAfterAll(old(stores.products.rows), items, stockFails))
    ensures finished ==> session.cart == Some([])
    ensures !finished ==>
      stores.Snap() == old(stores.Snap()).(products := StockAfterAll(old(stores.products.rows), items, stockFails)) &&
      session.cart == old(session.cart)
  {
    failed := DecrementAll(stores.products, items, stockFails);
    finished := !cartFails;
    if cartFails {
      return;
    }
    var _ := stores.cart.RemoveBulk(Some(uid), ProductIds(items));
    session.cart := Some([]);
  }

  /** The writes of `completeOrder`, in order: the order, the ledger
      update, the capture, the stock, the cart lines and the session cart.
      A failed order insert changes nothing; a later failure answers 500
      and keeps what was already written. `orderId` is the key of the order
      written, if any. */
  method Settle(session: Session, body: CompleteBody, stores: Stores, uid: Id, ref: string, entry: NetsRow,
                items: seq<CartRow>, totals: Totals, time: string, faults: Faults)
    returns (reply: Reply, ghost orderId: Option<Id>)
    requires stores.Valid()
    modifies session`cart, stores.ledger, stores.cart, stores.orders, stores.products`rows, stores.txs
    ensures stores.Valid()
    ensures reply.Settled? || reply == ServerError
    ensures reply.Settled? <==>
      (faults.order == NoFault || (faults.order.ItemInsertFails? && faults.order.index >= |items|)) &&
      !faults.ledgerFails && !faults.captureFails && !faults.cartFails
    ensures !(faults.order == NoFault || (faults.order.ItemInsertFails? && faults.order.index >= |items|)) ==>
      stores.Snap() == old(stores.Snap()) && session.cart == old(session.cart)
    ensures reply.Settled? ==> reply.orderId !in old(stores.orders.orders)
    ensures reply.Settled? ==>
      stores.Snap() == AfterSettle(old(stores.Snap()), uid, ref, entry, items, faults.stockFails, totals, reply.orderId, body, time)
    ensures reply.Settled? ==> reply.failedDecrements == FailedDecrements(items, old(stores.products.rows), faults.stockFails)
    ensures reply.Settled? ==> session.cart == Some([])
    ensures orderId.Some? <==> OrderGoesIn(faults.order, |items|)
    ensures reply.Settled? ==> orderId == Some(reply.orderId)
    ensures orderId.Some? ==> orderId.value !in old(stores.orders.orders)
    ensures orderId.Some? ==>
      stores.Snap() == AfterWrites(old(stores.Snap()), uid, ref, entry, items, totals, orderId.value, body, time, faults)
    ensures !reply.Settled? ==> session.cart == old(session.cart)
  {
    var created, recorded := Record(body, stores, uid, ref, entry, items, totals, time, faults);
    orderId := if created.Ok? then Some(created.value) else None;
    if !recorded {
      return ServerError, orderId;
    }
    var failed, finished := Finish(session, stores, uid, items, faults.stockFails, faults.cartFails);
    if !finished {
      return ServerError, orderId;
    }
    reply := Settled(created.value, failed);
  }

  /** Where the checks of `completeOrder` lead: an early reply, or the
      settlement of a ledger entry and the user's cart lines. */
  datatype Plan = Stop(reply: Reply) | Go(uid: Id, ref: string, entry: NetsRow, items: seq<CartRow>, totals: Totals)

  /** The checks of `completeOrder`, in order, against the stores as they
      were: no session user gives 401; a missing reference 400; a failed
      read 500; an unknown reference 404; an entry that already names an
      order gives that order; an empty cart or a total of zero or less
      400. Only past all of them is there a settlement, of the first ledger
      entry of the reference and the user's cart lines as listed. */
  ghost predicate Planned(plan: Plan, user: Option<SessionUser>, body: CompleteBody, before: Snapshot,
                          computeTotals: (seq<CartRow>, bool) -> Totals, readFails: bool)
  {
    var uid := SessionUserId(user);
    (uid.None? ==> plan == Stop(Unauthorized)) &&
    (uid.Some? && !Truthy(body.txnRetrievalRef) ==> plan == Stop(BadRequest("Missing txnRetrievalRef"))) &&
    (uid.Some? && Truthy(body.txnRetrievalRef) && readFails ==> plan == Stop(ServerError)) &&
    (uid.Some? && Truthy(body.txnRetrievalRef) && !readFails ==>
      var found := FirstByRef(before.ledger, body.txnRetrievalRef.value);
      (found.None? <==> plan == Stop(NotFound)) &&
      (found.Some? && found.value.orderId.Some? ==> plan == Stop(AlreadySettled(found.value.orderId.value))) &&
      (plan.Stop? && plan.reply.AlreadySettled? ==> found.Some? && found.value.orderId == Some(plan.reply.orderId))) &&
    (plan.Stop? ==> Early(plan.reply) || (plan.reply == ServerError && readFails)) &&
    (plan.Go? ==>
      uid == Some(plan.uid) && body.txnRetrievalRef == Some(plan.ref) && !readFails &&
      FirstByRef(before.ledger, plan.ref) == Some(plan.entry) && plan.entry.orderId.None? &&
      plan.items != [] && Lists(plan.items, before.cart, before.products, plan.uid) &&
      plan.totals == computeTotals(plan.items, IsMember(user)) && plan.totals.total > 0.0)
  }

  /** The checks of `completeOrder`; they read the stores and write
      nothing. */
  method Prepare(session: Session, body: CompleteBody, stores: Stores,
                 computeTotals: (seq<CartRow>, bool) -> Totals, readFails: bool) returns (plan: Plan)
    ensures Planned(plan, session.user, body, stores.Snap(), computeTotals, readFails)
  {
    var userId := SessionUserId(session.user);
    if userId.None? {
      return Stop(Unauthorized);
    }
    if !Truthy(body.txnRetrievalRef) {
      return Stop(BadRequest("Missing txnRetrievalRef"));
    }
    var ref := body.txnRetrievalRef.value;
    if readFails {
      return Stop(ServerError);
    }
    var netsEntry := stores.ledger.GetByTxnRetrievalRef(ref);
    if netsEntry.None? {
      return Stop(NotFound);
    }
    var entry := netsEntry.value;
    if entry.orderId.Some? {
      return Stop(AlreadySettled(entry.orderId.value));
    }
    var items := stores.cart.GetByUserId(userId, stores.products);
    if items == [] {
      return Stop(BadRequest("Cart is empty"));
    }
    var totals := computeTotals(items, IsMember(session.user));
    if totals.total <= 0.0 {
      return Stop(BadRequest("Invalid cart total; cannot create order."));
    }
    plan := Go(userId.value, ref, entry, items, totals);
  }

  /** `completeOrder`: the checks of `Prepare`, then, past all of them,
      the writes of `Settle`. An early reply writes nothing. `orderId` is
      the key of the order written, if any. */
  method CompleteOrder(session: Session, body: CompleteBody, stores: Stores,
                       computeTotals: (seq<CartRow>, bool) -> Totals, time: string, faults: Faults)
    returns (reply: Reply, ghost plan: Plan, ghost orderId: Option<Id>)
    requires stores.Valid()
    modifies session`cart, stores.ledger, stores.cart, stores.orders, stores.products`rows, stores.txs
    ensures stores.Valid()
    ensures Planned(plan, session.user, body, old(stores.Snap()), computeTotals, faults.readFails)
    ensures plan.Stop? ==> reply == plan.reply && stores.Snap() == old(stores.Snap()) && session.cart == old(session.cart)
    ensures plan.Go? ==> reply.Settled? || reply == ServerError
    ensures reply.Settled? ==> plan.Go? && reply.orderId !in old(stores.orders.orders)
    ensures reply.Settled? ==>
      stores.Snap() == AfterSettle(old(stores.Snap()), plan.uid, plan.ref, plan.entry, plan.items, faults.stockFails,
                                   plan.totals, reply.orderId, body, time)
    ensures reply.Settled? ==> reply.failedDecrements == FailedDecrements(plan.items, old(stores.products.rows), faults.stockFails)
    ensures reply.Settled? ==> session.cart == Some([])
    ensures !reply.Settled? ==> session.cart == old(session.cart)
    ensures orderId.Some? <==> plan.Go? && OrderGoesIn(faults.order, |plan.items|)
    ensures reply.Settled? ==> orderId == Some(reply.orderId)
    ensures orderId.Some? ==> plan.Go? && orderId.value !in old(stores.orders.orders)
    ensures orderId.Some? ==>
      stores.Snap() == AfterWrites(old(stores.Snap()), plan.uid, plan.ref, plan.entry, plan.items, plan.totals, orderId.value, body, time, faults)
    ensures orderId.None? ==> stores.Snap() == old(stores.Snap())
  {
    var p := Prepare(session, body, stores, computeTotals, faults.readFails);
    plan := p;
    if p.Stop? {
      return p.reply, plan, None;
    }
    reply, orderId := Settle(session, body, stores, p.uid, p.ref, p.entry, p.items, p.totals, time, faults);
  }

  /** Idempotence on the retrieval reference: once a payment is settled, a
      second call with the same session and reference answers with the same
      order, and writes nothing. */
  method CompleteOrderTwice(session: Session, body: CompleteBody, stores: Stores,
                            computeTotals: (seq<CartRow>, bool) -> Totals, time: string, faults: Faults, again: Faults)
    returns (first: Reply, second: Reply)
    requires stores.Valid()
    requires !again.readFails
    modifies session`cart, stores.ledger, stores.cart, stores.orders, stores.products`rows, stores.txs
    ensures first.Settled? ==> second == AlreadySettled(first.orderId)
  {
    ghost var plan, orderId;
    first, plan, orderId := CompleteOrder(session, body, stores, computeTotals, time, faults);
    if first.Settled? {
      SettledLookup(old(stores.Snap()), plan.uid, plan.ref, plan.entry, plan.items, faults.stockFails, plan.totals,
                    first.orderId, body, time);
    }
    second, plan, orderId := CompleteOrder(session, body, stores, computeTotals, time, again);
  }

  /** The other side of idempotence: when the ledger update fails after
      the order is in, the call answers 500 and a retry with the same
      session and reference does not find that order; it either stops or
      settles again under a second order key. */
  method CompleteOrderRetry(session: Session, body: CompleteBody, stores: Stores,
                            computeTotals: (seq<CartRow>, bool) -> Totals, time: string, faults: Faults, again: Faults)
    returns (first: Reply, second: Reply, ghost firstOrder: Option<Id>)
    requires stores.Valid()
    requires faults.ledgerFails && !again.readFails
    modifies session`cart, stores.ledger, stores.cart, stores.orders, stores.products`rows, stores.txs
    ensures firstOrder.Some? ==> first == ServerError && firstOrder.value in stores.orders.orders
    ensures firstOrder.Some? ==> !second.AlreadySettled?
    ensures firstOrder.Some? && second.Settled? ==> second.orderId != firstOrder.value
  {
    ghost var plan, orderId;
    first, plan, firstOrder := CompleteOrder(session, body, stores, computeTotals, time, faults);
    if firstOrder.Some? {
      LedgerFailureLeavesRefOpen(old(stores.Snap()), plan.uid, plan.ref, plan.entry, plan.items, plan.totals,
                                 firstOrder.value, body, time, faults);
    }
    second, plan, orderId := CompleteOrder(session, body, stores, computeTotals, time, again);
  }
}
