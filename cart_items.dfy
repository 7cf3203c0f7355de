/** The cart kept in the database for signed-in users (the
    `user_cart_items` table), as a map from (user, product) to quantity:
    listing a user's lines, adding, removing, decrementing, setting and
    clearing. Decrement and update delete a line instead of storing a
    quantity of zero. */
module CartItems {
  import opened Common
  import opened Products

  /** The key of a line: at most one line per user and product. */
  datatype Key = Key(user: Id, product: Id)

  /** A listed line, with the price of the product when it still exists. */
  datatype CartRow = CartRow(userId: Id, productId: Id, quantity: int, price: Option<real>)

  /** Why a call was refused before touching the table. */
  datatype CartError = MissingUser | MissingProduct

  /** `Number(quantity || 0)`: a missing quantity counts as zero. */
  function QtyOrZero(quantity: Option<int>): int {
    if quantity.Some? then quantity.value else 0
  }

  /** `Number(amount || 1)`: a missing or zero amount counts as one. */
  function AmountOrOne(amount: Option<int>): (r: int)
    ensures r != 0
    ensures amount.Some? && amount.value != 0 ==> r == amount.value
  {
    if amount.Some? && amount.value != 0 then amount.value else 1
  }

  /** The quantity of a line, or 0 without one. */
  function QuantityOf(rows: map<Key, int>, k: Key): int {
    if k in rows then rows[k] else 0
  }

  /** Every stored quantity is positive. */
  predicate Positive(rows: map<Key, int>) {
    forall k :: k in rows ==> rows[k] > 0
  }

  // ---------------------------------------------------------------------
  // The table after each operation
  // ---------------------------------------------------------------------

  /** `addToCart`: the line gains `qty` items, or is inserted with `qty`. */
  function AddedTo(rows: map<Key, int>, k: Key, qty: int): (r: map<Key, int>)
    ensures r.Keys == rows.Keys + {k}
    ensures r[k] == QuantityOf(rows, k) + qty
    ensures forall j :: j in rows && j != k ==> r[j] == rows[j]
  {
    rows[k := QuantityOf(rows, k) + qty]
  }

  /** `decrement`: the line loses `amount` items and is deleted when
      nothing would remain; a missing line stays missing. */
  function Decremented(rows: map<Key, int>, k: Key, amount: int): (r: map<Key, int>)
    ensures k !in rows ==> r == rows
    ensures k in rows ==> (k in r <==> rows[k] - amount > 0)
    ensures k in r ==> r[k] == rows[k] - amount && r[k] > 0
    ensures forall j :: j != k ==> (j in r <==> j in rows) && (j in r ==> r[j] == rows[j])
  {
    if k !in rows then rows
    else
      var newQty := if rows[k] - amount < 0 then 0 else rows[k] - amount;
      if newQty <= 0 then rows - {k} else rows[k := newQty]
  }

  /** `updateQuantity`: a quantity of zero or less deletes the line,
      otherwise an existing line gets exactly that quantity and a missing
      one is not created. */
  function QuantitySet(rows: map<Key, int>, k: Key, qty: int): (r: map<Key, int>)
    ensures qty <= 0 ==> r == rows - {k}
    ensures qty > 0 && k !in rows ==> r == rows
    ensures qty > 0 && k in rows ==> r.Keys == rows.Keys && r[k] == qty
    ensures forall j :: j != k ==> (j in r <==> j in rows) && (j in r ==> r[j] == rows[j])
  {
    if qty <= 0 then rows - {k}
    else if k in rows then rows[k := qty]
    else rows
  }

  /** `removeBulk`: deletes the user's lines for the listed products. */
  function BulkRemoved(rows: map<Key, int>, user: Id, products: seq<Id>): (r: map<Key, int>)
    ensures forall j :: j in r <==> j in rows && !(j.user == user && j.product in products)
    ensures forall j :: j in r ==> r[j] == rows[j]
  {
    map j | j in rows && !(j.user == user && j.product in products) :: rows[j]
  }

  /** `clear`: deletes every line of the user. */
  function Cleared(rows: map<Key, int>, user: Id): (r: map<Key, int>)
    ensures forall j :: j in r <==> j in rows && j.user != user
    ensures forall j :: j in r ==> r[j] == rows[j]
  {
    map j | j in rows && j.user != user :: rows[j]
  }

  // ---------------------------------------------------------------------
  // The positive-quantity invariant
  // ---------------------------------------------------------------------

  /** Deleting lines, decrementing and setting quantities never store a
      quantity of zero or less. */
  lemma RemovalsKeepPositive(rows: map<Key, int>, k: Key, user: Id, products: seq<Id>, amount: int, qty: int)
    requires Positive(rows)
    ensures Positive(rows - {k})
    ensures Positive(Decremented(rows, k, amount))
    ensures Positive(QuantitySet(rows, k, qty))
    ensures Positive(BulkRemoved(rows, user, products))
    ensures Positive(Cleared(rows, user))
  {
  }

  /** Adding a positive quantity keeps every quantity positive. */
  lemma AddKeepsPositive(rows: map<Key, int>, k: Key, qty: int)
    requires Positive(rows) && qty > 0
    ensures Positive(AddedTo(rows, k, qty))
  {
  }

  /** Adding does not guard the invariant: a quantity of zero (a missing
      quantity counts as zero) inserts a line holding nothing. */
  lemma AddZeroStoresZero(rows: map<Key, int>, k: Key)
    requires k !in rows
    ensures k in AddedTo(rows, k, QtyOrZero(None)) && AddedTo(rows, k, QtyOrZero(None))[k] == 0
  {
  }

  /** Decrementing by the whole quantity, or more, deletes the line. */
  lemma DecrementAll(rows: map<Key, int>, k: Key, amount: int)
    requires k in rows && amount >= rows[k]
    ensures Decremented(rows, k, amount) == rows - {k}
  {
  }

  // ---------------------------------------------------------------------
  // The table
  // ---------------------------------------------------------------------

  /** The listed line of key `k`. */
  function RowOf(rows: map<Key, int>, products: map<Id, Product>, k: Key): CartRow
    requires k in rows
  {
    CartRow(k.user, k.product, rows[k], if k.product in products then Some(products[k.product].price) else None)
  }

  /** `items` lists the user's lines, each exactly once, in some order. */
  predicate Lists(items: seq<CartRow>, rows: map<Key, int>, products: map<Id, Product>, user: Id) {
    (forall i :: 0 <= i < |items| ==>
       Key(user, items[i].productId) in rows && items[i] == RowOf(rows, products, Key(user, items[i].productId))) &&
    (forall k :: k in rows && k.user == user ==> exists i :: 0 <= i < |items| && items[i].productId == k.product) &&
    (forall i, j :: 0 <= i < j < |items| ==> items[i].productId != items[j].productId)
  }

  class CartItemTable {
    var rows: map<Key, int>

    constructor ()
      ensures rows == map[]
    {
      rows := map[];
    }

    /** `getByUserId`: no user gives no lines; otherwise the user's lines
        with their product prices, in the order the database returns them. */
    method GetByUserId(userId: Option<Id>, products: ProductTable) returns (items: seq<CartRow>)
      ensures userId.None? ==> items == []
      ensures userId.Some? ==> Lists(items, rows, products.rows, userId.value)
    {
      if userId.None? {
        return [];
      }
      var user := userId.value;
      var left := set k | k in rows && k.user == user;
      items := [];
      while left != {}
        invariant forall k :: k in left ==> k in rows && k.user == user
        invariant forall i :: 0 <= i < |items| ==>
          Key(user, items[i].productId) in rows && Key(user, items[i].productId) !in left &&
          items[i] == RowOf(rows, products.rows, Key(user, items[i].productId))
        invariant forall k :: k in rows && k.user == user && k !in left ==>
          exists i :: 0 <= i < |items| && items[i].productId == k.product
        invariant forall i, j :: 0 <= i < j < |items| ==> items[i].productId != items[j].productId
        decreases |left|
      {
        var k :| k in left;
        ghost var before := items;
        items := items + [RowOf(rows, products.rows, k)];
        assert forall i :: 0 <= i < |before| ==> items[i] == before[i];
        assert items[|items| - 1].productId == k.product;
        left := left - {k};
      }
    }

    /** `getItem`: the line of that user and product, or null when either
        key is missing or there is no such line. */
    function GetItem(userId: Option<Id>, productId: Option<Id>, products: ProductTable): (r: Option<CartRow>)
      reads this, products
      ensures r.Some? <==> userId.Some? && productId.Some? && Key(userId.value, productId.value) in rows
      ensures r.Some? ==> (r.value.userId == userId.value && r.value.productId == productId.value &&
        r.value.quantity == rows[Key(userId.value, productId.value)])
      ensures r.Some? ==> (r.value.price.Some? <==> productId.value in products.rows)
    {
      if userId.None? || productId.None? then None
      else
        var k := Key(userId.value, productId.value);
        if k in rows then Some(RowOf(rows, products.rows, k)) else None
    }

    /** `addToCart`: refused without a user or a product, otherwise the line
        gains `Number(quantity || 0)` items or is inserted with them. */
    method AddToCart(userId: Option<Id>, productId: Option<Id>, quantity: Option<int>) returns (err: Option<CartError>)
      modifies this
      ensures userId.None? ==> err == Some(MissingUser)
      ensures userId.Some? && productId.None? ==> err == Some(MissingProduct)
      ensures err.Some? ==> rows == old(rows)
      ensures err.None? ==> (userId.Some? && productId.Some? &&
        rows == AddedTo(old(rows), Key(userId.value, productId.value), QtyOrZero(quantity)))
    {
      if userId.None? {
        return Some(MissingUser);
      }
      if productId.None? {
        return Some(MissingProduct);
      }
      var qty := if quantity.Some? then quantity.value else 0;
      var k := Key(userId.value, productId.value);
      if k in rows {
        rows := rows[k := rows[k] + qty];
      } else {
        rows := rows[k := qty];
      }
      err := None;
    }

    /** `remove`: deletes that one line. */
    method Remove(userId: Option<Id>, productId: Option<Id>) returns (err: Option<CartError>)
      modifies this
      ensures userId.None? ==> err == Some(MissingUser)
      ensures userId.Some? && productId.None? ==> err == Some(MissingProduct)
      ensures err.Some? ==> rows == old(rows)
      ensures err.None? ==> (userId.Some? && productId.Some? &&
        rows == old(rows) - {Key(userId.value, productId.value)})
    {
      if userId.None? {
        return Some(MissingUser);
      }
      if productId.None? {
        return Some(MissingProduct);
      }
      rows := rows - {Key(userId.value, productId.value)};
      err := None;
    }

    /** `removeBulk`: an empty list changes nothing, otherwise the user's
        lines for the listed products are deleted. */
    method RemoveBulk(userId: Option<Id>, productIds: seq<Id>) returns (err: Option<CartError>)
      modifies this
      ensures userId.None? <==> err == Some(MissingUser)
      ensures userId.None? || productIds == [] ==> rows == old(rows)
      ensures userId.Some? ==> rows == BulkRemoved(old(rows), userId.value, productIds)
    {
      if userId.None? {
        return Some(MissingUser);
      }
      if productIds == [] {
        assert BulkRemoved(rows, userId.value, productIds) == rows;
        return None;
      }
      rows := BulkRemoved(rows, userId.value, productIds);
      err := None;
    }

    /** `decrement`: the line loses `Number(amount || 1)` items and is
        deleted when none would remain; a missing line is left missing. */
    method Decrement(userId: Option<Id>, productId: Option<Id>, amount: Option<int>) returns (err: Option<CartError>)
      modifies this
      ensures userId.None? ==> err == Some(MissingUser)
      ensures userId.Some? && productId.None? ==> err == Some(MissingProduct)
      ensures err.Some? ==> rows == old(rows)
      ensures err.None? ==> (userId.Some? && productId.Some? &&
        rows == Decremented(old(rows), Key(userId.value, productId.value), AmountOrOne(amount)))
    {
      if userId.None? {
        return Some(MissingUser);
      }
      if productId.None? {
        return Some(MissingProduct);
      }
      var amt := if amount.Some? && amount.value != 0 then amount.value else 1;
      var k := Key(userId.value, productId.value);
      if k !in rows {
        return None;
      }
      var current := rows[k];
      var newQty := if current - amt < 0 then 0 else current - amt;
      if newQty <= 0 {
        rows := rows - {k};
      } else {
        rows := rows[k := newQty];
      }
      err := None;
    }

    /** `updateQuantity`: a quantity of zero or less removes the line,
        otherwise the existing line gets exactly that quantity. */
    method UpdateQuantity(userId: Option<Id>, productId: Option<Id>, newQty: Option<int>) returns (err: Option<CartError>)
      modifies this
      ensures userId.None? ==> err == Some(MissingUser)
      ensures userId.Some? && productId.None? ==> err == Some(MissingProduct)
      ensures err.Some? ==> rows == old(rows)
      ensures err.None? ==> (userId.Some? && productId.Some? &&
        rows == QuantitySet(old(rows), Key(userId.value, productId.value), QtyOrZero(newQty)))
    {
      if userId.None? {
        return Some(MissingUser);
      }
      if productId.None? {
        return Some(MissingProduct);
      }
      var qty := if newQty.Some? then newQty.value else 0;
      if qty <= 0 {
        err := Remove(userId, productId);
        return;
      }
      var k := Key(userId.value, productId.value);
      if k in rows {
        rows := rows[k := qty];
      }
      err := None;
    }

    /** `clear`: deletes every line of the user and no other. */
    method Clear(userId: Option<Id>) returns (err: Option<CartError>)
      modifies this
      ensures userId.None? <==> err == Some(MissingUser)
      ensures userId.None? ==> rows == old(rows)
      ensures userId.Some? ==> err.None? && rows == Cleared(old(rows), userId.value)
    {
      if userId.None? {
        return Some(MissingUser);
      }
      rows := Cleared(rows, userId.value);
      err := None;
    }
  }
}
