/** The session cart: installing it, adding a product or a named item,
    changing or removing a line, emptying it, and the totals shown with it
    (a 5% cashback for members). */
module CartController {
  import opened Common
  import opened Sessions
  import opened Products
  import Auth

  // ---------------------------------------------------------------------
  // Totals
  // ---------------------------------------------------------------------

  /** The value of one line. */
  function LineTotal(l: CartLine): real {
    l.price * l.qty
  }

  /** The sum of the line values, added front to back. */
  function Subtotal(cart: seq<CartLine>): real {
    if cart == [] then 0.0 else Subtotal(cart[..|cart| - 1]) + LineTotal(cart[|cart| - 1])
  }

  /** The share of the subtotal a member gets back. */
  const CashbackRate: real := 0.05

  function Cashback(subtotal: real, isMember: bool): real {
    if isMember then subtotal * CashbackRate else 0.0
  }

  /** Every line has a non-negative price and quantity. */
  predicate NonNegative(cart: seq<CartLine>) {
    forall i :: 0 <= i < |cart| ==> cart[i].price >= 0.0 && cart[i].qty >= 0.0
  }

  lemma {:induction false} SubtotalConcat(a: seq<CartLine>, b: seq<CartLine>)
    ensures Subtotal(a + b) == Subtotal(a) + Subtotal(b)
    decreases |b|
  {
    if b == [] {
      assert a + b == a;
    } else {
      assert (a + b)[..|a + b| - 1] == a + b[..|b| - 1];
      SubtotalConcat(a, b[..|b| - 1]);
    }
  }

  /** The subtotal splits around any line. */
  lemma SubtotalAround(cart: seq<CartLine>, i: nat)
    requires i < |cart|
    ensures Subtotal(cart) == Subtotal(cart[..i]) + LineTotal(cart[i]) + Subtotal(cart[i + 1..])
  {
    var front, back := cart[..i], cart[i + 1..];
    var upTo := front + [cart[i]];
    assert cart == upTo + back;
    SubtotalConcat(upTo, back);
    assert upTo[..|upTo| - 1] == front;
  }

  /** Replacing one line changes the subtotal by the difference of the two
      line values. */
  lemma SubtotalReplace(cart: seq<CartLine>, i: nat, l: CartLine)
    requires i < |cart|
    ensures Subtotal(cart[i := l]) == Subtotal(cart) - LineTotal(cart[i]) + LineTotal(l)
  {
    var c := cart[i := l];
    SubtotalAround(cart, i);
    SubtotalAround(c, i);
    assert c[..i] == cart[..i] && c[i + 1..] == cart[i + 1..];
  }

  /** Dropping one line takes its value off the subtotal. */
  lemma SubtotalRemove(cart: seq<CartLine>, i: nat)
    requires i < |cart|
    ensures Subtotal(cart[..i] + cart[i + 1..]) == Subtotal(cart) - LineTotal(cart[i])
  {
    SubtotalAround(cart, i);
    SubtotalConcat(cart[..i], cart[i + 1..]);
  }

  lemma {:induction false} SubtotalNonNegative(cart: seq<CartLine>)
    requires NonNegative(cart)
    ensures Subtotal(cart) >= 0.0
    decreases |cart|
  {
    if cart != [] {
      SubtotalNonNegative(cart[..|cart| - 1]);
      var l := cart[|cart| - 1];
      assert l.price >= 0.0 && l.qty >= 0.0;
    }
  }

  /** With non-negative prices and quantities the total never exceeds the
      subtotal and is never negative. */
  lemma TotalBounds(cart: seq<CartLine>, isMember: bool)
    requires NonNegative(cart)
    ensures var s := Subtotal(cart); 0.0 <= s - Cashback(s, isMember) <= s
  {
    SubtotalNonNegative(cart);
  }

  // ---------------------------------------------------------------------
  // The cart in the session
  // ---------------------------------------------------------------------

  /** The cart after `ensureCart`: the existing one, or an empty one. */
  function Ensured(cart: Option<seq<CartLine>>): seq<CartLine> {
    if cart.Some? then cart.value else []
  }

  /** `ensureCart`: installs an empty cart only when the session has none,
      and never alters an existing one. */
  method EnsureCart(s: Session) returns (cart: seq<CartLine>)
    modifies s`cart
    ensures s.cart == Some(cart)
    ensures old(s.cart).Some? ==> cart == old(s.cart).value
    ensures old(s.cart).None? ==> cart == []
  {
    if s.cart.None? {
      s.cart := Some([]);
    }
    cart := s.cart.value;
  }

  /** `show`: the totals of the cart (installing an empty one when needed). */
  method Show(s: Session) returns (subtotal: real, cashback: real, total: real)
    modifies s`cart
    ensures s.cart == Some(Ensured(old(s.cart)))
    ensures subtotal == Subtotal(Ensured(old(s.cart)))
    ensures cashback == Cashback(subtotal, IsMember(s.user))
    ensures total == subtotal - cashback
  {
    var cart := EnsureCart(s);
    var isMember := s.user.Some? && s.user.value.isMember;
    subtotal := 0.0;
    var k := 0;
    while k < |cart|
      invariant 0 <= k <= |cart|
      invariant subtotal == Subtotal(cart[..k])
    {
      assert cart[..k + 1][..k] == cart[..k];
      subtotal := subtotal + cart[k].price * cart[k].qty;
      k := k + 1;
    }
    assert cart[..k] == cart;
    cashback := if isMember then subtotal * CashbackRate else 0.0;
    total := subtotal - cashback;
  }

  // ---------------------------------------------------------------------
  // Adding
  // ---------------------------------------------------------------------

  /** The fields of the add form; a missing or empty field is `None`. */
  datatype AddForm = AddForm(productId: Option<Id>, qty: Option<real>, name: Option<string>, price: Option<real>)

  /** `Number(qty || 1)`: a missing quantity counts as one. */
  function QtyOrOne(qty: Option<real>): real {
    if qty.Some? then qty.value else 1.0
  }

  /** The line of a catalogue product. */
  function SameProduct(id: Id): CartLine -> bool {
    (l: CartLine) => l.productId == Some(id)
  }

  /** A line added by name, without a product. */
  function SameName(name: string): CartLine -> bool {
    (l: CartLine) => l.productId.None? && l.name == name
  }

  /** Adds `q` to the first line `accepts` accepts, or appends `extra`. */
  function Merge(cart: seq<CartLine>, accepts: CartLine -> bool, q: real, extra: CartLine): seq<CartLine> {
    var i := FindIndex(cart, accepts);
    if i >= 0 then cart[i := cart[i].(qty := cart[i].qty + q)] else cart + [extra]
  }

  /** The cart after `add` on the (ensured) cart `cart`: a known product is
      merged into its line or appended, an unknown one changes nothing, and
      a name with a price is merged with the line of that name that has no
      product. */
  function Added(cart: seq<CartLine>, products: map<Id, Product>, form: AddForm): seq<CartLine> {
    var q := QtyOrOne(form.qty);
    if form.productId.Some? then
      var id := form.productId.value;
      if id !in products then cart
      else Merge(cart, SameProduct(id), q, CartLine(Some(id), products[id].name, products[id].price, q))
    else if Truthy(form.name) && form.price.Some? then
      Merge(cart, SameName(form.name.value), q, CartLine(None, form.name.value, form.price.value, q))
    else cart
  }

  /** The user rows after `persistCartForUser`: with a session user, the
      session cart (or an empty one) is saved under that user's `user_id`
      key; a failed save changes nothing. */
  function Persisted(rows: map<Id, Auth.UserRow>, user: Option<SessionUser>, cart: Option<seq<CartLine>>, fails: bool)
    : map<Id, Auth.UserRow>
  {
    var uid := if user.Some? then user.value.userId else None;
    if uid.Some? && uid.value in rows && !fails
    then rows[uid.value := rows[uid.value].(savedCart := Auth.SavedCart(cart.GetOr([])))]
    else rows
  }

  /** `persistCartForUser`: nothing without a session user; otherwise the
      session cart is written to the user's row, and a failed write is only
      logged. */
  method PersistCartForUser(s: Session, users: Auth.UserTable, saveFails: bool)
    requires users.Valid()
    modifies users`rows
    ensures users.Valid()
    ensures users.rows == Persisted(old(users.rows), s.user, s.cart, saveFails)
  {
    if s.user.None? {
      return;
    }
    var _ := users.SetSavedCart(s.user.value.userId, s.cart.GetOr([]), saveFails);
  }

  /** A cart saved after a change is the cart the user gets back at the
      next sign-in, and no other user's row changes. */
  lemma PersistedRestored(rows: map<Id, Auth.UserRow>, user: Option<SessionUser>, cart: seq<CartLine>, uid: Id)
    requires user.Some? && user.value.userId == Some(uid) && uid in rows
    ensures Auth.RestoredCart(Persisted(rows, user, Some(cart), false)[uid].savedCart, false) == cart
    ensures forall k :: k in rows && k != uid ==> Persisted(rows, user, Some(cart), false)[k] == rows[k]
  {
    Auth.SavedCartRestored(cart);
  }

  /** `add`: the cart changes as `Added` says and is then saved for a
      signed-in user, except after an unknown product, where the handler
      returns before saving. `lookupFails` is a rejected product read: the
      handler answers from its catch with the session cart only created,
      and saves nothing. */
  method Add(s: Session, products: ProductTable, form: AddForm, users: Auth.UserTable, lookupFails: bool, saveFails: bool)
    requires users.Valid()
    modifies s`cart, users`rows
    ensures users.Valid()
    ensures form.productId.Some? && lookupFails ==> s.cart == Some(Ensured(old(s.cart)))
    ensures !(form.productId.Some? && lookupFails) ==> s.cart == Some(Added(Ensured(old(s.cart)), products.rows, form))
    ensures users.rows ==
      if form.productId.Some? && (lookupFails || form.productId.value !in products.rows) then old(users.rows)
      else Persisted(old(users.rows), s.user, s.cart, saveFails)
  {
    var cart := EnsureCart(s);
    var q := if form.qty.Some? then form.qty.value else 1.0;
    if form.productId.Some? {
      var id := form.productId.value;
      if lookupFails {
        s.cart := Some(cart);
        return;
      }
      var p := products.Lookup(id);
      if p.None? {
        s.cart := Some(cart);
        return;
      }
      var i := FindIndex(cart, SameProduct(id));
      if i >= 0 {
        cart := cart[i := cart[i].(qty := cart[i].qty + q)];
      } else {
        cart := cart + [CartLine(Some(id), p.value.name, p.value.price, q)];
      }
    } else if form.name.Some? && form.name.value != "" && form.price.Some? {
      var i := FindIndex(cart, SameName(form.name.value));
      if i >= 0 {
        cart := cart[i := cart[i].(qty := cart[i].qty + q)];
      } else {
        cart := cart + [CartLine(None, form.name.value, form.price.value, q)];
      }
    }
    s.cart := Some(cart);
    PersistCartForUser(s, users, saveFails);
  }

  /** Raising the quantity of one line by `q` adds the value of `q` items
      at its price to the subtotal. */
  lemma SubtotalRaise(cart: seq<CartLine>, i: nat, q: real)
    requires i < |cart|
    ensures Subtotal(cart[i := cart[i].(qty := cart[i].qty + q)]) == Subtotal(cart) + cart[i].price * q
  {
    var l := cart[i].(qty := cart[i].qty + q);
    SubtotalReplace(cart, i, l);
    assert LineTotal(l) == LineTotal(cart[i]) + cart[i].price * q;
  }

  /** When a line is accepted, merging raises the quantity of the first
      accepted line by `q` and leaves every other line as it was. */
  lemma MergeFound(cart: seq<CartLine>, accepts: CartLine -> bool, q: real, extra: CartLine)
    requires FindIndex(cart, accepts) >= 0
    ensures var i := FindIndex(cart, accepts); var r := Merge(cart, accepts, q, extra);
      |r| == |cart| &&
      r[i] == cart[i].(qty := cart[i].qty + q) &&
      (forall j :: 0 <= j < |cart| && j != i ==> r[j] == cart[j])
  {
  }

  /** ... and adds the value of `q` items at that line's price to the
      subtotal. */
  lemma MergeFoundSubtotal(cart: seq<CartLine>, accepts: CartLine -> bool, q: real, extra: CartLine)
    requires FindIndex(cart, accepts) >= 0
    ensures Subtotal(Merge(cart, accepts, q, extra)) == Subtotal(cart) + cart[FindIndex(cart, accepts)].price * q
  {
    var i := FindIndex(cart, accepts);
    assert Merge(cart, accepts, q, extra) == cart[i := cart[i].(qty := cart[i].qty + q)];
    SubtotalRaise(cart, i, q);
  }

  /** When no line is accepted, merging appends the new line and adds its
      value to the subtotal. */
  lemma MergeAppended(cart: seq<CartLine>, accepts: CartLine -> bool, q: real, extra: CartLine)
    requires FindIndex(cart, accepts) < 0
    ensures Merge(cart, accepts, q, extra) == cart + [extra]
    ensures Subtotal(Merge(cart, accepts, q, extra)) == Subtotal(cart) + LineTotal(extra)
  {
    SubtotalConcat(cart, [extra]);
    assert [extra][..0] == [];
  }

  /** Adding an unknown product leaves the cart as it was. */
  lemma AddUnknownProduct(cart: seq<CartLine>, products: map<Id, Product>, form: AddForm)
    requires form.productId.Some? && form.productId.value !in products
    ensures Added(cart, products, form) == cart
  {
  }

  // ---------------------------------------------------------------------
  // The cart invariant
  // ---------------------------------------------------------------------

  /** No product has two lines, and no name has two lines without a
      product. */
  predicate WellFormed(cart: seq<CartLine>) {
    forall i, j :: 0 <= i < j < |cart| ==>
      (cart[i].productId.Some? ==> cart[i].productId != cart[j].productId) &&
      (cart[i].productId.None? && cart[j].productId.None? ==> cart[i].name != cart[j].name)
  }

  /** Merging keeps the cart free of duplicates when the new line clashes
      with no line the merge passes over. */
  lemma MergeWellFormed(cart: seq<CartLine>, accepts: CartLine -> bool, q: real, extra: CartLine)
    requires WellFormed(cart)
    requires forall j :: 0 <= j < |cart| && !accepts(cart[j]) ==>
      (extra.productId.Some? ==> cart[j].productId != extra.productId) &&
      (extra.productId.None? && cart[j].productId.None? ==> cart[j].name != extra.name)
    ensures WellFormed(Merge(cart, accepts, q, extra))
  {
    var i := FindIndex(cart, accepts);
    var r := Merge(cart, accepts, q, extra);
    if i >= 0 {
      assert forall j :: 0 <= j < |r| ==> r[j].productId == cart[j].productId && r[j].name == cart[j].name;
    } else {
      forall a, b | 0 <= a < b < |r|
        ensures (r[a].productId.Some? ==> r[a].productId != r[b].productId) &&
                (r[a].productId.None? && r[b].productId.None? ==> r[a].name != r[b].name)
      {
        if b == |cart| {
          assert r[a] == cart[a] && !accepts(cart[a]) && r[b] == extra;
        }
      }
    }
  }

  /** Adding keeps the cart free of duplicate lines. */
  lemma AddWellFormed(cart: seq<CartLine>, products: map<Id, Product>, form: AddForm)
    requires WellFormed(cart)
    ensures WellFormed(Added(cart, products, form))
  {
    var q := QtyOrOne(form.qty);
    if form.productId.Some? && form.productId.value in products {
      var id := form.productId.value;
      MergeWellFormed(cart, SameProduct(id), q, CartLine(Some(id), products[id].name, products[id].price, q));
    } else if form.productId.None? && Truthy(form.name) && form.price.Some? {
      MergeWellFormed(cart, SameName(form.name.value), q, CartLine(None, form.name.value, form.price.value, q));
    }
  }

  // ---------------------------------------------------------------------
  // Changing and removing a line
  // ---------------------------------------------------------------------

  /** The fields of the update and remove forms; a missing or empty field
      is `None`. */
  datatype LineForm = LineForm(productId: Option<string>, name: Option<string>, qty: Option<real>)

  /** `String(i.product_id)`: the decimal key, or "undefined" for a line
      without a product. */
  function IdText(id: Option<Id>): string {
    if id.Some? then NatToString(id.value) else "undefined"
  }

  /** The line a form designates: by the text of its product id, or by name
      among the lines without a product. */
  function Designated(form: LineForm): CartLine -> bool {
    (l: CartLine) => (Truthy(form.productId) && IdText(l.productId) == form.productId.value) ||
                    (Truthy(form.name) && l.productId.None? && l.name == form.name.value)
  }

  /** `Math.max(1, Number(qty || 1))`. */
  function ClampedQty(qty: Option<real>): (r: real)
    ensures r >= 1.0
    ensures qty.Some? && qty.value >= 1.0 ==> r == qty.value
  {
    var q := if qty.Some? then qty.value else 1.0;
    if q < 1.0 then 1.0 else q
  }

  /** Gives the first line `accepts` accepts the quantity `qty`. */
  function SetQty(cart: seq<CartLine>, accepts: CartLine -> bool, qty: real): seq<CartLine> {
    var i := FindIndex(cart, accepts);
    if i < 0 then cart else cart[i := cart[i].(qty := qty)]
  }

  /** The cart after `update`: the first designated line gets the clamped
      quantity. */
  function Updated(cart: seq<CartLine>, form: LineForm): seq<CartLine> {
    SetQty(cart, Designated(form), ClampedQty(form.qty))
  }

  /** `update`, then the save of `persistCartForUser`. */
  method Update(s: Session, form: LineForm, users: Auth.UserTable, saveFails: bool)
    requires users.Valid()
    modifies s`cart, users`rows
    ensures users.Valid()
    ensures s.cart == Some(Updated(Ensured(old(s.cart)), form))
    ensures users.rows == Persisted(old(users.rows), s.user, s.cart, saveFails)
  {
    var cart := EnsureCart(s);
    ghost var original := cart;
    var qty := if form.qty.Some? then form.qty.value else 1.0;
    if qty < 1.0 {
      qty := 1.0;
    }
    var designated := Designated(form);
    var k := 0;
    while k < |cart|
      invariant 0 <= k <= |cart|
      invariant cart == original
      invariant forall j :: 0 <= j < k ==> !designated(cart[j])
    {
      if designated(cart[k]) {
        cart := cart[k := cart[k].(qty := qty)];
        break;
      }
      k := k + 1;
    }
    s.cart := Some(cart);
    PersistCartForUser(s, users, saveFails);
  }

  /** Only the first accepted line changes, and only its quantity; with no
      accepted line the cart is unchanged. */
  lemma SetQtyEffect(cart: seq<CartLine>, accepts: CartLine -> bool, qty: real)
    ensures var r := SetQty(cart, accepts, qty);
      |r| == |cart| &&
      ((forall j :: 0 <= j < |cart| ==> !accepts(cart[j])) ==> r == cart) &&
      (forall j :: 0 <= j < |cart| && r[j] != cart[j] ==>
         accepts(cart[j]) &&
         (forall k :: 0 <= k < j ==> !accepts(cart[k])) &&
         r[j] == cart[j].(qty := qty))
  {
  }

  /** Changing a quantity keeps the cart free of duplicate lines. */
  lemma SetQtyWellFormed(cart: seq<CartLine>, accepts: CartLine -> bool, qty: real)
    requires WellFormed(cart)
    ensures WellFormed(SetQty(cart, accepts, qty))
  {
    var r := SetQty(cart, accepts, qty);
    assert forall j :: 0 <= j < |r| ==> r[j].productId == cart[j].productId && r[j].name == cart[j].name;
  }

  /** Takes out the first line `accepts` accepts. */
  function Splice(cart: seq<CartLine>, accepts: CartLine -> bool): seq<CartLine> {
    var i := FindIndex(cart, accepts);
    if i < 0 then cart else cart[..i] + cart[i + 1..]
  }

  /** The cart after `remove`: the first designated line is spliced out. */
  function Removed(cart: seq<CartLine>, form: LineForm): seq<CartLine> {
    Splice(cart, Designated(form))
  }

  /** `remove`, then the save of `persistCartForUser`. */
  method Remove(s: Session, form: LineForm, users: Auth.UserTable, saveFails: bool)
    requires users.Valid()
    modifies s`cart, users`rows
    ensures users.Valid()
    ensures s.cart == Some(Removed(Ensured(old(s.cart)), form))
    ensures users.rows == Persisted(old(users.rows), s.user, s.cart, saveFails)
  {
    var cart := EnsureCart(s);
    var idx := FindIndex(cart, Designated(form));
    if idx >= 0 {
      cart := cart[..idx] + cart[idx + 1..];
    }
    s.cart := Some(cart);
    PersistCartForUser(s, users, saveFails);
  }

  /** Splicing takes out exactly the first accepted line and keeps the other
      lines in order; with no accepted line the cart is unchanged. */
  lemma SpliceEffect(cart: seq<CartLine>, accepts: CartLine -> bool)
    ensures var i := FindIndex(cart, accepts); var r := Splice(cart, accepts);
      (i < 0 ==> r == cart) &&
      (i >= 0 ==>
         |r| == |cart| - 1 &&
         (forall k :: 0 <= k < i ==> r[k] == cart[k]) &&
         (forall k :: i <= k < |r| ==> r[k] == cart[k + 1]) &&
         multiset(r) + multiset{cart[i]} == multiset(cart))
  {
    var i := FindIndex(cart, accepts);
    if i >= 0 {
      CutEffect(cart, i);
    }
  }

  /** Cutting out the line at `i` shifts the later lines down by one and
      takes exactly that line out of the multiset. */
  lemma CutEffect(cart: seq<CartLine>, i: nat)
    requires i < |cart|
    ensures var r := cart[..i] + cart[i + 1..];
      |r| == |cart| - 1 &&
      (forall k :: 0 <= k < i ==> r[k] == cart[k]) &&
      (forall k :: i <= k < |r| ==> r[k] == cart[k + 1]) &&
      multiset(r) + multiset{cart[i]} == multiset(cart)
  {
    var front, back := cart[..i], cart[i + 1..];
    assert cart == front + [cart[i]] + back;
  }

  /** Splicing takes the value of the removed line off the subtotal. */
  lemma SpliceSubtotal(cart: seq<CartLine>, accepts: CartLine -> bool)
    requires FindIndex(cart, accepts) >= 0
    ensures Subtotal(Splice(cart, accepts)) == Subtotal(cart) - LineTotal(cart[FindIndex(cart, accepts)])
  {
    var i := FindIndex(cart, accepts);
    assert Splice(cart, accepts) == cart[..i] + cart[i + 1..];
    SubtotalRemove(cart, i);
  }

  /** Splicing keeps the cart free of duplicate lines. */
  lemma SpliceWellFormed(cart: seq<CartLine>, accepts: CartLine -> bool)
    requires WellFormed(cart)
    ensures WellFormed(Splice(cart, accepts))
  {
    var i := FindIndex(cart, accepts);
    if i >= 0 {
      var r := Splice(cart, accepts);
      assert forall k :: 0 <= k < |r| ==> r[k] == cart[if k < i then k else k + 1];
    }
  }

  /** `clear`: the session cart becomes empty, and so does the saved cart
      of a signed-in user unless the save fails. */
  method Clear(s: Session, users: Auth.UserTable, saveFails: bool)
    requires users.Valid()
    modifies s`cart, users`rows
    ensures users.Valid()
    ensures s.cart == Some([])
    ensures users.rows == Persisted(old(users.rows), s.user, Some([]), saveFails)
  {
    s.cart := Some([]);
    PersistCartForUser(s, users, saveFails);
  }
}
