/** The server-side session of a visitor: the cart it carries between
    requests, the signed-in user, and the user waiting for a second factor. */
module Sessions {
  import opened Common

  /** One line of the session cart. A line added by name and price, without
      a catalogue product, has no product id. */
  datatype CartLine = CartLine(productId: Option<Id>, name: string, price: real, qty: real)

  /** The user record stored in the session. Different code paths store the
      key under different names: `userId` is the `user_id` field,
      `camelUserId` the `userId` field and `id` the `id` field. */
  datatype SessionUser = SessionUser(
    userId: Option<Id>,
    camelUserId: Option<Id>,
    id: Option<Id>,
    name: string,
    role: string,
    isMember: bool)

  class Session {
    /** `req.session.cart`; `None` while no cart has been installed. */
    var cart: Option<seq<CartLine>>
    /** `req.session.user`. */
    var user: Option<SessionUser>
    /** `req.session.preAuthUserId`: the user whose password was accepted
        and who still has to give a one-time code. */
    var preAuthUserId: Option<Id>

    constructor ()
      ensures cart.None? && user.None? && preAuthUserId.None?
    {
      cart := None;
      user := None;
      preAuthUserId := None;
    }
  }

  /** `getUserIdFromSession`: the `user_id` key, else `userId`, else `id`,
      else null (keys are never 0, so presence is truthiness). */
  function SessionUserId(user: Option<SessionUser>): (r: Option<Id>)
    ensures r.None? <==> user.None? || (user.value.userId.None? && user.value.camelUserId.None? && user.value.id.None?)
    ensures user.Some? && user.value.userId.Some? ==> r == user.value.userId
    ensures user.Some? && user.value.userId.None? && user.value.camelUserId.Some? ==> r == user.value.camelUserId
    ensures user.Some? && user.value.userId.None? && user.value.camelUserId.None? ==> r == user.value.id
  {
    if user.None? then None
    else if user.value.userId.Some? then user.value.userId
    else if user.value.camelUserId.Some? then user.value.camelUserId
    else user.value.id
  }

  /** `!!(req.session.user && req.session.user.is_member)`. */
  predicate IsMember(user: Option<SessionUser>) {
    user.Some? && user.value.isMember
  }
}
