/** Registration, sign-in and sign-out: the validation order of the
    registration form, the branches of the sign-in, and the saved-cart key
    handed to the browser on sign-out. */
module Auth {
  import opened Common
  import opened Sessions

  // ---------------------------------------------------------------------
  // Users
  // ---------------------------------------------------------------------

  /** A row of `users`, with the columns these handlers read or write. The
      saved cart is the parsed `saved_cart` column. */
  datatype UserRow = UserRow(
    name: string,
    email: Option<string>,
    role: string,
    isMember: bool,
    mfaEnabled: bool,
    passwordHash: string,
    savedCart: Option<seq<CartLine>>)

  /** The lowest key below `bound` whose row has that name. */
  function NamedBelow(rows: map<Id, UserRow>, name: string, bound: int): (r: Option<Id>)
    ensures r.Some? ==> r.value < bound && r.value in rows && rows[r.value].name == name
    ensures r.Some? ==> forall k :: k in rows && k < r.value ==> rows[k].name != name
    ensures r.None? ==> forall k :: k in rows && k < bound ==> rows[k].name != name
    decreases bound
  {
    if bound <= 1 then None
    else
      var r := NamedBelow(rows, name, bound - 1);
      if r.Some? then r
      else if bound - 1 in rows && rows[bound - 1].name == name then Some(bound - 1)
      else None
  }

  class UserTable {
    var rows: map<Id, UserRow>
    /** The next auto-increment key. */
    var nextId: Id

    ghost predicate Valid()
      reads this
    {
      forall k :: k in rows ==> k < nextId
    }

    constructor ()
      ensures Valid() && rows == map[]
    {
      rows := map[];
      nextId := 1;
    }

    /** `findByName`: a row with that name (the first by key), or null. */
    function FindByName(name: string): (r: Option<Id>)
      requires Valid()
      reads this
      ensures r.Some? ==> r.value in rows && rows[r.value].name == name
      ensures r.None? ==> forall k :: k in rows ==> rows[k].name != name
    {
      NamedBelow(rows, name, nextId)
    }

    /** `setSavedCart`: the user's `saved_cart` becomes the cart, or null
        for an empty one. No row changes when no row has the key or the
        write fails. */
    method SetSavedCart(userId: Option<Id>, cart: seq<CartLine>, fails: bool) returns (ok: bool)
      requires Valid()
      modifies this`rows
      ensures Valid()
      ensures ok <==> userId.Some? && userId.value in old(rows) && !fails
      ensures rows == if ok then old(rows)[userId.value := old(rows)[userId.value].(savedCart := SavedCart(cart))] else old(rows)
    {
      ok := userId.Some? && userId.value in rows && !fails;
      if ok {
        rows := rows[userId.value := rows[userId.value].(savedCart := SavedCart(cart))];
      }
    }
  }

  // ---------------------------------------------------------------------
  // Registration
  // ---------------------------------------------------------------------

  /** `^[^\s@]+@[^\s@]+\.[^\s@]+$`, as a regular expression reads it: one
      `@` with at least one character before it, a `.` after it with at
      least one character on either side, and no whitespace and no other
      `@` anywhere. */
  ghost predicate EmailPattern(s: string) {
    (forall k :: 0 <= k < |s| ==> !IsJsSpace(s[k])) &&
    exists i, j :: 0 < i && i + 1 < j < |s| - 1 && s[i] == '@' && s[j] == '.' &&
      forall k :: 0 <= k < |s| && s[k] == '@' ==> k == i
  }

  /** The email check as computed: the first `@` is not the first
      character, no `@` follows it, and a `.` sits strictly inside what
      follows it, with no whitespace anywhere. */
  predicate EmailOk(s: string) {
    var i := FindIndex(s, (c: char) => c == '@');
    (forall k :: 0 <= k < |s| ==> !IsJsSpace(s[k])) &&
    0 < i && i + 3 <= |s| && '@' !in s[i + 1..] && '.' in s[i + 2..|s| - 1]
  }

  /** The computed check accepts exactly what the pattern matches. */
  lemma EmailOkMatchesPattern(s: string)
    ensures EmailOk(s) <==> EmailPattern(s)
  {
    var i := FindIndex(s, (c: char) => c == '@');
    if EmailOk(s) {
      var t := s[i + 2..|s| - 1];
      var m :| 0 <= m < |t| && t[m] == '.';
      var j := i + 2 + m;
      assert s[j] == '.';
      var u := s[i + 1..];
      assert forall k :: i < k < |s| ==> s[k] == u[k - i - 1];
    }
    if EmailPattern(s) {
      var a, b :| 0 < a && a + 1 < b < |s| - 1 && s[a] == '@' && s[b] == '.' &&
        forall k :: 0 <= k < |s| && s[k] == '@' ==> k == a;
      assert i == a;
      assert s[i + 2..|s| - 1][b - i - 2] == '.';
      var u := s[i + 1..];
      assert forall k :: 0 <= k < |u| ==> u[k] == s[i + 1 + k];
    }
  }

  /** The fields of the registration form. */
  datatype RegisterForm = RegisterForm(
    name: Option<string>,
    email: Option<string>,
    password: Option<string>,
    confirmPassword: Option<string>)

  const RequiredMessage := "Name, email and password are required."
  const EmailMessage := "Please enter a valid email address."
  const LengthMessage := "Password must be at least 6 characters."
  const MismatchMessage := "Passwords do not match."
  const ExistsMessage := "User already exists."
  const InUseMessage := "Email or name already in use."
  const ServerMessage := "Internal Server Error"
  const LoginRequiredMessage := "Name and password are required."
  const InvalidMessage := "Invalid credentials."

  /** The checks `postRegister` makes before looking at the table, in
      order, stopping at the first that fails. */
  function RegisterCheck(form: RegisterForm): (r: Option<string>)
    ensures !Truthy(form.name) || !Truthy(form.email) || !Truthy(form.password) ==> r == Some(RequiredMessage)
    ensures r.None? <==>
      Truthy(form.name) && Truthy(form.email) && Truthy(form.password) &&
      EmailOk(Trim(form.email.value)) && |form.password.value| >= 6 && form.confirmPassword == form.password
  {
    if !Truthy(form.name) || !Truthy(form.email) || !Truthy(form.password) then Some(RequiredMessage)
    else if !EmailOk(Trim(form.email.value)) then Some(EmailMessage)
    else if |form.password.value| < 6 then Some(LengthMessage)
    else if form.confirmPassword != form.password then Some(MismatchMessage)
    else None
  }

  /** Each check is reached only when the ones before it pass: a bad email
      is reported only for a form with all required fields, a short
      password only for a valid email, a mismatch only for a long enough
      password. */
  lemma RegisterCheckOrder(form: RegisterForm)
    ensures RegisterCheck(form) == Some(EmailMessage) ==>
      Truthy(form.name) && Truthy(form.email) && Truthy(form.password) && !EmailOk(Trim(form.email.value))
    ensures RegisterCheck(form) == Some(LengthMessage) ==>
      Truthy(form.password) && EmailOk(Trim(form.email.value)) && |form.password.value| < 6
    ensures RegisterCheck(form) == Some(MismatchMessage) ==>
      Truthy(form.password) && |form.password.value| >= 6 && form.confirmPassword != form.password
  {
    // The four messages differ at their first, second or ninth character.
    assert RequiredMessage[0] == 'N' && EmailMessage[0] == 'P' && LengthMessage[0] == 'P' && MismatchMessage[0] == 'P';
    assert EmailMessage[1] == 'l' && LengthMessage[1] == 'a' && MismatchMessage[1] == 'a';
    assert LengthMessage[8] == ' ' && MismatchMessage[8] == 's';
  }

  /** The answer of the auth handlers: a page with a status and an error,
      or a redirect. */
  datatype AuthReply = Rendered(status: int, error: string) | Redirect(location: string)

  const SetupPath := "/2fa/setup"
  const VerifyPath := "/2fa/verify"

  /** How inserting the user fails, if it does. */
  datatype CreateFault = Created | DuplicateEntry | OtherFailure

  /** The row `createUser` inserts: role 'user', a member from today, the
      trimmed email and the hashed password. */
  function NewUser(name: string, email: string, passwordHash: string): UserRow {
    UserRow(name, Some(email), "user", true, false, passwordHash, None)
  }

  /** `postRegister`: the form checks, then the name lookup, then the
      insert; on success the new user is signed in and sent to set up a
      second factor. Nothing is written unless every check passes. */
  method PostRegister(form: RegisterForm, session: Session, users: UserTable, hash: string -> string,
                      findFails: bool, createFault: CreateFault)
    returns (reply: AuthReply, ghost id: Id)
    requires users.Valid()
    modifies session`user, users
    ensures users.Valid()
    ensures RegisterCheck(form).Some? ==> reply == Rendered(400, RegisterCheck(form).value)
    ensures RegisterCheck(form).None? && findFails ==> reply == Rendered(500, ServerMessage)
    ensures RegisterCheck(form).None? && !findFails && old(users.FindByName(form.name.value)).Some? ==>
      reply == Rendered(400, ExistsMessage)
    ensures reply == Redirect(SetupPath) <==>
      RegisterCheck(form).None? && !findFails && old(users.FindByName(form.name.value)).None? && createFault == Created
    ensures reply != Redirect(SetupPath) ==> users.rows == old(users.rows) && session.user == old(session.user)
    ensures reply == Redirect(SetupPath) ==>
      id !in old(users.rows) &&
      users.rows == old(users.rows)[id := NewUser(form.name.value, Trim(form.email.value), hash(form.password.value))] &&
      session.user == Some(SessionUser(Some(id), None, None, form.name.value, "user", true))
    ensures RegisterCheck(form).None? && !findFails && old(users.FindByName(form.name.value)).None? ==>
      (createFault == DuplicateEntry ==> reply == Rendered(400, InUseMessage)) &&
      (createFault == OtherFailure ==> reply == Rendered(500, ServerMessage))
  {
    id := 1;
    var check := RegisterCheck(form);
    if check.Some? {
      return Rendered(400, check.value), id;
    }
    var name, email, password := form.name.value, Trim(form.email.value), form.password.value;
    if findFails {
      return Rendered(500, ServerMessage), id;
    }
    var existing := users.FindByName(name);
    if existing.Some? {
      return Rendered(400, ExistsMessage), id;
    }
    if createFault == DuplicateEntry {
      return Rendered(400, InUseMessage), id;
    } else if createFault == OtherFailure {
      return Rendered(500, ServerMessage), id;
    }
    var newId := users.nextId;
    users.rows := users.rows[newId := NewUser(name, email, hash(password))];
    users.nextId := users.nextId + 1;
    session.user := Some(SessionUser(Some(newId), None, None, name, "user", true));
    id := newId;
    reply := Redirect(SetupPath);
  }

  // ---------------------------------------------------------------------
  // Sign-in
  // ---------------------------------------------------------------------

  /** `verifyPassword`: a bcrypt hash (starting `$2`) is compared by
      `compare`; anything else is a legacy plain-text password compared as
      it is. */
  function VerifyPassword(password: string, stored: string, compare: (string, string) -> bool): (ok: bool)
    ensures !StartsWith(stored, "$2") ==> (ok <==> password == stored)
  {
    if StartsWith(stored, "$2") then compare(password, stored) else password == stored
  }

  /** Whether the stored password is a legacy plain-text one that matched,
      which `verifyPassword` then replaces by its hash. */
  predicate Upgrades(password: string, stored: string) {
    !StartsWith(stored, "$2") && password == stored
  }

  /** Which database steps of the sign-in fail. */
  datatype LoginFaults = LoginFaults(findFails: bool, resetFails: bool, savedCartFails: bool)

  /** The membership flag the session gets at sign-in, as written: the flag
      of the row read before the expiry reset. */
  function SessionMemberAsWritten(row: UserRow, expired: bool): bool {
    row.isMember
  }

  /** An expired member who signs in keeps a member session as written:
      the reset clears the flag in the table, but the session was filled
      from the row read before it. */
  lemma ExpiredMemberStaysMemberAsWritten(row: UserRow)
    requires row.isMember
    ensures SessionMemberAsWritten(row, true) && !ExpiryReset(row, true).isMember
  {
  }

  /** `resetMembershipIfExpired`: an expired membership is cleared. */
  function ExpiryReset(row: UserRow, expired: bool): (r: UserRow)
    ensures r.isMember == (row.isMember && !expired)
    ensures r.(isMember := row.isMember) == row
  {
    if expired then row.(isMember := false) else row
  }

  /** The membership flag the session evidently should get at sign-in:
      that of the row after the expiry reset. */
  function SessionMember(row: UserRow, expired: bool): (m: bool)
    ensures m == ExpiryReset(row, expired).isMember
  {
    row.isMember && !expired
  }

  /** The session cart restored at sign-in: the saved cart, or an empty
      one when there is none or it cannot be read. */
  function RestoredCart(saved: Option<seq<CartLine>>, fails: bool): seq<CartLine> {
    if fails then [] else saved.GetOr([])
  }

  /** `postLogin`: missing fields give 400; an unknown name gives 401; the
      membership-expiry reset then runs for that user whatever the
      password; a wrong password gives 401. With a second factor enabled
      only the pending user is recorded and the visitor goes to verify it;
      otherwise the user, with the membership flag read before the reset,
      and the saved cart are put in the session and the visitor goes to set
      up a second factor. */
  method PostLogin(name: Option<string>, password: Option<string>, session: Session, users: UserTable,
                   compare: (string, string) -> bool, hash: string -> string, expired: bool, faults: LoginFaults)
    returns (reply: AuthReply, reset: Option<Id>)
    requires users.Valid()
    modifies session, users`rows
    ensures users.Valid()
    ensures !Truthy(name) || !Truthy(password) ==>
      reply == Rendered(400, LoginRequiredMessage) && reset.None? && users.rows == old(users.rows)
    ensures Truthy(name) && Truthy(password) && faults.findFails ==> reply == Rendered(500, ServerMessage) && reset.None?
    ensures Truthy(name) && Truthy(password) && !faults.findFails ==>
      reset == old(users.FindByName(name.value))
    ensures reset.None? && reply != Rendered(500, ServerMessage) && reply != Rendered(400, LoginRequiredMessage) ==>
      reply == Rendered(401, InvalidMessage)
    ensures reset.Some? && !faults.resetFails ==>
      var row := old(users.rows)[reset.value];
      (reply.Redirect? <==> VerifyPassword(password.value, row.passwordHash, compare)) &&
      (reply.Redirect? && row.mfaEnabled ==> reply == Redirect(VerifyPath)) &&
      (reply.Redirect? && !row.mfaEnabled ==> reply == Redirect(SetupPath))
    ensures reset.Some? && faults.resetFails ==> reply == Rendered(500, ServerMessage) && users.rows == old(users.rows)
    ensures reply.Redirect? ==>
      reset.Some? && var row := old(users.rows)[reset.value];
      (row.mfaEnabled ==> session.preAuthUserId == reset && session.user == old(session.user) &&
                          session.cart == old(session.cart)) &&
      (!row.mfaEnabled ==>
        session.user == Some(SessionUser(reset, None, None, row.name, row.role, SessionMemberAsWritten(row, expired))) &&
        session.cart == Some(RestoredCart(row.savedCart, faults.savedCartFails)) &&
        session.preAuthUserId == old(session.preAuthUserId))
    ensures !reply.Redirect? ==>
      session.user == old(session.user) && session.cart == old(session.cart) && session.preAuthUserId == old(session.preAuthUserId)
    ensures reset.Some? && !faults.resetFails ==>
      var row := ExpiryReset(old(users.rows)[reset.value], expired);
      users.rows == old(users.rows)[reset.value :=
        if Upgrades(password.value, row.passwordHash) then row.(passwordHash := hash(password.value)) else row]
    ensures reset.None? ==> users.rows == old(users.rows)
    ensures reply.Redirect? ==> reply.location == VerifyPath || reply.location == SetupPath
  {
    reset := None;
    if !Truthy(name) || !Truthy(password) {
      return Rendered(400, LoginRequiredMessage), reset;
    }
    if faults.findFails {
      return Rendered(500, ServerMessage), reset;
    }
    var found := users.FindByName(name.value);
    if found.None? {
      return Rendered(401, InvalidMessage), reset;
    }
    var uid := found.value;
    var user := users.rows[uid];
    reset := Some(uid);
    if faults.resetFails {
      return Rendered(500, ServerMessage), reset;
    }
    users.rows := users.rows[uid := ExpiryReset(users.rows[uid], expired)];
    var ok := VerifyPassword(password.value, user.passwordHash, compare);
    if Upgrades(password.value, user.passwordHash) {
      users.rows := users.rows[uid := users.rows[uid].(passwordHash := hash(password.value))];
    }
    if !ok {
      return Rendered(401, InvalidMessage), reset;
    }
    if user.mfaEnabled {
      session.preAuthUserId := Some(uid);
      return Redirect(VerifyPath), reset;
    }
    var cart := RestoredCart(user.savedCart, faults.savedCartFails);
    session.user := Some(SessionUser(Some(uid), None, None, user.name, user.role, SessionMemberAsWritten(user, expired)));
    session.cart := Some(cart);
    reply := Redirect(SetupPath);
  }

  // ---------------------------------------------------------------------
  // Sign-out
  // ---------------------------------------------------------------------

  const SavedCartPrefix := "cart_saved_user_"

  /** The browser-side key the cart is copied to on sign-out, or null
      without a signed-in user. */
  function SavedCartKey(userId: Option<Id>): (r: Option<string>)
    ensures r.Some? <==> userId.Some?
    ensures r.Some? ==> StartsWith(r.value, SavedCartPrefix)
  {
    if userId.Some? then Some(SavedCartPrefix + NatToString(userId.value)) else None
  }

  /** Different users get different keys, and the user can be read back
      from the key. */
  lemma SavedCartKeyIdentifies(a: Id, b: Id)
    ensures DecimalValue(SavedCartKey(Some(a)).value[|SavedCartPrefix|..]) == a
    ensures a != b ==> SavedCartKey(Some(a)) != SavedCartKey(Some(b))
  {
    var ka, kb := SavedCartKey(Some(a)).value, SavedCartKey(Some(b)).value;
    assert ka[|SavedCartPrefix|..] == NatToString(a);
    assert kb[|SavedCartPrefix|..] == NatToString(b);
    NatToStringValue(a);
    NatToStringValue(b);
  }

  /** The `saved_cart` column after `setSavedCart`: the cart, or null for
      an empty one. */
  function SavedCart(cart: seq<CartLine>): (r: Option<seq<CartLine>>)
    ensures r.None? <==> cart == []
  {
    if |cart| > 0 then Some(cart) else None
  }

  /** A cart saved on sign-out is the cart restored at the next sign-in,
      when it can be read. */
  lemma SavedCartRestored(cart: seq<CartLine>)
    ensures RestoredCart(SavedCart(cart), false) == cart
  {
  }

  /** `logout`: with a signed-in user (by the `user_id` key) the session
      cart is saved to that user's row (a failed save is only logged);
      the session is then destroyed. Returns the browser-side key. */
  method Logout(session: Session, users: UserTable, saveFails: bool) returns (key: Option<string>)
    requires users.Valid()
    modifies session, users`rows
    ensures users.Valid()
    ensures var uid := if old(session.user).Some? then old(session.user).value.userId else None;
      key == SavedCartKey(uid) &&
      users.rows == if uid.Some? && uid.value in old(users.rows) && !saveFails
        then old(users.rows)[uid.value := old(users.rows)[uid.value].(savedCart := SavedCart(old(session.cart).GetOr([])))]
        else old(users.rows)
    ensures session.user.None? && session.cart.None? && session.preAuthUserId.None?
  {
    var userId := if session.user.Some? then session.user.value.userId else None;
    var currentCart := session.cart.GetOr([]);
    var _ := users.SetSavedCart(userId, currentCart, saveFails);
    key := SavedCartKey(userId);
    session.user, session.cart, session.preAuthUserId := None, None, None;
  }
}
