/** The application wiring: the admin route allow-list and its redirect,
    the admin and sign-in gates, the file names given to uploaded images,
    and the two PayNow checkout handlers that work on the session cart. */
module App {
  import opened Common
  import opened Sessions
  import opened Products
  import opened CartItems
  import opened CartController

  // ---------------------------------------------------------------------
  // Admin route allow-list
  // ---------------------------------------------------------------------

  /** The exact paths an admin may visit outside the admin area. */
  const AdminAllowedPaths: set<string> := {"/", "/menu", "/logout", "/2fa/setup", "/2fa/verify", "/account"}

  /** The path prefixes an admin may visit. */
  const AdminAllowedPrefixes: seq<string> := ["/admin", "/admin/products", "/admin/users", "/admin/orders", "/admin/reports", "/account"]

  /** The path is the prefix itself or lies below it. */
  predicate UnderPrefix(path: string, prefix: string) {
    path == prefix || StartsWith(path, prefix + "/")
  }

  /** `prefixes.some(...)`. */
  function AnyUnder(path: string, prefixes: seq<string>): (r: bool)
    ensures r <==> exists i :: 0 <= i < |prefixes| && UnderPrefix(path, prefixes[i])
  {
    if prefixes == [] then false
    else
      var rest := AnyUnder(path, prefixes[1..]);
      assert rest ==> exists i :: 0 <= i < |prefixes| && UnderPrefix(path, prefixes[i]) by {
        if rest {
          var i :| 0 <= i < |prefixes[1..]| && UnderPrefix(path, prefixes[1..][i]);
          assert UnderPrefix(path, prefixes[i + 1]);
        }
      }
      UnderPrefix(path, prefixes[0]) || rest
  }

  /** `isAdminRouteAllowed`. */
  function IsAdminRouteAllowed(path: string): (r: bool)
    ensures r <==> (path in AdminAllowedPaths ||
      exists i :: 0 <= i < |AdminAllowedPrefixes| && UnderPrefix(path, AdminAllowedPrefixes[i]))
  {
    path in AdminAllowedPaths || AnyUnder(path, AdminAllowedPrefixes)
  }

  lemma StartsWithShorter(s: string, p: string, q: string)
    requires StartsWith(s, p + q)
    ensures StartsWith(s, p)
  {
    assert s[..|p|] == (p + q)[..|p|];
  }

  /** The allow-list in short: the listed paths and `/admin`, and anything
      below `/admin/` or `/account/`. The longer admin prefixes add
      nothing, and a look-alike such as `/adminx` is not let through. */
  lemma AdminRoutes(path: string)
    ensures IsAdminRouteAllowed(path) <==>
      path in AdminAllowedPaths || path == "/admin" ||
      StartsWith(path, "/admin/") || StartsWith(path, "/account/")
  {
    var ps := AdminAllowedPrefixes;
    assert ps[0] == "/admin" && ps[5] == "/account";
    assert ps[0] + "/" == "/admin/" && ps[5] + "/" == "/account/";
    forall i | 1 <= i < 5 && UnderPrefix(path, ps[i])
      ensures StartsWith(path, "/admin/")
    {
      var rest := ps[i][7..] + (if path == ps[i] then "" else "/");
      assert ps[i] == "/admin/" + ps[i][7..];
      if path == ps[i] {
        assert path[..7] == "/admin/";
      } else {
        assert ps[i] + "/" == "/admin/" + rest;
        StartsWithShorter(path, "/admin/", rest);
      }
    }
    if StartsWith(path, "/admin/") {
      assert UnderPrefix(path, ps[0]);
    }
    if StartsWith(path, "/account/") {
      assert UnderPrefix(path, ps[5]);
    }
  }

  /** A look-alike of an allowed prefix is not let through. */
  lemma AdminLookalikeRejected()
    ensures !IsAdminRouteAllowed("/adminx")
  {
    AdminRoutes("/adminx");
    assert "/adminx"[6] == 'x';
  }

  predicate IsAdmin(user: Option<SessionUser>) {
    user.Some? && user.value.role == "admin"
  }

  /** The middleware after the session: an admin on a path outside the
      allow-list is sent to `/admin`; everyone else passes. */
  function AdminRedirect(user: Option<SessionUser>, path: string): (r: Option<string>)
    ensures !IsAdmin(user) ==> r.None?
    ensures r.Some? ==> r.value == "/admin"
  {
    if IsAdmin(user) && !IsAdminRouteAllowed(path) then Some("/admin") else None
  }

  /** The redirect settles: its target is allowed, so an admin is never
      sent round in circles; and an admin is redirected exactly off the
      allow-list. */
  lemma AdminRedirectSettles(user: Option<SessionUser>, path: string)
    ensures AdminRedirect(user, path).Some? <==> IsAdmin(user) && !IsAdminRouteAllowed(path)
    ensures AdminRedirect(user, path).Some? ==> AdminRedirect(user, AdminRedirect(user, path).value).None?
  {
    AdminRoutes("/admin");
  }

  // ---------------------------------------------------------------------
  // Admin and sign-in gates
  // ---------------------------------------------------------------------

  datatype Gate = Pass | RedirectTo(location: string) | Forbidden

  /** The answer of `getAuthById`: the query fails, there is no row, or a
      row whose second factor is or is not enabled. */
  datatype AuthLookup = LookupFails | NoAuthRow | AuthRow(mfaEnabled: bool)

  /** `(process.env.X || default) === '1'`. */
  predicate FlagOn(env: Option<string>, default: string) {
    OrDefault(env, default) == "1"
  }

  /** The second-factor check both gates share: a user without an enabled
      second factor is sent to enable one, and a failed lookup lets the
      request through. */
  function MfaGate(lookup: AuthLookup): (r: Gate)
    ensures r == Pass <==> lookup.LookupFails? || lookup == AuthRow(true)
    ensures r != Pass ==> r == RedirectTo("/account?enable_mfa=1")
  {
    match lookup
    case LookupFails => Pass
    case NoAuthRow => RedirectTo("/account?enable_mfa=1")
    case AuthRow(enabled) => if enabled then Pass else RedirectTo("/account?enable_mfa=1")
  }

  /** `requireAdmin`: no session user goes to the sign-in page, a user who
      is not an admin gets 403, and an admin passes when the second factor
      is not enforced (`REQUIRE_MFA_FOR_ADMINS`, on unless set otherwise)
      or passes the second-factor check. */
  function RequireAdmin(user: Option<SessionUser>, requireMfaForAdmins: Option<string>, lookup: AuthLookup): (r: Gate)
    ensures user.None? ==> r == RedirectTo("/login")
    ensures user.Some? && user.value.role != "admin" ==> r == Forbidden
    ensures r == Pass <==>
      IsAdmin(user) && (!FlagOn(requireMfaForAdmins, "1") || lookup.LookupFails? || lookup == AuthRow(true))
  {
    if user.None? then RedirectTo("/login")
    else if user.value.role != "admin" then Forbidden
    else if !FlagOn(requireMfaForAdmins, "1") then Pass
    else MfaGate(lookup)
  }

  /** `requireAuth`: like `requireAdmin` for any signed-in user, with the
      second factor enforced only when `REQUIRE_MFA_FOR_ALL` is '1'. */
  function RequireAuth(user: Option<SessionUser>, requireMfaForAll: Option<string>, lookup: AuthLookup): (r: Gate)
    ensures user.None? ==> r == RedirectTo("/login")
    ensures r != Forbidden
    ensures r == Pass <==>
      user.Some? && (!FlagOn(requireMfaForAll, "0") || lookup.LookupFails? || lookup == AuthRow(true))
  {
    if user.None? then RedirectTo("/login")
    else if !FlagOn(requireMfaForAll, "0") then Pass
    else MfaGate(lookup)
  }

  /** With neither flag set, an admin without a second factor is sent to
      enable one while any other signed-in user passes; a failed lookup
      lets even the admin through. */
  lemma DefaultMfaPolicy(user: Option<SessionUser>)
    requires IsAdmin(user)
    ensures RequireAdmin(user, None, NoAuthRow) == RedirectTo("/account?enable_mfa=1")
    ensures RequireAuth(user, None, NoAuthRow) == Pass
    ensures RequireAdmin(user, None, LookupFails) == Pass
  {
  }

  // ---------------------------------------------------------------------
  // Image file names
  // ---------------------------------------------------------------------

  predicate IsAsciiAlnum(c: char) {
    'a' <= c <= 'z' || 'A' <= c <= 'Z' || '0' <= c <= '9'
  }

  /** A combining diacritical mark, U+0300 to U+036F. */
  predicate IsCombiningMark(c: char) {
    0x300 <= c as int <= 0x36F
  }

  /** Removes the combining marks. */
  function StripMarks(s: string): (r: string)
    ensures |r| <= |s|
    ensures forall i :: 0 <= i < |r| ==> !IsCombiningMark(r[i])
  {
    if s == [] then []
    else (if IsCombiningMark(s[0]) then [] else [s[0]]) + StripMarks(s[1..])
  }

  /** What is left after a run of characters other than letters and digits. */
  function SkipRun(s: string): (r: string)
    ensures |r| <= |s| && r == s[|s| - |r|..]
    ensures r == [] || IsAsciiAlnum(r[0])
  {
    if s == [] || IsAsciiAlnum(s[0]) then s else SkipRun(s[1..])
  }

  predicate SlugChars(s: string) {
    forall i :: 0 <= i < |s| ==> IsAsciiAlnum(s[i]) || s[i] == '-'
  }

  /** No two neighbouring dashes. */
  predicate NoDoubleDash(s: string) {
    forall i, j :: 0 <= i < |s| && j == i + 1 && j < |s| ==> !(s[i] == '-' && s[j] == '-')
  }

  /** `replace(/[^a-zA-Z0-9]+/g, "-")`: each maximal run of other
      characters becomes one dash. */
  function Dashify(s: string): (r: string)
    ensures SlugChars(r) && NoDoubleDash(r)
    ensures s != [] && IsAsciiAlnum(s[0]) ==> r != [] && r[0] == s[0]
    decreases |s|
  {
    if s == [] then []
    else if IsAsciiAlnum(s[0]) then [s[0]] + Dashify(s[1..])
    else "-" + Dashify(SkipRun(s[1..]))
  }

  function DropLeadingDashes(s: string): (r: string)
    ensures |r| <= |s| && r == s[|s| - |r|..]
    ensures r == [] || r[0] != '-'
  {
    if s == [] || s[0] != '-' then s else DropLeadingDashes(s[1..])
  }

  function DropTrailingDashes(s: string): (r: string)
    ensures |r| <= |s| && r == s[..|r|]
    ensures r == [] || r[|r| - 1] != '-'
  {
    if s == [] || s[|s| - 1] != '-' then s else DropTrailingDashes(s[..|s| - 1])
  }

  /** `replace(/^-+|-+$/g, "")`. */
  function TrimDashes(s: string): (r: string)
    ensures r == [] || (r[0] != '-' && r[|r| - 1] != '-')
  {
    var t := DropLeadingDashes(s);
    var r := DropTrailingDashes(t);
    assert r != [] ==> r[0] == t[0];
    r
  }

  /** A slug: lower-case letters, digits and single dashes, with no dash at
      either end. */
  predicate IsSlug(s: string) {
    (forall i :: 0 <= i < |s| ==> 'a' <= s[i] <= 'z' || '0' <= s[i] <= '9' || s[i] == '-') &&
    (s != [] ==> s[0] != '-' && s[|s| - 1] != '-') &&
    NoDoubleDash(s)
  }

  lemma SliceKeepsShape(s: string, lo: nat, hi: nat)
    requires lo <= hi <= |s|
    requires SlugChars(s) && NoDoubleDash(s)
    ensures SlugChars(s[lo..hi]) && NoDoubleDash(s[lo..hi])
  {
    var t := s[lo..hi];
    forall i | 0 <= i < |t| ensures IsAsciiAlnum(t[i]) || t[i] == '-' {
      assert t[i] == s[lo + i];
    }
    forall i, j | 0 <= i < |t| && j == i + 1 && j < |t| ensures !(t[i] == '-' && t[j] == '-') {
      assert t[i] == s[lo + i] && t[j] == s[lo + j];
    }
  }

  lemma TrimKeepsShape(s: string)
    requires SlugChars(s) && NoDoubleDash(s)
    ensures SlugChars(TrimDashes(s)) && NoDoubleDash(TrimDashes(s))
  {
    var t := DropLeadingDashes(s);
    SliceKeepsShape(s, |s| - |t|, |s|);
    var r := DropTrailingDashes(t);
    SliceKeepsShape(t, 0, |r|);
  }

  lemma LowerKeepsShape(s: string)
    requires SlugChars(s) && NoDoubleDash(s) && (s == [] || (s[0] != '-' && s[|s| - 1] != '-'))
    ensures IsSlug(Lower(s))
  {
  }

  /** `slugifyForFilename`, for text already in decomposed form: a falsy
      value gives the empty text; otherwise the marks go, each run of
      other characters becomes a dash, dashes at either end go, and the
      rest is lower-cased. */
  function Slugify(value: Option<string>): (r: string)
    ensures !Truthy(value) ==> r == []
    ensures IsSlug(r)
  {
    if !Truthy(value) then []
    else
      var d := Dashify(StripMarks(value.value));
      TrimKeepsShape(d);
      LowerKeepsShape(TrimDashes(d));
      Lower(TrimDashes(d))
  }

  /** The letters and digits of a text, in order. */
  function Alnums(s: string): (r: string)
    ensures |r| <= |s|
  {
    if s == [] then [] else (if IsAsciiAlnum(s[0]) then [s[0]] else []) + Alnums(s[1..])
  }

  lemma {:induction false} AlnumsAppend(a: string, b: string)
    ensures Alnums(a + b) == Alnums(a) + Alnums(b)
  {
    if a != [] {
      var h := if IsAsciiAlnum(a[0]) then [a[0]] else [];
      assert (a + b)[0] == a[0] && (a + b)[1..] == a[1..] + b;
      assert Alnums(a + b) == h + Alnums(a[1..] + b);
      AlnumsAppend(a[1..], b);
    } else {
      assert a + b == b;
    }
  }

  lemma {:induction false} AlnumsSkipRun(s: string)
    ensures Alnums(SkipRun(s)) == Alnums(s)
  {
    if s != [] && !IsAsciiAlnum(s[0]) {
      AlnumsSkipRun(s[1..]);
    }
  }

  lemma {:induction false} AlnumsDashify(s: string)
    ensures Alnums(Dashify(s)) == Alnums(s)
    decreases |s|
  {
    if s == [] {
    } else if IsAsciiAlnum(s[0]) {
      AlnumsDashify(s[1..]);
      AlnumsAppend([s[0]], Dashify(s[1..]));
    } else {
      AlnumsDashify(SkipRun(s[1..]));
      AlnumsSkipRun(s[1..]);
      AlnumsAppend("-", Dashify(SkipRun(s[1..])));
    }
  }

  lemma {:induction false} AlnumsDropLeading(s: string)
    ensures Alnums(DropLeadingDashes(s)) == Alnums(s)
  {
    if s != [] && s[0] == '-' {
      AlnumsDropLeading(s[1..]);
    }
  }

  lemma {:induction false} AlnumsDropTrailing(s: string)
    ensures Alnums(DropTrailingDashes(s)) == Alnums(s)
  {
    if s != [] && s[|s| - 1] == '-' {
      var t := s[..|s| - 1];
      AlnumsDropTrailing(t);
      assert s == t + "-";
      AlnumsAppend(t, "-");
    }
  }

  lemma AlnumsTrimDashes(s: string)
    ensures Alnums(TrimDashes(s)) == Alnums(s)
  {
    AlnumsDropLeading(s);
    AlnumsDropTrailing(DropLeadingDashes(s));
  }

  lemma {:induction false} AlnumsLower(s: string)
    ensures Alnums(Lower(s)) == Lower(Alnums(s))
  {
    if s != [] {
      assert Lower(s)[1..] == Lower(s[1..]);
      AlnumsLower(s[1..]);
      var head := if IsAsciiAlnum(s[0]) then [s[0]] else [];
      assert Lower(head + Alnums(s[1..])) == Lower(head) + Lower(Alnums(s[1..]));
    }
  }

  /** The slug keeps every letter and digit of the text, in order and
      lower-cased, and nothing else but dashes. */
  lemma SlugKeepsLettersAndDigits(v: string)
    requires v != []
    ensures Alnums(Slugify(Some(v))) == Lower(Alnums(StripMarks(v)))
  {
    var d := Dashify(StripMarks(v));
    AlnumsDashify(StripMarks(v));
    AlnumsTrimDashes(d);
    AlnumsLower(TrimDashes(d));
  }

  lemma {:induction false} DashifyKeeps(s: string)
    requires SlugChars(s) && NoDoubleDash(s) && (s == [] || s[|s| - 1] != '-')
    ensures Dashify(s) == s
    decreases |s|
  {
    if s != [] {
      DashifyKeeps(s[1..]);
      if !IsAsciiAlnum(s[0]) {
        assert SkipRun(s[1..]) == s[1..];
      }
    }
  }

  lemma {:induction false} StripMarksKeeps(s: string)
    requires SlugChars(s)
    ensures StripMarks(s) == s
  {
    if s != [] {
      StripMarksKeeps(s[1..]);
    }
  }

  /** Slugging a slug changes nothing. */
  lemma SlugifyIdempotent(s: string)
    requires IsSlug(s) && s != []
    ensures Slugify(Some(s)) == s
  {
    StripMarksKeeps(s);
    DashifyKeeps(s);
    assert TrimDashes(s) == s;
  }

  /** The text after the last slash, once trailing slashes are dropped
      (`path.basename`). */
  function BaseName(p: string): (r: string)
    ensures forall i :: 0 <= i < |r| ==> r[i] != '/'
    decreases |p|
  {
    if p == [] then []
    else if p[|p| - 1] == '/' then
      (var q := p[..|p| - 1]; if q != [] && q[|q| - 1] != '/' then LastSegment(q) else BaseName(q))
    else LastSegment(p)
  }

  function LastSegment(p: string): (r: string)
    ensures forall i :: 0 <= i < |r| ==> r[i] != '/'
  {
    if p == [] || p[|p| - 1] == '/' then [] else LastSegment(p[..|p| - 1]) + [p[|p| - 1]]
  }

  /** The position of the last dot, or -1. */
  function LastDot(s: string): (i: int)
    ensures -1 <= i < |s|
    ensures i >= 0 ==> s[i] == '.'
  {
    if s == [] then -1 else if s[|s| - 1] == '.' then |s| - 1 else LastDot(s[..|s| - 1])
  }

  /** `path.extname`: from the last dot of the base name, unless that dot
      opens the name or the name is `..`. */
  function ExtName(p: string): (r: string)
    ensures r == [] || r[0] == '.'
    ensures forall i :: 0 <= i < |r| ==> r[i] != '/'
    ensures |r| <= |BaseName(p)| && r == BaseName(p)[|BaseName(p)| - |r|..]
  {
    var part := BaseName(p);
    var d := LastDot(part);
    if d <= 0 || part == ".." then [] else part[d..]
  }

  /** `path.parse(p).name`: the base name without its extension. */
  function StemName(p: string): string {
    var part := BaseName(p);
    part[..|part| - |ExtName(p)|]
  }

  /** The lower-cased extension of the uploaded file, `.jpg` when it has
      none. */
  function ImageExtension(originalName: Option<string>): (r: string)
    ensures r != [] && r[0] == '.'
    ensures forall i :: 0 <= i < |r| ==> r[i] != '/'
  {
    var raw := ExtName(OrDefault(originalName, ""));
    Lower(if raw == [] then ".jpg" else raw)
  }

  /** The stem of a product image name: the slug of the product name
      given in the form, else of the uploaded file's name, else "image". */
  function ImageStem(originalName: Option<string>, bodyName: Option<string>): (r: string)
    ensures r != [] && IsSlug(r)
    ensures Truthy(bodyName) && Slugify(bodyName) != [] ==> r == Slugify(bodyName)
  {
    var fallback := OrDefault(Some(StemName(OrDefault(originalName, ""))), "image");
    var base := if Truthy(bodyName) then bodyName.value else fallback;
    var slug := Slugify(Some(base));
    DefaultStemIsSlug();
    if slug == [] then "image" else slug
  }

  lemma DefaultStemIsSlug()
    ensures IsSlug("image")
  {
    var w := "image";
    assert w[0] == 'i' && w[1] == 'm' && w[2] == 'a' && w[3] == 'g' && w[4] == 'e';
  }

  /** `buildProductImageFilename`: the stem followed by the lower-cased
      extension. */
  function BuildProductImageFilename(originalName: Option<string>, bodyName: Option<string>): string {
    ImageStem(originalName, bodyName) + ImageExtension(originalName)
  }

  /** A slug followed by text without slashes is a plain file name. */
  lemma PlainName(stem: string, ext: string)
    requires stem != [] && IsSlug(stem)
    requires forall i :: 0 <= i < |ext| ==> ext[i] != '/'
    ensures var r := stem + ext;
      r != [] && r[0] != '.' && forall i :: 0 <= i < |r| ==> r[i] != '/'
  {
    var r := stem + ext;
    assert r[0] == stem[0];
    forall i | 0 <= i < |r| ensures r[i] != '/' {
      if i < |stem| { assert r[i] == stem[i]; } else { assert r[i] == ext[i - |stem|]; }
    }
  }

  /** The file name of a product image never leaves the image directory:
      it holds no slash and does not start with a dot. */
  lemma ProductImageFilenameIsPlain(originalName: Option<string>, bodyName: Option<string>)
    ensures var r := BuildProductImageFilename(originalName, bodyName);
      r != [] && r[0] != '.' && forall i :: 0 <= i < |r| ==> r[i] != '/'
  {
    PlainName(ImageStem(originalName, bodyName), ImageExtension(originalName));
  }

  lemma SplitName(stem: string, ext: string)
    ensures var r := stem + ext; |r| - |ext| == |stem| && r[|r| - |ext|..] == ext && r[..|r| - |ext|] == stem
  {
  }

  /** The file name ends in the extension and, when the form names the
      product in a way that leaves a slug, starts with that slug. */
  lemma ProductImageFilenameParts(originalName: Option<string>, bodyName: Option<string>)
    ensures var r := BuildProductImageFilename(originalName, bodyName);
      var ext := ImageExtension(originalName);
      |r| > |ext| && r[|r| - |ext|..] == ext && IsSlug(r[..|r| - |ext|])
    ensures Truthy(bodyName) && Slugify(bodyName) != [] ==>
      BuildProductImageFilename(originalName, bodyName) == Slugify(bodyName) + ImageExtension(originalName)
  {
    SplitName(ImageStem(originalName, bodyName), ImageExtension(originalName));
  }

  /** `isProductImageUpload`: the request came in under the product admin
      routes. */
  function IsProductImageUpload(originalUrl: Option<string>): (r: bool)
    ensures r <==> originalUrl.Some? && StartsWith(originalUrl.value, "/admin/products")
  {
    Truthy(originalUrl) && StartsWith(originalUrl.value, "/admin/products")
  }

  predicate IsSafeFileChar(c: char) {
    IsAsciiAlnum(c) || c == '_' || c == '.' || c == '-'
  }

  /** Every character outside `[a-zA-Z0-9_.-]` becomes `_`. */
  function SanitizeName(s: string): (r: string)
    ensures |r| == |s|
    ensures forall i :: 0 <= i < |r| ==> IsSafeFileChar(r[i])
    ensures forall i :: 0 <= i < |s| ==> IsSafeFileChar(s[i]) ==> r[i] == s[i]
  {
    seq(|s|, i requires 0 <= i < |s| => if IsSafeFileChar(s[i]) then s[i] else '_')
  }

  /** `buildFallbackFilename`: the clock reading, a dash, and the uploaded
      name made safe (or "image"). */
  function FallbackFilename(now: nat, originalName: Option<string>): (r: string)
    ensures r != [] && IsDigit(r[0])
    ensures forall i :: 0 <= i < |r| ==> r[i] != '/'
  {
    var digits := NatToString(now);
    var safe := if Truthy(originalName) then SanitizeName(originalName.value) else "image";
    assert forall i :: 0 <= i < |safe| ==> IsSafeFileChar(safe[i]);
    digits + "-" + safe
  }

  /** The name the upload storage gives a file: product uploads get the
      slugged name, every other upload the clock-stamped one. Either way
      the file stays in the image directory. */
  function UploadFilename(originalUrl: Option<string>, bodyName: Option<string>, originalName: Option<string>, now: nat): (r: string)
    ensures r != [] && r[0] != '.'
    ensures forall i :: 0 <= i < |r| ==> r[i] != '/'
    ensures IsProductImageUpload(originalUrl) ==> r == BuildProductImageFilename(originalName, bodyName)
    ensures !IsProductImageUpload(originalUrl) ==> r == FallbackFilename(now, originalName)
  {
    ProductImageFilenameIsPlain(originalName, bodyName);
    if IsProductImageUpload(originalUrl) then BuildProductImageFilename(originalName, bodyName)
    else FallbackFilename(now, originalName)
  }

  // ---------------------------------------------------------------------
  // PayNow checkout
  // ---------------------------------------------------------------------

  /** `Number(req.body.amount || 0)`: a number, or NaN for text that is not
      one. */
  datatype JsNumber = NaN | Finite(value: real)

  function Abs(x: real): real {
    if x < 0.0 then -x else x
  }

  /** The mismatch test of `/checkout/confirm` as written: a comparison
      with NaN is false, so an amount that is not a number never counts as
      a mismatch. */
  predicate AmountMismatchAsWritten(amount: JsNumber, total: real) {
    amount.Finite? && Abs(amount.value - total) > 0.01
  }

  /** An amount that is not a number passes the check as written, whatever
      the cart costs. */
  lemma NaNAmountPassesAsWritten(total: real)
    ensures !AmountMismatchAsWritten(NaN, total)
    ensures AmountMismatchAsWritten(Finite(total + 1.0), total)
  {
  }

  /** The mismatch test the handler evidently means: anything but a number
      within one cent of the total is a mismatch. */
  predicate AmountMismatch(amount: JsNumber, total: real) {
    !amount.Finite? || Abs(amount.value - total) > 0.01
  }

  /** An accepted amount is a number within one cent of the total, and
      every such number is accepted. */
  lemma AcceptedAmountMatches(amount: JsNumber, total: real)
    ensures !AmountMismatch(amount, total) <==>
      amount.Finite? && total - 0.01 <= amount.value <= total + 0.01
  {
  }

  /** The check as written and the intended one disagree exactly on the
      amounts that are not numbers. */
  lemma MismatchChecksDifferOnNaN(amount: JsNumber, total: real)
    ensures AmountMismatchAsWritten(amount, total) != AmountMismatch(amount, total) <==> amount.NaN?
  {
  }

  /** The answer of the checkout handlers. */
  datatype CheckoutReply = Redirect(location: string) | Mismatch | Success(total: real)

  /** `POST /checkout/confirm`. A signed-in user pays for the cart lines
      stored for them, a guest for the session cart; an empty cart goes
      back to `/checkout`, a failed read too. A number more than one cent
      from the total gives 400 and leaves the session cart alone; anything
      else, including an amount that is not a number, empties the session
      cart and shows the receipt. The stored cart lines are not touched (the
      method cannot change them). */
  method ConfirmCheckout(session: Session, cart: CartItemTable, products: ProductTable, amount: JsNumber,
                         rowsTotal: (seq<CartRow>, bool) -> real, linesTotal: (seq<CartLine>, bool) -> real,
                         readFails: bool)
    returns (reply: CheckoutReply, ghost rows: seq<CartRow>, ghost total: real)
    modifies session`cart
    ensures session.user.Some? && readFails ==> reply == Redirect("/checkout") && session.cart == old(session.cart)
    ensures session.user.Some? && !readFails ==>
      (if SessionUserId(session.user).Some? then Lists(rows, cart.rows, products.rows, SessionUserId(session.user).value)
       else rows == [])
    ensures session.user.Some? && !readFails ==> (rows == [] <==> reply == Redirect("/checkout"))
    ensures session.user.Some? && rows != [] ==> total == rowsTotal(rows, IsMember(session.user))
    ensures session.user.None? ==> (Ensured(old(session.cart)) == [] <==> reply == Redirect("/checkout"))
    ensures session.user.None? && Ensured(old(session.cart)) != [] ==> total == linesTotal(Ensured(old(session.cart)), false)
    ensures reply.Redirect? ==> reply.location == "/checkout" && session.cart == (if session.user.Some? then old(session.cart) else Some(Ensured(old(session.cart))))
    ensures !reply.Redirect? ==> (reply == Mismatch <==> AmountMismatchAsWritten(amount, total))
    ensures !reply.Redirect? && amount.Finite? ==> (reply == Mismatch <==> AmountMismatch(amount, total))
    ensures !reply.Redirect? && amount.NaN? ==> reply.Success?
    ensures reply == Mismatch ==> session.cart == old(session.cart)
    ensures reply.Success? ==> reply.total == total && session.cart == Some([])
  {
    rows := [];
    total := 0.0;
    if session.user.Some? {
      if readFails {
        return Redirect("/checkout"), rows, total;
      }
      var userId := SessionUserId(session.user);
      var items := cart.GetByUserId(userId, products);
      rows := items;
      if items == [] {
        return Redirect("/checkout"), rows, total;
      }
      var t := rowsTotal(items, IsMember(session.user));
      total := t;
      if AmountMismatchAsWritten(amount, t) {
        return Mismatch, rows, total;
      }
      session.cart := Some([]);
      return Success(t), rows, total;
    }
    var lines := EnsureCart(session);
    if lines == [] {
      return Redirect("/checkout"), rows, total;
    }
    var t := linesTotal(lines, false);
    total := t;
    if AmountMismatchAsWritten(amount, t) {
      return Mismatch, rows, total;
    }
    session.cart := Some([]);
    reply := Success(t);
  }

  /** `POST /checkout`: like the confirmation without the amount check,
      but for a signed-in user the stored cart lines are removed as well
      (a failure to remove them is ignored). */
  method Checkout(session: Session, cart: CartItemTable, products: ProductTable,
                  rowsTotal: (seq<CartRow>, bool) -> real, linesTotal: (seq<CartLine>, bool) -> real,
                  readFails: bool, clearFails: bool)
    returns (reply: CheckoutReply, ghost rows: seq<CartRow>)
    modifies session`cart, cart
    ensures session.user.Some? && readFails ==> reply == Redirect("/cart") && session.cart == old(session.cart)
    ensures session.user.Some? && !readFails ==>
      (if SessionUserId(session.user).Some? then Lists(rows, old(cart.rows), products.rows, SessionUserId(session.user).value)
       else rows == [])
    ensures session.user.Some? && !readFails ==> (rows == [] <==> reply == Redirect("/cart"))
    ensures session.user.Some? && rows != [] ==> reply == Success(rowsTotal(rows, IsMember(session.user)))
    ensures session.user.None? ==> (Ensured(old(session.cart)) == [] <==> reply == Redirect("/cart"))
    ensures session.user.None? && Ensured(old(session.cart)) != [] ==> reply == Success(linesTotal(Ensured(old(session.cart)), false))
    ensures reply.Redirect? ==> reply.location == "/cart" && cart.rows == old(cart.rows)
    ensures reply.Redirect? ==>
      session.cart == (if session.user.Some? then old(session.cart) else Some(Ensured(old(session.cart))))
    ensures reply.Success? ==> session.cart == Some([])
    ensures reply.Success? && session.user.Some? && !clearFails ==>
      cart.rows == Cleared(old(cart.rows), SessionUserId(session.user).value)
    ensures reply.Success? && (session.user.None? || clearFails) ==> cart.rows == old(cart.rows)
    ensures !reply.Mismatch?
  {
    rows := [];
    if session.user.Some? {
      if readFails {
        return Redirect("/cart"), rows;
      }
      var userId := SessionUserId(session.user);
      var items := cart.GetByUserId(userId, products);
      rows := items;
      if items == [] {
        return Redirect("/cart"), rows;
      }
      var t := rowsTotal(items, IsMember(session.user));
      session.cart := Some([]);
      if !clearFails {
        var _ := cart.Clear(userId);
      }
      return Success(t), rows;
    }
    var lines := EnsureCart(session);
    if lines == [] {
      return Redirect("/cart"), rows;
    }
    var t := linesTotal(lines, false);
    session.cart := Some([]);
    reply := Success(t);
  }
}
