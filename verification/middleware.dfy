/**
 * Page-level access control: which request paths the middleware sees, and
 * for each path and session token whether the request goes through, is
 * redirected, or is sent to the sign-in page.
 */
module Middleware {
  import opened Js

  /** The session token; `role` is `None` when the token carries none. */
  datatype Token = Token(role: Option<string>)

  datatype Decision =
    | Pass                    // `NextResponse.next()`, or the inner middleware returning nothing
    | Redirect(to: string)    // `NextResponse.redirect`
    | SignIn                  // `withAuth` refusing: redirect to the "/login" sign-in page

  predicate HasRole(token: Option<Token>, role: string) {
    token.Some? && token.value.role == Some(role)
  }

  /** `config.matcher`: "/admin/:path*", "/checkout", "/cart", "/stylist", "/stylist/:path*". */
  predicate Matched(path: string): (r: bool)
    ensures r ==> StartsWith(path, "/admin") || StartsWith(path, "/stylist") || path == "/checkout" || path == "/cart"
    ensures StartsWith(path, "/checkout/") || StartsWith(path, "/cart/") ==> !r
  {
    assert StartsWith(path, "/checkout/") ==> |path| >= 10 && path[1] == 'c' && path[2] == 'h';
    assert StartsWith(path, "/cart/") ==> |path| >= 6 && path[1] == 'c' && path[2] == 'a';
    || path == "/admin" || StartsWith(path, "/admin/")
    || path == "/checkout" || path == "/cart"
    || path == "/stylist" || StartsWith(path, "/stylist/")
  }

  /** The `authorized` callback of `withAuth`. */
  predicate Authorized(path: string, token: Option<Token>): (r: bool)
    ensures path == "/admin/login" ==> r
    ensures path != "/admin/login" && StartsWith(path, "/admin") ==> (r <==> HasRole(token, "admin"))
    ensures !StartsWith(path, "/admin") ==> (r <==> token.Some?)
    ensures r ==> path == "/admin/login" || token.Some?
  {
    if path == "/admin/login" then true
    else if StartsWith(path, "/admin") then token.Some? && HasRole(token, "admin")
    else token.Some?
  }

  /** The inner middleware, run only for authorised requests. */
  function Inner(path: string, token: Option<Token>): (d: Decision)
    ensures d == Pass || d == Redirect("/")
    ensures d == Redirect("/") <==> path != "/admin/login" && StartsWith(path, "/admin") && !HasRole(token, "admin")
  {
    if path == "/admin/login" then Pass
    else if StartsWith(path, "/admin") && !HasRole(token, "admin") then Redirect("/")
    else Pass
  }

  /** `withAuthMiddleware`: the callback decides, then the inner middleware runs. */
  function WithAuth(path: string, token: Option<Token>): (d: Decision)
    ensures d == SignIn <==> !Authorized(path, token)
    ensures Authorized(path, token) ==> d == Inner(path, token)
  {
    if !Authorized(path, token) then SignIn else Inner(path, token)
  }

  /**
   * The default middleware: the stylist login and application pages always
   * pass, the rest of "/stylist" needs the "stylist" role, and everything
   * else goes through `withAuth`.
   */
  function Route(path: string, token: Option<Token>): (d: Decision)
    ensures path == "/stylist/login" || path == "/stylist/apply" ==> d == Pass
    ensures StartsWith(path, "/stylist") && path != "/stylist/login" && path != "/stylist/apply" ==>
              (d == Pass <==> HasRole(token, "stylist")) && (d != Pass ==> d == Redirect("/stylist/login"))
    ensures !StartsWith(path, "/stylist") ==> d == WithAuth(path, token)
  {
    if path == "/stylist/login" || path == "/stylist/apply" then Pass
    else if StartsWith(path, "/stylist") then
      if HasRole(token, "stylist") then Pass else Redirect("/stylist/login")
    else WithAuth(path, token)
  }

  /** A request as a whole: paths outside the matcher never reach the middleware. */
  function Handle(path: string, token: Option<Token>): (d: Decision)
    ensures !Matched(path) ==> d == Pass
    ensures Matched(path) ==> d == Route(path, token)
  {
    if Matched(path) then Route(path, token) else Pass
  }

  // ---------------------------------------------------------------------
  // Properties
  // ---------------------------------------------------------------------

  /** The admin login page is always let through. */
  lemma AdminLoginAlwaysPasses(token: Option<Token>)
    ensures Handle("/admin/login", token) == Pass
  {
    assert Matched("/admin/login") by { assert "/admin/login"[..7] == "/admin/"; }
    assert !StartsWith("/admin/login", "/stylist") by { assert "/admin/login"[1] != "/stylist"[1]; }
  }

  /** Any other admin page passes exactly for an admin token; the rest are sent to sign in. */
  lemma AdminPagesNeedAdmin(path: string, token: Option<Token>)
    requires StartsWith(path, "/admin/") && path != "/admin/login"
    ensures Handle(path, token) == Pass <==> HasRole(token, "admin")
    ensures !HasRole(token, "admin") ==> Handle(path, token) == SignIn
  {
    assert !StartsWith(path, "/stylist") by { assert path[1] == 'a'; }
    assert StartsWith(path, "/admin") by { assert path[..6] == path[..7][..6]; }
  }

  /** The inner redirect to "/" is dead code: `authorized` has already refused every non-admin. */
  lemma InnerRedirectUnreachable(path: string, token: Option<Token>)
    ensures WithAuth(path, token) != Redirect("/")
  {
  }

  /** The checkout and cart pages need a token, of any role. */
  lemma CheckoutAndCartNeedToken(path: string, token: Option<Token>)
    requires path == "/checkout" || path == "/cart"
    ensures Handle(path, token) == (if token.Some? then Pass else SignIn)
  {
    assert !StartsWith(path, "/stylist") by { assert path[1] != 's'; }
    assert !StartsWith(path, "/admin") by { assert path[1] != 'a'; }
  }

  /** The stylist login and application pages pass even without a token. */
  lemma StylistPublicPages(token: Option<Token>)
    ensures Handle("/stylist/login", token) == Pass
    ensures Handle("/stylist/apply", token) == Pass
  {
    assert "/stylist/login"[..9] == "/stylist/";
    assert "/stylist/apply"[..9] == "/stylist/";
  }

  /** Other stylist pages pass only with the stylist role: an admin token is redirected too. */
  lemma StylistPagesNeedStylist(path: string, token: Option<Token>)
    requires path == "/stylist" || (StartsWith(path, "/stylist/") && path != "/stylist/login" && path != "/stylist/apply")
    ensures Handle(path, token) == (if HasRole(token, "stylist") then Pass else Redirect("/stylist/login"))
  {
    assert StartsWith(path, "/stylist") by {
      if path != "/stylist" { assert path[..8] == path[..9][..8]; }
    }
  }
}
