/**
 * The request middleware's redirect decision from whether a session is
 * present and the request's pathname.
 */
module Middleware {

  /** `s.startsWith(prefix)`. */
  predicate StartsWith(s: string, prefix: string) {
    |prefix| <= |s| && s[..|prefix|] == prefix
  }

  const LOGIN: string := "/auth/login"
  const ACCOUNT: string := "/account"

  datatype Response = PassThrough | Redirect(to: string)

  predicate IsAuthRoute(pathname: string) {
    StartsWith(pathname, "/auth")
  }

  predicate IsProtected(pathname: string) {
    StartsWith(pathname, "/account") || StartsWith(pathname, "/admin")
  }

  function Decide(hasSession: bool, pathname: string): Response {
    if !hasSession && IsProtected(pathname) then Redirect(LOGIN)
    else if hasSession && IsAuthRoute(pathname) then Redirect(ACCOUNT)
    else PassThrough
  }

  /**
   * Signed-out requests for /account… or /admin… go to the login page,
   * signed-in requests for /auth… go to the account page, and everything
   * else passes through.
   */
  lemma DecisionCases(hasSession: bool, pathname: string)
    ensures Decide(hasSession, pathname) == Redirect(LOGIN) <==> !hasSession && IsProtected(pathname)
    ensures Decide(hasSession, pathname) == Redirect(ACCOUNT) <==> hasSession && IsAuthRoute(pathname)
    ensures Decide(hasSession, pathname) == PassThrough <==>
      (hasSession || !IsProtected(pathname)) && (!hasSession || !IsAuthRoute(pathname))
  {
  }

  /** Helper for `RoutesDisjoint`: a path with a given prefix has that prefix's characters. */
  lemma PrefixCharacter(pathname: string, prefix: string, k: nat)
    ensures StartsWith(pathname, prefix) && k < |prefix| ==> pathname[k] == prefix[k]
  {
    if StartsWith(pathname, prefix) && k < |prefix| {
      assert pathname[..|prefix|][k] == pathname[k];
    }
  }

  /** No pathname is both an auth route and a protected one: "/au…" differs from "/ac…" and "/ad…". */
  lemma RoutesDisjoint(pathname: string)
    ensures !(IsAuthRoute(pathname) && IsProtected(pathname))
  {
    PrefixCharacter(pathname, "/auth", 2);
    PrefixCharacter(pathname, "/account", 2);
    PrefixCharacter(pathname, "/admin", 2);
  }

  /** A redirect never sends the request to a path that the same session would redirect again. */
  lemma {:induction false} RedirectTargetsSettle(hasSession: bool, pathname: string)
    ensures Decide(hasSession, pathname).Redirect? ==> Decide(hasSession, Decide(hasSession, pathname).to) == PassThrough
  {
    if Decide(hasSession, pathname).Redirect? {
      var to := Decide(hasSession, pathname).to;
      if hasSession {
        assert to == ACCOUNT;
        RoutesDisjoint(to);
        assert !StartsWith(to, "/auth") by { assert to[2] != "/auth"[2]; }
      } else {
        assert to == LOGIN;
        assert to[2] == 'u';
        assert !StartsWith(to, "/account") by { assert "/account"[2] == 'c'; }
        assert !StartsWith(to, "/admin") by { assert "/admin"[2] == 'd'; }
      }
    }
  }
}
