/** The application's routes (App.tsx): `ProtectedRoute`, the guard in
    front of the dashboard, and the route table, followed through its
    redirects to the screen a path finally shows. */
module App {
  import opened Common
  import opened Auth

  /** What a route renders: one of the two pages, the loading screen, or a
      `<Navigate>` to another path. */
  datatype Element = LoginPage | DashboardPage | LoadingScreen | Navigate(to: string, replace: bool)

  /** `ProtectedRoute` around `child`, over the `loading` flag and the
      session it reads. */
  function Protect(loading: bool, session: bool, child: Element): (e: Element)
    ensures loading ==> e == LoadingScreen
    ensures !loading && !session ==> e == Navigate("/login", true)
    ensures !loading && session ==> e == child
  {
    if loading then LoadingScreen
    else if !session then Navigate("/login", true)
    else child
  }

  /** The session `ProtectedRoute` reads as written: `useAuth().session`, a
      property the context value does not have, so always `undefined`. */
  function SessionAsWritten(ctx: AuthContext): (s: bool)
    ensures !s
  {
    false
  }

  /** The session the guard evidently means: an admin is signed in. */
  function Session(ctx: AuthContext): (s: bool)
    ensures s <==> ctx.user.Some?
  {
    ctx.user.Some?
  }

  /** The route table: '/login' unguarded, '/dashboard' behind the guard,
      and any other path sent to '/dashboard' in place. */
  function Routes(path: string, loading: bool, session: bool): (e: Element)
    ensures path == "/login" ==> e == LoginPage
    ensures path == "/dashboard" ==> e == Protect(loading, session, DashboardPage)
    ensures path != "/login" && path != "/dashboard" ==> e == Navigate("/dashboard", true)
  {
    if path == "/login" then LoginPage
    else if path == "/dashboard" then Protect(loading, session, DashboardPage)
    else Navigate("/dashboard", true)
  }

  /** The element a path shows once the router has followed at most `hops`
      redirects. */
  function Follow(path: string, loading: bool, session: bool, hops: nat): Element
    decreases hops
  {
    var e := Routes(path, loading, session);
    if e.Navigate? && hops > 0 then Follow(e.to, loading, session, hops - 1) else e
  }

  /** The routes never loop: within two redirects every path settles on
      a page or on the loading screen, which one depending only on the
      path, the loading flag and the session. */
  lemma {:induction false} FollowSettles(path: string, loading: bool, session: bool)
    ensures !Follow(path, loading, session, 2).Navigate?
    ensures loading ==> Follow(path, loading, session, 2) == (if path == "/login" then LoginPage else LoadingScreen)
    ensures !loading && session ==> Follow(path, loading, session, 2) == (if path == "/login" then LoginPage else DashboardPage)
    ensures !loading && !session ==> Follow(path, loading, session, 2) == LoginPage
  {
    if path != "/login" && path != "/dashboard" {
      assert Follow(path, loading, session, 2) == Follow("/dashboard", loading, session, 1);
    }
    if path == "/dashboard" || path != "/login" {
      if !loading && !session {
        assert Follow("/dashboard", loading, session, 1) == Follow("/login", loading, session, 0);
        assert Follow("/dashboard", loading, session, 2) == Follow("/login", loading, session, 1);
      }
    }
  }

  /** As written, once loading is over every path ends on the login page,
      even for a signed-in admin: the dashboard is never shown. */
  lemma AsWrittenLocksOut(ctx: AuthContext, path: string)
    requires !ctx.loading
    ensures Routes("/dashboard", ctx.loading, SessionAsWritten(ctx)) == Navigate("/login", true)
    ensures Follow(path, ctx.loading, SessionAsWritten(ctx), 2) == LoginPage
  {
    FollowSettles(path, ctx.loading, SessionAsWritten(ctx));
  }

  /** The same for a concrete signed-in admin. */
  lemma AsWrittenSignedInRedirected()
    ensures var ctx := AuthContext(Some(AdminUser("1", None, None, None)), false, None);
      Follow("/dashboard", ctx.loading, SessionAsWritten(ctx), 2) == LoginPage
  {
    var ctx := AuthContext(Some(AdminUser("1", None, None, None)), false, None);
    AsWrittenLocksOut(ctx, "/dashboard");
  }

  /** With the guard reading the signed-in admin, the dashboard is shown
      exactly to a signed-in admin once loading is over, and every other
      visitor ends on the login page. */
  lemma GuardAdmitsSignedIn(ctx: AuthContext, path: string)
    requires !ctx.loading
    ensures path != "/login" ==> (Follow(path, ctx.loading, Session(ctx), 2) == DashboardPage <==> ctx.user.Some?)
    ensures ctx.user.None? ==> Follow(path, ctx.loading, Session(ctx), 2) == LoginPage
  {
    FollowSettles(path, ctx.loading, Session(ctx));
  }
}
