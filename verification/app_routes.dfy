/**
 * The client's route table and its two guards, and the page a visit to any
 * path finally shows once redirects have been followed.
 */
module App {
  import AuthContext

  const LoginPath: string := "/login"
  const DashboardPath: string := "/dashboard"

  datatype Page = LoginPage | DashboardPage

  /** What a route renders: the loading spinner, a replacing redirect, or a page. */
  datatype View = Spinner | Redirect(to: string) | Render(page: Page)

  /** Guard for pages that need a user: spinner while loading, else the page or `/login`. */
  function ProtectedRoute(s: AuthContext.State, page: Page): (v: View)
    ensures v.Render? <==> !s.isLoading && AuthContext.IsAuthenticated(s)
    ensures v.Render? ==> v.page == page
    ensures v.Redirect? ==> v.to == LoginPath
  {
    if s.isLoading then Spinner
    else if !AuthContext.IsAuthenticated(s) then Redirect(LoginPath)
    else Render(page)
  }

  /** Guard for pages only for visitors: spinner while loading, else the page or `/dashboard`. */
  function PublicRoute(s: AuthContext.State, page: Page): (v: View)
    ensures v.Render? <==> !s.isLoading && !AuthContext.IsAuthenticated(s)
    ensures v.Render? ==> v.page == page
    ensures v.Redirect? ==> v.to == DashboardPath
  {
    if s.isLoading then Spinner
    else if AuthContext.IsAuthenticated(s) then Redirect(DashboardPath)
    else Render(page)
  }

  /** The route table: `/login` public, `/dashboard` protected, `/` and every other path to `/dashboard`. */
  function Route(path: string, s: AuthContext.State): (v: View)
    ensures path != LoginPath && path != DashboardPath ==> v == Redirect(DashboardPath)
    ensures v.Render? ==> (v.page == LoginPage <==> path == LoginPath)
  {
    if path == LoginPath then PublicRoute(s, LoginPage)
    else if path == DashboardPath then ProtectedRoute(s, DashboardPage)
    else Redirect(DashboardPath)
  }

  /** Where a visit ends: the final path and what it shows. */
  datatype Landing = Landing(path: string, view: View)

  /** Follow redirects from `path`, at most `hops` of them. */
  function Follow(path: string, s: AuthContext.State, hops: nat): (l: Landing)
    ensures l.view == Route(l.path, s)
    decreases hops
  {
    var v := Route(path, s);
    if v.Redirect? && hops > 0 then Follow(v.to, s, hops - 1) else Landing(path, v)
  }

  /** The page a settled visit shows, by authentication status. */
  function Home(s: AuthContext.State): Landing {
    if AuthContext.IsAuthenticated(s) then Landing(DashboardPath, Render(DashboardPage))
    else Landing(LoginPath, Render(LoginPage))
  }

  /**
   * Once loading is over, any path settles within two redirects on the
   * dashboard for a user and on the login page otherwise.
   */
  lemma {:induction false} VisitsSettle(path: string, s: AuthContext.State, hops: nat)
    requires !s.isLoading && hops >= 2
    ensures Follow(path, s, hops) == Home(s)
  {
    var v := Route(path, s);
    if AuthContext.IsAuthenticated(s) {
      if path != DashboardPath {
        assert v == Redirect(DashboardPath);
        assert Follow(DashboardPath, s, hops - 1) == Landing(DashboardPath, Render(DashboardPage));
      }
    } else {
      if path != LoginPath {
        assert v.to == DashboardPath || v.to == LoginPath;
        assert Follow(LoginPath, s, hops - 2) == Landing(LoginPath, Render(LoginPage));
        if v.to == DashboardPath {
          assert Route(DashboardPath, s) == Redirect(LoginPath);
          assert Follow(DashboardPath, s, hops - 1) == Follow(LoginPath, s, hops - 2);
        }
      }
    }
  }

  /** Redirects never cycle: more hops than two change nothing. */
  lemma {:induction false} NoRedirectCycle(path: string, s: AuthContext.State, hops: nat)
    requires hops >= 2
    ensures Follow(path, s, hops) == Follow(path, s, 2)
  {
    if s.isLoading {
      LoadingShowsSpinner(path, s, hops);
      LoadingShowsSpinner(path, s, 2);
    } else {
      VisitsSettle(path, s, hops);
      VisitsSettle(path, s, 2);
    }
  }

  /**
   * While loading, guarded pages show the spinner; the catch-all redirect
   * to `/dashboard` still applies, and leads to the spinner too.
   */
  lemma LoadingShowsSpinner(path: string, s: AuthContext.State, hops: nat)
    requires s.isLoading && hops >= 1
    ensures Follow(path, s, hops).view == Spinner
    ensures Follow(path, s, hops).path == (if path == LoginPath then LoginPath else DashboardPath)
  {
  }
}
