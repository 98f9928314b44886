/** The route table and its guard (src/routes/index.tsx). */
module Routes {
  import opened Common
  import opened AuthTypes
  import opened AuthContext

  /** What the guard renders in place of its children. */
  datatype View = Loading | Redirect(to: string, replace: bool) | RenderChildren

  const LoginPath := "/login"

  /** The private-route guard: wait while loading, send a visitor without a
      user to the login page (replacing the history entry), else render the
      guarded page. */
  function PrivateRoute(isLoading: bool, user: Option<User>): (v: View)
    ensures isLoading ==> v == Loading
    ensures !isLoading && user.None? ==> v == Redirect(LoginPath, true)
    ensures v == RenderChildren <==> !isLoading && user.Some?
  {
    if isLoading then Loading
    else if user.None? then Redirect(LoginPath, true)
    else RenderChildren
  }

  /** The pages of the application. */
  datatype Page = LoginPage | RegisterPage | HomePage | ProfilePage

  /** What is shown where the matched route renders. */
  datatype Element = LoadingScreen | Navigate(to: string, replace: bool) | Show(page: Page)

  /** A matched route renders `element`, inside the shared layout or not; an
      unmatched path renders nothing. */
  datatype Screen = NoMatch | Matched(inLayout: bool, element: Element)

  /** The route table: login and register stand alone; home (the index route)
      and profile sit inside the layout, and only profile is guarded. Paths are
      taken as already normalised. */
  function Render(path: string, s: Session): (r: Screen)
    ensures r.Matched? <==> path in {"/login", "/register", "/", "/profile"}
    ensures r.Matched? && r.element.Show? ==> (r.element.page == ProfilePage <==> path == "/profile")
    ensures path == "/login" ==> r == Matched(false, Show(LoginPage))
    ensures path == "/register" ==> r == Matched(false, Show(RegisterPage))
    ensures path == "/" ==> r == Matched(true, Show(HomePage))
    ensures path == "/profile" ==> r.Matched? && r.inLayout
    ensures path == "/profile" ==>
      (r.element == Show(ProfilePage) <==> PrivateRoute(s.isLoading, s.user) == RenderChildren)
    ensures path == "/profile" && PrivateRoute(s.isLoading, s.user) == Loading ==> r.element == LoadingScreen
    ensures path == "/profile" && PrivateRoute(s.isLoading, s.user).Redirect? ==>
      r.element == Navigate(PrivateRoute(s.isLoading, s.user).to, PrivateRoute(s.isLoading, s.user).replace)
  {
    if path == "/login" then Matched(false, Show(LoginPage))
    else if path == "/register" then Matched(false, Show(RegisterPage))
    else if path == "/" then Matched(true, Show(HomePage))
    else if path == "/profile" then
      Matched(true,
        match PrivateRoute(s.isLoading, s.user)
        case Loading => LoadingScreen
        case Redirect(to, replace) => Navigate(to, replace)
        case RenderChildren => Show(ProfilePage))
    else NoMatch
  }

  /** The profile page is shown exactly when the path is `/profile`, loading is
      over and there is a user. */
  lemma ProfileShownIff(path: string, s: Session)
    ensures Render(path, s) == Matched(true, Show(ProfilePage)) <==>
      path == "/profile" && !s.isLoading && s.user.Some?
  {
  }

  /** Every route but `/profile` renders the same whatever the session. */
  lemma OnlyProfileIsGuarded(path: string, s1: Session, s2: Session)
    requires path != "/profile"
    ensures Render(path, s1) == Render(path, s2)
  {
  }

  /** While the session is loading, `/profile` shows the loading screen whoever
      the user is, and once loading ends without a user it redirects to login. */
  lemma ProfileWhileLoadingOrSignedOut(s: Session)
    ensures s.isLoading ==> Render("/profile", s) == Matched(true, LoadingScreen)
    ensures !s.isLoading && s.user.None? ==> Render("/profile", s) == Matched(true, Navigate(LoginPath, true))
  {
  }
}
