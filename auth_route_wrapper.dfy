/** src/core/components/auth/AuthRouteWrapper.tsx: what a guarded route
    shows, and when it asks the auth store to initialise. */
module AuthRouteWrapper {
  import opened Types
  import opened AuthStore

  /** What the wrapper renders: the loading view, a redirect, or its children. */
  datatype View = LoadingView | Redirect(to: string) | Children

  /** The render decision over the auth flags and the route's two props. */
  function RouteView(isLoading: bool, isAuthenticated: bool, publicOnly: bool, protectedRoute: bool): (v: View)
    ensures v == LoadingView <==> isLoading
    ensures v == Redirect("/todos") <==> !isLoading && publicOnly && isAuthenticated
    ensures v == Redirect("/login") <==> !isLoading && !isAuthenticated && protectedRoute
    ensures v == Children <==> !isLoading && !(publicOnly && isAuthenticated) && !(protectedRoute && !isAuthenticated)
    ensures v.Redirect? ==> v.to == "/todos" || v.to == "/login"
  {
    if isLoading then LoadingView
    else if publicOnly && isAuthenticated then Redirect("/todos")
    else if protectedRoute && !isAuthenticated then Redirect("/login")
    else Children
  }

  /** The mount effect calls `authStore_initializeAuth` only when the
      store says unauthenticated and not loading while a truthy email is stored. */
  function ShouldInitialize(isAuthenticated: bool, isLoading: bool, storedUser: Option<string>): (b: bool)
    ensures b ==> storedUser.Some? && storedUser.value != ""
    ensures b <==> !isAuthenticated && !isLoading && TruthyOpt(storedUser)
  {
    !isAuthenticated && !isLoading && TruthyOpt(storedUser)
  }

  /** The public-only check wins over the protected check: a route with
      both props and an authenticated user goes to the todo list. */
  lemma PublicOnlyBeforeProtected(isAuthenticated: bool)
    ensures RouteView(false, true, true, true) == Redirect("/todos")
    ensures RouteView(true, isAuthenticated, true, true) == LoadingView
  {
  }

  /** The mount effect run against the auth store: a settled, signed-out
      store with a truthy stored email initialises and becomes
      authenticated; otherwise nothing moves. Storage is only read. */
  method MountEffect(auth: Auth)
    modifies auth
    ensures auth.isAuthenticated ==
      (old(auth.isAuthenticated) || (!old(auth.isLoading) && TruthyOpt(auth.storage.loggedIn)))
    ensures auth.isLoading == old(auth.isLoading)
    ensures ShouldInitialize(old(auth.isAuthenticated), old(auth.isLoading), auth.storage.loggedIn) ==>
      auth.isAuthenticated && auth.error == None
    ensures !ShouldInitialize(old(auth.isAuthenticated), old(auth.isLoading), auth.storage.loggedIn) ==>
      unchanged(auth)
    ensures !old(auth.isLoading) ==>
      RouteView(auth.isLoading, auth.isAuthenticated, false, true) ==
        (if old(auth.isAuthenticated) || TruthyOpt(auth.storage.loggedIn) then Children else Redirect("/login"))
  {
    if ShouldInitialize(auth.isAuthenticated, auth.isLoading, auth.storage.loggedIn) {
      auth.InitializeAuth();
    }
  }
}
