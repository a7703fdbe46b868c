/** The two client-side routes the session logic sends the browser to. */
module Routes {

  datatype Route = AuthRoute | DashboardRoute

  function Path(r: Route): (p: string)
    ensures |p| > 1 && p[0] == '/'
    ensures r == AuthRoute <==> p == "/auth"
    ensures r == DashboardRoute <==> p == "/dashboard"
  {
    match r
    case AuthRoute => "/auth"
    case DashboardRoute => "/dashboard"
  }
}
