/**
 * The route guard of src/middleware.ts: from whether the request carries a
 * session and its path, decide between a redirect and letting it through.
 */
module Middleware {

  datatype Response = PassThrough | Redirect(location: string)

  const EntryPath := "/"
  const DashboardPath := "/dashboard"

  /** `s` begins with `prefix`. */
  predicate HasPrefix(s: string, prefix: string)
  {
    |prefix| <= |s| && s[..|prefix|] == prefix
  }

  /**
   * The matcher `["/", "/dashboard/:path*", "/ikigai/:path*"]`: the entry page
   * and the two protected trees, each with zero or more further segments.
   */
  predicate Matches(path: string)
    ensures Matches(path) ==> HasPrefix(path, "/")
    ensures Matches(path) && path != EntryPath ==> HasPrefix(path, DashboardPath) || HasPrefix(path, "/ikigai")
  {
    || path == EntryPath
    || path == "/dashboard" || HasPrefix(path, "/dashboard/")
    || path == "/ikigai" || HasPrefix(path, "/ikigai/")
  }

  /**
   * The decision of `middleware`: signed-out visitors are sent to the entry
   * page from anywhere else, signed-in visitors are sent from the entry page
   * to the dashboard, and every other request goes through.
   */
  function Decide(session: bool, pathname: string): (r: Response)
    ensures r.PassThrough? <==> (session <==> pathname != EntryPath)
    ensures r.Redirect? ==> r.location != pathname
    ensures r.Redirect? ==> r.location == (if session then DashboardPath else EntryPath)
  {
    if !session && pathname != EntryPath then Redirect(EntryPath)
    else if session && pathname == EntryPath then Redirect(DashboardPath)
    else PassThrough
  }

  /** The middleware as the framework runs it: only on matched paths. */
  function Handle(session: bool, pathname: string): (r: Response)
    ensures !Matches(pathname) ==> r.PassThrough?
    ensures Matches(pathname) && pathname != EntryPath && !session ==> r == Redirect(EntryPath)
  {
    if Matches(pathname) then Decide(session, pathname) else PassThrough
  }

  /** A redirect is never followed by another one: its target passes the guard. */
  lemma NoRedirectChain(session: bool, pathname: string)
    requires Handle(session, pathname).Redirect?
    ensures Matches(Handle(session, pathname).location)
    ensures Handle(session, Handle(session, pathname).location) == PassThrough
  {
    var target := Handle(session, pathname).location;
    if session {
      assert target == "/dashboard";
    } else {
      assert target == "/";
    }
  }
}
