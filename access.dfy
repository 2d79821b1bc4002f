/**
 * Request-level access decisions: the `group_required` view guard and the two
 * middlewares (the `/admin/` gate and the `Accept-Ranges` header on media).
 * A guard either redirects or hands back the downstream response untouched.
 */
module Access {
  import opened Text

  /** `request.user`: the anonymous user, or an account with its flags and group names. */
  datatype Requester = Anonymous | Authenticated(pk: nat, isStaff: bool, isSuperuser: bool, groups: set<string>)

  /** Where a redirect goes: a named route, or a literal URL. */
  datatype Target = Route(name: string) | Url(url: string)

  /** A guard's outcome: a redirect (the wrapped handler is not called) or the handler's own response. */
  datatype Guarded<R> = Redirect(to: Target) | Serve(response: R)

  const LoginRoute: string := "N_inicio_sesion"

  const HomeRoute: string := "N_inicio"

  const AdminPrefix: string := "/admin/"

  const MediaPrefix: string := "/media/"

  const AcceptRanges: string := "Accept-Ranges"

  /** `user.is_superuser`; the anonymous user has no flags. */
  predicate IsSuperuser(u: Requester) {
    u.Authenticated? && u.isSuperuser
  }

  /** `user.is_staff`. */
  predicate IsStaff(u: Requester) {
    u.Authenticated? && u.isStaff
  }

  /**
   * `group_required(group)` around a view whose response would be
   * `viewResponse`; `loginUrl` is `reverse("N_inicio_sesion")` and `fullPath`
   * is `request.get_full_path()`.
   */
  function GroupRequired<R>(group: string, u: Requester, loginUrl: string, fullPath: string, viewResponse: R): (g: Guarded<R>)
    ensures u.Anonymous? ==> g == Redirect(Url(loginUrl + "?next=" + fullPath))
    ensures g.Serve? <==> u.Authenticated? && (group in u.groups || u.isSuperuser)
    ensures g.Serve? ==> g.response == viewResponse
    ensures u.Authenticated? && g.Redirect? ==> g.to == Route(HomeRoute)
  {
    if u.Anonymous? then Redirect(Url(loginUrl + "?next=" + fullPath))
    else if group in u.groups || u.isSuperuser then Serve(viewResponse)
    else Redirect(Route(HomeRoute))
  }

  /** More groups, or the superuser flag, never take access away. */
  lemma GroupRequiredMonotone<R>(group: string, u: Requester, v: Requester, loginUrl: string, fullPath: string, resp: R)
    requires u.Authenticated? && v.Authenticated?
    requires u.groups <= v.groups && (u.isSuperuser ==> v.isSuperuser)
    requires GroupRequired(group, u, loginUrl, fullPath, resp).Serve?
    ensures GroupRequired(group, v, loginUrl, fullPath, resp) == Serve(resp)
  {
  }

  /** `RedirectNoSuperuser.__call__`, with `next` the response `get_response(request)` would give. */
  function AdminGate<R>(path: string, u: Requester, next: R): (g: Guarded<R>)
    ensures !StartsWith(path, AdminPrefix) ==> g == Serve(next)
    ensures StartsWith(path, AdminPrefix) ==> (g.Serve? <==> IsSuperuser(u))
    ensures g.Serve? ==> g.response == next
    ensures g.Redirect? ==> g.to == Route(LoginRoute)
  {
    if StartsWith(path, AdminPrefix) && !IsSuperuser(u) then Redirect(Route(LoginRoute))
    else Serve(next)
  }

  /** A response object whose headers a middleware may set. */
  class Response {
    var headers: map<string, string>

    constructor (headers: map<string, string>)
      ensures this.headers == headers
    {
      this.headers := headers;
    }
  }

  /** The headers after `RangeRequestMiddleware` on a request for `path`. */
  function RangeHeaders(path: string, headers: map<string, string>): (h: map<string, string>)
    ensures StartsWith(path, MediaPrefix) ==> AcceptRanges in h && h[AcceptRanges] == "bytes"
    ensures !StartsWith(path, MediaPrefix) ==> h == headers
    ensures h.Keys == headers.Keys + (if StartsWith(path, MediaPrefix) then {AcceptRanges} else {})
    ensures forall k | k in headers && k != AcceptRanges :: h[k] == headers[k]
  {
    if StartsWith(path, MediaPrefix) then headers[AcceptRanges := "bytes"] else headers
  }

  /** Applying the middleware twice is applying it once. */
  lemma RangeHeadersIdempotent(path: string, headers: map<string, string>)
    ensures RangeHeaders(path, RangeHeaders(path, headers)) == RangeHeaders(path, headers)
  {
  }

  /**
   * `RangeRequestMiddleware.__call__`: `response` is what the next handler
   * returned; the same object comes back, with the header set on media paths.
   */
  method RangeRequest(path: string, response: Response) returns (r: Response)
    modifies response
    ensures r == response
    ensures response.headers == RangeHeaders(path, old(response.headers))
  {
    if StartsWith(path, MediaPrefix) {
      response.headers := response.headers[AcceptRanges := "bytes"];
    }
    r := response;
  }
}
