/** The session reconciler: `authenticate_or_redirect` (the `authenticate` filter) and
    `validate_shib_session` (the `init` action), with each `wp_safe_redirect(…); exit();`
    returned as an outcome carrying the target URL, and their composition over one
    request as WordPress runs the hooks: `init` on every request, `authenticate` only on
    a login attempt, both only when the `enabled` gate installed them. */
module Reconciler {
  import opened PhpValues
  import opened Config
  import opened ShibSession
  import opened InitiatorUrl
  import opened UserStore
  import opened Provisioner

  /** What a request shows the plugin: the server variables, the GET parameters and
      whether `is_user_logged_in()` holds. */
  datatype Request = Request(server: map<string, string>, query: map<string, ByteString>, wpLoggedIn: bool)

  const HomeUrl := "/"

  /** The three branches of `authenticate_or_redirect`. */
  datatype AuthBranch = RedirectHome | LoginToWordPress | RedirectToIdp

  /** The branch taken: the first two tests, and everything else falls through to the
      IdP redirect, logged in at WordPress but not at the IdP included. */
  function AuthenticateBranch(wpLoggedIn: bool, idpActive: bool): (b: AuthBranch)
    ensures b == RedirectHome <==> wpLoggedIn && idpActive
    ensures b == LoginToWordPress <==> !wpLoggedIn && idpActive
    ensures b == RedirectToIdp <==> !idpActive
  {
    if wpLoggedIn && idpActive then RedirectHome
    else if !wpLoggedIn && idpActive then LoginToWordPress
    else RedirectToIdp
  }

  /** A redirect ends the request (`exit()`); a returned value goes back to WordPress. */
  datatype AuthOutcome = Redirect(url: string) | Returned(result: LoginResult)

  /** `authenticate_or_redirect` on the site state `s`. */
  function Authenticate(c: Config, s: SiteState, req: Request, site: SiteContext, pass: string, accepts: bool)
    : (r: (SiteState, AuthOutcome))
    requires ValidUsers(s.users, s.nextId)
    ensures ValidUsers(r.0.users, r.0.nextId)
    ensures r.1.Returned? <==> !req.wpLoggedIn && IsShibSessionActive(req.server)
    ensures r.1.Redirect? ==> r.0 == s
    ensures req.wpLoggedIn && IsShibSessionActive(req.server) ==> r.1 == Redirect(HomeUrl)
    ensures !IsShibSessionActive(req.server) ==>
      r.1 == Redirect(GetInitiatorUrl(c, site, RedirectToParam(req.query)))
    ensures !req.wpLoggedIn && IsShibSessionActive(req.server) ==>
      (r.0, r.1.result) == Provision(s, ReadAssertion(req.server), c.autoprovision, pass, accepts)
  {
    var active := IsShibSessionActive(req.server);
    match AuthenticateBranch(req.wpLoggedIn, active)
    case RedirectHome => (s, Redirect(HomeUrl))
    case LoginToWordPress =>
      var p := Provision(s, ReadAssertion(req.server), c.autoprovision, pass, accepts);
      (p.0, Returned(p.1))
    case RedirectToIdp => (s, Redirect(GetInitiatorUrl(c, site, RedirectToParam(req.query))))
  }

  /** What `validate_shib_session` does: nothing, or `wp_logout()` and a redirect to "/". */
  datatype InitOutcome = Continue | LogoutAndRedirect(url: string)

  /** `validate_shib_session`: the only place that logs out. */
  function ValidateShibSession(wpLoggedIn: bool, idpActive: bool): (o: InitOutcome)
    ensures o.LogoutAndRedirect? <==> wpLoggedIn && !idpActive
    ensures o.LogoutAndRedirect? ==> o.url == HomeUrl
  {
    if wpLoggedIn && !idpActive then LogoutAndRedirect(HomeUrl) else Continue
  }

  /** What one request comes to: the plugin did nothing, it logged out at `init`,
      its `authenticate` filter decided, or (gate closed) WordPress's own
      authentication ran. */
  datatype Reconciliation =
    | PassThrough
    | ForcedLogout(url: string)
    | Authentication(outcome: AuthOutcome)
    | WordPressDefault

  /** One request: `init` first, then, on a login attempt, `authenticate`. With the
      gate closed neither hook is installed. */
  function Reconcile(c: Config, s: SiteState, req: Request, site: SiteContext, pass: string, accepts: bool,
                     loginAttempt: bool)
    : (r: (SiteState, Reconciliation))
    requires ValidUsers(s.users, s.nextId)
    ensures ValidUsers(r.0.users, r.0.nextId)
    // gate closed: neither the authenticate filter nor the init check is installed,
    // so WordPress's own password check runs
    ensures !HandlersInstalled(c) ==>
      r.0 == s && r.1 == (if loginAttempt then WordPressDefault else PassThrough)
    // logged in locally, no IdP session: logged out on every request
    ensures HandlersInstalled(c) && req.wpLoggedIn && !IsShibSessionActive(req.server) ==>
      r.0 == s && r.1 == ForcedLogout(HomeUrl)
    // both sessions, on a login attempt: redirect to "/", not a pass-through
    ensures HandlersInstalled(c) && loginAttempt && req.wpLoggedIn && IsShibSessionActive(req.server) ==>
      r.0 == s && r.1 == Authentication(Redirect(HomeUrl))
    // IdP session only, on a login attempt: the provisioner's result
    ensures HandlersInstalled(c) && loginAttempt && !req.wpLoggedIn && IsShibSessionActive(req.server) ==>
      (r.0, r.1) == (var p := Provision(s, ReadAssertion(req.server), c.autoprovision, pass, accepts);
                     (p.0, Authentication(Returned(p.1))))
    // no session anywhere, on a login attempt: off to the IdP
    ensures HandlersInstalled(c) && loginAttempt && !req.wpLoggedIn && !IsShibSessionActive(req.server) ==>
      r.0 == s && r.1 == Authentication(Redirect(GetInitiatorUrl(c, site, RedirectToParam(req.query))))
    // any other request passes through untouched
    ensures HandlersInstalled(c) && !loginAttempt && !(req.wpLoggedIn && !IsShibSessionActive(req.server)) ==>
      r.0 == s && r.1 == PassThrough
  {
    if !HandlersInstalled(c) then
      (s, if loginAttempt then WordPressDefault else PassThrough)
    else
      match ValidateShibSession(req.wpLoggedIn, IsShibSessionActive(req.server))
      case LogoutAndRedirect(url) => (s, ForcedLogout(url))
      case Continue =>
        if !loginAttempt then (s, PassThrough)
        else
          var a := Authenticate(c, s, req, site, pass, accepts);
          (a.0, Authentication(a.1))
  }

  /** Because `init` runs first and exits, the IdP-redirect branch of the
      `authenticate` filter is never reached by a user logged in at WordPress. */
  lemma IdpRedirectOnlyWhenLoggedOut(c: Config, s: SiteState, req: Request, site: SiteContext,
                                     pass: string, accepts: bool)
    requires ValidUsers(s.users, s.nextId)
    requires HandlersInstalled(c)
    requires Reconcile(c, s, req, site, pass, accepts, true).1.Authentication?
    requires Reconcile(c, s, req, site, pass, accepts, true).1.outcome.Redirect?
    requires Reconcile(c, s, req, site, pass, accepts, true).1.outcome.url != HomeUrl
    ensures !req.wpLoggedIn && !IsShibSessionActive(req.server)
  {
  }
}
