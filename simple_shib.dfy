/** The `Simple_Shib` object: the configuration its constructor loads, the `enabled`
    gate, and the two methods that run against the WordPress site state. */
module SimpleShibPlugin {
  import opened PhpValues
  import opened Config
  import opened ShibSession
  import opened InitiatorUrl
  import opened UserStore
  import opened Provisioner
  import opened Reconciler

  class SimpleShib {
    /** The private option fields. */
    const config: Config
    /** Whether the constructor added the `authenticate` filter and the `init` and
        `login_form_logout` actions. */
    const ssoHooksAdded: bool

    /** `__construct`: read the options, then install the SSO hooks only behind the
        strict `true === enabled` test. */
    constructor (options: map<string, PhpValue>)
      ensures config == LoadConfig(options)
      ensures ssoHooksAdded <==> EnabledOption in options && options[EnabledOption] == Bool(true)
    {
      config := LoadConfig(options);
      ssoHooksAdded := LoadConfig(options).enabled == Bool(true);
    }

    /** `login_to_wordpress`, step by step against the site: look the user up, deny,
        or insert the record and return the stored user. */
    method LoginToWordPress(site: WpSite, server: map<string, string>, pass: string, accepts: bool)
      returns (r: LoginResult)
      requires site.Valid() && IsShibSessionActive(server)
      modifies site
      ensures site.Valid()
      ensures (site.State(), r)
           == Provision(old(site.State()), ReadAssertion(server), config.autoprovision, pass, accepts)
    {
      var shib := ReadAssertion(server);
      var found := site.GetUserBy(shib.username);
      if found.None? && config.autoprovision == Bool(false) {
        site.FireLoginFailed(shib.username);
        return AccessDenied;
      }
      var data := UserRecord(shib, pass);
      var id: Option<nat>;
      var op: StoreOperation;
      if found.Some? {
        id, op := Some(found.value.id), Syncing;
      } else {
        id, op := None, Creating;
      }
      var newUser := site.InsertUser(data, id, accepts);
      if newUser.None? {
        site.FireLoginFailed(shib.username);
        r := StoreError(op);
      } else {
        r := Authenticated(site.users[shib.username]);
      }
    }

    /** `authenticate_or_redirect`: a redirect outcome ends the request; only the
        IdP-session-without-WordPress-session case returns, with the provisioner's result. */
    method AuthenticateOrRedirect(site: WpSite, req: Request, ctx: SiteContext, pass: string, accepts: bool)
      returns (o: AuthOutcome)
      requires site.Valid()
      modifies site
      ensures site.Valid()
      ensures (site.State(), o) == Authenticate(config, old(site.State()), req, ctx, pass, accepts)
    {
      if req.wpLoggedIn && IsShibSessionActive(req.server) {
        return Redirect(HomeUrl);
      }
      if !req.wpLoggedIn && IsShibSessionActive(req.server) {
        var loginObj := LoginToWordPress(site, req.server, pass, accepts);
        return Returned(loginObj);
      }
      if RedirectToKey in req.query {
        o := Redirect(GetInitiatorUrl(config, ctx, Some(req.query[RedirectToKey])));
      } else {
        o := Redirect(GetInitiatorUrl(config, ctx, None));
      }
    }
  }
}
