/** The account provisioner `login_to_wordpress`, as a function from the site state
    before the call to the site state after it and the authentication result:
    find the user by login, deny an unknown user when autoprovisioning is off,
    otherwise write the record built from the IdP attributes, updating the found
    user under its ID or creating a new one. */
module Provisioner {
  import opened PhpValues
  import opened ShibSession
  import opened UserStore

  /** The store operation that failed, named in the error message. */
  datatype StoreOperation = Creating | Syncing

  /** What `login_to_wordpress` returns: one of its two `WP_Error`s, or the `WP_User`. */
  datatype LoginResult = AccessDenied | StoreError(operation: StoreOperation) | Authenticated(user: User)

  datatype WpError = WpError(code: string, message: string)

  function OperationText(op: StoreOperation): string
  {
    match op
    case Creating => "creating"
    case Syncing => "syncing"
  }

  const AccessDeniedMessage := "<strong>Access Denied.</strong> Your login credentials are correct, but you do not have authorization to access this site."
  const StoreErrorPrefix := "<strong>ERROR:</strong> credentials are correct, but an error occurred "
  const StoreErrorSuffix := " the local account. Please open a support ticket with this error."

  /** The `WP_Error` object of a failed login: code "shib"; a store error's message
      names the failed operation right after the common prefix. */
  function ToWpError(r: LoginResult): (e: WpError)
    requires !r.Authenticated?
    ensures e.code == "shib"
    ensures r == AccessDenied ==> e.message == AccessDeniedMessage
    ensures r.StoreError? ==> e.message == StoreErrorPrefix + OperationText(r.operation) + StoreErrorSuffix
    ensures r.StoreError? ==>
      var n, w := |StoreErrorPrefix|, OperationText(r.operation);
      |e.message| >= n + |w| && e.message[..n] == StoreErrorPrefix && e.message[n..n + |w|] == w
  {
    match r
    case AccessDenied => WpError("shib", AccessDeniedMessage)
    case StoreError(op) =>
      var m := StoreErrorPrefix + OperationText(op) + StoreErrorSuffix;
      assert m[..|StoreErrorPrefix|] == StoreErrorPrefix;
      assert m[|StoreErrorPrefix|..|StoreErrorPrefix| + |OperationText(op)|] == OperationText(op);
      WpError("shib", m)
  }

  /** The `$insert_user_data` array, without the ID. `pass` stands for `sha1(microtime())`. */
  function UserRecord(a: Assertion, pass: string): UserData
  {
    UserData(pass, a.username, a.username, a.email, a.firstName + " " + a.lastName,
             a.username, a.firstName, a.lastName)
  }

  /** `login_to_wordpress` on the site state `s`, for the attributes `a`, with the raw
      autoprovision setting: only the boolean `false` denies (`false ===`). */
  function Provision(s: SiteState, a: Assertion, autoprovision: PhpValue, pass: string, accepts: bool)
    : (r: (SiteState, LoginResult))
    requires ValidUsers(s.users, s.nextId)
    // the store stays consistent
    ensures ValidUsers(r.0.users, r.0.nextId)
    // denial
    ensures r.1 == AccessDenied <==> a.username !in s.users && autoprovision == Bool(false)
    // every failure fires wp_login_failed with the username and writes no user
    ensures !r.1.Authenticated? ==> r.0 == s.(loginFailed := s.loginFailed + [a.username])
    // a failure other than denial comes only from the store refusing the write
    ensures r.1.StoreError? <==> r.1 != AccessDenied && !accepts
    // success: the returned user is the one stored under the username, no event
    ensures r.1.Authenticated? ==>
      r.0.loginFailed == s.loginFailed && a.username in r.0.users && r.0.users[a.username] == r.1.user
    // the record written
    ensures r.1.Authenticated? ==>
      var d := r.1.user.data;
      && d.login == a.username && d.nicename == a.username && d.nickname == a.username
      && d.email == a.email && d.displayName == a.firstName + " " + a.lastName
      && d.firstName == a.firstName && d.lastName == a.lastName && d.pass == pass
    // other users are untouched
    ensures forall k | k in s.users && k != a.username :: k in r.0.users && r.0.users[k] == s.users[k]
    ensures forall k | k in r.0.users && k != a.username :: k in s.users
    // an existing user is synced under the same ID; no account is added
    ensures a.username in s.users ==>
      && r.0.users.Keys == s.users.Keys && r.0.nextId == s.nextId
      && (r.1.Authenticated? ==> r.1.user.id == s.users[a.username].id)
      && (r.1.StoreError? ==> r.1.operation == Syncing)
    // otherwise exactly one new user is created, under a fresh ID
    ensures a.username !in s.users && r.1.Authenticated? ==>
      r.0.users.Keys == s.users.Keys + {a.username} && r.1.user.id == s.nextId && r.0.nextId == s.nextId + 1
      && forall k | k in s.users :: s.users[k].id != r.1.user.id
    ensures a.username !in s.users && r.1.StoreError? ==> r.1.operation == Creating
  {
    var found := if a.username in s.users then Some(s.users[a.username]) else None;
    if found.None? && autoprovision == Bool(false) then
      (s.(loginFailed := s.loginFailed + [a.username]), AccessDenied)
    else
      var data := UserRecord(a, pass);
      var id := if found.Some? then Some(found.value.id) else None;
      var op := if found.Some? then Syncing else Creating;
      var inserted := WpInsertUser(s.users, s.nextId, data, id, accepts);
      if inserted.2.None? then
        (s.(loginFailed := s.loginFailed + [a.username]), StoreError(op))
      else
        (SiteState(inserted.0, inserted.1, s.loginFailed), Authenticated(inserted.0[a.username]))
  }

  /** Logging in again with the same assertion never adds a second account: after a
      first successful login, a second one keeps the accounts and the user's ID. */
  lemma RepeatLoginKeepsAccount(s: SiteState, a: Assertion, autoprovision: PhpValue,
                                pass1: string, pass2: string, accepts2: bool)
    requires ValidUsers(s.users, s.nextId)
    requires Provision(s, a, autoprovision, pass1, true).1.Authenticated?
    ensures var (s1, r1) := Provision(s, a, autoprovision, pass1, true);
      var (s2, r2) := Provision(s1, a, autoprovision, pass2, accepts2);
      && s2.users.Keys == s1.users.Keys
      && (r2.Authenticated? <==> accepts2)
      && (r2.Authenticated? ==> r2.user.id == r1.user.id)
      && (r2.StoreError? ==> r2.operation == Syncing)
  {
  }

  /** With a stored setting that is not the boolean `false` (the string "0", say), an
      unknown user is not denied: the strict comparison lets the record be created. */
  lemma NonBooleanSettingProvisions(s: SiteState, a: Assertion, pass: string)
    requires ValidUsers(s.users, s.nextId)
    requires a.username !in s.users
    ensures Provision(s, a, Str("0"), pass, true).1.Authenticated?
    ensures Provision(s, a, Bool(false), pass, true).1 == AccessDenied
  {
  }
}
