# SimpleShib single sign-on core, modelled in Dafny

This project models the decision logic of the SimpleShib WordPress plugin
(`class-simple-shib.php`). The plugin trusts the server variables that a
Shibboleth service provider puts into each request. It treats an IdP session as
active only when all of these hold:

- `AUTH_TYPE` is `shibboleth`;
- the session id is non-empty;
- the four identity attributes are non-empty (PHP `empty()`: absent, `""` and `"0"` all count as empty).

It then reconciles that IdP session with the WordPress session:

- logged in at WordPress and at the IdP: redirect to `/`;
- logged in at the IdP only: log the user into WordPress, creating or syncing the account;
- logged in nowhere: redirect to the IdP's session initiator, with the login URL
  percent-encoded once as the `target` parameter;
- logged in at WordPress only: the `init` hook logs the user out and redirects to `/`.

On a user's own profile update, the plugin also locks the profile fields that the IdP owns.

Modules, one per component:

- `PhpValues`: the PHP values the plugin compares and concatenates. This covers PHP `empty()`, string conversion, and byte strings.
- `Config`: the constructor's option reads and defaults, the strict `true === enabled` gate, and `sanitize_checkbox`.
- `ShibSession`: `is_shib_session_active`, and reading the four attributes.
- `PercentEncoding`: `rawurlencode`/`rawurldecode` as in section 2.1 of RFC 3986. Only the unreserved set of section 2.3 is left as it is, and hex digits are upper case.
- `InitiatorUrl`: `get_initiator_url`.
- `UserStore`: the WordPress user table keyed by login, as a class `WpSite`. It has `users`, `nextId` and the list of `wp_login_failed` events, plus `get_user_by` and `wp_insert_user`.
- `Provisioner`: `login_to_wordpress` as a function from the old site state to the new state and the result.
- `Reconciler`: `authenticate_or_redirect`, `validate_shib_session` and how the two hooks combine on one request.
- `ProfileLock`: `disable_profile_fields_post`.
- `SimpleShibPlugin`: the `Simple_Shib` class. It has the constructor and the imperative `LoginToWordPress` and `AuthenticateOrRedirect` methods. Each method is proved equal to its specification function.

Foreign calls are parameters:

- `get_site_url(…)` and `add_query_arg` are the fields of `SiteContext`.
- Whether `wp_insert_user` passes its own checks is the `accepts` flag.
- The `sha1(microtime())` password is the unconstrained `pass` string.

The model returns each `wp_safe_redirect(…); exit();` pair as an outcome value, and it returns `wp_logout()` as the `LogoutAndRedirect` outcome.

Details of the code worth noting:

- With both sessions active, the `authenticate` filter redirects to `/`. It does not pass the request through.
- The attribute names `uid`, `givenName`, `sn` and `mail` are hard-coded, not configurable.
- `enabled` and `autoprovision` are compared with `===`. The options map holds the value `get_site_option` hands the plugin, which is not necessarily what an administrator saved: WordPress usually returns scalars read from the database as strings. Only a stored boolean `true` enables SSO. Only the boolean `false`, whether stored or the default when nothing is stored, denies unknown users: any other stored value, such as the string `"0"`, lets the record be created (`NonBooleanSettingProvisions`).
- The nickname lock writes back `user_nicename`, not the stored nickname (`LockRewritesNickname`).
- The profile lock is registered through `admin_init` outside the `enabled` gate, so it applies even with SSO off.
- `sanitize_checkbox` is never wired to a setting: `register_setting` uses `wp_validate_boolean`, under the names `enabled`, `autoprovision` and so on, not the `simpleshib_opt-…` names the constructor reads. `Config.SanitizedCheckboxOpensGate` only describes what would happen if its result were stored as the gate option; no path in the plugin does that.

## Model

| member | source | states |
|---|---|---|
| `PhpValues.ToPhpString` | class-simple-shib.php:544 | PHP string conversion used by `.`: a string is itself, only boolean true gives "1", null and false give "" |
| `Config.GetSiteOption` | class-simple-shib.php:103-107 | `get_site_option` returns the stored value when there is one and the default otherwise |
| `Config.LoadConfig` | class-simple-shib.php:103-107 | each config field is the stored option, or when absent: autoprovision, debug and enabled `false`; `/Shibboleth.sso/Login`; `/Shibboleth.sso/Logout` |
| `Config.GateIsStrict` | class-simple-shib.php:111 | `HandlersInstalled`, the `true ===` test: the SSO hooks are installed iff the enabled option is stored as boolean `true`; the string "1" does not open the gate |
| `Config.DefaultsAreOff` | class-simple-shib.php:103-111 | with nothing stored, the configuration is all defaults and SSO is off |
| `Config.SanitizeCheckbox` | class-simple-shib.php:678-680 | true iff the input is set, that is, not null |
| `Config.SanitizedCheckboxOpensGate` | class-simple-shib.php:678-680 | if a sanitized checkbox were stored as the enabled option, the hooks would be installed iff the checkbox was submitted (the plugin itself never stores it there) |
| `ShibSession.IsShibSessionActive` | class-simple-shib.php:474-486 | active iff `AUTH_TYPE` is exactly "shibboleth" and every one of `Shib-Session-ID`, `uid`, `givenName`, `sn`, `mail` is non-empty |
| `ShibSession.AnyEmptyVarDeactivates` | class-simple-shib.php:476-480 | making any one required variable absent, "" or "0" makes the session inactive, whatever the others hold |
| `ShibSession.SpoofedAttributesRejected` | class-simple-shib.php:475 | without the auth-type marker no set of attribute variables yields a session |
| `ShibSession.ReadAssertion` | class-simple-shib.php:569-572 | the four attributes are copied from `uid`, `givenName`, `sn`, `mail` and are all non-empty |
| `PercentEncoding.Encode` | class-simple-shib.php:544 | `rawurlencode`: the output is well-encoded (unreserved characters and upper-case `%XX` triples only) and never shorter than the input |
| `PercentEncoding.Decode` | class-simple-shib.php:544 | `rawurldecode`, the partner of `Encode`: never longer than its input; decoding a byte string gives a byte string |
| `PercentEncoding.DecodeEncodeByte` | class-simple-shib.php:544 | decoding undoes the encoding of one byte, whatever follows it |
| `PercentEncoding.DecodeEncode` | class-simple-shib.php:544 | round trip: decoding the encoding exactly once gives back the original string |
| `PercentEncoding.EncodeInjective` | class-simple-shib.php:544 | distinct return URLs have distinct encodings |
| `PercentEncoding.WellEncodedAlphabet` | class-simple-shib.php:544 | every character of an encoding is unreserved or "%", so it contains no `&`, `=`, `?`, `#` or `/` |
| `PercentEncoding.EncodeIdentityIff` | class-simple-shib.php:544 | the encoding leaves a string unchanged iff all its characters are unreserved |
| `PercentEncoding.EncodeShowsPercent` | class-simple-shib.php:544 | a reserved byte anywhere in the input puts a "%" into the encoding |
| `PercentEncoding.DoubleEncodingIsVisible` | class-simple-shib.php:539-544 | a return URL with a reserved character encoded twice differs from it encoded once, and decoding the double encoding once does not give the URL back |
| `InitiatorUrl.RedirectToParam` | class-simple-shib.php:206-211 | the `redirect_to` argument is passed iff the GET parameter is set, with its value |
| `InitiatorUrl.GetInitiatorUrl` | class-simple-shib.php:535-547 | with `ReturnTo` the login URL, passed through `add_query_arg` when `redirect_to` is not PHP-empty (539-542): URL = session initiator + "?target=" + rawurlencode(return_to); the target part decodes once to return_to, is well-encoded, and holds only unreserved characters and "%"; a null or empty `redirect_to` leaves return_to as the bare login URL |
| `InitiatorUrl.DefaultInitiatorPrefix` | class-simple-shib.php:106 | with the default option the URL starts with "/Shibboleth.sso/Login?target=" |
| `UserStore.WpInsertUser` | class-simple-shib.php:599-611 | `wp_insert_user`: keeps the store consistent; without an ID it creates exactly one user under the next ID; with an ID it updates that user in place with the same keys; on error nothing changes; other users are untouched |
| `UserStore.WpSite.GetUserBy` | class-simple-shib.php:576 | `get_user_by('login', …)`: found iff a user is stored under that login, and it is that user |
| `UserStore.WpSite.InsertUser` | class-simple-shib.php:608 | the store after the call and the returned ID are those of `WpInsertUser`; the event list is unchanged |
| `UserStore.WpSite.FireLoginFailed` | class-simple-shib.php:578 | appends the username to the `wp_login_failed` events and changes nothing else |
| `Provisioner.ToWpError` | class-simple-shib.php:579-618 | error code "shib"; denial carries the Access Denied message; a store error's message is the common prefix, then "creating" or "syncing", then the support-ticket suffix |
| `Provisioner.Provision` | class-simple-shib.php:565-625 | (the record is `UserRecord`, the `$insert_user_data` array of 588-597) Access Denied iff the user is unknown and autoprovision is boolean false; every failure fires `wp_login_failed` with the username and leaves the users as they were; a store error only when the store refuses; the record has login, nicename and nickname = uid, email = mail, display name = givenName + " " + sn, first/last name; an existing user keeps its ID and no account is added ("syncing"); otherwise exactly one user is created under a fresh ID and the next ID moves on by one ("creating"); other users are untouched; the store stays consistent |
| `Provisioner.RepeatLoginKeepsAccount` | class-simple-shib.php:599-606 | a second login with the same assertion keeps the set of accounts and the user's ID, and fails only as "syncing" |
| `Provisioner.NonBooleanSettingProvisions` | class-simple-shib.php:577 | an unknown user is denied with autoprovision boolean false but created with the string "0" |
| `Reconciler.AuthenticateBranch` | class-simple-shib.php:174-213 | redirect home iff logged in at both; log in iff at the IdP only; every case without an IdP session goes to the IdP, WordPress-logged-in included |
| `Reconciler.Authenticate` | class-simple-shib.php:171-216 | returns (does not exit) iff not logged in at WordPress and the IdP session is active, and then with exactly the provisioner's result and state; both sessions: redirect "/"; no IdP session: redirect to the initiator URL built from `redirect_to` iff set; redirects change no state |
| `Reconciler.ValidateShibSession` | class-simple-shib.php:504-516 | logs out and redirects to "/" iff logged in at WordPress and the IdP session is inactive; otherwise nothing |
| `Reconciler.Reconcile` | class-simple-shib.php:111-121 | one request: gate closed, neither the `authenticate` filter nor the `init` check is installed, so WordPress's own password check runs; gate open, WordPress-only sessions are logged out on every request, and on a login attempt the three remaining cases follow the `authenticate` table; nothing else changes state |
| `Reconciler.IdpRedirectOnlyWhenLoggedOut` | class-simple-shib.php:215 | with `init` running first, a redirect to the IdP happens only when logged in nowhere |
| `ProfileLock.DisableProfileFieldsPost` | class-simple-shib.php:844-880 | first name, last name, nickname and email become the current user's stored `first_name`, `last_name`, `user_nicename` and `user_email`; every other field passes through unchanged |
| `ProfileLock.LockIgnoresLockedFields` | class-simple-shib.php:844-880 | the filtered form does not depend on what was submitted in the four locked fields |
| `ProfileLock.LockAgreesWithProvisionedRecord` | class-simple-shib.php:845-879 | for a user as last provisioned, the lock writes back exactly the provisioned first name, last name, nickname and email |
| `ProfileLock.LockRewritesNickname` | class-simple-shib.php:861-867 | when the stored nickname differs from `user_nicename`, the filtered nickname is the nicename, so the stored nickname is not kept |
| `SimpleShibPlugin.SimpleShib.constructor` | class-simple-shib.php:100-125 | the config is the loaded options; the SSO hooks are added iff enabled is stored as boolean true |
| `SimpleShibPlugin.SimpleShib.LoginToWordPress` | class-simple-shib.php:565-625 | the site state after the method and its result are those of `Provision` on the state before it; the store stays consistent |
| `SimpleShibPlugin.SimpleShib.AuthenticateOrRedirect` | class-simple-shib.php:171-216 | the site state after the method and its outcome are those of `Authenticate` on the state before it |

## Left out

- Settings registration, admin menus, the settings-field HTML and the settings page (class-simple-shib.php:127-134, 248-459, 690-808, 821-830) render UI or register WordPress hooks. They are not decision logic.
- Lines 137-140 of class-simple-shib.php run whatever `enabled` holds, and the model does not cover them. They add the profile lock through `admin_init`. They make `show_password_fields` return false, which hides the password fields. They make `allow_password_reset` return false, which refuses every password reset. They hook `lost_password` on `login_form_lostpassword`, which redirects and calls `exit()`. So even with SSO off, WordPress's default behaviour does not apply unchanged: password resets are refused and the lost-password page ends the request.
- `handle_settings_post` has an empty body.
- `shib_logout` and `lost_password` are single redirects. `lost_pass_url` and `pass_change_url` are never assigned, so `lost_password` redirects to null, and the `admin_init` test at line 228 never adds the change-password link.
- Debug logging through `error_log` is log output only, so the `debug` setting is loaded but has no effect in the model.
- The effects of `wp_safe_redirect`, `wp_redirect`, `exit()` and `wp_logout` are returned as outcome values. The model does not perform them.
- `wp_safe_redirect` sends a target on a host that is not allowed to `admin_url()` instead. The model's redirect outcomes carry the URL the plugin passes, not the one WordPress finally sends, so an off-host session initiator URL is not modelled.
- `wp_insert_user` rewrites `user_nicename` (`sanitize_title`, a cut to 50 characters, a `-2` suffix on a collision). The model stores the nicename as given, so `Provisioner.Provision` and `ProfileLock.LockAgreesWithProvisionedRecord` assume the stored nicename equals `uid`, which WordPress does not guarantee.
- `ProfileLock.DisableProfileFieldsPost`: the function states what the four filters return, but the plugin hooks it only on `personal_options_update` (line 238). It does not apply when an administrator saves another user's profile (`edit_user_profile_update`), although line 235 makes those form fields read-only in the HTML. The code's own note at lines 869-872 says `pre_user_email` did not block email changes in testing. The model therefore does not promise that the IdP is the only source of names and email addresses.
- `get_site_url`, `get_current_blog_id` and `add_query_arg` are WordPress calls. They enter only as the `SiteContext` login URL and an uninterpreted function. Multisite handling is not modelled.
- The `user_pass` value `sha1(microtime())` is time-based. It is the unconstrained parameter `pass`.
- `UserStore.WpInsertUser`: WordPress runs its own checks on a write (sanitized and duplicate email, lengths). These are reduced to the `accepts` flag. The model also rejects a create for a taken login and an update whose ID is not the one stored under the record's login. In WordPress such an update would change another user while keeping that user's login, but the plugin never makes such a call.
- `UserStore.WpSite.GetUserBy`: WordPress's login sanitization and case rules are not modelled. The lookup is an exact match on the map key.
- `SimpleShibPlugin.SimpleShib.LoginToWordPress`: the `is_numeric($user_obj->ID)` and `is_int($new_user)` tests always succeed, because IDs are integers in the model.
- Request values are strings. A GET parameter sent as an array (`redirect_to[]=…`) is not modelled.
- simple-shibboleth.php and simpleshib.php only bootstrap the plugin. The `activate`, `deactivate`, `uninstall` and `init` callbacks that simple-shibboleth.php names are not part of this model.
