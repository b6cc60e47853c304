/** The IdP-session predicate `is_shib_session_active`: the server variables that the
    Shibboleth service provider injects into the request are trusted only when the
    auth type marks the request as Shibboleth-authenticated and every required
    variable is non-empty. The variable names are fixed, not configurable. */
module ShibSession {
  import opened PhpValues

  const AuthTypeVar := "AUTH_TYPE"
  const SessionIdVar := "Shib-Session-ID"
  const UsernameVar := "uid"
  const FirstNameVar := "givenName"
  const LastNameVar := "sn"
  const EmailVar := "mail"

  /** The variables that must all be non-empty (the session id and the four attributes). */
  const RequiredVars: seq<string> := [SessionIdVar, UsernameVar, FirstNameVar, LastNameVar, EmailVar]

  /** The transport marker: `AUTH_TYPE` is set and is exactly "shibboleth". */
  predicate TrustMarker(server: map<string, string>)
  {
    AuthTypeVar in server && server[AuthTypeVar] == "shibboleth"
  }

  /** `is_shib_session_active`. */
  function IsShibSessionActive(server: map<string, string>): (r: bool)
    ensures r <==> TrustMarker(server) && forall i | 0 <= i < |RequiredVars| :: !EmptyAt(server, RequiredVars[i])
  {
    assert RequiredVars[0] == SessionIdVar && RequiredVars[1] == UsernameVar;
    assert RequiredVars[2] == FirstNameVar && RequiredVars[3] == LastNameVar && RequiredVars[4] == EmailVar;
    TrustMarker(server)
    && !EmptyAt(server, SessionIdVar)
    && !EmptyAt(server, UsernameVar)
    && !EmptyAt(server, FirstNameVar)
    && !EmptyAt(server, LastNameVar)
    && !EmptyAt(server, EmailVar)
  }

  /** A single required variable that is absent, "" or "0" makes the session inactive,
      whatever the other variables hold. */
  lemma AnyEmptyVarDeactivates(server: map<string, string>, i: nat)
    requires i < |RequiredVars|
    ensures !IsShibSessionActive(server[RequiredVars[i] := "0"])
    ensures !IsShibSessionActive(server[RequiredVars[i] := ""])
    ensures !IsShibSessionActive(server - {RequiredVars[i]})
  {
  }

  /** Attribute variables alone, without the auth-type marker, are never trusted:
      a client that spoofs them gets no session. */
  lemma SpoofedAttributesRejected(server: map<string, string>)
    requires AuthTypeVar !in server || server[AuthTypeVar] != "shibboleth"
    ensures !IsShibSessionActive(server)
  {
  }

  /** The identity attributes `login_to_wordpress` copies out of the server variables. */
  datatype Assertion = Assertion(username: string, firstName: string, lastName: string, email: string)

  /** Reading the four attributes of an active session. */
  function ReadAssertion(server: map<string, string>): (a: Assertion)
    requires IsShibSessionActive(server)
    ensures !EmptyString(a.username) && !EmptyString(a.firstName)
    ensures !EmptyString(a.lastName) && !EmptyString(a.email)
    ensures a.username == server[UsernameVar] && a.email == server[EmailVar]
    ensures a.firstName == server[FirstNameVar] && a.lastName == server[LastNameVar]
  {
    Assertion(server[UsernameVar], server[FirstNameVar], server[LastNameVar], server[EmailVar])
  }
}
