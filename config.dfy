/** The plugin's configuration as the `Simple_Shib` constructor loads it, and the
    `enabled` gate that decides whether the SSO handlers are installed. */
module Config {
  import opened PhpValues

  const AutoprovisionOption := "simpleshib_opt-autoprovision"
  const DebugOption := "simpleshib_opt-debug"
  const EnabledOption := "simpleshib_opt-enabled"
  const SessionInitiatorOption := "simpleshib_opt-sessiniturl"
  const SessionLogoutOption := "simpleshib_opt-sesslogouturl"

  const DefaultSessionInitiatorUrl := "/Shibboleth.sso/Login"
  const DefaultSessionLogoutUrl := "/Shibboleth.sso/Logout"

  /** The private fields the constructor fills in. Each keeps the raw value the options
      store returned, because the plugin compares some of them with `===`. */
  datatype Config = Config(
    autoprovision: PhpValue,
    debug: PhpValue,
    enabled: PhpValue,
    sessionInitiatorUrl: PhpValue,
    sessionLogoutUrl: PhpValue)

  /** `get_site_option(name, default)`: the stored value, or the default when none is stored. */
  function GetSiteOption(options: map<string, PhpValue>, name: string, default: PhpValue): (v: PhpValue)
    ensures name in options ==> v == options[name]
    ensures name !in options ==> v == default
  {
    if name in options then options[name] else default
  }

  /** The option reads of the constructor, with their defaults. */
  function LoadConfig(options: map<string, PhpValue>): (c: Config)
    ensures AutoprovisionOption !in options ==> c.autoprovision == Bool(false)
    ensures DebugOption !in options ==> c.debug == Bool(false)
    ensures EnabledOption !in options ==> c.enabled == Bool(false)
    ensures SessionInitiatorOption !in options ==> c.sessionInitiatorUrl == Str(DefaultSessionInitiatorUrl)
    ensures SessionLogoutOption !in options ==> c.sessionLogoutUrl == Str(DefaultSessionLogoutUrl)
    ensures forall name | name in options ::
      && (name == AutoprovisionOption ==> c.autoprovision == options[name])
      && (name == DebugOption ==> c.debug == options[name])
      && (name == EnabledOption ==> c.enabled == options[name])
      && (name == SessionInitiatorOption ==> c.sessionInitiatorUrl == options[name])
      && (name == SessionLogoutOption ==> c.sessionLogoutUrl == options[name])
  {
    Config(
      GetSiteOption(options, AutoprovisionOption, Bool(false)),
      GetSiteOption(options, DebugOption, Bool(false)),
      GetSiteOption(options, EnabledOption, Bool(false)),
      GetSiteOption(options, SessionInitiatorOption, Str(DefaultSessionInitiatorUrl)),
      GetSiteOption(options, SessionLogoutOption, Str(DefaultSessionLogoutUrl)))
  }

  /** The strict `true === $this->enabled` test guarding the authenticate, init and logout hooks. */
  predicate HandlersInstalled(c: Config)
  {
    c.enabled == Bool(true)
  }

  /** The gate opens for a stored boolean `true` and for nothing else: not for the
      string "1", not when the option is missing. */
  lemma GateIsStrict(options: map<string, PhpValue>)
    ensures HandlersInstalled(LoadConfig(options))
        <==> EnabledOption in options && options[EnabledOption] == Bool(true)
    ensures EnabledOption in options && options[EnabledOption] == Str("1")
        ==> !HandlersInstalled(LoadConfig(options))
  {
  }

  /** With an empty options store, the configuration is all defaults and SSO is off. */
  lemma DefaultsAreOff()
    ensures LoadConfig(map[]) == Config(Bool(false), Bool(false), Bool(false),
                                        Str(DefaultSessionInitiatorUrl), Str(DefaultSessionLogoutUrl))
    ensures !HandlersInstalled(LoadConfig(map[]))
  {
  }

  /** `sanitize_checkbox`: `isset($input)`, which is false only for null. */
  function SanitizeCheckbox(input: PhpValue): (r: bool)
    ensures r <==> !input.Null?
  {
    match input
    case Null => false
    case _ => true
  }

  /** Storing a sanitized checkbox under the enabled option opens the gate exactly when
      the checkbox was submitted. */
  lemma SanitizedCheckboxOpensGate(options: map<string, PhpValue>, input: PhpValue)
    ensures HandlersInstalled(LoadConfig(options[EnabledOption := Bool(SanitizeCheckbox(input))]))
        <==> !input.Null?
  {
  }
}
