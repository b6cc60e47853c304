/** `get_initiator_url`: the URL of the service provider's session initiator, with the
    site's login URL (and the client's `redirect_to`, when given) percent-encoded once
    as its `target` parameter. `get_site_url` and `add_query_arg` are WordPress calls
    and enter as the fields of a `SiteContext`. */
module InitiatorUrl {
  import opened PhpValues
  import opened Config
  import opened PercentEncoding

  /** The WordPress side of the URL: the login page URL of the current blog
      (`get_site_url(get_current_blog_id(), 'wp-login.php', 'login')`) and
      `add_query_arg(key, value, url)`. */
  datatype SiteContext = SiteContext(
    loginUrl: ByteString,
    addQueryArg: (ByteString, ByteString, ByteString) -> ByteString)

  const TargetParam := "?target="
  const RedirectToKey := "redirect_to"

  /** The `redirect_to` GET parameter, when `isset`. */
  function RedirectToParam(query: map<string, ByteString>): (r: Option<ByteString>)
    ensures r.Some? <==> RedirectToKey in query
    ensures r.Some? ==> r.value == query[RedirectToKey]
  {
    if RedirectToKey in query then Some(query[RedirectToKey]) else None
  }

  /** The URL the IdP sends the user back to: the login URL, with `redirect_to`
      added by `add_query_arg` unless the argument is null or PHP-empty. */
  function ReturnTo(site: SiteContext, redirectTo: Option<ByteString>): ByteString
  {
    if redirectTo.Some? && !EmptyString(redirectTo.value)
    then site.addQueryArg(RedirectToKey, redirectTo.value, site.loginUrl)
    else site.loginUrl
  }

  /** The session initiator prefix up to and including "?target=". */
  function TargetPrefix(c: Config): string
  {
    ToPhpString(c.sessionInitiatorUrl) + TargetParam
  }

  /** `get_initiator_url`. The part after the prefix is the return URL encoded exactly
      once: it holds only unreserved characters and "%XX" triples, and decoding it once
      gives the return URL back. */
  function GetInitiatorUrl(c: Config, site: SiteContext, redirectTo: Option<ByteString>): (url: string)
    ensures |TargetPrefix(c)| <= |url| && url[..|TargetPrefix(c)|] == TargetPrefix(c)
    ensures url[|TargetPrefix(c)|..] == Encode(ReturnTo(site, redirectTo))
    ensures Decode(url[|TargetPrefix(c)|..]) == ReturnTo(site, redirectTo)
    ensures WellEncoded(url[|TargetPrefix(c)|..])
    ensures forall i | |TargetPrefix(c)| <= i < |url| :: IsUnreserved(url[i]) || url[i] == '%'
    ensures (redirectTo.None? || EmptyString(redirectTo.value))
        ==> Decode(url[|TargetPrefix(c)|..]) == site.loginUrl
  {
    var encoded := Encode(ReturnTo(site, redirectTo));
    var url := TargetPrefix(c) + encoded;
    assert url[|TargetPrefix(c)|..] == encoded;
    DecodeEncode(ReturnTo(site, redirectTo));
    WellEncodedAlphabet(encoded);
    assert forall i | |TargetPrefix(c)| <= i < |url| :: url[i] == encoded[i - |TargetPrefix(c)|];
    url
  }

  /** With the default session initiator, the URL starts with "/Shibboleth.sso/Login?target=". */
  lemma DefaultInitiatorPrefix(site: SiteContext, redirectTo: Option<ByteString>)
    ensures var url := GetInitiatorUrl(LoadConfig(map[]), site, redirectTo);
      |url| >= 29 && url[..29] == "/Shibboleth.sso/Login?target="
  {
    var c := LoadConfig(map[]);
    assert TargetPrefix(c) == "/Shibboleth.sso/Login?target=";
  }
}
