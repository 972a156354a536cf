/** What the browser observer may ask the network for. */
module NetworkPolicy {
  import opened Options

  /** An address as the URL standard takes it apart. */
  datatype Url = Url(
    protocol: string,
    username: string,
    password: string,
    hostname: string,
    port: string,
    path: string,
    search: string,
    hash: string)

  /** What the libraries around the observer answer. */
  datatype Net = Net(
    parse: string -> Option<Url>,
    resolve: (string, Url) -> Option<Url>,
    text: Url -> string,
    lowered: string -> string,
    domainOf: string -> Option<string>,
    publicIp: string -> Option<bool>,
    standard: Url -> bool)

  /** The URL standard's promise: what is parsed prints as a text that parses as it, its fragment dropped or not. */
  ghost predicate Faithful(net: Net) {
    && (forall raw :: net.parse(raw).Some? ==> net.standard(net.parse(raw).value))
    && (forall raw, base :: net.resolve(raw, base).Some? ==> net.standard(net.resolve(raw, base).value))
    && (forall url :: net.standard(url) ==> net.parse(net.text(url)) == Some(url) && net.standard(url.(hash := "")))
  }

  datatype Code =
    | MethodBlocked | ProtocolBlocked | CredentialsBlocked | HostBlocked | PortBlocked
    | NavigationCrossSite | RedirectDowngrade | InvalidUrl

  datatype Decision = Allowed(url: Url) | Refused(code: Code)

  /** A name trimmed and in lower case, one closing dot dropped. */
  function NormalizeDomain(net: Net, name: string): string {
    var lowered := net.lowered(name);
    if lowered != "" && lowered[|lowered| - 1] == '.' then lowered[..|lowered| - 1] else lowered
  }

  function RegistrableDomain(net: Net, hostname: string): Option<string> {
    net.domainOf(NormalizeDomain(net, hostname))
  }

  predicate HasAllowedPort(url: Url) {
    url.port == "" || (url.protocol == "https:" && url.port == "443") || (url.protocol == "http:" && url.port == "80")
  }

  predicate EndsWith(text: string, end: string) {
    |end| <= |text| && text[|text| - |end|..] == end
  }

  predicate BlockedName(hostname: string) {
    exists name | name in {"localhost", "local", "internal"} :: hostname == name || EndsWith(hostname, "." + name)
  }

  function Unbracketed(hostname: string): string {
    var rest := if hostname != "" && hostname[0] == '[' then hostname[1..] else hostname;
    if rest != "" && rest[|rest| - 1] == ']' then rest[..|rest| - 1] else rest
  }

  function HostOf(net: Net, url: Url): string {
    NormalizeDomain(net, Unbracketed(url.hostname))
  }

  function InspectRequest(net: Net, raw: string, method_: string, isNavigation: bool, allowedDomain: string,
                          redirectedFrom: Option<string>): Decision
  {
    if method_ != "GET" && method_ != "HEAD" then Refused(MethodBlocked)
    else if net.parse(raw).None? then Refused(InvalidUrl)
    else
      var url := net.parse(raw).value;
      var hostname := HostOf(net, url);
      if url.protocol != "http:" && url.protocol != "https:" then Refused(ProtocolBlocked)
      else if url.username != "" || url.password != "" then Refused(CredentialsBlocked)
      else if !HasAllowedPort(url) then Refused(PortBlocked)
      else if hostname == "" || BlockedName(hostname) then Refused(HostBlocked)
      else if net.publicIp(hostname) == Some(false) then Refused(HostBlocked)
      else if !isNavigation then Allowed(url.(hash := ""))
      else
        var domain := RegistrableDomain(net, hostname);
        if domain.None? || domain.value == "" || domain.value != NormalizeDomain(net, allowedDomain)
        then Refused(NavigationCrossSite)
        else if redirectedFrom.Some? && redirectedFrom.value != "" then
          match net.parse(redirectedFrom.value)
          case None => Refused(InvalidUrl)
          case Some(previous) =>
            if previous.protocol == "https:" && url.protocol != "https:" then Refused(RedirectDowngrade)
            else Allowed(url.(hash := ""))
        else Allowed(url.(hash := ""))
  }

  function ResolveSafeNavigationRedirect(net: Net, allowedDomain: string, from: Url, location: string): Option<Url> {
    match net.resolve(location, from)
    case None => None
    case Some(candidate) =>
      match InspectRequest(net, net.text(candidate), "GET", true, allowedDomain, Some(net.text(from)))
      case Allowed(url) => Some(url)
      case Refused(_) => None
  }

  /** A page the observer may be sent to: the web's own protocols, no credentials, no odd port, a public name of the declared domain. */
  ghost predicate OnDomain(net: Net, url: Url, domain: string) {
    && url.protocol in {"http:", "https:"} && url.username == "" && url.password == "" && HasAllowedPort(url)
    && HostOf(net, url) != "" && !BlockedName(HostOf(net, url)) && net.publicIp(HostOf(net, url)) != Some(false)
    && RegistrableDomain(net, HostOf(net, url)) == Some(NormalizeDomain(net, domain))
    && url.hash == "" && net.standard(url)
  }

  /** Whatever navigation is allowed leads to a page of the declared domain, however it was asked for. */
  lemma NavigationStaysOnDomain(net: Net, raw: string, method_: string, domain: string, from: Option<string>)
    requires Faithful(net) && InspectRequest(net, raw, method_, true, domain, from).Allowed?
    ensures OnDomain(net, InspectRequest(net, raw, method_, true, domain, from).url, domain)
    ensures method_ in {"GET", "HEAD"}
  {
  }

  /** A redirect followed stays on the declared domain, and never leaves https for http. */
  lemma RedirectStaysSafe(net: Net, domain: string, from: Url, location: string)
    requires Faithful(net) && net.standard(from) && net.text(from) != ""
    requires ResolveSafeNavigationRedirect(net, domain, from, location).Some?
    ensures var to := ResolveSafeNavigationRedirect(net, domain, from, location).value;
            OnDomain(net, to, domain) && (from.protocol == "https:" ==> to.protocol == "https:")
  {
    var candidate := net.resolve(location, from).value;
    NavigationStaysOnDomain(net, net.text(candidate), "GET", domain, Some(net.text(from)));
  }

  // ---- What a run is asked to observe ----

  datatype TargetError = DeclaredDomainInvalid | TargetBlocked | RepresentativeBlocked | QueryOrFragmentBlocked | DuplicatePage

  datatype Target = Pages(urls: seq<Url>) | Rejected(error: TargetError)

  /** The pages asked for, in order, up to the first that is refused. */
  function TargetsFrom(net: Net, raws: seq<string>, declared: string, first: bool): Target {
    if raws == [] then Pages([])
    else
      match InspectRequest(net, raws[0], "GET", true, declared, None)
      case Refused(_) => Rejected(if first then TargetBlocked else RepresentativeBlocked)
      case Allowed(url) =>
        if net.parse(raws[0]).value.search != "" || net.parse(raws[0]).value.hash != "" then Rejected(QueryOrFragmentBlocked)
        else
          match TargetsFrom(net, raws[1..], declared, false)
          case Rejected(error) => Rejected(error)
          case Pages(urls) => Pages([url] + urls)
  }

  predicate Distinct(net: Net, urls: seq<Url>) {
    forall i, j | 0 <= i < j < |urls| :: net.text(urls[i]) != net.text(urls[j])
  }

  function ValidateActorTarget(net: Net, canonical: string, representatives: seq<string>, declaredDomain: string): Target {
    var declared := NormalizeDomain(net, declaredDomain);
    if declared == "" || RegistrableDomain(net, declared) != Some(declared) then Rejected(DeclaredDomainInvalid)
    else
      match TargetsFrom(net, [canonical] + representatives, declared, true)
      case Rejected(error) => Rejected(error)
      case Pages(urls) => if Distinct(net, urls) then Pages(urls) else Rejected(DuplicatePage)
  }

  /** A page that can be observed: one of the declared domain, its address naming no query and no fragment. */
  ghost predicate Observable(net: Net, url: Url, domain: string) {
    OnDomain(net, url, domain) && url.search == ""
  }

  lemma {:induction false} TargetsAreObservable(net: Net, raws: seq<string>, declared: string, first: bool)
    requires Faithful(net) && TargetsFrom(net, raws, declared, first).Pages?
    ensures var urls := TargetsFrom(net, raws, declared, first).urls;
            && |urls| == |raws|
            && (forall i | 0 <= i < |urls| :: net.parse(raws[i]) == Some(urls[i]) && Observable(net, urls[i], declared))
  {
    if raws != [] {
      NavigationStaysOnDomain(net, raws[0], "GET", declared, None);
      TargetsAreObservable(net, raws[1..], declared, false);
    }
  }

  /** What a run takes on: the pages asked for, the canonical one first, each of the declared domain and none twice. */
  lemma TargetIsSound(net: Net, canonical: string, representatives: seq<string>, domain: string)
    requires Faithful(net) && ValidateActorTarget(net, canonical, representatives, domain).Pages?
    requires NormalizeDomain(net, NormalizeDomain(net, domain)) == NormalizeDomain(net, domain)
    ensures var urls := ValidateActorTarget(net, canonical, representatives, domain).urls;
            && |urls| == 1 + |representatives| && net.parse(canonical) == Some(urls[0])
            && Distinct(net, urls)
            && forall url | url in urls :: Observable(net, url, domain)
  {
    TargetsAreObservable(net, [canonical] + representatives, NormalizeDomain(net, domain), true);
  }

  /** One list of pages is rejected exactly where the domain, a page or a repetition is at fault. */
  lemma {:induction false} TargetsAreTaken(net: Net, raws: seq<string>, declared: string, first: bool)
    ensures TargetsFrom(net, raws, declared, first).Pages? <==>
              forall raw | raw in raws ::
                && InspectRequest(net, raw, "GET", true, declared, None).Allowed?
                && net.parse(raw).Some? && net.parse(raw).value.search == "" && net.parse(raw).value.hash == ""
  {
    if raws != [] {
      TargetsAreTaken(net, raws[1..], declared, false);
      assert raws == [raws[0]] + raws[1..];
    }
  }
}
