/** What the observer asks the network for, and what it refuses: every request of a page, judged part by part. */
module NetworkRequests {
  import opened Options
  import opened NetworkPolicy

  // ---- Names as they are compared ----

  /** A text less the one dot that may close it. */
  predicate LessDot(text: string, plain: string) {
    if text != "" && text[|text| - 1] == '.' then text == plain + "." else text == plain
  }

  /** A host less the one bracket that may stand at either end. */
  predicate LessBrackets(hostname: string, bare: string) {
    if hostname != "" && hostname[0] == '['
    then hostname == "[" + bare + "]" || (hostname == "[" + bare && (bare == "" || bare[|bare| - 1] != ']'))
    else hostname == bare + "]" || (hostname == bare && (bare == "" || bare[|bare| - 1] != ']'))
  }

  /** The name a host goes by. */
  ghost predicate Names(net: Net, hostname: string, host: string) {
    exists bare :: LessBrackets(hostname, bare) && LessDot(net.lowered(bare), host)
  }

  lemma BracketsGo(hostname: string, bare: string)
    ensures LessBrackets(hostname, bare) <==> bare == Unbracketed(hostname)
  {
    var rest := if hostname != "" && hostname[0] == '[' then hostname[1..] else hostname;
    if hostname != "" && hostname[0] == '[' {
      assert hostname == "[" + rest;
      assert ("[" + bare + "]")[1..] == bare + "]" && ("[" + bare)[1..] == bare;
    }
    if rest != "" && rest[|rest| - 1] == ']' {
      assert rest == rest[..|rest| - 1] + "]";
      assert (bare + "]")[..|bare|] == bare;
    }
  }

  lemma DotGoes(net: Net, name: string, plain: string)
    ensures LessDot(net.lowered(name), plain) <==> plain == NormalizeDomain(net, name)
  {
    var lowered := net.lowered(name);
    if lowered != "" && lowered[|lowered| - 1] == '.' {
      assert lowered == lowered[..|lowered| - 1] + ".";
      assert (plain + ".")[..|plain|] == plain;
    }
  }

  lemma HostIsNamed(net: Net, url: Url, host: string)
    ensures Names(net, url.hostname, host) <==> host == HostOf(net, url)
  {
    var bare := Unbracketed(url.hostname);
    BracketsGo(url.hostname, bare);
    DotGoes(net, bare, host);
    if other :| LessBrackets(url.hostname, other) && LessDot(net.lowered(other), host) { BracketsGo(url.hostname, other); }
  }

  /** The machine's own name, a local network's, or one below them. */
  ghost predicate Local(host: string) {
    || host == "localhost" || host == "local" || host == "internal"
    || (exists above :: host == above + ".localhost")
    || (exists above :: host == above + ".local")
    || (exists above :: host == above + ".internal")
  }

  lemma EndsWithIs(text: string, end: string)
    ensures EndsWith(text, end) <==> exists above :: text == above + end
  {
    if EndsWith(text, end) { assert text == text[..|text| - |end|] + end; }
    if above :| text == above + end { assert text[|text| - |end|..] == end; }
  }

  lemma LocalIsBlocked(host: string)
    ensures Local(host) <==> BlockedName(host)
  {
    var names := {"localhost", "local", "internal"};
    EndsWithIs(host, ".localhost");
    EndsWithIs(host, ".local");
    EndsWithIs(host, ".internal");
    assert "." + "localhost" == ".localhost" && "." + "local" == ".local" && "." + "internal" == ".internal";
    assert "localhost" in names && "local" in names && "internal" in names;
    if BlockedName(host) {
      var name :| name in names && (host == name || EndsWith(host, "." + name));
    }
  }

  // ---- The checks, each by itself ----

  /** The checks in the order they are made. */
  datatype Check = OfMethod | OfAddress | OfProtocol | OfCredentials | OfPort | OfName | OfIp | OfDomain | OfOrigin | OfDowngrade

  function Turn(check: Check): nat {
    match check
    case OfMethod => 0
    case OfAddress => 1
    case OfProtocol => 2
    case OfCredentials => 3
    case OfPort => 4
    case OfName => 5
    case OfIp => 6
    case OfDomain => 7
    case OfOrigin => 8
    case OfDowngrade => 9
  }

  /** A request: how it is made and from where, and the names its parts go by. */
  datatype Request = Request(
    url: Option<Url>,
    verb: string,
    isNavigation: bool,
    from: Option<Url>,    // where a redirect came from, if it did and can be read
    redirected: bool,
    host: string,
    domain: Option<string>,
    allowed: string)

  /** What an address asked for comes to. */
  ghost predicate IsRequest(net: Net, raw: string, verb: string, isNavigation: bool, allowedDomain: string, redirectedFrom: Option<string>,
                            request: Request) {
    && request.url == net.parse(raw) && request.verb == verb && request.isNavigation == isNavigation
    && request.redirected == (redirectedFrom.Some? && redirectedFrom.value != "")
    && (request.redirected ==> request.from == net.parse(redirectedFrom.value))
    && (request.url.Some? ==> Names(net, request.url.value.hostname, request.host))
    && (exists name :: LessDot(net.lowered(request.host), name) && request.domain == net.domainOf(name))
    && LessDot(net.lowered(allowedDomain), request.allowed)
  }

  ghost predicate Passes(net: Net, request: Request, check: Check) {
    match check
    case OfMethod => request.verb == "GET" || request.verb == "HEAD"
    case OfAddress => request.url.Some?
    case OfProtocol => request.url.Some? && (request.url.value.protocol == "http:" || request.url.value.protocol == "https:")
    case OfCredentials => request.url.Some? && request.url.value.username == "" && request.url.value.password == ""
    case OfPort =>
      && request.url.Some?
      && (|| request.url.value.port == ""
          || (request.url.value.protocol == "http:" && request.url.value.port == "80")
          || (request.url.value.protocol == "https:" && request.url.value.port == "443"))
    case OfName => request.host != "" && !Local(request.host)
    case OfIp => net.publicIp(request.host) != Some(false)
    case OfDomain => request.isNavigation ==> request.domain == Some(request.allowed) && request.allowed != ""
    case OfOrigin => request.isNavigation && request.redirected ==> request.from.Some?
    case OfDowngrade =>
      request.isNavigation && request.redirected && request.from.Some? && request.from.value.protocol == "https:" ==>
        request.url.Some? && request.url.value.protocol == "https:"
  }

  /** What a request that fails a check first is told. */
  ghost predicate ToldOf(check: Check, code: Code) {
    match check
    case OfMethod => code.MethodBlocked?
    case OfAddress => code.InvalidUrl?
    case OfProtocol => code.ProtocolBlocked?
    case OfCredentials => code.CredentialsBlocked?
    case OfPort => code.PortBlocked?
    case OfName => code.HostBlocked?
    case OfIp => code.HostBlocked?
    case OfDomain => code.NavigationCrossSite?
    case OfOrigin => code.InvalidUrl?
    case OfDowngrade => code.RedirectDowngrade?
  }

  ghost predicate FailsFirst(net: Net, request: Request, check: Check) {
    !Passes(net, request, check) && forall other: Check :: Turn(other) < Turn(check) ==> Passes(net, request, other)
  }

  /**
   * A request is allowed exactly where it passes every check, whether it navigates or not, and then without its
   * fragment; one that is refused is told of the first check it fails.
   */
  lemma EveryRequestIsJudged(net: Net, raw: string, verb: string, isNavigation: bool, allowedDomain: string,
                             redirectedFrom: Option<string>, request: Request)
    requires IsRequest(net, raw, verb, isNavigation, allowedDomain, redirectedFrom, request)
    ensures var decision := InspectRequest(net, raw, verb, isNavigation, allowedDomain, redirectedFrom);
            && (decision.Allowed? <==> forall check: Check :: Passes(net, request, check))
            && (decision.Allowed? ==> request.url.Some? && decision.url == request.url.value.(hash := ""))
            && (decision.Refused? ==> exists check: Check :: FailsFirst(net, request, check) && ToldOf(check, decision.code))
  {
    var failing := FirstFailing(net, request);
    if failing.Some? {
      RefusedForIt(net, raw, verb, isNavigation, allowedDomain, redirectedFrom, request, failing.value);
    } else {
      AllowedByAll(net, raw, verb, isNavigation, allowedDomain, redirectedFrom, request);
    }
  }

  /** The names the checks compare are the ones the names of a request's parts come to. */
  lemma NamesOfTheParts(net: Net, raw: string, verb: string, isNavigation: bool, allowedDomain: string,
                        redirectedFrom: Option<string>, request: Request)
    requires IsRequest(net, raw, verb, isNavigation, allowedDomain, redirectedFrom, request)
    ensures request.url.Some? ==> request.host == HostOf(net, request.url.value)
    ensures request.domain == RegistrableDomain(net, request.host) && request.allowed == NormalizeDomain(net, allowedDomain)
    ensures Local(request.host) <==> BlockedName(request.host)
  {
    LocalIsBlocked(request.host);
    DotGoes(net, allowedDomain, request.allowed);
    var name :| LessDot(net.lowered(request.host), name) && request.domain == net.domainOf(name);
    DotGoes(net, request.host, name);
    if request.url.Some? { HostIsNamed(net, request.url.value, request.host); }
  }

  lemma AllowedByAll(net: Net, raw: string, verb: string, isNavigation: bool, allowedDomain: string,
                     redirectedFrom: Option<string>, request: Request)
    requires IsRequest(net, raw, verb, isNavigation, allowedDomain, redirectedFrom, request)
    requires forall check: Check :: Passes(net, request, check)
    ensures request.url.Some?
    ensures InspectRequest(net, raw, verb, isNavigation, allowedDomain, redirectedFrom) == Allowed(request.url.value.(hash := ""))
  {
    NamesOfTheParts(net, raw, verb, isNavigation, allowedDomain, redirectedFrom, request);
    assert Passes(net, request, OfMethod) && Passes(net, request, OfAddress) && Passes(net, request, OfProtocol);
    assert Passes(net, request, OfCredentials) && Passes(net, request, OfPort) && Passes(net, request, OfName);
    assert Passes(net, request, OfIp) && Passes(net, request, OfDomain) && Passes(net, request, OfOrigin);
    assert Passes(net, request, OfDowngrade);
  }

  /** The checks made before one are passed where that is the first to fail. */
  lemma PassedBefore(net: Net, request: Request, check: Check, other: Check)
    requires FailsFirst(net, request, check)
    ensures Turn(other) < Turn(check) ==> Passes(net, request, other)
  {
  }

  lemma RefusedForIt(net: Net, raw: string, verb: string, isNavigation: bool, allowedDomain: string,
                     redirectedFrom: Option<string>, request: Request, check: Check)
    requires IsRequest(net, raw, verb, isNavigation, allowedDomain, redirectedFrom, request) && FailsFirst(net, request, check)
    ensures var decision := InspectRequest(net, raw, verb, isNavigation, allowedDomain, redirectedFrom);
            decision.Refused? && ToldOf(check, decision.code)
  {
    NamesOfTheParts(net, raw, verb, isNavigation, allowedDomain, redirectedFrom, request);
    PassedBefore(net, request, check, OfMethod);
    PassedBefore(net, request, check, OfAddress);
    PassedBefore(net, request, check, OfProtocol);
    PassedBefore(net, request, check, OfCredentials);
    PassedBefore(net, request, check, OfPort);
    PassedBefore(net, request, check, OfName);
    PassedBefore(net, request, check, OfIp);
    PassedBefore(net, request, check, OfDomain);
    PassedBefore(net, request, check, OfOrigin);
  }

  /** Which check a request fails first, if any. */
  lemma FirstFailing(net: Net, request: Request) returns (failing: Option<Check>)
    ensures failing.Some? ==> FailsFirst(net, request, failing.value)
    ensures failing.None? ==> forall check: Check :: Passes(net, request, check)
  {
    var checks := [OfMethod, OfAddress, OfProtocol, OfCredentials, OfPort, OfName, OfIp, OfDomain, OfOrigin, OfDowngrade];
    assert forall check: Check :: checks[Turn(check)] == check;
    for i := 0 to |checks|
      invariant forall check: Check :: Turn(check) < i ==> Passes(net, request, check)
    {
      if !Passes(net, request, checks[i]) { return Some(checks[i]); }
    }
    failing := None;
  }

  /** A redirect is followed exactly where the address it names is one that may be navigated to from there. */
  lemma RedirectsAreJudged(net: Net, domain: string, from: Url, location: string, candidate: Url)
    requires net.resolve(location, from) == Some(candidate) && net.parse(net.text(candidate)) == Some(candidate)
    requires net.parse(net.text(from)) == Some(from) && net.text(from) != ""
    ensures var to := ResolveSafeNavigationRedirect(net, domain, from, location);
            && (to.Some? <==> (from.protocol == "https:" ==> candidate.protocol == "https:") && MayNavigate(net, candidate, domain))
            && (to.Some? ==> to.value == candidate.(hash := ""))
  {
    var request := RequestOf(net, net.text(candidate), "GET", true, domain, Some(net.text(from)));
    EveryRequestIsJudged(net, net.text(candidate), "GET", true, domain, Some(net.text(from)), request);
    NavigatesByItsChecks(net, candidate, domain, request);
    assert Passes(net, request, OfDowngrade) <==> (from.protocol == "https:" ==> candidate.protocol == "https:");
    if forall check: Check :: check != OfDowngrade ==> Passes(net, request, check) {
      if Passes(net, request, OfDowngrade) { assert forall check: Check :: Passes(net, request, check); }
    }
  }

  /** What may be navigated to: a public page of the domain over the web's own protocols, nothing odd about its address. */
  ghost predicate MayNavigate(net: Net, url: Url, domain: string) {
    exists host, name, allowed ::
      && Names(net, url.hostname, host) && LessDot(net.lowered(host), name) && LessDot(net.lowered(domain), allowed)
      && (url.protocol == "http:" || url.protocol == "https:") && url.username == "" && url.password == ""
      && (|| url.port == "" || (url.protocol == "http:" && url.port == "80") || (url.protocol == "https:" && url.port == "443"))
      && host != "" && !Local(host) && net.publicIp(host) != Some(false)
      && net.domainOf(name) == Some(allowed) && allowed != ""
  }

  /** The names a request's parts go by. */
  lemma RequestOf(net: Net, raw: string, verb: string, isNavigation: bool, allowedDomain: string, redirectedFrom: Option<string>)
    returns (request: Request)
    ensures IsRequest(net, raw, verb, isNavigation, allowedDomain, redirectedFrom, request)
  {
    var url := net.parse(raw);
    var host := if url.Some? then HostOf(net, url.value) else "";
    var redirected := redirectedFrom.Some? && redirectedFrom.value != "";
    request := Request(url, verb, isNavigation, if redirected then net.parse(redirectedFrom.value) else None, redirected, host,
                       RegistrableDomain(net, host), NormalizeDomain(net, allowedDomain));
    if url.Some? { HostIsNamed(net, url.value, host); }
    DotGoes(net, host, NormalizeDomain(net, host));
    DotGoes(net, allowedDomain, NormalizeDomain(net, allowedDomain));
  }

  lemma NavigatesByItsChecks(net: Net, url: Url, domain: string, request: Request)
    requires request.url == Some(url) && request.verb == "GET" && request.isNavigation
    requires request.redirected ==> request.from.Some?
    requires Names(net, url.hostname, request.host) && LessDot(net.lowered(domain), request.allowed)
    requires exists name :: LessDot(net.lowered(request.host), name) && request.domain == net.domainOf(name)
    ensures MayNavigate(net, url, domain) <==> forall check: Check :: check != OfDowngrade ==> Passes(net, request, check)
  {
    var name :| LessDot(net.lowered(request.host), name) && request.domain == net.domainOf(name);
    if MayNavigate(net, url, domain) {
      var host, other, allowed :| && Names(net, url.hostname, host) && LessDot(net.lowered(host), other) && LessDot(net.lowered(domain), allowed)
        && (url.protocol == "http:" || url.protocol == "https:") && url.username == "" && url.password == ""
        && (|| url.port == "" || (url.protocol == "http:" && url.port == "80") || (url.protocol == "https:" && url.port == "443"))
        && host != "" && !Local(host) && net.publicIp(host) != Some(false)
        && net.domainOf(other) == Some(allowed) && allowed != "";
      HostIsNamed(net, url, host);
      HostIsNamed(net, url, request.host);
      DotGoes(net, host, name);
      DotGoes(net, host, other);
      DotGoes(net, domain, allowed);
      DotGoes(net, domain, request.allowed);
    }
    if forall check: Check :: check != OfDowngrade ==> Passes(net, request, check) {
      assert Passes(net, request, OfProtocol) && Passes(net, request, OfCredentials) && Passes(net, request, OfPort);
      assert Passes(net, request, OfName) && Passes(net, request, OfIp) && Passes(net, request, OfDomain);
      assert LessDot(net.lowered(request.host), name);
    }
  }

  // ---- The pages a run is asked for ----

  /** Whether a page asked for is one to take, and what else may be wrong with it. */
  predicate MayBeOpened(net: Net, raw: string, declared: string) {
    InspectRequest(net, raw, "GET", true, declared, None).Allowed?
  }

  predicate NamesQueryOrFragment(net: Net, raw: string) {
    net.parse(raw).Some? && (net.parse(raw).value.search != "" || net.parse(raw).value.hash != "")
  }

  predicate AtFault(net: Net, raw: string, declared: string) {
    !MayBeOpened(net, raw, declared) || NamesQueryOrFragment(net, raw)
  }

  /** What the first page at fault has the whole request rejected for. */
  lemma {:induction false} FirstFaultDecides(net: Net, raws: seq<string>, declared: string, first: bool, i: nat)
    requires i < |raws| && AtFault(net, raws[i], declared) && forall j | 0 <= j < i :: !AtFault(net, raws[j], declared)
    ensures TargetsFrom(net, raws, declared, first) ==
              Rejected(if MayBeOpened(net, raws[i], declared) then QueryOrFragmentBlocked
                       else if first && i == 0 then TargetBlocked else RepresentativeBlocked)
  {
    if i > 0 {
      assert !AtFault(net, raws[0], declared);
      forall j | 0 <= j < i - 1 ensures !AtFault(net, raws[1..][j], declared) { assert raws[1..][j] == raws[j + 1]; }
      FirstFaultDecides(net, raws[1..], declared, false, i - 1);
    }
  }

  lemma {:induction false} FaultlessAreTaken(net: Net, raws: seq<string>, declared: string, first: bool)
    requires forall raw | raw in raws :: !AtFault(net, raw, declared)
    ensures var target := TargetsFrom(net, raws, declared, first);
            && target.Pages? && |target.urls| == |raws|
            && forall i | 0 <= i < |raws| :: InspectRequest(net, raws[i], "GET", true, declared, None) == Allowed(target.urls[i])
  {
    if raws != [] {
      assert raws == [raws[0]] + raws[1..];
      assert !AtFault(net, raws[0], declared);
      FaultlessAreTaken(net, raws[1..], declared, false);
    }
  }

  /** The declared domain is one: a name, and the registrable domain of itself. */
  ghost predicate IsDomain(net: Net, declared: string) {
    declared != "" && exists name :: LessDot(net.lowered(declared), name) && net.domainOf(name) == Some(declared)
  }

  /**
   * What a run is asked for is rejected for its domain first, then for the first page at fault, the one that is to
   * be opened first apart from the others, then where two pages are the same; else all its pages are taken, in order.
   */
  lemma WhatIsAskedForIsJudged(net: Net, canonical: string, representatives: seq<string>, domain: string, declared: string)
    requires LessDot(net.lowered(domain), declared)
    ensures var target, raws := ValidateActorTarget(net, canonical, representatives, domain), [canonical] + representatives;
            if !IsDomain(net, declared) then target == Rejected(DeclaredDomainInvalid)
            else if exists raw :: raw in raws && AtFault(net, raw, declared) then
              exists i | 0 <= i < |raws| ::
                && AtFault(net, raws[i], declared) && (forall j | 0 <= j < i :: !AtFault(net, raws[j], declared))
                && target == Rejected(if MayBeOpened(net, raws[i], declared) then QueryOrFragmentBlocked
                                      else if i == 0 then TargetBlocked else RepresentativeBlocked)
            else
              exists urls: seq<Url> ::
                && |urls| == |raws|
                && (forall i | 0 <= i < |raws| :: InspectRequest(net, raws[i], "GET", true, declared, None) == Allowed(urls[i]))
                && target == (if exists i, j :: 0 <= i < j < |urls| && net.text(urls[i]) == net.text(urls[j])
                              then Rejected(DuplicatePage) else Pages(urls))
  {
    var raws := [canonical] + representatives;
    DotGoes(net, domain, declared);
    DotGoes(net, declared, NormalizeDomain(net, declared));
    if name :| LessDot(net.lowered(declared), name) && net.domainOf(name) == Some(declared) { DotGoes(net, declared, name); }
    if exists raw :: raw in raws && AtFault(net, raw, declared) {
      var i := FirstFault(net, raws, declared);
      FirstFaultDecides(net, raws, declared, true, i);
    } else {
      FaultlessAreTaken(net, raws, declared, true);
      var urls := TargetsFrom(net, raws, declared, true).urls;
      assert Distinct(net, urls) <==> !exists i, j :: 0 <= i < j < |urls| && net.text(urls[i]) == net.text(urls[j]);
    }
  }

  lemma FirstFault(net: Net, raws: seq<string>, declared: string) returns (i: nat)
    requires exists raw :: raw in raws && AtFault(net, raw, declared)
    ensures i < |raws| && AtFault(net, raws[i], declared) && forall j | 0 <= j < i :: !AtFault(net, raws[j], declared)
  {
    i := 0;
    while !AtFault(net, raws[i], declared)
      invariant i < |raws| && forall j | 0 <= j < i :: !AtFault(net, raws[j], declared)
      decreases |raws| - i
    {
      if i == |raws| - 1 {
        var raw :| raw in raws && AtFault(net, raw, declared);
        var j :| 0 <= j < |raws| && raws[j] == raw;
        assert false;
      }
      i := i + 1;
    }
  }

  /** An address is allowed as a navigation exactly where it may be navigated to. */
  lemma NavigatesWhereItMay(net: Net, url: Url, domain: string)
    requires net.parse(net.text(url)) == Some(url)
    ensures var decision := InspectRequest(net, net.text(url), "GET", true, domain, None);
            (decision.Allowed? <==> MayNavigate(net, url, domain)) && (decision.Allowed? ==> decision.url == url.(hash := ""))
  {
    var request := RequestOf(net, net.text(url), "GET", true, domain, None);
    EveryRequestIsJudged(net, net.text(url), "GET", true, domain, None, request);
    NavigatesByItsChecks(net, url, domain, request);
    assert Passes(net, request, OfDowngrade);
    if forall check: Check :: check != OfDowngrade ==> Passes(net, request, check) {
      assert forall check: Check :: Passes(net, request, check);
    }
  }
}
