/** Whether a site's robots.txt lets the observer in: one lookup for each origin, and no answer is a no. */
module Robots {
  import opened Options
  import opened NetworkPolicy

  /** What a robots.txt says, as read. */
  datatype Rules = Rules(fatal: bool, search: Option<string>, allows: string -> bool)

  datatype Cached = AllowAll | Parsed(rules: Rules) | Blocked

  datatype Response = Response(status: int, location: Option<string>, body: string)

  /** How one fetch ends: answered, or thrown out of time, over a budget or by the network. */
  datatype Fetched = Answered(response: Response) | Threw

  /** What each fetch of a lookup meets, and whether the run's requests are used up when it is followed on. */
  datatype Site = Site(
    fetch: (nat, Url) -> Fetched,
    usedUp: nat -> bool,
    rulesIn: string -> Rules)

  const REDIRECTS := 2
  const ROBOTS_PATH := "/robots.txt"

  predicate PermitsSearch(rules: Rules) {
    rules.search != Some("no")
  }

  predicate PermitsNavigation(rules: Rules, url: Url) {
    PermitsSearch(rules) && rules.allows((if url.path == "" then "/" else url.path) + url.search)
  }

  function OriginOf(url: Url): (string, string, string) {
    (url.protocol, url.hostname, url.port)
  }

  function RobotsUrl(url: Url): Url {
    Url(url.protocol, "", "", url.hostname, url.port, ROBOTS_PATH, "", "")
  }

  predicate Redirects(response: Response) {
    response.location.Some? && response.location.value != "" && response.status in {301, 302, 303, 307, 308}
  }

  /** What a final answer says of its origin. */
  function Verdict(site: Site, response: Response): Cached {
    if response.status == 404 || response.status == 410 then AllowAll
    else if 200 <= response.status < 300 then
      var rules := site.rulesIn(response.body);
      if rules.fatal || !PermitsSearch(rules) then Blocked else Parsed(rules)
    else Blocked
  }

  /** Whether a fetch was answered by a redirect that may be followed to a page. */
  ghost predicate Hop(net: Net, site: Site, domain: string, i: nat, from: Url, to: Url) {
    && site.fetch(i, from).Answered? && Redirects(site.fetch(i, from).response)
    && ResolveSafeNavigationRedirect(net, domain, from, site.fetch(i, from).response.location.value) == Some(to)
    && !site.usedUp(i + 1)
  }

  /** A lookup's fetches in turn: the origin's robots.txt, then where each answer redirects, on the declared domain alone. */
  ghost predicate Follows(net: Net, site: Site, origin: Url, domain: string, fetched: seq<Url>) {
    && 1 <= |fetched| <= REDIRECTS + 1 && fetched[0] == RobotsUrl(origin)
    && forall i: nat, j: nat | j == i + 1 && j < |fetched| :: Hop(net, site, domain, i, fetched[i], fetched[j])
  }

  /** Why a lookup ended where it did, and what is kept of it: an answer that is no redirect, or nothing to follow on. */
  ghost predicate Concludes(net: Net, site: Site, domain: string, fetched: seq<Url>, cached: Cached)
    requires fetched != []
  {
    var last := |fetched| - 1;
    match site.fetch(last, fetched[last])
    case Threw => cached.Blocked?
    case Answered(response) =>
      if !Redirects(response) then cached == Verdict(site, response)
      else
        && cached.Blocked?
        && (last == REDIRECTS || ResolveSafeNavigationRedirect(net, domain, fetched[last], response.location.value).None?
            || site.usedUp(last + 1))
  }

  /** One lookup: three fetches at most, each after the first where a safe redirect leads; whatever goes wrong blocks. */
  method LookUp(net: Net, site: Site, origin: Url, domain: string) returns (cached: Cached, fetched: seq<Url>)
    ensures Follows(net, site, origin, domain, fetched)
    ensures Concludes(net, site, domain, fetched, cached)
  {
    var robotsUrl := RobotsUrl(origin);
    fetched := [robotsUrl];
    var redirectCount: nat := 0;
    while true
      invariant redirectCount <= REDIRECTS && |fetched| == redirectCount + 1 && fetched[redirectCount] == robotsUrl
      invariant Follows(net, site, origin, domain, fetched)
      decreases REDIRECTS - redirectCount
    {
      var outcome := site.fetch(redirectCount, robotsUrl);
      if outcome.Threw? { return Blocked, fetched; }
      var response := outcome.response;
      if !Redirects(response) { return Verdict(site, response), fetched; }
      if redirectCount >= REDIRECTS { return Blocked, fetched; }
      var next := ResolveSafeNavigationRedirect(net, domain, robotsUrl, response.location.value);
      if next.None? { return Blocked, fetched; }
      if site.usedUp(redirectCount + 1) { return Blocked, fetched; }
      robotsUrl, redirectCount := next.value, redirectCount + 1;
      fetched := fetched + [robotsUrl];
    }
  }

  /** Whatever a lookup of a page of the declared domain fetches lies on that domain, and none goes from https to http. */
  lemma {:induction false} HopsStayOnDomain(net: Net, site: Site, origin: Url, domain: string, fetched: seq<Url>, i: nat)
    requires Faithful(net) && OnDomain(net, origin, domain) && net.standard(RobotsUrl(origin))
    requires forall url :: net.standard(url) ==> net.text(url) != ""
    requires Follows(net, site, origin, domain, fetched) && i < |fetched|
    ensures OnDomain(net, fetched[i], domain)
    ensures forall j | 0 <= j <= i :: fetched[j].protocol == "https:" ==> fetched[i].protocol == "https:"
  {
    if i == 0 {
      assert HostOf(net, fetched[0]) == HostOf(net, origin);
    } else {
      HopsStayOnDomain(net, site, origin, domain, fetched, i - 1);
      assert Hop(net, site, domain, i - 1, fetched[i - 1], fetched[i]);
      RedirectStaysSafe(net, domain, fetched[i - 1], site.fetch(i - 1, fetched[i - 1]).response.location.value);
    }
  }

  /** Whether a page may be opened, from what is kept of its origin. */
  predicate Permits(cached: Cached, url: Url) {
    match cached
    case Blocked => false
    case AllowAll => true
    case Parsed(rules) => PermitsNavigation(rules, url)
  }

  /** An answer that sends a lookup on: one of the five redirects, with somewhere to go. */
  ghost predicate SendsOn(answer: Response) {
    answer.location.Some? && |answer.location.value| > 0 && (301 <= answer.status <= 303 || 307 <= answer.status <= 308)
  }

  /** A page is let in only on an answer that said so: no robots.txt there, or rules that permit search and this path. */
  lemma AllowedOnAnAnswer(net: Net, site: Site, domain: string, fetched: seq<Url>, cached: Cached, url: Url)
    requires fetched != [] && Concludes(net, site, domain, fetched, cached)
    ensures Permits(cached, url) <==> SaysYes(site.fetch(|fetched| - 1, fetched[|fetched| - 1]), site, url)
  {
    assert url.path == "" ==> "/" + url.search == ['/'] + url.search;
  }

  /** Whether what a fetch met lets a page in. */
  ghost predicate SaysYes(last: Fetched, site: Site, url: Url) {
    && last.Answered? && !SendsOn(last.response)
    && (|| last.response.status == 404 || last.response.status == 410
        || (&& 200 <= last.response.status <= 299
            && var rules := site.rulesIn(last.response.body);
               && !rules.fatal && (rules.search.Some? ==> rules.search.value != "no")
               && rules.allows(if |url.path| > 0 then url.path + url.search else "/" + url.search)))
  }

  /**
   * A lookup asks for robots.txt at the page's own origin and nothing else of it, and then, three times in all at
   * most, for where each answer sends it on. It ends with an answer that does not, or with nothing to be let in on.
   */
  lemma WhatALookupFetches(net: Net, site: Site, domain: string, origin: Url, fetched: seq<Url>, cached: Cached)
    requires Follows(net, site, origin, domain, fetched) && Concludes(net, site, domain, fetched, cached)
    ensures 1 <= |fetched| <= 3
    ensures fetched[0] == origin.(username := "", password := "", path := "/robots.txt", search := "", hash := "")
    ensures forall i: nat, j: nat | j == i + 1 && j < |fetched| :: SentOn(net, site.fetch(i, fetched[i]), domain, fetched[i], fetched[j])
    ensures var last := |fetched| - 1;
            var answer := site.fetch(last, fetched[last]);
            (answer.Answered? && SendsOn(answer.response)) || answer.Threw? ==> cached.Blocked?
    ensures var last := |fetched| - 1;
            var answer := site.fetch(last, fetched[last]);
            answer.Answered? && SendsOn(answer.response) ==>
              || |fetched| == 3 || site.usedUp(|fetched|)
              || ResolveSafeNavigationRedirect(net, domain, fetched[last], answer.response.location.value).None?
  {
    forall i: nat, j: nat | j == i + 1 && j < |fetched| ensures SentOn(net, site.fetch(i, fetched[i]), domain, fetched[i], fetched[j]) {
      assert Hop(net, site, domain, i, fetched[i], fetched[j]);
    }
  }

  /** Whether a fetch was answered by a redirect that leads safely from one page to another. */
  ghost predicate SentOn(net: Net, met: Fetched, domain: string, from: Url, to: Url) {
    met.Answered? && SendsOn(met.response) && ResolveSafeNavigationRedirect(net, domain, from, met.response.location.value) == Some(to)
  }

  class RobotsCache {
    var kept: map<(string, string, string), Cached>

    constructor ()
      ensures kept == map[]
    {
      kept := map[];
    }

    /** An origin once looked up is never looked up again; another's answer stays as it is. */
    method Allows(net: Net, site: Site, url: Url, domain: string) returns (allowed: bool, fetched: seq<Url>)
      modifies this
      ensures OriginOf(url) in kept && allowed == Permits(kept[OriginOf(url)], url)
      ensures forall origin :: origin in kept <==> origin in old(kept) || origin == OriginOf(url)
      ensures forall origin | origin in old(kept) :: kept[origin] == old(kept)[origin]
      ensures if OriginOf(url) in old(kept) then fetched == []
              else Follows(net, site, url, domain, fetched) && Concludes(net, site, domain, fetched, kept[OriginOf(url)])
    {
      fetched := [];
      if OriginOf(url) !in kept {
        var cached;
        cached, fetched := LookUp(net, site, url, domain);
        kept := kept[OriginOf(url) := cached];
      }
      allowed := Permits(kept[OriginOf(url)], url);
    }

    /** A lookup begun before another of the same origin ended fetches all the same, and the last to end is kept. */
    method LookUpBeside(net: Net, site: Site, url: Url, domain: string) returns (fetched: seq<Url>)
      modifies this
      ensures OriginOf(url) in kept && forall origin :: origin in kept <==> origin in old(kept) || origin == OriginOf(url)
      ensures forall origin | origin in old(kept) && origin != OriginOf(url) :: kept[origin] == old(kept)[origin]
      ensures Follows(net, site, url, domain, fetched) && Concludes(net, site, domain, fetched, kept[OriginOf(url)])
    {
      var cached;
      cached, fetched := LookUp(net, site, url, domain);
      kept := kept[OriginOf(url) := cached];
    }
  }
}
