/** One run of the browser observer: the pages it lets in, the ones it opens, and what it may call the result. */
module ObservationRun {
  import opened Options
  import opened NetworkPolicy
  import opened Representatives
  import opened Robots

  datatype Status = Completed | Partial | BlockedRun | Failed

  /** How the observation of a page ends: in an error, or seen, perhaps behind a challenge, with the links it holds. */
  datatype Seen = NotSeen | SeenPage(challenge: bool, links: seq<string>)

  /** Whatever the world answers a run. */
  datatype World = World(
    site: nat -> Site,
    launches: bool,
    aborted: nat -> bool,
    abortedAtEnd: bool,
    page: (nat, Url) -> Seen,
    resolves: (nat, Url) -> bool,
    bytesUsedUp: nat -> bool,
    requestsUsedUp: nat -> bool,
    handled: nat -> seq<Handled>)

  /** A lookup a page's own handlers carry through while the page is open, beside whatever others they begin. */
  datatype Handled = Handled(page: Url, site: Site)

  lemma StaysDistinct(net: Net, requested: seq<Url>, allowed: seq<Url>, index: nat)
    requires index < |requested| && Distinct(net, requested) && Distinct(net, allowed)
    requires forall url | url in allowed :: url in requested[..index]
    ensures Distinct(net, allowed + [requested[index]])
  {
    forall i | 0 <= i < |allowed| ensures net.text(allowed[i]) != net.text(requested[index]) {
      assert allowed[i] in requested[..index];
      var j :| 0 <= j < index && requested[j] == allowed[i];
    }
  }

  /** Whether a lookup that meets these answers, of this page's origin, concludes with an answer. */
  ghost predicate LookedUp(net: Net, site: Site, domain: string, page: Url, fetched: seq<Url>, answer: Cached) {
    Follows(net, site, page, domain, fetched) && Concludes(net, site, domain, fetched, answer)
  }

  /** Whether an answer was had of an origin, by a lookup of the run or of the handlers of a page it opened. */
  ghost predicate Had(net: Net, world: World, domain: string, origin: (string, string, string), answer: Cached) {
    || (exists k: nat, page, fetched :: OriginOf(page) == origin && LookedUp(net, world.site(k), domain, page, fetched, answer))
    || (exists k: nat, i: nat, fetched :: HandledHad(net, world, domain, origin, answer, k, i, fetched))
  }

  ghost predicate HandledHad(net: Net, world: World, domain: string, origin: (string, string, string), answer: Cached, k: nat, i: nat, fetched: seq<Url>) {
    && i < |world.handled(k)| && OriginOf(world.handled(k)[i].page) == origin
    && LookedUp(net, world.handled(k)[i].site, domain, world.handled(k)[i].page, fetched, answer)
  }

  ghost predicate LetIn(net: Net, world: World, domain: string, url: Url) {
    exists answer :: Had(net, world, domain, OriginOf(url), answer) && Permits(answer, url)
  }

  ghost predicate TurnedAway(net: Net, world: World, domain: string, url: Url) {
    || (exists answer :: Had(net, world, domain, OriginOf(url), answer) && !Permits(answer, url))
    || (exists k: nat :: !world.resolves(k, url))
  }

  lemma LookedUpIsHad(net: Net, world: World, domain: string, k: nat, page: Url, fetched: seq<Url>, answer: Cached)
    requires LookedUp(net, world.site(k), domain, page, fetched, answer)
    ensures Had(net, world, domain, OriginOf(page), answer)
  {
  }

  lemma HandledIsHad(net: Net, world: World, domain: string, k: nat, i: nat, fetched: seq<Url>, answer: Cached)
    requires i < |world.handled(k)|
    requires LookedUp(net, world.handled(k)[i].site, domain, world.handled(k)[i].page, fetched, answer)
    ensures Had(net, world, domain, OriginOf(world.handled(k)[i].page), answer)
  {
    assert HandledHad(net, world, domain, OriginOf(world.handled(k)[i].page), answer, k, i, fetched);
  }

  lemma AnswerDecides(net: Net, world: World, domain: string, url: Url, answer: Cached)
    requires Had(net, world, domain, OriginOf(url), answer)
    ensures if Permits(answer, url) then LetIn(net, world, domain, url) else TurnedAway(net, world, domain, url)
  {
  }

  lemma NotFoundIsTurnedAway(net: Net, world: World, domain: string, url: Url, k: nat)
    requires !world.resolves(k, url)
    ensures TurnedAway(net, world, domain, url)
  {
  }

  /**
   * A page let in has an answer that said so behind it: at the end of a lookup its site said that it has no
   * robots.txt, or gave sound rules that permit search and this path.
   */
  lemma LetInOnAnAnswer(net: Net, world: World, domain: string, url: Url) returns (site: Site, page: Url, fetched: seq<Url>)
    requires LetIn(net, world, domain, url)
    ensures OriginOf(page) == OriginOf(url) && SaidYes(net, site, page, domain, fetched, url)
    ensures (exists k: nat :: site == world.site(k)) || exists k: nat, i: nat :: i < |world.handled(k)| && world.handled(k)[i] == Handled(page, site)
  {
    var answer :| Had(net, world, domain, OriginOf(url), answer) && Permits(answer, url);
    if k: nat, one, hops :| OriginOf(one) == OriginOf(url) && LookedUp(net, world.site(k), domain, one, hops, answer) {
      site, page, fetched := world.site(k), one, hops;
    } else {
      var k: nat, i: nat, hops :| HandledHad(net, world, domain, OriginOf(url), answer, k, i, hops);
      site, page, fetched := world.handled(k)[i].site, world.handled(k)[i].page, hops;
      assert world.handled(k)[i] == Handled(page, site);
    }
    AllowedOnAnAnswer(net, site, domain, fetched, answer, url);
  }

  /** Whether a lookup's last answer lets a page in. */
  ghost predicate SaidYes(net: Net, site: Site, page: Url, domain: string, fetched: seq<Url>, url: Url) {
    Follows(net, site, page, domain, fetched) && SaysYes(site.fetch(|fetched| - 1, fetched[|fetched| - 1]), site, url)
  }

  /** Pages up to a place, divided into those let in and those turned away; the first is let in. */
  predicate Divided(requested: seq<Url>, allowed: seq<Url>, away: seq<Url>, index: nat) {
    && index <= |requested| && |allowed| <= index
    && (forall url | url in allowed :: url in requested[..index])
    && (forall url | url in requested[..index] :: url in allowed || url in away)
    && (if index == 0 then away == [] else requested[0] in allowed)
  }

  lemma DividedOn(requested: seq<Url>, allowed: seq<Url>, away: seq<Url>, index: nat)
    requires Divided(requested, allowed, away, index) && index < |requested|
    ensures Divided(requested, allowed + [requested[index]], away, index + 1)
    ensures index > 0 ==> Divided(requested, allowed, away + [requested[index]], index + 1)
  {
    assert requested[..index + 1] == requested[..index] + [requested[index]];
  }

  predicate Challenged(seen: Seen) {
    seen.SeenPage? && seen.challenge
  }

  /** What a run is called once its pages have had their turns. */
  function ObservedRunStatus(pages: nat, challenged: bool, failures: nat, bytesExceeded: bool, requestsExceeded: bool, cutShort: bool): Status {
    if pages == 0 then Failed
    else if challenged then BlockedRun
    else if failures > 0 || bytesExceeded || requestsExceeded || cutShort then Partial
    else Completed
  }

  class Run {
    const net: Net
    const taste: Taste
    const domain: string
    const maxPages: nat
    const requested: seq<Url>
    const targets: seq<Url>
    const world: World
    const cache: RobotsCache
    var allowedUrls: seq<Url>
    var observed: seq<Url>
    var missed: seq<Url>
    var turnedAway: seq<Url>
    var challenged: bool
    var byteBudgetExceeded: bool
    var requestBudgetExceeded: bool
    var asked: nat
    /** The first page's own choice of pages, once it was seen with room left. */
    var chosen: seq<Link>

    /**
     * The pages let in are few, of the declared domain, none twice, and each was let in by an answer had of
     * its origin; each turned away was not, or its host not found; and every answer kept was had.
     */
    ghost predicate Valid()
      reads this, cache
    {
      && Faithful(net) && Collates(taste) && maxPages >= 1
      && Distinct(net, allowedUrls) && |allowedUrls| <= maxPages
      && (forall url | url in allowedUrls :: Observable(net, url, domain) && LetIn(net, world, domain, url))
      && (forall url | url in turnedAway :: TurnedAway(net, world, domain, url))
      && (forall origin | origin in cache.kept :: Had(net, world, domain, origin, cache.kept[origin]))
    }

    ghost predicate Fresh()
      reads this
    {
      && allowedUrls == observed == missed == turnedAway == [] && chosen == []
      && !challenged && !byteBudgetExceeded && !requestBudgetExceeded
      && Requests() && (requested == if |targets| > maxPages then targets[..maxPages] else targets)
    }

    /** A run takes on what the target check let through, as many pages of it as it may open. */
    constructor (net: Net, taste: Taste, domain: string, maxPages: nat, canonical: string, representatives: seq<string>, world: World)
      requires Faithful(net) && Collates(taste) && maxPages >= 1
      requires NormalizeDomain(net, NormalizeDomain(net, domain)) == NormalizeDomain(net, domain)
      requires ValidateActorTarget(net, canonical, representatives, domain).Pages?
      ensures Valid() && Fresh() && fresh(cache)
      ensures this.net == net && this.taste == taste && this.domain == domain && this.maxPages == maxPages && this.world == world
      ensures targets == ValidateActorTarget(net, canonical, representatives, domain).urls && Distinct(net, targets)
    {
      var urls := ValidateActorTarget(net, canonical, representatives, domain).urls;
      TargetIsSound(net, canonical, representatives, domain);
      this.net, this.taste, this.domain, this.maxPages := net, taste, domain, maxPages;
      targets, this.world := urls, world;
      requested := if |urls| > maxPages then urls[..maxPages] else urls;
      cache := new RobotsCache();
      allowedUrls, observed, missed, turnedAway, chosen := [], [], [], [], [];
      challenged, byteBudgetExceeded, requestBudgetExceeded, asked := false, false, false, 0;
    }

    /** The number of pages the output counts as failed. */
    function PageFailureCount(): nat
      reads this
    {
      |turnedAway| + |missed|
    }

    method AskRobots(url: Url) returns (allowed: bool)
      requires Valid()
      modifies this`asked, cache
      ensures Valid()
      ensures if allowed then LetIn(net, world, domain, url) else TurnedAway(net, world, domain, url)
    {
      ghost var before := cache.kept;
      ghost var k := asked;
      var fetched;
      allowed, fetched := cache.Allows(net, world.site(asked), url, domain);
      asked := asked + 1;
      if OriginOf(url) !in before { LookedUpIsHad(net, world, domain, k, url, fetched, cache.kept[OriginOf(url)]); }
      AnswerDecides(net, world, domain, url, cache.kept[OriginOf(url)]);
    }

    /** The pages asked for, as the target check let them through. */
    ghost predicate Requests() {
      requested != [] && |requested| <= maxPages && Distinct(net, requested)
      && forall url | url in requested :: Observable(net, url, domain)
    }

    /** The pages asked for up to a place have been let in or turned away, and none other. */
    ghost predicate Asked(index: nat)
      reads this
    {
      Divided(requested, allowedUrls, turnedAway, index)
    }

    /** The requested pages, each let in or turned away; none at all where the first is turned away. */
    method AdmitRequested() returns (blocked: bool)
      requires Valid() && Requests() && Asked(0)
      modifies this`asked, this`allowedUrls, this`turnedAway, cache
      ensures Valid()
      ensures if blocked then allowedUrls == [] && turnedAway == [] && TurnedAway(net, world, domain, requested[0]) else Asked(|requested|)
    {
      for index := 0 to |requested|
        invariant Valid() && Asked(index)
      {
        var allowed := AdmitOne(index);
        if !allowed && index == 0 { return true; }
      }
      blocked := false;
    }

    /** One requested page; the first, turned away, is not counted as failed. */
    method AdmitOne(index: nat) returns (allowed: bool)
      requires Valid() && Requests() && Asked(index) && index < |requested|
      modifies this`asked, this`allowedUrls, this`turnedAway, cache
      ensures Valid()
      ensures allowed || index > 0 ==> Asked(index + 1)
      ensures !allowed && index == 0 ==> allowedUrls == [] && turnedAway == [] && TurnedAway(net, world, domain, requested[0])
    {
      allowed := AskRobots(requested[index]);
      if allowed { Join(index); } else if index > 0 { TurnAway(index); }
    }

    method Join(index: nat)
      requires Valid() && Requests() && Asked(index) && index < |requested| && LetIn(net, world, domain, requested[index])
      modifies this`allowedUrls
      ensures Valid() && Asked(index + 1)
    {
      DividedOn(requested, allowedUrls, turnedAway, index);
      StaysDistinct(net, requested, allowedUrls, index);
      allowedUrls := allowedUrls + [requested[index]];
    }

    method TurnAway(index: nat)
      requires Valid() && Requests() && Asked(index) && 0 < index < |requested| && TurnedAway(net, world, domain, requested[index])
      modifies this`turnedAway
      ensures Valid() && Asked(index + 1)
    {
      DividedOn(requested, allowedUrls, turnedAway, index);
      turnedAway := turnedAway + [requested[index]];
    }

    /** Whether a page is let in, under whatever address of the same text, or was turned away. */
    predicate Weighed(url: Url)
      reads this
    {
      url in turnedAway || exists existing | existing in allowedUrls :: net.text(existing) == net.text(url)
    }

    /** Two links at most, each the last of its key, the best of all: what a page's links come to. */
    ghost predicate ChoiceOf(base: Url, links: seq<string>, chosen: seq<Link>) {
      var met := MetBy(net, taste, if |links| > 2_000 then links[..2_000] else links, base, domain);
      Chosen(met, chosen) && BestOf(Order(net, taste), met, chosen, 2)
    }

    /** The first page's own choice of pages: each is let in or turned away, unless there is no room left. */
    method AdmitRepresentatives(base: Url, links: seq<string>)
      requires Valid()
      modifies this`asked, this`allowedUrls, this`turnedAway, this`chosen, cache
      ensures Valid() && old(allowedUrls) <= allowedUrls && old(turnedAway) <= turnedAway
      ensures ChoiceOf(base, links, chosen)
      ensures |allowedUrls| == maxPages || forall link | link in chosen :: Weighed(link.url)
    {
      chosen := SelectRepresentativeUrls(net, taste, links, base, domain, 2);
      forall link | link in chosen ensures Observable(net, link.url, domain) {
        ChosenAreObservable(net, taste, if |links| > LINKS_READ then links[..LINKS_READ] else links, base, domain, link);
      }
      WeighAll(chosen);
    }

    method WeighAll(links: seq<Link>)
      requires Valid() && forall link | link in links :: Observable(net, link.url, domain)
      modifies this`asked, this`allowedUrls, this`turnedAway, cache
      ensures Valid() && old(allowedUrls) <= allowedUrls && old(turnedAway) <= turnedAway
      ensures |allowedUrls| == maxPages || forall link | link in links :: Weighed(link.url)
    {
      for k := 0 to |links|
        invariant Valid() && old(allowedUrls) <= allowedUrls && old(turnedAway) <= turnedAway
        invariant forall link | link in links[..k] :: Weighed(link.url)
      {
        if |allowedUrls| >= maxPages { return; }
        assert links[..k + 1] == links[..k] + [links[k]];
        Weigh(links[k].url);
      }
      assert links[..|links|] == links;
    }

    method Weigh(candidate: Url)
      requires Valid() && Observable(net, candidate, domain) && |allowedUrls| < maxPages
      modifies this`asked, this`allowedUrls, this`turnedAway, cache
      ensures Valid() && old(allowedUrls) <= allowedUrls && old(turnedAway) <= turnedAway && Weighed(candidate)
      ensures forall url :: old(Weighed(url)) ==> Weighed(url)
    {
      if forall existing | existing in allowedUrls :: net.text(existing) != net.text(candidate) {
        var allowed := false;
        if world.resolves(asked, candidate) { allowed := AskRobots(candidate); }
        else { NotFoundIsTurnedAway(net, world, domain, candidate, asked); }
        if allowed {
          allowedUrls := allowedUrls + [candidate];
          assert candidate in allowedUrls;
        } else {
          turnedAway := turnedAway + [candidate];
        }
      }
    }

    /** The pages up to a place have had their turn: each was seen and observed, or not seen and missed. */
    ghost predicate Through(pageIndex: nat)
      reads this
    {
      && pageIndex <= |allowedUrls| && |observed| + |missed| == pageIndex
      && (forall url | url in observed + missed :: url in allowedUrls[..pageIndex])
      && (forall k | 0 <= k < pageIndex ::
            if world.page(k, allowedUrls[k]).SeenPage? then allowedUrls[k] in observed else allowedUrls[k] in missed)
      && (challenged <==> exists k | 0 <= k < pageIndex :: Challenged(world.page(k, allowedUrls[k])))
      && (missed == [] ==> observed == allowedUrls[..pageIndex])
    }

    /** What the first page chose, had it been seen with room left, and that each was weighed unless the room ran out. */
    ghost predicate FirstPageChose(room: bool)
      reads this
    {
      if allowedUrls != [] && room && world.page(0, allowedUrls[0]).SeenPage?
      then ChoiceOf(allowedUrls[0], world.page(0, allowedUrls[0]).links, chosen)
           && (|allowedUrls| == maxPages || forall link | link in chosen :: Weighed(link.url))
      else chosen == []
    }

    /** One page's turn; the first page's own choice joins the pages let in. */
    method ObserveOne(pageIndex: nat)
      requires Valid() && Through(pageIndex) && pageIndex < |allowedUrls| && (pageIndex == 0 ==> chosen == [])
      modifies this`allowedUrls, this`observed, this`missed, this`turnedAway, this`challenged, this`asked, 
               this`chosen, cache
      ensures Valid() && Through(pageIndex + 1)
      ensures old(allowedUrls) <= allowedUrls && old(turnedAway) <= turnedAway
      ensures if pageIndex == 0 then FirstPageChose(|old(allowedUrls)| < maxPages)
              else allowedUrls == old(allowedUrls) && turnedAway == old(turnedAway) && chosen == old(chosen)
    {
      var url := allowedUrls[pageIndex];
      assert allowedUrls[..pageIndex + 1] == allowedUrls[..pageIndex] + [url];
      match world.page(pageIndex, url) {
        case NotSeen =>
          missed := missed + [url];
        case SeenPage(challenge, links) =>
          observed, challenged := observed + [url], challenged || challenge;
          if pageIndex == 0 && |allowedUrls| < maxPages { JoinRepresentatives(links); }
      }
    }

    method JoinRepresentatives(links: seq<string>)
      requires Valid() && Through(1)
      modifies this`asked, this`allowedUrls, this`turnedAway, this`chosen, cache
      ensures Valid() && Through(1)
      ensures old(allowedUrls) <= allowedUrls && old(turnedAway) <= turnedAway
      ensures ChoiceOf(allowedUrls[0], links, chosen)
      ensures |allowedUrls| == maxPages || forall link | link in chosen :: Weighed(link.url)
    {
      AdmitRepresentatives(allowedUrls[0], links);
      assert allowedUrls[..1] == allowedUrls[..|old(allowedUrls)|][..1];
    }

    /** One page's turn: the lookups of its handlers, what it was found to be, and the budgets then used up or not. */
    method TakeTurn(pageIndex: nat)
      requires Valid() && Through(pageIndex) && pageIndex < |allowedUrls| && (pageIndex == 0 ==> chosen == [])
      modifies this`allowedUrls, this`observed, this`missed, this`turnedAway, this`challenged, this`byteBudgetExceeded,
               this`requestBudgetExceeded, this`asked, this`chosen, cache
      ensures Valid() && Through(pageIndex + 1)
      ensures old(allowedUrls) <= allowedUrls && old(turnedAway) <= turnedAway
      ensures if pageIndex == 0 then FirstPageChose(|old(allowedUrls)| < maxPages)
              else allowedUrls == old(allowedUrls) && turnedAway == old(turnedAway) && chosen == old(chosen)
      ensures byteBudgetExceeded == world.bytesUsedUp(pageIndex + 1) && requestBudgetExceeded == world.requestsUsedUp(pageIndex + 1)
    {
      LookUpBeside(pageIndex);
      ObserveOne(pageIndex);
      byteBudgetExceeded, requestBudgetExceeded := world.bytesUsedUp(pageIndex + 1), world.requestsUsedUp(pageIndex + 1);
    }

    /** The lookups a page's handlers carry through, one ending after another. */
    method LookUpBeside(k: nat)
      requires Valid()
      modifies cache
      ensures Valid()
    {
      for i := 0 to |world.handled(k)|
        invariant Valid()
      {
        var one := world.handled(k)[i];
        var fetched := cache.LookUpBeside(net, one.site, one.page, domain);
        HandledIsHad(net, world, domain, k, i, fetched, cache.kept[OriginOf(one.page)]);
      }
    }

    /** What ends the pages' turns early. */
    ghost predicate EndedEarly(cutShort: bool)
      reads this
    {
      && (byteBudgetExceeded ==> exists k :: world.bytesUsedUp(k))
      && (requestBudgetExceeded ==> exists k :: world.requestsUsedUp(k))
      && (cutShort ==> world.abortedAtEnd || exists k :: world.aborted(k))
      && (!byteBudgetExceeded && !requestBudgetExceeded && !cutShort ==> Through(|allowedUrls|))
    }

    /** The pages let in, one after another; ended early by a used-up budget or the run's deadline. */
    method ObservePages() returns (cutShort: bool)
      requires Valid() && Through(0) && allowedUrls != [] && chosen == [] && !byteBudgetExceeded && !requestBudgetExceeded
      modifies this`allowedUrls, this`observed, this`missed, this`turnedAway, this`challenged, this`byteBudgetExceeded,
               this`requestBudgetExceeded, this`asked, this`chosen, cache
      ensures Valid() && old(allowedUrls) <= allowedUrls && old(turnedAway) <= turnedAway
      ensures exists turns: nat :: Through(turns) && (turns > 0 ==> FirstPageChose(|old(allowedUrls)| < maxPages))
      ensures EndedEarly(cutShort)
    {
      var pageIndex := 0;
      while pageIndex < |allowedUrls| && !byteBudgetExceeded && !requestBudgetExceeded
        invariant Valid() && Through(pageIndex)
        invariant old(allowedUrls) <= allowedUrls && old(turnedAway) <= turnedAway
        invariant if pageIndex > 0 then FirstPageChose(|old(allowedUrls)| < maxPages)
                  else chosen == [] && allowedUrls == old(allowedUrls)
        invariant byteBudgetExceeded ==> exists k :: world.bytesUsedUp(k)
        invariant requestBudgetExceeded ==> exists k :: world.requestsUsedUp(k)
        decreases maxPages - pageIndex
      {
        if world.aborted(pageIndex) { return true; }
        TakeTurn(pageIndex);
        pageIndex := pageIndex + 1;
      }
      cutShort := world.abortedAtEnd;
    }

    /** Where nothing was turned away and all let in were observed, the first page's choice is among them, unless no room was left. */
    lemma ChosenAreSeen(turns: nat)
      requires Through(turns) && FirstPageChose(true)
      requires observed == allowedUrls && allowedUrls != [] && missed == [] && turnedAway == [] && |allowedUrls| < maxPages
      ensures ChoiceOf(observed[0], world.page(0, observed[0]).links, chosen)
      ensures forall link | link in chosen :: exists existing | existing in observed :: net.text(existing) == net.text(link.url)
    {
      assert world.page(0, allowedUrls[0]).SeenPage?;
      forall link | link in chosen ensures exists existing | existing in observed :: net.text(existing) == net.text(link.url) {
        assert Weighed(link.url);
      }
    }

    /** The run from its pages on. */
    method ObserveAdmitted() returns (status: Status, cutShort: bool)
      requires Valid() && Requests() && Asked(|requested|) && Through(0) && chosen == []
      requires !byteBudgetExceeded && !requestBudgetExceeded
      modifies this`allowedUrls, this`observed, this`missed, this`turnedAway, this`challenged, this`byteBudgetExceeded,
               this`requestBudgetExceeded, this`asked, this`chosen, cache
      ensures Valid() && allowedUrls != [] && exists turns: nat :: Through(turns)
      ensures status == ObservedRunStatus(|observed|, challenged, |turnedAway| + |missed|, byteBudgetExceeded, requestBudgetExceeded, cutShort)
      ensures EndedEarly(cutShort)
      ensures status.Completed? ==> observed == allowedUrls && forall url | url in requested :: url in observed
      ensures status.Completed? && |observed| < maxPages ==>
                ChoiceOf(observed[0], world.page(0, observed[0]).links, chosen)
                && forall link | link in chosen :: exists existing | existing in observed :: net.text(existing) == net.text(link.url)
    {
      assert requested[..|requested|] == requested;
      ghost var admitted, away := allowedUrls, turnedAway;
      cutShort := ObservePages();
      ghost var turns: nat :| Through(turns) && (turns > 0 ==> FirstPageChose(|admitted| < maxPages));
      assert forall url | url in admitted :: url in allowedUrls;
      assert turnedAway == [] ==> away == [];
      assert allowedUrls[..|allowedUrls|] == allowedUrls;
      status := ObservedRunStatus(|observed|, challenged, PageFailureCount(), byteBudgetExceeded, requestBudgetExceeded, cutShort);
      if status.Completed? && |observed| < maxPages { ChosenAreSeen(turns); }
    }

    /**
     * The whole run. It is called completed exactly where every page let in was observed, none was turned
     * away, missed or behind a challenge, no budget ran out and the run was not cut short. Every page the
     * first one chose is then among the observed, unless there was no room for it, and of the pages asked
     * for those the run took on: all of them exactly where it may open that many.
     */
    method Observe() returns (status: Status, cutShort: bool)
      requires Valid() && Fresh() && Distinct(net, targets)
      modifies this, cache
      ensures Valid() && exists turns: nat :: Through(turns)
      ensures status.Completed? <==>
                && observed != [] && observed == allowedUrls && turnedAway == [] && missed == []
                && !challenged && !byteBudgetExceeded && !requestBudgetExceeded && !cutShort
      ensures status.Completed? ==> forall url | url in requested :: url in observed
      ensures status.Completed? ==> ((forall url | url in targets :: url in observed) <==> |targets| <= maxPages)
      ensures status.Completed? && |observed| < maxPages ==>
                ChoiceOf(observed[0], world.page(0, observed[0]).links, chosen)
                && forall link | link in chosen :: exists existing | existing in observed :: net.text(existing) == net.text(link.url)
      ensures status.BlockedRun? <==> challenged || allowedUrls == []
      ensures status.Failed? <==> observed == [] && allowedUrls != []
      ensures allowedUrls == [] ==> TurnedAway(net, world, domain, requested[0])
      ensures world.launches && allowedUrls != [] ==> EndedEarly(cutShort)
    {
      cutShort := false;
      var blocked := AdmitRequested();
      assert Through(0);
      if blocked { return BlockedRun, false; }
      assert requested[0] in allowedUrls;
      if !world.launches { return Failed, false; }
      status, cutShort := ObserveAdmitted();
      if status.Completed? { AllOrCut(); }
    }

    lemma OneTurnedAway() returns (url: Url)
      requires Valid() && turnedAway != []
      ensures TurnedAway(net, world, domain, url)
    {
      url := turnedAway[0];
    }

    /** A run of one page over a world that answers everything well observes it, and nothing speaks against calling it completed. */
    lemma KindRunsComplete(cutShort: bool)
      requires Valid() && world == Kind() && maxPages == 1 && allowedUrls != [] && EndedEarly(cutShort)
      requires exists turns: nat :: Through(turns)
      requires forall url :: !TurnedAway(net, Kind(), domain, url)
      ensures turnedAway == [] && missed == [] && observed == allowedUrls && |observed| == 1
      ensures !challenged && !byteBudgetExceeded && !requestBudgetExceeded && !cutShort
    {
      if turnedAway != [] { var url := OneTurnedAway(); }
      assert Through(1);
      assert allowedUrls[..1] == allowedUrls && allowedUrls[0] in observed;
    }

    /** Among as many pages as a run may open, all the pages asked for are, exactly where there are no more of them. */
    lemma AllOrCut()
      requires Distinct(net, targets) && requested == if |targets| > maxPages then targets[..maxPages] else targets
      requires |observed| <= maxPages && forall url | url in requested :: url in observed
      ensures (forall url | url in targets :: url in observed) <==> |targets| <= maxPages
    {
      if forall url | url in targets :: url in observed {
        NoMoreThan(net, targets, set url | url in observed);
        NoMoreThanItsLength(observed);
      }
    }
  }

  /** Pages no two alike are no more than a set that holds them all. */
  lemma {:induction false} NoMoreThan(net: Net, pages: seq<Url>, others: set<Url>)
    requires Distinct(net, pages) && forall url | url in pages :: url in others
    ensures |pages| <= |others|
  {
    if pages != [] {
      var last := |pages| - 1;
      assert pages[last] in others;
      forall url | url in pages[..last] ensures url in others - {pages[last]} {
        var j :| 0 <= j < last && pages[j] == url;
      }
      NoMoreThan(net, pages[..last], others - {pages[last]});
    }
  }

  lemma {:induction false} NoMoreThanItsLength(urls: seq<Url>)
    ensures |set url | url in urls| <= |urls|
  {
    if urls != [] {
      var last := |urls| - 1;
      NoMoreThanItsLength(urls[..last]);
      assert (set url | url in urls) == (set url | url in urls[..last]) + {urls[last]};
    }
  }

  // ---- A run that leaves a page out and says nothing of it ----

  /** A world that answers everything well: no robots.txt anywhere, and every page seen. */
  function Kind(): World {
    World(_ => Site((_, _) => Answered(Response(404, None, "")), _ => false, _ => Rules(false, None, _ => true)),
          true, _ => false, false, (_, _) => SeenPage(false, []), (_, _) => true, _ => false, _ => false, _ => [])
  }

  lemma KindTurnsNoneAway(net: Net, domain: string, url: Url)
    ensures !TurnedAway(net, Kind(), domain, url)
  {
    var world := Kind();
    forall answer | Had(net, world, domain, OriginOf(url), answer) ensures Permits(answer, url) {
      assert forall k: nat :: world.handled(k) == [];
      assert forall k: nat, i: nat, fetched :: !HandledHad(net, world, domain, OriginOf(url), answer, k, i, fetched);
      var k: nat, page, fetched :| OriginOf(page) == OriginOf(url) && LookedUp(net, world.site(k), domain, page, fetched, answer);
      assert world.site(k).fetch(|fetched| - 1, fetched[|fetched| - 1]) == Answered(Response(404, None, ""));
    }
  }

  /** Asked for two pages and let open one, a run is called completed with the second never looked at. */
  method CutPagesGoUnsaid(net: Net, taste: Taste, domain: string, canonical: string, representative: string) returns (run: Run, status: Status)
    requires Faithful(net) && Collates(taste)
    requires NormalizeDomain(net, NormalizeDomain(net, domain)) == NormalizeDomain(net, domain)
    requires ValidateActorTarget(net, canonical, [representative], domain).Pages?
    ensures fresh(run) && run.targets == ValidateActorTarget(net, canonical, [representative], domain).urls
    ensures status.Completed? && |run.targets| == 2 && run.targets[1] !in run.observed
  {
    TargetIsSound(net, canonical, [representative], domain);
    run := new Run(net, taste, domain, 1, canonical, [representative], Kind());
    var cutShort;
    status, cutShort := run.Observe();
    forall url ensures !TurnedAway(net, Kind(), domain, url) { KindTurnsNoneAway(net, domain, url); }
    run.KindRunsComplete(cutShort);
    assert run.targets[0] in run.requested && run.observed == [run.targets[0]];
    assert net.text(run.targets[0]) != net.text(run.targets[1]);
  }
}
