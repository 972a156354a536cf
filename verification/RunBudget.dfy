/** The budgets of one browser run, charged by whatever requests its pages make, however their handlers interleave. */
module RunBudget {
  const ROBOTS_BYTES := 512 * 1024
  const REDIRECTS := 2

  datatype Limits = Limits(maxRequests: nat, maxRequestsPerPage: nat, maxTotalBytes: nat)

  /** The limits of a run: of requests, as many as its pages may make, and one more for each page's robots.txt. */
  function LimitsOf(maxPages: nat, maxRequestsPerPage: nat, maxTotalBytes: nat): Limits {
    Limits(maxPages * (maxRequestsPerPage + 1), maxRequestsPerPage, maxTotalBytes)
  }

  /** A page's requests so far, those let past the count that have yet to fetch, those that fetched, and its bytes. */
  datatype Page = Page(requests: nat, waiting: nat, fetched: nat, bytes: nat, aborted: bool)

  /** One lookup of a robots.txt: its fetches so far, the bytes they brought and the bytes the run was charged. */
  datatype Lookup = Lookup(fetches: nat, bytes: nat, charged: nat, open: bool)

  datatype Usage = Usage(
    requestCount: nat,
    transferredBytes: nat,
    byteBudgetExceeded: bool,
    requestBudgetExceeded: bool,
    pages: seq<Page>,
    lookups: seq<Lookup>)

  /** What happens between one wait of the program and the next. */
  datatype Event =
    | PageOpens
    | RequestArrives(page: nat)
    | RequestRefused(page: nat)
    | RequestFetches(page: nat)
    | PageBytes(page: nat, bytes: nat)
    | PageEnds(page: nat)
    | LookupStarts
    | LookupRedirects(lookup: nat, safe: bool)
    | LookupBytes(lookup: nat, bytes: nat)
    | LookupEnds(lookup: nat)

  const UNUSED := Usage(0, 0, false, false, [], [])

  function WithPage(usage: Usage, i: nat, page: Page): Usage
    requires i < |usage.pages|
  {
    usage.(pages := usage.pages[i := page])
  }

  function WithLookup(usage: Usage, i: nat, lookup: Lookup): Usage
    requires i < |usage.lookups|
  {
    usage.(lookups := usage.lookups[i := lookup])
  }

  /** Charges the run's bytes, or notes that they are used up. */
  function Consume(limits: Limits, usage: Usage, bytes: nat): Usage {
    if usage.transferredBytes + bytes > limits.maxTotalBytes then usage.(byteBudgetExceeded := true)
    else usage.(transferredBytes := usage.transferredBytes + bytes)
  }

  predicate Fits(limits: Limits, usage: Usage, bytes: nat) {
    usage.transferredBytes + bytes <= limits.maxTotalBytes
  }

  function Arrive(limits: Limits, usage: Usage, i: nat): Usage
    requires i < |usage.pages|
  {
    var page := usage.pages[i].(requests := usage.pages[i].requests + 1);
    var count := usage.requestCount + 1;
    if page.requests > limits.maxRequestsPerPage || count > limits.maxRequests
    then WithPage(usage.(requestCount := count, requestBudgetExceeded := true), i, page)
    else WithPage(usage.(requestCount := count), i, page.(waiting := page.waiting + 1))
  }

  function Redirect(limits: Limits, usage: Usage, i: nat, safe: bool): Usage
    requires i < |usage.lookups|
  {
    var lookup := usage.lookups[i];
    var count := usage.requestCount + 1;
    if !lookup.open then usage
    else if lookup.fetches > REDIRECTS || !safe then WithLookup(usage, i, lookup.(open := false))
    else if count > limits.maxRequests
    then WithLookup(usage.(requestCount := count, requestBudgetExceeded := true), i, lookup.(open := false))
    else WithLookup(usage.(requestCount := count), i, lookup.(fetches := lookup.fetches + 1))
  }

  function LookupReads(limits: Limits, usage: Usage, i: nat, bytes: nat): Usage
    requires i < |usage.lookups|
  {
    var lookup := usage.lookups[i].(bytes := usage.lookups[i].bytes + bytes);
    if !lookup.open then usage
    else if lookup.bytes > ROBOTS_BYTES then WithLookup(usage, i, lookup.(open := false))
    else if Fits(limits, usage, bytes) then WithLookup(Consume(limits, usage, bytes), i, lookup.(charged := lookup.charged + bytes))
    else WithLookup(Consume(limits, usage, bytes), i, lookup.(open := false))
  }

  function Step(limits: Limits, usage: Usage, event: Event): Usage {
    match event
    case PageOpens => usage.(pages := usage.pages + [Page(0, 0, 0, 0, false)])
    case RequestArrives(i) => if i < |usage.pages| then Arrive(limits, usage, i) else usage
    case RequestRefused(i) =>
      if i < |usage.pages| && usage.pages[i].waiting > 0
      then WithPage(usage, i, usage.pages[i].(waiting := usage.pages[i].waiting - 1)) else usage
    case RequestFetches(i) =>
      if i < |usage.pages| && usage.pages[i].waiting > 0 then
        var page := usage.pages[i].(waiting := usage.pages[i].waiting - 1);
        WithPage(usage, i, if page.aborted then page else page.(fetched := page.fetched + 1))
      else usage
    case PageBytes(i, bytes) =>
      if i >= |usage.pages| then usage
      else if Fits(limits, usage, bytes)
      then WithPage(Consume(limits, usage, bytes), i, usage.pages[i].(bytes := usage.pages[i].bytes + bytes))
      else WithPage(Consume(limits, usage, bytes), i, usage.pages[i].(aborted := true))
    case PageEnds(i) => if i < |usage.pages| then WithPage(usage, i, usage.pages[i].(aborted := true)) else usage
    case LookupStarts => usage.(requestCount := usage.requestCount + 1, lookups := usage.lookups + [Lookup(1, 0, 0, true)])
    case LookupRedirects(i, safe) => if i < |usage.lookups| then Redirect(limits, usage, i, safe) else usage
    case LookupBytes(i, bytes) => if i < |usage.lookups| then LookupReads(limits, usage, i, bytes) else usage
    case LookupEnds(i) => if i < |usage.lookups| then WithLookup(usage, i, usage.lookups[i].(open := false)) else usage
  }

  function Run(limits: Limits, events: seq<Event>): Usage {
    if events == [] then UNUSED else Step(limits, Run(limits, events[..|events| - 1]), events[|events| - 1])
  }

  // ---- Sums over pages and lookups ----

  function Sum<T>(count: T -> nat, items: seq<T>): nat {
    if items == [] then 0 else Sum(count, items[..|items| - 1]) + count(items[|items| - 1])
  }

  lemma {:induction false} SumOfChanged<T>(count: T -> nat, items: seq<T>, i: nat, item: T)
    requires i < |items|
    ensures Sum(count, items[i := item]) == Sum(count, items) - count(items[i]) + count(item)
    ensures count(items[i]) <= Sum(count, items)
  {
    var last := |items| - 1;
    if i < last {
      SumOfChanged(count, items[..last], i, item);
      assert items[i := item][..last] == items[..last][i := item];
    } else {
      assert items[i := item][..last] == items[..last];
    }
  }

  lemma SumOfMore<T>(count: T -> nat, items: seq<T>, item: T)
    ensures Sum(count, items + [item]) == Sum(count, items) + count(item)
  {
    assert (items + [item])[..|items|] == items;
  }

  function TakenBy(): Page -> nat { (page: Page) => page.waiting + page.fetched }
  function FetchedBy(): Page -> nat { (page: Page) => page.fetched }
  function RequestsOf(): Page -> nat { (page: Page) => page.requests }
  function BytesOf(): Page -> nat { (page: Page) => page.bytes }
  function FetchesOf(): Lookup -> nat { (lookup: Lookup) => lookup.fetches }
  function ChargedOf(): Lookup -> nat { (lookup: Lookup) => lookup.charged }

  /** The fetches made or reserved, the first of every robots lookup left out. */
  function Counted(usage: Usage): int {
    Sum(TakenBy(), usage.pages) + Sum(FetchesOf(), usage.lookups) - |usage.lookups|
  }

  /** The fetches made, and those reserved by requests let past the count, which may yet be refused or let go. */
  function Reserved(usage: Usage): nat {
    Sum(TakenBy(), usage.pages) + Sum(FetchesOf(), usage.lookups)
  }

  /** The fetches made. */
  function Made(usage: Usage): nat {
    Sum(FetchedBy(), usage.pages) + Sum(FetchesOf(), usage.lookups)
  }

  // ---- What every run keeps ----

  predicate PageWithin(limits: Limits, page: Page) {
    page.waiting + page.fetched <= page.requests && page.waiting + page.fetched <= limits.maxRequestsPerPage
  }

  predicate LookupWithin(lookup: Lookup) {
    1 <= lookup.fetches <= 3 && lookup.charged <= 524_288 && lookup.charged <= lookup.bytes
  }

  ghost predicate Within(limits: Limits, usage: Usage) {
    && usage.transferredBytes <= limits.maxTotalBytes
    && usage.transferredBytes == Sum(BytesOf(), usage.pages) + Sum(ChargedOf(), usage.lookups)
    && (forall page | page in usage.pages :: PageWithin(limits, page))
    && (forall lookup | lookup in usage.lookups :: LookupWithin(lookup))
    && Reserved(usage) <= usage.requestCount
    && Counted(usage) <= limits.maxRequests
    && (!usage.requestBudgetExceeded ==>
          && usage.requestCount == Sum(RequestsOf(), usage.pages) + Sum(FetchesOf(), usage.lookups)
          && forall page | page in usage.pages :: page.requests <= limits.maxRequestsPerPage)
  }

  lemma PageSums(pages: seq<Page>, i: nat, page: Page)
    requires i < |pages|
    ensures Sum(TakenBy(), pages[i := page]) == Sum(TakenBy(), pages) - (pages[i].waiting + pages[i].fetched) + page.waiting + page.fetched
    ensures Sum(FetchedBy(), pages[i := page]) == Sum(FetchedBy(), pages) - pages[i].fetched + page.fetched
    ensures Sum(RequestsOf(), pages[i := page]) == Sum(RequestsOf(), pages) - pages[i].requests + page.requests
    ensures Sum(BytesOf(), pages[i := page]) == Sum(BytesOf(), pages) - pages[i].bytes + page.bytes
    ensures forall one | one in pages[i := page] :: one == page || one in pages
  {
    SumOfChanged(TakenBy(), pages, i, page);
    SumOfChanged(FetchedBy(), pages, i, page);
    SumOfChanged(RequestsOf(), pages, i, page);
    SumOfChanged(BytesOf(), pages, i, page);
  }

  lemma LookupSums(lookups: seq<Lookup>, i: nat, lookup: Lookup)
    requires i < |lookups|
    ensures Sum(FetchesOf(), lookups[i := lookup]) == Sum(FetchesOf(), lookups) - lookups[i].fetches + lookup.fetches
    ensures Sum(ChargedOf(), lookups[i := lookup]) == Sum(ChargedOf(), lookups) - lookups[i].charged + lookup.charged
    ensures forall one | one in lookups[i := lookup] :: one == lookup || one in lookups
  {
    SumOfChanged(FetchesOf(), lookups, i, lookup);
    SumOfChanged(ChargedOf(), lookups, i, lookup);
  }

  /** What a change to one page must respect. */
  predicate PageMay(limits: Limits, usage: Usage, now: Usage, i: nat, page: Page)
    requires i < |usage.pages|
  {
    var was := usage.pages[i];
    && now.pages == usage.pages[i := page] && now.lookups == usage.lookups
    && now.transferredBytes == usage.transferredBytes - was.bytes + page.bytes && now.transferredBytes <= limits.maxTotalBytes
    && PageWithin(limits, page)
    && (|| (page.waiting + page.fetched <= was.waiting + was.fetched && now.requestCount >= usage.requestCount)
        || (page.waiting + page.fetched == was.waiting + was.fetched + 1
            && now.requestCount == usage.requestCount + 1 && now.requestCount <= limits.maxRequests))
    && (!now.requestBudgetExceeded ==>
          && !usage.requestBudgetExceeded && page.requests <= limits.maxRequestsPerPage
          && now.requestCount - usage.requestCount == page.requests - was.requests)
  }

  lemma PageChangeKeeps(limits: Limits, usage: Usage, now: Usage, i: nat, page: Page)
    requires i < |usage.pages| && Within(limits, usage) && PageMay(limits, usage, now, i, page)
    ensures Within(limits, now)
  {
    PageSums(usage.pages, i, page);
    AtLeastOneEach(usage.lookups);
  }

  lemma {:induction false} AtLeastOneEach(lookups: seq<Lookup>)
    requires forall lookup | lookup in lookups :: LookupWithin(lookup)
    ensures Sum(FetchesOf(), lookups) >= |lookups|
  {
    if lookups != [] {
      AtLeastOneEach(lookups[..|lookups| - 1]);
      assert LookupWithin(lookups[|lookups| - 1]);
    }
  }

  predicate LookupMay(limits: Limits, usage: Usage, now: Usage, i: nat, lookup: Lookup)
    requires i < |usage.lookups|
  {
    var was := usage.lookups[i];
    && now.lookups == usage.lookups[i := lookup] && now.pages == usage.pages
    && now.transferredBytes == usage.transferredBytes - was.charged + lookup.charged && now.transferredBytes <= limits.maxTotalBytes
    && LookupWithin(lookup)
    && (|| (lookup.fetches == was.fetches && now.requestCount >= usage.requestCount)
        || (lookup.fetches == was.fetches + 1
            && now.requestCount == usage.requestCount + 1 && now.requestCount <= limits.maxRequests))
    && (!now.requestBudgetExceeded ==>
          !usage.requestBudgetExceeded && now.requestCount - usage.requestCount == lookup.fetches - was.fetches)
  }

  lemma LookupChangeKeeps(limits: Limits, usage: Usage, now: Usage, i: nat, lookup: Lookup)
    requires i < |usage.lookups| && Within(limits, usage) && LookupMay(limits, usage, now, i, lookup)
    ensures Within(limits, now)
  {
    LookupSums(usage.lookups, i, lookup);
    AtLeastOneEach(now.lookups) by {
      forall one | one in now.lookups ensures LookupWithin(one) {}
    }
  }

  lemma PageStepMay(limits: Limits, usage: Usage, event: Event, now: Usage)
    requires Within(limits, usage) && now == Step(limits, usage, event) && now != usage
    requires event.RequestArrives? || event.RequestRefused? || event.RequestFetches? || event.PageBytes? || event.PageEnds?
    ensures event.page < |usage.pages| == |now.pages| && PageMay(limits, usage, now, event.page, now.pages[event.page])
  {
    assert usage.pages[event.page] in usage.pages && PageWithin(limits, usage.pages[event.page]);
  }

  lemma LookupStepMay(limits: Limits, usage: Usage, event: Event, now: Usage)
    requires Within(limits, usage) && now == Step(limits, usage, event) && now != usage
    requires event.LookupRedirects? || event.LookupBytes? || event.LookupEnds?
    ensures event.lookup < |usage.lookups| == |now.lookups| && LookupMay(limits, usage, now, event.lookup, now.lookups[event.lookup])
  {
    assert usage.lookups[event.lookup] in usage.lookups && LookupWithin(usage.lookups[event.lookup]);
  }

  lemma PageOpeningKeeps(limits: Limits, usage: Usage)
    requires Within(limits, usage)
    ensures Within(limits, Step(limits, usage, PageOpens))
  {
    SumOfMore(TakenBy(), usage.pages, Page(0, 0, 0, 0, false));
    SumOfMore(RequestsOf(), usage.pages, Page(0, 0, 0, 0, false));
    SumOfMore(BytesOf(), usage.pages, Page(0, 0, 0, 0, false));
  }

  lemma LookupStartKeeps(limits: Limits, usage: Usage)
    requires Within(limits, usage)
    ensures Within(limits, Step(limits, usage, LookupStarts))
  {
    SumOfMore(FetchesOf(), usage.lookups, Lookup(1, 0, 0, true));
    SumOfMore(ChargedOf(), usage.lookups, Lookup(1, 0, 0, true));
  }

  lemma StepKeeps(limits: Limits, usage: Usage, event: Event, now: Usage)
    requires Within(limits, usage) && now == Step(limits, usage, event)
    ensures Within(limits, now)
  {
    if event.PageOpens? { PageOpeningKeeps(limits, usage); }
    else if event.LookupStarts? { LookupStartKeeps(limits, usage); }
    else if now != usage { ChangeKeeps(limits, usage, event, now); }
  }

  /** Whether the event is a fetch of a request let past the count, its page still open. */
  predicate Lets(usage: Usage, event: Event) {
    && event.RequestFetches? && event.page < |usage.pages|
    && usage.pages[event.page].waiting > 0 && !usage.pages[event.page].aborted
  }

  lemma {:induction false} MadeIsReserved(pages: seq<Page>)
    ensures Sum(FetchedBy(), pages) <= Sum(TakenBy(), pages)
  {
    if pages != [] { MadeIsReserved(pages[..|pages| - 1]); }
  }

  lemma ChangeKeeps(limits: Limits, usage: Usage, event: Event, now: Usage)
    requires Within(limits, usage) && now == Step(limits, usage, event) && now != usage
    requires !event.PageOpens? && !event.LookupStarts?
    ensures Within(limits, now)
    ensures Reserved(now) <= Reserved(usage) || now.requestCount <= limits.maxRequests
  {
    if event.LookupRedirects? || event.LookupBytes? || event.LookupEnds? {
      var i := event.lookup;
      LookupStepMay(limits, usage, event, now);
      LookupChangeKeeps(limits, usage, now, i, now.lookups[i]);
      LookupSums(usage.lookups, i, now.lookups[i]);
    } else {
      var i := event.page;
      PageStepMay(limits, usage, event, now);
      PageChangeKeeps(limits, usage, now, i, now.pages[i]);
      PageSums(usage.pages, i, now.pages[i]);
    }
  }

  /** A page's change makes one more fetch exactly where it fetches a request let past the count. */
  lemma PageMakes(limits: Limits, usage: Usage, event: Event, now: Usage)
    requires Within(limits, usage) && now == Step(limits, usage, event) && now != usage
    requires event.RequestArrives? || event.RequestRefused? || event.RequestFetches? || event.PageBytes? || event.PageEnds?
    ensures Made(now) == Made(usage) + if Lets(usage, event) then 1 else 0
  {
    PageStepMay(limits, usage, event, now);
    PageSums(usage.pages, event.page, now.pages[event.page]);
  }

  /** A lookup's change makes another fetch only within the limit. */
  lemma LookupMakes(limits: Limits, usage: Usage, event: Event, now: Usage)
    requires Within(limits, usage) && Within(limits, now) && now == Step(limits, usage, event) && now != usage
    requires event.LookupRedirects? || event.LookupBytes? || event.LookupEnds?
    ensures Made(now) <= Made(usage) || Made(now) <= limits.maxRequests
  {
    LookupStepMay(limits, usage, event, now);
    LookupSums(usage.lookups, event.lookup, now.lookups[event.lookup]);
    MadeIsReserved(now.pages);
  }

  lemma UnusedIsWithin(limits: Limits)
    ensures Within(limits, UNUSED)
  {
    var pages, lookups := UNUSED.pages, UNUSED.lookups;
    assert pages == [] && lookups == [];
    NothingSums(TakenBy());
    NothingSums(RequestsOf());
    NothingSums(BytesOf());
    NothingSums(FetchesOf());
    NothingSums(ChargedOf());
  }

  lemma NothingSums<T>(count: T -> nat)
    ensures Sum(count, []) == 0
  {
  }

  lemma RunKeeps(limits: Limits, events: seq<Event>, event: Event, usage: Usage)
    requires usage == Run(limits, events) && Within(limits, usage)
    ensures Within(limits, Run(limits, events + [event]))
  {
    RunOfMore(limits, events, event);
    StepKeeps(limits, usage, event, Run(limits, events + [event]));
  }

  /** Every interleaving keeps the budgets: bytes in all, requests of each page and of all pages, fetches of each lookup. */
  lemma {:induction false} EveryRunIsWithin(limits: Limits, events: seq<Event>)
    ensures Within(limits, Run(limits, events))
  {
    if events == [] {
      UnusedIsWithin(limits);
    } else {
      var before, event := events[..|events| - 1], events[|events| - 1];
      EveryRunIsWithin(limits, before);
      assert events == before + [event];
      RunKeeps(limits, before, event, Run(limits, before));
    }
  }

  /** The fetches a run makes, those of robots.txt among them, outnumber its limit by the lookups of it at most. */
  lemma FetchesAreBounded(limits: Limits, events: seq<Event>)
    ensures var usage := Run(limits, events);
            Made(usage) <= Reserved(usage) <= limits.maxRequests + |usage.lookups|
    ensures var usage := Run(limits, events);
            usage.requestCount <= limits.maxRequests ==> Made(usage) <= limits.maxRequests
  {
    EveryRunIsWithin(limits, events);
    MadeIsReserved(Run(limits, events).pages);
  }

  /**
   * The step past the limit is, with the limit reached, the start of a robots lookup, or the fetch of a
   * request that was let past the count before one; no other step can be.
   */
  lemma WhatOverruns(limits: Limits, usage: Usage, event: Event)
    requires Within(limits, usage) && Made(usage) <= limits.maxRequests
    ensures Made(Step(limits, usage, event)) > limits.maxRequests
       <==> Made(usage) == limits.maxRequests && (event.LookupStarts? || Lets(usage, event))
  {
    var now := Step(limits, usage, event);
    StepKeeps(limits, usage, event, now);
    if event.LookupStarts? { SumOfMore(FetchesOf(), usage.lookups, Lookup(1, 0, 0, true)); }
    else if event.PageOpens? { SumOfMore(FetchedBy(), usage.pages, Page(0, 0, 0, 0, false)); }
    else if now != usage {
      if event.LookupRedirects? || event.LookupBytes? || event.LookupEnds? { LookupMakes(limits, usage, event, now); }
      else { PageMakes(limits, usage, event, now); }
    }
  }

  /** Of fetches made and reserved together, only the start of a lookup, with the limit reached, goes past it. */
  lemma OnlyALookupOverreserves(limits: Limits, usage: Usage, event: Event)
    requires Within(limits, usage) && Reserved(usage) <= limits.maxRequests
    ensures Reserved(Step(limits, usage, event)) > limits.maxRequests <==> event.LookupStarts? && Reserved(usage) == limits.maxRequests
  {
    StepKeeps(limits, usage, event, Step(limits, usage, event));
    if event.LookupStarts? { SumOfMore(FetchesOf(), usage.lookups, Lookup(1, 0, 0, true)); }
    else if event.PageOpens? { SumOfMore(TakenBy(), usage.pages, Page(0, 0, 0, 0, false)); }
    else if Step(limits, usage, event) != usage { ChangeKeeps(limits, usage, event, Step(limits, usage, event)); }
  }

  // ---- What the flags say ----

  /** Bytes that no longer fit what the run may read. */
  predicate RefusesBytes(limits: Limits, usage: Usage, event: Event) {
    || (event.PageBytes? && event.page < |usage.pages| && usage.transferredBytes + event.bytes > limits.maxTotalBytes)
    || (&& event.LookupBytes? && event.lookup < |usage.lookups| && usage.lookups[event.lookup].open
        && usage.lookups[event.lookup].bytes + event.bytes <= 524_288
        && usage.transferredBytes + event.bytes > limits.maxTotalBytes)
  }

  /** A request, or a redirect of a lookup, that the counts do not let past. */
  predicate RefusesRequest(limits: Limits, usage: Usage, event: Event) {
    || (&& event.RequestArrives? && event.page < |usage.pages|
        && (usage.pages[event.page].requests >= limits.maxRequestsPerPage || usage.requestCount >= limits.maxRequests))
    || (&& event.LookupRedirects? && event.lookup < |usage.lookups| && usage.lookups[event.lookup].open && event.safe
        && usage.lookups[event.lookup].fetches < 3 && usage.requestCount >= limits.maxRequests)
  }

  predicate BytesRefusedAt(limits: Limits, events: seq<Event>, k: nat)
    requires k < |events|
  {
    RefusesBytes(limits, Run(limits, events[..k]), events[k])
  }

  predicate RequestRefusedAt(limits: Limits, events: seq<Event>, k: nat)
    requires k < |events|
  {
    RefusesRequest(limits, Run(limits, events[..k]), events[k])
  }

  lemma RefusedBefore(limits: Limits, events: seq<Event>, event: Event, k: nat)
    requires k < |events|
    ensures BytesRefusedAt(limits, events + [event], k) == BytesRefusedAt(limits, events, k)
    ensures RequestRefusedAt(limits, events + [event], k) == RequestRefusedAt(limits, events, k)
  {
    assert (events + [event])[..k] == events[..k];
  }

  lemma RefusedNow(limits: Limits, events: seq<Event>, event: Event, usage: Usage)
    requires usage == Run(limits, events)
    ensures BytesRefusedAt(limits, events + [event], |events|) == RefusesBytes(limits, usage, event)
    ensures RequestRefusedAt(limits, events + [event], |events|) == RefusesRequest(limits, usage, event)
  {
    assert (events + [event])[..|events|] == events;
  }

  /** A budget is reported as used up exactly where some event of the run was refused for it. */
  lemma {:induction false} FlagsTellOfRefusals(limits: Limits, events: seq<Event>, usage: Usage)
    requires usage == Run(limits, events)
    ensures usage.byteBudgetExceeded <==> exists k: nat | k < |events| :: BytesRefusedAt(limits, events, k)
    ensures usage.requestBudgetExceeded <==> exists k: nat | k < |events| :: RequestRefusedAt(limits, events, k)
    decreases |events|
  {
    if events != [] {
      var shorter, last := events[..|events| - 1], events[|events| - 1];
      var before := Run(limits, shorter);
      assert events == shorter + [last];
      RunOfMore(limits, shorter, last);
      FlagsTellOfRefusals(limits, shorter, before);
      FlagsTellOn(limits, shorter, last, before, usage);
    }
  }

  lemma FlagsTellOn(limits: Limits, events: seq<Event>, event: Event, before: Usage, usage: Usage)
    requires before == Run(limits, events) && usage == Step(limits, before, event)
    requires before.byteBudgetExceeded <==> exists k: nat | k < |events| :: BytesRefusedAt(limits, events, k)
    requires before.requestBudgetExceeded <==> exists k: nat | k < |events| :: RequestRefusedAt(limits, events, k)
    ensures usage.byteBudgetExceeded <==> exists k: nat | k < |events + [event]| :: BytesRefusedAt(limits, events + [event], k)
    ensures usage.requestBudgetExceeded <==> exists k: nat | k < |events + [event]| :: RequestRefusedAt(limits, events + [event], k)
  {
    FlagsMove(limits, before, event, usage);
    RefusedNow(limits, events, event, before);
    forall k: nat | k < |events|
      ensures BytesRefusedAt(limits, events + [event], k) == BytesRefusedAt(limits, events, k)
      ensures RequestRefusedAt(limits, events + [event], k) == RequestRefusedAt(limits, events, k)
    {
      RefusedBefore(limits, events, event, k);
    }
  }

  lemma FlagsMove(limits: Limits, usage: Usage, event: Event, now: Usage)
    requires now == Step(limits, usage, event)
    ensures now.byteBudgetExceeded <==> usage.byteBudgetExceeded || RefusesBytes(limits, usage, event)
    ensures now.requestBudgetExceeded <==> usage.requestBudgetExceeded || RefusesRequest(limits, usage, event)
  {
  }

  // ---- What ends ----

  /** What ends an open lookup: its end, a redirect not to be followed or not let past, or bytes too many. */
  predicate EndsLookup(limits: Limits, usage: Usage, event: Event, i: nat)
    requires i < |usage.lookups|
  {
    || event == LookupEnds(i)
    || event == LookupRedirects(i, false)
    || (event == LookupRedirects(i, true) && (usage.lookups[i].fetches >= 3 || usage.requestCount >= limits.maxRequests))
    || (&& event.LookupBytes? && event.lookup == i
        && (usage.lookups[i].bytes + event.bytes > 524_288 || usage.transferredBytes + event.bytes > limits.maxTotalBytes))
  }

  /** What ends an open page: its end, or bytes that no longer fit what the run may read. */
  predicate EndsPage(limits: Limits, usage: Usage, event: Event, i: nat)
    requires i < |usage.pages|
  {
    event == PageEnds(i) || (event.PageBytes? && event.page == i && usage.transferredBytes + event.bytes > limits.maxTotalBytes)
  }

  /** A lookup ends at what ends it and at nothing else, and once ended it stays as it is. */
  lemma WhatEndsALookup(limits: Limits, usage: Usage, event: Event, now: Usage, i: nat)
    requires now == Step(limits, usage, event) && i < |usage.lookups|
    ensures i < |now.lookups|
    ensures !now.lookups[i].open <==> !usage.lookups[i].open || EndsLookup(limits, usage, event, i)
    ensures !usage.lookups[i].open ==> now.lookups[i] == usage.lookups[i]
  {
    if event.LookupRedirects? || event.LookupBytes? || event.LookupEnds? {
      if event.lookup == i {} else if event.lookup < |usage.lookups| {}
    }
  }

  /** A page ends at what ends it and at nothing else, and once ended it fetches nothing more. */
  lemma WhatEndsAPage(limits: Limits, usage: Usage, event: Event, now: Usage, i: nat)
    requires now == Step(limits, usage, event) && i < |usage.pages|
    ensures i < |now.pages|
    ensures now.pages[i].aborted <==> usage.pages[i].aborted || EndsPage(limits, usage, event, i)
    ensures usage.pages[i].aborted ==> now.pages[i].fetched == usage.pages[i].fetched
  {
    if event.RequestArrives? || event.RequestRefused? || event.RequestFetches? || event.PageBytes? || event.PageEnds? {
      if event.page == i {} else if event.page < |usage.pages| {}
    }
  }

  /** A request waits from when both counts let it past until it fetches or is refused, and nothing else makes one wait or not. */
  lemma WhoWaits(limits: Limits, usage: Usage, event: Event, now: Usage, i: nat)
    requires now == Step(limits, usage, event) && i < |usage.pages|
    ensures i < |now.pages|
    ensures var was, still := usage.pages[i].waiting, now.pages[i].waiting;
            && (still > was <==>
                  event == RequestArrives(i) && usage.pages[i].requests < limits.maxRequestsPerPage && usage.requestCount < limits.maxRequests)
            && (still < was <==> was > 0 && (event == RequestFetches(i) || event == RequestRefused(i)))
            && was - 1 <= still <= was + 1
    ensures now.pages[i].requests == usage.pages[i].requests + if event == RequestArrives(i) then 1 else 0
  {
    if event.RequestArrives? || event.RequestRefused? || event.RequestFetches? || event.PageBytes? || event.PageEnds? {
      if event.page == i {} else if event.page < |usage.pages| {}
    }
  }

  /** From its end on, in every run that goes on, a lookup fetches nothing more and is charged nothing more. */
  lemma {:induction false} EndedLookupsStay(limits: Limits, events: seq<Event>, more: seq<Event>, i: nat)
    requires i < |Run(limits, events).lookups| && !Run(limits, events).lookups[i].open
    ensures i < |Run(limits, events + more).lookups| && Run(limits, events + more).lookups[i] == Run(limits, events).lookups[i]
  {
    if more == [] {
      assert events + more == events;
    } else {
      var fewer, last := more[..|more| - 1], more[|more| - 1];
      EndedLookupsStay(limits, events, fewer, i);
      assert events + more == events + fewer + [last];
      RunOfMore(limits, events + fewer, last);
      WhatEndsALookup(limits, Run(limits, events + fewer), last, Run(limits, events + more), i);
    }
  }

  /** From its end on, in every run that goes on, a page fetches nothing more. */
  lemma {:induction false} EndedPagesStay(limits: Limits, events: seq<Event>, more: seq<Event>, i: nat)
    requires i < |Run(limits, events).pages| && Run(limits, events).pages[i].aborted
    ensures i < |Run(limits, events + more).pages| && Run(limits, events + more).pages[i].aborted
    ensures Run(limits, events + more).pages[i].fetched == Run(limits, events).pages[i].fetched
  {
    if more == [] {
      assert events + more == events;
    } else {
      var fewer, last := more[..|more| - 1], more[|more| - 1];
      EndedPagesStay(limits, events, fewer, i);
      assert events + more == events + fewer + [last];
      RunOfMore(limits, events + fewer, last);
      WhatEndsAPage(limits, Run(limits, events + fewer), last, Run(limits, events + more), i);
    }
  }

  /** One page of two requests: its second navigates to another origin, whose robots.txt is one fetch more than the run allows. */
  const OVERRUN := [LookupStarts, PageOpens, RequestArrives(0), RequestFetches(0), RequestArrives(0), LookupStarts, RequestFetches(0)]

  lemma TheFirstRobotsFetchIsUnchecked()
    ensures var limits := LimitsOf(1, 2, 1_000_000);
            Made(Run(limits, OVERRUN)) == limits.maxRequests + 1 && !Run(limits, OVERRUN).requestBudgetExceeded
  {
    var page, lookup := Page(2, 0, 2, 0, false), Lookup(1, 0, 0, true);
    TheOverrun();
    SumOfMore(FetchedBy(), [], page);
    SumOfMore(FetchesOf(), [], lookup);
    SumOfMore(FetchesOf(), [lookup], lookup);
    assert [] + [page] == [page] && [] + [lookup] == [lookup] && [lookup] + [lookup] == [lookup, lookup];
  }

  lemma TheOverrun()
    ensures Run(LimitsOf(1, 2, 1_000_000), OVERRUN)
         == Usage(4, 0, false, false, [Page(2, 0, 2, 0, false)], [Lookup(1, 0, 0, true), Lookup(1, 0, 0, true)])
  {
    var first := Lookup(1, 0, 0, true);
    var fourth := TheOverrunHalf();
    var fifth := Usage(3, 0, false, false, [Page(2, 1, 1, 0, false)], [first]);
    var sixth := Usage(4, 0, false, false, [Page(2, 1, 1, 0, false)], [first, first]);
    RunsOn(4, RequestArrives(0), fourth, fifth);
    RunsOn(5, LookupStarts, fifth, sixth);
    RunsOn(6, RequestFetches(0), sixth, Usage(4, 0, false, false, [Page(2, 0, 2, 0, false)], [first, first]));
  }

  lemma TheOverrunHalf() returns (fourth: Usage)
    ensures fourth == Usage(2, 0, false, false, [Page(1, 0, 1, 0, false)], [Lookup(1, 0, 0, true)])
    ensures Run(LimitsOf(1, 2, 1_000_000), OVERRUN[..4]) == fourth
  {
    var lookup := Lookup(1, 0, 0, true);
    var second := TheOverrunBegins();
    var third := Usage(2, 0, false, false, [Page(1, 1, 0, 0, false)], [lookup]);
    fourth := Usage(2, 0, false, false, [Page(1, 0, 1, 0, false)], [lookup]);
    RunsOn(2, RequestArrives(0), second, third);
    RunsOn(3, RequestFetches(0), third, fourth);
  }

  lemma TheOverrunBegins() returns (second: Usage)
    ensures second == Usage(1, 0, false, false, [Page(0, 0, 0, 0, false)], [Lookup(1, 0, 0, true)])
    ensures Run(LimitsOf(1, 2, 1_000_000), OVERRUN[..2]) == second
  {
    var lookup := Lookup(1, 0, 0, true);
    var first := Usage(1, 0, false, false, [], [lookup]);
    second := Usage(1, 0, false, false, [Page(0, 0, 0, 0, false)], [lookup]);
    assert OVERRUN[..0] == [];
    RunsOn(0, LookupStarts, UNUSED, first);
    RunsOn(1, PageOpens, first, second);
  }

  lemma RunsOn(n: nat, event: Event, before: Usage, now: Usage)
    requires n < |OVERRUN| && event == OVERRUN[n] && Run(LimitsOf(1, 2, 1_000_000), OVERRUN[..n]) == before
    requires Step(LimitsOf(1, 2, 1_000_000), before, event) == now
    ensures Run(LimitsOf(1, 2, 1_000_000), OVERRUN[..n + 1]) == now
    ensures n + 1 == |OVERRUN| ==> Run(LimitsOf(1, 2, 1_000_000), OVERRUN) == now
  {
    RunOfMore(LimitsOf(1, 2, 1_000_000), OVERRUN[..n], event);
    assert OVERRUN[..n + 1] == OVERRUN[..n] + [event];
    assert OVERRUN[..|OVERRUN|] == OVERRUN;
  }

  lemma RunOfMore(limits: Limits, events: seq<Event>, event: Event)
    ensures Run(limits, events + [event]) == Step(limits, Run(limits, events), event)
  {
    assert (events + [event])[..|events|] == events;
  }
}
