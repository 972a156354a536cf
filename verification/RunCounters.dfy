/** The counters of one browser run as its request handlers change them, each charge against what the budgets allow. */
module RunCounters {
  import opened RunBudget

  class Counters {
    const limits: Limits
    var requestCount: nat
    var transferredBytes: nat
    var byteBudgetExceeded: bool
    var requestBudgetExceeded: bool
    var pages: seq<Page>
    var lookups: seq<Lookup>

    function Now(): Usage
      reads this
    {
      Usage(requestCount, transferredBytes, byteBudgetExceeded, requestBudgetExceeded, pages, lookups)
    }

    constructor (limits: Limits)
      ensures this.limits == limits && Now() == UNUSED
    {
      this.limits := limits;
      requestCount, transferredBytes, byteBudgetExceeded, requestBudgetExceeded, pages, lookups := 0, 0, false, false, [], [];
    }

    method ConsumeRuntimeBytes(bytes: nat) returns (ok: bool)
      modifies this`transferredBytes, this`byteBudgetExceeded
      ensures Now() == Consume(limits, old(Now()), bytes) && ok == Fits(limits, old(Now()), bytes)
    {
      if transferredBytes + bytes > limits.maxTotalBytes {
        byteBudgetExceeded := true;
        return false;
      }
      transferredBytes := transferredBytes + bytes;
      return true;
    }

    /** A request a page makes, let past the count or not. */
    method CountRequest(i: nat) returns (passed: bool)
      requires i < |pages|
      modifies this
      ensures Now() == Step(limits, old(Now()), RequestArrives(i))
      ensures passed == (pages[i].waiting == old(pages[i].waiting) + 1)
    {
      pages := pages[i := pages[i].(requests := pages[i].requests + 1)];
      requestCount := requestCount + 1;
      if pages[i].requests > limits.maxRequestsPerPage || requestCount > limits.maxRequests {
        requestBudgetExceeded := true;
        return false;
      }
      pages := pages[i := pages[i].(waiting := pages[i].waiting + 1)];
      return true;
    }

    /** Bytes of a page's response, each page stopped that asks for more than is left. */
    method ReadPageBytes(i: nat, bytes: nat) returns (ok: bool)
      requires i < |pages|
      modifies this
      ensures Now() == Step(limits, old(Now()), PageBytes(i, bytes))
    {
      ok := ConsumeRuntimeBytes(bytes);
      if ok { pages := pages[i := pages[i].(bytes := pages[i].bytes + bytes)]; }
      else { pages := pages[i := pages[i].(aborted := true)]; }
    }

    /** A lookup of a robots.txt counts its first fetch, and asks nothing of the count. */
    method StartLookup() returns (i: nat)
      modifies this
      ensures Now() == Step(limits, old(Now()), LookupStarts) && i < |lookups|
    {
      requestCount := requestCount + 1;
      lookups := lookups + [Lookup(1, 0, 0, true)];
      i := |lookups| - 1;
    }

    method FollowRedirect(i: nat, safe: bool) returns (followed: bool)
      requires i < |lookups| && lookups[i].open
      modifies this
      ensures Now() == Step(limits, old(Now()), LookupRedirects(i, safe))
      ensures followed == (lookups[i].fetches == old(lookups[i].fetches) + 1)
    {
      if lookups[i].fetches - 1 >= REDIRECTS || !safe {
        lookups := lookups[i := lookups[i].(open := false)];
        return false;
      }
      requestCount := requestCount + 1;
      if requestCount > limits.maxRequests {
        requestBudgetExceeded := true;
        lookups := lookups[i := lookups[i].(open := false)];
        return false;
      }
      lookups := lookups[i := lookups[i].(fetches := lookups[i].fetches + 1)];
      return true;
    }

    method ReadLookupBytes(i: nat, bytes: nat) returns (ok: bool)
      requires i < |lookups| && lookups[i].open
      modifies this
      ensures Now() == Step(limits, old(Now()), LookupBytes(i, bytes))
    {
      var total := lookups[i].bytes + bytes;
      lookups := lookups[i := lookups[i].(bytes := total)];
      if total > ROBOTS_BYTES {
        lookups := lookups[i := lookups[i].(open := false)];
        return false;
      }
      ok := ConsumeRuntimeBytes(bytes);
      if ok { lookups := lookups[i := lookups[i].(charged := lookups[i].charged + bytes)]; }
      else { lookups := lookups[i := lookups[i].(open := false)]; }
    }

    /** One handler's turn: within the budgets before, within them after. */
    method Handle(event: Event)
      modifies this
      ensures Now() == Step(limits, old(Now()), event)
      ensures old(Within(limits, Now())) ==> Within(limits, Now())
      ensures byteBudgetExceeded <==> old(byteBudgetExceeded) || RefusesBytes(limits, old(Now()), event)
      ensures requestBudgetExceeded <==> old(requestBudgetExceeded) || RefusesRequest(limits, old(Now()), event)
    {
      FlagsMove(limits, Now(), event, Step(limits, Now(), event));
      if Within(limits, Now()) { StepKeeps(limits, Now(), event, Step(limits, Now(), event)); }
      match event {
        case PageOpens =>
          pages := pages + [Page(0, 0, 0, 0, false)];
        case RequestArrives(i) =>
          if i < |pages| { var _ := CountRequest(i); }
        case RequestRefused(i) =>
          if i < |pages| && pages[i].waiting > 0 { pages := pages[i := pages[i].(waiting := pages[i].waiting - 1)]; }
        case RequestFetches(i) =>
          if i < |pages| && pages[i].waiting > 0 {
            var page := pages[i].(waiting := pages[i].waiting - 1);
            pages := pages[i := if page.aborted then page else page.(fetched := page.fetched + 1)];
          }
        case PageBytes(i, bytes) =>
          if i < |pages| { var _ := ReadPageBytes(i, bytes); }
        case PageEnds(i) =>
          if i < |pages| { pages := pages[i := pages[i].(aborted := true)]; }
        case LookupStarts =>
          var _ := StartLookup();
        case LookupRedirects(i, safe) =>
          if i < |lookups| && lookups[i].open { var _ := FollowRedirect(i, safe); }
        case LookupBytes(i, bytes) =>
          if i < |lookups| && lookups[i].open { var _ := ReadLookupBytes(i, bytes); }
        case LookupEnds(i) =>
          if i < |lookups| { lookups := lookups[i := lookups[i].(open := false)]; }
      }
    }

    /** Whatever the handlers do, in whatever order, the counters end as the run of those events, within every budget. */
    method HandleAll(events: seq<Event>)
      requires Now() == UNUSED
      modifies this
      ensures Now() == Run(limits, events) && Within(limits, Now())
    {
      for k := 0 to |events|
        invariant Now() == Run(limits, events[..k])
      {
        RunOfMore(limits, events[..k], events[k]);
        assert events[..k + 1] == events[..k] + [events[k]];
        Handle(events[k]);
      }
      assert events[..|events|] == events;
      EveryRunIsWithin(limits, events);
    }
  }
}
