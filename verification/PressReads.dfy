/** A bounded memory of presses, each of which may answer for one read. */
module PressReads {
  import opened Options

  const REREAD_WITHIN_MS := 10_000
  const REREADS_KEPT := 1_000

  /** A press still waiting for the read that answers it. */
  datatype Wait = Wait(page: string, until: int)

  /** The waits by cookie, and their cookies in the order they came in. */
  datatype Memory = Memory(order: seq<string>, waits: map<string, Wait>)

  datatype Event =
    | Pressed(cookie: string, page: string, at: int)
    | Read(reader: Option<string>, page: string, at: int)

  // ---- The memory as a value ----

  /** A cookie that is there keeps its place; a new one comes last. */
  function Put(memory: Memory, cookie: string, wait: Wait): Memory {
    Memory(if cookie in memory.waits then memory.order else memory.order + [cookie], memory.waits[cookie := wait])
  }

  function Without(order: seq<string>, cookie: string): seq<string> {
    if order == [] then []
    else (if order[0] == cookie then [] else [order[0]]) + Without(order[1..], cookie)
  }

  function Delete(memory: Memory, cookie: string): Memory {
    if cookie in memory.waits then Memory(Without(memory.order, cookie), memory.waits - {cookie}) else memory
  }

  /** The memory less its oldest, while it holds more than it may. */
  function Evicted(memory: Memory): Memory
    decreases |memory.order|
  {
    if |memory.order| <= REREADS_KEPT then memory
    else Evicted(Memory(memory.order[1..], memory.waits - {memory.order[0]}))
  }

  function After(memory: Memory, event: Event): Memory {
    match event
    case Pressed(cookie, page, at) => Evicted(Put(memory, cookie, Wait(page, at + REREAD_WITHIN_MS)))
    case Read(None, _, _) => memory
    case Read(Some(cookie), _, _) => Delete(memory, cookie)
  }

  function Replay(history: seq<Event>): Memory {
    if history == [] then Memory([], map[]) else After(Replay(history[..|history| - 1]), history[|history| - 1])
  }

  /** What a read is told. */
  predicate Answer(memory: Memory, reader: Option<string>, page: string, at: int) {
    && reader.Some? && reader.value in memory.waits
    && memory.waits[reader.value].page == page && memory.waits[reader.value].until >= at
  }

  // ---- The memory as the program keeps it ----

  class PressMemory {
    var order: seq<string>
    var waits: map<string, Wait>
    ghost var history: seq<Event>

    /** The memory is what the events so far leave of it. */
    ghost predicate Valid()
      reads this
    {
      Memory(order, waits) == Replay(history)
    }

    constructor ()
      ensures Valid() && history == []
    {
      order, waits, history := [], map[], [];
    }

    /** A thousand waits at most, that of the cookie just pressed always among them. */
    method Press(cookie: string, page: string, now: int)
      requires Valid()
      modifies this
      ensures Valid() && history == old(history) + [Pressed(cookie, page, now)]
      ensures |order| <= REREADS_KEPT && cookie in waits && waits[cookie] == Wait(page, now + REREAD_WITHIN_MS)
    {
      history := history + [Pressed(cookie, page, now)];
      assert history[..|history| - 1] == old(history);
      ReplayKeeps(old(history));
      JustPressedStays(Memory(order, waits), cookie, Wait(page, now + REREAD_WITHIN_MS));
      if cookie !in waits { order := order + [cookie]; }
      waits := waits[cookie := Wait(page, now + REREAD_WITHIN_MS)];
      ghost var put := Memory(order, waits);
      while |order| > REREADS_KEPT
        invariant history == old(history) + [Pressed(cookie, page, now)]
        invariant Evicted(Memory(order, waits)) == Evicted(put)
      {
        waits := waits - {order[0]};
        order := order[1..];
      }
    }

    /**
     * True only where the cookie's latest event is a press of that page, ten seconds old at most; and there
     * unless a thousand other cookies have been pressed since the cookie began to wait.
     */
    method IsPressRead(cookie: Option<string>, page: string, now: int) returns (own: bool)
      requires Valid()
      modifies this
      ensures Valid() && history == old(history) + [Read(cookie, page, now)]
      ensures own ==> cookie.Some? && InTime(old(history), cookie.value, page, now)
      ensures cookie.Some? && InTime(old(history), cookie.value, page, now) && |Since(old(history), cookie.value)| < REREADS_KEPT ==> own
    {
      history := history + [Read(cookie, page, now)];
      assert history[..|history| - 1] == old(history);
      if cookie.None? { return false; }
      RememberedIsLatest(old(history), cookie.value);
      if InTime(old(history), cookie.value, page, now) && |Since(old(history), cookie.value)| < REREADS_KEPT {
        KeptUnlessCrowdedOut(old(history), cookie.value);
      }
      own := cookie.value in waits && waits[cookie.value].page == page && waits[cookie.value].until >= now;
      if cookie.value in waits {
        order, waits := Without(order, cookie.value), waits - {cookie.value};
      }
    }
  }

  // ---- The history alone ----

  predicate About(event: Event, cookie: string) {
    match event
    case Pressed(presser, _, _) => presser == cookie
    case Read(reader, _, _) => reader == Some(cookie)
  }

  /** The cookie's latest event, where that is a press: it waits for its read. */
  function Waits(history: seq<Event>, cookie: string): (press: Option<Event>)
    ensures press.Some? ==> press.value.Pressed? && press.value.cookie == cookie
  {
    if history == [] then None
    else
      var last := history[|history| - 1];
      if !About(last, cookie) then Waits(history[..|history| - 1], cookie)
      else if last.Pressed? then Some(last) else None
  }

  /** Whether a read would be the press's own in a memory without bound. */
  predicate InTime(history: seq<Event>, cookie: string, page: string, now: int) {
    var press := Waits(history, cookie);
    press.Some? && press.value.page == page && now <= press.value.at + 10_000
  }

  /** The other cookies pressed since the cookie began to wait. */
  function Since(history: seq<Event>, cookie: string): set<string> {
    if history == [] then {}
    else
      var before, last := history[..|history| - 1], history[|history| - 1];
      if Waits(before, cookie).None? then {}
      else if last.Pressed? && last.cookie != cookie then Since(before, cookie) + {last.cookie}
      else Since(before, cookie)
  }

  // ---- What the memory keeps ----

  predicate Apart(order: seq<string>) {
    forall i, j | 0 <= i < j < |order| :: order[i] != order[j]
  }

  /** Each cookie once, and a wait for each. */
  ghost predicate Whole(memory: Memory) {
    Apart(memory.order) && forall cookie :: cookie in memory.order <==> cookie in memory.waits
  }

  lemma {:induction false} WithoutKeeps(order: seq<string>, cookie: string)
    requires Apart(order)
    ensures Apart(Without(order, cookie)) && |Without(order, cookie)| <= |order|
    ensures forall one :: one in Without(order, cookie) <==> one in order && one != cookie
  {
    if order != [] {
      WithoutKeeps(order[1..], cookie);
      assert order == [order[0]] + order[1..];
      if order[0] != cookie { assert order[0] !in order[1..]; }
    }
  }

  /** A thousand waits at most, each cookie once. */
  lemma {:induction false} ReplayKeeps(history: seq<Event>)
    ensures Whole(Replay(history)) && |Replay(history).order| <= 1_000
  {
    if history != [] {
      var before, last := history[..|history| - 1], history[|history| - 1];
      ReplayKeeps(before);
      match last {
        case Pressed(cookie, page, at) => PressKeeps(Replay(before), cookie, Wait(page, at + REREAD_WITHIN_MS));
        case Read(None, _, _) =>
        case Read(Some(cookie), _, _) => WithoutKeeps(Replay(before).order, cookie);
      }
    }
  }

  lemma PressKeeps(memory: Memory, cookie: string, wait: Wait)
    requires Whole(memory) && |memory.order| <= REREADS_KEPT
    ensures Whole(Put(memory, cookie, wait)) && |Put(memory, cookie, wait).order| <= REREADS_KEPT + 1
    ensures Whole(Evicted(Put(memory, cookie, wait))) && |Evicted(Put(memory, cookie, wait)).order| <= REREADS_KEPT
  {
    EvictedKeeps(Put(memory, cookie, wait));
  }

  lemma EvictedKeeps(memory: Memory)
    requires Whole(memory) && |memory.order| <= REREADS_KEPT + 1
    ensures Evicted(memory) == if |memory.order| <= REREADS_KEPT then memory
                               else Memory(memory.order[1..], memory.waits - {memory.order[0]})
    ensures Whole(Evicted(memory)) && |Evicted(memory).order| <= REREADS_KEPT
  {
    if |memory.order| > REREADS_KEPT {
      assert memory.order == [memory.order[0]] + memory.order[1..];
      assert memory.order[0] !in memory.order[1..];
    }
  }

  /** The cookie just pressed is never the one that goes. */
  lemma JustPressedStays(memory: Memory, cookie: string, wait: Wait)
    requires Whole(memory) && |memory.order| <= REREADS_KEPT
    ensures var pressed := Evicted(Put(memory, cookie, wait));
            |pressed.order| <= REREADS_KEPT && cookie in pressed.waits && pressed.waits[cookie] == wait
  {
    PressKeeps(memory, cookie, wait);
    EvictedKeeps(Put(memory, cookie, wait));
    if cookie !in memory.waits && |memory.order| == REREADS_KEPT { assert memory.order[0] in memory.order; }
  }

  /** Whatever is remembered of a cookie is this press. */
  predicate Remembers(memory: Memory, cookie: string, press: Option<Event>) {
    cookie in memory.waits ==>
      press == Some(Pressed(cookie, memory.waits[cookie].page, memory.waits[cookie].until - REREAD_WITHIN_MS))
  }

  lemma StillRemembers(memory: Memory, event: Event, cookie: string, press: Option<Event>)
    requires Whole(memory) && |memory.order| <= REREADS_KEPT && Remembers(memory, cookie, press)
    ensures Remembers(After(memory, event), cookie, if !About(event, cookie) then press else if event.Pressed? then Some(event) else None)
  {
    if event.Pressed? {
      var wait := Wait(event.page, event.at + REREAD_WITHIN_MS);
      PressKeeps(memory, event.cookie, wait);
      EvictedKeeps(Put(memory, event.cookie, wait));
    }
  }

  /** Whatever is remembered is the cookie's latest event. */
  lemma {:induction false} RememberedIsLatest(history: seq<Event>, cookie: string)
    ensures Remembers(Replay(history), cookie, Waits(history, cookie))
  {
    if history != [] {
      var before, last := history[..|history| - 1], history[|history| - 1];
      ReplayKeeps(before);
      RememberedIsLatest(before, cookie);
      StillRemembers(Replay(before), last, cookie, Waits(before, cookie));
    }
  }

  // ---- What the bound forgets ----

  /** The cookies that came in after a cookie. */
  function Later(order: seq<string>, cookie: string): seq<string> {
    if order == [] then []
    else if order[0] == cookie then order[1..]
    else Later(order[1..], cookie)
  }

  lemma {:induction false} LaterOfMore(order: seq<string>, one: string, cookie: string)
    ensures Later(order + [one], cookie) == if cookie in order then Later(order, cookie) + [one] else []
  {
    if order != [] {
      assert (order + [one])[1..] == order[1..] + [one];
      LaterOfMore(order[1..], one, cookie);
    }
  }

  lemma {:induction false} LaterOfLess(order: seq<string>, one: string, cookie: string)
    requires one != cookie
    ensures Later(Without(order, one), cookie) == Without(Later(order, cookie), one)
  {
    if order != [] {
      LaterOfLess(order[1..], one, cookie);
      var less := Without(order[1..], one);
      if order[0] == one {
        assert Without(order, one) == less;
      } else {
        assert Without(order, one) == [order[0]] + less && ([order[0]] + less)[1..] == less;
      }
    }
  }

  lemma {:induction false} LaterIsApart(order: seq<string>, cookie: string)
    requires Apart(order)
    ensures Apart(Later(order, cookie)) && |Later(order, cookie)| <= |order|
    ensures forall one | one in Later(order, cookie) :: one in order
  {
    if order != [] && order[0] != cookie { LaterIsApart(order[1..], cookie); }
  }

  lemma {:induction false} ApartAtMost(order: seq<string>, cookies: set<string>)
    requires Apart(order) && forall one | one in order :: one in cookies
    ensures |order| <= |cookies|
  {
    if order != [] {
      assert order[0] in cookies;
      ApartAtMost(order[1..], cookies - {order[0]});
    }
  }

  /** The cookie waits, and every one that came in after it is one of these. */
  ghost predicate Behind(memory: Memory, cookie: string, others: set<string>) {
    cookie in memory.order && forall one | one in Later(memory.order, cookie) :: one in others
  }

  /** A thousand can have come in after a cookie only where a thousand others were pressed. */
  lemma NotCrowdedOut(memory: Memory, cookie: string, others: set<string>)
    requires Whole(memory) && |memory.order| <= REREADS_KEPT + 1 && Behind(memory, cookie, others)
    requires |others| < REREADS_KEPT
    ensures Behind(Evicted(memory), cookie, others)
  {
    EvictedKeeps(memory);
    LaterIsApart(memory.order, cookie);
    ApartAtMost(Later(memory.order, cookie), others);
  }

  lemma PressKeepsPlace(memory: Memory, cookie: string, others: set<string>, presser: string, wait: Wait, grown: set<string>)
    requires Whole(memory) && |memory.order| <= REREADS_KEPT
    requires if presser == cookie then grown == others || (others == {} && cookie !in memory.order) else grown == others + {presser}
    requires Behind(memory, cookie, others) || (presser == cookie && cookie !in memory.order)
    requires |grown| < REREADS_KEPT
    ensures Behind(Evicted(Put(memory, presser, wait)), cookie, grown)
  {
    PressKeeps(memory, presser, wait);
    LaterOfMore(memory.order, presser, cookie);
    NotCrowdedOut(Put(memory, presser, wait), cookie, grown);
  }

  lemma {:induction false} WithoutHolds(order: seq<string>, cookie: string)
    ensures forall one | one in Without(order, cookie) :: one in order
  {
    if order != [] {
      WithoutHolds(order[1..], cookie);
      assert order == [order[0]] + order[1..];
    }
  }

  lemma ReadKeepsPlace(memory: Memory, cookie: string, others: set<string>, reader: string)
    requires Whole(memory) && Behind(memory, cookie, others) && reader != cookie
    ensures Behind(Delete(memory, reader), cookie, others)
  {
    WithoutKeeps(memory.order, reader);
    LaterOfLess(memory.order, reader, cookie);
    WithoutHolds(Later(memory.order, cookie), reader);
  }

  /** One event after which a cookie still waits, and what it leaves of the order. */
  lemma OneEventKeepsPlace(memory: Memory, event: Event, cookie: string, waited: bool, others: set<string>, grown: set<string>)
    requires Whole(memory) && |memory.order| <= REREADS_KEPT
    requires if waited then Behind(memory, cookie, others) else cookie !in memory.order
    requires if event.Pressed? then waited || event.cookie == cookie else waited && event.reader != Some(cookie)
    requires grown == if !waited then {} else if event.Pressed? && event.cookie != cookie then others + {event.cookie} else others
    requires |grown| < REREADS_KEPT
    ensures Behind(After(memory, event), cookie, grown)
  {
    match event {
      case Pressed(presser, page, at) =>
        PressKeepsPlace(memory, cookie, if waited then others else {}, presser, Wait(page, at + REREAD_WITHIN_MS), grown);
      case Read(None, _, _) =>
      case Read(Some(reader), _, _) =>
        ReadKeepsPlace(memory, cookie, others, reader);
    }
  }

  /** A cookie that waits is remembered unless a thousand others have been pressed since it began to. */
  lemma {:induction false} KeptUnlessCrowdedOut(history: seq<Event>, cookie: string)
    requires Waits(history, cookie).Some? && |Since(history, cookie)| < 1_000
    ensures Behind(Replay(history), cookie, Since(history, cookie)) && cookie in Replay(history).waits
  {
    var before, last := history[..|history| - 1], history[|history| - 1];
    ReplayKeeps(before);
    ReplayKeeps(history);
    if Waits(before, cookie).Some? {
      FewerBefore(history, cookie);
      KeptUnlessCrowdedOut(before, cookie);
    } else {
      RememberedIsLatest(before, cookie);
    }
    OneEventKeepsPlace(Replay(before), last, cookie, Waits(before, cookie).Some?, Since(before, cookie), Since(history, cookie));
  }

  lemma FewerBefore(history: seq<Event>, cookie: string)
    requires history != [] && Waits(history[..|history| - 1], cookie).Some?
    ensures |Since(history[..|history| - 1], cookie)| <= |Since(history, cookie)|
  {
    var was, now := Since(history[..|history| - 1], cookie), Since(history, cookie);
    if was != now { assert now == was + {history[|history| - 1].cookie}; }
  }

  /** The memory after these cookies were pressed, one after another. */
  function PressedAll(memory: Memory, cookies: seq<string>, page: string, at: int): Memory {
    if cookies == [] then memory
    else After(PressedAll(memory, cookies[..|cookies| - 1], page, at), Pressed(cookies[|cookies| - 1], page, at))
  }

  function Newest(order: seq<string>): seq<string> {
    if |order| <= REREADS_KEPT then order else order[|order| - REREADS_KEPT..]
  }

  lemma NewcomerComesLast(memory: Memory, cookie: string, page: string, at: int, pressed: Memory)
    requires Whole(memory) && |memory.order| <= REREADS_KEPT && cookie !in memory.order
    requires pressed == After(memory, Pressed(cookie, page, at))
    ensures Whole(pressed) && pressed.order == Newest(memory.order + [cookie])
  {
    PressKeeps(memory, cookie, Wait(page, at + REREAD_WITHIN_MS));
    EvictedKeeps(Put(memory, cookie, Wait(page, at + REREAD_WITHIN_MS)));
  }

  lemma NewestOfMore(order: seq<string>, one: string)
    ensures Newest(Newest(order) + [one]) == Newest(order + [one])
    ensures forall other | other in Newest(order) :: other in order
  {
  }

  lemma LastIsApart(order: seq<string>, one: string)
    requires Apart(order + [one])
    ensures Apart(order) && one !in order
  {
    var all := order + [one];
    assert forall i | 0 <= i < |order| :: all[i] == order[i];
    assert all[|order|] == one;
  }

  lemma {:induction false} NewcomersPushOut(memory: Memory, cookies: seq<string>, page: string, at: int)
    requires Whole(memory) && |memory.order| <= REREADS_KEPT && Apart(memory.order + cookies)
    ensures PressedAll(memory, cookies, page, at).order == Newest(memory.order + cookies)
    ensures Whole(PressedAll(memory, cookies, page, at))
  {
    if cookies == [] {
      assert memory.order + cookies == memory.order;
    } else {
      var last := |cookies| - 1;
      var all := memory.order + cookies[..last];
      assert memory.order + cookies == all + [cookies[last]];
      LastIsApart(all, cookies[last]);
      NewcomersPushOut(memory, cookies[..last], page, at);
      NewestOfMore(all, cookies[last]);
      NewcomerComesLast(PressedAll(memory, cookies[..last], page, at), cookies[last], page, at, PressedAll(memory, cookies, page, at));
    }
  }

  /** The bound is met exactly: a thousand newcomers push every wait before them out. */
  lemma AThousandForget(memory: Memory, cookie: string, cookies: seq<string>, page: string, at: int)
    requires Whole(memory) && |memory.order| <= REREADS_KEPT && Apart(memory.order + cookies)
    requires cookie in memory.order && |cookies| == REREADS_KEPT
    ensures cookie !in PressedAll(memory, cookies, page, at).waits
  {
    NewcomersPushOut(memory, cookies, page, at);
    var i :| 0 <= i < |memory.order| && memory.order[i] == cookie;
    assert PressedAll(memory, cookies, page, at).order == cookies;
    assert forall k | 0 <= k < |cookies| :: cookies[k] == (memory.order + cookies)[|memory.order| + k];
    assert (memory.order + cookies)[i] == cookie;
  }

  // ---- When exactly a wait is forgotten ----

  lemma {:induction false} LaterAtMost(order: seq<string>, cookie: string)
    requires cookie in order
    ensures |Later(order, cookie)| < |order| && (|Later(order, cookie)| == |order| - 1 <==> order[0] == cookie)
  {
    if order[0] != cookie { LaterAtMost(order[1..], cookie); }
  }

  /** A newcomer is pressed while all the other places are taken by cookies that came in after this one. */
  predicate PushesOut(history: seq<Event>, k: nat, cookie: string)
    requires k < |history|
  {
    var memory := Replay(history[..k]);
    && history[k].Pressed? && history[k].cookie !in memory.waits && cookie in memory.waits
    && |Later(memory.order, cookie)| == REREADS_KEPT - 1
  }

  predicate QuietFrom(history: seq<Event>, k: nat, cookie: string)
    requires k < |history|
  {
    forall j | k <= j < |history| :: !About(history[j], cookie)
  }

  lemma OnePressForgets(memory: Memory, presser: string, wait: Wait, cookie: string)
    requires Whole(memory) && |memory.order| <= REREADS_KEPT && presser != cookie
    ensures cookie !in Evicted(Put(memory, presser, wait)).waits <==>
              cookie !in memory.waits || (presser !in memory.waits && |Later(memory.order, cookie)| == REREADS_KEPT - 1)
  {
    if cookie in memory.waits { LaterAtMost(memory.order, cookie); }
    PressKeeps(memory, presser, wait);
    EvictedKeeps(Put(memory, presser, wait));
  }

  /** An event of others leaves a cookie forgotten where it was, or where it is a press that pushes it out. */
  lemma OneEventForgets(memory: Memory, event: Event, cookie: string)
    requires Whole(memory) && |memory.order| <= REREADS_KEPT && !About(event, cookie)
    ensures cookie !in After(memory, event).waits <==>
              || cookie !in memory.waits
              || (event.Pressed? && event.cookie !in memory.waits && |Later(memory.order, cookie)| == REREADS_KEPT - 1)
  {
    if event.Pressed? { OnePressForgets(memory, event.cookie, Wait(event.page, event.at + REREAD_WITHIN_MS), cookie); }
  }

  lemma PushedBefore(history: seq<Event>, event: Event, k: nat, cookie: string)
    requires k < |history|
    ensures PushesOut(history + [event], k, cookie) == PushesOut(history, k, cookie)
    ensures QuietFrom(history + [event], k, cookie) == (QuietFrom(history, k, cookie) && !About(event, cookie))
  {
    var all := history + [event];
    assert all[..k] == history[..k];
    assert QuietFrom(all, k, cookie) ==> !About(all[|history|], cookie);
    assert QuietFrom(all, k, cookie) ==> forall j | k <= j < |history| :: history[j] == all[j];
  }

  ghost predicate PushedOut(history: seq<Event>, cookie: string) {
    exists k: nat | k < |history| :: PushesOut(history, k, cookie) && QuietFrom(history, k, cookie)
  }

  lemma PushedOutByOneMore(history: seq<Event>, event: Event, cookie: string)
    ensures PushedOut(history + [event], cookie) <==>
              !About(event, cookie) && (PushedOut(history, cookie) || PushesOut(history + [event], |history|, cookie))
  {
    var all := history + [event];
    assert QuietFrom(all, |history|, cookie) <==> !About(all[|history|], cookie);
    forall k: nat | k < |history|
      ensures PushesOut(all, k, cookie) == PushesOut(history, k, cookie)
      ensures QuietFrom(all, k, cookie) == (QuietFrom(history, k, cookie) && !About(event, cookie))
    {
      PushedBefore(history, event, k, cookie);
    }
    if PushedOut(all, cookie) {
      var k: nat :| k < |all| && PushesOut(all, k, cookie) && QuietFrom(all, k, cookie);
      assert k == |history| || PushedOut(history, cookie);
    }
  }

  /** A cookie that waits is forgotten exactly where, since its latest press, a newcomer has pushed it out. */
  lemma {:induction false} ForgottenExactly(history: seq<Event>, cookie: string)
    requires Waits(history, cookie).Some?
    ensures cookie !in Replay(history).waits <==> PushedOut(history, cookie)
  {
    var before, last := history[..|history| - 1], history[|history| - 1];
    var memory := Replay(before);
    assert history == before + [last];
    ReplayKeeps(before);
    PushedOutByOneMore(before, last, cookie);
    if About(last, cookie) {
      JustPressedStays(memory, cookie, Wait(last.page, last.at + REREAD_WITHIN_MS));
    } else {
      ForgottenExactly(before, cookie);
      ForgottenOn(before, last, cookie, memory);
    }
  }

  /** What an event of others does to a cookie, in the history and in the memory alike. */
  lemma ForgottenOn(history: seq<Event>, event: Event, cookie: string, memory: Memory)
    requires memory == Replay(history) && Whole(memory) && |memory.order| <= REREADS_KEPT && !About(event, cookie)
    ensures cookie !in Replay(history + [event]).waits <==>
              cookie !in memory.waits || PushesOut(history + [event], |history|, cookie)
  {
    assert (history + [event])[..|history|] == history;
    OneEventForgets(memory, event, cookie);
  }

  // ---- Every run ----

  /** What the read at a place in the history was told. */
  predicate OwnAt(history: seq<Event>, i: nat)
    requires i < |history|
  {
    history[i].Read? && Answer(Replay(history[..i]), history[i].reader, history[i].page, history[i].at)
  }

  /** The latest event of a waiting cookie is the press it waits for. */
  lemma {:induction false} WaitsIsLatest(history: seq<Event>, cookie: string) returns (k: nat)
    requires Waits(history, cookie).Some?
    ensures k < |history| && history[k] == Waits(history, cookie).value
    ensures forall j | k < j < |history| :: !About(history[j], cookie)
  {
    k := |history| - 1;
    if !About(history[k], cookie) {
      var before := history[..k];
      k := WaitsIsLatest(before, cookie);
      assert before[k] == history[k];
    }
  }

  /**
   * A read told it is a press's own follows a press of its cookie and page, ten seconds before it at most,
   * with no other event of that cookie between.
   */
  lemma OwnReadsFollowTheirPress(history: seq<Event>, i: nat) returns (k: nat)
    requires i < |history| && OwnAt(history, i)
    ensures k < i && history[i].reader.Some? && history[k] == Pressed(history[i].reader.value, history[i].page, history[k].at)
    ensures history[i].at <= history[k].at + 10_000
    ensures forall j | k < j < i :: !About(history[j], history[i].reader.value)
  {
    var before, cookie := history[..i], history[i].reader.value;
    RememberedIsLatest(before, cookie);
    k := WaitsIsLatest(before, cookie);
    forall j | k < j < i ensures !About(history[j], cookie) { assert history[j] == before[j]; }
  }

  /** No press is answered twice: between two reads told so a press of that cookie and page lies. */
  lemma OncePerPress(history: seq<Event>, i: nat, j: nat)
    requires i < j < |history| && OwnAt(history, i) && OwnAt(history, j) && history[i].reader == history[j].reader
    ensures exists k | i < k < j :: history[k].Pressed? && history[k].cookie == history[j].reader.value && history[k].page == history[j].page
  {
    var k := OwnReadsFollowTheirPress(history, j);
    assert About(history[i], history[j].reader.value);
  }

  /**
   * The bounded memory says yes exactly where one without bound would and no newcomer has pushed the cookie
   * out; so it answers alike unless a thousand others were pressed since the wait began.
   */
  lemma AnswersAsUnbounded(history: seq<Event>, cookie: string, page: string, now: int)
    ensures Answer(Replay(history), Some(cookie), page, now) <==> InTime(history, cookie, page, now) && !PushedOut(history, cookie)
    ensures Waits(history, cookie).Some? && PushedOut(history, cookie) ==> |Since(history, cookie)| >= 1_000
  {
    RememberedIsLatest(history, cookie);
    if Waits(history, cookie).Some? {
      ForgottenExactly(history, cookie);
      if |Since(history, cookie)| < REREADS_KEPT { KeptUnlessCrowdedOut(history, cookie); }
    }
  }
}
