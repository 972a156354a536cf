/** The report table and what stands around it: accounts and their merchants, cards, the clock, and the posts sent. */
module AdReportModel {
  import opened Options

  // Accounts stand in the database's text order of their ids.
  type Account = int
  type Merchant = int

  const SPACED_MS := 1_100
  const RETRIED_FOR_MS := 24 * 60 * 60 * 1_000
  const KEPT_FOR_MS := 30 * RETRIED_FOR_MS

  datatype Event = Reg | StoreConnected
  datatype Key = Key(account: Account, event: Event)
  datatype State = Waiting | Pending | Delivered | Refused | GivenUp | Lapsed

  datatype Reason =
    | RegistrationNotDelivered
    | SwitchedOffPast30Days
    | FirstCardBeforeRegistration
    | BelongsToAnotherAccount
    | NoFirstCardIn30Days

  datatype Outcome = Http(status: int) | Timeout | NetworkError | LapsedFor(reason: Reason)

  datatype Row = Row(
    state: State,
    click: Option<string>,
    attempts: nat,
    nextAttemptAt: Option<int>,
    lastOutcome: Option<Outcome>,
    createdAt: int,
    eventAt: Option<int>,
    settledAt: Option<int>)

  /** One post as it left: the row it told of, and when its time was checked and when it began. */
  datatype Post = Post(
    key: Key,
    click: string,
    eventAt: int,
    createdAt: int,
    checkedAt: int,
    startedAt: int)

  datatype World = World(
    rows: map<Key, Row>,
    merchantOf: map<Account, Option<Merchant>>,
    cards: map<Merchant, seq<int>>,
    clock: int,
    posts: seq<Post>)

  const EMPTY := World(map[], map[], map[], 0, [])

  predicate Open(state: State) {
    state.Waiting? || state.Pending?
  }

  /** A store report that has left these two states has been, or will be, told to the tracker. */
  predicate Unsent(state: State) {
    state.Waiting? || state.Lapsed?
  }

  /** From this moment on nothing is posted: a day after the fact, or thirty after the registration, whichever is sooner. */
  function LastTry(eventAt: int, createdAt: int): int {
    if eventAt + RETRIED_FOR_MS <= createdAt + KEPT_FOR_MS
    then eventAt + RETRIED_FOR_MS else createdAt + KEPT_FOR_MS
  }

  /** How long the n-th failure waits, counted from one. */
  function RetryDelay(n: nat): int {
    if n <= 1 then 60_000
    else if n == 2 then 5 * 60_000
    else if n == 3 then 30 * 60_000
    else if n == 4 then 2 * 60 * 60_000
    else 6 * 60 * 60_000
  }

  /** The least of a merchant's publication times. */
  function Earliest(times: seq<int>): int
    requires times != []
  {
    if |times| == 1 || times[0] <= Earliest(times[1..]) then times[0] else Earliest(times[1..])
  }

  function FirstCard(w: World, a: Account): Option<int> {
    if a in w.merchantOf && w.merchantOf[a].Some? && w.merchantOf[a].value in w.cards
       && w.cards[w.merchantOf[a].value] != []
    then Some(Earliest(w.cards[w.merchantOf[a].value]))
    else None
  }

  // ---- What others do while a turn runs or between two turns ----

  /** A change another connection commits, or time passing. */
  datatype Change =
    | Tick(ms: nat)
    | MakeAccount(account: Account, names: Option<Merchant>)
    | Register(account: Account, click: string)
    | Attach(account: Account, merchant: Merchant)
    | Publish(merchant: Merchant)

  function NewRegistration(click: string, at: int): Row {
    Row(Pending, Some(click), 0, Some(at), None, at, Some(at), None)
  }

  function NewStoreReport(click: string, at: int): Row {
    Row(Waiting, Some(click), 0, None, None, at, None, None)
  }

  /** What a registration inserts. */
  function Registered(account: Account, click: string, at: int): map<Key, Row> {
    map[Key(account, Reg) := NewRegistration(click, at),
        Key(account, StoreConnected) := NewStoreReport(click, at)]
  }

  /** Whether the change goes through: an account is made, registered and attached once. */
  predicate Applies(w: World, c: Change) {
    match c
    case Tick(_) => true
    case MakeAccount(a, _) => a !in w.merchantOf
    case Register(a, _) =>
      a in w.merchantOf && Key(a, Reg) !in w.rows && Key(a, StoreConnected) !in w.rows
    case Attach(a, _) => a in w.merchantOf && w.merchantOf[a].None?
    case Publish(_) => true
  }

  function Changed(w: World, c: Change): World {
    if !Applies(w, c) then w else
    match c
    case Tick(ms) => w.(clock := w.clock + ms)
    case MakeAccount(a, m) => w.(merchantOf := w.merchantOf[a := m])
    case Register(a, click) => w.(rows := w.rows + Registered(a, click, w.clock))
    case Attach(a, m) => w.(merchantOf := w.merchantOf[a := Some(m)])
    case Publish(m) =>
      w.(cards := w.cards[m := (if m in w.cards then w.cards[m] else []) + [w.clock]])
  }

  function Meanwhile(w: World, changes: seq<Change>): World
    decreases |changes|
  {
    if changes == [] then w else Meanwhile(Changed(w, changes[0]), changes[1..])
  }

  lemma {:induction false} MeanwhileSplits(w: World, one: seq<Change>, other: seq<Change>)
    ensures Meanwhile(w, one + other) == Meanwhile(Meanwhile(w, one), other)
    decreases |one|
  {
    if one == [] {
      assert one + other == other;
    } else {
      assert (one + other)[1..] == one[1..] + other;
      MeanwhileSplits(Changed(w, one[0]), one[1..], other);
    }
  }

  /** How long the changes take together. */
  function Elapsed(changes: seq<Change>): nat {
    if changes == [] then 0
    else (if changes[0].Tick? then changes[0].ms else 0) + Elapsed(changes[1..])
  }

  lemma {:induction false} MeanwhileTakes(w: World, changes: seq<Change>)
    ensures Meanwhile(w, changes).clock == w.clock + Elapsed(changes)
    decreases |changes|
  {
    if changes != [] { MeanwhileTakes(Changed(w, changes[0]), changes[1..]); }
  }

  lemma {:induction false} ElapsedSplits(one: seq<Change>, other: seq<Change>)
    ensures Elapsed(one + other) == Elapsed(one) + Elapsed(other)
  {
    if one == [] {
      assert one + other == other;
    } else {
      assert (one + other)[1..] == one[1..] + other;
      ElapsedSplits(one[1..], other);
    }
  }

  /** What others commit does not depend on what a turn has written over rows of its own or posted. */
  lemma {:induction false} WritesLieOver(w: World, writes: map<Key, Row>, posts: seq<Post>, changes: seq<Change>)
    requires writes.Keys <= w.rows.Keys
    ensures writes.Keys <= Meanwhile(w, changes).rows.Keys
    ensures Meanwhile(w.(rows := w.rows + writes, posts := posts), changes)
         == Meanwhile(w, changes).(rows := Meanwhile(w, changes).rows + writes, posts := posts)
    decreases |changes|
  {
    if changes != [] {
      var c := changes[0];
      var v := Changed(w, c);
      var over := w.(rows := w.rows + writes, posts := posts);
      assert (w.rows + writes).Keys == w.rows.Keys;
      assert Changed(over, c) == v.(rows := v.rows + writes, posts := posts) by {
        if c.Register? && Applies(w, c) {
          assert over.rows + Registered(c.account, c.click, w.clock) == v.rows + writes;
        }
      }
      WritesLieOver(v, writes, posts, changes[1..]);
    }
  }

  /** Nor does what others commit send any post. */
  lemma PostsApart(w: World, posts: seq<Post>, changes: seq<Change>)
    ensures Meanwhile(w.(posts := posts), changes) == Meanwhile(w, changes).(posts := posts)
    ensures w.rows.Keys <= Meanwhile(w, changes).rows.Keys
  {
    WritesLieOver(w, map[], posts, changes);
    assert w.rows + map[] == w.rows;
    assert Meanwhile(w, changes).rows + map[] == Meanwhile(w, changes).rows;
    WritesLieOver(w, w.rows, posts, changes);
  }
}
