/** The statement that settles every store report still waiting, and the one that gives up what is past its time. */
module AdReportSettling {
  import opened Options
  import opened AdReportModel

  datatype Fate = Due | Late | Lapse(reason: Reason) | Stay

  predicate Failed(state: State) {
    state.Refused? || state.GivenUp?
  }

  /** A waiting store report the statement locked, with its account and its registration's report. */
  predicate InWaiting(w: World, skipped: set<Account>, a: Account) {
    && Key(a, StoreConnected) in w.rows
    && w.rows[Key(a, StoreConnected)].state.Waiting?
    && Key(a, Reg) in w.rows
    && a in w.merchantOf
    && a !in skipped
  }

  /** An account of this merchant already took the store report. */
  predicate Taken(w: World, m: Merchant) {
    exists a | a in w.merchantOf ::
      && w.merchantOf[a] == Some(m)
      && Key(a, StoreConnected) in w.rows
      && !Unsent(w.rows[Key(a, StoreConnected)].state)
  }

  predicate Eligible(w: World, skipped: set<Account>, a: Account) {
    && InWaiting(w, skipped, a)
    && FirstCard(w, a).Some?
    && w.rows[Key(a, StoreConnected)].createdAt <= FirstCard(w, a).value
    && FirstCard(w, a).value < w.rows[Key(a, StoreConnected)].createdAt + KEPT_FOR_MS
    && !Failed(w.rows[Key(a, Reg)].state)
    && !Taken(w, w.merchantOf[a].value)
  }

  /** The statement's order within one merchant: by registration, then by account. */
  predicate Sooner(w: World, a: Account, b: Account)
    requires Key(a, StoreConnected) in w.rows && Key(b, StoreConnected) in w.rows
  {
    var one, other := w.rows[Key(a, StoreConnected)], w.rows[Key(b, StoreConnected)];
    one.createdAt < other.createdAt || (one.createdAt == other.createdAt && a < b)
  }

  /** Of each merchant's eligible reports, the soonest: the one `distinct on` keeps. */
  predicate Holds(w: World, skipped: set<Account>, a: Account) {
    && Eligible(w, skipped, a)
    && forall b | b in w.merchantOf ::
         Eligible(w, skipped, b) && w.merchantOf[b] == w.merchantOf[a] && b != a
         ==> Sooner(w, a, b)
  }

  function FateOf(w: World, at: int, promote: bool, skipped: set<Account>, a: Account): Fate
    requires InWaiting(w, skipped, a)
  {
    var row, registration := w.rows[Key(a, StoreConnected)], w.rows[Key(a, Reg)].state;
    var first := FirstCard(w, a);
    if Failed(registration) then Lapse(RegistrationNotDelivered)
    else if Holds(w, skipped, a) then
      if registration.Delivered? && promote then
        if at < LastTry(first.value, row.createdAt) then Due else Late
      else if at < row.createdAt + KEPT_FOR_MS then Stay
      else if registration.Delivered? then Lapse(SwitchedOffPast30Days)
      else Lapse(RegistrationNotDelivered)
    else if first.Some? && first.value < row.createdAt then Lapse(FirstCardBeforeRegistration)
    else if first.Some? && first.value < row.createdAt + KEPT_FOR_MS then Lapse(BelongsToAnotherAccount)
    else if at >= row.createdAt + KEPT_FOR_MS then Lapse(NoFirstCardIn30Days)
    else Stay
  }

  /** What the update writes over a row whose fate is decided. */
  function WithFate(row: Row, fate: Fate, first: Option<int>, at: int): Row
    requires !fate.Stay?
  {
    row.(
      state := (match fate case Due => Pending case Late => GivenUp case _ => Lapsed),
      click := if fate.Due? then row.click else None,
      eventAt := if fate.Due? || fate.Late? then first else None,
      nextAttemptAt := if fate.Due? then Some(at) else None,
      lastOutcome := if fate.Lapse? then Some(LapsedFor(fate.reason)) else None,
      settledAt := if fate.Due? then None else Some(at))
  }

  /** The rows the statement writes, and only those. */
  function SettleWrites(w: World, at: int, promote: bool, skipped: set<Account>): map<Key, Row> {
    map k | k in w.rows && k.event.StoreConnected? && InWaiting(w, skipped, k.account)
            && !FateOf(w, at, promote, skipped, k.account).Stay?
      :: WithFate(w.rows[k], FateOf(w, at, promote, skipped, k.account), FirstCard(w, k.account), at)
  }

  function Settled(w: World, at: int, promote: bool, skipped: set<Account>): World {
    w.(rows := w.rows + SettleWrites(w, at, promote, skipped))
  }

  /** Giving up closes a row and leaves what its tries recorded. */
  function GiveUp(row: Row, at: int): Row {
    row.(state := GivenUp, click := None, nextAttemptAt := None, settledAt := Some(at))
  }

  predicate PastItsTime(row: Row, at: int) {
    row.state.Pending? && row.eventAt.Some? && LastTry(row.eventAt.value, row.createdAt) <= at
  }

  function GiveUpLateWrites(rows: map<Key, Row>, at: int): map<Key, Row> {
    map k | k in rows && PastItsTime(rows[k], at) :: GiveUp(rows[k], at)
  }

  function GivenUpLate(w: World, at: int): World {
    w.(rows := w.rows + GiveUpLateWrites(w.rows, at))
  }

  // ---- The query's pipeline, and that it keeps each merchant's holder ----

  /** One line of the joined relation the query orders. */
  datatype Line = Line(merchant: Merchant, createdAt: int, account: Account, publishedAt: int)

  predicate Ordered(lines: seq<Line>) {
    forall i, j | 0 <= i < j < |lines| :: LineBefore(lines[i], lines[j])
  }

  /** `order by merchant_id, created_at, account_id`. */
  predicate LineBefore(one: Line, other: Line) {
    || one.merchant < other.merchant
    || (one.merchant == other.merchant
        && (one.createdAt < other.createdAt
            || (one.createdAt == other.createdAt && one.account < other.account)))
  }

  /** `distinct on (merchant_id)`: the first line of each run of one merchant. */
  function DistinctOn(lines: seq<Line>): seq<Line> {
    if lines == [] then []
    else if |lines| > 1 && lines[|lines| - 2].merchant == lines[|lines| - 1].merchant
    then DistinctOn(lines[..|lines| - 1])
    else DistinctOn(lines[..|lines| - 1]) + [lines[|lines| - 1]]
  }

  function LineOf(w: World, a: Account): Line
    requires a in w.merchantOf && FirstCard(w, a).Some? && Key(a, StoreConnected) in w.rows
  {
    Line(w.merchantOf[a].value, w.rows[Key(a, StoreConnected)].createdAt, a, FirstCard(w, a).value)
  }

  /** The relation before `distinct on`: a line for each eligible report and no other. */
  ghost predicate JoinedLines(w: World, skipped: set<Account>, lines: seq<Line>) {
    && (forall i | 0 <= i < |lines| ::
          Eligible(w, skipped, lines[i].account) && lines[i] == LineOf(w, lines[i].account))
    && (forall a | Eligible(w, skipped, a) :: LineOf(w, a) in lines)
  }

  lemma {:induction false} DistinctOnKeepsFirsts(lines: seq<Line>, line: Line)
    requires Ordered(lines)
    ensures line in DistinctOn(lines) <==>
      line in lines &&
      forall i | 0 <= i < |lines| && lines[i].merchant == line.merchant && lines[i] != line ::
        LineBefore(line, lines[i])
  {
    if lines != [] {
      var last := |lines| - 1;
      var shorter := lines[..last];
      DistinctOnKeepsFirsts(shorter, line);
      assert lines == shorter + [lines[last]];
      if line in shorter {
        var at :| 0 <= at < last && lines[at] == line;
        assert LineBefore(line, lines[last]);
      } else if line == lines[last] {
        if last > 0 && lines[last - 1].merchant == line.merchant {
          assert LineBefore(lines[last - 1], line);
        } else {
          forall i | 0 <= i < last ensures lines[i].merchant != line.merchant {
            assert LineBefore(lines[i], line);
            if i < last - 1 { assert LineBefore(lines[i], lines[last - 1]); assert LineBefore(lines[last - 1], line); }
          }
        }
      }
    }
  }

  /** The query keeps, of each merchant, exactly the eligible report its simple rule names. */
  lemma ChosenIsTheHolder(w: World, skipped: set<Account>, lines: seq<Line>, a: Account)
    requires JoinedLines(w, skipped, lines) && Ordered(lines)
    ensures (exists line :: line in DistinctOn(lines) && line.account == a) <==> Holds(w, skipped, a)
  {
    if Holds(w, skipped, a) {
      var line := LineOf(w, a);
      DistinctOnKeepsFirsts(lines, line);
      forall i | 0 <= i < |lines| && lines[i].merchant == line.merchant && lines[i] != line
        ensures LineBefore(line, lines[i])
      {
        assert lines[i].account in w.merchantOf && lines[i].account != a;
      }
      assert line in DistinctOn(lines);
    }
    if line :| line in DistinctOn(lines) && line.account == a {
      DistinctOnKeepsFirsts(lines, line);
      assert Eligible(w, skipped, a) && line == LineOf(w, a);
      forall b | b in w.merchantOf && Eligible(w, skipped, b) && w.merchantOf[b] == w.merchantOf[a] && b != a
        ensures Sooner(w, a, b)
      {
        assert LineOf(w, b) in lines;
        var i :| 0 <= i < |lines| && lines[i] == LineOf(w, b);
        assert LineBefore(line, lines[i]);
      }
    }
  }
}
