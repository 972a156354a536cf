/** What a row comes to record, of the tracker's answer and of the settling, told by the answer and the table alone. */
module AdReportRecords {
  import opened Options
  import opened AdReportModel
  import opened AdReportSettling
  import opened AdReportTurns
  import opened AdReportInvariants
  import opened AdReportRuns
  import opened AdReportErasure
  import opened AdReportHope

  const A_DAY := 86_400_000
  const THIRTY_DAYS := 2_592_000_000

  /** What the n-th try that is to be tried again waits for the next: a minute, five, half an hour, two hours, then six. */
  const WAITS: seq<int> := [60_000, 300_000, 1_800_000, 7_200_000, 21_600_000]

  predicate Accepted(answer: Answer) {
    answer == Status(200)
  }

  /** Any answer but these three is refused for good; no answer at all is not one. */
  predicate RefusedBy(answer: Answer) {
    answer.Status? && answer.code != 200 && answer.code != 429 && answer.code < 500
  }

  /** When an n-th answer, read at `at`, is tried again. */
  function TriedAgainAt(n: nat, at: int): int
    requires n > 0
  {
    at + WAITS[if n <= 5 then n - 1 else 4]
  }

  /** Whether a moment lies before a day after the fact, and before thirty after the registration. */
  predicate InItsTime(row: Row, at: int)
    requires row.eventAt.Some?
  {
    at < row.eventAt.value + A_DAY && at < row.createdAt + THIRTY_DAYS
  }

  /** What one answer to a posted row leaves of it. */
  predicate Answered(row: Row, next: Row, answer: Answer, at: int)
    requires row.eventAt.Some?
  {
    var n := row.attempts + 1;
    var again := !Accepted(answer) && !RefusedBy(answer);
    && (next.state.Delivered? <==> Accepted(answer))
    && (next.state.Refused? <==> RefusedBy(answer))
    && (next.state.Pending? <==> again && InItsTime(row, TriedAgainAt(n, at)))
    && (next.state.GivenUp? <==> again && !InItsTime(row, TriedAgainAt(n, at)))
    && next.attempts == n && next.createdAt == row.createdAt && next.eventAt == row.eventAt
    && next.lastOutcome == Some(match answer
                                case Status(code) => Http(code)
                                case TimedOut => Timeout
                                case Unreachable => NetworkError)
    && (if next.state.Pending?
        then next.click == row.click && next.nextAttemptAt == Some(TriedAgainAt(n, at)) && next.settledAt == row.settledAt
        else next.click.None? && next.nextAttemptAt.None? && next.settledAt == Some(at))
  }

  /** The table a turn that posted leaves: its row is as the answer, read when it came, says. */
  ghost predicate HoldsTheAnswer(w: World, v: World, input: ReportInput)
    requires Posts(w, input)
  {
    var k := PostOf(w, input).key;
    && k in v.rows && FoundRow(w, input).eventAt.Some?
    && Answered(FoundRow(w, input), v.rows[k], input.answer,
                w.clock + Elapsed(BeforeCheck(input)) + Elapsed(input.starting) + Elapsed(input.posting))
  }

  /** A turn that posts and is not rolled back leaves its row as the tracker's answer says. */
  lemma TheAnswerDecides(w: World, input: ReportInput)
    requires Inv(w) && Posts(w, input) && !input.failure.Recording?
    ensures ReportTurn(w, input).took.Took? && HoldsTheAnswer(w, ReportTurn(w, input).world, input)
  {
    var at := AnsweredAt(w, input);
    var next := AfterAnswer(FoundRow(w, input), input.answer, at);
    PostIsOk(w, input);
    AfterAnswerIsAnswered(FoundRow(w, input), input.answer, at);
    RecordedRow(w, input, Found(w, input), next, at);
    HoldsWhatItRecorded(w, AtEnd(w, input), input, next, at);
  }

  lemma HoldsWhatItRecorded(w: World, v: World, input: ReportInput, next: Row, at: int)
    requires Posts(w, input) && FoundRow(w, input).eventAt.Some? && Answered(FoundRow(w, input), next, input.answer, at)
    requires at == w.clock + Elapsed(BeforeCheck(input)) + Elapsed(input.starting) + Elapsed(input.posting)
    requires Found(w, input) in v.rows && v.rows[Found(w, input)] == next
    ensures HoldsTheAnswer(w, v, input)
  {
  }

  lemma AnsweredAt(w: World, input: ReportInput) returns (at: int)
    requires Posts(w, input)
    ensures at == AtAnswer(w, input).clock
    ensures at == w.clock + Elapsed(BeforeCheck(input)) + Elapsed(input.starting) + Elapsed(input.posting)
  {
    at := AtAnswer(w, input).clock;
    CheckTakes(w, input);
    MeanwhileTakes(AtCheck(w, input), input.starting);
    MeanwhileTakes(Posted(w, input), input.posting);
  }

  /** What is recorded is what the turn leaves. */
  lemma RecordedRow(w: World, input: ReportInput, k: Key, next: Row, at: int)
    requires Posts(w, input) && !input.failure.Recording?
    requires k == Found(w, input) && at == AtAnswer(w, input).clock && next == AfterAnswer(FoundRow(w, input), input.answer, at)
    ensures ReportTurn(w, input) == Turn(AtEnd(w, input), Took.Took)
    ensures k in AtEnd(w, input).rows && AtEnd(w, input).rows[k] == next
  {
    StaysWhilePaused(WithRow(AtAnswer(w, input), k, next), AtStart(w, input).clock, input.pausing, k);
  }

  lemma StaysWhilePaused(w: World, started: int, meanwhile: seq<Change>, k: Key)
    requires k in w.rows
    ensures k in Paused(w, started, meanwhile).rows && Paused(w, started, meanwhile).rows[k] == w.rows[k]
  {
    RowsStay(w, meanwhile, k);
  }

  lemma AfterAnswerIsAnswered(row: Row, answer: Answer, at: int)
    requires row.eventAt.Some? && row.state.Pending?
    ensures Answered(row, AfterAnswer(row, answer, at), answer, at)
  {
  }

  /** A turn too late for its row posts nothing, and gives the row up with what its tries recorded. */
  lemma TooLateIsGivenUp(w: World, input: ReportInput)
    requires Inv(w) && Finds(w, input) && input.failure.Nowhere?
    requires FoundRow(w, input).click.Some? && FoundRow(w, input).eventAt.Some?
    requires !InItsTime(FoundRow(w, input), w.clock + Elapsed(BeforeCheck(input)))
    ensures var v, k, row := ReportTurn(w, input).world, Found(w, input), FoundRow(w, input);
            && v.posts == w.posts && ReportTurn(w, input).took.Took? && k in v.rows
            && v.rows[k] == Row(GivenUp, None, row.attempts, None, row.lastOutcome, row.createdAt, row.eventAt,
                                Some(w.clock + Elapsed(BeforeCheck(input))))
  {
    var at := w.clock + Elapsed(BeforeCheck(input));
    CheckTakes(w, input);
    assert TooLate(w, input);
    LateTurn(w, input, at);
    FoundIsPending(w, input);
    CheckLeaves(w, input);
  }

  lemma CheckLeaves(w: World, input: ReportInput)
    requires Inv(w)
    ensures AtCheck(w, input).posts == w.posts
  {
    UpToStart(w, input);
  }

  lemma LateTurn(w: World, input: ReportInput, at: int)
    requires Finds(w, input) && input.failure.Nowhere? && TooLate(w, input) && at == AtCheck(w, input).clock
    ensures ReportTurn(w, input) == Turn(WithRow(AtCheck(w, input), Found(w, input), GiveUp(FoundRow(w, input), at)), Took.Took)
  {
  }

  lemma FoundIsPending(w: World, input: ReportInput)
    requires Finds(w, input)
    ensures FoundRow(w, input).state.Pending?
  {
    assert IsDue(AtLock(w, input), SelectAt(w, input), input.dueSkips, Found(w, input));
  }

  /** A turn throws exactly where something in it failed, and else says whether it took a row: whether one was due. */
  lemma HowTurnsEnd(w: World, input: ReportInput, expiry: ExpireInput)
    requires Inv(w)
    ensures ReportTurn(w, input).took == if !input.failure.Nowhere? then Threw else if Finds(w, input) then Took.Took else Idle
    ensures ExpireTurn(w, expiry).took == if expiry.fails then Threw else Idle
  {
    if Finds(w, input) { FoundCanBePosted(w, input); }
  }

  /** A row that is due has its click and its date. */
  lemma FoundCanBePosted(w: World, input: ReportInput)
    requires Inv(w) && Finds(w, input)
    ensures FoundRow(w, input).click.Some? && FoundRow(w, input).eventAt.Some?
  {
    UpToStart(w, input);
    FoundIsPending(w, input);
    assert RowOk(Found(w, input), FoundRow(w, input), AtLock(w, input).clock);
  }

  // ---- What the settling records ----

  /** The account's merchant had a card before `t`. */
  predicate CardBefore(w: World, a: Account, t: int)
    requires a in w.merchantOf
  {
    && w.merchantOf[a].Some? && w.merchantOf[a].value in w.cards
    && exists i | 0 <= i < |w.cards[w.merchantOf[a].value]| :: w.cards[w.merchantOf[a].value][i] < t
  }

  lemma {:induction false} EarliestIsLeast(times: seq<int>, t: int)
    requires times != []
    ensures Earliest(times) < t <==> exists i | 0 <= i < |times| :: times[i] < t
    ensures Earliest(times) in times
  {
    if |times| > 1 {
      EarliestIsLeast(times[1..], t);
      assert times == [times[0]] + times[1..];
      assert forall i | 0 <= i < |times[1..]| :: times[1..][i] == times[i + 1];
      if i :| 0 <= i < |times| && times[i] < t {
        if i > 0 { assert times[1..][i - 1] < t; }
      }
    }
  }

  lemma CardBeforeIsFirst(w: World, a: Account, t: int)
    requires a in w.merchantOf
    ensures CardBefore(w, a, t) <==> FirstCard(w, a).Some? && FirstCard(w, a).value < t
  {
    if w.merchantOf[a].Some? && w.merchantOf[a].value in w.cards && w.cards[w.merchantOf[a].value] != [] {
      EarliestIsLeast(w.cards[w.merchantOf[a].value], t);
    }
  }

  /** Of the account's merchant, the report no other comes before: the one that may be posted. */
  predicate First(w: World, skips: set<Account>, a: Account)
    requires HasRows(w, a)
  {
    MayCount(w, skips, a) && forall b | b in w.merchantOf && b != a && w.merchantOf[b] == w.merchantOf[a] && HasRows(w, b) ::
      MayCount(w, skips, b) ==> Precedes(w, a, b)
  }

  predicate Precedes(w: World, a: Account, b: Account)
    requires HasRows(w, a) && HasRows(w, b)
  {
    var one, other := w.rows[Key(a, StoreConnected)].createdAt, w.rows[Key(b, StoreConnected)].createdAt;
    one < other || (one == other && a < b)
  }

  /** A waiting report of a merchant whose first card came in its thirty days, its registration not failed, nobody's posted yet. */
  predicate MayCount(w: World, skips: set<Account>, a: Account)
    requires HasRows(w, a)
  {
    var row, registration := w.rows[Key(a, StoreConnected)], w.rows[Key(a, Reg)].state;
    && row.state.Waiting? && a !in skips
    && !CardBefore(w, a, row.createdAt) && CardBefore(w, a, row.createdAt + THIRTY_DAYS)
    && !registration.Refused? && !registration.GivenUp?
    && forall b | b in w.merchantOf && w.merchantOf[b] == w.merchantOf[a] && Key(b, StoreConnected) in w.rows ::
         w.rows[Key(b, StoreConnected)].state.Waiting? || w.rows[Key(b, StoreConnected)].state.Lapsed?
  }

  lemma MayCountIsEligible(w: World, skips: set<Account>, a: Account)
    requires HasRows(w, a)
    ensures MayCount(w, skips, a) <==> Eligible(w, skips, a)
  {
    var created := w.rows[Key(a, StoreConnected)].createdAt;
    CardBeforeIsFirst(w, a, created);
    CardBeforeIsFirst(w, a, created + THIRTY_DAYS);
    if w.merchantOf[a].Some? {
      assert Taken(w, w.merchantOf[a].value) <==>
        exists b | b in w.merchantOf :: w.merchantOf[b] == w.merchantOf[a] && Key(b, StoreConnected) in w.rows
                                        && !Unsent(w.rows[Key(b, StoreConnected)].state);
    }
  }

  lemma FirstIsHolder(w: World, skips: set<Account>, a: Account)
    requires HasRows(w, a)
    ensures First(w, skips, a) <==> Holds(w, skips, a)
  {
    MayCountIsEligible(w, skips, a);
    forall b | b in w.merchantOf && HasRows(w, b) ensures MayCount(w, skips, b) <==> Eligible(w, skips, b) {
      MayCountIsEligible(w, skips, b);
    }
    if First(w, skips, a) {
      forall b | b in w.merchantOf && Eligible(w, skips, b) && w.merchantOf[b] == w.merchantOf[a] && b != a
        ensures Sooner(w, a, b)
      {
        assert HasRows(w, b) && MayCount(w, skips, b) && Precedes(w, a, b);
      }
    }
    if Holds(w, skips, a) {
      forall b | b in w.merchantOf && b != a && w.merchantOf[b] == w.merchantOf[a] && HasRows(w, b) && MayCount(w, skips, b)
        ensures Precedes(w, a, b)
      {
        assert Eligible(w, skips, b) && Sooner(w, a, b);
      }
    }
  }

  /** Why a waiting report lapses, each reason read off the table. */
  predicate LapsesFor(w: World, at: int, promote: bool, skips: set<Account>, a: Account, reason: Reason)
    requires HasRows(w, a)
  {
    var row, registration := w.rows[Key(a, StoreConnected)], w.rows[Key(a, Reg)].state;
    var failed, first := registration.Refused? || registration.GivenUp?, First(w, skips, a);
    var created, over := row.createdAt, row.createdAt + THIRTY_DAYS <= at;
    match reason
    case RegistrationNotDelivered => failed || (first && over && !registration.Delivered?)
    case SwitchedOffPast30Days => first && over && registration.Delivered? && !promote
    case FirstCardBeforeRegistration => !failed && CardBefore(w, a, created)
    case BelongsToAnotherAccount => !failed && !first && !CardBefore(w, a, created) && CardBefore(w, a, created + THIRTY_DAYS)
    case NoFirstCardIn30Days => !failed && !CardBefore(w, a, created + THIRTY_DAYS) && over
  }

  /** The fate decided names a reason exactly where the table gives it. */
  lemma ReasonsAreOfTheTable(w: World, at: int, promote: bool, skips: set<Account>, a: Account, reason: Reason)
    requires InWaiting(w, skips, a)
    ensures FateOf(w, at, promote, skips, a) == Lapse(reason) <==> LapsesFor(w, at, promote, skips, a, reason)
  {
    var created := w.rows[Key(a, StoreConnected)].createdAt;
    FirstIsHolder(w, skips, a);
    CardBeforeIsFirst(w, a, created);
    CardBeforeIsFirst(w, a, created + THIRTY_DAYS);
  }

  /** Whether it is time to post it, and whether that time is not over. */
  predicate Promoted(w: World, promote: bool, skips: set<Account>, a: Account)
    requires HasRows(w, a)
  {
    First(w, skips, a) && w.rows[Key(a, Reg)].state.Delivered? && promote
  }

  /** What the settling leaves of a waiting report: every column, from the table it read. */
  predicate SettledAs(w: World, at: int, promote: bool, skips: set<Account>, a: Account, next: Row)
    requires HasRows(w, a)
  {
    var row := w.rows[Key(a, StoreConnected)];
    var lapses := exists reason :: LapsesFor(w, at, promote, skips, a, reason);
    && (next.state.Lapsed? <==> lapses)
    && (next.state.Pending? <==> Promoted(w, promote, skips, a) && InDate(w, at, a, row))
    && (next.state.GivenUp? <==> Promoted(w, promote, skips, a) && !InDate(w, at, a, row))
    && (next.state.Waiting? ==> next == row)
    && (next.state.Waiting? || next.state.Lapsed? || next.state.Pending? || next.state.GivenUp?)
    && next.createdAt == row.createdAt && next.attempts == row.attempts
    && (next.state.Lapsed? ==> forall reason ::
          next.lastOutcome == Some(LapsedFor(reason)) <==> LapsesFor(w, at, promote, skips, a, reason))
    && (next.state.Lapsed? ==> next.lastOutcome.Some? && next.lastOutcome.value.LapsedFor? && next.eventAt.None?)
    && (next.state.Pending? || next.state.GivenUp? ==> next.lastOutcome.None? && DatedByTheCard(w, a, next.eventAt))
    && (next.state.Pending? ==> next.click == row.click && next.nextAttemptAt == Some(at) && next.settledAt.None?)
    && (next.state.Lapsed? || next.state.GivenUp? ==>
          next.click.None? && next.nextAttemptAt.None? && next.settledAt == Some(at))
  }

  /** Less than a day after the merchant's first card, and less than thirty after the registration. */
  predicate InDate(w: World, at: int, a: Account, row: Row)
    requires a in w.merchantOf
  {
    !CardBefore(w, a, at - A_DAY + 1) && at < row.createdAt + THIRTY_DAYS
  }

  /** The date is that of the merchant's first card. */
  predicate DatedByTheCard(w: World, a: Account, date: Option<int>)
    requires a in w.merchantOf
  {
    date.Some? && !CardBefore(w, a, date.value) && CardBefore(w, a, date.value + 1)
  }

  lemma TimeIsOfTheTable(w: World, at: int, promote: bool, skips: set<Account>, a: Account)
    requires InWaiting(w, skips, a)
    ensures var fate, row := FateOf(w, at, promote, skips, a), w.rows[Key(a, StoreConnected)];
            && (fate.Due? <==> Promoted(w, promote, skips, a) && InDate(w, at, a, row))
            && (fate.Late? <==> Promoted(w, promote, skips, a) && !InDate(w, at, a, row))
    ensures Promoted(w, promote, skips, a) ==> FirstCard(w, a).Some? && DatedByTheCard(w, a, FirstCard(w, a))
  {
    FirstIsHolder(w, skips, a);
    CardBeforeIsFirst(w, a, at - A_DAY + 1);
    if FirstCard(w, a).Some? {
      CardBeforeIsFirst(w, a, FirstCard(w, a).value);
      CardBeforeIsFirst(w, a, FirstCard(w, a).value + 1);
    }
  }

  /** The settling records of every waiting report it reads what the table says, and no other row changes. */
  lemma TheTableDecides(w: World, at: int, promote: bool, skips: set<Account>, a: Account)
    requires TableInv(w) && InWaiting(w, skips, a)
    ensures HasRows(w, a) && Key(a, StoreConnected) in Settled(w, at, promote, skips).rows
    ensures SettledAs(w, at, promote, skips, a, Settled(w, at, promote, skips).rows[Key(a, StoreConnected)])
  {
    var fate := FateOf(w, at, promote, skips, a);
    assert RowOk(Key(a, StoreConnected), w.rows[Key(a, StoreConnected)], w.clock);
    forall reason ensures fate == Lapse(reason) <==> LapsesFor(w, at, promote, skips, a, reason) {
      ReasonsAreOfTheTable(w, at, promote, skips, a, reason);
    }
    TimeIsOfTheTable(w, at, promote, skips, a);
    if fate.Lapse? { assert LapsesFor(w, at, promote, skips, a, fate.reason); }
  }

  /** Of a whole table settled: each waiting report as the table said, and every other row as it was. */
  ghost predicate SettledByTheTable(w: World, v: World, at: int, promote: bool, skips: set<Account>) {
    && (forall a | InWaiting(w, skips, a) ::
          HasRows(w, a) && Key(a, StoreConnected) in v.rows && SettledAs(w, at, promote, skips, a, v.rows[Key(a, StoreConnected)]))
    && (forall k | k in w.rows && !(k.event.StoreConnected? && InWaiting(w, skips, k.account)) :: k in v.rows && v.rows[k] == w.rows[k])
  }

  lemma SettlingIsByTheTable(w: World, at: int, promote: bool, skips: set<Account>)
    requires TableInv(w)
    ensures SettledByTheTable(w, Settled(w, at, promote, skips), at, promote, skips)
  {
    forall a | InWaiting(w, skips, a)
      ensures HasRows(w, a) && Key(a, StoreConnected) in Settled(w, at, promote, skips).rows
      ensures SettledAs(w, at, promote, skips, a, Settled(w, at, promote, skips).rows[Key(a, StoreConnected)])
    {
      TheTableDecides(w, at, promote, skips, a);
    }
    forall k | k in w.rows && !(k.event.StoreConnected? && InWaiting(w, skips, k.account))
      ensures k in Settled(w, at, promote, skips).rows && Settled(w, at, promote, skips).rows[k] == w.rows[k]
    {
      OthersStay(w, at, promote, skips, k);
    }
  }

  lemma OthersStay(w: World, at: int, promote: bool, skips: set<Account>, k: Key)
    requires k in w.rows && !(k.event.StoreConnected? && InWaiting(w, skips, k.account))
    ensures k in Settled(w, at, promote, skips).rows && Settled(w, at, promote, skips).rows[k] == w.rows[k]
  {
  }
}
