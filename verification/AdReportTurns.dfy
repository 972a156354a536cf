/** One turn of each kind; turns never overlap, and what else is committed may come at every point where one waits. */
module AdReportTurns {
  import opened Options
  import opened AdReportModel
  import opened AdReportSettling

  /** What the tracker, or the network before it, said to one post. */
  datatype Answer = Status(code: int) | TimedOut | Unreachable

  datatype Next = Final(state: State) | Retry

  function OutcomeOf(answer: Answer): Outcome {
    match answer
    case Status(code) => Http(code)
    case TimedOut => Timeout
    case Unreachable => NetworkError
  }

  function NextOf(answer: Answer): Next {
    match answer
    case Status(code) =>
      if code == 200 then Final(Delivered)
      else if code == 429 || code >= 500 then Retry
      else Final(Refused)
    case _ => Retry
  }

  /** Where the database fails a turn: before it posts, or when it records or commits. */
  datatype Failure = Nowhere | Early | Recording

  datatype Took = Took | Idle | Threw

  datatype Turn = Turn(world: World, took: Took)

  /** Everything a reporting turn does not decide for itself. */
  datatype ReportInput = ReportInput(
    settling: seq<Change>,   // after the clock is read, before the statement runs
    settleSkips: set<Account>,
    selecting: seq<Change>,  // until the clock is read for what is due
    locking: seq<Change>,    // until the due row is locked
    dueSkips: set<Key>,
    checking: seq<Change>,   // until the row's time is checked
    starting: seq<Change>,   // until the post begins
    answer: Answer,
    posting: seq<Change>,    // while the tracker answers
    pausing: seq<Change>,    // while the turn holds the lock for the spacing
    failure: Failure)

  datatype ExpireInput = ExpireInput(
    giving: seq<Change>,     // between reading the clock and giving up
    between: seq<Change>,
    settling: seq<Change>,
    skips: set<Account>,
    fails: bool)

  // ---- Taking the due row ----

  predicate IsDue(w: World, at: int, skips: set<Key>, k: Key) {
    && k in w.rows && k !in skips
    && w.rows[k].state.Pending?
    && w.rows[k].nextAttemptAt.Some? && w.rows[k].nextAttemptAt.value <= at
  }

  /** By the moment it is next due, then the account, then the event. */
  predicate DueBefore(w: World, j: Key, k: Key) {
    && j in w.rows && w.rows[j].nextAttemptAt.Some?
    && k in w.rows && w.rows[k].nextAttemptAt.Some?
    && var one, other := w.rows[j].nextAttemptAt.value, w.rows[k].nextAttemptAt.value;
       || one < other
       || (one == other && (j.account < k.account
                            || (j.account == k.account && j.event.Reg? && k.event.StoreConnected?)))
  }

  predicate IsFirstDue(w: World, at: int, skips: set<Key>, k: Key) {
    && IsDue(w, at, skips, k)
    && forall j | j in w.rows :: IsDue(w, at, skips, j) && j != k ==> DueBefore(w, k, j)
  }

  predicate AnyDue(w: World, at: int, skips: set<Key>) {
    exists k | k in w.rows :: IsDue(w, at, skips, k)
  }

  /** Among finitely many due rows one comes first. */
  lemma {:induction false} FirstAmong(w: World, at: int, skips: set<Key>, keys: set<Key>) returns (k: Key)
    requires keys != {} && forall j | j in keys :: IsDue(w, at, skips, j)
    ensures k in keys && forall j | j in keys && j != k :: DueBefore(w, k, j)
    decreases keys
  {
    k :| k in keys;
    assert keys == {k} + (keys - {k});
    if keys - {k} != {} {
      var one := k;
      var other := FirstAmong(w, at, skips, keys - {k});
      if DueBefore(w, other, one) { k := other; }
      assert Key(one.account, one.event) == one && Key(other.account, other.event) == other;
      forall j | j in keys && j != k ensures DueBefore(w, k, j) {
        if j != one && j != other { assert j in keys - {one} && DueBefore(w, other, j); }
      }
    }
  }

  lemma FirstDueExists(w: World, at: int, skips: set<Key>)
    requires AnyDue(w, at, skips)
    ensures exists k :: IsFirstDue(w, at, skips, k)
  {
    var due := set j | j in w.rows && IsDue(w, at, skips, j);
    var some :| some in w.rows && IsDue(w, at, skips, some);
    assert some in due;
    var k := FirstAmong(w, at, skips, due);
    forall j | j in w.rows && IsDue(w, at, skips, j) && j != k ensures DueBefore(w, k, j) {
      assert j in due;
    }
    assert IsFirstDue(w, at, skips, k);
  }

  lemma FirstDueIsOne(w: World, at: int, skips: set<Key>, j: Key, k: Key)
    requires IsFirstDue(w, at, skips, j) && IsFirstDue(w, at, skips, k)
    ensures j == k
  {}

  ghost function FirstDue(w: World, at: int, skips: set<Key>): (k: Key)
    requires AnyDue(w, at, skips)
    ensures IsFirstDue(w, at, skips, k)
  {
    FirstDueExists(w, at, skips);
    var k :| IsFirstDue(w, at, skips, k);
    k
  }

  // ---- Recording the outcome ----

  function Settle(row: Row, state: State, outcome: Outcome, attempts: nat, at: int): Row {
    Row(state, None, attempts, None, Some(outcome), row.createdAt, row.eventAt, Some(at))
  }

  /** The row once the tracker answered, read at `at`. */
  function AfterAnswer(row: Row, answer: Answer, at: int): Row
    requires row.eventAt.Some?
  {
    var attempts := row.attempts + 1;
    match NextOf(answer)
    case Final(state) => Settle(row, state, OutcomeOf(answer), attempts, at)
    case Retry =>
      var nextAt := at + RetryDelay(attempts);
      if nextAt >= LastTry(row.eventAt.value, row.createdAt)
      then Settle(row, GivenUp, OutcomeOf(answer), attempts, at)
      else row.(attempts := attempts, nextAttemptAt := Some(nextAt), lastOutcome := Some(OutcomeOf(answer)))
  }

  function WithRow(w: World, k: Key, row: Row): World {
    w.(rows := w.rows[k := row])
  }

  /** The turn's end waits for the rest of the spacing, whatever others do meanwhile. */
  function Paused(w: World, started: int, meanwhile: seq<Change>): World {
    var left := SPACED_MS - (w.clock - started);
    var after := Meanwhile(w, meanwhile);
    if left > 0 && after.clock < w.clock + left then after.(clock := w.clock + left) else after
  }

  /** What a rolled back turn leaves: what others committed meanwhile, the time, and the posts. */
  function RolledBack(before: World, meanwhile: seq<Change>, reached: World): World {
    Meanwhile(before, meanwhile).(clock := reached.clock, posts := reached.posts)
  }

  // ---- A reporting turn, stage by stage ----

  function AtSelect(w: World, input: ReportInput): World {
    var settled := Settled(Meanwhile(w, input.settling), w.clock, true, input.settleSkips);
    Meanwhile(settled, input.selecting)
  }

  /** The moment the due rows are compared with. */
  function SelectAt(w: World, input: ReportInput): int {
    AtSelect(w, input).clock
  }

  function AtLock(w: World, input: ReportInput): World {
    Meanwhile(AtSelect(w, input), input.locking)
  }

  function AtCheck(w: World, input: ReportInput): World {
    Meanwhile(AtLock(w, input), input.checking)
  }

  function AtStart(w: World, input: ReportInput): World {
    Meanwhile(AtCheck(w, input), input.starting)
  }

  predicate Finds(w: World, input: ReportInput) {
    AnyDue(AtLock(w, input), SelectAt(w, input), input.dueSkips)
  }

  ghost function Found(w: World, input: ReportInput): Key
    requires Finds(w, input)
  {
    FirstDue(AtLock(w, input), SelectAt(w, input), input.dueSkips)
  }

  ghost function FoundRow(w: World, input: ReportInput): Row
    requires Finds(w, input)
  {
    AtLock(w, input).rows[Found(w, input)]
  }

  /** Whether the row's time is already over when the turn looks. */
  ghost predicate TooLate(w: World, input: ReportInput)
    requires Finds(w, input)
  {
    && FoundRow(w, input).click.Some? && FoundRow(w, input).eventAt.Some?
    && AtCheck(w, input).clock >= LastTry(FoundRow(w, input).eventAt.value, FoundRow(w, input).createdAt)
  }

  /** The turn posts: it found a due row with its click and its date, in time, and was not failed before. */
  ghost predicate Posts(w: World, input: ReportInput) {
    && !input.failure.Early?
    && Finds(w, input)
    && FoundRow(w, input).click.Some? && FoundRow(w, input).eventAt.Some?
    && !TooLate(w, input)
  }

  ghost function PostOf(w: World, input: ReportInput): Post
    requires Posts(w, input)
  {
    var row := FoundRow(w, input);
    Post(Found(w, input), row.click.value, row.eventAt.value, row.createdAt,
         AtCheck(w, input).clock, AtStart(w, input).clock)
  }

  /** Just before the outcome is recorded. */
  ghost function AtAnswer(w: World, input: ReportInput): World
    requires Posts(w, input)
  {
    var started := AtStart(w, input);
    Meanwhile(started.(posts := started.posts + [PostOf(w, input)]), input.posting)
  }

  /** Once the outcome is recorded, were it recorded, and the spacing has passed. */
  ghost function AtEnd(w: World, input: ReportInput): World
    requires Posts(w, input)
  {
    var answered := AtAnswer(w, input);
    var recorded := WithRow(answered, Found(w, input), AfterAnswer(FoundRow(w, input), input.answer, answered.clock));
    Paused(recorded, AtStart(w, input).clock, input.pausing)
  }

  function BeforeCheck(input: ReportInput): seq<Change> {
    input.settling + input.selecting + input.locking + input.checking
  }

  function Everything(input: ReportInput): seq<Change> {
    BeforeCheck(input) + input.starting + input.posting + input.pausing
  }

  ghost function ReportTurn(w: World, input: ReportInput): Turn {
    if Posts(w, input) then
      if input.failure.Recording?
      then Turn(RolledBack(w, Everything(input), AtEnd(w, input)), Threw)
      else Turn(AtEnd(w, input), Took)
    else if input.failure.Early? || input.failure.Recording? then
      Turn(RolledBack(w, BeforeCheck(input), AtCheck(w, input)), Threw)
    else if !Finds(w, input) then Turn(AtLock(w, input), Idle)
    else if TooLate(w, input) then
      var late := AtCheck(w, input);
      Turn(WithRow(late, Found(w, input), GiveUp(FoundRow(w, input), late.clock)), Took)
    else
      // A pending row without its click or its date, which the table refuses.
      Turn(RolledBack(w, BeforeCheck(input), AtCheck(w, input)), Threw)
  }

  // ---- A turn while reporting is switched off ----

  function AfterGivingUp(w: World, input: ExpireInput): World {
    GivenUpLate(Meanwhile(w, input.giving), w.clock)
  }

  function BeforeSettling(w: World, input: ExpireInput): World {
    Meanwhile(AfterGivingUp(w, input), input.between)
  }

  function ExpireTurn(w: World, input: ExpireInput): Turn {
    var read := BeforeSettling(w, input);
    var settled := Settled(Meanwhile(read, input.settling), read.clock, false, input.skips);
    if input.fails
    then Turn(RolledBack(w, input.giving + input.between + input.settling, settled), Threw)
    else Turn(settled, Idle)
  }

  // ---- Runs ----

  datatype Step =
    | Between(change: Change)
    | Delete(account: Account)      // an account that names no merchant
    | Report(input: ReportInput)
    | Expire(expiry: ExpireInput)

  function Deleted(w: World, a: Account): World {
    if a in w.merchantOf && w.merchantOf[a].None?
    then w.(rows := w.rows - {Key(a, Reg), Key(a, StoreConnected)}, merchantOf := w.merchantOf - {a})
    else w
  }

  ghost function After(w: World, step: Step): World {
    match step
    case Between(change) => Changed(w, change)
    case Delete(a) => Deleted(w, a)
    case Report(input) => ReportTurn(w, input).world
    case Expire(input) => ExpireTurn(w, input).world
  }

  /** Where a run from `w` stands after its steps. */
  ghost function Run(w: World, steps: seq<Step>): World {
    if steps == [] then w else After(Run(w, steps[..|steps| - 1]), steps[|steps| - 1])
  }
}
