/** What every reachable table keeps, and that each kind of change keeps it. */
module AdReportInvariants {
  import opened Options
  import opened AdReportModel
  import opened AdReportSettling
  import opened AdReportTurns

  /** The first n delays together. */
  function DelaySum(n: nat): int {
    if n == 0 then 0 else DelaySum(n - 1) + RetryDelay(n)
  }

  /** Eight waits no longer fit in a day. */
  lemma {:induction false} EightWaitsOutlastADay(n: nat)
    ensures n >= 8 <==> DelaySum(n) >= RETRIED_FOR_MS
    ensures n >= 8 ==> DelaySum(n) >= DelaySum(8)
  {
    if n > 8 {
      EightWaitsOutlastADay(n - 1);
    } else {
      assert DelaySum(4) == DelaySum(3) + RetryDelay(4) == 9_360_000 by {
        assert DelaySum(2) == DelaySum(1) + RetryDelay(2) == 360_000;
      }
      assert DelaySum(6) == DelaySum(5) + RetryDelay(6) && DelaySum(5) == DelaySum(4) + RetryDelay(5);
      assert DelaySum(8) == DelaySum(7) + RetryDelay(8) && DelaySum(7) == DelaySum(6) + RetryDelay(7);
      assert DelaySum(3) == DelaySum(2) + RetryDelay(3);
    }
  }

  // ---- The invariant ----

  /** Publication times in the order they came, none of them ahead of the clock. */
  ghost predicate Past(times: seq<int>, clock: int) {
    && times != []
    && (forall i, j | 0 <= i <= j < |times| :: times[i] <= times[j])
    && (forall i | 0 <= i < |times| :: times[i] <= clock)
  }

  ghost predicate CardsInv(w: World) {
    forall m | m in w.cards :: Past(w.cards[m], w.clock)
  }

  /** What one row says of itself: the rules its table checks, and its dates and tries. */
  ghost predicate RowOk(k: Key, row: Row, clock: int) {
    && Open(row.state) == row.click.Some?
    && Open(row.state) == row.settledAt.None?
    && row.state.Pending? == row.nextAttemptAt.Some?
    && Unsent(row.state) == row.eventAt.None?
    && (k.event.Reg? ==> row.eventAt == Some(row.createdAt))
    && row.createdAt <= clock
    && (row.eventAt.Some? ==> row.eventAt.value <= clock)
    && (Unsent(row.state) ==> row.attempts == 0)
    && row.attempts <= 8
    && (row.state.Pending? ==> Scheduled(row))
  }

  /** A pending row is next due inside its time, and no sooner than its waits allow. */
  ghost predicate Scheduled(row: Row)
    requires row.nextAttemptAt.Some? && row.eventAt.Some?
  {
    && row.nextAttemptAt.value < LastTry(row.eventAt.value, row.createdAt)
    && (row.attempts > 0 ==> row.nextAttemptAt.value >= row.eventAt.value + DelaySum(row.attempts))
  }

  ghost predicate RowsInv(w: World) {
    && (forall k | k in w.rows :: RowOk(k, w.rows[k], w.clock))
    && (forall k | k in w.rows :: Paired(w, k.account))
  }

  /** A registration makes both rows at one moment. */
  ghost predicate Paired(w: World, a: Account) {
    && a in w.merchantOf
    && Key(a, Reg) in w.rows && Key(a, StoreConnected) in w.rows
    && w.rows[Key(a, Reg)].createdAt == w.rows[Key(a, StoreConnected)].createdAt
  }

  /** The account's store report is or was the tracker's business. */
  predicate Left(w: World, a: Account) {
    Key(a, StoreConnected) in w.rows && !Unsent(w.rows[Key(a, StoreConnected)].state)
  }

  /** It belongs to an account whose registration was delivered, and is dated by its merchant's first card. */
  ghost predicate Earned(w: World, a: Account)
    requires Left(w, a)
  {
    var row := w.rows[Key(a, StoreConnected)];
    && a in w.merchantOf && w.merchantOf[a].Some?
    && row.eventAt == FirstCard(w, a)
    && row.eventAt.Some?
    && row.createdAt <= row.eventAt.value < row.createdAt + KEPT_FOR_MS
    && Key(a, Reg) in w.rows && w.rows[Key(a, Reg)].state.Delivered?
  }

  ghost predicate StoresInv(w: World) {
    && (forall a | a in w.merchantOf && Left(w, a) :: Earned(w, a))
    && (forall a, b | a in w.merchantOf && b in w.merchantOf && Left(w, a) && Left(w, b)
                      && w.merchantOf[a] == w.merchantOf[b] :: a == b)
  }

  ghost predicate TableInv(w: World) {
    CardsInv(w) && RowsInv(w) && StoresInv(w)
  }

  /** A post was in time when it was checked, and a store's post has its registration delivered behind it. */
  ghost predicate PostOk(w: World, post: Post) {
    && post.eventAt <= post.checkedAt < LastTry(post.eventAt, post.createdAt)
    && post.checkedAt <= post.startedAt
    && (post.key.event.StoreConnected? ==>
          && post.key.account in w.merchantOf && w.merchantOf[post.key.account].Some?
          && FirstCard(w, post.key.account) == Some(post.eventAt)
          && post.createdAt <= post.eventAt < post.createdAt + KEPT_FOR_MS
          && Key(post.key.account, Reg) in w.rows && w.rows[Key(post.key.account, Reg)].state.Delivered?)
  }

  ghost predicate Spaced(posts: seq<Post>) {
    forall i, j | 0 <= i < j < |posts| :: posts[i].startedAt + SPACED_MS <= posts[j].startedAt
  }

  ghost predicate LockFree(w: World) {
    w.posts != [] ==> w.posts[|w.posts| - 1].startedAt + SPACED_MS <= w.clock
  }

  ghost predicate PostsInv(w: World) {
    && Spaced(w.posts)
    && (forall i | 0 <= i < |w.posts| :: PostOk(w, w.posts[i]))
  }

  /** What holds whenever no turn is running. */
  ghost predicate Inv(w: World) {
    TableInv(w) && PostsInv(w) && LockFree(w)
  }

  // ---- First cards never move ----

  lemma {:induction false} EarliestIsFirst(times: seq<int>)
    requires times != [] && forall i, j | 0 <= i <= j < |times| :: times[i] <= times[j]
    ensures Earliest(times) == times[0]
  {
    if |times| > 1 { EarliestIsFirst(times[1..]); }
  }

  /** Everything only grows: attachments stay, first cards stay, time goes on. */
  ghost predicate Grows(v: World, w: World) {
    && v.clock <= w.clock
    && (forall a | a in v.merchantOf ::
          a in w.merchantOf && (v.merchantOf[a].Some? ==>
            w.merchantOf[a] == v.merchantOf[a]
            && (FirstCard(v, a).Some? ==> FirstCard(w, a) == FirstCard(v, a))))
  }

  lemma ChangeGrows(w: World, c: Change)
    requires CardsInv(w)
    ensures CardsInv(Changed(w, c)) && Grows(w, Changed(w, c))
  {
    var v := Changed(w, c);
    if c.Publish? {
      if c.merchant in w.cards { EarliestIsFirst(w.cards[c.merchant]); }
      EarliestIsFirst(v.cards[c.merchant]);
    }
  }

  // ---- Each change keeps the table ----

  lemma ChangeKeepsRows(w: World, c: Change)
    requires RowsInv(w)
    ensures RowsInv(Changed(w, c))
    ensures forall k | k in w.rows :: k in Changed(w, c).rows && Changed(w, c).rows[k] == w.rows[k]
  {
    var v := Changed(w, c);
    forall k | k in v.rows ensures RowOk(k, v.rows[k], v.clock) && Paired(v, k.account) {
      if k in w.rows {
        assert RowOk(k, w.rows[k], w.clock) && Paired(w, k.account);
      } else {
        assert k in Registered(c.account, c.click, w.clock);
      }
    }
  }

  lemma ChangeKeepsStores(w: World, c: Change)
    requires TableInv(w)
    ensures StoresInv(Changed(w, c))
  {
    ChangeGrows(w, c);
    var v := Changed(w, c);
    forall a | a in v.merchantOf && Left(v, a)
      ensures a in w.merchantOf && Left(w, a) && Earned(v, a)
    {
      assert Left(w, a);
      assert Key(a, StoreConnected) in w.rows;
      assert Earned(w, a);
    }
  }

  lemma {:induction false} MeanwhileKeeps(w: World, changes: seq<Change>)
    requires TableInv(w)
    ensures TableInv(Meanwhile(w, changes)) && Grows(w, Meanwhile(w, changes))
    ensures Meanwhile(w, changes).posts == w.posts
    ensures forall k | k in w.rows :: k in Meanwhile(w, changes).rows && Meanwhile(w, changes).rows[k] == w.rows[k]
    decreases |changes|
  {
    if changes != [] {
      ChangeGrows(w, changes[0]);
      ChangeKeepsRows(w, changes[0]);
      ChangeKeepsStores(w, changes[0]);
      MeanwhileKeeps(Changed(w, changes[0]), changes[1..]);
    }
  }

  lemma FateKeepsRow(w: World, at: int, promote: bool, skips: set<Account>, a: Account)
    requires TableInv(w) && InWaiting(w, skips, a) && !FateOf(w, at, promote, skips, a).Stay?
    ensures RowOk(Key(a, StoreConnected),
                  WithFate(w.rows[Key(a, StoreConnected)], FateOf(w, at, promote, skips, a), FirstCard(w, a), at),
                  w.clock)
  {
    assert RowOk(Key(a, StoreConnected), w.rows[Key(a, StoreConnected)], w.clock);
    FirstCardIsPast(w, a);
  }

  lemma SettlingKeepsRows(w: World, at: int, promote: bool, skips: set<Account>)
    requires TableInv(w)
    ensures RowsInv(Settled(w, at, promote, skips))
  {
    var v := Settled(w, at, promote, skips);
    forall k | k in v.rows ensures RowOk(k, v.rows[k], v.clock) && Paired(v, k.account) {
      assert RowOk(k, w.rows[k], w.clock) && Paired(w, k.account);
      if k in SettleWrites(w, at, promote, skips) {
        assert k == Key(k.account, StoreConnected);
        FateKeepsRow(w, at, promote, skips, k.account);
      }
    }
  }

  lemma FirstCardIsPast(w: World, a: Account)
    requires CardsInv(w)
    ensures FirstCard(w, a).Some? ==> FirstCard(w, a).value <= w.clock
  {
    if FirstCard(w, a).Some? {
      var m := w.merchantOf[a].value;
      assert Past(w.cards[m], w.clock);
      EarliestIsFirst(w.cards[m]);
    }
  }

  lemma SettledLeft(w: World, at: int, promote: bool, skips: set<Account>, a: Account)
    requires TableInv(w) && a in w.merchantOf && Left(Settled(w, at, promote, skips), a)
    ensures Earned(Settled(w, at, promote, skips), a) && (Left(w, a) || Holds(w, skips, a))
  {
    var v := Settled(w, at, promote, skips);
    assert Key(a, StoreConnected) in w.rows && Paired(w, a);
    assert v.rows[Key(a, Reg)] == w.rows[Key(a, Reg)];
    assert FirstCard(v, a) == FirstCard(w, a);
    if Left(w, a) { assert Earned(w, a); }
  }

  lemma OneIsLeft(w: World, skips: set<Account>, a: Account, b: Account)
    requires TableInv(w) && a in w.merchantOf && b in w.merchantOf && w.merchantOf[a] == w.merchantOf[b]
    requires (Left(w, a) || Holds(w, skips, a)) && (Left(w, b) || Holds(w, skips, b))
    ensures a == b
  {
    if Left(w, a) { assert Earned(w, a); }
    if Left(w, b) { assert Earned(w, b); }
  }

  lemma SettlingKeepsStores(w: World, at: int, promote: bool, skips: set<Account>)
    requires TableInv(w)
    ensures StoresInv(Settled(w, at, promote, skips))
  {
    var v := Settled(w, at, promote, skips);
    forall a | a in v.merchantOf && Left(v, a) ensures Earned(v, a) && (Left(w, a) || Holds(w, skips, a)) {
      SettledLeft(w, at, promote, skips, a);
    }
    forall a, b | a in v.merchantOf && b in v.merchantOf && Left(v, a) && Left(v, b) && v.merchantOf[a] == v.merchantOf[b]
      ensures a == b
    {
      OneIsLeft(w, skips, a, b);
    }
  }

  /** A write that moves a pending row on, keeping its dates. */
  ghost predicate MovesOn(k: Key, row: Row, next: Row, clock: int) {
    && row.state.Pending?
    && RowOk(k, next, clock)
    && !Unsent(next.state)
    && next.createdAt == row.createdAt && next.eventAt == row.eventAt
  }

  lemma MovingOnKeeps(w: World, writes: map<Key, Row>)
    requires TableInv(w)
    requires forall k | k in writes :: k in w.rows && MovesOn(k, w.rows[k], writes[k], w.clock)
    ensures TableInv(w.(rows := w.rows + writes))
  {
    var v := w.(rows := w.rows + writes);
    forall k | k in v.rows ensures RowOk(k, v.rows[k], v.clock) && Paired(v, k.account) {
      assert RowOk(k, w.rows[k], w.clock) && Paired(w, k.account);
    }
    forall a | a in v.merchantOf && Left(v, a) ensures Left(w, a) && Earned(v, a) {
      assert Key(a, StoreConnected) in w.rows;
      assert Left(w, a) && Earned(w, a);
      assert FirstCard(v, a) == FirstCard(w, a);
      assert Key(a, Reg) !in writes;
    }
  }

  lemma GivingUpKeeps(w: World, at: int)
    requires TableInv(w)
    ensures TableInv(GivenUpLate(w, at))
  {
    var writes := GiveUpLateWrites(w.rows, at);
    forall k | k in writes ensures MovesOn(k, w.rows[k], writes[k], w.clock) {
      assert RowOk(k, w.rows[k], w.clock);
    }
    MovingOnKeeps(w, writes);
  }

  /** The recorded outcome is a row its table accepts; a retry is scheduled inside its time. */
  lemma AnswerMovesOn(w: World, k: Key, row: Row, answer: Answer)
    requires RowOk(k, row, w.clock) && row.state.Pending?
    requires row.nextAttemptAt.value <= w.clock
    ensures MovesOn(k, row, AfterAnswer(row, answer, w.clock), w.clock)
  {
    EightWaitsOutlastADay(row.attempts);
    EightWaitsOutlastADay(row.attempts + 1);
  }

  lemma RecordingKeeps(w: World, k: Key, row: Row)
    requires TableInv(w) && k in w.rows && MovesOn(k, w.rows[k], row, w.clock)
    ensures TableInv(WithRow(w, k, row))
  {
    MovingOnKeeps(w, map[k := row]);
    assert w.rows + map[k := row] == w.rows[k := row];
  }

  // ---- Posts ----

  /** What was posted stays true of it while registrations stay delivered. */
  lemma PostsStay(v: World, w: World)
    requires PostsInv(v) && Grows(v, w) && w.posts == v.posts
    requires forall k | k in v.rows && v.rows[k].state.Delivered? :: k in w.rows && w.rows[k].state.Delivered?
    ensures PostsInv(w)
  {
    forall i | 0 <= i < |w.posts| ensures PostOk(w, w.posts[i]) {
      assert PostOk(v, v.posts[i]);
    }
  }

  // ---- Turns ----

  /** Rows already there stay as they were. */
  ghost predicate RowsKept(v: World, w: World) {
    forall k | k in v.rows :: k in w.rows && w.rows[k] == v.rows[k]
  }

  lemma SettlingStageKeeps(w: World, input: ReportInput)
    requires TableInv(w)
    ensures TableInv(AtSelect(w, input)) && Grows(w, AtSelect(w, input)) && AtSelect(w, input).posts == w.posts
  {
    var read := Meanwhile(w, input.settling);
    var settled := Settled(read, w.clock, true, input.settleSkips);
    MeanwhileKeeps(w, input.settling);
    SettlingKeepsTable(read, w.clock, true, input.settleSkips);
    MeanwhileKeeps(settled, input.selecting);
    GrowsOn(w, read, settled);
    GrowsOn(w, settled, AtSelect(w, input));
  }

  lemma SettlingKeepsTable(w: World, at: int, promote: bool, skips: set<Account>)
    requires TableInv(w)
    ensures TableInv(Settled(w, at, promote, skips)) && Grows(w, Settled(w, at, promote, skips))
  {
    SettlingKeepsRows(w, at, promote, skips);
    SettlingKeepsStores(w, at, promote, skips);
    forall a ensures FirstCard(Settled(w, at, promote, skips), a) == FirstCard(w, a) {}
  }

  lemma GrowsOn(u: World, v: World, w: World)
    requires Grows(u, v) && Grows(v, w)
    ensures Grows(u, w)
  {
  }

  lemma LockingStageKeeps(w: World, input: ReportInput)
    requires TableInv(AtSelect(w, input))
    ensures TableInv(AtLock(w, input)) && Grows(AtSelect(w, input), AtLock(w, input))
    ensures AtLock(w, input).posts == AtSelect(w, input).posts
  {
    MeanwhileKeeps(AtSelect(w, input), input.locking);
  }

  lemma CheckingStageKeeps(w: World, input: ReportInput)
    requires TableInv(AtLock(w, input))
    ensures TableInv(AtCheck(w, input)) && Grows(AtLock(w, input), AtCheck(w, input))
    ensures AtCheck(w, input).posts == AtLock(w, input).posts && RowsKept(AtLock(w, input), AtCheck(w, input))
  {
    MeanwhileKeeps(AtLock(w, input), input.checking);
  }

  lemma StartingStageKeeps(w: World, input: ReportInput)
    requires TableInv(AtCheck(w, input))
    ensures TableInv(AtStart(w, input)) && Grows(AtCheck(w, input), AtStart(w, input))
    ensures AtStart(w, input).posts == AtCheck(w, input).posts && RowsKept(AtCheck(w, input), AtStart(w, input))
  {
    MeanwhileKeeps(AtCheck(w, input), input.starting);
  }
}
